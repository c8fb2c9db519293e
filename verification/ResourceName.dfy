// pkg/internal/rn/rn.go: the recogniser and the parser of resource names.
module ResourceName {
  datatype RN = RN(service: string, resource: string)

  datatype Parsed = Ok(rn: RN) | InvalidPrefix | InvalidSections

  const SECTIONS := 6
  const SECTION_SERVICE := 2
  const SECTION_RESOURCE := 5

  predicate HasPrefix(s: string, prefix: string) {
    |prefix| <= |s| && s[..|prefix|] == prefix
  }

  predicate IsPrefix(s: string) {
    HasPrefix(s, "rn:") || HasPrefix(s, "arn:")
  }

  // Position of the first delimiter.
  function IndexColon(s: string): (i: nat)
    requires ':' in s
    ensures i < |s| && s[i] == ':' && ':' !in s[..i]
  {
    if s[0] == ':' then 0 else
    var i := IndexColon(s[1..]);
    assert s[..i + 1] == [s[0]] + s[1..][..i];
    i + 1
  }

  function Count(s: string): nat {
    if s == [] then 0 else (if s[0] == ':' then 1 else 0) + Count(s[1..])
  }

  // strings.SplitN for a positive n: the last section keeps its delimiters.
  function SplitN(s: string, n: nat): (sections: seq<string>)
    requires n > 0
    ensures 0 < |sections| <= n
    decreases n
  {
    if n == 1 || ':' !in s then [s]
    else
      var i := IndexColon(s);
      [s[..i]] + SplitN(s[i + 1..], n - 1)
  }

  function Join(sections: seq<string>): string {
    if sections == [] then ""
    else if |sections| == 1 then sections[0]
    else sections[0] + ":" + Join(sections[1..])
  }

  function Parse(s: string): Parsed {
    if !IsPrefix(s) then InvalidPrefix
    else
      var sections := SplitN(s, SECTIONS);
      if |sections| != SECTIONS then InvalidSections
      else Ok(RN(sections[SECTION_SERVICE], sections[SECTION_RESOURCE]))
  }

  predicate IsRN(s: string) {
    IsPrefix(s) && Count(s) >= SECTIONS - 1
  }

  // ---- Counting and splitting agree

  lemma {:induction false} CountConcat(a: string, b: string)
    ensures Count(a + b) == Count(a) + Count(b)
  {
    if a == [] {
      assert a + b == b;
    } else {
      assert (a + b)[1..] == a[1..] + b;
      CountConcat(a[1..], b);
    }
  }

  lemma {:induction false} CountNone(s: string)
    ensures Count(s) == 0 <==> ':' !in s
  {
    if s != [] {
      CountNone(s[1..]);
      assert s == [s[0]] + s[1..];
    }
  }

  lemma CountAfterFirst(s: string)
    requires ':' in s
    ensures Count(s[IndexColon(s) + 1..]) == Count(s) - 1
  {
    var i := IndexColon(s);
    assert s == s[..i] + ([':'] + s[i + 1..]);
    CountConcat(s[..i], [':'] + s[i + 1..]);
    CountConcat([':'], s[i + 1..]);
    CountNone(s[..i]);
    assert Count([':']) == 1;
  }

  lemma {:induction false} SplitLength(s: string, n: nat)
    requires n > 0
    ensures |SplitN(s, n)| == if Count(s) + 1 < n then Count(s) + 1 else n
    decreases n
  {
    CountNone(s);
    if n > 1 && ':' in s {
      CountAfterFirst(s);
      SplitLength(s[IndexColon(s) + 1..], n - 1);
    }
  }

  // The recogniser accepts exactly what the parser parses.
  lemma IsRNIffParses(s: string)
    ensures IsRN(s) <==> Parse(s).Ok?
  {
    SplitLength(s, SECTIONS);
  }

  // ---- Round trips

  lemma SplitStep(s: string, n: nat)
    requires n > 1 && ':' in s
    ensures var i := IndexColon(s);
            && s == s[..i] + ":" + s[i + 1..]
            && ':' !in s[..i]
            && SplitN(s, n) == [s[..i]] + SplitN(s[i + 1..], n - 1)
  {
  }

  lemma {:induction false} SplitJoins(s: string, n: nat)
    requires n > 0
    ensures Join(SplitN(s, n)) == s && ColonFree(SplitN(s, n))
    decreases n
  {
    if n > 1 && ':' in s {
      var i := IndexColon(s);
      SplitStep(s, n);
      SplitJoins(s[i + 1..], n - 1);
      assert SplitN(s, n)[1..] == SplitN(s[i + 1..], n - 1);
    }
  }

  // All sections but the last are free of delimiters.
  predicate ColonFree(sections: seq<string>) {
    |sections| <= 1 || (':' !in sections[0] && ColonFree(sections[1..]))
  }

  lemma {:induction false} FirstColon(head: string, tail: string)
    requires ':' !in head
    ensures ':' in head + ":" + tail
    ensures IndexColon(head + ":" + tail) == |head|
  {
    var s := head + ":" + tail;
    assert s[|head|] == ':';
    if head != "" {
      FirstColon(head[1..], tail);
      assert s[1..] == head[1..] + ":" + tail;
    }
  }

  lemma SplitCons(head: string, tail: string, n: nat)
    requires ':' !in head && n > 1
    ensures SplitN(head + ":" + tail, n) == [head] + SplitN(tail, n - 1)
  {
    var s := head + ":" + tail;
    FirstColon(head, tail);
    assert s[..|head|] == head && s[|head| + 1..] == tail;
  }

  lemma {:induction false} JoinSplits(sections: seq<string>)
    requires sections != [] && ColonFree(sections)
    ensures SplitN(Join(sections), |sections|) == sections
    decreases |sections|
  {
    if |sections| > 1 {
      JoinSplits(sections[1..]);
      SplitCons(sections[0], Join(sections[1..]), |sections|);
    }
  }

  lemma {:induction false} ColonFreeSections(sections: seq<string>)
    ensures ColonFree(sections) <==> forall k :: 0 <= k < |sections| - 1 ==> ':' !in sections[k]
  {
    if |sections| > 1 {
      var rest := sections[1..];
      ColonFreeSections(rest);
      assert forall k :: 0 <= k < |rest| - 1 ==> rest[k] == sections[k + 1];
      assert forall k :: 0 < k < |sections| - 1 ==> sections[k] == rest[k - 1];
    }
  }

  lemma PrefixIsFirstSection(head: string, tail: string)
    requires ':' !in head
    ensures IsPrefix(head + ":" + tail) <==> head == "rn" || head == "arn"
  {
    var s := head + ":" + tail;
    assert s[..|head|] == head && s[|head|] == ':';
    if head == "rn" {
      assert s[..3] == "rn:";
    } else if head == "arn" {
      assert s[..4] == "arn:";
    }
    if HasPrefix(s, "rn:") {
      FirstColon("rn", s[3..]);
      assert s == "rn" + ":" + s[3..];
      FirstColon(head, tail);
    }
    if HasPrefix(s, "arn:") {
      FirstColon("arn", s[4..]);
      assert s == "arn" + ":" + s[4..];
      FirstColon(head, tail);
    }
  }

  // Any prefix, four sections without a delimiter and any resource, joined, parse back.
  lemma ParseOfJoined(sections: seq<string>)
    requires |sections| == SECTIONS && (sections[0] == "rn" || sections[0] == "arn")
    requires forall k :: 0 < k < SECTION_RESOURCE ==> ':' !in sections[k]
    ensures Parse(Join(sections)) == Ok(RN(sections[SECTION_SERVICE], sections[SECTION_RESOURCE]))
  {
    assert forall k :: 0 <= k < |sections| - 1 ==> ':' !in sections[k];
    ColonFreeSections(sections);
    JoinSplits(sections);
    PrefixIsFirstSection(sections[0], Join(sections[1..]));
  }

  // Every accepted string is such a join, and its third and sixth sections are what was parsed.
  lemma ParsedIsJoined(s: string) returns (sections: seq<string>)
    requires Parse(s).Ok?
    ensures |sections| == SECTIONS && Join(sections) == s
    ensures sections[0] == "rn" || sections[0] == "arn"
    ensures forall k :: 0 < k < SECTION_RESOURCE ==> ':' !in sections[k]
    ensures Parse(s) == Ok(RN(sections[SECTION_SERVICE], sections[SECTION_RESOURCE]))
  {
    sections := SplitN(s, SECTIONS);
    SplitJoins(s, SECTIONS);
    ColonFreeSections(sections);
    PrefixIsFirstSection(sections[0], Join(sections[1..]));
  }

  // A resource name spelled out: a prefix, four sections without a delimiter, and any resource.
  ghost predicate HasSections(s: string, prefix: string, partition: string, service: string, region: string,
                              account: string, resource: string) {
    && (prefix == "rn" || prefix == "arn")
    && ':' !in partition && ':' !in service && ':' !in region && ':' !in account
    && s == prefix + ":" + partition + ":" + service + ":" + region + ":" + account + ":" + resource
  }

  lemma JoinSix(a: string, b: string, c: string, d: string, e: string, f: string)
    ensures Join([a, b, c, d, e, f]) == a + ":" + b + ":" + c + ":" + d + ":" + e + ":" + f
  {
    JoinCons(e, [f]);
    JoinCons(d, [e, f]);
    JoinCons(c, [d, e, f]);
    JoinCons(b, [c, d, e, f]);
    JoinCons(a, [b, c, d, e, f]);
  }

  lemma JoinCons(head: string, rest: seq<string>)
    requires rest != []
    ensures Join([head] + rest) == head + ":" + Join(rest)
  {
    assert ([head] + rest)[1..] == rest;
  }

  // The third section is parsed as the service, the sixth as the resource.
  lemma SectionsParse(s: string, prefix: string, partition: string, service: string, region: string,
                      account: string, resource: string)
    requires HasSections(s, prefix, partition, service, region, account, resource)
    ensures Parse(s) == Ok(RN(service, resource))
  {
    JoinSix(prefix, partition, service, region, account, resource);
    ParseOfJoined([prefix, partition, service, region, account, resource]);
  }

  lemma SixSections(sections: seq<string>)
    requires |sections| == 6 && (sections[0] == "rn" || sections[0] == "arn")
    requires forall k :: 0 < k < 5 ==> ':' !in sections[k]
    ensures HasSections(Join(sections), sections[0], sections[1], sections[2], sections[3], sections[4], sections[5])
  {
    assert sections == [sections[0], sections[1], sections[2], sections[3], sections[4], sections[5]];
    JoinSix(sections[0], sections[1], sections[2], sections[3], sections[4], sections[5]);
  }

  // Nothing else parses.
  lemma ParsedHasSections(s: string)
    returns (prefix: string, partition: string, service: string, region: string, account: string, resource: string)
    requires Parse(s).Ok?
    ensures HasSections(s, prefix, partition, service, region, account, resource)
    ensures Parse(s) == Ok(RN(service, resource))
  {
    var sections := ParsedIsJoined(s);
    prefix, partition, service := sections[0], sections[1], sections[2];
    region, account, resource := sections[3], sections[4], sections[5];
    SixSections(sections);
  }
}
