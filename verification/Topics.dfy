// pkg/service/backend/aws/aws_sns.go and pkg/service/backend/store/store.go: the topic store that
// publishing resolves against.
module Topics {
  import opened Options
  import opened ResourceName

  datatype SnsInfo = SnsInfo(arn: string, isMessageDeduplicationSetting: bool)

  type Topics = map<string, SnsInfo>

  // The attributes as read: absent or unreadable booleans are false or none.
  datatype Attributes = Attributes(fifo: bool, contentBased: Option<bool>)

  // A listed topic; no attributes when fetching them failed.
  datatype Topic = Topic(arn: Option<string>, attributes: Option<Attributes>)

  // The answer to one ListTopics call.
  datatype Page = ListFailed | Listed(topics: seq<Topic>)

  // The AWS SDK's ARN parser: the resource section, or none for a malformed ARN.
  type ArnParser = string -> Option<string>

  // What that parser does with the six sections.
  function ArnResource(arn: string): Option<string> {
    var sections := SplitN(arn, SECTIONS);
    if HasPrefix(arn, "arn:") && |sections| == SECTIONS then Some(sections[SECTION_RESOURCE]) else None
  }

  predicate Malformed(parse: ArnParser, topic: Topic) {
    topic.arn.Some? && parse(topic.arn.value).None?
  }

  function Learn(parse: ArnParser, store: Topics, topic: Topic): Topics {
    if topic.arn.None? || Malformed(parse, topic) || topic.attributes.None? then store
    else
      var a := topic.attributes.value;
      var dedup := a.fifo && a.contentBased.Some? && !a.contentBased.value;
      store[parse(topic.arn.value).value := SnsInfo(topic.arn.value, dedup)]
  }

  function LearnAll(parse: ArnParser, store: Topics, topics: seq<Topic>): Topics {
    if topics == [] then store
    else Learn(parse, LearnAll(parse, store, topics[..|topics| - 1]), topics[|topics| - 1])
  }

  function FirstMalformed(parse: ArnParser, topics: seq<Topic>, from: nat): (n: nat)
    requires from <= |topics|
    ensures from <= n <= |topics|
    ensures forall k :: from <= k < n ==> !Malformed(parse, topics[k])
    ensures n < |topics| ==> Malformed(parse, topics[n])
    decreases |topics| - from
  {
    if from == |topics| || Malformed(parse, topics[from]) then from else FirstMalformed(parse, topics, from + 1)
  }

  // The listed topics before the first malformed one.
  function WellFormedPrefix(parse: ArnParser, topics: seq<Topic>): seq<Topic> {
    topics[..FirstMalformed(parse, topics, 0)]
  }

  // ---- The store's invariant

  // Every key is the resource part of the ARN under it.
  ghost predicate Faithful(parse: ArnParser, store: Topics) {
    forall key :: key in store ==> parse(store[key].arn) == Some(key)
  }

  // No key is ever lost.
  ghost predicate Grows(before: Topics, after: Topics) {
    before.Keys <= after.Keys
  }

  lemma LearnKeeps(parse: ArnParser, store: Topics, topic: Topic)
    requires Faithful(parse, store)
    ensures Faithful(parse, Learn(parse, store, topic)) && Grows(store, Learn(parse, store, topic))
  {
  }

  lemma {:induction false} LearnAllKeeps(parse: ArnParser, store: Topics, topics: seq<Topic>)
    requires Faithful(parse, store)
    ensures Faithful(parse, LearnAll(parse, store, topics)) && Grows(store, LearnAll(parse, store, topics))
  {
    if topics != [] {
      LearnAllKeeps(parse, store, topics[..|topics| - 1]);
      LearnKeeps(parse, LearnAll(parse, store, topics[..|topics| - 1]), topics[|topics| - 1]);
    }
  }

  predicate PageFails(parse: ArnParser, page: Page) {
    page.ListFailed? || WellFormedPrefix(parse, page.topics) != page.topics
  }

  function LearnPage(parse: ArnParser, store: Topics, page: Page): Topics {
    match page
    case ListFailed => store
    case Listed(topics) => LearnAll(parse, store, WellFormedPrefix(parse, topics))
  }

  // The pages up to the first that fails; that one counts as far as it was read.
  function LearnPages(parse: ArnParser, store: Topics, pages: seq<Page>): Topics
    decreases |pages|
  {
    if pages == [] then store
    else
      var after := LearnPage(parse, store, pages[0]);
      if PageFails(parse, pages[0]) then after else LearnPages(parse, after, pages[1..])
  }

  lemma {:induction false} LearnPagesKeeps(parse: ArnParser, store: Topics, pages: seq<Page>)
    requires Faithful(parse, store)
    ensures Faithful(parse, LearnPages(parse, store, pages)) && Grows(store, LearnPages(parse, store, pages))
    decreases |pages|
  {
    if pages != [] {
      if pages[0].Listed? {
        LearnAllKeeps(parse, store, WellFormedPrefix(parse, pages[0].topics));
      }
      LearnPagesKeeps(parse, LearnPage(parse, store, pages[0]), pages[1..]);
    }
  }

  // Every readable topic before the first failure is found, on whichever page it was listed.
  lemma {:induction false} ListedIsFound(parse: ArnParser, store: Topics, pages: seq<Page>, p: nat, k: nat, key: string)
    requires Faithful(parse, store)
    requires p < |pages| && pages[p].Listed? && forall q :: 0 <= q < p ==> !PageFails(parse, pages[q])
    requires k < |WellFormedPrefix(parse, pages[p].topics)| && Names(parse, pages[p].topics, k, key)
    ensures key in LearnPages(parse, store, pages)
    ensures parse(LearnPages(parse, store, pages)[key].arn) == Some(key)
    decreases |pages|
  {
    var after := LearnPage(parse, store, pages[0]);
    if pages[0].Listed? {
      LearnAllKeeps(parse, store, WellFormedPrefix(parse, pages[0].topics));
    }
    LearnPagesKeeps(parse, store, pages);
    LearnPagesKeeps(parse, after, pages[1..]);
    if p == 0 {
      ReadableIsFound(parse, store, WellFormedPrefix(parse, pages[0].topics), k, key);
    } else {
      ListedIsFound(parse, after, pages[1..], p - 1, k, key);
    }
  }

  // All the topics a fetch reads, page after page.
  function Listing(parse: ArnParser, pages: seq<Page>): seq<Topic>
    decreases |pages|
  {
    if pages == [] then []
    else
      var read := if pages[0].Listed? then WellFormedPrefix(parse, pages[0].topics) else [];
      read + if PageFails(parse, pages[0]) then [] else Listing(parse, pages[1..])
  }

  lemma {:induction false} LearnAllConcat(parse: ArnParser, store: Topics, a: seq<Topic>, b: seq<Topic>)
    ensures LearnAll(parse, store, a + b) == LearnAll(parse, LearnAll(parse, store, a), b)
    decreases |b|
  {
    if b == [] {
      assert a + b == a;
    } else {
      var n := |b| - 1;
      assert (a + b)[..|a| + n] == a + b[..n];
      LearnAllConcat(parse, store, a, b[..n]);
    }
  }

  lemma {:induction false} PagesAreOneListing(parse: ArnParser, store: Topics, pages: seq<Page>)
    ensures LearnPages(parse, store, pages) == LearnAll(parse, store, Listing(parse, pages))
    decreases |pages|
  {
    if pages != [] {
      var read := if pages[0].Listed? then WellFormedPrefix(parse, pages[0].topics) else [];
      var after := LearnPage(parse, store, pages[0]);
      assert after == LearnAll(parse, store, read);
      PagesAreOneListing(parse, after, pages[1..]);
      LearnAllConcat(parse, store, read, if PageFails(parse, pages[0]) then [] else Listing(parse, pages[1..]));
    }
  }

  // After a fetch a key holds the last readable topic of that name, whichever page listed it, and
  // asks for deduplication ids exactly if that topic is FIFO with content-based deduplication off.
  lemma LastListedWins(parse: ArnParser, store: Topics, pages: seq<Page>, k: nat, key: string)
    requires k < |Listing(parse, pages)| && Names(parse, Listing(parse, pages), k, key)
    requires forall j :: k < j < |Listing(parse, pages)| ==> !Names(parse, Listing(parse, pages), j, key)
    ensures var topic, after := Listing(parse, pages)[k], LearnPages(parse, store, pages);
            && key in after && after[key].arn == topic.arn.value
            && (after[key].isMessageDeduplicationSetting
                <==> topic.attributes.value.fifo && topic.attributes.value.contentBased == Some(false))
  {
    PagesAreOneListing(parse, store, pages);
    LastReadableWins(parse, store, Listing(parse, pages), k, key);
  }

  // A page fails exactly if it could not be listed or lists a malformed ARN.
  lemma PageFailsIff(parse: ArnParser, page: Page)
    ensures PageFails(parse, page)
       <==> page.ListFailed? ||
            exists k :: 0 <= k < |page.topics| && page.topics[k].arn.Some? && parse(page.topics[k].arn.value).None?
  {
    if page.Listed? {
      var n := FirstMalformed(parse, page.topics, 0);
      assert |WellFormedPrefix(parse, page.topics)| == n;
      assert n < |page.topics| ==> Malformed(parse, page.topics[n]);
    }
  }

  predicate Readable(parse: ArnParser, topic: Topic) {
    topic.arn.Some? && parse(topic.arn.value).Some? && topic.attributes.Some?
  }

  predicate Names(parse: ArnParser, topics: seq<Topic>, k: nat, key: string)
    requires k < |topics|
  {
    Readable(parse, topics[k]) && parse(topics[k].arn.value) == Some(key)
  }

  // After a listing a key holds the last readable topic of that name.
  lemma {:induction false} LastReadableWins(parse: ArnParser, store: Topics, topics: seq<Topic>, k: nat, key: string)
    requires k < |topics| && Names(parse, topics, k, key)
    requires forall j :: k < j < |topics| ==> !Names(parse, topics, j, key)
    ensures key in LearnAll(parse, store, topics)
    ensures LearnAll(parse, store, topics)[key].arn == topics[k].arn.value
    ensures LearnAll(parse, store, topics)[key].isMessageDeduplicationSetting
       <==> topics[k].attributes.value.fifo && topics[k].attributes.value.contentBased == Some(false)
    decreases |topics|
  {
    var n := |topics| - 1;
    if k < n {
      assert !Names(parse, topics, n, key);
      forall j | k < j < n ensures !Names(parse, topics[..n], j, key) {
        assert !Names(parse, topics, j, key);
      }
      LastReadableWins(parse, store, topics[..n], k, key);
    }
  }

  // Other keys keep what they held.
  lemma {:induction false} UnlistedKeysStay(parse: ArnParser, store: Topics, topics: seq<Topic>, key: string)
    requires forall k :: 0 <= k < |topics| ==> !Names(parse, topics, k, key)
    ensures key in LearnAll(parse, store, topics) <==> key in store
    ensures key in store ==> LearnAll(parse, store, topics)[key] == store[key]
    decreases |topics|
  {
    if topics != [] {
      var n := |topics| - 1;
      assert !Names(parse, topics, n, key);
      forall k | 0 <= k < n ensures !Names(parse, topics[..n], k, key) {
        assert !Names(parse, topics, k, key);
      }
      UnlistedKeysStay(parse, store, topics[..n], key);
    }
  }

  lemma {:induction false} ReadableIsFound(parse: ArnParser, store: Topics, topics: seq<Topic>, k: nat, key: string)
    requires k < |topics| && Names(parse, topics, k, key)
    ensures key in LearnAll(parse, store, topics)
  {
    var n := |topics| - 1;
    if k < n {
      ReadableIsFound(parse, store, topics[..n], k, key);
    }
  }

  // ---- Resolution

  function ResolveKey(aggregateType: string): string {
    if IsRN(aggregateType) then
      match Parse(aggregateType)
      case Ok(rn) => if rn.resource != "" then rn.resource else aggregateType
      case _ => aggregateType
    else aggregateType
  }

  // The key: the resource of a resource name that has one, and otherwise the type as it stands.
  lemma KeyOfType(aggregateType: string)
    ensures Parse(aggregateType).Ok? && Parse(aggregateType).rn.resource != "" ==>
              ResolveKey(aggregateType) == Parse(aggregateType).rn.resource
    ensures !Parse(aggregateType).Ok? || Parse(aggregateType).rn.resource == "" ==>
              ResolveKey(aggregateType) == aggregateType
  {
    IsRNIffParses(aggregateType);
  }

  // ---- Refetching and publishing, interleaved

  // The refetch stores listed topics one at a time; a publish only reads.
  datatype StoreAction = Refetched(topic: Topic) | Published(aggregateType: string)

  function StoreAfter(parse: ArnParser, store: Topics, action: StoreAction): Topics {
    match action
    case Refetched(topic) => Learn(parse, store, topic)
    case Published(_) => store
  }

  ghost predicate StoreRun(parse: ArnParser, stores: seq<Topics>, actions: seq<StoreAction>) {
    && |stores| == |actions| + 1 && stores[0] == map[]
    && forall k :: 0 <= k < |actions| ==> stores[k + 1] == StoreAfter(parse, stores[k], actions[k])
  }

  lemma ActionKeeps(parse: ArnParser, store: Topics, action: StoreAction)
    requires Faithful(parse, store)
    ensures Faithful(parse, StoreAfter(parse, store, action)) && Grows(store, StoreAfter(parse, store, action))
  {
    match action
    case Refetched(topic) => LearnKeeps(parse, store, topic);
    case Published(_) =>
  }

  lemma {:induction false} RunKeepsFaithful(parse: ArnParser, stores: seq<Topics>, actions: seq<StoreAction>, k: nat)
    requires StoreRun(parse, stores, actions) && k < |stores|
    ensures Faithful(parse, stores[k])
  {
    if k > 0 {
      RunKeepsFaithful(parse, stores, actions, k - 1);
      ActionKeeps(parse, stores[k - 1], actions[k - 1]);
    }
  }

  lemma {:induction false} RunGrows(parse: ArnParser, stores: seq<Topics>, actions: seq<StoreAction>, j: nat, k: nat)
    requires StoreRun(parse, stores, actions) && j <= k < |stores|
    ensures Grows(stores[j], stores[k])
    decreases k
  {
    if j < k {
      RunGrows(parse, stores, actions, j, k - 1);
      RunKeepsFaithful(parse, stores, actions, k - 1);
      ActionKeeps(parse, stores[k - 1], actions[k - 1]);
    }
  }

  // Whenever a publish finds its destination, the target has the resource it asked for, and every
  // later publish of the same type finds one too, again with that resource.
  lemma ResolutionIsTrueAndStays(parse: ArnParser, stores: seq<Topics>, actions: seq<StoreAction>, j: nat, k: nat,
                                 aggregateType: string)
    requires StoreRun(parse, stores, actions) && j <= k < |stores|
    requires Parse(aggregateType).Ok? && Parse(aggregateType).rn.resource != ""
    requires ResolveKey(aggregateType) in stores[j]
    ensures parse(stores[j][ResolveKey(aggregateType)].arn) == Some(Parse(aggregateType).rn.resource)
    ensures ResolveKey(aggregateType) in stores[k]
    ensures parse(stores[k][ResolveKey(aggregateType)].arn) == Some(Parse(aggregateType).rn.resource)
  {
    IsRNIffParses(aggregateType);
    RunKeepsFaithful(parse, stores, actions, j);
    RunKeepsFaithful(parse, stores, actions, k);
    RunGrows(parse, stores, actions, j, k);
  }

  // A publish to the ARN of a readable listed topic is resolved.
  lemma OwnArnResolves(store: Topics, topics: seq<Topic>, k: nat)
    requires k < |topics| && Readable(ArnResource, topics[k])
    requires ArnResource(topics[k].arn.value) != Some("")
    ensures ResolveKey(topics[k].arn.value) in LearnAll(ArnResource, store, topics)
  {
    var arn := topics[k].arn.value;
    IsRNIffParses(arn);
    assert Parse(arn) == Ok(RN(SplitN(arn, SECTIONS)[SECTION_SERVICE], SplitN(arn, SECTIONS)[SECTION_RESOURCE]));
    ReadableIsFound(ArnResource, store, topics, k, ResolveKey(arn));
  }

  class Store {
    var mp: Topics

    constructor ()
      ensures mp == map[]
    {
      mp := map[];
    }

    // None is the not-found-key error.
    method Load(key: string) returns (value: Option<SnsInfo>)
      ensures value.Some? <==> key in mp
      ensures value.Some? ==> value.value == mp[key]
    {
      value := if key in mp then Some(mp[key]) else None;
    }

    method Add(key: string, value: SnsInfo)
      modifies this
      ensures mp == old(mp)[key := value]
    {
      mp := mp[key := value];
    }
  }

  class AwsSNS {
    const parse: ArnParser
    const store: Store

    constructor (parse: ArnParser)
      ensures this.parse == parse && fresh(store) && store.mp == map[]
    {
      this.parse := parse;
      store := new Store();
    }

    // One page: stops with an error at the first malformed ARN, keeping what it has stored.
    method FindBackendResources(page: Page) returns (err: bool)
      modifies store
      ensures err <==> PageFails(parse, page)
      ensures page.ListFailed? ==> store.mp == old(store.mp)
      ensures page.Listed? ==> store.mp == LearnAll(parse, old(store.mp), WellFormedPrefix(parse, page.topics))
    {
      if page.ListFailed? {
        return true;
      }
      var topics := page.topics;
      var n := 0;
      while n < |topics|
        invariant 0 <= n <= FirstMalformed(parse, topics, 0)
        invariant store.mp == LearnAll(parse, old(store.mp), topics[..n])
      {
        var topic := topics[n];
        assert topics[..n + 1][..n] == topics[..n];
        if topic.arn.Some? {
          var resource := parse(topic.arn.value);
          if resource.None? {
            assert WellFormedPrefix(parse, topics) == topics[..n];
            return true;
          }
          if topic.attributes.Some? {
            StoreInfo(resource.value, topic.arn.value, topic.attributes.value);
          }
        }
        n := n + 1;
      }
      assert WellFormedPrefix(parse, topics) == topics[..n];
      err := false;
    }

    method StoreInfo(resource: string, arn: string, attrs: Attributes)
      modifies store
      ensures store.mp == old(store.mp)[resource :=
                SnsInfo(arn, attrs.fifo && attrs.contentBased.Some? && !attrs.contentBased.value)]
    {
      var info := SnsInfo(arn, false);
      var isFifo := attrs.fifo;
      if isFifo {
        if attrs.contentBased.Some? {
          info := info.(isMessageDeduplicationSetting := !attrs.contentBased.value);
        }
      }
      store.Add(resource, info);
    }

    // The token loop over a finite list of pages; it stops at the first page that fails.
    method FindResources(pages: seq<Page>) returns (err: bool)
      modifies store
      ensures store.mp == LearnPages(parse, old(store.mp), pages)
      ensures err <==> exists k :: 0 <= k < |pages| && PageFails(parse, pages[k])
    {
      var k := 0;
      err := false;
      while k < |pages| && !err
        invariant 0 <= k <= |pages|
        invariant !err ==> LearnPages(parse, store.mp, pages[k..]) == LearnPages(parse, old(store.mp), pages)
        invariant err ==> store.mp == LearnPages(parse, old(store.mp), pages)
        invariant !err ==> forall j :: 0 <= j < k ==> !PageFails(parse, pages[j])
        invariant err ==> exists j :: 0 <= j < k && PageFails(parse, pages[j])
      {
        assert pages[k..][1..] == pages[k + 1..];
        err := FindBackendResources(pages[k]);
        k := k + 1;
      }
    }

    // The target of a publish; none is the not-found-key error.
    method Resolve(aggregateType: string) returns (target: Option<string>)
      ensures target.Some? <==> ResolveKey(aggregateType) in store.mp
      ensures target.Some? ==> target.value == store.mp[ResolveKey(aggregateType)].arn
      ensures !Parse(aggregateType).Ok? || Parse(aggregateType).rn.resource == "" ==>
                target == if aggregateType in store.mp then Some(store.mp[aggregateType].arn) else None
      ensures Parse(aggregateType).Ok? && Parse(aggregateType).rn.resource != "" ==>
                var key := Parse(aggregateType).rn.resource;
                target == if key in store.mp then Some(store.mp[key].arn) else None
      ensures Faithful(parse, store.mp) && target.Some? &&
              Parse(aggregateType).Ok? && Parse(aggregateType).rn.resource != "" ==>
                parse(target.value) == Some(Parse(aggregateType).rn.resource)
    {
      var key := aggregateType;
      IsRNIffParses(aggregateType);
      KeyOfType(aggregateType);
      if IsRN(key) {
        var parsed := Parse(key);
        if parsed.Ok? && parsed.rn.resource != "" {
          key := parsed.rn.resource;
        }
      }
      var resource := store.Load(key);
      target := if resource.Some? then Some(resource.value.arn) else None;
    }
  }
}
