// pkg/config/resource.go: the whitelist without the blacklist, and what that does to a fetch.
module Resources {
  import opened Repository

  function Subtract(list: seq<string>, blacklist: seq<string>): seq<string> {
    if list == [] then [] else
    var n := |list| - 1;
    Subtract(list[..n], blacklist) + if list[n] in blacklist then [] else [list[n]]
  }

  class Resource {
    const configured: seq<string>
    const blacklist: seq<string>
    var whitelist: seq<string>
    var once: bool

    constructor (configured: seq<string>, blacklist: seq<string>)
      ensures Valid() && !once && this.configured == configured && this.blacklist == blacklist
    {
      this.configured, this.blacklist, whitelist, once := configured, blacklist, [], false;
    }

    ghost predicate Valid()
      reads this
    {
      whitelist == if once then Subtract(configured, blacklist) else []
    }

    // Computed at the first call only.
    method GetWhitelist() returns (r: seq<string>)
      requires Valid()
      modifies this
      ensures Valid() && once
      ensures r == Subtract(configured, blacklist)
    {
      if !once {
        var mpBlacklist: set<string> := {};
        var i := 0;
        while i < |blacklist|
          invariant 0 <= i <= |blacklist|
          invariant mpBlacklist == set k | 0 <= k < i :: blacklist[k]
          invariant whitelist == []
        {
          mpBlacklist := mpBlacklist + {blacklist[i]};
          i := i + 1;
        }
        i := 0;
        while i < |configured|
          invariant 0 <= i <= |configured|
          invariant whitelist == Subtract(configured[..i], blacklist)
        {
          var value := configured[i];
          assert configured[..i + 1][..i] == configured[..i];
          if value !in mpBlacklist {
            whitelist := whitelist + [value];
          }
          i := i + 1;
        }
        assert configured[..i] == configured;
        once := true;
      }
      return whitelist;
    }
  }

  lemma {:induction false} SubtractMembers(list: seq<string>, blacklist: seq<string>)
    ensures forall v :: v in Subtract(list, blacklist) <==> v in list && v !in blacklist
  {
    if list != [] {
      var n := |list| - 1;
      SubtractMembers(list[..n], blacklist);
      assert list == list[..n] + [list[n]];
    }
  }

  // The list filtered: increasing positions, each holding an entry that is not blacklisted, none
  // left out.
  ghost predicate IsKept(list: seq<string>, blacklist: seq<string>, kept: seq<string>, positions: seq<nat>) {
    && |positions| == |kept|
    && (forall k :: 0 <= k < |positions| ==> positions[k] < |list| && kept[k] == list[positions[k]])
    && (forall j, k :: 0 <= j < k < |positions| ==> positions[j] < positions[k])
    && (forall i :: 0 <= i < |list| ==> (list[i] !in blacklist <==> i in positions))
  }

  lemma KeptSnoc(list: seq<string>, v: string, blacklist: seq<string>, kept: seq<string>, positions: seq<nat>)
    requires IsKept(list, blacklist, kept, positions)
    ensures v !in blacklist ==> IsKept(list + [v], blacklist, kept + [v], positions + [|list|])
    ensures v in blacklist ==> IsKept(list + [v], blacklist, kept, positions)
  {
    var n := |list|;
    assert forall i :: 0 <= i < n ==> (list + [v])[i] == list[i];
    assert n !in positions;
    assert forall i :: i in positions + [n] <==> i in positions || i == n;
  }

  // The entries left are the configured ones not blacklisted, each as often as it is configured and
  // in that order.
  lemma {:induction false} SubtractKeepsOrder(list: seq<string>, blacklist: seq<string>) returns (positions: seq<nat>)
    ensures IsKept(list, blacklist, Subtract(list, blacklist), positions)
  {
    positions := [];
    if list != [] {
      var n := |list| - 1;
      var rest := SubtractKeepsOrder(list[..n], blacklist);
      assert list == list[..n] + [list[n]];
      KeptSnoc(list[..n], list[n], blacklist, Subtract(list[..n], blacklist), rest);
      positions := if list[n] in blacklist then rest else rest + [n];
      assert list[n] in blacklist ==> Subtract(list, blacklist) == Subtract(list[..n], blacklist);
    }
  }

  // A string longer than every listed one.
  function Unlisted(list: seq<string>): (s: string)
    ensures forall v :: v in list ==> |v| < |s|
  {
    if list == [] then "x"
    else
      var s := Unlisted(list[1..]);
      if |s| > |list[0]| then s else list[0] + "x"
  }

  // Subtracting changes no row's selection just when there is no whitelist or something of it is
  // left: a whitelist wholly inside the blacklist drops the whitelist condition, and rows of
  // unlisted types come in.
  lemma SubtractingKeepsSelection(whitelist: seq<string>, blacklist: seq<string>, skipEvents: seq<string>)
    ensures (forall row :: Allowed(Subtract(whitelist, blacklist), blacklist, skipEvents, row)
                      <==> Allowed(whitelist, blacklist, skipEvents, row))
       <==> whitelist == [] || Subtract(whitelist, blacklist) != []
  {
    SubtractMembers(whitelist, blacklist);
    if whitelist != [] && Subtract(whitelist, blacklist) == [] {
      var row := UnlistedRow(whitelist + blacklist, skipEvents);
      assert Allowed(Subtract(whitelist, blacklist), blacklist, skipEvents, row);
      assert row.aggregateType !in whitelist;
    }
  }

  function UnlistedRow(types: seq<string>, events: seq<string>): (row: Row)
    ensures row.aggregateType !in types && row.event !in events && row.RetryCountValue() == 0
  {
    Row(Unlisted(types), "", Unlisted(events), "", Options.None, Options.None, Options.None)
  }

  function Cut(cfg: Config): Config {
    cfg.(whitelist := Subtract(cfg.whitelist, cfg.blacklist))
  }

  lemma HarmlessCutKeepsFetch(cfg: Config, table: Table)
    requires cfg.whitelist == [] || Cut(cfg).whitelist != []
    ensures Find(Cut(cfg), table) == Find(cfg, table)
  {
    SubtractMembers(cfg.whitelist, cfg.blacklist);
    assert (set id | id in table && Eligible(Cut(cfg), table[id]))
        == (set id | id in table && Eligible(cfg, table[id]));
  }

  // A table whose fetch changes when the whole whitelist is subtracted.
  lemma EmptyingCutChangesFetch(cfg: Config) returns (table: Table)
    requires cfg.whitelist != [] && Cut(cfg).whitelist == []
    ensures Find(Cut(cfg), table) != Find(cfg, table)
  {
    var row := UnlistedRow(cfg.whitelist + cfg.blacklist, cfg.skipEvents);
    table := map[0 := row];
    assert row.aggregateType !in cfg.whitelist;
    FetchedIffRoomBelow(cfg, table, 0);
    FetchedIffRoomBelow(Cut(cfg), table, 0);
    assert EligibleBelow(Cut(cfg), table, 0) == {};
  }

  // The same for whole fetches, over all tables.
  lemma SubtractingKeepsFetches(cfg: Config)
    ensures (forall table :: Find(Cut(cfg), table) == Find(cfg, table))
       <==> cfg.whitelist == [] || Cut(cfg).whitelist != []
  {
    if cfg.whitelist == [] || Cut(cfg).whitelist != [] {
      forall table ensures Find(Cut(cfg), table) == Find(cfg, table) {
        HarmlessCutKeepsFetch(cfg, table);
      }
    } else {
      var table := EmptyingCutChangesFetch(cfg);
    }
  }
}
