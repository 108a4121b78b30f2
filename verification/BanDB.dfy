/** The persistent tables and the statements `BanDB` runs against them. */
module BanDatabase {
  import opened Options
  import opened Tables

  function KeysOf(items: seq<BanLocation>): set<(Ip, BouncerName)> {
    if items == [] then {} else KeysOf(items[..|items| - 1]) + {KeyOf(items[|items| - 1])}
  }

  function KeyOf(item: BanLocation): (Ip, BouncerName) {
    (item.ip, item.bouncer)
  }

  /** `items` lists the selected rows, each once, with the port stored in the row. */
  ghost predicate Selects(items: seq<BanLocation>, keys: set<(Ip, BouncerName)>, bans: map<(Ip, BouncerName), BanInfo>) {
    && |items| == |keys|
    && KeysOf(items) == keys
    && forall item :: item in items ==> KeyOf(item) in bans && item.port == bans[KeyOf(item)].port
  }

  /** When the ban of a row ends; a row without a duration, or with a negative one, never does. */
  function EndsBy(row: BanInfo): Option<int> {
    match row.banDuration
    case None => None
    case Some(seconds) => if seconds < 0 then None else Some(row.banStarted + seconds)
  }

  lemma MoreFails(ip: Ip, done: multiset<int>, t: int)
    ensures FailRows(ip, done + multiset{t}) == FailRows(ip, done) + {(ip, t)}
  {
    var more := FailRows(ip, done + multiset{t});
    forall i, x ensures (i, x) in more <==> (i, x) in FailRows(ip, done) || (i, x) == (ip, t) {
    }
    forall row ensures row in more <==> row in FailRows(ip, done) + {(ip, t)} {
      var (i, x) := row;
      assert row == (i, x);
    }
  }

  lemma MoreBans(ip: Ip, done: map<BouncerName, BanInfo>, b: BouncerName, info: BanInfo)
    ensures BanRows(ip, done[b := info]) == BanRows(ip, done)[(ip, b) := info]
  {
    var left, right := BanRows(ip, done[b := info]), BanRows(ip, done)[(ip, b) := info];
    forall key ensures (key in left <==> key in right) && (key in left ==> left[key] == right[key]) {
      var (i, x) := key;
      assert key == (i, x);
    }
    assert left.Keys == right.Keys;
  }

  lemma HasElement(m: multiset<int>)
    requires |m| != 0
    ensures exists t :: t in m
  {
    assert (forall t :: t !in m) ==> m == multiset{};
  }

  lemma OneMoreBan(m: map<(Ip, BouncerName), BanInfo>, ip: Ip, done: map<BouncerName, BanInfo>, b: BouncerName, info: BanInfo)
    ensures m + BanRows(ip, done[b := info]) == (m + BanRows(ip, done))[(ip, b) := info]
  {
    MoreBans(ip, done, b, info);
  }

  lemma NoBanRows(ip: Ip, m: map<(Ip, BouncerName), BanInfo>)
    ensures m + BanRows(ip, map[]) == m
  {
  }

  class BanDB {
    var ipRegistry: map<Ip, nat>
    var failRegistry: set<(Ip, int)>
    var banRegistry: map<(Ip, BouncerName), BanInfo>

    function Rows(): Store
      reads this
    {
      Store(ipRegistry, failRegistry, banRegistry)
    }

    constructor ()
      ensures Rows() == EMPTY
    {
      ipRegistry, failRegistry, banRegistry := map[], {}, map[];
    }

    method WipeFailsFor(ip: Ip)
      modifies this
      ensures Rows() == Tables.WipeFailsFor(old(Rows()), ip)
    {
      failRegistry := set row | row in failRegistry && row.0 != ip;
    }

    method IsBanned(ip: Ip, bouncer: BouncerName) returns (banned: bool)
      ensures banned <==> bouncer in BansOf(Rows(), ip)
    {
      banned := (ip, bouncer) in banRegistry;
    }

    method LoadIp(ip: Ip) returns (info: IPInfo)
      ensures info == Tables.LoadIp(Rows(), ip)
    {
      var banCount: nat := 0;
      if ip in ipRegistry {
        banCount := ipRegistry[ip];
      }
      var fails := LoadFails(ip);
      var bans := LoadBans(ip);
      info := IPInfo(ip, fails, banCount, bans);
    }

    method LoadFails(ip: Ip) returns (fails: multiset<int>)
      ensures fails == multiset(FailTimes(Rows(), ip))
    {
      fails := multiset{};
      var rest := failRegistry;
      while rest != {}
        invariant rest <= failRegistry
        invariant forall t :: fails[t] == if (ip, t) in failRegistry && (ip, t) !in rest then 1 else 0
        decreases rest
      {
        var row :| row in rest;
        if row.0 == ip {
          assert row == (ip, row.1);
          fails := fails[row.1 := fails[row.1] + 1];
        }
        rest := rest - {row};
      }
      forall t ensures fails[t] == multiset(FailTimes(Rows(), ip))[t] {
        assert t in FailTimes(Rows(), ip) <==> (ip, t) in failRegistry;
      }
    }

    method LoadBans(ip: Ip) returns (bans: map<BouncerName, BanInfo>)
      ensures bans == BansOf(Rows(), ip)
    {
      bans := map[];
      var rest := banRegistry.Keys;
      while rest != {}
        invariant rest <= banRegistry.Keys
        invariant forall b :: b in bans <==> (ip, b) in banRegistry && (ip, b) !in rest
        invariant forall b :: b in bans ==> bans[b] == banRegistry[(ip, b)]
        decreases rest
      {
        var key :| key in rest;
        rest := rest - {key};
        if key.0 == ip {
          assert key == (ip, key.1);
          bans := bans[key.1 := banRegistry[key]];
        }
      }
      SameMap(bans, BansOf(Rows(), ip));
    }

    method UpdateIp(source: IPInfo)
      modifies this
      ensures Rows() == Tables.UpdateIp(old(Rows()), source)
    {
      ipRegistry := ipRegistry[source.ip := source.banCount];
      StoreFails(source.ip, source.currFails);
      StoreBans(source.ip, source.currBans);
    }

    method StoreFails(ip: Ip, fails: multiset<int>)
      modifies this`failRegistry
      ensures failRegistry == old(failRegistry) + FailRows(ip, fails)
    {
      var rest := fails;
      ghost var done := multiset{};
      assert FailRows(ip, done) == {};
      while |rest| != 0
        invariant done + rest == fails
        invariant failRegistry == old(failRegistry) + FailRows(ip, done)
        decreases |rest|
      {
        HasElement(rest);
        var t :| t in rest;
        MoreFails(ip, done, t);
        failRegistry := failRegistry + {(ip, t)};
        done := done + multiset{t};
        rest := rest - multiset{t};
      }
      assert done == fails;
    }

    method StoreBans(ip: Ip, bans: map<BouncerName, BanInfo>)
      modifies this`banRegistry
      ensures banRegistry == old(banRegistry) + BanRows(ip, bans)
    {
      var rest := bans.Keys;
      ghost var done: map<BouncerName, BanInfo> := map[];
      NoBanRows(ip, banRegistry);
      while rest != {}
        invariant rest <= bans.Keys
        invariant done.Keys == bans.Keys - rest && forall b :: b in done ==> done[b] == bans[b]
        invariant banRegistry == old(banRegistry) + BanRows(ip, done)
        decreases rest
      {
        var b :| b in rest;
        OneMoreBan(old(banRegistry), ip, done, b, bans[b]);
        banRegistry := banRegistry[(ip, b) := bans[b]];
        done := done[b := bans[b]];
        rest := rest - {b};
      }
      SameMap(done, bans);
    }

    method Unban(ip: Ip, bouncer: BouncerName)
      modifies this`banRegistry
      ensures banRegistry == old(banRegistry) - {(ip, bouncer)}
    {
      banRegistry := banRegistry - {(ip, bouncer)};
    }

    method UnbanAll(items: seq<BanLocation>)
      modifies this`banRegistry
      ensures banRegistry == old(banRegistry) - KeysOf(items)
    {
      for i := 0 to |items|
        invariant banRegistry == old(banRegistry) - KeysOf(items[..i])
      {
        assert items[..i + 1][..i] == items[..i];
        Unban(items[i].ip, items[i].bouncer);
      }
      assert items[..|items|] == items;
    }

    method GetPendingUnbans(now: int) returns (out: seq<BanLocation>)
      ensures Selects(out, PendingKeys(Rows(), now), banRegistry)
      ensures forall key :: key in KeysOf(out) <==>
        key in banRegistry && EndsBy(banRegistry[key]).Some? && EndsBy(banRegistry[key]).value <= now
    {
      out := [];
      ghost var selected: set<(Ip, BouncerName)> := {};
      var rest := banRegistry.Keys;
      while rest != {}
        invariant rest <= banRegistry.Keys
        invariant forall key :: key in selected <==> key in banRegistry && key !in rest && Pending(banRegistry[key], now)
        invariant Selects(out, selected, banRegistry)
        decreases rest
      {
        var key :| key in rest;
        rest := rest - {key};
        if Pending(banRegistry[key], now) {
          SelectMore(out, selected, banRegistry, key);
          out := out + [BanLocation(key.0, key.1, banRegistry[key].port)];
          selected := selected + {key};
        }
      }
      assert selected == PendingKeys(Rows(), now);
    }

    method GetBannedMinusPendingUnbans(now: int) returns (out: seq<BanLocation>)
      ensures Selects(out, RebanKeys(Rows(), now), banRegistry)
      ensures forall key :: key in KeysOf(out) <==>
        key in banRegistry &&
        (banRegistry[key].banDuration.None? || (EndsBy(banRegistry[key]).Some? && EndsBy(banRegistry[key]).value > now))
    {
      out := [];
      ghost var selected: set<(Ip, BouncerName)> := {};
      var rest := banRegistry.Keys;
      while rest != {}
        invariant rest <= banRegistry.Keys
        invariant forall key :: key in selected <==> key in banRegistry && key !in rest && StillBanned(banRegistry[key], now)
        invariant Selects(out, selected, banRegistry)
        decreases rest
      {
        var key :| key in rest;
        rest := rest - {key};
        if StillBanned(banRegistry[key], now) {
          SelectMore(out, selected, banRegistry, key);
          out := out + [BanLocation(key.0, key.1, banRegistry[key].port)];
          selected := selected + {key};
        }
      }
      assert selected == RebanKeys(Rows(), now);
    }
  }

  lemma SelectMore(items: seq<BanLocation>, keys: set<(Ip, BouncerName)>, bans: map<(Ip, BouncerName), BanInfo>, key: (Ip, BouncerName))
    requires Selects(items, keys, bans) && key in bans && key !in keys
    ensures Selects(items + [BanLocation(key.0, key.1, bans[key].port)], keys + {key}, bans)
  {
    var more := items + [BanLocation(key.0, key.1, bans[key].port)];
    assert more[..|items|] == items;
    assert KeyOf(more[|items|]) == key;
  }
}
