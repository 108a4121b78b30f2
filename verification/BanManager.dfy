/** `BanManager`: the fail cache, the loaded bouncers and the database behind them.  Every method is
    proved to compute the ledger step it stands for. */
module BanManagement {
  import opened Options
  import opened Int64
  import opened Folds
  import opened Tables
  import opened BanDatabase
  import opened Ledger
  import opened LedgerView
  import opened LedgerOrder

  lemma BlockMore(live: map<BouncerName, set<Ip>>, items: seq<BanLocation>, item: BanLocation)
    ensures BlockAll(live, KeysOf(items + [item]))
            == if item.bouncer in live then Block(BlockAll(live, KeysOf(items)), item.bouncer, item.ip)
               else BlockAll(live, KeysOf(items))
  {
    MoreIps(items, item);
    var after := BlockAll(live, KeysOf(items + [item]));
    var before := BlockAll(live, KeysOf(items));
    SameLive(after, if item.bouncer in live then Block(before, item.bouncer, item.ip) else before);
  }

  lemma SameLive(left: map<BouncerName, set<Ip>>, right: map<BouncerName, set<Ip>>)
    requires left.Keys == right.Keys && forall b :: b in left ==> left[b] == right[b]
    ensures left == right
  {
  }

  lemma UnblockMore(live: map<BouncerName, set<Ip>>, items: seq<BanLocation>, item: BanLocation)
    ensures var before := UnblockAll(live, KeysOf(items));
      UnblockAll(live, KeysOf(items + [item]))
      == if item.bouncer in live then before[item.bouncer := before[item.bouncer] - {item.ip}] else before
  {
    MoreIps(items, item);
    var after := UnblockAll(live, KeysOf(items + [item]));
    var before := UnblockAll(live, KeysOf(items));
    SameLive(after, if item.bouncer in live then before[item.bouncer := before[item.bouncer] - {item.ip}] else before);
  }

  lemma MoreIps(items: seq<BanLocation>, item: BanLocation)
    ensures forall b :: IpsOf(KeysOf(items + [item]), b) == IpsOf(KeysOf(items), b) + if b == item.bouncer then {item.ip} else {}
  {
    assert (items + [item])[..|items|] == items;
    forall b ensures IpsOf(KeysOf(items + [item]), b) == IpsOf(KeysOf(items), b) + if b == item.bouncer then {item.ip} else {} {
      forall ip ensures ip in IpsOf(KeysOf(items + [item]), b) <==> ip in IpsOf(KeysOf(items), b) || (ip, b) == KeyOf(item) {
      }
    }
  }

  lemma NothingBlocked(live: map<BouncerName, set<Ip>>)
    ensures BlockAll(live, {}) == live == UnblockAll(live, {})
  {
    SameLive(BlockAll(live, {}), live);
    SameLive(UnblockAll(live, {}), live);
  }

  lemma StrikeParts(w: World, src: Source, ip: Ip, record: IPInfo)
    ensures var w' := Apply(w, src, ip, Strike(record));
      && w'.db == UpdateIp(w.db, record)
      && w'.cache == w.cache[ip := record]
      && w'.live == w.live && w'.reloaded == w.reloaded
  {
    assert Applicable(w, src, Strike(record));
    assert Apply(w, src, ip, Strike(record)) == w.(db := UpdateIp(w.db, record), cache := w.cache[ip := record]);
  }

  lemma SameWorld(a: World, b: World)
    requires a.db == b.db && a.cache == b.cache && a.live == b.live && a.reloaded == b.reloaded
    ensures a == b
  {
  }

  class BanManager {
    const conf: Config
    const db: BanDB
    var failCache: map<Ip, IPInfo>
    // Each loaded bouncer with the IPs it blocks.
    var bouncers: map<BouncerName, set<Ip>>
    var hasReloadedBans: bool

    function State(): World
      reads this, db
    {
      World(db.Rows(), failCache, bouncers, hasReloadedBans)
    }

    /** The daemon comes up: nothing is cached or blocked yet. */
    constructor (conf: Config, db: BanDB, loaded: set<BouncerName>)
      ensures this.conf == conf && this.db == db
      ensures State() == World(db.Rows(), map[], map b | b in loaded :: {}, false)
    {
      this.conf, this.db := conf, db;
      failCache, bouncers, hasReloadedBans := map[], map b | b in loaded :: {}, false;
    }

    method GetIpInfo(ip: Ip) returns (info: IPInfo)
      ensures info == Ledger.GetIpInfo(State(), ip)
    {
      if ip in failCache {
        info := failCache[ip];
      } else {
        info := db.LoadIp(ip);
      }
    }

    method Ban(bouncer: BouncerName, ip: Ip)
      requires bouncer in bouncers
      modifies this`bouncers
      ensures bouncers == Block(old(bouncers), bouncer, ip)
    {
      bouncers := bouncers[bouncer := bouncers[bouncer] + {ip}];
    }

    /** One iteration of `log`: `n` messages of `ip` were caught.  `threw` says that the watcher's
        bouncer was looked up and is not loaded. */
    method LogEntry(src: Source, now: int, ip: Ip, n: nat) returns (threw: bool)
      modifies this, db
      ensures State() == LogOne(conf, old(State()), src, now, ip, n)
      ensures threw == VerdictFor(conf, old(State()), src, now, ip, n).Throws?
    {
      threw := false;
      if n == 0 {
        return;
      }
      if conf.whitelisted(ip) {
        return;
      }
      var info := GetIpInfo(ip);
      ghost var verdict := Decide(conf, bouncers.Keys, info, src, now, ip, n);
      if src.bouncer in info.currBans {
        if src.bouncer !in bouncers {
          threw := true;
          return;
        }
        assert verdict == Reban;
        Ban(src.bouncer, ip);
        return;
      }
      info := AddFails(info, now, n);
      if (|info.currFails| > 0 && src.limit < 0) || |info.currFails| >= ToSize(src.limit) {
        if src.bouncer !in bouncers {
          threw := true;
          return;
        }
        assert verdict == Verdict.Ban(Banned(conf, info, src.bouncer, now));
        Punish(src, now, ip, info);
      } else {
        assert verdict == Strike(info);
        Remember(src, ip, info);
      }
    }

    /** Below the limit the record is kept, in the cache and in the tables. */
    method Remember(ghost src: Source, ip: Ip, info: IPInfo)
      modifies this, db
      ensures State() == Apply(old(State()), src, ip, Strike(info))
    {
      failCache := failCache[ip := info];
      db.UpdateIp(info);
      StrikeParts(old(State()), src, ip, info);
      SameWorld(State(), Apply(old(State()), src, ip, Strike(info)));
    }

    /** At the limit the IP is blocked and the ban recorded. */
    method Punish(src: Source, now: int, ip: Ip, record: IPInfo)
      requires src.bouncer in bouncers
      modifies this, db
      ensures State() == Apply(old(State()), src, ip, Verdict.Ban(Banned(conf, record, src.bouncer, now)))
    {
      Ban(src.bouncer, ip);
      var info := record.(currFails := multiset{});
      var duration: Option<int> := None;
      if conf.banPeriod >= 0 {
        duration := Some(Wrap64(conf.banPeriod * CastToInt64(Pow(conf.banIncrement, info.banCount))));
      }
      if duration.Some? && duration.value < 0 {
        duration := None;
      }
      info := info.(currBans := info.currBans[src.bouncer := BanInfo(now, duration, None)]);
      db.WipeFailsFor(info.ip);
      if info.ip in failCache {
        failCache := failCache - {info.ip};
      }
      info := info.(banCount := info.banCount + 1);
      assert info == Banned(conf, record, src.bouncer, now);
      assert failCache == old(failCache) - {info.ip};
      db.UpdateIp(info);
      BanParts(old(State()), src, info);
    }

    /** A whole report, in whatever order the map is walked; `at` is what the clock reads when an IP is
        taken.  The ledger has run one step for each IP taken: all of them, unless one threw. */
    method Log(src: Source, at: Ip -> int, report: map<Ip, nat>) returns (threw: bool, ghost order: seq<Ip>)
      modifies this, db
      ensures Distinct(order) && forall ip :: ip in order ==> ip in report
      ensures !threw ==> Walks(order, report)
      ensures LoggedAs(conf, old(State()), src, at, report, order, State(), threw)
      ensures Filed(old(State())) && src.bouncer in old(bouncers) ==>
        !threw && forall walk :: Walks(walk, report) ==>
          State() == Run(conf, old(State()), LogSteps(src, at, report, walk))
    {
      ghost var before := State();
      threw, order := false, [];
      var rest := report.Keys;
      while rest != {} && !threw
        invariant WalksBut(order, rest, report)
        invariant LoggedAs(conf, before, src, at, report, order, State(), threw)
        decreases rest
      {
        var ip :| ip in rest;
        WalksOn(order, rest, report, ip);
        LogsOn(conf, before, src, at, report, order, State(), ip);
        rest := rest - {ip};
        threw := LogEntry(src, at(ip), ip, report[ip]);
        order := order + [ip];
      }
      if Filed(before) && src.bouncer in before.live {
        LoadedWalksAgree(conf, before, src, at, report, order, rest, State(), threw);
      }
    }

    method LoadRebans(now: int)
      modifies this
      ensures State() == Ledger.LoadRebans(old(State()), now)
    {
      var pending := db.GetBannedMinusPendingUnbans(now);
      NothingBlocked(bouncers);
      for i := 0 to |pending|
        invariant bouncers == BlockAll(old(bouncers), KeysOf(pending[..i]))
        invariant failCache == old(failCache)
      {
        assert pending[..i + 1] == pending[..i] + [pending[i]];
        BlockMore(old(bouncers), pending[..i], pending[i]);
        // A row of a bouncer that is no longer loaded is skipped.
        if pending[i].bouncer in bouncers {
          Ban(pending[i].bouncer, pending[i].ip);
        }
      }
      assert pending[..|pending|] == pending;
      hasReloadedBans := true;
    }

    method Lift(items: seq<BanLocation>)
      modifies this`bouncers
      ensures bouncers == UnblockAll(old(bouncers), KeysOf(items))
    {
      NothingBlocked(bouncers);
      for i := 0 to |items|
        invariant bouncers == UnblockAll(old(bouncers), KeysOf(items[..i]))
      {
        assert items[..i + 1] == items[..i] + [items[i]];
        UnblockMore(old(bouncers), items[..i], items[i]);
        var unban := items[i];
        if unban.bouncer in bouncers {
          bouncers := bouncers[unban.bouncer := bouncers[unban.bouncer] - {unban.ip}];
        }
      }
      assert items[..|items|] == items;
    }

    method CheckUnbansAndCleanup(now: int)
      modifies this, db
      ensures State() == Cleanup(old(State()), now)
    {
      var pending := db.GetPendingUnbans(now);
      if |pending| != 0 {
        Lift(pending);
        db.UnbanAll(pending);
      } else {
        NothingBlocked(bouncers);
      }
    }
  }

  /** The daemon stops and starts again with the same configuration and the same database file. */
  method Restarted(man: BanManager) returns (next: BanManager)
    ensures fresh(next) && next.db == man.db && next.conf == man.conf
    ensures next.State() == Restart(man.State())
  {
    next := new BanManager(man.conf, man.db, man.bouncers.Keys);
  }
}
