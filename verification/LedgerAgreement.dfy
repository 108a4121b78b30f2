/** What every step of the ledger keeps.  For any number of loaded bouncers: the cache agrees with the
    counts and the fails in the tables, and no stored duration is negative.  For one loaded bouncer:
    the cache and the bouncer agree with the bans in the tables. */
module LedgerAgreement {
  import opened Options
  import opened Tables
  import opened Ledger
  import opened LedgerView

  /** One IP's share is in order at time `clock`.  `b` is the loaded bouncer. */
  predicate Sound(v: View, b: BouncerName, clock: int) {
    && v.live <= v.bans.Keys <= {b}
    && (b in v.bans ==>
          && v.fails == {}
          && v.cached.None?
          && v.count >= 1
          && v.bans[b].banStarted <= clock
          && (v.bans[b].banDuration.Some? ==> v.bans[b].banDuration.value >= 0)
          && (v.reloaded && b !in v.live ==> Pending(v.bans[b], clock)))
    && (v.cached.Some? ==>
          && v.cached.value.currBans == map[]
          && v.cached.value.banCount == v.count
          && Times(v.cached.value.currFails) == v.fails)
  }

  const FRESH := View(0, {}, map[], None, {}, false)

  /** A daemon with an empty database, before anything has happened. */
  function StartWith(loaded: set<BouncerName>): World {
    World(EMPTY, map[], map b | b in loaded :: {}, false)
  }

  function Start(b: BouncerName): World {
    StartWith({b})
  }

  /** Every report goes to the loaded bouncer. */
  predicate Through(b: BouncerName, steps: seq<Step>) {
    forall i :: 0 <= i < |steps| && steps[i].Log? ==> steps[i].src.bouncer == b
  }

  lemma StartView(loaded: set<BouncerName>, ip: Ip)
    ensures Filed(StartWith(loaded)) && StartWith(loaded).live.Keys == loaded
    ensures ViewOf(StartWith(loaded), ip) == FRESH
  {
    assert LiveFor(StartWith(loaded), ip) == {};
    assert BansOf(EMPTY, ip) == map[];
  }

  // ----- Any number of bouncers -----

  /** The cached record carries the stored count, and its fails fall into exactly the stored seconds. */
  predicate Tracks(v: View) {
    v.cached.Some? ==> v.cached.value.banCount == v.count && Times(v.cached.value.currFails) == v.fails
  }

  lemma NextTracks(cfg: Config, loaded: set<BouncerName>, v: View, step: Step, ip: Ip)
    requires Tracks(v)
    ensures Tracks(NextView(cfg, loaded, v, step, ip))
  {
    TimesOfRows(v.fails);
    if step.Log? && step.ip == ip && step.n > 0 {
      TimesOfStruck(InfoOf(v, ip), step.now, step.n);
    }
  }

  lemma {:induction false} RunTracks(cfg: Config, loaded: set<BouncerName>, v: View, steps: seq<Step>, ip: Ip)
    requires Tracks(v)
    ensures Tracks(RunView(cfg, loaded, v, steps, ip))
  {
    if steps != [] {
      var init := steps[..|steps| - 1];
      RunTracks(cfg, loaded, v, init, ip);
      NextTracks(cfg, loaded, RunView(cfg, loaded, v, init, ip), steps[|steps| - 1], ip);
    }
  }

  /** Whatever bouncers are loaded and whatever the clock does: if a cached record agrees with the
      stored count and fail rows of its IP, it does so after every run. */
  lemma CacheTracksRows(cfg: Config, w: World, steps: seq<Step>, ip: Ip)
    requires Filed(w) && Tracks(ViewOf(w, ip))
    ensures var w' := Run(cfg, w, steps);
      ip in w'.cache ==>
        w'.cache[ip].banCount == CountOf(w'.db, ip) && Times(w'.cache[ip].currFails) == FailTimes(w'.db, ip)
  {
    RunViews(cfg, w, steps, ip);
    RunTracks(cfg, w.live.Keys, ViewOf(w, ip), steps, ip);
    assert Tracks(ViewOf(Run(cfg, w, steps), ip));
  }

  predicate NoneNegative(bans: map<BouncerName, BanInfo>) {
    forall b :: b in bans && bans[b].banDuration.Some? ==> bans[b].banDuration.value >= 0
  }

  /** Neither the rows nor the cached record hold a negative duration. */
  predicate Lasting(v: View) {
    NoneNegative(v.bans) && (v.cached.Some? ==> NoneNegative(v.cached.value.currBans))
  }

  lemma DecideLasting(cfg: Config, loaded: set<BouncerName>, info: IPInfo, src: Source, now: int, ip: Ip, n: nat)
    requires NoneNegative(info.currBans)
    ensures var d := Decide(cfg, loaded, info, src, now, ip, n);
      d.Ban? || d.Strike? ==> NoneNegative(d.record.currBans)
  {
  }

  lemma ApplyLasting(v: View, src: Source, d: Verdict)
    requires Lasting(v) && (d.Ban? || d.Strike? ==> NoneNegative(d.record.currBans))
    ensures Lasting(ApplyView(v, src, d))
  {
  }

  lemma NextLasting(cfg: Config, loaded: set<BouncerName>, v: View, step: Step, ip: Ip)
    requires Lasting(v)
    ensures Lasting(NextView(cfg, loaded, v, step, ip))
  {
    if step.Log? {
      DecideLasting(cfg, loaded, InfoOf(v, ip), step.src, step.now, ip, step.n);
      ApplyLasting(v, step.src, VerdictView(cfg, loaded, v, step, ip));
    }
  }

  lemma {:induction false} RunLasting(cfg: Config, loaded: set<BouncerName>, v: View, steps: seq<Step>, ip: Ip)
    requires Lasting(v)
    ensures Lasting(RunView(cfg, loaded, v, steps, ip))
  {
    if steps != [] {
      var init := steps[..|steps| - 1];
      RunLasting(cfg, loaded, v, init, ip);
      NextLasting(cfg, loaded, RunView(cfg, loaded, v, init, ip), steps[|steps| - 1], ip);
    }
  }

  /** `log` only ever stores NULL or a non-negative duration.  So whatever bouncers are loaded and
      whatever the clock does, after every run the two maintenance queries split BanRegistry between
      them at every time. */
  lemma DurationsNeverNegative(cfg: Config, w: World, steps: seq<Step>, now: int)
    requires Filed(w) && forall ip :: Lasting(ViewOf(w, ip))
    ensures var db := Run(cfg, w, steps).db;
      && (forall key :: key in db.bans && db.bans[key].banDuration.Some? ==> db.bans[key].banDuration.value >= 0)
      && PendingKeys(db, now) !! RebanKeys(db, now)
      && PendingKeys(db, now) + RebanKeys(db, now) == db.bans.Keys
  {
    var db := Run(cfg, w, steps).db;
    forall key | key in db.bans && db.bans[key].banDuration.Some?
      ensures db.bans[key].banDuration.value >= 0
    {
      RunViews(cfg, w, steps, key.0);
      RunLasting(cfg, w.live.Keys, ViewOf(w, key.0), steps, key.0);
      assert key == (key.0, key.1);
      assert key.1 in BansOf(db, key.0);
      assert BansOf(db, key.0)[key.1] == db.bans[key];
    }
    QueriesPartition(db, now);
  }

  /** A daemon with an empty database meets what the two results above ask of the start. */
  lemma StartOrderly(loaded: set<BouncerName>)
    ensures Filed(StartWith(loaded))
    ensures forall ip :: Tracks(ViewOf(StartWith(loaded), ip)) && Lasting(ViewOf(StartWith(loaded), ip))
  {
    forall ip ensures Tracks(ViewOf(StartWith(loaded), ip)) && Lasting(ViewOf(StartWith(loaded), ip)) {
      StartView(loaded, ip);
    }
  }

  // ----- One bouncer -----

  lemma TimesOfStruck(info: IPInfo, now: int, n: nat)
    requires n > 0
    ensures Times(AddFails(info, now, n).currFails) == Times(info.currFails) + {now}
  {
  }

  lemma TimesOfRows(rows: set<int>)
    ensures Times(multiset(rows)) == rows
  {
  }

  lemma LogSound(cfg: Config, v: View, b: BouncerName, clock: int, src: Source, now: int, ip: Ip, n: nat)
    requires Sound(v, b, clock) && clock <= now && src.bouncer == b
    ensures Sound(ApplyView(v, src, Decide(cfg, {b}, InfoOf(v, ip), src, now, ip, n)), b, now)
  {
    var info := InfoOf(v, ip);
    TimesOfRows(v.fails);
    if n > 0 {
      TimesOfStruck(info, now, n);
    }
    var d := Decide(cfg, {b}, info, src, now, ip, n);
    if d.Strike? || d.Ban? {
      assert v.bans == map[];
      assert info.currBans == map[];
    }
  }

  lemma NextSound(cfg: Config, v: View, b: BouncerName, clock: int, step: Step, ip: Ip)
    requires Sound(v, b, clock)
    requires step.Restarted? || clock <= step.now
    requires step.Log? ==> step.src.bouncer == b
    ensures var v' := NextView(cfg, {b}, v, step, ip);
      && Sound(v', b, if step.Restarted? then clock else step.now)
      && (step.Unbans? && v.reloaded ==> v'.live == v'.bans.Keys)
  {
    match step
    case Log(src, now, at, n) =>
      if at == ip {
        LogSound(cfg, v, b, clock, src, now, ip, n);
      }
    case Rebans(now) =>
    case Unbans(now) => assert b in DueBouncers(v.bans, now) <==> b in v.bans && Pending(v.bans[b], now);
    case Restarted =>
  }

  lemma {:induction false} RunSound(cfg: Config, b: BouncerName, start: int, steps: seq<Step>, ip: Ip)
    requires InOrder(start, steps) && Through(b, steps)
    ensures Sound(RunView(cfg, {b}, FRESH, steps, ip), b, Clock(start, steps))
  {
    if steps != [] {
      var init := steps[..|steps| - 1];
      RunSound(cfg, b, start, init, ip);
      NextSound(cfg, RunView(cfg, {b}, FRESH, init, ip), b, Clock(start, init), steps[|steps| - 1], ip);
    }
  }

  lemma FromStartWith(cfg: Config, loaded: set<BouncerName>, steps: seq<Step>, ip: Ip)
    ensures ViewOf(Run(cfg, StartWith(loaded), steps), ip) == RunView(cfg, loaded, FRESH, steps, ip)
    ensures Filed(Run(cfg, StartWith(loaded), steps)) && Run(cfg, StartWith(loaded), steps).live.Keys == loaded
  {
    StartView(loaded, ip);
    RunViews(cfg, StartWith(loaded), steps, ip);
  }

  lemma FromStart(cfg: Config, b: BouncerName, steps: seq<Step>, ip: Ip)
    ensures ViewOf(Run(cfg, Start(b), steps), ip) == RunView(cfg, {b}, FRESH, steps, ip)
    ensures Filed(Run(cfg, Start(b), steps)) && Run(cfg, Start(b), steps).live.Keys == {b}
  {
    FromStartWith(cfg, {b}, steps, ip);
  }

  lemma ReachableSound(cfg: Config, b: BouncerName, start: int, steps: seq<Step>, ip: Ip)
    requires InOrder(start, steps) && Through(b, steps)
    ensures var w := Run(cfg, Start(b), steps);
      && w.live.Keys == {b}
      && ViewOf(w, ip) == RunView(cfg, {b}, FRESH, steps, ip)
      && Sound(ViewOf(w, ip), b, Clock(start, steps))
  {
    FromStart(cfg, b, steps, ip);
    RunSound(cfg, b, start, steps, ip);
  }

  // ----- The invariant in terms of the tables -----

  /** In every reachable state a cached IP has no ban row, its cached ban count is the stored one, the
      seconds of its cached fails are exactly its fail rows; a banned IP has neither a cache entry nor
      fail rows. */
  lemma CacheCoherent(cfg: Config, b: BouncerName, start: int, steps: seq<Step>, ip: Ip)
    requires InOrder(start, steps) && Through(b, steps)
    ensures var w := Run(cfg, Start(b), steps);
      && (ip in w.cache ==>
            && BansOf(w.db, ip) == map[] == w.cache[ip].currBans
            && w.cache[ip].banCount == CountOf(w.db, ip)
            && Times(w.cache[ip].currFails) == FailTimes(w.db, ip))
      && ((ip, b) in w.db.bans ==>
            ip !in w.cache && FailTimes(w.db, ip) == {} && CountOf(w.db, ip) >= 1)
  {
    ReachableSound(cfg, b, start, steps, ip);
    var w := Run(cfg, Start(b), steps);
    assert b in BansOf(w.db, ip) <==> (ip, b) in w.db.bans;
    if ip in w.cache {
      assert BansOf(w.db, ip) == map[];
    }
  }

  /** In every reachable state the bouncer blocks only IPs that have a ban row; once the bans have been
      reloaded, a row whose IP is not blocked has already expired. */
  lemma BouncerAgrees(cfg: Config, b: BouncerName, start: int, steps: seq<Step>)
    requires InOrder(start, steps) && Through(b, steps)
    ensures var w := Run(cfg, Start(b), steps);
      && w.live.Keys == {b}
      && (forall ip :: ip in w.live[b] ==> (ip, b) in w.db.bans)
      && (forall ip :: (ip, b) in w.db.bans && w.reloaded && ip !in w.live[b] ==>
            Pending(w.db.bans[(ip, b)], Clock(start, steps)))
  {
    var w := Run(cfg, Start(b), steps);
    ReachableSound(cfg, b, start, steps, Ip(""));
    forall ip
      ensures ip in w.live[b] ==> (ip, b) in w.db.bans
      ensures (ip, b) in w.db.bans && w.reloaded && ip !in w.live[b] ==> Pending(w.db.bans[(ip, b)], Clock(start, steps))
    {
      ReachableSound(cfg, b, start, steps, ip);
      assert b in LiveFor(w, ip) <==> ip in w.live[b];
      assert b in BansOf(w.db, ip) <==> (ip, b) in w.db.bans;
    }
  }

  /** A cleanup leaves exactly the rows the reban query selects: none that is still running is lost and
      none that is due survives.  Once the bans have been reloaded, the blocked IPs are then exactly
      the banned ones. */
  lemma CleanupRestoresEquality(cfg: Config, b: BouncerName, start: int, steps: seq<Step>, now: int)
    requires InOrder(start, steps) && Through(b, steps) && Clock(start, steps) <= now
    ensures var w := Run(cfg, Start(b), steps);
      var w' := Cleanup(w, now);
      && w'.live.Keys == {b}
      && (w.reloaded ==> forall ip :: ip in w'.live[b] <==> (ip, b) in w'.db.bans)
      && w'.db.bans.Keys == RebanKeys(w.db, now)
  {
    var w := Run(cfg, Start(b), steps);
    var w' := Cleanup(w, now);
    ReachableSound(cfg, b, start, steps, Ip(""));
    forall ip | w.reloaded ensures ip in w'.live[b] <==> (ip, b) in w'.db.bans {
      ReachableSound(cfg, b, start, steps, ip);
      NextSound(cfg, ViewOf(w, ip), b, Clock(start, steps), Unbans(now), ip);
      CleanupViews(w, now, ip);
      assert b in LiveFor(w', ip) <==> ip in w'.live[b];
      assert b in BansOf(w'.db, ip) <==> (ip, b) in w'.db.bans;
    }
    StartOrderly({b});
    DurationsNeverNegative(cfg, Start(b), steps, now);
  }
}
