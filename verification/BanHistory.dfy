/** The bans of one IP, by whatever bouncer, over whole runs: the tables hold exactly their number and,
    for each bouncer, nothing but its latest one. */
module BanHistory {
  import opened Options
  import opened Tables
  import opened Ledger
  import opened LedgerView
  import opened LedgerAgreement

  datatype BanEvent = BanEvent(bouncer: BouncerName, time: int)

  /** The bans of `ip` a run records, in order. */
  function BanLog(cfg: Config, loaded: set<BouncerName>, v: View, steps: seq<Step>, ip: Ip): seq<BanEvent> {
    if steps == [] then []
    else
      var init, last := steps[..|steps| - 1], steps[|steps| - 1];
      BanLog(cfg, loaded, v, init, ip) + Recorded(cfg, loaded, RunView(cfg, loaded, v, init, ip), last, ip)
  }

  function Recorded(cfg: Config, loaded: set<BouncerName>, v: View, step: Step, ip: Ip): seq<BanEvent> {
    if step.Log? && VerdictView(cfg, loaded, v, step, ip).Ban? then [BanEvent(step.src.bouncer, step.now)] else []
  }

  /** ... which are those `log` itself decides on. */
  lemma RecordedInLog(cfg: Config, w: World, step: Step, ip: Ip)
    ensures Recorded(cfg, w.live.Keys, ViewOf(w, ip), step, ip)
            == if step.Log? && step.ip == ip && VerdictFor(cfg, w, step.src, step.now, ip, step.n).Ban?
               then [BanEvent(step.src.bouncer, step.now)] else []
  {
    InfoInView(w, ip);
  }

  /** The ban after `earlier` previous ones, started at `from`, is over at `now`. */
  predicate Over(cfg: Config, earlier: nat, from: int, now: int) {
    var duration := BanDuration(cfg, earlier);
    duration.Some? && from + duration.value <= now
  }

  /** The place of a bouncer's latest ban; -1 if there is none. */
  function LatestBy(log: seq<BanEvent>, b: BouncerName): (k: int)
    ensures -1 <= k < |log|
    ensures k >= 0 ==> log[k].bouncer == b
    ensures forall j :: k < j < |log| ==> log[j].bouncer != b
  {
    if log == [] then -1
    else if log[|log| - 1].bouncer == b then |log| - 1
    else LatestBy(log[..|log| - 1], b)
  }

  /** The row of a ban: its length depends on how many bans by any bouncer came before it. */
  function RowOf(cfg: Config, log: seq<BanEvent>, k: nat): BanInfo
    requires k < |log|
  {
    BanInfo(log[k].time, BanDuration(cfg, k), None)
  }

  /** Each of these bans is the latest of its bouncer. */
  predicate AreLatest(cfg: Config, log: seq<BanEvent>, bans: map<BouncerName, BanInfo>) {
    forall b :: b in bans ==> LatestBy(log, b) >= 0 && bans[b] == RowOf(cfg, log, LatestBy(log, b))
  }

  /** Of two bans by one bouncer the earlier is over when the later starts. */
  predicate Apart(cfg: Config, log: seq<BanEvent>) {
    forall i, j :: 0 <= i < j < |log| && log[i].bouncer == log[j].bouncer ==> Over(cfg, i, log[i].time, log[j].time)
  }

  /** No ban is later than the clock, and those of a bouncer without a row are over. */
  predicate Settled(cfg: Config, log: seq<BanEvent>, bans: map<BouncerName, BanInfo>, clock: int) {
    forall i :: 0 <= i < |log| ==> log[i].time <= clock && (log[i].bouncer !in bans ==> Over(cfg, i, log[i].time, clock))
  }

  /** One IP's share fits the bans recorded so far. */
  predicate Fits(cfg: Config, v: View, clock: int, log: seq<BanEvent>) {
    && v.count == |log|
    && Tracks(v)
    && AreLatest(cfg, log, v.bans)
    && (v.cached.Some? ==> AreLatest(cfg, log, v.cached.value.currBans) && v.bans.Keys <= v.cached.value.currBans.Keys)
    && Apart(cfg, log)
    && Settled(cfg, log, v.bans, clock)
  }

  // ----- One more ban -----

  lemma LatestNext(log: seq<BanEvent>, e: BanEvent, b: BouncerName)
    ensures LatestBy(log + [e], b) == if e.bouncer == b then |log| else LatestBy(log, b)
  {
    assert (log + [e])[..|log|] == log;
  }

  lemma StillLatest(cfg: Config, log: seq<BanEvent>, e: BanEvent, bans: map<BouncerName, BanInfo>)
    requires AreLatest(cfg, log, bans) && e.bouncer !in bans
    ensures AreLatest(cfg, log + [e], bans)
    ensures AreLatest(cfg, log + [e], bans[e.bouncer := BanInfo(e.time, BanDuration(cfg, |log|), None)])
  {
    forall b | b in bans || b == e.bouncer
      ensures LatestBy(log + [e], b) == if b == e.bouncer then |log| else LatestBy(log, b)
    {
      LatestNext(log, e, b);
    }
  }

  lemma BothLatest(cfg: Config, log: seq<BanEvent>, one: map<BouncerName, BanInfo>, two: map<BouncerName, BanInfo>)
    requires AreLatest(cfg, log, one) && AreLatest(cfg, log, two)
    ensures AreLatest(cfg, log, one + two)
  {
  }

  lemma ApartNext(cfg: Config, log: seq<BanEvent>, bans: map<BouncerName, BanInfo>, clock: int, e: BanEvent)
    requires Apart(cfg, log) && Settled(cfg, log, bans, clock) && clock <= e.time && e.bouncer !in bans
    ensures Apart(cfg, log + [e])
  {
    var more := log + [e];
    forall i, j | 0 <= i < j < |more| && more[i].bouncer == more[j].bouncer
      ensures Over(cfg, i, more[i].time, more[j].time)
    {
      if j < |log| {
        assert Over(cfg, i, log[i].time, log[j].time);
      } else {
        assert Over(cfg, i, log[i].time, clock);
      }
    }
  }

  lemma SettledLater(cfg: Config, log: seq<BanEvent>, bans: map<BouncerName, BanInfo>, clock: int, after: map<BouncerName, BanInfo>, now: int)
    requires Settled(cfg, log, bans, clock) && clock <= now && bans.Keys <= after.Keys
    ensures Settled(cfg, log, after, now)
  {
  }

  lemma SettledNext(cfg: Config, log: seq<BanEvent>, bans: map<BouncerName, BanInfo>, clock: int, after: map<BouncerName, BanInfo>, e: BanEvent)
    requires Settled(cfg, log, bans, clock) && clock <= e.time && bans.Keys <= after.Keys && e.bouncer in after
    ensures Settled(cfg, log + [e], after, e.time)
  {
  }

  // ----- Steps -----

  lemma BanFits(cfg: Config, v: View, clock: int, log: seq<BanEvent>, src: Source, now: int, info: IPInfo, record: IPInfo)
    requires Fits(cfg, v, clock, log) && clock <= now
    requires info.banCount == v.count && AreLatest(cfg, log, info.currBans) && v.bans.Keys <= info.currBans.Keys
    requires src.bouncer !in info.currBans
    requires record == Banned(cfg, info, src.bouncer, now)
    ensures Fits(cfg, ApplyView(v, src, Ban(record)), now, log + [BanEvent(src.bouncer, now)])
  {
    var e := BanEvent(src.bouncer, now);
    StillLatest(cfg, log, e, v.bans);
    StillLatest(cfg, log, e, info.currBans);
    BothLatest(cfg, log + [e], v.bans, record.currBans);
    ApartNext(cfg, log, v.bans, clock, e);
    SettledNext(cfg, log, v.bans, clock, v.bans + record.currBans, e);
  }

  lemma StrikeFits(cfg: Config, v: View, clock: int, log: seq<BanEvent>, src: Source, now: int, record: IPInfo)
    requires Fits(cfg, v, clock, log) && clock <= now
    requires record.banCount == v.count && AreLatest(cfg, log, record.currBans) && v.bans.Keys <= record.currBans.Keys
    requires v.fails <= Times(record.currFails)
    ensures Fits(cfg, ApplyView(v, src, Strike(record)), now, log)
  {
    BothLatest(cfg, log, v.bans, record.currBans);
    SettledLater(cfg, log, v.bans, clock, v.bans + record.currBans, now);
  }

  /** The record `log` starts from fits as well, cached or not. */
  lemma InfoFits(cfg: Config, v: View, clock: int, log: seq<BanEvent>, ip: Ip)
    requires Fits(cfg, v, clock, log)
    ensures var info := InfoOf(v, ip);
      && info.banCount == v.count && AreLatest(cfg, log, info.currBans)
      && v.bans.Keys <= info.currBans.Keys && Times(info.currFails) == v.fails
  {
    TimesOfRows(v.fails);
  }

  lemma LogFits(cfg: Config, loaded: set<BouncerName>, v: View, clock: int, log: seq<BanEvent>, src: Source, now: int, ip: Ip, n: nat)
    requires Fits(cfg, v, clock, log) && clock <= now
    ensures var d := Decide(cfg, loaded, InfoOf(v, ip), src, now, ip, n);
      Fits(cfg, ApplyView(v, src, d), now, log + if d.Ban? then [BanEvent(src.bouncer, now)] else [])
  {
    var info := InfoOf(v, ip);
    var d := Decide(cfg, loaded, info, src, now, ip, n);
    InfoFits(cfg, v, clock, log, ip);
    SettledLater(cfg, log, v.bans, clock, v.bans, now);
    assert log + [] == log;
    match d
    case Ban(record) => BanFits(cfg, v, clock, log, src, now, AddFails(info, now, n), record);
    case Strike(record) =>
      TimesOfStruck(info, now, n);
      StrikeFits(cfg, v, clock, log, src, now, record);
    case Ignored =>
    case Reban =>
    case Throws =>
  }

  lemma UnbansFits(cfg: Config, v: View, clock: int, log: seq<BanEvent>, now: int)
    requires Fits(cfg, v, clock, log) && clock <= now
    ensures Settled(cfg, log, v.bans - DueBouncers(v.bans, now), now)
  {
    var due := DueBouncers(v.bans, now);
    forall i | 0 <= i < |log| && log[i].bouncer in due
      ensures Over(cfg, i, log[i].time, now)
    {
      var k := LatestBy(log, log[i].bouncer);
      assert v.bans[log[i].bouncer] == RowOf(cfg, log, k);
      if i < k {
        assert Over(cfg, i, log[i].time, log[k].time);
      }
    }
  }

  lemma StepFits(cfg: Config, loaded: set<BouncerName>, v: View, clock: int, after: int, log: seq<BanEvent>, step: Step, ip: Ip)
    requires Fits(cfg, v, clock, log) && clock <= after
    requires if step.Restarted? then after == clock else after == step.now
    ensures Fits(cfg, NextView(cfg, loaded, v, step, ip), after, log + Recorded(cfg, loaded, v, step, ip))
  {
    assert log + [] == log;
    SettledLater(cfg, log, v.bans, clock, v.bans, after);
    match step
    case Log(src, now, at, n) =>
      if at == ip {
        LogFits(cfg, loaded, v, clock, log, src, now, ip, n);
      }
    case Rebans(now) =>
    case Unbans(now) => UnbansFits(cfg, v, clock, log, now);
    case Restarted =>
  }

  lemma {:induction false} RunFits(cfg: Config, loaded: set<BouncerName>, start: int, steps: seq<Step>, ip: Ip)
    requires InOrder(start, steps)
    ensures Fits(cfg, RunView(cfg, loaded, FRESH, steps, ip), Clock(start, steps), BanLog(cfg, loaded, FRESH, steps, ip))
  {
    if steps != [] {
      var init, last := steps[..|steps| - 1], steps[|steps| - 1];
      RunFits(cfg, loaded, start, init, ip);
      StepFits(cfg, loaded, RunView(cfg, loaded, FRESH, init, ip), Clock(start, init), Clock(start, steps),
               BanLog(cfg, loaded, FRESH, init, ip), last, ip);
    }
  }

  /** Over every run from an empty database, whatever bouncers are loaded, under any configuration and
      across restarts: the stored ban count is the number of bans of the IP by any bouncer; of two bans
      by one bouncer the earlier is over when the later starts, by the duration that belongs to the
      number of bans before it; a row is its bouncer's latest ban; and without a row all the bouncer's
      bans are over. */
  lemma BansRecorded(cfg: Config, loaded: set<BouncerName>, start: int, steps: seq<Step>, ip: Ip)
    requires InOrder(start, steps)
    ensures var log, db := BanLog(cfg, loaded, FRESH, steps, ip), Run(cfg, StartWith(loaded), steps).db;
      && CountOf(db, ip) == |log|
      && Apart(cfg, log)
      && AreLatest(cfg, log, BansOf(db, ip))
      && Settled(cfg, log, BansOf(db, ip), Clock(start, steps))
  {
    RunFits(cfg, loaded, start, steps, ip);
    FromStartWith(cfg, loaded, steps, ip);
  }

  // ----- Lifting and reloading -----

  /** The latest ban by `b` is there and still runs at `now`. */
  predicate Runs(cfg: Config, log: seq<BanEvent>, b: BouncerName, now: int) {
    var k := LatestBy(log, b);
    k >= 0 && !Over(cfg, k, log[k].time, now)
  }

  lemma DueWhenOver(cfg: Config, log: seq<BanEvent>, bans: map<BouncerName, BanInfo>, b: BouncerName, now: int)
    requires AreLatest(cfg, log, bans) && b in bans
    ensures Pending(bans[b], now) <==> !Runs(cfg, log, b, now)
    ensures StillBanned(bans[b], now) <==> Runs(cfg, log, b, now)
  {
    assert bans[b] == RowOf(cfg, log, LatestBy(log, b));
  }

  /** The row of a bouncer is there and not due, or still to be blocked, just when its latest ban runs. */
  lemma RowsTell(cfg: Config, log: seq<BanEvent>, bans: map<BouncerName, BanInfo>, clock: int, b: BouncerName, now: int)
    requires AreLatest(cfg, log, bans) && Settled(cfg, log, bans, clock) && clock <= now
    ensures b in bans && !Pending(bans[b], now) <==> Runs(cfg, log, b, now)
    ensures b in bans && StillBanned(bans[b], now) <==> Runs(cfg, log, b, now)
  {
    if b in bans {
      DueWhenOver(cfg, log, bans, b, now);
    } else if LatestBy(log, b) >= 0 {
      assert Over(cfg, LatestBy(log, b), log[LatestBy(log, b)].time, clock);
    }
  }

  lemma CleanupLifts(w: World, now: int, ip: Ip, b: BouncerName)
    ensures var bans, w' := BansOf(w.db, ip), Cleanup(w, now);
      && ((ip, b) in w'.db.bans <==> b in bans && !Pending(bans[b], now))
      && ((ip, b) in w'.db.bans ==> w'.db.bans[(ip, b)] == bans[b])
      && w'.live.Keys == w.live.Keys
      && (b in w.live ==> (ip in w'.live[b] <==> ip in w.live[b] && !(b in bans && Pending(bans[b], now))))
      && w'.db.counts == w.db.counts && w'.db.fails == w.db.fails && w'.cache == w.cache && w'.reloaded == w.reloaded
  {
    assert b in BansOf(w.db, ip) <==> (ip, b) in w.db.bans;
  }

  lemma RebansBlock(w: World, now: int, ip: Ip, b: BouncerName)
    ensures var bans, w' := BansOf(w.db, ip), LoadRebans(w, now);
      && w'.live.Keys == w.live.Keys
      && (b in w.live ==> (ip in w'.live[b] <==> ip in w.live[b] || (b in bans && StillBanned(bans[b], now))))
      && w'.db == w.db && w'.cache == w.cache && w'.reloaded
  {
    assert b in BansOf(w.db, ip) <==> (ip, b) in w.db.bans;
  }

  /** A cleanup lifts exactly the bans that are over: a row is left just for each bouncer whose latest
      ban of the IP still runs, loaded or not; and a loaded bouncer stops blocking the IP just when the
      row it had is of a ban that is over.  Nothing else changes. */
  lemma CleanupLiftsOver(cfg: Config, loaded: set<BouncerName>, start: int, steps: seq<Step>, now: int, ip: Ip, b: BouncerName)
    requires InOrder(start, steps) && Clock(start, steps) <= now
    ensures var log, w := BanLog(cfg, loaded, FRESH, steps, ip), Run(cfg, StartWith(loaded), steps);
      var w' := Cleanup(w, now);
      && ((ip, b) in w'.db.bans <==> Runs(cfg, log, b, now))
      && w.live.Keys == w'.live.Keys == loaded
      && (b in loaded ==>
            (ip in w'.live[b] <==> ip in w.live[b] && ((ip, b) in w.db.bans ==> Runs(cfg, log, b, now))))
      && ((ip, b) in w'.db.bans ==> (ip, b) in w.db.bans && w'.db.bans[(ip, b)] == w.db.bans[(ip, b)])
      && w'.db.counts == w.db.counts && w'.db.fails == w.db.fails && w'.cache == w.cache && w'.reloaded == w.reloaded
  {
    var log, w := BanLog(cfg, loaded, FRESH, steps, ip), Run(cfg, StartWith(loaded), steps);
    BansRecorded(cfg, loaded, start, steps, ip);
    FromStartWith(cfg, loaded, steps, ip);
    CleanupLifts(w, now, ip, b);
    RowsTell(cfg, log, BansOf(w.db, ip), Clock(start, steps), b, now);
  }

  /** A reload makes a loaded bouncer block the IP just when its latest ban of it still runs; nothing is
      unblocked, and neither a row nor the cache is touched. */
  lemma RebansBlockRunning(cfg: Config, loaded: set<BouncerName>, start: int, steps: seq<Step>, now: int, ip: Ip, b: BouncerName)
    requires InOrder(start, steps) && Clock(start, steps) <= now && b in loaded
    ensures var log, w := BanLog(cfg, loaded, FRESH, steps, ip), Run(cfg, StartWith(loaded), steps);
      var w' := LoadRebans(w, now);
      && w.live.Keys == w'.live.Keys == loaded
      && (ip in w'.live[b] <==> ip in w.live[b] || Runs(cfg, log, b, now))
      && w'.db == w.db && w'.cache == w.cache && w'.reloaded
  {
    var log, w := BanLog(cfg, loaded, FRESH, steps, ip), Run(cfg, StartWith(loaded), steps);
    BansRecorded(cfg, loaded, start, steps, ip);
    FromStartWith(cfg, loaded, steps, ip);
    RebansBlock(w, now, ip, b);
    RowsTell(cfg, log, BansOf(w.db, ip), Clock(start, steps), b, now);
  }
}
