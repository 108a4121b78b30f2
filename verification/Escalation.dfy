/** How ban durations grow over whole runs, and when the machine arithmetic behind them is exact. */
module Escalation {
  import opened Options
  import opened Int64
  import opened Tables
  import opened Ledger
  import opened LedgerView
  import opened LedgerAgreement
  import opened BanHistory

  /** Seconds the ban after `earlier` previous ones is meant to last. */
  function Intended(cfg: Config, earlier: nat): int {
    cfg.banPeriod * Pow(cfg.banIncrement, earlier)
  }

  // ----- The stored duration against the intended one -----

  lemma ProductAtLeast(p: int, x: int)
    requires p >= 1 && x >= 1
    ensures p * x >= x && p * x >= p
  {
  }

  /** The stored duration is the intended one exactly while the product fits in an int64. */
  lemma DurationExact(cfg: Config, earlier: nat)
    requires cfg.banPeriod >= 0 && cfg.banIncrement >= 1
    ensures BanDuration(cfg, earlier) == Some(Intended(cfg, earlier)) <==> Intended(cfg, earlier) < TWO_63
  {
    var power := Pow(cfg.banIncrement, earlier);
    PowPositive(cfg.banIncrement, earlier);
    if cfg.banPeriod == 0 {
      assert cfg.banPeriod * power == 0 && cfg.banPeriod * CastToInt64(power) == 0;
    } else {
      ProductAtLeast(cfg.banPeriod, power);
    }
  }

  /** The overflow guard turns an overflowing duration into a permanent ban only on every other
      multiple of 2^63; otherwise a wrapped, shorter duration is stored. */
  lemma OverflowGuardCatches(cfg: Config, earlier: nat)
    requires cfg.banPeriod >= 1 && cfg.banIncrement >= 1
    requires Pow(cfg.banIncrement, earlier) < TWO_63 <= Intended(cfg, earlier)
    ensures BanDuration(cfg, earlier) == None <==> (Intended(cfg, earlier) / TWO_63) % 2 == 1
    ensures BanDuration(cfg, earlier).Some? ==> BanDuration(cfg, earlier).value < Intended(cfg, earlier)
  {
    PowPositive(cfg.banIncrement, earlier);
    WrapSign(Intended(cfg, earlier));
  }

  /** Once the power itself is out of range, the parity of the period decides: a permanent ban, or one
      of no length at all. */
  lemma PowerOutOfRange(cfg: Config, earlier: nat)
    requires cfg.banPeriod >= 1 && Pow(cfg.banIncrement, earlier) >= TWO_63
    ensures BanDuration(cfg, earlier) == if cfg.banPeriod % 2 == 1 then None else Some(0)
  {
    var half := cfg.banPeriod / 2;
    WrapMultiple(half, cfg.banPeriod % 2);
    assert cfg.banPeriod * -TWO_63 == -(TWO_64 * half) - TWO_63 * (cfg.banPeriod % 2);
  }

  /** What the guard is for: a ban as long as intended, or else a permanent one. */
  predicate Guarded(cfg: Config, earlier: nat) {
    BanDuration(cfg, earlier) == None || BanDuration(cfg, earlier) == Some(Intended(cfg, earlier))
  }

  /** The guard does its work exactly when nothing overflows, or when it sees a sign bit: that of the
      wrapped product, or, with the power out of range, that of an odd period. */
  lemma GuardedExactly(cfg: Config, earlier: nat)
    requires cfg.banIncrement >= 1
    ensures Guarded(cfg, earlier) <==>
      Intended(cfg, earlier) < TWO_63
      || (if Pow(cfg.banIncrement, earlier) < TWO_63 then (Intended(cfg, earlier) / TWO_63) % 2 == 1
          else cfg.banPeriod % 2 == 1)
  {
    var power := Pow(cfg.banIncrement, earlier);
    PowPositive(cfg.banIncrement, earlier);
    if cfg.banPeriod < 0 {
      ScaledMonotone(cfg.banPeriod, 0, power);
    } else {
      DurationExact(cfg, earlier);
      if Intended(cfg, earlier) >= TWO_63 {
        assert cfg.banPeriod >= 1 by {
          assert cfg.banPeriod == 0 ==> Intended(cfg, earlier) == 0 * power == 0;
        }
        if power < TWO_63 {
          OverflowGuardCatches(cfg, earlier);
        } else {
          PowerOutOfRange(cfg, earlier);
        }
      }
    }
  }

  /** With an increment of at most two the first duration that overflows is always caught. */
  lemma FirstOverflowCaught(cfg: Config, earlier: nat)
    requires cfg.banPeriod >= 1 && 1 <= cfg.banIncrement <= 2
    requires Intended(cfg, earlier) < TWO_63 <= Intended(cfg, earlier + 1)
    ensures BanDuration(cfg, earlier + 1) == None
  {
    var power := Pow(cfg.banIncrement, earlier);
    PowPositive(cfg.banIncrement, earlier);
    NextIntended(cfg, earlier);
    if 2 * power < TWO_63 {
      OverflowGuardCatches(cfg, earlier + 1);
    } else {
      OnlyPeriodOne(cfg.banPeriod, power);
      PowerOutOfRange(cfg, earlier + 1);
    }
  }

  lemma NextIntended(cfg: Config, earlier: nat)
    ensures Intended(cfg, earlier + 1) == cfg.banIncrement * Intended(cfg, earlier)
  {
    var power := Pow(cfg.banIncrement, earlier);
    assert cfg.banPeriod * (cfg.banIncrement * power) == cfg.banIncrement * (cfg.banPeriod * power);
  }

  lemma OnlyPeriodOne(p: int, power: int)
    requires p >= 1 && 2 * power >= TWO_63 && p * power < TWO_63
    ensures p == 1
  {
    if p >= 2 {
      ScaledMonotone(2, p, power);
    }
  }

  // ----- Escalation over runs -----

  /** The times at which a run bans `ip` through its one bouncer, in order. */
  function BanTimes(cfg: Config, b: BouncerName, steps: seq<Step>, ip: Ip): seq<int> {
    TimesOf(BanLog(cfg, {b}, FRESH, steps, ip))
  }

  function TimesOf(log: seq<BanEvent>): (times: seq<int>)
    ensures |times| == |log| && forall i :: 0 <= i < |log| ==> times[i] == log[i].time
  {
    seq(|log|, i requires 0 <= i < |log| => log[i].time)
  }

  /** Each ban starts when the one before it is over, by its stored duration. */
  predicate Successive(cfg: Config, times: seq<int>) {
    forall i :: 0 <= i < |times| - 1 ==> Over(cfg, i, times[i], times[i + 1])
  }

  /** No duration that can come up within `elapsed` seconds of the first ban leaves an int64. */
  predicate WithinRange(cfg: Config, elapsed: int) {
    elapsed * (cfg.banIncrement - 1) + cfg.banPeriod < TWO_63
  }

  lemma ScaledSum(p: int, x: int, y: int)
    ensures p * (x + y) == p * x + p * y
  {
  }

  lemma Reassociate(a: int, b: int, c: int)
    ensures (a * b) * c == a * (b * c)
  {
  }

  lemma ScaledMonotone(a: int, b: int, f: int)
    requires a <= b && f >= 0
    ensures a * f <= b * f
  {
  }

  // ----- Runs through one bouncer -----

  lemma {:induction false} OnlyBouncer(cfg: Config, b: BouncerName, steps: seq<Step>, ip: Ip)
    requires Through(b, steps)
    ensures forall e :: e in BanLog(cfg, {b}, FRESH, steps, ip) ==> e.bouncer == b
  {
    if steps != [] {
      OnlyBouncer(cfg, b, steps[..|steps| - 1], ip);
    }
  }

  /** One IP's bans by a single bouncer, against its rows. */
  predicate TakesTurns(cfg: Config, times: seq<int>, bans: map<BouncerName, BanInfo>, b: BouncerName, clock: int) {
    && Successive(cfg, times)
    && (b in bans ==> times != [] && bans[b] == BanInfo(times[|times| - 1], BanDuration(cfg, |times| - 1), None))
    && (b !in bans && times != [] ==> Over(cfg, |times| - 1, times[|times| - 1], clock))
    && (times != [] ==> times[|times| - 1] <= clock)
  }

  lemma InTurn(cfg: Config, log: seq<BanEvent>, bans: map<BouncerName, BanInfo>, b: BouncerName, clock: int)
    requires Apart(cfg, log) && AreLatest(cfg, log, bans) && Settled(cfg, log, bans, clock)
    requires forall e :: e in log ==> e.bouncer == b
    ensures TakesTurns(cfg, TimesOf(log), bans, b, clock)
  {
    forall i | 0 <= i < |log| - 1 ensures Over(cfg, i, TimesOf(log)[i], TimesOf(log)[i + 1]) {
      assert log[i] in log && log[i + 1] in log;
    }
    if log != [] {
      assert log[|log| - 1] in log;
    }
  }

  lemma RunInTurn(cfg: Config, b: BouncerName, start: int, steps: seq<Step>, ip: Ip)
    requires InOrder(start, steps) && Through(b, steps)
    ensures TakesTurns(cfg, BanTimes(cfg, b, steps, ip), RunView(cfg, {b}, FRESH, steps, ip).bans, b, Clock(start, steps))
  {
    var v := RunView(cfg, {b}, FRESH, steps, ip);
    RunFits(cfg, {b}, start, steps, ip);
    OnlyBouncer(cfg, b, steps, ip);
    InTurn(cfg, BanLog(cfg, {b}, FRESH, steps, ip), v.bans, b, Clock(start, steps));
  }

  /** With one loaded bouncer: each ban starts when the one before it is over, and a row is the latest
      ban. */
  lemma BansInTurn(cfg: Config, b: BouncerName, start: int, steps: seq<Step>, ip: Ip)
    requires InOrder(start, steps) && Through(b, steps)
    ensures var db := Run(cfg, Start(b), steps).db;
      && CountOf(db, ip) == |BanTimes(cfg, b, steps, ip)|
      && TakesTurns(cfg, BanTimes(cfg, b, steps, ip), BansOf(db, ip), b, Clock(start, steps))
  {
    RunInTurn(cfg, b, start, steps, ip);
    BansRecorded(cfg, {b}, start, steps, ip);
    FromStart(cfg, b, steps, ip);
  }

  // ----- What that says about the times -----

  /** What the elapsed time says about the size of the intended duration. */
  lemma IntendedBounded(cfg: Config, first: int, at: int, earlier: nat)
    requires cfg.banIncrement >= 1
    requires at >= first + cfg.banPeriod * Geometric(cfg.banIncrement, earlier)
    ensures Intended(cfg, earlier) <= (at - first) * (cfg.banIncrement - 1) + cfg.banPeriod
  {
    var sum, f := Geometric(cfg.banIncrement, earlier), cfg.banIncrement - 1;
    GeometricClosed(cfg.banIncrement, earlier);
    ScaledMonotone(cfg.banPeriod * sum, at - first, f);
    Reassociate(cfg.banPeriod, sum, f);
    ScaledSum(cfg.banPeriod, sum * f, 1);
  }

  predicate AtLeastGeometric(cfg: Config, times: seq<int>, i: nat)
    requires i < |times|
  {
    times[i] >= times[0] + cfg.banPeriod * Geometric(cfg.banIncrement, i)
  }

  /** Waiting out one more intended duration carries the geometric bound on. */
  lemma GeometricGrows(cfg: Config, times: seq<int>, i: nat)
    requires i + 1 < |times| && AtLeastGeometric(cfg, times, i)
    requires times[i + 1] >= times[i] + Intended(cfg, i)
    ensures AtLeastGeometric(cfg, times, i + 1)
  {
    ScaledSum(cfg.banPeriod, Geometric(cfg.banIncrement, i), Pow(cfg.banIncrement, i));
  }

  lemma GeometricStarts(cfg: Config, times: seq<int>)
    requires times != []
    ensures AtLeastGeometric(cfg, times, 0)
  {
    assert cfg.banPeriod * Geometric(cfg.banIncrement, 0) == 0;
  }

  /** The ban keeps its distance from the first, and its duration is bounded and stored as intended. */
  predicate OnScheduleAt(cfg: Config, times: seq<int>, i: nat)
    requires i < |times|
  {
    && AtLeastGeometric(cfg, times, i)
    && Intended(cfg, i) <= (times[i] - times[0]) * (cfg.banIncrement - 1) + cfg.banPeriod
    && BanDuration(cfg, i) == Some(Intended(cfg, i))
  }

  lemma {:induction false} OnSchedule(cfg: Config, times: seq<int>, i: nat)
    requires cfg.banPeriod >= 0 && cfg.banIncrement >= 1
    requires Successive(cfg, times) && i < |times| && WithinRange(cfg, times[i] - times[0])
    ensures OnScheduleAt(cfg, times, i)
  {
    if i == 0 {
      GeometricStarts(cfg, times);
    } else {
      assert Over(cfg, i - 1, times[i - 1], times[i]);
      ScaledMonotone(times[i - 1] - times[0], times[i] - times[0], cfg.banIncrement - 1);
      OnSchedule(cfg, times, i - 1);
      GeometricGrows(cfg, times, i - 1);
    }
    IntendedBounded(cfg, times[0], times[i], i);
    DurationExact(cfg, i);
  }

  /** Every ban within range of the first is on schedule. */
  predicate KeepsSchedule(cfg: Config, times: seq<int>) {
    forall i :: 0 <= i < |times| && WithinRange(cfg, times[i] - times[0]) ==> OnScheduleAt(cfg, times, i)
  }

  lemma AllOnSchedule(cfg: Config, times: seq<int>)
    requires cfg.banPeriod >= 0 && cfg.banIncrement >= 1 && Successive(cfg, times)
    ensures KeepsSchedule(cfg, times)
  {
    forall i | 0 <= i < |times| && WithinRange(cfg, times[i] - times[0]) ensures OnScheduleAt(cfg, times, i) {
      OnSchedule(cfg, times, i);
    }
  }

  /** Escalation over every run from an empty database, across restarts.  Every ban of an IP that comes
      within range of its first one starts no earlier than the first plus
      period * (1 + inc + ... + inc^(n-1)); its intended duration is bounded by the time elapsed since
      the first; and it is the duration stored. */
  lemma EscalationBound(cfg: Config, b: BouncerName, start: int, steps: seq<Step>, ip: Ip)
    requires cfg.banPeriod >= 0 && cfg.banIncrement >= 1
    requires InOrder(start, steps) && Through(b, steps)
    ensures KeepsSchedule(cfg, BanTimes(cfg, b, steps, ip))
  {
    RunInTurn(cfg, b, start, steps, ip);
    AllOnSchedule(cfg, BanTimes(cfg, b, steps, ip));
  }

  /** So the next ban after one within range starts no earlier than its intended end. */
  lemma BansSpaced(cfg: Config, b: BouncerName, start: int, steps: seq<Step>, ip: Ip)
    requires cfg.banPeriod >= 0 && cfg.banIncrement >= 1
    requires InOrder(start, steps) && Through(b, steps)
    ensures var times := BanTimes(cfg, b, steps, ip);
      forall i :: 0 <= i < |times| - 1 && WithinRange(cfg, times[i] - times[0]) ==> times[i + 1] >= times[i] + Intended(cfg, i)
  {
    RunInTurn(cfg, b, start, steps, ip);
    AllSpaced(cfg, BanTimes(cfg, b, steps, ip));
  }

  lemma AllSpaced(cfg: Config, times: seq<int>)
    requires cfg.banPeriod >= 0 && cfg.banIncrement >= 1 && Successive(cfg, times)
    ensures forall i :: 0 <= i < |times| - 1 && WithinRange(cfg, times[i] - times[0]) ==> times[i + 1] >= times[i] + Intended(cfg, i)
  {
    forall i | 0 <= i < |times| - 1 && WithinRange(cfg, times[i] - times[0])
      ensures times[i + 1] >= times[i] + Intended(cfg, i)
    {
      assert Over(cfg, i, times[i], times[i + 1]);
      OnSchedule(cfg, times, i);
    }
  }

  /** And a ban row within range holds the intended duration. */
  lemma StoredBanIntended(cfg: Config, b: BouncerName, start: int, steps: seq<Step>, ip: Ip)
    requires cfg.banPeriod >= 0 && cfg.banIncrement >= 1
    requires InOrder(start, steps) && Through(b, steps)
    ensures var times, bans := BanTimes(cfg, b, steps, ip), BansOf(Run(cfg, Start(b), steps).db, ip);
      b in bans ==>
        && times != []
        && (WithinRange(cfg, times[|times| - 1] - times[0]) ==>
              bans[b] == BanInfo(times[|times| - 1], Some(Intended(cfg, |times| - 1)), None))
  {
    BansInTurn(cfg, b, start, steps, ip);
    EscalationBound(cfg, b, start, steps, ip);
  }

  /** The ban count is an `int`: a count reached within range of the first ban has taken the whole
      geometric sum of periods to reach. */
  lemma BanCountFits(cfg: Config, b: BouncerName, start: int, steps: seq<Step>, ip: Ip)
    requires cfg.banPeriod >= 0 && cfg.banIncrement >= 1
    requires InOrder(start, steps) && Through(b, steps)
    ensures var times, count := BanTimes(cfg, b, steps, ip), CountOf(Run(cfg, Start(b), steps).db, ip);
      count == |times|
      && (count > 0 && WithinRange(cfg, times[count - 1] - times[0]) ==>
            cfg.banPeriod * Geometric(cfg.banIncrement, count - 1) <= Clock(start, steps) - times[0])
  {
    BansInTurn(cfg, b, start, steps, ip);
    EscalationBound(cfg, b, start, steps, ip);
  }

  // ----- Any number of bouncers -----

  /** The places of one bouncer's bans among those by all. */
  function Ranks(log: seq<BanEvent>, b: BouncerName): (ranks: seq<nat>)
    ensures |ranks| <= |log|
    ensures forall i :: 0 <= i < |ranks| ==> i <= ranks[i] < |log| && log[ranks[i]].bouncer == b
  {
    if log == [] then []
    else
      var init, last := log[..|log| - 1], log[|log| - 1];
      assert log == init + [last];
      var ranks := Ranks(init, b);
      var more := if last.bouncer == b then ranks + [|init|] else ranks;
      assert last.bouncer == b ==> more[|ranks|] == |init|;
      more
  }

  predicate Ascending(ranks: seq<nat>) {
    forall i, j :: 0 <= i < j < |ranks| ==> ranks[i] < ranks[j]
  }

  lemma AscendingNext(ranks: seq<nat>, n: nat)
    requires Ascending(ranks) && forall i :: 0 <= i < |ranks| ==> ranks[i] < n
    ensures Ascending(ranks + [n])
  {
  }

  /** All of them, in order and once each. */
  lemma {:induction false} RanksAscend(log: seq<BanEvent>, b: BouncerName)
    ensures Ascending(Ranks(log, b))
  {
    if log != [] {
      var init := log[..|log| - 1];
      RanksAscend(init, b);
      AscendingNext(Ranks(init, b), |init|);
    }
  }

  lemma {:induction false} RankedAll(log: seq<BanEvent>, b: BouncerName, k: nat)
    requires k < |log| && log[k].bouncer == b
    ensures k in Ranks(log, b)
  {
    var init := log[..|log| - 1];
    if k < |init| {
      RankedAll(init, b, k);
    } else {
      assert Ranks(log, b)[|Ranks(init, b)|] == k;
    }
  }

  lemma {:induction false} PowGrows(base: int, one: nat, two: nat)
    requires base >= 1 && one <= two
    ensures Pow(base, one) <= Pow(base, two)
  {
    if one < two {
      PowGrows(base, one, two - 1);
      PowPositive(base, two - 1);
      ProductAtLeast(base, Pow(base, two - 1));
    }
  }

  /** One bouncer's bans keep their geometric distance as long as the guard holds for them, however many
      bans by other bouncers come between. */
  lemma {:induction false} BouncerEscalates(cfg: Config, log: seq<BanEvent>, b: BouncerName, k: nat)
    requires cfg.banPeriod >= 0 && cfg.banIncrement >= 1 && Apart(cfg, log)
    requires k < |Ranks(log, b)| && forall j :: 0 <= j < k ==> Guarded(cfg, Ranks(log, b)[j])
    ensures var ranks := Ranks(log, b);
      log[ranks[k]].time >= log[ranks[0]].time + cfg.banPeriod * Geometric(cfg.banIncrement, k)
  {
    var ranks := Ranks(log, b);
    if k == 0 {
      assert cfg.banPeriod * Geometric(cfg.banIncrement, 0) == 0;
    } else {
      var before := ranks[k - 1];
      BouncerEscalates(cfg, log, b, k - 1);
      RanksAscend(log, b);
      assert Over(cfg, before, log[before].time, log[ranks[k]].time);
      assert Guarded(cfg, before);
      PowGrows(cfg.banIncrement, k - 1, before);
      ScaledUp(cfg.banPeriod, Pow(cfg.banIncrement, k - 1), Pow(cfg.banIncrement, before));
      ScaledSum(cfg.banPeriod, Geometric(cfg.banIncrement, k - 1), Pow(cfg.banIncrement, k - 1));
    }
  }

  lemma ScaledUp(p: int, x: int, y: int)
    requires p >= 0 && x <= y
    ensures p * x <= p * y
  {
  }

  /** Over every run from an empty database, whatever bouncers are loaded: the (k+1)-th ban of an IP by
      one bouncer starts no earlier than its first by that bouncer plus
      period * (1 + inc + ... + inc^(k-1)), if the bans between were stored as long as intended or
      permanent. */
  lemma EveryBouncerEscalates(cfg: Config, loaded: set<BouncerName>, start: int, steps: seq<Step>, ip: Ip, b: BouncerName, k: nat)
    requires cfg.banPeriod >= 0 && cfg.banIncrement >= 1 && InOrder(start, steps)
    ensures var log := BanLog(cfg, loaded, FRESH, steps, ip);
      var ranks := Ranks(log, b);
      k < |ranks| && (forall j :: 0 <= j < k ==> Guarded(cfg, ranks[j])) ==>
        log[ranks[k]].time >= log[ranks[0]].time + cfg.banPeriod * Geometric(cfg.banIncrement, k)
  {
    var log := BanLog(cfg, loaded, FRESH, steps, ip);
    BansRecorded(cfg, loaded, start, steps, ip);
    if k < |Ranks(log, b)| && forall j :: 0 <= j < k ==> Guarded(cfg, Ranks(log, b)[j]) {
      BouncerEscalates(cfg, log, b, k);
    }
  }

  // ----- Increments of one and two -----

  lemma {:induction false} IntendedOrPermanent(cfg: Config, times: seq<int>, i: nat)
    requires 0 <= cfg.banPeriod < TWO_63 && 1 <= cfg.banIncrement <= 2
    requires Successive(cfg, times) && i < |times|
    ensures AtLeastGeometric(cfg, times, i) && Guarded(cfg, i)
  {
    if i == 0 {
      GeometricStarts(cfg, times);
      DurationExact(cfg, 0);
    } else {
      assert Over(cfg, i - 1, times[i - 1], times[i]);
      IntendedOrPermanent(cfg, times, i - 1);
      GeometricGrows(cfg, times, i - 1);
      DurationExact(cfg, i - 1);
      DurationExact(cfg, i);
      if Intended(cfg, i) >= TWO_63 {
        assert cfg.banPeriod >= 1 by {
          assert cfg.banPeriod == 0 ==> Intended(cfg, i) == 0 * Pow(cfg.banIncrement, i) == 0;
        }
        FirstOverflowCaught(cfg, i - 1);
      }
    }
  }

  /** With an increment of one or two, as by default, no range is needed: in every run every ban is
      stored as long as intended or for ever, and the bans keep their geometric distance. */
  lemma SmallIncrementNeverWraps(cfg: Config, b: BouncerName, start: int, steps: seq<Step>, ip: Ip)
    requires 0 <= cfg.banPeriod < TWO_63 && 1 <= cfg.banIncrement <= 2
    requires InOrder(start, steps) && Through(b, steps)
    ensures var times := BanTimes(cfg, b, steps, ip);
      forall i :: 0 <= i < |times| ==> AtLeastGeometric(cfg, times, i) && Guarded(cfg, i)
  {
    RunInTurn(cfg, b, start, steps, ip);
    AllIntendedOrPermanent(cfg, BanTimes(cfg, b, steps, ip));
  }

  lemma AllIntendedOrPermanent(cfg: Config, times: seq<int>)
    requires 0 <= cfg.banPeriod < TWO_63 && 1 <= cfg.banIncrement <= 2 && Successive(cfg, times)
    ensures forall i :: 0 <= i < |times| ==> AtLeastGeometric(cfg, times, i) && Guarded(cfg, i)
  {
    forall i | 0 <= i < |times| ensures AtLeastGeometric(cfg, times, i) && Guarded(cfg, i) {
      IntendedOrPermanent(cfg, times, i);
    }
  }

  // ----- Where the guard fails -----

  function BanTwice(b: BouncerName, ip: Ip, period: int): seq<Step> {
    [Log(Source(b, 1), 0, ip, 1), Unbans(period), Log(Source(b, 1), period, ip, 1)]
  }

  /** Two weeks, and an increment nothing stops a configuration from having: the second ban, taken as
      soon as the first is over, stores a wrapped duration, neither the intended nor a permanent one. */
  lemma OverflowGuardMisses(cfg: Config, b: BouncerName, ip: Ip)
    requires cfg.banPeriod == 1209600 && cfg.banIncrement == 20000000000000 && !cfg.whitelisted(ip)
    ensures var steps := BanTwice(b, ip, 1209600);
      var db := Run(cfg, Start(b), steps).db;
      && InOrder(0, steps) && Through(b, steps)
      && (ip, b) in db.bans
      && db.bans[(ip, b)] == BanInfo(1209600, Some(5745255926290448384), None)
      && Intended(cfg, 1) == 24192000000000000000 > TWO_63
  {
    var steps := BanTwice(b, ip, 1209600);
    FirstDurations(cfg);
    BannedTwice(cfg, b, ip, 1209600);
    FromStart(cfg, b, steps, ip);
    ThreeInOrder(steps[0], steps[1], steps[2]);
    var db := Run(cfg, Start(b), steps).db;
    assert b in BansOf(db, ip) <==> (ip, b) in db.bans;
  }

  lemma BannedTwice(cfg: Config, b: BouncerName, ip: Ip, period: int)
    requires !cfg.whitelisted(ip) && BanDuration(cfg, 0) == Some(period)
    ensures RunView(cfg, {b}, FRESH, BanTwice(b, ip, period), ip).bans == map[b := BanInfo(period, BanDuration(cfg, 1), None)]
  {
    var one, two, three := Log(Source(b, 1), 0, ip, 1), Unbans(period), Log(Source(b, 1), period, ip, 1);
    BanFrom(cfg, FRESH, b, one, ip);
    var first := View(1, {}, map[b := BanInfo(0, Some(period), None)], None, {b}, false);
    var second := View(1, {}, map[], None, {}, false);
    assert NextView(cfg, {b}, first, two, ip) == second by {
      assert DueBouncers(first.bans, period) == {b};
    }
    BanFrom(cfg, second, b, three, ip);
    RunThree(cfg, {b}, FRESH, one, two, three, ip);
  }

  lemma FirstDurations(cfg: Config)
    requires cfg.banPeriod == 1209600 && cfg.banIncrement == 20000000000000
    ensures BanDuration(cfg, 0) == Some(1209600)
    ensures Intended(cfg, 1) == 24192000000000000000
    ensures BanDuration(cfg, 1) == Some(5745255926290448384)
  {
    assert Pow(cfg.banIncrement, 0) == 1;
    assert Pow(cfg.banIncrement, 1) == 20000000000000;
  }

  /** An IP without fails or bans is banned by one message when the limit is one. */
  lemma BanFrom(cfg: Config, v: View, b: BouncerName, step: Step, ip: Ip)
    requires step.Log? && step.src == Source(b, 1) && step.ip == ip && step.n == 1 && !cfg.whitelisted(ip)
    requires v == View(v.count, {}, map[], None, {}, v.reloaded)
    ensures NextView(cfg, {b}, v, step, ip)
            == View(v.count + 1, {}, map[b := BanInfo(step.now, BanDuration(cfg, v.count), None)], None, {b}, v.reloaded)
  {
    var info := InfoOf(v, ip);
    assert |AddFails(info, step.now, 1).currFails| == 1;
    assert Times(multiset{}) == {};
  }

  lemma RunThree(cfg: Config, loaded: set<BouncerName>, v: View, a: Step, b: Step, c: Step, ip: Ip)
    ensures RunView(cfg, loaded, v, [a, b, c], ip)
            == NextView(cfg, loaded, NextView(cfg, loaded, NextView(cfg, loaded, v, a, ip), b, ip), c, ip)
  {
    assert [a, b, c][..2] == [a, b];
    assert [a, b][..1] == [a];
    assert [a][..0] == [];
    assert RunView(cfg, loaded, v, [a], ip) == NextView(cfg, loaded, v, a, ip);
  }

  lemma ThreeInOrder(a: Step, b: Step, c: Step)
    requires !a.Restarted? && !b.Restarted? && !c.Restarted? && 0 <= a.now <= b.now <= c.now
    ensures InOrder(0, [a, b, c])
  {
    assert [a, b, c][..2] == [a, b];
    assert [a, b][..1] == [a];
    assert [a][..0] == [];
    assert InOrder(0, [a]);
    assert InOrder(0, [a, b]);
  }

  // ----- Permanent bans -----

  lemma LatestOrEnding(cfg: Config, log: seq<BanEvent>, i: nat)
    requires Apart(cfg, log) && i < |log|
    ensures LatestBy(log, log[i].bouncer) == i || BanDuration(cfg, i).Some?
  {
    var k := LatestBy(log, log[i].bouncer);
    assert i < k ==> Over(cfg, i, log[i].time, log[k].time);
  }

  lemma NeverOver(cfg: Config, log: seq<BanEvent>, bans: map<BouncerName, BanInfo>, clock: int, i: nat)
    requires cfg.banPeriod < 0 && i < |log|
    requires Apart(cfg, log) && AreLatest(cfg, log, bans) && Settled(cfg, log, bans, clock)
    ensures LatestBy(log, log[i].bouncer) == i
    ensures log[i].bouncer in bans && bans[log[i].bouncer] == BanInfo(log[i].time, None, None)
  {
    LatestOrEnding(cfg, log, i);
  }

  /** With a negative period no ban is ever lifted: whatever bouncers are loaded, in every run each of them
      bans an IP at most once, and its row stays. */
  lemma PermanentBanOnce(cfg: Config, loaded: set<BouncerName>, start: int, steps: seq<Step>, ip: Ip)
    requires cfg.banPeriod < 0 && InOrder(start, steps)
    ensures var log, bans := BanLog(cfg, loaded, FRESH, steps, ip), BansOf(Run(cfg, StartWith(loaded), steps).db, ip);
      forall i :: 0 <= i < |log| ==>
        && LatestBy(log, log[i].bouncer) == i
        && log[i].bouncer in bans && bans[log[i].bouncer] == BanInfo(log[i].time, None, None)
  {
    var log, bans := BanLog(cfg, loaded, FRESH, steps, ip), BansOf(Run(cfg, StartWith(loaded), steps).db, ip);
    BansRecorded(cfg, loaded, start, steps, ip);
    forall i | 0 <= i < |log|
      ensures LatestBy(log, log[i].bouncer) == i
      ensures log[i].bouncer in bans && bans[log[i].bouncer] == BanInfo(log[i].time, None, None)
    {
      NeverOver(cfg, log, bans, Clock(start, steps), i);
    }
  }
}
