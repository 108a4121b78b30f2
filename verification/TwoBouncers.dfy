/** With more than one loaded bouncer the cache can keep a ban the tables have dropped. */
module TwoBouncers {
  import opened Options
  import opened Int64
  import opened Tables
  import opened Ledger
  import opened LedgerView
  import opened LedgerAgreement

  /** A bouncer blocks an IP only while the tables hold the ban. */
  predicate Backed(v: View) {
    v.live <= v.bans.Keys
  }

  /** The cached record still names a ban by this bouncer that the tables no longer hold. */
  predicate Stale(w: World, ip: Ip, bouncer: BouncerName) {
    ip in w.cache && bouncer in w.cache[ip].currBans && (ip, bouncer) !in w.db.bans
  }

  /** For any number of loaded bouncers: one iteration of `log` leaves every block of the IP backed by
      a row exactly when it is not about to trust a stale record. */
  lemma BackedUnlessStale(cfg: Config, w: World, src: Source, now: int, ip: Ip, n: nat)
    requires Filed(w) && src.bouncer in w.live && Backed(ViewOf(w, ip))
    ensures Backed(ViewOf(LogOne(cfg, w, src, now, ip, n), ip))
            <==> !(n > 0 && !cfg.whitelisted(ip) && Stale(w, ip, src.bouncer))
  {
    var v := ViewOf(w, ip);
    LogOneViews(cfg, w, src, now, ip, n, ip);
    InfoInView(w, ip);
    assert src.bouncer in v.bans <==> (ip, src.bouncer) in w.db.bans;
    DecideReban(cfg, w.live.Keys, InfoOf(v, ip), src, now, ip, n);
    ApplyBacked(v, src, Decide(cfg, w.live.Keys, InfoOf(v, ip), src, now, ip, n));
  }

  lemma DecideReban(cfg: Config, loaded: set<BouncerName>, info: IPInfo, src: Source, now: int, ip: Ip, n: nat)
    requires src.bouncer in loaded
    ensures var d := Decide(cfg, loaded, info, src, now, ip, n);
      && (d.Reban? <==> n > 0 && !cfg.whitelisted(ip) && src.bouncer in info.currBans)
      && (d.Ban? ==> src.bouncer in d.record.currBans)
  {
  }

  lemma ApplyBacked(v: View, src: Source, d: Verdict)
    requires Backed(v) && (d.Ban? ==> src.bouncer in d.record.currBans)
    ensures Backed(ApplyView(v, src, d)) <==> (d.Reban? ==> src.bouncer in v.bans)
  {
  }

  // ----- Runs -----

  /** The step blocks the IP on the word of a stale record. */
  predicate Trusts(cfg: Config, w: World, step: Step, ip: Ip) {
    && step.Log? && step.ip == ip && step.n > 0 && !cfg.whitelisted(ip)
    && step.src.bouncer in w.live
    && Stale(w, ip, step.src.bouncer)
  }

  lemma MaintenanceBacked(cfg: Config, loaded: set<BouncerName>, v: View, step: Step, ip: Ip)
    requires Backed(v) && !(step.Log? && step.ip == ip)
    ensures Backed(NextView(cfg, loaded, v, step, ip))
  {
  }

  lemma UnloadedBacked(cfg: Config, loaded: set<BouncerName>, v: View, src: Source, now: int, ip: Ip, n: nat)
    requires Backed(v) && src.bouncer !in loaded
    ensures Backed(ApplyView(v, src, Decide(cfg, loaded, InfoOf(v, ip), src, now, ip, n)))
  {
  }

  /** Every step of the ledger leaves the blocks of an IP backed exactly when it trusts no stale record. */
  lemma StepBacked(cfg: Config, w: World, step: Step, ip: Ip)
    requires Filed(w) && Backed(ViewOf(w, ip))
    ensures Backed(ViewOf(Next(cfg, w, step), ip)) <==> !Trusts(cfg, w, step, ip)
  {
    if step.Log? && step.ip == ip {
      if step.src.bouncer in w.live {
        BackedUnlessStale(cfg, w, step.src, step.now, ip, step.n);
      } else {
        LogOneViews(cfg, w, step.src, step.now, ip, step.n, ip);
        UnloadedBacked(cfg, w.live.Keys, ViewOf(w, ip), step.src, step.now, ip, step.n);
      }
    } else {
      NextViews(cfg, w, step, ip);
      MaintenanceBacked(cfg, w.live.Keys, ViewOf(w, ip), step, ip);
    }
  }

  /** After every prefix of the run, the empty one and the whole one included. */
  predicate AlwaysBacked(cfg: Config, w: World, steps: seq<Step>, ip: Ip) {
    && Backed(ViewOf(Run(cfg, w, steps), ip))
    && (steps == [] || AlwaysBacked(cfg, w, steps[..|steps| - 1], ip))
  }

  predicate NeverTrusts(cfg: Config, w: World, steps: seq<Step>, ip: Ip) {
    steps == [] ||
    var init := steps[..|steps| - 1];
    NeverTrusts(cfg, w, init, ip) && !Trusts(cfg, Run(cfg, w, init), steps[|steps| - 1], ip)
  }

  /** Whatever bouncers are loaded: all through a run every block of the IP is backed by a row exactly
      when no report in it trusts a stale record. */
  lemma {:induction false} BackedThroughout(cfg: Config, w: World, steps: seq<Step>, ip: Ip)
    requires Filed(w) && Backed(ViewOf(w, ip))
    ensures AlwaysBacked(cfg, w, steps, ip) <==> NeverTrusts(cfg, w, steps, ip)
  {
    if steps != [] {
      var init := steps[..|steps| - 1];
      BackedThroughout(cfg, w, init, ip);
      RunViews(cfg, w, init, ip);
      if AlwaysBacked(cfg, w, init, ip) {
        BackedSoFar(cfg, w, init, ip);
        StepBacked(cfg, Run(cfg, w, init), steps[|steps| - 1], ip);
      }
    }
  }

  lemma BackedSoFar(cfg: Config, w: World, steps: seq<Step>, ip: Ip)
    requires AlwaysBacked(cfg, w, steps, ip)
    ensures Backed(ViewOf(Run(cfg, w, steps), ip))
  {
  }

  /** It happens: two bouncers, one IP.  It is banned by the first, reported below the limit to the
      second (which caches the record with the first ban in it), and unbanned on time; the next report
      to the first bouncer then blocks it with no row behind the block, and no later cleanup lifts it. */
  lemma BlockedWithoutRow(cfg: Config, ip: Ip, first: BouncerName, second: BouncerName, later: int)
    requires 1 <= cfg.banPeriod < TWO_63 && !cfg.whitelisted(ip) && first != second
    ensures Unbacked(Run(cfg, StartWith({first, second}), StaleBan(cfg, ip, first, second, later)), ip, first)
  {
    StaleBanUnbacked(cfg, ip, first, second, later);
    UnbackedRun(cfg, {first, second}, StaleBan(cfg, ip, first, second, later), ip, first);
  }

  lemma StaleBanUnbacked(cfg: Config, ip: Ip, first: BouncerName, second: BouncerName, later: int)
    requires 1 <= cfg.banPeriod < TWO_63 && !cfg.whitelisted(ip) && first != second
    ensures UnbackedIn(RunView(cfg, {first, second}, FRESH, StaleBan(cfg, ip, first, second, later), ip), first)
  {
    StaleBanView(cfg, ip, first, second, later);
  }

  /** The bouncer blocks the IP, and the tables hold no ban for it. */
  predicate Unbacked(w: World, ip: Ip, bouncer: BouncerName) {
    bouncer in w.live && ip in w.live[bouncer] && (ip, bouncer) !in w.db.bans
  }

  predicate UnbackedIn(v: View, bouncer: BouncerName) {
    bouncer in v.live && bouncer !in v.bans
  }

  lemma UnbackedRun(cfg: Config, loaded: set<BouncerName>, steps: seq<Step>, ip: Ip, bouncer: BouncerName)
    ensures Unbacked(Run(cfg, StartWith(loaded), steps), ip, bouncer)
            <==> UnbackedIn(RunView(cfg, loaded, FRESH, steps, ip), bouncer)
  {
    FromStartWith(cfg, loaded, steps, ip);
    var w := Run(cfg, StartWith(loaded), steps);
    assert bouncer in LiveFor(w, ip) <==> bouncer in w.live && ip in w.live[bouncer];
    assert bouncer in BansOf(w.db, ip) <==> (ip, bouncer) in w.db.bans;
  }

  function StaleBan(cfg: Config, ip: Ip, first: BouncerName, second: BouncerName, later: int): seq<Step> {
    [
      Log(Source(first, 1), 0, ip, 1),
      Log(Source(second, 5), 1, ip, 1),
      Unbans(cfg.banPeriod),
      Log(Source(first, 1), cfg.banPeriod + 1, ip, 1),
      Unbans(later)]
  }

  lemma StaleBanView(cfg: Config, ip: Ip, first: BouncerName, second: BouncerName, later: int)
    requires 1 <= cfg.banPeriod < TWO_63 && !cfg.whitelisted(ip) && first != second
    ensures var steps := [
        Log(Source(first, 1), 0, ip, 1),
        Log(Source(second, 5), 1, ip, 1),
        Unbans(cfg.banPeriod),
        Log(Source(first, 1), cfg.banPeriod + 1, ip, 1),
        Unbans(later)];
      UnbackedIn(RunView(cfg, {first, second}, FRESH, steps, ip), first)
  {
    var loaded := {first, second};
    var row := BanInfo(0, Some(cfg.banPeriod), None);
    CachedBeforeUnban(cfg, ip, first, second, row);
    TrustedAfterUnban(cfg, loaded, ip, first, row, later);
    RunFive(cfg, loaded, FRESH, Log(Source(first, 1), 0, ip, 1), Log(Source(second, 5), 1, ip, 1), Unbans(cfg.banPeriod),
            Log(Source(first, 1), cfg.banPeriod + 1, ip, 1), Unbans(later), ip);
  }

  lemma RunFive(cfg: Config, loaded: set<BouncerName>, v: View, a: Step, b: Step, c: Step, d: Step, e: Step, ip: Ip)
    ensures RunView(cfg, loaded, v, [a, b, c, d, e], ip)
            == NextView(cfg, loaded, NextView(cfg, loaded, NextView(cfg, loaded, NextView(cfg, loaded,
                 NextView(cfg, loaded, v, a, ip), b, ip), c, ip), d, ip), e, ip)
  {
    assert [a, b, c, d, e][..4] == [a, b, c, d];
    assert [a, b, c, d][..3] == [a, b, c];
    assert [a, b, c][..2] == [a, b];
    assert [a, b][..1] == [a];
    assert [a][..0] == [];
    assert RunView(cfg, loaded, v, [a], ip) == NextView(cfg, loaded, v, a, ip);
    assert RunView(cfg, loaded, v, [a, b], ip) == NextView(cfg, loaded, NextView(cfg, loaded, v, a, ip), b, ip);
    assert RunView(cfg, loaded, v, [a, b, c], ip) == NextView(cfg, loaded, RunView(cfg, loaded, v, [a, b], ip), c, ip);
  }

  function CachedBan(ip: Ip, first: BouncerName, row: BanInfo): View {
    View(1, {1}, map[first := row], Some(IPInfo(ip, multiset{1}, 1, map[first := row])), {first}, false)
  }

  lemma CachedBeforeUnban(cfg: Config, ip: Ip, first: BouncerName, second: BouncerName, row: BanInfo)
    requires 1 <= cfg.banPeriod < TWO_63 && !cfg.whitelisted(ip) && first != second
    requires row == BanInfo(0, Some(cfg.banPeriod), None)
    ensures var loaded := {first, second};
      NextView(cfg, loaded, NextView(cfg, loaded, FRESH, Log(Source(first, 1), 0, ip, 1), ip), Log(Source(second, 5), 1, ip, 1), ip)
      == CachedBan(ip, first, row)
  {
    var loaded := {first, second};
    FirstStep(cfg, loaded, ip, first, row);
    SecondStep(cfg, loaded, ip, first, second, row);
  }

  lemma TrustedAfterUnban(cfg: Config, loaded: set<BouncerName>, ip: Ip, first: BouncerName, row: BanInfo, later: int)
    requires 1 <= cfg.banPeriod && !cfg.whitelisted(ip) && first in loaded
    requires row == BanInfo(0, Some(cfg.banPeriod), None)
    ensures var v3 := NextView(cfg, loaded, CachedBan(ip, first, row), Unbans(cfg.banPeriod), ip);
      var v4 := NextView(cfg, loaded, v3, Log(Source(first, 1), cfg.banPeriod + 1, ip, 1), ip);
      var v5 := NextView(cfg, loaded, v4, Unbans(later), ip);
      first in v5.live && first !in v5.bans
  {
    var v2 := CachedBan(ip, first, row);
    var v3 := v2.(bans := map[], live := {});
    assert NextView(cfg, loaded, v2, Unbans(cfg.banPeriod), ip) == v3 by {
      assert DueBouncers(v2.bans, cfg.banPeriod) == {first};
    }
    assert NextView(cfg, loaded, v3, Log(Source(first, 1), cfg.banPeriod + 1, ip, 1), ip) == v3.(live := {first});
    assert DueBouncers(map[], later) == {};
  }

  lemma FirstStep(cfg: Config, loaded: set<BouncerName>, ip: Ip, first: BouncerName, row: BanInfo)
    requires 1 <= cfg.banPeriod < TWO_63 && !cfg.whitelisted(ip) && first in loaded
    requires row == BanInfo(0, Some(cfg.banPeriod), None)
    ensures NextView(cfg, loaded, FRESH, Log(Source(first, 1), 0, ip, 1), ip)
            == View(1, {}, map[first := row], None, {first}, false)
  {
    assert Pow(cfg.banIncrement, 0) == 1;
    assert BanDuration(cfg, 0) == Some(cfg.banPeriod);
    var info := InfoOf(FRESH, ip);
    assert |AddFails(info, 0, 1).currFails| == 1;
    assert Times(multiset{}) == {};
  }

  lemma SecondStep(cfg: Config, loaded: set<BouncerName>, ip: Ip, first: BouncerName, second: BouncerName, row: BanInfo)
    requires !cfg.whitelisted(ip) && second in loaded && first != second
    ensures var record := IPInfo(ip, multiset{1}, 1, map[first := row]);
      NextView(cfg, loaded, View(1, {}, map[first := row], None, {first}, false), Log(Source(second, 5), 1, ip, 1), ip)
      == View(1, {1}, map[first := row], Some(record), {first}, false)
  {
    var info := IPInfo(ip, multiset{}, 1, map[first := row]);
    assert InfoOf(View(1, {}, map[first := row], None, {first}, false), ip) == info;
    assert AddFails(info, 1, 1).currFails == multiset{1};
    assert Times(multiset{1}) == {1};
  }
}
