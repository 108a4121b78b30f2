/** The pool of fails an IP collects, shared by every watcher, and the report that turns it into a
    ban. */
module StrikePool {
  import opened Options
  import opened Int64
  import opened Tables
  import opened Ledger
  import opened LedgerView
  import opened LedgerAgreement
  import opened BanHistory

  /** What a watcher reports about one IP: its bouncer, the messages caught, its limit, and when. */
  datatype Report = Report(bouncer: BouncerName, n: nat, limit: int, now: int)

  function ReportsOn(steps: seq<Step>, ip: Ip): (rs: seq<Report>)
    ensures |rs| <= |steps|
  {
    if steps == [] then []
    else
      ReportsOn(steps[..|steps| - 1], ip) + ReportIn(steps[|steps| - 1], ip)
  }

  function ReportIn(step: Step, ip: Ip): (rs: seq<Report>)
    ensures |rs| <= 1
  {
    if step.Log? && step.ip == ip && step.n > 0 then [Report(step.src.bouncer, step.n, step.src.limit, step.now)] else []
  }

  function Total(rs: seq<Report>): nat {
    if rs == [] then 0 else Total(rs[..|rs| - 1]) + rs[|rs| - 1].n
  }

  /** The fails `log` would start from for this IP. */
  function Strikes(v: View): nat {
    if v.cached.Some? then |v.cached.value.currFails| else |v.fails|
  }

  lemma StrikesInLog(w: World, ip: Ip)
    ensures Strikes(ViewOf(w, ip)) == |GetIpInfo(w, ip).currFails|
  {
  }

  /** For the limits a watcher can have and at least one fail, the size_t comparison means what it
      says; a limit of zero or less is reached at once. */
  lemma ReachedMeans(fails: nat, limit: int)
    requires fails > 0 && limit >= -TWO_63
    ensures Reached(fails, limit) <==> fails >= limit
  {
  }

  /** The first report whose pooled count reaches its own watcher's limit; |rs| if there is none. */
  function FirstDue(pool: nat, rs: seq<Report>): (i: nat)
    ensures i <= |rs|
    ensures i < |rs| ==> pool + Total(rs[..i + 1]) >= rs[i].limit
    ensures forall j :: 0 <= j < i ==> pool + Total(rs[..j + 1]) < rs[j].limit
  {
    if rs == [] then 0
    else
      var init, last := rs[..|rs| - 1], rs[|rs| - 1];
      var i := FirstDue(pool, init);
      assert rs[..|rs|] == rs;
      assert forall j :: 0 <= j <= |init| ==> rs[..j] == init[..j];
      if i < |init| then i
      else if pool + Total(rs) >= last.limit then |init| else |rs|
  }

  // ----- Until the next ban -----

  /** The reports on the IP go to loaded bouncers and have an `int` for a limit, and nothing restarts. */
  predicate Regular(steps: seq<Step>, loaded: set<BouncerName>, ip: Ip) {
    forall i :: 0 <= i < |steps| ==> RegularStep(steps[i], loaded, ip)
  }

  predicate RegularStep(step: Step, loaded: set<BouncerName>, ip: Ip) {
    && !step.Restarted?
    && (step.Log? && step.ip == ip ==> step.src.bouncer in loaded && step.src.limit >= -TWO_63)
  }

  /** The reports that count: not those for a bouncer that, by the IP's record, bans it already. */
  function CountedOn(cfg: Config, loaded: set<BouncerName>, v: View, steps: seq<Step>, ip: Ip): seq<Report> {
    if steps == [] then []
    else
      var init := steps[..|steps| - 1];
      CountedOn(cfg, loaded, v, init, ip) + CountedIn(RunView(cfg, loaded, v, init, ip), steps[|steps| - 1], ip)
  }

  function CountedIn(v: View, step: Step, ip: Ip): seq<Report> {
    if step.Log? && step.src.bouncer in InfoOf(v, ip).currBans then [] else ReportIn(step, ip)
  }

  /** Where an IP stands after some reports: either none was due, no ban came and every message has been
      pooled, or the first ban came with the first report that was due. */
  predicate Pooled(v: View, pool: nat, rs: seq<Report>, log: seq<BanEvent>) {
    var due := FirstDue(pool, rs);
    if due == |rs| then log == [] && Strikes(v) == pool + Total(rs)
    else log != [] && log[0] == BanEvent(rs[due].bouncer, rs[due].now)
  }

  lemma Extend(pool: nat, rs: seq<Report>, r: Report)
    ensures Total(rs + [r]) == Total(rs) + r.n
    ensures FirstDue(pool, rs + [r])
            == if FirstDue(pool, rs) < |rs| then FirstDue(pool, rs)
               else if pool + Total(rs) + r.n >= r.limit then |rs| else |rs| + 1
  {
    assert (rs + [r])[..|rs|] == rs;
  }

  /** A report that counts adds its messages to the pool, or bans. */
  lemma ReportPools(cfg: Config, loaded: set<BouncerName>, v: View, src: Source, now: int, ip: Ip, n: nat)
    requires src.bouncer in loaded && src.limit >= -TWO_63 && !cfg.whitelisted(ip) && n > 0
    requires src.bouncer !in InfoOf(v, ip).currBans
    ensures var d := Decide(cfg, loaded, InfoOf(v, ip), src, now, ip, n);
      if Strikes(v) + n >= src.limit then d.Ban?
      else d.Strike? && Strikes(ApplyView(v, src, d)) == Strikes(v) + n
           && InfoOf(ApplyView(v, src, d), ip).currBans == InfoOf(v, ip).currBans
  {
    ReachedMeans(Strikes(v) + n, src.limit);
    assert |InfoOf(v, ip).currFails| == Strikes(v);
  }

  /** A report that does not count leaves the pool alone. */
  lemma UncountedKeeps(cfg: Config, loaded: set<BouncerName>, v: View, step: Step, ip: Ip)
    requires !cfg.whitelisted(ip) && RegularStep(step, loaded, ip) && CountedIn(v, step, ip) == []
    ensures Recorded(cfg, loaded, v, step, ip) == [] && Strikes(NextView(cfg, loaded, v, step, ip)) == Strikes(v)
  {
  }

  lemma CountedPools(cfg: Config, loaded: set<BouncerName>, v: View, pool: nat, rs: seq<Report>, step: Step, ip: Ip)
    requires !cfg.whitelisted(ip) && RegularStep(step, loaded, ip)
    requires FirstDue(pool, rs) == |rs| && Strikes(v) == pool + Total(rs)
    ensures Pooled(NextView(cfg, loaded, v, step, ip), pool, rs + CountedIn(v, step, ip), Recorded(cfg, loaded, v, step, ip))
  {
    if CountedIn(v, step, ip) == [] {
      UncountedKeeps(cfg, loaded, v, step, ip);
      assert rs + [] == rs;
    } else {
      Extend(pool, rs, CountedIn(v, step, ip)[0]);
      ReportPools(cfg, loaded, v, step.src, step.now, ip, step.n);
    }
  }

  /** Once a report was due, more reports do not change which was the first. */
  lemma AlreadyDue(v: View, v': View, pool: nat, rs: seq<Report>, more: seq<Report>, log: seq<BanEvent>, bans: seq<BanEvent>)
    requires Pooled(v, pool, rs, log) && log != [] && |more| <= 1
    ensures Pooled(v', pool, rs + more, log + bans)
  {
    if more == [] {
      assert rs + more == rs;
    } else {
      Extend(pool, rs, more[0]);
      assert rs + more == rs + [more[0]];
    }
  }

  lemma StepPools(cfg: Config, loaded: set<BouncerName>, v: View, pool: nat, rs: seq<Report>, log: seq<BanEvent>, step: Step, ip: Ip)
    requires !cfg.whitelisted(ip) && RegularStep(step, loaded, ip) && Pooled(v, pool, rs, log)
    ensures Pooled(NextView(cfg, loaded, v, step, ip), pool, rs + CountedIn(v, step, ip), log + Recorded(cfg, loaded, v, step, ip))
  {
    if log == [] {
      CountedPools(cfg, loaded, v, pool, rs, step, ip);
      assert [] + Recorded(cfg, loaded, v, step, ip) == Recorded(cfg, loaded, v, step, ip);
    } else {
      AlreadyDue(v, NextView(cfg, loaded, v, step, ip), pool, rs, CountedIn(v, step, ip), log, Recorded(cfg, loaded, v, step, ip));
    }
  }

  lemma {:induction false} RunPools(cfg: Config, loaded: set<BouncerName>, v: View, steps: seq<Step>, ip: Ip)
    requires !cfg.whitelisted(ip) && Regular(steps, loaded, ip)
    ensures Pooled(RunView(cfg, loaded, v, steps, ip), Strikes(v), CountedOn(cfg, loaded, v, steps, ip), BanLog(cfg, loaded, v, steps, ip))
  {
    if steps != [] {
      var init := steps[..|steps| - 1];
      RunPools(cfg, loaded, v, init, ip);
      StepPools(cfg, loaded, RunView(cfg, loaded, v, init, ip), Strikes(v), CountedOn(cfg, loaded, v, init, ip),
                BanLog(cfg, loaded, v, init, ip), steps[|steps| - 1], ip);
    }
  }

  lemma Pools(cfg: Config, w: World, steps: seq<Step>, ip: Ip, rs: seq<Report>)
    requires Filed(w) && Pooled(RunView(cfg, w.live.Keys, ViewOf(w, ip), steps, ip), Strikes(ViewOf(w, ip)), rs,
                                BanLog(cfg, w.live.Keys, ViewOf(w, ip), steps, ip))
    ensures BansWhenDue(cfg, w, steps, ip, rs)
  {
    RunViews(cfg, w, steps, ip);
    StrikesInLog(w, ip);
    StrikesInLog(Run(cfg, w, steps), ip);
  }

  /** With these reports counted on top of the strikes the IP has: while none is due, it is not banned
      and its strikes are all of them; otherwise its first ban comes exactly with the first that is. */
  predicate BansWhenDue(cfg: Config, w: World, steps: seq<Step>, ip: Ip, rs: seq<Report>) {
    var pool, log := |GetIpInfo(w, ip).currFails|, BanLog(cfg, w.live.Keys, ViewOf(w, ip), steps, ip);
    var due := FirstDue(pool, rs);
    if due == |rs| then log == [] && |GetIpInfo(Run(cfg, w, steps), ip).currFails| == pool + Total(rs)
    else log != [] && log[0] == BanEvent(rs[due].bouncer, rs[due].now)
  }

  /** From any state, with any bouncers loaded and any clock, until the next restart: the next ban of an
      IP, by whatever bouncer, comes exactly with the first report that, counted with all before it,
      reaches its watcher's limit.  Only reports for a bouncer that bans the IP already do not count. */
  lemma NextBanWhenDue(cfg: Config, w: World, steps: seq<Step>, ip: Ip)
    requires Filed(w) && !cfg.whitelisted(ip) && Regular(steps, w.live.Keys, ip)
    ensures BansWhenDue(cfg, w, steps, ip, CountedOn(cfg, w.live.Keys, ViewOf(w, ip), steps, ip))
  {
    RunPools(cfg, w.live.Keys, ViewOf(w, ip), steps, ip);
    Pools(cfg, w, steps, ip, CountedOn(cfg, w.live.Keys, ViewOf(w, ip), steps, ip));
  }

  // ----- From an IP that is not banned -----

  lemma StillUnnamed(cfg: Config, loaded: set<BouncerName>, v: View, step: Step, ip: Ip)
    requires !step.Restarted? && InfoOf(v, ip).currBans == map[] && Recorded(cfg, loaded, v, step, ip) == []
    ensures InfoOf(NextView(cfg, loaded, v, step, ip), ip).currBans == map[]
    ensures CountedIn(v, step, ip) == ReportIn(step, ip)
  {
  }

  lemma {:induction false} RunPoolsAll(cfg: Config, loaded: set<BouncerName>, v: View, steps: seq<Step>, ip: Ip)
    requires !cfg.whitelisted(ip) && Regular(steps, loaded, ip) && InfoOf(v, ip).currBans == map[]
    ensures var log := BanLog(cfg, loaded, v, steps, ip);
      && Pooled(RunView(cfg, loaded, v, steps, ip), Strikes(v), ReportsOn(steps, ip), log)
      && (log == [] ==> InfoOf(RunView(cfg, loaded, v, steps, ip), ip).currBans == map[])
  {
    if steps != [] {
      var init, last := steps[..|steps| - 1], steps[|steps| - 1];
      RunPoolsAll(cfg, loaded, v, init, ip);
      OneMoreReport(cfg, loaded, RunView(cfg, loaded, v, init, ip), Strikes(v), ReportsOn(init, ip), BanLog(cfg, loaded, v, init, ip), last, ip);
    }
  }

  lemma OneMoreReport(cfg: Config, loaded: set<BouncerName>, v: View, pool: nat, rs: seq<Report>, log: seq<BanEvent>, step: Step, ip: Ip)
    requires !cfg.whitelisted(ip) && RegularStep(step, loaded, ip) && Pooled(v, pool, rs, log)
    requires log == [] ==> InfoOf(v, ip).currBans == map[]
    ensures var v', more := NextView(cfg, loaded, v, step, ip), log + Recorded(cfg, loaded, v, step, ip);
      && Pooled(v', pool, rs + ReportIn(step, ip), more)
      && (more == [] ==> InfoOf(v', ip).currBans == map[])
  {
    if log == [] {
      StepPools(cfg, loaded, v, pool, rs, log, step, ip);
      if Recorded(cfg, loaded, v, step, ip) == [] {
        StillUnnamed(cfg, loaded, v, step, ip);
      }
    } else {
      AlreadyDue(v, NextView(cfg, loaded, v, step, ip), pool, rs, ReportIn(step, ip), log, Recorded(cfg, loaded, v, step, ip));
    }
  }

  /** From any state in which the record of an IP names no ban, every report counts: all watchers share
      one pool, whatever their bouncers. */
  lemma FirstBanWhenDue(cfg: Config, w: World, steps: seq<Step>, ip: Ip)
    requires Filed(w) && !cfg.whitelisted(ip) && Regular(steps, w.live.Keys, ip)
    requires GetIpInfo(w, ip).currBans == map[]
    ensures BansWhenDue(cfg, w, steps, ip, ReportsOn(steps, ip))
  {
    InfoInView(w, ip);
    RunPoolsAll(cfg, w.live.Keys, ViewOf(w, ip), steps, ip);
    Pools(cfg, w, steps, ip, ReportsOn(steps, ip));
  }

  /** With one loaded bouncer the record names no ban exactly when there is no ban row. */
  lemma UnbannedNamesNone(cfg: Config, b: BouncerName, start: int, steps: seq<Step>, ip: Ip)
    requires InOrder(start, steps) && Through(b, steps)
    ensures var w := Run(cfg, Start(b), steps);
      GetIpInfo(w, ip).currBans == map[] <==> (ip, b) !in w.db.bans
  {
    var w := Run(cfg, Start(b), steps);
    ReachableSound(cfg, b, start, steps, ip);
    InfoInView(w, ip);
    assert b in BansOf(w.db, ip) <==> (ip, b) in w.db.bans;
  }

  // ----- What a restart forgets -----

  lemma DistinctFewer(m: multiset<int>)
    ensures |Times(m)| <= |m|
    ensures |Times(m)| == |m| <==> forall t :: t in m ==> m[t] == 1
  {
    var distinct := multiset(Times(m));
    assert distinct <= m;
    assert m == distinct + (m - distinct);
    if forall t :: t in m ==> m[t] == 1 {
      assert m == distinct;
    } else {
      var t :| t in m && m[t] != 1;
      assert t in m - distinct;
    }
  }

  /** A restart can only lower the strikes of an IP, to its number of distinct fail seconds; it
      forgets nothing exactly when no two of its cached fails fell into the same second. */
  lemma RestartLowersStrikes(cfg: Config, w: World, steps: seq<Step>, ip: Ip)
    requires Filed(w) && Tracks(ViewOf(w, ip))
    ensures var w' := Run(cfg, w, steps);
      var before, after := GetIpInfo(w', ip).currFails, GetIpInfo(Restart(w'), ip).currFails;
      && after == multiset(Times(before))
      && |after| <= |before|
      && (|after| == |before| <==> forall t :: t in before ==> before[t] == 1)
  {
    var w' := Run(cfg, w, steps);
    CacheTracksRows(cfg, w, steps, ip);
    TimesOfRows(FailTimes(w'.db, ip));
    DistinctFewer(GetIpInfo(w', ip).currFails);
  }

  /** One report of two messages is two strikes, and one after a restart. */
  lemma RestartForgets(cfg: Config, b: BouncerName, ip: Ip, now: int)
    requires !cfg.whitelisted(ip)
    ensures var w := Run(cfg, Start(b), [Log(Source(b, 3), now, ip, 2)]);
      |GetIpInfo(w, ip).currFails| == 2 && |GetIpInfo(Restart(w), ip).currFails| == 1
  {
    var step := Log(Source(b, 3), now, ip, 2);
    var w := Run(cfg, Start(b), [step]);
    var record := AddFails(InfoOf(FRESH, ip), now, 2);
    FromStart(cfg, b, [step], ip);
    assert [step][..0] == [];
    assert RunView(cfg, {b}, FRESH, [step], ip) == NextView(cfg, {b}, FRESH, step, ip);
    StrikesInLog(w, ip);
    TwoInOneSecond(cfg, b, ip, now, record);
    assert FailTimes(w.db, ip) == {now};
  }

  lemma TwoInOneSecond(cfg: Config, b: BouncerName, ip: Ip, now: int, record: IPInfo)
    requires !cfg.whitelisted(ip) && record == AddFails(InfoOf(FRESH, ip), now, 2)
    ensures NextView(cfg, {b}, FRESH, Log(Source(b, 3), now, ip, 2), ip) == View(0, {now}, map[], Some(record), {}, false)
    ensures |record.currFails| == 2
  {
    assert record.currFails == multiset{now, now};
    assert Times(record.currFails) == {now};
  }

  // ----- The whitelist -----

  /** Nothing was added to an IP's share. */
  predicate NothingAdded(v: View, v': View) {
    && v'.count == v.count
    && v'.fails == v.fails
    && v'.bans.Keys <= v.bans.Keys && (forall b :: b in v'.bans ==> v'.bans[b] == v.bans[b])
    && (v'.cached == v.cached || v'.cached == None)
    && v'.live <= v.live + v.bans.Keys
  }

  lemma {:induction false} WhitelistedView(cfg: Config, loaded: set<BouncerName>, v: View, steps: seq<Step>, ip: Ip)
    requires cfg.whitelisted(ip)
    ensures NothingAdded(v, RunView(cfg, loaded, v, steps, ip))
  {
    if steps != [] {
      WhitelistedView(cfg, loaded, v, steps[..|steps| - 1], ip);
    }
  }

  /** Whatever bouncers are loaded, no run adds anything for a whitelisted IP: counts and fails stay,
      bans and the cached record can only go, and it is blocked only where it was already or had a ban
      row from before. */
  lemma WhitelistedUntouched(cfg: Config, w: World, steps: seq<Step>, ip: Ip)
    requires cfg.whitelisted(ip) && Filed(w)
    ensures NothingAdded(ViewOf(w, ip), ViewOf(Run(cfg, w, steps), ip))
  {
    RunViews(cfg, w, steps, ip);
    WhitelistedView(cfg, w.live.Keys, ViewOf(w, ip), steps, ip);
  }
}
