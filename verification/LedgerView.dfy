/** One IP's share of the ledger, and what every step does to it.  Nothing a step does to an IP
    depends on another IP, so all later results are proved on this view. */
module LedgerView {
  import opened Options
  import opened Tables
  import opened Ledger

  datatype View = View(
    count: nat,
    fails: set<int>,
    bans: map<BouncerName, BanInfo>,
    cached: Option<IPInfo>,
    live: set<BouncerName>,
    reloaded: bool)

  function CachedFor(w: World, ip: Ip): Option<IPInfo> {
    if ip in w.cache then Some(w.cache[ip]) else None
  }

  function ViewOf(w: World, ip: Ip): View {
    View(CountOf(w.db, ip), FailTimes(w.db, ip), BansOf(w.db, ip), CachedFor(w, ip), LiveFor(w, ip), w.reloaded)
  }

  function LiveFor(w: World, ip: Ip): (r: set<BouncerName>)
    ensures forall b :: b in r <==> b in w.live && ip in w.live[b]
  {
    set b | b in w.live && ip in w.live[b]
  }

  /** The record `getIpInfo` returns. */
  function InfoOf(v: View, ip: Ip): IPInfo {
    if v.cached.Some? then v.cached.value else IPInfo(ip, multiset(v.fails), v.count, v.bans)
  }

  /** Cached records are filed under their own IP. */
  predicate Filed(w: World) {
    forall ip :: ip in w.cache ==> w.cache[ip].ip == ip
  }

  function ApplyView(v: View, src: Source, verdict: Verdict): View {
    match verdict
    case Ignored => v
    case Throws => v
    case Reban => v.(live := v.live + {src.bouncer})
    case Ban(record) =>
      View(record.banCount, Times(record.currFails), v.bans + record.currBans, None, v.live + {src.bouncer}, v.reloaded)
    case Strike(record) =>
      View(record.banCount, v.fails + Times(record.currFails), v.bans + record.currBans, Some(record), v.live, v.reloaded)
  }

  lemma DecideKeepsIp(cfg: Config, loaded: set<BouncerName>, info: IPInfo, src: Source, now: int, ip: Ip, n: nat)
    ensures var v := Decide(cfg, loaded, info, src, now, ip, n);
      v.Ban? || v.Strike? ==> v.record.ip == info.ip
  {
  }

  lemma BlockView(w: World, w': World, bouncer: BouncerName, ip: Ip, other: Ip)
    requires bouncer in w.live && w'.live == Block(w.live, bouncer, ip)
    ensures LiveFor(w', other) == LiveFor(w, other) + if other == ip then {bouncer} else {}
  {
  }

  lemma RebanViews(w: World, src: Source, ip: Ip, other: Ip)
    requires src.bouncer in w.live
    ensures ViewOf(Apply(w, src, ip, Reban), other)
            == if other == ip then ApplyView(ViewOf(w, ip), src, Reban) else ViewOf(w, other)
  {
    BlockView(w, Apply(w, src, ip, Reban), src.bouncer, ip, other);
  }

  predicate StoredAs(s: Store, ip: Ip, count: nat, fails: set<int>, bans: map<BouncerName, BanInfo>) {
    CountOf(s, ip) == count && FailTimes(s, ip) == fails && BansOf(s, ip) == bans
  }

  lemma RecordBanStored(s: Store, s': Store, record: IPInfo, other: Ip)
    requires s' == RecordBan(s, record)
    ensures if other == record.ip
      then StoredAs(s', other, record.banCount, Times(record.currFails), BansOf(s, other) + record.currBans)
      else StoredAs(s', other, CountOf(s, other), FailTimes(s, other), BansOf(s, other))
  {
    RecordBanCounts(s, record, other);
    RecordBanFails(s, record, other);
    RecordBanBans(s, record, other);
  }

  lemma RecordedViews(w: World, w': World, src: Source, record: IPInfo, other: Ip)
    requires src.bouncer in w.live && w'.live == Block(w.live, src.bouncer, record.ip)
    requires w'.cache == w.cache - {record.ip} && w'.reloaded == w.reloaded
    requires if other == record.ip
      then StoredAs(w'.db, other, record.banCount, Times(record.currFails), BansOf(w.db, other) + record.currBans)
      else StoredAs(w'.db, other, CountOf(w.db, other), FailTimes(w.db, other), BansOf(w.db, other))
    ensures ViewOf(w', other)
            == if other == record.ip then ApplyView(ViewOf(w, other), src, Ban(record)) else ViewOf(w, other)
  {
    BlockView(w, w', src.bouncer, record.ip, other);
  }

  lemma BanParts(w: World, src: Source, record: IPInfo)
    requires src.bouncer in w.live
    ensures var w' := Apply(w, src, record.ip, Ban(record));
      && w'.db == RecordBan(w.db, record)
      && w'.cache == w.cache - {record.ip}
      && w'.live == Block(w.live, src.bouncer, record.ip)
      && w'.reloaded == w.reloaded
  {
  }

  lemma BanViews(w: World, src: Source, record: IPInfo, other: Ip)
    requires src.bouncer in w.live
    ensures ViewOf(Apply(w, src, record.ip, Ban(record)), other)
            == if other == record.ip then ApplyView(ViewOf(w, other), src, Ban(record)) else ViewOf(w, other)
  {
    BanParts(w, src, record);
    var w' := Apply(w, src, record.ip, Ban(record));
    RecordBanStored(w.db, w'.db, record, other);
    RecordedViews(w, w', src, record, other);
  }

  lemma StrikeViews(w: World, src: Source, ip: Ip, record: IPInfo, other: Ip)
    requires record.ip == ip
    ensures ViewOf(Apply(w, src, ip, Strike(record)), other)
            == if other == ip then ApplyView(ViewOf(w, ip), src, Strike(record)) else ViewOf(w, other)
  {
    assert LiveFor(Apply(w, src, ip, Strike(record)), other) == LiveFor(w, other);
    UpdateIpFails(w.db, record, other);
    UpdateIpBans(w.db, record, other);
  }

  lemma ApplyViews(w: World, src: Source, ip: Ip, verdict: Verdict, other: Ip)
    requires Applicable(w, src, verdict)
    requires verdict.Ban? || verdict.Strike? ==> verdict.record.ip == ip
    ensures ViewOf(Apply(w, src, ip, verdict), other)
            == if other == ip then ApplyView(ViewOf(w, ip), src, verdict) else ViewOf(w, other)
  {
    match verdict
    case Ignored =>
    case Throws =>
    case Reban => RebanViews(w, src, ip, other);
    case Ban(record) => BanViews(w, src, record, other);
    case Strike(record) => StrikeViews(w, src, ip, record, other);
  }

  lemma InfoInView(w: World, ip: Ip)
    ensures GetIpInfo(w, ip) == InfoOf(ViewOf(w, ip), ip)
    ensures Filed(w) ==> GetIpInfo(w, ip).ip == ip
  {
  }

  lemma ApplyFrame(w: World, src: Source, ip: Ip, verdict: Verdict)
    requires Filed(w) && Applicable(w, src, verdict)
    requires verdict.Ban? || verdict.Strike? ==> verdict.record.ip == ip
    ensures var w' := Apply(w, src, ip, verdict);
      Filed(w') && w'.live.Keys == w.live.Keys && w'.reloaded == w.reloaded
  {
  }

  /** One iteration of `log` touches the share of its own IP only, and what it does there is decided
      by that share, the set of loaded bouncers and the report. */
  lemma LogOneViews(cfg: Config, w: World, src: Source, now: int, ip: Ip, n: nat, other: Ip)
    requires Filed(w)
    ensures var v := ViewOf(w, ip);
      ViewOf(LogOne(cfg, w, src, now, ip, n), other)
      == if other == ip then ApplyView(v, src, Decide(cfg, w.live.Keys, InfoOf(v, ip), src, now, ip, n))
         else ViewOf(w, other)
    ensures var w' := LogOne(cfg, w, src, now, ip, n);
      Filed(w') && w'.live.Keys == w.live.Keys && w'.reloaded == w.reloaded
  {
    InfoInView(w, ip);
    DecideKeepsIp(cfg, w.live.Keys, GetIpInfo(w, ip), src, now, ip, n);
    var verdict := VerdictFor(cfg, w, src, now, ip, n);
    ApplyViews(w, src, ip, verdict, other);
    ApplyFrame(w, src, ip, verdict);
  }

  function DueBouncers(bans: map<BouncerName, BanInfo>, now: int): set<BouncerName> {
    set b | b in bans && Pending(bans[b], now)
  }

  function KeptBouncers(bans: map<BouncerName, BanInfo>, loaded: set<BouncerName>, now: int): set<BouncerName> {
    set b | b in bans && b in loaded && StillBanned(bans[b], now)
  }

  lemma CleanupBans(s: Store, ip: Ip, now: int)
    ensures BansOf(s.(bans := s.bans - PendingKeys(s, now)), ip) == BansOf(s, ip) - DueBouncers(BansOf(s, ip), now)
  {
    var after := s.(bans := s.bans - PendingKeys(s, now));
    SameMap(BansOf(after, ip), BansOf(s, ip) - DueBouncers(BansOf(s, ip), now));
  }

  lemma CleanupLive(w: World, ip: Ip, now: int)
    ensures LiveFor(Cleanup(w, now), ip) == LiveFor(w, ip) - DueBouncers(BansOf(w.db, ip), now)
  {
    var due := DueBouncers(BansOf(w.db, ip), now);
    forall b ensures b in due <==> (ip, b) in PendingKeys(w.db, now) {
    }
  }

  lemma CleanupStored(s: Store, ip: Ip, now: int)
    ensures var s' := s.(bans := s.bans - PendingKeys(s, now));
      StoredAs(s', ip, CountOf(s, ip), FailTimes(s, ip), BansOf(s, ip) - DueBouncers(BansOf(s, ip), now))
  {
    CleanupBans(s, ip, now);
    assert FailTimes(s.(bans := s.bans - PendingKeys(s, now)), ip) == FailTimes(s, ip);
  }

  lemma CleanupViews(w: World, now: int, ip: Ip)
    ensures var v := ViewOf(w, ip);
      var due := DueBouncers(v.bans, now);
      ViewOf(Cleanup(w, now), ip) == v.(bans := v.bans - due, live := v.live - due)
  {
    CleanupStored(w.db, ip, now);
    CleanupLive(w, ip, now);
  }

  lemma RebansLive(w: World, ip: Ip, now: int)
    ensures LiveFor(LoadRebans(w, now), ip) == LiveFor(w, ip) + KeptBouncers(BansOf(w.db, ip), w.live.Keys, now)
  {
    var kept := KeptBouncers(BansOf(w.db, ip), w.live.Keys, now);
    forall b ensures b in kept <==> b in w.live && (ip, b) in RebanKeys(w.db, now) {
    }
  }

  lemma RebansViews(w: World, now: int, ip: Ip)
    ensures var v := ViewOf(w, ip);
      ViewOf(LoadRebans(w, now), ip)
      == v.(live := v.live + KeptBouncers(v.bans, w.live.Keys, now), reloaded := true)
  {
    RebansLive(w, ip, now);
  }

  lemma RestartViews(w: World, ip: Ip)
    ensures ViewOf(Restart(w), ip) == ViewOf(w, ip).(cached := None, live := {}, reloaded := false)
  {
    assert LiveFor(Restart(w), ip) == {};
  }

  // ----- Steps and runs of one share -----

  function VerdictView(cfg: Config, loaded: set<BouncerName>, v: View, step: Step, ip: Ip): Verdict
    requires step.Log?
  {
    if step.ip == ip then Decide(cfg, loaded, InfoOf(v, ip), step.src, step.now, ip, step.n) else Ignored
  }

  function NextView(cfg: Config, loaded: set<BouncerName>, v: View, step: Step, ip: Ip): View {
    match step
    case Log(src, now, at, n) => ApplyView(v, src, VerdictView(cfg, loaded, v, step, ip))
    case Rebans(now) => v.(live := v.live + KeptBouncers(v.bans, loaded, now), reloaded := true)
    case Unbans(now) =>
      var due := DueBouncers(v.bans, now);
      v.(bans := v.bans - due, live := v.live - due)
    case Restarted => v.(cached := None, live := {}, reloaded := false)
  }

  function RunView(cfg: Config, loaded: set<BouncerName>, v: View, steps: seq<Step>, ip: Ip): View {
    if steps == [] then v
    else NextView(cfg, loaded, RunView(cfg, loaded, v, steps[..|steps| - 1], ip), steps[|steps| - 1], ip)
  }

  lemma NextViews(cfg: Config, w: World, step: Step, ip: Ip)
    requires Filed(w)
    ensures ViewOf(Next(cfg, w, step), ip) == NextView(cfg, w.live.Keys, ViewOf(w, ip), step, ip)
  {
    match step
    case Log(src, now, at, n) => LogOneViews(cfg, w, src, now, at, n, ip);
    case Rebans(now) => RebansViews(w, now, ip);
    case Unbans(now) => CleanupViews(w, now, ip);
    case Restarted => RestartViews(w, ip);
  }

  lemma NextFrame(cfg: Config, w: World, step: Step)
    requires Filed(w)
    ensures Filed(Next(cfg, w, step)) && Next(cfg, w, step).live.Keys == w.live.Keys
  {
    match step
    case Log(src, now, at, n) => LogOneViews(cfg, w, src, now, at, n, at);
    case Rebans(now) =>
    case Unbans(now) =>
    case Restarted =>
  }

  /** A run treats every IP as if it were alone: what it makes of one IP's share is decided by that
      share and the steps. */
  lemma {:induction false} RunViews(cfg: Config, w: World, steps: seq<Step>, ip: Ip)
    requires Filed(w)
    ensures ViewOf(Run(cfg, w, steps), ip) == RunView(cfg, w.live.Keys, ViewOf(w, ip), steps, ip)
    ensures Filed(Run(cfg, w, steps)) && Run(cfg, w, steps).live.Keys == w.live.Keys
  {
    if steps != [] {
      var init := steps[..|steps| - 1];
      RunViews(cfg, w, init, ip);
      NextViews(cfg, Run(cfg, w, init), steps[|steps| - 1], ip);
      NextFrame(cfg, Run(cfg, w, init), steps[|steps| - 1]);
    }
  }
}
