/** A report is a `std::map`; the ledger it leaves does not depend on the order its IPs are taken in. */
module LedgerOrder {
  import opened Folds
  import opened Tables
  import opened Ledger
  import opened LedgerView

  // ----- Writes for different IPs commute -----

  /** The one or two statements a verdict runs against the tables. */
  function Write(s: Store, info: IPInfo, wipe: bool): Store {
    if wipe then RecordBan(s, info) else UpdateIp(s, info)
  }

  lemma WriteFails(s: Store, info: IPInfo, wipe: bool, ip: Ip, t: int)
    ensures (ip, t) in Write(s, info, wipe).fails
            <==> ((ip, t) in s.fails && !(wipe && ip == info.ip)) || (ip == info.ip && t in info.currFails)
  {
    assert (ip, t) in FailRows(info.ip, info.currFails) <==> ip == info.ip && t in info.currFails;
  }

  lemma WriteMaps(s: Store, info: IPInfo, wipe: bool)
    ensures Write(s, info, wipe).counts == s.counts[info.ip := info.banCount]
    ensures Write(s, info, wipe).bans == s.bans + BanRows(info.ip, info.currBans)
  {
  }

  lemma FailsCommute(s: Store, one: IPInfo, wipeOne: bool, two: IPInfo, wipeTwo: bool)
    requires one.ip != two.ip
    ensures Write(Write(s, one, wipeOne), two, wipeTwo).fails == Write(Write(s, two, wipeTwo), one, wipeOne).fails
  {
    var a := Write(Write(s, one, wipeOne), two, wipeTwo).fails;
    var b := Write(Write(s, two, wipeTwo), one, wipeOne).fails;
    forall ip, t ensures (ip, t) in a <==> (ip, t) in b {
      WriteFails(s, one, wipeOne, ip, t);
      WriteFails(s, two, wipeTwo, ip, t);
      WriteFails(Write(s, one, wipeOne), two, wipeTwo, ip, t);
      WriteFails(Write(s, two, wipeTwo), one, wipeOne, ip, t);
    }
    SameRows(a, b);
  }

  lemma SameRows(a: set<(Ip, int)>, b: set<(Ip, int)>)
    requires forall ip, t :: (ip, t) in a <==> (ip, t) in b
    ensures a == b
  {
    forall row ensures row in a <==> row in b {
      var (ip, t) := row;
      assert row == (ip, t);
    }
  }

  lemma DisjointUnionsCommute(m: map<(Ip, BouncerName), BanInfo>, a: map<(Ip, BouncerName), BanInfo>, b: map<(Ip, BouncerName), BanInfo>)
    requires a.Keys !! b.Keys
    ensures m + a + b == m + b + a
  {
    assert (m + a + b).Keys == (m + b + a).Keys;
  }

  lemma BanRowsDisjoint(one: IPInfo, two: IPInfo)
    requires one.ip != two.ip
    ensures BanRows(one.ip, one.currBans).Keys !! BanRows(two.ip, two.currBans).Keys
  {
    forall key | key in BanRows(one.ip, one.currBans).Keys ensures key !in BanRows(two.ip, two.currBans).Keys {
      assert key == (key.0, key.1);
    }
  }

  lemma SettingsCommute(m: map<Ip, nat>, x: Ip, n: nat, y: Ip, k: nat)
    requires x != y
    ensures m[x := n][y := k] == m[y := k][x := n]
  {
  }

  lemma CountsCommute(s: Store, one: IPInfo, wipeOne: bool, two: IPInfo, wipeTwo: bool)
    requires one.ip != two.ip
    ensures Write(Write(s, one, wipeOne), two, wipeTwo).counts == Write(Write(s, two, wipeTwo), one, wipeOne).counts
  {
    WriteMaps(Write(s, one, wipeOne), two, wipeTwo);
    WriteMaps(Write(s, two, wipeTwo), one, wipeOne);
    WriteMaps(s, one, wipeOne);
    WriteMaps(s, two, wipeTwo);
    SettingsCommute(s.counts, one.ip, one.banCount, two.ip, two.banCount);
  }

  lemma BansCommute(s: Store, one: IPInfo, wipeOne: bool, two: IPInfo, wipeTwo: bool)
    requires one.ip != two.ip
    ensures Write(Write(s, one, wipeOne), two, wipeTwo).bans == Write(Write(s, two, wipeTwo), one, wipeOne).bans
  {
    WriteMaps(s, one, wipeOne);
    WriteMaps(s, two, wipeTwo);
    WriteMaps(Write(s, one, wipeOne), two, wipeTwo);
    WriteMaps(Write(s, two, wipeTwo), one, wipeOne);
    BanRowsDisjoint(one, two);
    DisjointUnionsCommute(s.bans, BanRows(one.ip, one.currBans), BanRows(two.ip, two.currBans));
  }

  lemma SameStore(a: Store, b: Store)
    requires a.counts == b.counts && a.fails == b.fails && a.bans == b.bans
    ensures a == b
  {
  }

  lemma WritesCommute(s: Store, one: IPInfo, wipeOne: bool, two: IPInfo, wipeTwo: bool)
    requires one.ip != two.ip
    ensures Write(Write(s, one, wipeOne), two, wipeTwo) == Write(Write(s, two, wipeTwo), one, wipeOne)
  {
    CountsCommute(s, one, wipeOne, two, wipeTwo);
    BansCommute(s, one, wipeOne, two, wipeTwo);
    FailsCommute(s, one, wipeOne, two, wipeTwo);
    SameStore(Write(Write(s, one, wipeOne), two, wipeTwo), Write(Write(s, two, wipeTwo), one, wipeOne));
  }

  // ----- Verdicts for different IPs commute -----

  function Stored(s: Store, v: Verdict): Store {
    if v.Ban? || v.Strike? then Write(s, v.record, v.Ban?) else s
  }

  function Cached(cache: map<Ip, IPInfo>, ip: Ip, v: Verdict): map<Ip, IPInfo> {
    if v.Ban? then cache - {ip} else if v.Strike? then cache[ip := v.record] else cache
  }

  function Blocked(live: map<BouncerName, set<Ip>>, b: BouncerName, ip: Ip, v: Verdict): map<BouncerName, set<Ip>>
    requires v.Reban? || v.Ban? ==> b in live
  {
    if v.Reban? || v.Ban? then Block(live, b, ip) else live
  }

  predicate Owns(ip: Ip, v: Verdict) {
    v.Ban? || v.Strike? ==> v.record.ip == ip
  }

  lemma ApplyParts(w: World, src: Source, ip: Ip, v: Verdict)
    requires Applicable(w, src, v) && Owns(ip, v)
    ensures Apply(w, src, ip, v) == World(Stored(w.db, v), Cached(w.cache, ip, v), Blocked(w.live, src.bouncer, ip, v), w.reloaded)
  {
  }

  lemma StoredCommute(s: Store, x: Ip, v: Verdict, y: Ip, u: Verdict)
    requires x != y && Owns(x, v) && Owns(y, u)
    ensures Stored(Stored(s, v), u) == Stored(Stored(s, u), v)
  {
    if (v.Ban? || v.Strike?) && (u.Ban? || u.Strike?) {
      WritesCommute(s, v.record, v.Ban?, u.record, u.Ban?);
    }
  }

  lemma CachedCommute(c: map<Ip, IPInfo>, x: Ip, v: Verdict, y: Ip, u: Verdict)
    requires x != y
    ensures Cached(Cached(c, x, v), y, u) == Cached(Cached(c, y, u), x, v)
  {
    var a, b := Cached(Cached(c, x, v), y, u), Cached(Cached(c, y, u), x, v);
    assert a.Keys == b.Keys;
  }

  lemma BlockedCommute(live: map<BouncerName, set<Ip>>, b: BouncerName, x: Ip, v: Verdict, c: BouncerName, y: Ip, u: Verdict)
    requires v.Reban? || v.Ban? ==> b in live
    requires u.Reban? || u.Ban? ==> c in live
    ensures Blocked(Blocked(live, b, x, v), c, y, u) == Blocked(Blocked(live, c, y, u), b, x, v)
  {
    var one, two := Blocked(Blocked(live, b, x, v), c, y, u), Blocked(Blocked(live, c, y, u), b, x, v);
    assert one.Keys == two.Keys;
    forall k | k in one ensures one[k] == two[k] {
    }
  }

  lemma AppliesCommute(w: World, src: Source, x: Ip, v: Verdict, other: Source, y: Ip, u: Verdict)
    requires x != y && Owns(x, v) && Owns(y, u)
    requires Applicable(w, src, v) && Applicable(w, other, u)
    ensures Applicable(Apply(w, src, x, v), other, u) && Applicable(Apply(w, other, y, u), src, v)
    ensures Apply(Apply(w, src, x, v), other, y, u) == Apply(Apply(w, other, y, u), src, x, v)
  {
    ApplyParts(w, src, x, v);
    ApplyParts(w, other, y, u);
    ApplyParts(Apply(w, src, x, v), other, y, u);
    ApplyParts(Apply(w, other, y, u), src, x, v);
    StoredCommute(w.db, x, v, y, u);
    CachedCommute(w.cache, x, v, y, u);
    BlockedCommute(w.live, src.bouncer, x, v, other.bouncer, y, u);
  }

  /** Logging one IP leaves the verdict on every other IP as it was. */
  lemma VerdictUnmoved(cfg: Config, w: World, src: Source, now: int, x: Ip, n: nat, other: Source, later: int, y: Ip, k: nat)
    requires Filed(w) && x != y
    ensures VerdictFor(cfg, LogOne(cfg, w, src, now, x, n), other, later, y, k) == VerdictFor(cfg, w, other, later, y, k)
  {
    LogOneViews(cfg, w, src, now, x, n, y);
    InfoInView(w, y);
    InfoInView(LogOne(cfg, w, src, now, x, n), y);
  }

  lemma VerdictOwns(cfg: Config, w: World, src: Source, now: int, ip: Ip, n: nat)
    requires Filed(w)
    ensures Owns(ip, VerdictFor(cfg, w, src, now, ip, n))
  {
    InfoInView(w, ip);
    DecideKeepsIp(cfg, w.live.Keys, GetIpInfo(w, ip), src, now, ip, n);
  }

  /** Two iterations of `log` for different IPs, from any watchers, commute on cache, tables and
      bouncers, whatever bouncers are loaded. */
  lemma LogsCommute(cfg: Config, w: World, src: Source, now: int, x: Ip, n: nat, other: Source, later: int, y: Ip, k: nat)
    requires Filed(w) && x != y
    ensures LogOne(cfg, LogOne(cfg, w, src, now, x, n), other, later, y, k)
            == LogOne(cfg, LogOne(cfg, w, other, later, y, k), src, now, x, n)
  {
    VerdictUnmoved(cfg, w, src, now, x, n, other, later, y, k);
    VerdictUnmoved(cfg, w, other, later, y, k, src, now, x, n);
    VerdictOwns(cfg, w, src, now, x, n);
    VerdictOwns(cfg, w, other, later, y, k);
    AppliesCommute(w, src, x, VerdictFor(cfg, w, src, now, x, n), other, y, VerdictFor(cfg, w, other, later, y, k));
  }

  // ----- Whole reports -----

  /** `order` is one way to walk through the report. */
  ghost predicate Walks(order: seq<Ip>, report: map<Ip, nat>) {
    Distinct(order) && |order| == |report| && forall ip :: ip in order <==> ip in report
  }

  /** A walk that has `rest` still before it. */
  ghost predicate WalksBut(order: seq<Ip>, rest: set<Ip>, report: map<Ip, nat>) {
    && rest <= report.Keys
    && Distinct(order) && |order| + |rest| == |report|
    && forall ip :: ip in order <==> ip in report && ip !in rest
  }

  lemma WalksOn(order: seq<Ip>, rest: set<Ip>, report: map<Ip, nat>, ip: Ip)
    requires WalksBut(order, rest, report) && ip in rest
    ensures WalksBut(order + [ip], rest - {ip}, report)
  {
  }

  /** The steps of a report, one for each IP. */
  function LogSteps(src: Source, at: Ip -> int, report: map<Ip, nat>, order: seq<Ip>): (steps: seq<Step>)
    requires forall ip :: ip in order ==> ip in report
    ensures |steps| == |order|
  {
    if order == [] then []
    else
      var ip := order[|order| - 1];
      LogSteps(src, at, report, order[..|order| - 1]) + [Log(src, at(ip), ip, report[ip])]
  }

  lemma LogStepsLast(src: Source, at: Ip -> int, report: map<Ip, nat>, order: seq<Ip>, ip: Ip)
    requires ip in report && forall x :: x in order ==> x in report
    ensures LogSteps(src, at, report, order + [ip]) == LogSteps(src, at, report, order) + [Log(src, at(ip), ip, report[ip])]
  {
    assert (order + [ip])[..|order|] == order;
  }

  lemma RunLast(cfg: Config, w: World, steps: seq<Step>, step: Step)
    ensures Run(cfg, w, steps + [step]) == Next(cfg, Run(cfg, w, steps), step)
  {
    assert (steps + [step])[..|steps|] == steps;
  }

  /** No IP of the walk makes `log` throw. */
  predicate NoneThrows(cfg: Config, w: World, src: Source, at: Ip -> int, report: map<Ip, nat>, order: seq<Ip>)
    requires forall ip :: ip in order ==> ip in report
  {
    order == [] ||
    var init, ip := order[..|order| - 1], order[|order| - 1];
    && NoneThrows(cfg, w, src, at, report, init)
    && !VerdictFor(cfg, Run(cfg, w, LogSteps(src, at, report, init)), src, at(ip), ip, report[ip]).Throws?
  }

  function LogEntry(cfg: Config, src: Source, at: Ip -> int, report: map<Ip, nat>): (World, Ip) -> World {
    (w: World, ip: Ip) => if ip in report then LogOne(cfg, w, src, at(ip), ip, report[ip]) else w
  }

  lemma EntriesCommute(cfg: Config, src: Source, at: Ip -> int, report: map<Ip, nat>)
    ensures Commutes(LogEntry(cfg, src, at, report), Filed)
  {
    var f := LogEntry(cfg, src, at, report);
    forall w, ip | Filed(w) ensures Filed(f(w, ip)) {
      if ip in report {
        LogOneViews(cfg, w, src, at(ip), ip, report[ip], ip);
      }
    }
    forall w, x, y | Filed(w) && x != y ensures f(f(w, x), y) == f(f(w, y), x) {
      if x in report && y in report {
        LogsCommute(cfg, w, src, at(x), x, report[x], src, at(y), y, report[y]);
      }
    }
  }

  lemma DecideThrows(cfg: Config, loaded: set<BouncerName>, info: IPInfo, src: Source, now: int, ip: Ip, n: nat)
    ensures Decide(cfg, loaded, info, src, now, ip, n).Throws? ==> src.bouncer !in loaded
  {
  }

  /** Through a loaded bouncer `log` never throws and takes every IP of the report. */
  lemma {:induction false} LoadedNeverThrows(cfg: Config, w: World, src: Source, at: Ip -> int, report: map<Ip, nat>, order: seq<Ip>)
    requires Filed(w) && src.bouncer in w.live
    requires forall ip :: ip in order ==> ip in report
    ensures NoneThrows(cfg, w, src, at, report, order)
    ensures var after := Run(cfg, w, LogSteps(src, at, report, order));
      && after == Fold(LogEntry(cfg, src, at, report), w, order)
      && Filed(after) && after.live.Keys == w.live.Keys
  {
    if order != [] {
      var init, ip := order[..|order| - 1], order[|order| - 1];
      assert order == init + [ip];
      LoadedNeverThrows(cfg, w, src, at, report, init);
      OneMoreEntry(cfg, w, src, at, report, init, ip, Run(cfg, w, LogSteps(src, at, report, init)));
    }
  }

  lemma OneMoreEntry(cfg: Config, w: World, src: Source, at: Ip -> int, report: map<Ip, nat>, init: seq<Ip>, ip: Ip, before: World)
    requires ip in report && forall x :: x in init ==> x in report
    requires before == Run(cfg, w, LogSteps(src, at, report, init)) == Fold(LogEntry(cfg, src, at, report), w, init)
    requires Filed(before) && src.bouncer in before.live
    ensures !VerdictFor(cfg, before, src, at(ip), ip, report[ip]).Throws?
    ensures var after := Run(cfg, w, LogSteps(src, at, report, init + [ip]));
      && after == Fold(LogEntry(cfg, src, at, report), w, init + [ip])
      && Filed(after) && after.live.Keys == before.live.Keys
  {
    LogStepsLast(src, at, report, init, ip);
    RunLast(cfg, w, LogSteps(src, at, report, init), Log(src, at(ip), ip, report[ip]));
    FoldLast(LogEntry(cfg, src, at, report), w, init, ip);
    LogOneViews(cfg, before, src, at(ip), ip, report[ip], ip);
    DecideThrows(cfg, before.live.Keys, GetIpInfo(before, ip), src, at(ip), ip, report[ip]);
  }

  /** Every walk through a report that takes the IPs at the same times leaves the same ledger, provided
      the watcher's bouncer is loaded. */
  lemma ReportOrderIrrelevant(cfg: Config, w: World, src: Source, at: Ip -> int, report: map<Ip, nat>, one: seq<Ip>, two: seq<Ip>)
    requires Filed(w) && src.bouncer in w.live
    requires Walks(one, report) && Walks(two, report)
    ensures Run(cfg, w, LogSteps(src, at, report, one)) == Run(cfg, w, LogSteps(src, at, report, two))
  {
    LoadedNeverThrows(cfg, w, src, at, report, one);
    LoadedNeverThrows(cfg, w, src, at, report, two);
    EntriesCommute(cfg, src, at, report);
    Folds.OrderIrrelevant(LogEntry(cfg, src, at, report), Filed, w, one, two);
  }

  /** What a report has done to the ledger when it stops behind `order`: one step of the ledger for each
      IP taken, of which at most the last threw. */
  ghost predicate LoggedAs(cfg: Config, w: World, src: Source, at: Ip -> int, report: map<Ip, nat>, order: seq<Ip>, after: World, threw: bool) {
    && (forall ip :: ip in order ==> ip in report)
    && after == Run(cfg, w, LogSteps(src, at, report, order))
    && (threw == !NoneThrows(cfg, w, src, at, report, order))
    && (threw ==> order != [] && NoneThrows(cfg, w, src, at, report, order[..|order| - 1]))
  }

  lemma LogsOn(cfg: Config, w: World, src: Source, at: Ip -> int, report: map<Ip, nat>, order: seq<Ip>, before: World, ip: Ip)
    requires LoggedAs(cfg, w, src, at, report, order, before, false) && ip in report
    ensures LoggedAs(cfg, w, src, at, report, order + [ip],
                     LogOne(cfg, before, src, at(ip), ip, report[ip]), VerdictFor(cfg, before, src, at(ip), ip, report[ip]).Throws?)
  {
    assert (order + [ip])[..|order|] == order;
    LogStepsLast(src, at, report, order, ip);
    RunLast(cfg, w, LogSteps(src, at, report, order), Log(src, at(ip), ip, report[ip]));
  }

  lemma LoadedWalksAgree(cfg: Config, w: World, src: Source, at: Ip -> int, report: map<Ip, nat>, order: seq<Ip>, rest: set<Ip>,
                         after: World, threw: bool)
    requires Filed(w) && src.bouncer in w.live
    requires WalksBut(order, rest, report) && (rest == {} || threw)
    requires LoggedAs(cfg, w, src, at, report, order, after, threw)
    ensures !threw
    ensures forall walk :: Walks(walk, report) ==> after == Run(cfg, w, LogSteps(src, at, report, walk))
  {
    LoadedNeverThrows(cfg, w, src, at, report, order);
    forall walk | Walks(walk, report)
      ensures after == Run(cfg, w, LogSteps(src, at, report, walk))
    {
      ReportOrderIrrelevant(cfg, w, src, at, report, order, walk);
    }
  }
}
