/** From messages to bans: the turns of all watchers over all files, each file on its own thread, as one
    run of the ledger.  An IP is banned with the first turn that brings its pool to that watcher's
    limit, however the threads interleave. */
module Turns {
  import opened Int64
  import opened Folds
  import opened Messages
  import opened Buffer
  import opened BufferInterchange
  import Buffering
  import opened Tables
  import opened Ledger
  import opened LedgerView
  import opened LedgerOrder
  import opened StrikePool
  import opened Pipeline
  import BanManagement

  /** A watcher's turn on what its file's poll found, the IPs caught taken in `order` at the times `at`. */
  datatype Turn = Turn(w: Watcher, multiprocess: bool, messages: seq<Message>, at: Ip -> int, order: seq<Ip>)

  // ----- The thread of one file -----

  /** Everything the turn catches. */
  function CaughtBy(valid: Validity, b: Buf, t: Turn): seq<Message> {
    Processed(valid, t.w.filters, b, Share(t.w, t.multiprocess, t.messages)).caught
  }

  function ReportBy(valid: Validity, b: Buf, t: Turn): map<Ip, nat> {
    TurnReport(valid, t.w, t.multiprocess, t.messages, b)
  }

  /** The steps of the ledger a turn takes, one for each IP in its order. */
  function StepsOf(valid: Validity, b: Buf, t: Turn): seq<Step> {
    if forall ip :: ip in t.order ==> ip in ReportBy(valid, b, t) then LogSteps(t.w.src, t.at, ReportBy(valid, b, t), t.order) else []
  }

  /** The buffer of the file behind some turns. */
  function BufAfter(valid: Validity, b: Buf, turns: seq<Turn>): Buf {
    if turns == [] then b
    else
      var t := turns[|turns| - 1];
      Processed(valid, t.w.filters, BufAfter(valid, b, turns[..|turns| - 1]), Share(t.w, t.multiprocess, t.messages)).b
  }

  function ThreadSteps(valid: Validity, b: Buf, turns: seq<Turn>): seq<Step> {
    if turns == [] then []
    else
      var init := turns[..|turns| - 1];
      ThreadSteps(valid, b, init) + StepsOf(valid, BufAfter(valid, b, init), turns[|turns| - 1])
  }

  /** Every turn walks through its whole report. */
  ghost predicate Walked(valid: Validity, b: Buf, turns: seq<Turn>) {
    turns == [] ||
    var init, t := turns[..|turns| - 1], turns[|turns| - 1];
    Walked(valid, b, init) && Walks(t.order, ReportBy(valid, BufAfter(valid, b, init), t))
  }

  /** What the turns of a file report about one IP: for each that caught any message under it, how many. */
  function ThreadReports(valid: Validity, b: Buf, turns: seq<Turn>, ip: Ip): seq<Report> {
    if turns == [] then []
    else
      var init := turns[..|turns| - 1];
      ThreadReports(valid, b, init, ip) + ReportedBy(valid, BufAfter(valid, b, init), turns[|turns| - 1], ip)
  }

  function ReportedBy(valid: Validity, b: Buf, t: Turn, ip: Ip): seq<Report> {
    var caught := OfIp(CaughtBy(valid, b, t), ip.text);
    if caught != [] then [Report(t.w.src.bouncer, |caught|, t.w.src.limit, t.at(ip))] else []
  }

  lemma {:induction false} RunConcat(cfg: Config, w: World, one: seq<Step>, two: seq<Step>)
    ensures Ledger.Run(cfg, w, one + two) == Ledger.Run(cfg, Ledger.Run(cfg, w, one), two)
    decreases |two|
  {
    if two == [] {
      assert one + two == one;
    } else {
      var init := two[..|two| - 1];
      assert (one + two)[..|one + two| - 1] == one + init;
      RunConcat(cfg, w, one, init);
    }
  }

  lemma ThreadNext(cfg: Config, w: World, valid: Validity, b: Buf, turns: seq<Turn>, t: Turn)
    ensures var before := BufAfter(valid, b, turns);
      && BufAfter(valid, b, turns + [t]) == Processed(valid, t.w.filters, before, Share(t.w, t.multiprocess, t.messages)).b
      && ThreadSteps(valid, b, turns + [t]) == ThreadSteps(valid, b, turns) + StepsOf(valid, before, t)
      && (Walked(valid, b, turns + [t]) <==> Walked(valid, b, turns) && Walks(t.order, ReportBy(valid, before, t)))
  {
    assert (turns + [t])[..|turns|] == turns;
  }

  /** The buffer and the ledger are where these turns lead, and unless the last one threw, all have
      walked through their reports. */
  ghost predicate Served(valid: Validity, cfg: Config, b: Buf, w: World, turns: seq<Turn>, b': Buf, w': World, threw: bool) {
    && b' == BufAfter(valid, b, turns)
    && w' == Ledger.Run(cfg, w, ThreadSteps(valid, b, turns))
    && (!threw ==> Walked(valid, b, turns))
  }

  lemma ServedNext(valid: Validity, cfg: Config, b: Buf, w: World, turns: seq<Turn>, before: Buf, ledger: World,
                   t: Turn, after: Buf, ledger': World, threw: bool)
    requires Served(valid, cfg, b, w, turns, before, ledger, false)
    requires after == Processed(valid, t.w.filters, before, Share(t.w, t.multiprocess, t.messages)).b
    requires LoggedAs(cfg, ledger, t.w.src, t.at, ReportBy(valid, before, t), t.order, ledger', threw)
    requires !threw ==> Walks(t.order, ReportBy(valid, before, t))
    ensures Served(valid, cfg, b, w, turns + [t], after, ledger', threw)
  {
    ThreadNext(cfg, w, valid, b, turns, t);
    RunConcat(cfg, w, ThreadSteps(valid, b, turns), StepsOf(valid, before, t));
  }

  /** The turns of these watchers, on the same messages. */
  ghost predicate TurnsOf(turns: seq<Turn>, watchers: seq<Watcher>, multiprocess: bool, messages: seq<Message>, clock: nat -> Ip -> int) {
    && |turns| <= |watchers|
    && forall k :: 0 <= k < |turns| ==> turns[k] == Turn(watchers[k], multiprocess, messages, clock(k), turns[k].order)
  }

  lemma TurnsOfNext(turns: seq<Turn>, watchers: seq<Watcher>, multiprocess: bool, messages: seq<Message>, clock: nat -> Ip -> int, t: Turn)
    requires TurnsOf(turns, watchers, multiprocess, messages, clock) && |turns| < |watchers|
    requires t == Turn(watchers[|turns|], multiprocess, messages, clock(|turns|), t.order)
    ensures TurnsOf(turns + [t], watchers, multiprocess, messages, clock)
  {
  }

  /** What one poll of a file leads to: a turn of each of its watchers, until one throws.  The buffer and
      the ledger end where these turns lead. */
  method Serve(watchers: seq<Watcher>, multiprocess: bool, messages: seq<Message>, clock: nat -> Ip -> int,
               buff: Buffering.MessageBuffer, man: BanManagement.BanManager)
    returns (threw: bool, ghost turns: seq<Turn>)
    modifies buff, man, man.db
    ensures TurnsOf(turns, watchers, multiprocess, messages, clock)
    ensures Served(buff.valid, man.conf, old(buff.State()), old(man.State()), turns, buff.State(), man.State(), threw)
    ensures !threw ==> |turns| == if messages == [] then 0 else |watchers|
  {
    threw, turns := false, [];
    ghost var b, w := buff.State(), man.State();
    if |messages| == 0 {
      return;
    }
    var i: nat := 0;
    while i < |watchers| && !threw
      invariant i == |turns| && TurnsOf(turns, watchers, multiprocess, messages, clock)
      invariant Served(buff.valid, man.conf, b, w, turns, buff.State(), man.State(), threw)
      decreases |watchers| - i
    {
      ghost var t;
      threw, t := TakeTurn(watchers[i], multiprocess, messages, clock(i), buff, man, b, w, turns);
      TurnsOfNext(turns, watchers, multiprocess, messages, clock, t);
      turns := turns + [t];
      i := i + 1;
    }
  }

  method TakeTurn(watcher: Watcher, multiprocess: bool, messages: seq<Message>, at: Ip -> int,
                  buff: Buffering.MessageBuffer, man: BanManagement.BanManager, ghost b: Buf, ghost w: World, ghost turns: seq<Turn>)
    returns (threw: bool, ghost t: Turn)
    requires Served(buff.valid, man.conf, b, w, turns, buff.State(), man.State(), false)
    modifies buff, man, man.db
    ensures t == Turn(watcher, multiprocess, messages, at, t.order)
    ensures Served(buff.valid, man.conf, b, w, turns + [t], buff.State(), man.State(), threw)
  {
    ghost var before, ledger := buff.State(), man.State();
    ghost var order;
    threw, order := Pipeline.Turn(watcher, multiprocess, messages, at, buff, man);
    t := Turn(watcher, multiprocess, messages, at, order);
    ServedNext(buff.valid, man.conf, b, w, turns, before, ledger, t, buff.State(), man.State(), threw);
  }

  // ----- What a thread reports -----

  lemma {:induction false} ReportsConcat(one: seq<Step>, two: seq<Step>, ip: Ip)
    ensures ReportsOn(one + two, ip) == ReportsOn(one, ip) + ReportsOn(two, ip)
    decreases |two|
  {
    if two == [] {
      assert one + two == one;
    } else {
      var init, last := two[..|two| - 1], two[|two| - 1];
      assert (one + two)[..|one + two| - 1] == one + init;
      ReportsConcat(one, init, ip);
      assert ReportsOn(one, ip) + ReportsOn(init, ip) + ReportIn(last, ip)
          == ReportsOn(one, ip) + (ReportsOn(init, ip) + ReportIn(last, ip));
    }
  }

  lemma DistinctInit(order: seq<Ip>)
    requires order != [] && Distinct(order)
    ensures var init, last := order[..|order| - 1], order[|order| - 1];
      Distinct(init) && last !in init && forall x :: x in order <==> x in init || x == last
  {
    var init, last := order[..|order| - 1], order[|order| - 1];
    assert order == init + [last] + [] && init + [] == init;
    DropOne(order, init, last, []);
  }

  /** A walk reports each of its IPs once. */
  lemma {:induction false} ReportsOfWalk(src: Source, at: Ip -> int, report: map<Ip, nat>, order: seq<Ip>, ip: Ip)
    requires Distinct(order) && forall x :: x in order ==> x in report && report[x] > 0
    ensures ReportsOn(LogSteps(src, at, report, order), ip)
            == if ip in order then [Report(src.bouncer, report[ip], src.limit, at(ip))] else []
  {
    if order != [] {
      var init, last := order[..|order| - 1], order[|order| - 1];
      DistinctInit(order);
      ReportsOfWalk(src, at, report, init, ip);
      ReportsConcat(LogSteps(src, at, report, init), [Log(src, at(last), last, report[last])], ip);
      OneReport(Log(src, at(last), last, report[last]), ip);
    }
  }

  lemma OneReport(step: Step, ip: Ip)
    ensures ReportsOn([step], ip) == ReportIn(step, ip)
  {
    assert [step][..0] == [];
  }

  lemma InReport(caught: seq<Message>, ip: Ip)
    ensures ip in Pipeline.Strikes(GroupByIp(caught)) <==> OfIp(caught, ip.text) != []
  {
    StrikesPositive(caught);
    if OfIp(caught, ip.text) != [] {
      var m := OfIp(caught, ip.text)[0];
      assert m in OfIp(caught, ip.text);
      assert Ip(m.ip) == ip;
    }
  }

  lemma CaughtReported(src: Source, at: Ip -> int, report: map<Ip, nat>, order: seq<Ip>, caught: seq<Message>, ip: Ip)
    requires report == Pipeline.Strikes(GroupByIp(caught)) && Walks(order, report)
    ensures ReportsOn(LogSteps(src, at, report, order), ip)
            == if OfIp(caught, ip.text) != [] then [Report(src.bouncer, |OfIp(caught, ip.text)|, src.limit, at(ip))] else []
  {
    StrikesPositive(caught);
    ReportsOfWalk(src, at, report, order, ip);
    InReport(caught, ip);
  }

  lemma TurnReports(valid: Validity, b: Buf, t: Turn, ip: Ip)
    requires Walks(t.order, ReportBy(valid, b, t))
    ensures ReportsOn(StepsOf(valid, b, t), ip) == ReportedBy(valid, b, t, ip)
  {
    CaughtReported(t.w.src, t.at, ReportBy(valid, b, t), t.order, CaughtBy(valid, b, t), ip);
  }

  /** The steps of a thread report exactly what its turns catch. */
  lemma {:induction false} ThreadReportsCaught(valid: Validity, b: Buf, turns: seq<Turn>, ip: Ip)
    requires Walked(valid, b, turns)
    ensures ReportsOn(ThreadSteps(valid, b, turns), ip) == ThreadReports(valid, b, turns, ip)
  {
    if turns != [] {
      var init := turns[..|turns| - 1];
      ThreadReportsCaught(valid, b, init, ip);
      TurnReports(valid, BufAfter(valid, b, init), turns[|turns| - 1], ip);
      ReportsConcat(ThreadSteps(valid, b, init), StepsOf(valid, BufAfter(valid, b, init), turns[|turns| - 1]), ip);
    }
  }

  // ----- Threads interleaved -----

  // What a file's thread starts from and does.
  datatype Thread = Thread(buf: Buf, turns: seq<Turn>)

  /** A step of a file's thread, or of the unban monitor. */
  datatype Action = ByFile(file: string, step: Step) | ByMonitor(step: Step)

  function StepsIn(trace: seq<Action>): (steps: seq<Step>)
    ensures |steps| == |trace| && forall k :: 0 <= k < |trace| ==> steps[k] == trace[k].step
  {
    if trace == [] then [] else StepsIn(trace[..|trace| - 1]) + [trace[|trace| - 1].step]
  }

  function StepsBy(trace: seq<Action>, file: string): seq<Step> {
    if trace == [] then []
    else
      var last := trace[|trace| - 1];
      StepsBy(trace[..|trace| - 1], file) + if last.ByFile? && last.file == file then [last.step] else []
  }

  /** The trace is an interleaving, step by step, of the threads so far and of the monitor. */
  ghost predicate Interleaves(valid: Validity, threads: map<string, Thread>, trace: seq<Action>) {
    && (forall file :: file in threads ==> StepsBy(trace, file) <= ThreadSteps(valid, threads[file].buf, threads[file].turns))
    && (forall k :: 0 <= k < |trace| ==>
          match trace[k]
          case ByFile(file, _) => file in threads
          case ByMonitor(step) => step.Rebans? || step.Unbans?)
  }

  /** A report, and the file it comes from. */
  datatype Attributed = Attributed(file: string, report: Report)

  function FiledIn(trace: seq<Action>, ip: Ip): seq<Attributed> {
    if trace == [] then [] else FiledIn(trace[..|trace| - 1], ip) + FiledBy(trace[|trace| - 1], ip)
  }

  function FiledBy(a: Action, ip: Ip): seq<Attributed> {
    if a.ByFile? && ReportIn(a.step, ip) != [] then [Attributed(a.file, ReportIn(a.step, ip)[0])] else []
  }

  function Plain(filed: seq<Attributed>): seq<Report> {
    if filed == [] then [] else Plain(filed[..|filed| - 1]) + [filed[|filed| - 1].report]
  }

  function OfFile(filed: seq<Attributed>, file: string): seq<Report> {
    if filed == [] then []
    else
      var last := filed[|filed| - 1];
      OfFile(filed[..|filed| - 1], file) + if last.file == file then [last.report] else []
  }

  lemma PlainNext(filed: seq<Attributed>, more: seq<Attributed>)
    requires |more| <= 1
    ensures Plain(filed + more) == Plain(filed) + if more == [] then [] else [more[0].report]
  {
    if more == [] {
      assert filed + more == filed && Plain(filed) + [] == Plain(filed);
    } else {
      assert (filed + more)[..|filed|] == filed && (filed + more)[|filed|] == more[0];
    }
  }

  lemma OfFileNext(filed: seq<Attributed>, more: seq<Attributed>, file: string)
    requires |more| <= 1
    ensures OfFile(filed + more, file) == OfFile(filed, file) + if more != [] && more[0].file == file then [more[0].report] else []
  {
    if more == [] {
      assert filed + more == filed && OfFile(filed, file) + [] == OfFile(filed, file);
    } else {
      assert (filed + more)[..|filed|] == filed && (filed + more)[|filed|] == more[0];
    }
  }

  /** The filed reports are those of the whole trace... */
  lemma {:induction false} AllFiled(trace: seq<Action>, ip: Ip)
    requires forall k :: 0 <= k < |trace| && trace[k].ByMonitor? ==> !trace[k].step.Log?
    ensures Plain(FiledIn(trace, ip)) == ReportsOn(StepsIn(trace), ip)
  {
    if trace != [] {
      var init, last := trace[..|trace| - 1], trace[|trace| - 1];
      AllFiled(init, ip);
      PlainNext(FiledIn(init, ip), FiledBy(last, ip));
      ReportsConcat(StepsIn(init), [last.step], ip);
      OneReport(last.step, ip);
    }
  }

  /** ... and those of each file are those of its steps. */
  lemma {:induction false} FiledByFile(trace: seq<Action>, ip: Ip, file: string)
    ensures OfFile(FiledIn(trace, ip), file) == ReportsOn(StepsBy(trace, file), ip)
  {
    if trace != [] {
      var init, last := trace[..|trace| - 1], trace[|trace| - 1];
      FiledByFile(init, ip, file);
      OfFileNext(FiledIn(init, ip), FiledBy(last, ip), file);
      MoreBy(trace, init, last, ip, file);
    }
  }

  lemma MoreBy(trace: seq<Action>, init: seq<Action>, last: Action, ip: Ip, file: string)
    requires trace != [] && init == trace[..|trace| - 1] && last == trace[|trace| - 1]
    ensures ReportsOn(StepsBy(trace, file), ip)
            == ReportsOn(StepsBy(init, file), ip) + if last.ByFile? && last.file == file then ReportIn(last.step, ip) else []
  {
    ReportsConcat(StepsBy(init, file), [last.step], ip);
    OneReport(last.step, ip);
    assert StepsBy(init, file) + [] == StepsBy(init, file);
    assert ReportsOn(StepsBy(init, file), ip) + [] == ReportsOn(StepsBy(init, file), ip);
  }

  lemma ReportsPrefix(one: seq<Step>, two: seq<Step>, ip: Ip)
    requires one <= two
    ensures ReportsOn(one, ip) <= ReportsOn(two, ip)
  {
    assert two == one + two[|one|..];
    ReportsConcat(one, two[|one|..], ip);
  }

  /** Every file's part of the reports is what its turns catch, in order, as far as the trace goes. */
  lemma ReportsByThread(valid: Validity, threads: map<string, Thread>, trace: seq<Action>, ip: Ip, file: string)
    requires Interleaves(valid, threads, trace) && file in threads
    requires Walked(valid, threads[file].buf, threads[file].turns)
    ensures OfFile(FiledIn(trace, ip), file) <= ThreadReports(valid, threads[file].buf, threads[file].turns, ip)
  {
    FiledByFile(trace, ip, file);
    ReportsPrefix(StepsBy(trace, file), ThreadSteps(valid, threads[file].buf, threads[file].turns), ip);
    ThreadReportsCaught(valid, threads[file].buf, threads[file].turns, ip);
  }

  // ----- The next ban -----

  /** The watcher's bouncer is loaded, and its limit an `int`. */
  predicate Ready(turns: seq<Turn>, loaded: set<BouncerName>) {
    forall k :: 0 <= k < |turns| ==> turns[k].w.src.bouncer in loaded && turns[k].w.src.limit >= -TWO_63
  }

  lemma {:induction false} WalkRegular(src: Source, at: Ip -> int, report: map<Ip, nat>, order: seq<Ip>, loaded: set<BouncerName>, ip: Ip)
    requires src.bouncer in loaded && src.limit >= -TWO_63 && forall x :: x in order ==> x in report
    ensures Regular(LogSteps(src, at, report, order), loaded, ip)
  {
    if order != [] {
      WalkRegular(src, at, report, order[..|order| - 1], loaded, ip);
    }
  }

  lemma {:induction false} ThreadRegular(valid: Validity, b: Buf, turns: seq<Turn>, loaded: set<BouncerName>, ip: Ip)
    requires Ready(turns, loaded)
    ensures Regular(ThreadSteps(valid, b, turns), loaded, ip)
  {
    if turns != [] {
      var init, t := turns[..|turns| - 1], turns[|turns| - 1];
      ThreadRegular(valid, b, init, loaded, ip);
      var report := ReportBy(valid, BufAfter(valid, b, init), t);
      if forall x :: x in t.order ==> x in report {
        WalkRegular(t.w.src, t.at, report, t.order, loaded, ip);
      }
    }
  }

  lemma {:induction false} InItsFile(trace: seq<Action>, k: nat)
    requires k < |trace| && trace[k].ByFile?
    ensures trace[k].step in StepsBy(trace, trace[k].file)
  {
    if k < |trace| - 1 {
      InItsFile(trace[..|trace| - 1], k);
    }
  }

  lemma TraceRegular(valid: Validity, threads: map<string, Thread>, trace: seq<Action>, loaded: set<BouncerName>, ip: Ip)
    requires Interleaves(valid, threads, trace)
    requires forall file :: file in threads ==> Ready(threads[file].turns, loaded)
    ensures Regular(StepsIn(trace), loaded, ip)
  {
    forall k | 0 <= k < |trace| ensures RegularStep(StepsIn(trace)[k], loaded, ip) {
      if trace[k].ByFile? {
        var thread := threads[trace[k].file];
        InItsFile(trace, k);
        ThreadRegular(valid, thread.buf, thread.turns, loaded, ip);
        var i :| 0 <= i < |StepsBy(trace, trace[k].file)| && StepsBy(trace, trace[k].file)[i] == trace[k].step;
        assert RegularStep(ThreadSteps(valid, thread.buf, thread.turns)[i], loaded, ip);
      }
    }
  }

  /** From any ledger in which the record of an IP names no ban, with any bouncers loaded, any buffers, any
      clock and any interleaving of the files' threads with the unban monitor, until the next restart:
      the next ban of the IP, by whatever bouncer, comes exactly with the first report that brings the
      pool shared by all watchers to its own watcher's limit; and the reports pooled are, file by file,
      what the turns catch under the IP. */
  lemma BannedByTurn(cfg: Config, valid: Validity, w: World, threads: map<string, Thread>, trace: seq<Action>, ip: Ip)
    requires Filed(w) && !cfg.whitelisted(ip) && GetIpInfo(w, ip).currBans == map[]
    requires Interleaves(valid, threads, trace)
    requires forall file :: file in threads ==>
      Walked(valid, threads[file].buf, threads[file].turns) && Ready(threads[file].turns, w.live.Keys)
    ensures BansWhenDue(cfg, w, StepsIn(trace), ip, Plain(FiledIn(trace, ip)))
    ensures forall file :: file in threads ==>
      OfFile(FiledIn(trace, ip), file) <= ThreadReports(valid, threads[file].buf, threads[file].turns, ip)
  {
    TraceRegular(valid, threads, trace, w.live.Keys, ip);
    FirstBanWhenDue(cfg, w, StepsIn(trace), ip);
    AllFiled(trace, ip);
    forall file | file in threads
      ensures OfFile(FiledIn(trace, ip), file) <= ThreadReports(valid, threads[file].buf, threads[file].turns, ip)
    {
      ReportsByThread(valid, threads, trace, ip, file);
    }
  }
}
