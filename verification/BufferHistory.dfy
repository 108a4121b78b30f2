/** The IP cache of the buffer, against the history of everything that was ever registered. */
module BufferHistory {
  import opened Options
  import opened Messages
  import opened Filters
  import opened Buffer

  /** An IP observed for a process, or a finished cycle. */
  datatype Event = Registered(process: Process, ip: string) | Tick

  /** What loading messages registers: those that come with an IP. */
  function LoadEvents(ms: seq<Message>): seq<Event> {
    if ms == [] then []
    else
      var last := ms[|ms| - 1];
      LoadEvents(ms[..|ms| - 1]) + if last.ip != "" then [Registered(last.process, last.ip)] else []
  }

  /** What a filter registers: every message it catches. */
  function CaughtEvents(ms: seq<Message>): seq<Event> {
    if ms == [] then []
    else CaughtEvents(ms[..|ms| - 1]) + [Registered(ms[|ms| - 1].process, ms[|ms| - 1].ip)]
  }

  function EventsOf(valid: Validity, b: Buf, op: Op): seq<Event> {
    match op
    case LoadOp(ms) => LoadEvents(ms)
    case ForwardOp(f) => CaughtEvents(Forward(valid, f, b).caught)
    case DoneOp => [Tick]
  }

  function History(valid: Validity, b: Buf, ops: seq<Op>): seq<Event> {
    if ops == [] then []
    else
      var init := ops[..|ops| - 1];
      History(valid, b, init) + EventsOf(valid, Run(valid, b, init), ops[|ops| - 1])
  }

  /** The latest registration of a process, and the number of cycles finished since. */
  function Latest(log: seq<Event>, p: Process): Option<Known> {
    if log == [] then None
    else
      var before := Latest(log[..|log| - 1], p);
      match log[|log| - 1]
      case Registered(q, ip) => if q == p then Some(Known(ip, 0)) else before
      case Tick => if before.Some? then Some(Known(before.value.ip, before.value.passedCycles + 1)) else None
  }

  function Ticks(log: seq<Event>): nat {
    if log == [] then 0 else Ticks(log[..|log| - 1]) + if log[|log| - 1].Tick? then 1 else 0
  }

  ghost predicate LatestAt(log: seq<Event>, p: Process, i: int) {
    && 0 <= i < |log| && log[i].Registered? && log[i].process == p
    && forall j :: i < j < |log| ==> !(log[j].Registered? && log[j].process == p)
  }

  lemma LatestAtPrefix(log: seq<Event>, e: Event, p: Process, i: int)
    requires !(e.Registered? && e.process == p)
    ensures LatestAt(log + [e], p, i) <==> LatestAt(log, p, i)
  {
    var more := log + [e];
    assert forall j :: 0 <= j < |log| ==> more[j] == log[j];
    assert more[|log|] == e;
  }

  lemma TicksLast(log: seq<Event>, e: Event, i: nat)
    requires i < |log|
    ensures Ticks((log + [e])[i + 1..]) == Ticks(log[i + 1..]) + if e.Tick? then 1 else 0
  {
    assert (log + [e])[i + 1..] == log[i + 1..] + [e];
    assert (log[i + 1..] + [e])[..|log| - i - 1] == log[i + 1..];
  }

  /** `Latest` is the registration at the last index that names the process, aged by the cycles after it. */
  lemma {:induction false} LatestMeans(log: seq<Event>, p: Process)
    ensures Latest(log, p).None? ==> forall i :: !LatestAt(log, p, i)
    ensures Latest(log, p).Some? ==> exists i ::
      LatestAt(log, p, i) && Latest(log, p).value == Known(log[i].ip, Ticks(log[i + 1..]))
  {
    if log != [] {
      var init, last := log[..|log| - 1], log[|log| - 1];
      assert log == init + [last];
      LatestMeans(init, p);
      if last.Registered? && last.process == p {
        assert LatestAt(log, p, |log| - 1);
        assert log[|log|..] == [];
      } else if Latest(init, p).None? {
        forall i ensures !LatestAt(log, p, i) {
          LatestAtPrefix(init, last, p, i);
        }
      } else {
        var i :| LatestAt(init, p, i) && Latest(init, p).value == Known(init[i].ip, Ticks(init[i + 1..]));
        LatestAtPrefix(init, last, p, i);
        TicksLast(init, last, i);
      }
    }
  }

  function Cached(buff: map<Process, Known>, p: Process): Option<Known> {
    if p in buff then Some(buff[p]) else None
  }

  /** What the cache should hold: the latest registration, unless it is five cycles old. */
  function Window(log: seq<Event>, p: Process): Option<Known> {
    var latest := Latest(log, p);
    if latest.Some? && latest.value.passedCycles < 5 then latest else None
  }

  ghost predicate Agrees(buff: map<Process, Known>, log: seq<Event>) {
    forall p :: Cached(buff, p) == Window(log, p)
  }

  lemma RegisterAgrees(buff: map<Process, Known>, log: seq<Event>, p: Process, ip: string)
    requires Agrees(buff, log)
    ensures Agrees(buff[p := Known(ip, 0)], log + [Registered(p, ip)])
  {
    var more := log + [Registered(p, ip)];
    assert more[..|log|] == log;
    forall q ensures Cached(buff[p := Known(ip, 0)], q) == Window(more, q) {
      assert Cached(buff, q) == Window(log, q);
    }
  }

  lemma TickAgrees(buff: map<Process, Known>, log: seq<Event>)
    requires Agrees(buff, log)
    ensures Agrees(AgeBuff(buff), log + [Tick])
  {
    var more := log + [Tick];
    assert more[..|log|] == log;
    forall p ensures Cached(AgeBuff(buff), p) == Window(more, p) {
      assert Cached(buff, p) == Window(log, p);
    }
  }

  lemma {:induction false} LoadAgrees(b: Buf, log: seq<Event>, ms: seq<Message>)
    requires b.enableCache && Agrees(b.buff, log)
    ensures Agrees(Load(b, ms).buff, log + LoadEvents(ms))
  {
    if ms == [] {
      assert log + [] == log;
    } else {
      var init, last := ms[..|ms| - 1], ms[|ms| - 1];
      LoadAgrees(b, log, init);
      LoadKeepsSwitch(b, init);
      if last.ip != "" {
        RegisterAgrees(Load(b, init).buff, log + LoadEvents(init), last.process, last.ip);
        assert log + LoadEvents(ms) == log + LoadEvents(init) + [Registered(last.process, last.ip)];
      } else {
        assert LoadEvents(ms) == LoadEvents(init);
      }
    }
  }

  lemma {:induction false} SweepAgrees(valid: Validity, f: Filter, b: Buf, log: seq<Event>, ms: seq<Message>)
    requires b.enableCache && Agrees(b.buff, log)
    ensures Agrees(SweepAll(valid, f, b, ms).b.buff, log + CaughtEvents(SweepAll(valid, f, b, ms).caught))
  {
    if ms == [] {
      assert log + [] == log;
    } else {
      var init, last := ms[..|ms| - 1], ms[|ms| - 1];
      var s := SweepAll(valid, f, b, init);
      SweepAgrees(valid, f, b, log, init);
      SweepKeepsSwitch(valid, f, b, init);
      var fate := FateOf(valid, f, s.b, last);
      if fate.Caught? {
        var m := last.(ip := fate.ip);
        RegisterAgrees(s.b.buff, log + CaughtEvents(s.caught), m.process, m.ip);
        assert (s.caught + [m])[..|s.caught|] == s.caught;
        assert log + CaughtEvents(s.caught + [m]) == log + CaughtEvents(s.caught) + [Registered(m.process, m.ip)];
      }
    }
  }

  /** Over every run of a buffer with its cache on, a process is in the cache exactly when its latest
      registration is fewer than five cycles old; the cached IP is the one registered then, and the
      cycle counter is exactly its age. */
  lemma {:induction false} CacheIsWindow(valid: Validity, ops: seq<Op>)
    ensures Agrees(Run(valid, Empty(true), ops).buff, History(valid, Empty(true), ops))
  {
    if ops != [] {
      var init, last := ops[..|ops| - 1], ops[|ops| - 1];
      var b, log := Run(valid, Empty(true), init), History(valid, Empty(true), init);
      CacheIsWindow(valid, init);
      RunKeepsSwitch(valid, Empty(true), init);
      match last
      case LoadOp(ms) => LoadAgrees(b, log, ms);
      case ForwardOp(f) => SweepAgrees(valid, f, b, log, b.out);
      case DoneOp => TickAgrees(b.buff, log);
    }
  }
}
