/** The message buffer as a value: messages whose IP is not yet known (`hold`), the IP last seen for
    each process (`buff`), and the batch being worked on (`out`).  `MessageBuffer.dfy` holds the code. */
module Buffer {
  import opened Options
  import opened Messages
  import opened Filters

  datatype Held = Held(msg: seq<Message>, failedChecks: nat)

  datatype Known = Known(ip: string, passedCycles: nat)

  datatype Buf = Buf(hold: map<Process, Held>, buff: map<Process, Known>, out: seq<Message>, enableCache: bool)

  // `inet_pton` accepts the address.
  type Validity = string -> bool

  const MAX_AGE := 5

  function Empty(enableCache: bool): Buf {
    Buf(map[], map[], [], enableCache)
  }

  // ----- load -----

  function TryLoadIp(b: Buf, m: Message): Message {
    if b.enableCache && m.process in b.buff then m.(ip := b.buff[m.process].ip) else m
  }

  function Register(b: Buf, m: Message): Buf {
    if b.enableCache then b.(buff := b.buff[m.process := Known(m.ip, 0)]) else b
  }

  function Fill(ms: seq<Message>, ip: string): (r: seq<Message>)
    ensures |r| == |ms| && forall i :: 0 <= i < |ms| ==> r[i] == ms[i].(ip := ip)
  {
    seq(|ms|, i requires 0 <= i < |ms| => ms[i].(ip := ip))
  }

  function HeldOf(b: Buf, process: Process): seq<Message> {
    if process in b.hold then b.hold[process].msg else []
  }

  function RegisterAndFree(b: Buf, m: Message): Buf {
    if !b.enableCache then b
    else Register(b, m).(hold := b.hold - {m.process}, out := b.out + Fill(HeldOf(b, m.process), m.ip))
  }

  function LoadOne(b: Buf, m: Message): Buf {
    if m.ip != "" then
      var freed := RegisterAndFree(b, m);
      freed.(out := freed.out + [m])
    else b.(out := b.out + [TryLoadIp(b, m)])
  }

  function Load(b: Buf, ms: seq<Message>): Buf {
    if ms == [] then b else LoadOne(Load(b, ms[..|ms| - 1]), ms[|ms| - 1])
  }

  // ----- forward -----

  /** What one filter does with one message. */
  datatype Fate = Passed | Pushed | Caught(ip: string)

  function FateOf(valid: Validity, f: Filter, b: Buf, m: Message): (fate: Fate)
    ensures fate.Caught? ==> fate.ip != "" && valid(fate.ip)
    ensures fate.Pushed? ==> b.enableCache && m.process !in b.buff
  {
    match Check(f, m, 0).result
    case None => Passed
    case Some(r) =>
      if r.error && !b.enableCache then Passed
      else if r.error && m.process !in b.buff then Pushed
      else
        var ip := if r.error then b.buff[m.process].ip else r.ip;
        if ip != "" && valid(ip) then Caught(ip) else Passed
  }

  function Push(b: Buf, m: Message): Buf {
    var before := if m.process in b.hold then b.hold[m.process] else Held([], 0);
    b.(hold := b.hold[m.process := Held(before.msg + [m], before.failedChecks)])
  }

  /** The state behind some messages of the batch: the buffer, the batch as rewritten so far, the
      messages caught and the messages put on hold, each in order. */
  datatype Sweep = Sweep(b: Buf, out: seq<Message>, caught: seq<Message>, pushed: seq<Message>)

  function SweepOne(valid: Validity, f: Filter, s: Sweep, m: Message): Sweep {
    match FateOf(valid, f, s.b, m)
    case Passed => s.(out := s.out + [m])
    case Pushed => Sweep(Push(s.b, m), s.out + [m], s.caught, s.pushed + [m])
    case Caught(ip) =>
      var m' := m.(ip := ip);
      Sweep(Register(s.b, m'), s.out + [m'], s.caught + [m'], s.pushed)
  }

  function SweepAll(valid: Validity, f: Filter, b: Buf, ms: seq<Message>): (s: Sweep)
    ensures |s.out| == |ms|
  {
    if ms == [] then Sweep(b, [], [], [])
    else SweepOne(valid, f, SweepAll(valid, f, b, ms[..|ms| - 1]), ms[|ms| - 1])
  }

  function Forward(valid: Validity, f: Filter, b: Buf): Sweep {
    var s := SweepAll(valid, f, b, b.out);
    s.(b := s.b.(out := s.out))
  }

  // ----- done -----

  function AgeHold(hold: map<Process, Held>): map<Process, Held> {
    map p | p in hold && hold[p].failedChecks + 1 < MAX_AGE :: Held(hold[p].msg, hold[p].failedChecks + 1)
  }

  function AgeBuff(buff: map<Process, Known>): map<Process, Known> {
    map p | p in buff && buff[p].passedCycles + 1 < MAX_AGE :: Known(buff[p].ip, buff[p].passedCycles + 1)
  }

  function Done(b: Buf): Buf {
    if !b.enableCache then b.(out := [])
    else Buf(AgeHold(b.hold), AgeBuff(b.buff), [], true)
  }

  // ----- Runs -----

  datatype Op = LoadOp(ms: seq<Message>) | ForwardOp(f: Filter) | DoneOp

  function Next(valid: Validity, b: Buf, op: Op): Buf {
    match op
    case LoadOp(ms) => Load(b, ms)
    case ForwardOp(f) => Forward(valid, f, b).b
    case DoneOp => Done(b)
  }

  function CaughtBy(valid: Validity, b: Buf, op: Op): seq<Message> {
    if op.ForwardOp? then Forward(valid, op.f, b).caught else []
  }

  function Run(valid: Validity, b: Buf, ops: seq<Op>): Buf {
    if ops == [] then b else Next(valid, Run(valid, b, ops[..|ops| - 1]), ops[|ops| - 1])
  }

  /** Everything a run catches, in order. */
  function CaughtIn(valid: Validity, b: Buf, ops: seq<Op>): seq<Message> {
    if ops == [] then []
    else
      var init := ops[..|ops| - 1];
      CaughtIn(valid, b, init) + CaughtBy(valid, Run(valid, b, init), ops[|ops| - 1])
  }

  lemma {:induction false} LoadKeepsSwitch(b: Buf, ms: seq<Message>)
    ensures Load(b, ms).enableCache == b.enableCache
  {
    if ms != [] {
      LoadKeepsSwitch(b, ms[..|ms| - 1]);
    }
  }

  lemma {:induction false} SweepKeepsSwitch(valid: Validity, f: Filter, b: Buf, ms: seq<Message>)
    ensures SweepAll(valid, f, b, ms).b.enableCache == b.enableCache
  {
    if ms != [] {
      SweepKeepsSwitch(valid, f, b, ms[..|ms| - 1]);
    }
  }

  lemma NextKeepsSwitch(valid: Validity, b: Buf, op: Op)
    ensures Next(valid, b, op).enableCache == b.enableCache
  {
    match op
    case LoadOp(ms) => LoadKeepsSwitch(b, ms);
    case ForwardOp(f) => SweepKeepsSwitch(valid, f, b, b.out);
    case DoneOp =>
  }

  lemma {:induction false} RunKeepsSwitch(valid: Validity, b: Buf, ops: seq<Op>)
    ensures Run(valid, b, ops).enableCache == b.enableCache
  {
    if ops != [] {
      RunKeepsSwitch(valid, b, ops[..|ops| - 1]);
      NextKeepsSwitch(valid, Run(valid, b, ops[..|ops| - 1]), ops[|ops| - 1]);
    }
  }

  // ----- Grouping by IP -----

  function OfIp(ms: seq<Message>, ip: string): (r: seq<Message>)
    ensures forall m :: m in r <==> m in ms && m.ip == ip
  {
    if ms == [] then []
    else
      var last := ms[|ms| - 1];
      assert ms == ms[..|ms| - 1] + [last];
      OfIp(ms[..|ms| - 1], ip) + if last.ip == ip then [last] else []
  }

  function Ips(ms: seq<Message>): set<string> {
    set m | m in ms :: m.ip
  }

  /** The `std::map` from IP to messages that `forward` and `process` return. */
  function GroupByIp(ms: seq<Message>): map<string, seq<Message>> {
    map ip | ip in Ips(ms) :: OfIp(ms, ip)
  }

  lemma GroupSound(ms: seq<Message>)
    ensures var report := GroupByIp(ms);
      && (forall ip :: ip in report ==> report[ip] != [] && exists m :: m in ms && m.ip == ip)
      && (forall ip :: ip in report ==> forall m :: m in report[ip] ==> m.ip == ip)
      && (forall m :: m in ms ==> m.ip in report && multiset(report[m.ip])[m] == multiset(ms)[m])
  {
    var report := GroupByIp(ms);
    forall ip | ip in report ensures report[ip] != [] && exists m :: m in ms && m.ip == ip {
      var m :| m in ms && m.ip == ip;
      assert m in OfIp(ms, ip);
    }
    forall m | m in ms ensures m.ip in report && multiset(report[m.ip])[m] == multiset(ms)[m] {
      OfIpCounts(ms, m.ip, m);
    }
  }

  lemma {:induction false} OfIpCounts(ms: seq<Message>, ip: string, m: Message)
    ensures multiset(OfIp(ms, ip))[m] == if m.ip == ip then multiset(ms)[m] else 0
  {
    if ms != [] {
      OfIpCounts(ms[..|ms| - 1], ip, m);
      assert ms == ms[..|ms| - 1] + [ms[|ms| - 1]];
    }
  }

  /** Grouping sees a list only as a multiset. */
  lemma SameGroups(one: seq<Message>, two: seq<Message>, ip: string)
    requires multiset(one) == multiset(two)
    ensures multiset(OfIp(one, ip)) == multiset(OfIp(two, ip))
  {
    forall m ensures multiset(OfIp(one, ip))[m] == multiset(OfIp(two, ip))[m] {
      OfIpCounts(one, ip, m);
      OfIpCounts(two, ip, m);
    }
  }

  lemma {:induction false} OfIpConcat(one: seq<Message>, two: seq<Message>, ip: string)
    ensures OfIp(one + two, ip) == OfIp(one, ip) + OfIp(two, ip)
    decreases |two|
  {
    if two == [] {
      assert one + two == one;
    } else {
      var init, m := two[..|two| - 1], two[|two| - 1];
      assert (one + two)[..|one + two| - 1] == one + init;
      OfIpConcat(one, init, ip);
    }
  }
}
