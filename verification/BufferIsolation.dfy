/** Processes do not disturb each other in the message buffer. */
module BufferIsolation {
  import opened Folds
  import opened Messages
  import opened Filters
  import opened Buffer

  /** The messages of one process, in order. */
  function Of(ms: seq<Message>, p: Process): (r: seq<Message>)
    ensures forall m :: m in r <==> m in ms && m.process == p
  {
    if ms == [] then []
    else
      var last := ms[|ms| - 1];
      assert ms == ms[..|ms| - 1] + [last];
      Of(ms[..|ms| - 1], p) + if last.process == p then [last] else []
  }

  function Pick<V>(m: map<Process, V>, p: Process): map<Process, V> {
    if p in m then map[p := m[p]] else map[]
  }

  /** The buffer as it would be if only process `p` had ever written anything. */
  function Only(b: Buf, p: Process): Buf {
    Buf(Pick(b.hold, p), Pick(b.buff, p), Of(b.out, p), b.enableCache)
  }

  function OnlyOp(op: Op, p: Process): Op {
    if op.LoadOp? then LoadOp(Of(op.ms, p)) else op
  }

  function OnlyOps(ops: seq<Op>, p: Process): (r: seq<Op>)
    ensures |r| == |ops|
  {
    if ops == [] then [] else OnlyOps(ops[..|ops| - 1], p) + [OnlyOp(ops[|ops| - 1], p)]
  }

  /** Held messages are filed under their own process. */
  predicate Tidy(b: Buf) {
    forall p :: p in b.hold ==> forall m :: m in b.hold[p].msg ==> m.process == p
  }

  lemma OfLast(ms: seq<Message>, m: Message, p: Process)
    ensures Of(ms + [m], p) == Of(ms, p) + if m.process == p then [m] else []
  {
    assert (ms + [m])[..|ms|] == ms;
  }

  function OnlyLast(ms: seq<Message>, m: Message, p: Process): seq<Message> {
    if m.process == p then Of(ms, p) + [m] else Of(ms, p)
  }

  lemma AddedOnly(ms: seq<Message>, m: Message, p: Process)
    ensures Of(ms + [m], p) == OnlyLast(ms, m, p)
  {
    OfLast(ms, m, p);
    assert Of(ms, p) + [] == Of(ms, p);
  }

  lemma {:induction false} OfConcat(a: seq<Message>, b: seq<Message>, p: Process)
    ensures Of(a + b, p) == Of(a, p) + Of(b, p)
    decreases |b|
  {
    if b == [] {
      assert a + b == a;
    } else {
      var init, last := b[..|b| - 1], b[|b| - 1];
      assert a + b == (a + init) + [last];
      OfConcat(a, init, p);
      OfLast(a + init, last, p);
      assert Of(a, p) + (Of(init, p) + if last.process == p then [last] else [])
          == Of(a, p) + Of(init, p) + if last.process == p then [last] else [];
    }
  }

  lemma {:induction false} OfAll(ms: seq<Message>, q: Process, p: Process)
    requires forall m :: m in ms ==> m.process == q
    ensures Of(ms, p) == if p == q then ms else []
  {
    if ms != [] {
      OfAll(ms[..|ms| - 1], q, p);
      assert ms == ms[..|ms| - 1] + [ms[|ms| - 1]];
    }
  }

  // ----- load -----

  lemma LoadOneTidy(b: Buf, m: Message)
    requires Tidy(b)
    ensures Tidy(LoadOne(b, m))
  {
  }

  lemma OfFreed(out: seq<Message>, freed: seq<Message>, m: Message, p: Process)
    requires forall x :: x in freed ==> x.process == m.process
    ensures Of(out + freed + [m], p) == if m.process == p then Of(out, p) + freed + [m] else Of(out, p)
  {
    OfAll(freed, m.process, p);
    OfConcat(out, freed, p);
    AddedOnly(out + freed, m, p);
    assert Of(out, p) + [] == Of(out, p);
  }

  lemma FilledProcess(ms: seq<Message>, ip: string, q: Process)
    requires forall m :: m in ms ==> m.process == q
    ensures forall m :: m in Fill(ms, ip) ==> m.process == q
  {
    forall m | m in Fill(ms, ip) ensures m.process == q {
      var i :| 0 <= i < |ms| && m == Fill(ms, ip)[i];
      assert ms[i] in ms;
    }
  }

  lemma FreedOf(b: Buf, m: Message, p: Process)
    requires Tidy(b)
    ensures Of(b.out + Fill(HeldOf(b, m.process), m.ip) + [m], p)
            == if m.process == p then Of(b.out, p) + Fill(HeldOf(b, p), m.ip) + [m] else Of(b.out, p)
  {
    FilledProcess(HeldOf(b, m.process), m.ip, m.process);
    OfFreed(b.out, Fill(HeldOf(b, m.process), m.ip), m, p);
  }

  lemma PickSet<V>(m: map<Process, V>, q: Process, v: V, p: Process)
    ensures Pick(m[q := v], p) == if q == p then Pick(m, p)[q := v] else Pick(m, p)
  {
  }

  lemma PickRemove<V>(m: map<Process, V>, q: Process, p: Process)
    ensures Pick(m - {q}, p) == if q == p then Pick(m, p) - {q} else Pick(m, p)
  {
  }

  lemma LoadedParts(b: Buf, m: Message)
    requires m.ip != "" && b.enableCache
    ensures LoadOne(b, m) == Buf(b.hold - {m.process}, b.buff[m.process := Known(m.ip, 0)],
                                 b.out + Fill(HeldOf(b, m.process), m.ip) + [m], true)
  {
  }

  lemma LoadOwnIp(b: Buf, m: Message, p: Process)
    requires Tidy(b) && m.ip != "" && b.enableCache
    ensures Only(LoadOne(b, m), p) == if m.process == p then LoadOne(Only(b, p), m) else Only(b, p)
  {
    LoadedParts(b, m);
    PickRemove(b.hold, m.process, p);
    PickSet(b.buff, m.process, Known(m.ip, 0), p);
    FreedOf(b, m, p);
    if m.process == p {
      LoadedParts(Only(b, p), m);
      assert HeldOf(Only(b, p), p) == HeldOf(b, p);
    }
  }

  lemma LoadPlain(b: Buf, m: Message, p: Process)
    requires m.ip == "" || !b.enableCache
    ensures Only(LoadOne(b, m), p) == if m.process == p then LoadOne(Only(b, p), m) else Only(b, p)
  {
    if m.ip == "" {
      PlainOnly(b, m, TryLoadIp(b, m), p);
      assert m.process == p ==> TryLoadIp(Only(b, p), m) == TryLoadIp(b, m);
    } else {
      PlainOnly(b, m, m, p);
    }
  }

  lemma PlainOnly(b: Buf, m: Message, loaded: Message, p: Process)
    requires loaded.process == m.process
    ensures Only(b.(out := b.out + [loaded]), p)
            == if m.process == p then Only(b, p).(out := Only(b, p).out + [loaded]) else Only(b, p)
  {
    AddedOnly(b.out, loaded, p);
  }

  lemma LoadOneOnly(b: Buf, m: Message, p: Process)
    requires Tidy(b)
    ensures Only(LoadOne(b, m), p) == if m.process == p then LoadOne(Only(b, p), m) else Only(b, p)
  {
    if m.ip != "" && b.enableCache {
      LoadOwnIp(b, m, p);
    } else {
      LoadPlain(b, m, p);
    }
  }

  lemma {:induction false} LoadIsFold(b: Buf, ms: seq<Message>)
    ensures Load(b, ms) == Fold(LoadOne, b, ms)
  {
    if ms != [] {
      LoadIsFold(b, ms[..|ms| - 1]);
    }
  }

  lemma {:induction false} OfIsKeep(ms: seq<Message>, p: Process, from: Message -> bool)
    requires forall m :: from(m) <==> m.process == p
    ensures Of(ms, p) == Keep(ms, from)
  {
    if ms != [] {
      OfIsKeep(ms[..|ms| - 1], p, from);
    }
  }

  lemma LoadOnly(b: Buf, ms: seq<Message>, p: Process)
    requires Tidy(b)
    ensures Tidy(Load(b, ms))
    ensures Only(Load(b, ms), p) == Load(Only(b, p), Of(ms, p))
  {
    var project, from := (b: Buf) => Only(b, p), (m: Message) => m.process == p;
    forall b, m | Tidy(b)
      ensures Tidy(LoadOne(b, m))
      ensures project(LoadOne(b, m)) == if from(m) then LoadOne(project(b), m) else project(b)
    {
      LoadOneTidy(b, m);
      LoadOneOnly(b, m, p);
    }
    FoldProject(LoadOne, Tidy, project, from, b, ms);
    LoadIsFold(b, ms);
    OfIsKeep(ms, p, from);
    LoadIsFold(Only(b, p), Of(ms, p));
  }

  // ----- forward -----

  function OnlySweep(s: Sweep, p: Process): Sweep {
    Sweep(Only(s.b, p), Of(s.out, p), Of(s.caught, p), Of(s.pushed, p))
  }

  lemma FateOnly(valid: Validity, f: Filter, b: Buf, m: Message)
    ensures FateOf(valid, f, Only(b, m.process), m) == FateOf(valid, f, b, m)
  {
  }

  lemma PushOnly(b: Buf, m: Message, p: Process)
    ensures Only(Push(b, m), p) == if m.process == p then Push(Only(b, p), m) else Only(b, p)
  {
  }

  lemma RegisterOnly(b: Buf, m: Message, p: Process)
    ensures Only(Register(b, m), p) == if m.process == p then Register(Only(b, p), m) else Only(b, p)
  {
  }

  lemma SweepOneOnly(valid: Validity, f: Filter, s: Sweep, m: Message, p: Process)
    ensures OnlySweep(SweepOne(valid, f, s, m), p)
            == if m.process == p then SweepOne(valid, f, OnlySweep(s, p), m) else OnlySweep(s, p)
  {
    if m.process == p {
      FateOnly(valid, f, s.b, m);
    }
    match FateOf(valid, f, s.b, m)
    case Passed =>
      AddedOnly(s.out, m, p);
    case Pushed =>
      AddedOnly(s.out, m, p);
      AddedOnly(s.pushed, m, p);
      PushOnly(s.b, m, p);
    case Caught(ip) =>
      var m' := m.(ip := ip);
      AddedOnly(s.out, m', p);
      AddedOnly(s.caught, m', p);
      RegisterOnly(s.b, m', p);
  }

  predicate TidySweep(s: Sweep) {
    Tidy(s.b)
  }

  lemma SweepOneTidy(valid: Validity, f: Filter, s: Sweep, m: Message)
    requires Tidy(s.b)
    ensures Tidy(SweepOne(valid, f, s, m).b)
  {
  }

  lemma {:induction false} SweepIsFold(valid: Validity, f: Filter, b: Buf, ms: seq<Message>, step: (Sweep, Message) -> Sweep)
    requires forall s, m :: step(s, m) == SweepOne(valid, f, s, m)
    ensures SweepAll(valid, f, b, ms) == Fold(step, Sweep(b, [], [], []), ms)
  {
    if ms != [] {
      SweepIsFold(valid, f, b, ms[..|ms| - 1], step);
    }
  }

  lemma SweepOnly(valid: Validity, f: Filter, b: Buf, ms: seq<Message>, p: Process)
    requires Tidy(b)
    ensures Tidy(SweepAll(valid, f, b, ms).b)
    ensures OnlySweep(SweepAll(valid, f, b, ms), p) == SweepAll(valid, f, Only(b, p), Of(ms, p))
  {
    var step := (s: Sweep, m: Message) => SweepOne(valid, f, s, m);
    var project, from := (s: Sweep) => OnlySweep(s, p), (m: Message) => m.process == p;
    forall s, m | TidySweep(s)
      ensures TidySweep(step(s, m))
      ensures project(step(s, m)) == if from(m) then step(project(s), m) else project(s)
    {
      SweepOneTidy(valid, f, s, m);
      SweepOneOnly(valid, f, s, m, p);
    }
    var start := Sweep(b, [], [], []);
    FoldProject(step, TidySweep, project, from, start, ms);
    SweepIsFold(valid, f, b, ms, step);
    OfIsKeep(ms, p, from);
    assert project(start) == Sweep(Only(b, p), [], [], []);
    SweepIsFold(valid, f, Only(b, p), Of(ms, p), step);
  }

  // ----- Runs -----

  lemma DoneOnly(b: Buf, p: Process)
    ensures Only(Done(b), p) == Done(Only(b, p))
  {
    assert Pick(AgeHold(b.hold), p) == AgeHold(Pick(b.hold, p));
    assert Pick(AgeBuff(b.buff), p) == AgeBuff(Pick(b.buff, p));
  }

  lemma NextOnly(valid: Validity, b: Buf, op: Op, p: Process)
    requires Tidy(b)
    ensures Tidy(Next(valid, b, op))
    ensures Only(Next(valid, b, op), p) == Next(valid, Only(b, p), OnlyOp(op, p))
    ensures Of(CaughtBy(valid, b, op), p) == CaughtBy(valid, Only(b, p), OnlyOp(op, p))
  {
    match op
    case LoadOp(ms) => LoadOnly(b, ms, p);
    case ForwardOp(f) => SweepOnly(valid, f, b, b.out, p);
    case DoneOp => DoneOnly(b, p);
  }

  /** Process isolation: take the messages of all other processes out of a run, and what process `p`
      has on hold, its known IP, its part of the batch and everything caught of it stay the same. */
  lemma {:induction false} Isolation(valid: Validity, b: Buf, ops: seq<Op>, p: Process)
    requires Tidy(b)
    ensures Tidy(Run(valid, b, ops))
    ensures Only(Run(valid, b, ops), p) == Run(valid, Only(b, p), OnlyOps(ops, p))
    ensures Of(CaughtIn(valid, b, ops), p) == CaughtIn(valid, Only(b, p), OnlyOps(ops, p))
  {
    if ops != [] {
      var init, last := ops[..|ops| - 1], ops[|ops| - 1];
      Isolation(valid, b, init, p);
      NextOnly(valid, Run(valid, b, init), last, p);
      assert OnlyOps(ops, p)[..|ops| - 1] == OnlyOps(init, p);
      OfConcat(CaughtIn(valid, b, init), CaughtBy(valid, Run(valid, b, init), last), p);
    }
  }

  /** Two runs that interleave the processes differently, but give process `p` the same messages in
      every batch, treat `p` the same. */
  lemma InterleavingIrrelevant(valid: Validity, b: Buf, one: seq<Op>, two: seq<Op>, p: Process)
    requires Tidy(b) && OnlyOps(one, p) == OnlyOps(two, p)
    ensures Only(Run(valid, b, one), p) == Only(Run(valid, b, two), p)
    ensures Of(CaughtIn(valid, b, one), p) == Of(CaughtIn(valid, b, two), p)
  {
    Isolation(valid, b, one, p);
    Isolation(valid, b, two, p);
  }
}
