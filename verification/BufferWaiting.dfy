/** How long messages wait: a process's hold is dropped in the fifth cycle after it was opened, not
    before and not later. */
module BufferWaiting {
  import opened Options
  import opened Messages
  import opened Buffer
  import opened BufferIsolation
  import opened BufferHold

  /** The cycles finished since the process's hold was opened, if it is open: a filter opens it with the
      first message it puts there, a load that brings an IP closes it, and so does the fifth cycle. */
  function Waiting(valid: Validity, ops: seq<Op>, p: Process): (w: Option<nat>)
    ensures w.Some? ==> w.value < 5
  {
    if ops == [] then None
    else
      var init := ops[..|ops| - 1];
      WaitingNext(valid, Run(valid, Empty(true), init), ops[|ops| - 1], p, Waiting(valid, init, p))
  }

  function WaitingNext(valid: Validity, b: Buf, op: Op, p: Process, before: Option<nat>): Option<nat> {
    match op
    case LoadOp(ms) => if HasOwn(Of(ms, p)) then None else before
    case ForwardOp(f) => if before.None? && Of(Forward(valid, f, b).pushed, p) != [] then Some(0) else before
    case DoneOp => if before.Some? && before.value + 1 < 5 then Some(before.value + 1) else None
  }

  predicate Open(b: Buf, p: Process, waiting: Option<nat>) {
    && (p in b.hold <==> waiting.Some?)
    && (p in b.hold ==> b.hold[p].failedChecks == waiting.value)
  }

  lemma LoadOneHolds(b: Buf, m: Message, p: Process)
    requires b.enableCache
    ensures p in LoadOne(b, m).hold <==> p in b.hold && !(m.process == p && m.ip != "")
  {
  }

  lemma HasOwnNext(ms: seq<Message>, m: Message, p: Process)
    ensures HasOwn(Of(ms + [m], p)) <==> HasOwn(Of(ms, p)) || (m.process == p && m.ip != "")
  {
    AddedOnly(ms, m, p);
    assert (Of(ms, p) + [m])[..|Of(ms, p)|] == Of(ms, p);
  }

  lemma {:induction false} LoadHolds(b: Buf, ms: seq<Message>, p: Process)
    requires b.enableCache
    ensures p in Load(b, ms).hold <==> p in b.hold && !HasOwn(Of(ms, p))
  {
    if ms != [] {
      var init, m := ms[..|ms| - 1], ms[|ms| - 1];
      assert ms == init + [m];
      LoadHolds(b, init, p);
      LoadKeepsSwitch(b, init);
      LoadOneHolds(Load(b, init), m, p);
      HasOwnNext(init, m, p);
    }
  }

  lemma NextOpen(valid: Validity, b: Buf, op: Op, p: Process, before: Option<nat>)
    requires Orderly(b) && Open(b, p, before)
    ensures Open(Next(valid, b, op), p, WaitingNext(valid, b, op, p, before))
  {
    match op
    case LoadOp(ms) =>
      LoadHolds(b, ms, p);
      LoadChecks(b, ms, p);
    case ForwardOp(f) => SweepHolds(valid, f, b, b.out, p);
    case DoneOp =>
  }

  /** In every reachable buffer with its cache on a process has messages on hold exactly while its hold is
      open, and the counter is the number of cycles since it was opened. */
  lemma {:induction false} HoldAge(valid: Validity, ops: seq<Op>, p: Process)
    ensures Open(Run(valid, Empty(true), ops), p, Waiting(valid, ops, p))
  {
    if ops != [] {
      var init := ops[..|ops| - 1];
      HoldAge(valid, init, p);
      RunOrderly(valid, Empty(true), init);
      NextOpen(valid, Run(valid, Empty(true), init), ops[|ops| - 1], p, Waiting(valid, init, p));
    }
  }

  /** So a cycle drops what a process has on hold exactly when it is the fifth since the hold was opened. */
  lemma ExpiresInFifth(valid: Validity, ops: seq<Op>, p: Process)
    ensures var b := Run(valid, Empty(true), ops);
      p in b.hold && p !in Done(b).hold <==> Waiting(valid, ops, p) == Some(4)
  {
    HoldAge(valid, ops, p);
    RunKeepsSwitch(valid, Empty(true), ops);
    DoneDrops(Run(valid, Empty(true), ops), p, Waiting(valid, ops, p));
  }

  lemma DoneDrops(b: Buf, p: Process, waiting: Option<nat>)
    requires b.enableCache && Open(b, p, waiting) && (waiting.Some? ==> waiting.value < 5)
    ensures p in b.hold && p !in Done(b).hold <==> waiting == Some(4)
  {
  }
}
