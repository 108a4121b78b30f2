/** What happens to messages on hold: nothing is lost silently, nothing is released twice, nothing
    stays for ever. */
module BufferHold {
  import opened Messages
  import opened Filters
  import opened Buffer
  import opened BufferIsolation

  // ----- Release -----

  /** Some message brings its own IP. */
  predicate HasOwn(ms: seq<Message>) {
    ms != [] && (ms[|ms| - 1].ip != "" || HasOwn(ms[..|ms| - 1]))
  }

  /** The IP known for the process after some of its messages, if any. */
  function KnownAfter(known: string, ms: seq<Message>): string {
    if ms == [] then known
    else if ms[|ms| - 1].ip != "" then ms[|ms| - 1].ip
    else KnownAfter(known, ms[..|ms| - 1])
  }

  /** Messages of one process, each with its own IP or else the one known by then. */
  function Attribute(known: string, ms: seq<Message>): (r: seq<Message>)
    ensures |r| == |ms|
  {
    if ms == [] then []
    else
      var init, last := ms[..|ms| - 1], ms[|ms| - 1];
      Attribute(known, init) + [if last.ip != "" then last else last.(ip := KnownAfter(known, init))]
  }

  function KnownIp(b: Buf, p: Process): string {
    if p in b.buff then b.buff[p].ip else ""
  }

  /** What loading a process's messages adds to the batch, message by message: itself under its own
      IP or the known one, preceded by everything on hold if it is the first to bring an IP. */
  function Loaded(known: string, held: seq<Message>, ms: seq<Message>): seq<Message> {
    if ms == [] then []
    else Loaded(known, held, ms[..|ms| - 1]) + Added(known, held, ms[..|ms| - 1], ms[|ms| - 1])
  }

  function Added(known: string, held: seq<Message>, before: seq<Message>, m: Message): seq<Message> {
    if m.ip == "" then [m.(ip := KnownAfter(known, before))]
    else Fill(if HasOwn(before) then [] else held, m.ip) + [m]
  }

  lemma LoadedLast(known: string, held: seq<Message>, ms: seq<Message>, m: Message)
    ensures Loaded(known, held, ms + [m]) == Loaded(known, held, ms) + Added(known, held, ms, m)
    ensures HasOwn(ms + [m]) <==> HasOwn(ms) || m.ip != ""
    ensures KnownAfter(known, ms + [m]) == if m.ip != "" then m.ip else KnownAfter(known, ms)
  {
    assert (ms + [m])[..|ms|] == ms;
  }

  lemma AttributeLast(known: string, ms: seq<Message>, m: Message)
    ensures Attribute(known, ms + [m]) == Attribute(known, ms) + [if m.ip != "" then m else m.(ip := KnownAfter(known, ms))]
  {
    assert (ms + [m])[..|ms|] == ms;
  }

  lemma {:induction false} LoadedWithoutOwn(known: string, held: seq<Message>, ms: seq<Message>)
    requires !HasOwn(ms)
    ensures Loaded(known, held, ms) == Attribute(known, ms)
  {
    if ms != [] {
      LoadedWithoutOwn(known, held, ms[..|ms| - 1]);
    }
  }

  /** Behind the first own IP, `Loaded` grows like `Attribute`. */
  lemma AddedBehindOwn(known: string, held: seq<Message>, ms: seq<Message>, from: string, tail: seq<Message>, m: Message)
    requires HasOwn(ms) && KnownAfter(known, ms) == KnownAfter(from, tail)
    ensures Attribute(from, tail + [m]) == Attribute(from, tail) + Added(known, held, ms, m)
  {
    AttributeLast(from, tail, m);
    assert Fill([], m.ip) + [m] == [m];
  }

  lemma {:induction false} LoadedWithOwn(known: string, held: seq<Message>, before: seq<Message>, own: Message, after: seq<Message>)
    requires !HasOwn(before) && own.ip != ""
    ensures Loaded(known, held, before + [own] + after)
            == Attribute(known, before) + Fill(held, own.ip) + [own] + Attribute(own.ip, after)
    ensures HasOwn(before + [own] + after)
    ensures KnownAfter(known, before + [own] + after) == KnownAfter(own.ip, after)
    decreases |after|
  {
    if after == [] {
      FirstOwnLoaded(known, held, before, own);
    } else {
      var init, m := after[..|after| - 1], after[|after| - 1];
      LoadedWithOwn(known, held, before, own, init);
      LastApart(before + [own], after, init, m);
      WithOwnNext(known, held, before + [own] + init, own.ip, init, m, Attribute(known, before) + Fill(held, own.ip) + [own]);
    }
  }

  lemma LastApart(head: seq<Message>, ms: seq<Message>, init: seq<Message>, m: Message)
    requires ms != [] && init == ms[..|ms| - 1] && m == ms[|ms| - 1]
    ensures ms == init + [m] && head + ms == head + init + [m]
  {
  }

  lemma FirstOwnLoaded(known: string, held: seq<Message>, before: seq<Message>, own: Message)
    requires !HasOwn(before) && own.ip != ""
    ensures before + [own] + [] == before + [own]
    ensures Loaded(known, held, before + [own])
            == Attribute(known, before) + Fill(held, own.ip) + [own] + Attribute(own.ip, [])
    ensures HasOwn(before + [own]) && KnownAfter(known, before + [own]) == own.ip
  {
    LoadedWithoutOwn(known, held, before);
    LoadedLast(known, held, before, own);
    Regroup(Attribute(known, before), Fill(held, own.ip), [own]);
  }

  lemma WithOwnNext(known: string, held: seq<Message>, ms: seq<Message>, from: string, tail: seq<Message>, m: Message, head: seq<Message>)
    requires Loaded(known, held, ms) == head + Attribute(from, tail)
    requires HasOwn(ms) && KnownAfter(known, ms) == KnownAfter(from, tail)
    ensures Loaded(known, held, ms + [m]) == head + Attribute(from, tail + [m])
    ensures HasOwn(ms + [m]) && KnownAfter(known, ms + [m]) == KnownAfter(from, tail + [m])
  {
    LoadedLast(known, held, ms, m);
    LoadedLast(from, [], tail, m);
    AddedBehindOwn(known, held, ms, from, tail, m);
    Regroup(head, Attribute(from, tail), Added(known, held, ms, m));
  }

  lemma Regroup(a: seq<Message>, b: seq<Message>, c: seq<Message>)
    ensures a + b + c == a + (b + c)
  {
  }

  /** `Loaded` in closed form.  Without an own IP, just the messages under the known one; otherwise
      the messages before the first own IP, then everything on hold under that IP and in its old
      order, then the message that brought it, then the rest. */
  lemma LoadedShape(known: string, held: seq<Message>, before: seq<Message>, own: Message, after: seq<Message>)
    requires !HasOwn(before) && own.ip != ""
    ensures Loaded(known, held, before) == Attribute(known, before)
    ensures Loaded(known, held, before + [own] + after)
            == Attribute(known, before) + Fill(held, own.ip) + [own] + Attribute(own.ip, after)
  {
    LoadedWithoutOwn(known, held, before);
    LoadedWithOwn(known, held, before, own, after);
  }

  /** A buffer after loading messages of one process, against the buffer before. */
  predicate LoadedInto(b: Buf, after: Buf, ms: seq<Message>, p: Process) {
    && after.enableCache
    && after.out == b.out + Loaded(KnownIp(b, p), HeldOf(b, p), ms)
    && HeldOf(after, p) == (if HasOwn(ms) then [] else HeldOf(b, p))
    && KnownIp(after, p) == KnownAfter(KnownIp(b, p), ms)
    && (p in after.buff ==> after.buff[p].ip != "")
  }

  lemma LoadedGrows(out: seq<Message>, known: string, held: seq<Message>, ms: seq<Message>, m: Message)
    ensures out + Loaded(known, held, ms + [m]) == out + Loaded(known, held, ms) + Added(known, held, ms, m)
  {
    LoadedLast(known, held, ms, m);
    var done, more := Loaded(known, held, ms), Added(known, held, ms, m);
    assert out + (done + more) == out + done + more;
  }

  lemma LoadSingleStep(b: Buf, before: Buf, ms: seq<Message>, m: Message, p: Process)
    requires LoadedInto(b, before, ms, p) && m.process == p
    ensures LoadedInto(b, LoadOne(before, m), ms + [m], p)
  {
    LoadNext(before, m);
    LoadedFrom(b, before, LoadOne(before, m), ms, m, p);
  }

  lemma LoadedFrom(b: Buf, before: Buf, after: Buf, ms: seq<Message>, m: Message, p: Process)
    requires LoadedInto(b, before, ms, p) && after.enableCache
    requires p in after.buff ==> after.buff[p].ip != ""
    requires after.out == before.out + if m.ip != "" then Fill(HeldOf(before, p), m.ip) + [m] else [m.(ip := KnownIp(before, p))]
    requires HeldOf(after, p) == if m.ip != "" then [] else HeldOf(before, p)
    requires KnownIp(after, p) == if m.ip != "" then m.ip else KnownIp(before, p)
    ensures LoadedInto(b, after, ms + [m], p)
  {
    LoadedGrows(b.out, KnownIp(b, p), HeldOf(b, p), ms, m);
    LoadedLast(KnownIp(b, p), HeldOf(b, p), ms, m);
  }

  lemma {:induction false} LoadSingle(b: Buf, ms: seq<Message>, p: Process)
    requires b.enableCache && forall m :: m in ms ==> m.process == p
    requires p in b.buff ==> b.buff[p].ip != ""
    ensures LoadedInto(b, Load(b, ms), ms, p)
  {
    if ms == [] {
      assert b.out + [] == b.out;
    } else {
      var init, m := ms[..|ms| - 1], ms[|ms| - 1];
      assert ms == init + [m];
      LoadSingle(b, init, p);
      LoadSingleStep(b, Load(b, init), init, m, p);
    }
  }

  /** One more message of its process. */
  lemma LoadNext(b: Buf, m: Message)
    requires b.enableCache && (m.process in b.buff ==> b.buff[m.process].ip != "")
    ensures var after := LoadOne(b, m);
      && after.out == b.out + (if m.ip != "" then Fill(HeldOf(b, m.process), m.ip) + [m]
                               else [m.(ip := KnownIp(b, m.process))])
      && HeldOf(after, m.process) == (if m.ip != "" then [] else HeldOf(b, m.process))
      && KnownIp(after, m.process) == (if m.ip != "" then m.ip else KnownIp(b, m.process))
      && (m.process in after.buff ==> after.buff[m.process].ip != "")
  {
    if m.ip == "" && m.process !in b.buff {
      assert m.(ip := "") == m;
    }
  }

  /** Release: for every process, loading a batch adds exactly `Loaded` to the process's part of the
      work list and leaves the process without held messages, or leaves its hold as it was when none
      of its messages brings an IP. */
  lemma LoadReleases(b: Buf, ms: seq<Message>, p: Process)
    requires Tidy(b) && b.enableCache
    requires p in b.buff ==> b.buff[p].ip != ""
    ensures var after, mine := Load(b, ms), Of(ms, p);
      && Of(after.out, p) == Of(b.out, p) + Loaded(KnownIp(b, p), HeldOf(b, p), mine)
      && HeldOf(after, p) == (if HasOwn(mine) then [] else HeldOf(b, p))
  {
    LoadOnly(b, ms, p);
    LoadSingle(Only(b, p), Of(ms, p), p);
    assert HeldOf(Only(b, p), p) == HeldOf(b, p) && KnownIp(Only(b, p), p) == KnownIp(b, p);
    assert HeldOf(Only(Load(b, ms), p), p) == HeldOf(Load(b, ms), p);
  }

  // ----- Conservation -----

  function ChecksOf(b: Buf, p: Process): nat {
    if p in b.hold then b.hold[p].failedChecks else 0
  }

  predicate HoldsMore(b: Buf, after: Buf, pushed: seq<Message>, p: Process) {
    && HeldOf(after, p) == HeldOf(b, p) + pushed
    && (p in after.hold <==> p in b.hold || pushed != [])
    && ChecksOf(after, p) == ChecksOf(b, p)
  }

  lemma PushHolds(b: Buf, before: Buf, pushed: seq<Message>, m: Message, p: Process)
    requires HoldsMore(b, before, Of(pushed, p), p)
    ensures HoldsMore(b, Push(before, m), Of(pushed + [m], p), p)
  {
    AddedOnly(pushed, m, p);
    if m.process == p {
      Regroup(HeldOf(b, p), Of(pushed, p), [m]);
    }
  }

  lemma CatchHolds(b: Buf, before: Buf, pushed: seq<Message>, m: Message, p: Process)
    requires HoldsMore(b, before, pushed, p)
    ensures HoldsMore(b, Register(before, m), pushed, p)
  {
  }

  lemma SweepOneHolds(valid: Validity, f: Filter, b: Buf, s: Sweep, m: Message, p: Process)
    requires HoldsMore(b, s.b, Of(s.pushed, p), p)
    ensures var s' := SweepOne(valid, f, s, m);
      HoldsMore(b, s'.b, Of(s'.pushed, p), p)
  {
    match FateOf(valid, f, s.b, m)
    case Passed =>
    case Pushed => PushHolds(b, s.b, s.pushed, m, p);
    case Caught(ip) => CatchHolds(b, s.b, Of(s.pushed, p), m.(ip := ip), p);
  }

  lemma {:induction false} SweepHolds(valid: Validity, f: Filter, b: Buf, ms: seq<Message>, p: Process)
    ensures var s := SweepAll(valid, f, b, ms);
      HoldsMore(b, s.b, Of(s.pushed, p), p)
  {
    if ms == [] {
      assert HeldOf(b, p) + [] == HeldOf(b, p);
    } else {
      SweepHolds(valid, f, b, ms[..|ms| - 1], p);
      SweepOneHolds(valid, f, b, SweepAll(valid, f, b, ms[..|ms| - 1]), ms[|ms| - 1], p);
    }
  }

  /** What a step puts on hold for `p`, and what it takes off: a load that brings an IP of `p`
      releases everything, a finished cycle drops what has waited through five. */
  function PushedBy(valid: Validity, b: Buf, op: Op, p: Process): seq<Message> {
    if op.ForwardOp? then Of(Forward(valid, op.f, b).pushed, p) else []
  }

  function TakenBy(b: Buf, op: Op, p: Process): seq<Message> {
    match op
    case LoadOp(ms) => if HasOwn(Of(ms, p)) then HeldOf(b, p) else []
    case ForwardOp(f) => []
    case DoneOp => if ChecksOf(b, p) + 1 >= 5 then HeldOf(b, p) else []
  }

  function PushedIn(valid: Validity, b: Buf, ops: seq<Op>, p: Process): seq<Message> {
    if ops == [] then []
    else
      var init := ops[..|ops| - 1];
      PushedIn(valid, b, init, p) + PushedBy(valid, Run(valid, b, init), ops[|ops| - 1], p)
  }

  function TakenIn(valid: Validity, b: Buf, ops: seq<Op>, p: Process): seq<Message> {
    if ops == [] then []
    else
      var init := ops[..|ops| - 1];
      TakenIn(valid, b, init, p) + TakenBy(Run(valid, b, init), ops[|ops| - 1], p)
  }

  /** What every reachable buffer with its cache on satisfies. */
  ghost predicate Orderly(b: Buf) {
    && Tidy(b) && b.enableCache
    && (forall p :: p in b.buff ==> b.buff[p].ip != "")
    && (forall p :: p in b.hold ==> b.hold[p].failedChecks < MAX_AGE)
  }

  lemma {:induction false} LoadOrderly(b: Buf, ms: seq<Message>)
    requires Orderly(b)
    ensures Orderly(Load(b, ms))
  {
    if ms != [] {
      LoadOrderly(b, ms[..|ms| - 1]);
      LoadOneTidy(Load(b, ms[..|ms| - 1]), ms[|ms| - 1]);
    }
  }

  lemma {:induction false} SweepOrderly(valid: Validity, f: Filter, b: Buf, ms: seq<Message>)
    requires Orderly(b)
    ensures Orderly(SweepAll(valid, f, b, ms).b)
  {
    if ms != [] {
      var init, m := ms[..|ms| - 1], ms[|ms| - 1];
      SweepOrderly(valid, f, b, init);
      SweepOneTidy(valid, f, SweepAll(valid, f, b, init), m);
    }
  }

  lemma NextOrderly(valid: Validity, b: Buf, op: Op)
    requires Orderly(b)
    ensures Orderly(Next(valid, b, op))
  {
    match op
    case LoadOp(ms) => LoadOrderly(b, ms);
    case ForwardOp(f) => SweepOrderly(valid, f, b, b.out);
    case DoneOp =>
  }

  lemma {:induction false} RunOrderly(valid: Validity, b: Buf, ops: seq<Op>)
    requires Orderly(b)
    ensures Orderly(Run(valid, b, ops))
  {
    if ops != [] {
      RunOrderly(valid, b, ops[..|ops| - 1]);
      NextOrderly(valid, Run(valid, b, ops[..|ops| - 1]), ops[|ops| - 1]);
    }
  }

  lemma LoadConserves(b: Buf, ms: seq<Message>, p: Process)
    requires Orderly(b)
    ensures HeldOf(b, p) == TakenBy(b, LoadOp(ms), p) + HeldOf(Load(b, ms), p)
  {
    LoadReleases(b, ms, p);
    OneIsEmpty(HeldOf(b, p), TakenBy(b, LoadOp(ms), p), HeldOf(Load(b, ms), p));
  }

  lemma OneIsEmpty(held: seq<Message>, taken: seq<Message>, left: seq<Message>)
    requires (taken == held && left == []) || (taken == [] && left == held)
    ensures held == taken + left
  {
  }

  lemma DoneConserves(b: Buf, p: Process)
    requires Orderly(b)
    ensures HeldOf(b, p) == TakenBy(b, DoneOp, p) + HeldOf(Done(b), p)
  {
  }

  lemma NextConserves(valid: Validity, b: Buf, op: Op, p: Process)
    requires Orderly(b)
    ensures HeldOf(b, p) + PushedBy(valid, b, op, p) == TakenBy(b, op, p) + HeldOf(Next(valid, b, op), p)
  {
    match op
    case LoadOp(ms) => LoadConserves(b, ms, p);
    case ForwardOp(f) => SweepHolds(valid, f, b, b.out, p);
    case DoneOp => DoneConserves(b, p);
  }

  /** Conservation over every run from an empty buffer: the messages of a process that were ever put
      on hold are, in order, those taken off again followed by those still held.  `LoadReleases` says
      that what a load takes off goes into the batch. */
  lemma {:induction false} HoldConserved(valid: Validity, ops: seq<Op>, p: Process)
    ensures PushedIn(valid, Empty(true), ops, p)
            == TakenIn(valid, Empty(true), ops, p) + HeldOf(Run(valid, Empty(true), ops), p)
  {
    if ops != [] {
      var init, last := ops[..|ops| - 1], ops[|ops| - 1];
      var b := Run(valid, Empty(true), init);
      HoldConserved(valid, init, p);
      RunOrderly(valid, Empty(true), init);
      NextConserves(valid, b, last, p);
      Chain(TakenIn(valid, Empty(true), init, p), HeldOf(b, p), PushedBy(valid, b, last, p),
            TakenBy(b, last, p), HeldOf(Next(valid, b, last), p));
    }
  }

  lemma Chain(a: seq<Message>, b: seq<Message>, c: seq<Message>, d: seq<Message>, e: seq<Message>)
    requires b + c == d + e
    ensures a + b + c == a + d + e
  {
    assert a + b + c == a + (b + c);
    assert a + d + e == a + (d + e);
  }

  // ----- Expiry -----

  function Cycles(ops: seq<Op>): nat {
    if ops == [] then 0 else Cycles(ops[..|ops| - 1]) + if ops[|ops| - 1].DoneOp? then 1 else 0
  }

  predicate Suffix(s: seq<Message>, whole: seq<Message>) {
    |s| <= |whole| && s == whole[|whole| - |s|..]
  }

  /** What `p` has on hold was put there during the steps, or has counted all their cycles. */
  predicate Recent(b: Buf, p: Process, pushed: seq<Message>, cycles: nat) {
    Suffix(HeldOf(b, p), pushed) || ChecksOf(b, p) >= cycles
  }

  lemma NextRecent(valid: Validity, b: Buf, op: Op, p: Process, pushed: seq<Message>, cycles: nat)
    requires Orderly(b) && Recent(b, p, pushed, cycles)
    ensures Recent(Next(valid, b, op), p, pushed + PushedBy(valid, b, op, p), cycles + if op.DoneOp? then 1 else 0)
  {
    assert pushed + [] == pushed;
    match op
    case LoadOp(ms) => LoadChecks(b, ms, p);
      LoadReleases(b, ms, p);
    case ForwardOp(f) =>
      SweepHolds(valid, f, b, b.out, p);
      var more := Of(SweepAll(valid, f, b, b.out).pushed, p);
      if Suffix(HeldOf(b, p), pushed) {
        assert Suffix(HeldOf(b, p) + more, pushed + more);
      } else {
        assert p in b.hold;
      }
    case DoneOp =>
  }

  lemma {:induction false} LoadChecks(b: Buf, ms: seq<Message>, p: Process)
    ensures p in Load(b, ms).hold ==> p in b.hold && Load(b, ms).hold[p] == b.hold[p]
  {
    if ms != [] {
      LoadChecks(b, ms[..|ms| - 1], p);
    }
  }

  lemma {:induction false} RunRecent(valid: Validity, b: Buf, ops: seq<Op>, p: Process)
    requires Orderly(b)
    ensures Recent(Run(valid, b, ops), p, PushedIn(valid, b, ops, p), Cycles(ops))
  {
    if ops != [] {
      var init, last := ops[..|ops| - 1], ops[|ops| - 1];
      RunRecent(valid, b, init, p);
      RunOrderly(valid, b, init);
      NextRecent(valid, Run(valid, b, init), last, p, PushedIn(valid, b, init, p), Cycles(init));
    }
  }

  /** No message stays on hold through five cycles: whatever is held after steps with at least five of
      them was put on hold during these steps. */
  lemma HeldIsRecent(valid: Validity, past: seq<Op>, ops: seq<Op>, p: Process)
    requires Cycles(ops) >= 5
    ensures var b := Run(valid, Empty(true), past);
      Suffix(HeldOf(Run(valid, b, ops), p), PushedIn(valid, b, ops, p))
  {
    RunOrderly(valid, Empty(true), past);
    var b := Run(valid, Empty(true), past);
    RunOrderly(valid, b, ops);
    RunRecent(valid, b, ops, p);
  }
}
