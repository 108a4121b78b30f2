/** What a batch consists of: the messages of this cycle and those its load takes off hold, and nothing
    of an earlier one. */
module BufferBatch {
  import opened Messages
  import opened Filters
  import opened Buffer
  import opened BufferIsolation
  import opened BufferHold
  import opened BufferInterchange

  /** A cycle always ends with an empty batch, cache or not. */
  lemma DoneEmpties(valid: Validity, b: Buf, ops: seq<Op>)
    requires ops != [] && ops[|ops| - 1] == DoneOp
    ensures Run(valid, b, ops).out == []
  {
  }

  /** With the cache off the messages enter the batch just as they came, and nothing else happens. */
  lemma {:induction false} LoadedAsGiven(b: Buf, ms: seq<Message>)
    requires !b.enableCache
    ensures Load(b, ms).out == b.out + ms
    ensures Load(b, ms).hold == b.hold && Load(b, ms).buff == b.buff
  {
    if ms == [] {
      assert b.out + [] == b.out;
    } else {
      LoadedAsGiven(b, ms[..|ms| - 1]);
      LoadKeepsSwitch(b, ms[..|ms| - 1]);
      assert ms == ms[..|ms| - 1] + [ms[|ms| - 1]];
    }
  }

  // ----- Messages but for their IP -----

  function Bare(m: Message): Message {
    m.(ip := "")
  }

  /** How often each message occurs, its IP left aside. */
  function Bares(ms: seq<Message>): multiset<Message> {
    if ms == [] then multiset{} else Bares(ms[..|ms| - 1]) + multiset{Bare(ms[|ms| - 1])}
  }

  lemma BaresNext(ms: seq<Message>, m: Message)
    ensures Bares(ms + [m]) == Bares(ms) + multiset{Bare(m)}
  {
    assert (ms + [m])[..|ms|] == ms;
  }

  lemma {:induction false} BaresConcat(one: seq<Message>, two: seq<Message>)
    ensures Bares(one + two) == Bares(one) + Bares(two)
    decreases |two|
  {
    if two == [] {
      assert one + two == one;
    } else {
      var init := two[..|two| - 1];
      assert (one + two)[..|one + two| - 1] == one + init;
      BaresConcat(one, init);
    }
  }

  lemma {:induction false} BaresOfFill(ms: seq<Message>, ip: string)
    ensures Bares(Fill(ms, ip)) == Bares(ms)
  {
    if ms != [] {
      BaresOfFill(ms[..|ms| - 1], ip);
      assert Fill(ms, ip)[..|ms| - 1] == Fill(ms[..|ms| - 1], ip);
    }
  }

  // ----- What load puts into the batch -----

  /** What a process has on hold that loading these messages of it takes off. */
  function Released(b: Buf, ms: seq<Message>, p: Process): seq<Message> {
    if b.enableCache && HasOwn(ms) then HeldOf(b, p) else []
  }

  /** A process's part of the batch behind the load of some messages of it. */
  predicate Batched(b: Buf, ms: seq<Message>, p: Process, after: Buf) {
    && after.enableCache == b.enableCache
    && Bares(after.out) == Bares(b.out) + Bares(ms) + Bares(Released(b, ms, p))
    && HeldOf(after, p) == if b.enableCache && HasOwn(ms) then [] else HeldOf(b, p)
  }

  lemma ReleasedNext(b: Buf, ms: seq<Message>, m: Message, p: Process)
    ensures Released(b, ms + [m], p) == if b.enableCache && (HasOwn(ms) || m.ip != "") then HeldOf(b, p) else []
  {
    assert (ms + [m])[..|ms|] == ms;
  }

  /** The count behind one more message: itself, and what it takes off hold. */
  lemma OneMore(out: multiset<Message>, given: multiset<Message>, before: multiset<Message>, freed: multiset<Message>, x: multiset<Message>,
                after: multiset<Message>)
    requires after == before + freed
    ensures out + given + before + freed + x == out + (given + x) + after
  {
  }

  /** A message that brings an IP, with the cache on: what is on hold goes before it. */
  lemma OwnBatched(b: Buf, ms: seq<Message>, m: Message, p: Process, before: Buf, after: Buf)
    requires Batched(b, ms, p, before) && b.enableCache && m.ip != ""
    requires after.enableCache && after.out == before.out + Fill(HeldOf(before, p), m.ip) + [m] && HeldOf(after, p) == []
    ensures Batched(b, ms + [m], p, after)
  {
    var held, freed := HeldOf(before, p), Fill(HeldOf(before, p), m.ip);
    ReleasedNext(b, ms, m, p);
    BaresNext(ms, m);
    OwnCounted(before.out, held, m);
    OneMore(Bares(b.out), Bares(ms), Bares(Released(b, ms, p)), Bares(held), multiset{Bare(m)}, Bares(HeldOf(b, p)));
    assert HasOwn(ms + [m]) by {
      assert (ms + [m])[|ms|] == m;
    }
  }

  lemma OwnCounted(out: seq<Message>, held: seq<Message>, m: Message)
    ensures Bares(out + Fill(held, m.ip) + [m]) == Bares(out) + Bares(held) + multiset{Bare(m)}
  {
    BaresOfFill(held, m.ip);
    BaresConcat(out, Fill(held, m.ip));
    BaresNext(out + Fill(held, m.ip), m);
  }

  lemma PlainBatched(b: Buf, ms: seq<Message>, m: Message, p: Process, before: Buf, after: Buf, loaded: Message)
    requires Batched(b, ms, p, before) && (m.ip == "" || !b.enableCache) && Bare(loaded) == Bare(m)
    requires after.enableCache == b.enableCache && after.out == before.out + [loaded] && HeldOf(after, p) == HeldOf(before, p)
    ensures Batched(b, ms + [m], p, after)
  {
    ReleasedNext(b, ms, m, p);
    BaresNext(ms, m);
    BaresNext(before.out, loaded);
    OneMore(Bares(b.out), Bares(ms), Bares(Released(b, ms, p)), multiset{}, multiset{Bare(m)}, Bares(Released(b, ms, p)));
    assert HasOwn(ms + [m]) == (HasOwn(ms) || m.ip != "") by {
      assert (ms + [m])[..|ms|] == ms;
    }
  }

  lemma BatchedNext(b: Buf, ms: seq<Message>, m: Message, p: Process, before: Buf)
    requires Batched(b, ms, p, before) && m.process == p
    ensures Batched(b, ms + [m], p, LoadOne(before, m))
  {
    if m.ip != "" && b.enableCache {
      OwnBatched(b, ms, m, p, before, LoadOne(before, m));
    } else {
      PlainBatched(b, ms, m, p, before, LoadOne(before, m), if m.ip != "" then m else TryLoadIp(before, m));
    }
  }

  lemma {:induction false} LoadBatches(b: Buf, ms: seq<Message>, p: Process)
    requires forall m :: m in ms ==> m.process == p
    ensures Batched(b, ms, p, Load(b, ms))
  {
    if ms == [] {
    } else {
      var init, m := ms[..|ms| - 1], ms[|ms| - 1];
      assert ms == init + [m];
      LoadBatches(b, init, p);
      BatchedNext(b, init, m, p, Load(b, init));
    }
  }

  // ----- What filters take from it -----

  /** A filter changes nothing in the batch but IPs, and catches each of its messages at most once. */
  predicate TakenFrom(s: Sweep, ms: seq<Message>) {
    Bares(s.out) == Bares(ms) && Bares(s.caught) <= Bares(ms)
  }

  lemma {:induction false} SweepTakes(valid: Validity, f: Filter, b: Buf, ms: seq<Message>)
    ensures TakenFrom(SweepAll(valid, f, b, ms), ms)
  {
    if ms != [] {
      var init, m := ms[..|ms| - 1], ms[|ms| - 1];
      SweepTakes(valid, f, b, init);
      OneTaken(valid, f, SweepAll(valid, f, b, init), m);
    }
  }

  lemma OneTaken(valid: Validity, f: Filter, s: Sweep, m: Message)
    ensures var s' := SweepOne(valid, f, s, m);
      && Bares(s'.out) == Bares(s.out) + multiset{Bare(m)}
      && (Bares(s'.caught) == Bares(s.caught) || Bares(s'.caught) == Bares(s.caught) + multiset{Bare(m)})
  {
    BaresNext(s.out, m);
    var fate := FateOf(valid, f, s.b, m);
    if fate.Caught? {
      BaresNext(s.out, m.(ip := fate.ip));
      BaresNext(s.caught, m.(ip := fate.ip));
    }
  }

  lemma ForwardTakes(valid: Validity, f: Filter, b: Buf, p: Process)
    requires Tidy(b)
    ensures var s := Forward(valid, f, b);
      && Tidy(s.b)
      && Bares(Of(s.b.out, p)) == Bares(Of(b.out, p))
      && Bares(Of(s.caught, p)) <= Bares(Of(b.out, p))
  {
    SweepOnly(valid, f, b, b.out, p);
    SweepTakes(valid, f, Only(b, p), Of(b.out, p));
  }

  // ----- A whole cycle -----

  function Flat(parts: seq<seq<Message>>): seq<Message> {
    if parts == [] then [] else Flat(parts[..|parts| - 1]) + parts[|parts| - 1]
  }

  lemma FlatNext(parts: seq<seq<Message>>, part: seq<Message>)
    ensures Flat(parts + [part]) == Flat(parts) + part
  {
    assert (parts + [part])[..|parts|] == parts;
  }

  lemma {:induction false} CascadeTakes(valid: Validity, filters: seq<Filter>, b: Buf) returns (parts: seq<seq<Message>>)
    requires Tidy(b)
    ensures Tidy(Cascade(valid, filters, b).b)
    ensures |parts| == |filters| && Flat(parts) == Cascade(valid, filters, b).caught
    ensures forall p :: Bares(Of(Cascade(valid, filters, b).b.out, p)) == Bares(Of(b.out, p))
    ensures forall i, p :: 0 <= i < |parts| ==> Bares(Of(parts[i], p)) <= Bares(Of(b.out, p))
  {
    if filters == [] {
      parts := [];
    } else {
      var init, f := filters[..|filters| - 1], filters[|filters| - 1];
      var before := CascadeTakes(valid, init, b);
      var c := Cascade(valid, init, b);
      var part := Forward(valid, f, c.b).caught;
      forall p
        ensures Tidy(Forward(valid, f, c.b).b)
        ensures Bares(Of(Forward(valid, f, c.b).b.out, p)) == Bares(Of(b.out, p))
        ensures Bares(Of(part, p)) <= Bares(Of(b.out, p))
      {
        ForwardTakes(valid, f, c.b, p);
      }
      ForwardTakes(valid, f, c.b, Process(""));
      FlatNext(before, part);
      parts := before + [part];
    }
  }

  /** The messages of a process that a cycle works on: those it is given, and those its load takes off
      hold. */
  function Given(b: Buf, ms: seq<Message>, p: Process): multiset<Message> {
    Bares(Of(ms, p)) + Bares(Released(b, Of(ms, p), p))
  }

  lemma LoadGives(b: Buf, ms: seq<Message>, p: Process)
    requires Tidy(b) && b.out == []
    ensures Tidy(Load(b, ms)) && Bares(Of(Load(b, ms).out, p)) == Given(b, ms, p)
  {
    LoadOnly(b, ms, p);
    LoadBatches(Only(b, p), Of(ms, p), p);
    assert HeldOf(Only(b, p), p) == HeldOf(b, p);
  }

  /** A call of `process` catches, filter by filter, only messages it was given and messages its load took
      off hold, each at most once for each filter; and it leaves the batch empty for the next. */
  lemma ProcessCatchesGiven(valid: Validity, filters: seq<Filter>, b: Buf, ms: seq<Message>) returns (parts: seq<seq<Message>>)
    requires Tidy(b) && b.out == []
    ensures Tidy(Processed(valid, filters, b, ms).b) && Processed(valid, filters, b, ms).b.out == []
    ensures |parts| == |filters| && Flat(parts) == Processed(valid, filters, b, ms).caught
    ensures forall i, p :: 0 <= i < |parts| ==> Bares(Of(parts[i], p)) <= Given(b, ms, p)
  {
    LoadGives(b, ms, Process(""));
    parts := CascadeTakes(valid, filters, Load(b, ms));
    forall i, p | 0 <= i < |parts| ensures Bares(Of(parts[i], p)) <= Given(b, ms, p) {
      LoadGives(b, ms, p);
    }
  }

  lemma {:induction false} FlatMember(parts: seq<seq<Message>>, m: Message)
    requires m in Flat(parts)
    ensures exists i :: 0 <= i < |parts| && m in parts[i]
  {
    var init := parts[..|parts| - 1];
    if m in Flat(init) {
      FlatMember(init, m);
      var i :| 0 <= i < |init| && m in init[i];
      assert m in parts[i];
    } else {
      assert m in parts[|parts| - 1];
    }
  }

  lemma {:induction false} BaresMember(ms: seq<Message>, m: Message)
    requires m in ms
    ensures Bare(m) in Bares(ms)
  {
    if m != ms[|ms| - 1] {
      BaresMember(ms[..|ms| - 1], m);
    }
  }

  /** So a cycle catches messages only of the processes it was given messages of. */
  lemma CaughtOfGiven(valid: Validity, filters: seq<Filter>, b: Buf, ms: seq<Message>, m: Message)
    requires Tidy(b) && b.out == [] && m in Processed(valid, filters, b, ms).caught
    ensures exists given :: given in ms && given.process == m.process
  {
    var parts := ProcessCatchesGiven(valid, filters, b, ms);
    FlatMember(parts, m);
    var i :| 0 <= i < |parts| && m in parts[i];
    BaresMember(Of(parts[i], m.process), m);
    var mine := Of(ms, m.process);
    GivenNothing(b, ms, m.process);
    assert mine != [] && mine[0] in mine;
  }

  lemma GivenNothing(b: Buf, ms: seq<Message>, p: Process)
    ensures Of(ms, p) == [] ==> Given(b, ms, p) == multiset{}
  {
  }
}
