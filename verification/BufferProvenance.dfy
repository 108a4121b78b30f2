/** Where the IPs that messages are caught under come from. */
module BufferProvenance {
  import opened Options
  import opened Messages
  import opened Filters
  import opened Buffer

  ghost predicate LoadedMessage(ops: seq<Op>, m: Message) {
    exists i :: 0 <= i < |ops| && ops[i].LoadOp? && m in ops[i].ms
  }

  ghost predicate UsedFilter(ops: seq<Op>, f: Filter) {
    exists i :: 0 <= i < |ops| && ops[i] == ForwardOp(f)
  }

  ghost predicate Captures(f: Filter, text: string, ip: string) {
    exists i :: 0 <= i < |f.patterns| && f.patterns[i](text) == Hit(Some(ip))
  }

  /** Some loaded message of the process has this text. */
  ghost predicate Spoken(ops: seq<Op>, p: Process, text: string) {
    exists m :: LoadedMessage(ops, m) && m.process == p && m.text == text
  }

  ghost predicate CapturedFrom(ops: seq<Op>, text: string, ip: string) {
    exists f :: UsedFilter(ops, f) && Captures(f, text, ip)
  }

  /** The IP is vouched for by the input alone: a loaded message of the process came with it, or one of
      the filters captures it from the text of a loaded message of the process. */
  ghost predicate Witnessed(ops: seq<Op>, p: Process, ip: string) {
    || (exists m :: LoadedMessage(ops, m) && m.process == p && m.ip == ip)
    || (exists text :: Spoken(ops, p, text) && CapturedFrom(ops, text, ip))
  }

  /** A message in the buffer has the text of a loaded one and no unexplained IP. */
  ghost predicate Explained(ops: seq<Op>, m: Message) {
    Spoken(ops, m.process, m.text) && (m.ip != "" ==> Witnessed(ops, m.process, m.ip))
  }

  ghost predicate AllExplained(ops: seq<Op>, ms: seq<Message>) {
    forall m :: m in ms ==> Explained(ops, m)
  }

  ghost predicate Traced(ops: seq<Op>, b: Buf) {
    && (forall p :: p in b.buff ==> Witnessed(ops, p, b.buff[p].ip))
    && (forall p :: p in b.hold ==> forall m :: m in b.hold[p].msg ==> m.process == p && Explained(ops, m))
    && AllExplained(ops, b.out)
  }

  // ----- More input explains at least as much -----

  lemma MoreWitnessed(ops: seq<Op>, op: Op, p: Process, ip: string)
    requires Witnessed(ops, p, ip)
    ensures Witnessed(ops + [op], p, ip)
  {
    if m :| LoadedMessage(ops, m) && m.process == p && m.ip == ip {
      MoreLoaded(ops, op, m);
    } else {
      var text :| Spoken(ops, p, text) && CapturedFrom(ops, text, ip);
      MoreSpoken(ops, op, p, text);
      var f :| UsedFilter(ops, f) && Captures(f, text, ip);
      MoreUsed(ops, op, f);
    }
  }

  lemma MoreLoaded(ops: seq<Op>, op: Op, m: Message)
    requires LoadedMessage(ops, m)
    ensures LoadedMessage(ops + [op], m)
  {
    var i :| 0 <= i < |ops| && ops[i].LoadOp? && m in ops[i].ms;
    assert (ops + [op])[i] == ops[i];
  }

  lemma MoreUsed(ops: seq<Op>, op: Op, f: Filter)
    requires UsedFilter(ops, f)
    ensures UsedFilter(ops + [op], f)
  {
    var i :| 0 <= i < |ops| && ops[i] == ForwardOp(f);
    assert (ops + [op])[i] == ops[i];
  }

  lemma MoreSpoken(ops: seq<Op>, op: Op, p: Process, text: string)
    requires Spoken(ops, p, text)
    ensures Spoken(ops + [op], p, text)
  {
    var m :| LoadedMessage(ops, m) && m.process == p && m.text == text;
    MoreLoaded(ops, op, m);
  }

  lemma MoreExplained(ops: seq<Op>, op: Op, m: Message)
    requires Explained(ops, m)
    ensures Explained(ops + [op], m)
  {
    MoreSpoken(ops, op, m.process, m.text);
    if m.ip != "" {
      MoreWitnessed(ops, op, m.process, m.ip);
    }
  }

  lemma MoreTraced(ops: seq<Op>, op: Op, b: Buf)
    requires Traced(ops, b)
    ensures Traced(ops + [op], b)
  {
    forall p | p in b.buff ensures Witnessed(ops + [op], p, b.buff[p].ip) {
      MoreWitnessed(ops, op, p, b.buff[p].ip);
    }
    forall p | p in b.hold
      ensures forall m :: m in b.hold[p].msg ==> m.process == p && Explained(ops + [op], m)
    {
      forall m | m in b.hold[p].msg ensures m.process == p && Explained(ops + [op], m) {
        MoreExplained(ops, op, m);
      }
    }
    forall m | m in b.out ensures Explained(ops + [op], m) {
      MoreExplained(ops, op, m);
    }
  }

  // ----- Steps -----

  lemma LoadOneTraced(ops: seq<Op>, b: Buf, m: Message)
    requires Traced(ops, b) && LoadedMessage(ops, m)
    ensures Traced(ops, LoadOne(b, m))
  {
    assert Spoken(ops, m.process, m.text);
    if m.ip != "" {
      assert Witnessed(ops, m.process, m.ip);
      assert Explained(ops, m);
      forall x | x in Fill(HeldOf(b, m.process), m.ip) ensures Explained(ops, x) {
        var held := HeldOf(b, m.process);
        var i :| 0 <= i < |held| && x == Fill(held, m.ip)[i];
        assert held[i] in held;
      }
    } else {
      assert Explained(ops, TryLoadIp(b, m));
    }
  }

  lemma {:induction false} LoadTraced(ops: seq<Op>, b: Buf, ms: seq<Message>)
    requires Traced(ops, b) && forall m :: m in ms ==> LoadedMessage(ops, m)
    ensures Traced(ops, Load(b, ms))
  {
    if ms != [] {
      LoadTraced(ops, b, ms[..|ms| - 1]);
      LoadOneTraced(ops, Load(b, ms[..|ms| - 1]), ms[|ms| - 1]);
    }
  }

  lemma {:induction false} CheckCaptures(f: Filter, m: Message, from: nat, i: nat)
    ensures var r := CheckAt(f, m, from, i).result;
      r.Some? && !r.value.error ==> r.value.ip != "" && (r.value.ip == m.ip || Captures(f, m.text, r.value.ip))
    decreases |f.patterns| - i
  {
    if i < |f.patterns| && !Hits(f, m, i) {
      CheckCaptures(f, m, from, i + 1);
    }
  }

  /** A caught message is explained: by its own IP, a capture of this filter, or the process's cache. */
  lemma FateTraced(ops: seq<Op>, valid: Validity, f: Filter, b: Buf, m: Message)
    requires UsedFilter(ops, f) && Explained(ops, m)
    requires m.process in b.buff ==> Witnessed(ops, m.process, b.buff[m.process].ip)
    ensures var fate := FateOf(valid, f, b, m);
      fate.Caught? ==> Witnessed(ops, m.process, fate.ip)
  {
    CheckCaptures(f, m, 0, 0);
    var fate := FateOf(valid, f, b, m);
    if fate.Caught? && !Check(f, m, 0).result.value.error && fate.ip != m.ip {
      assert CapturedFrom(ops, m.text, fate.ip);
    }
  }

  ghost predicate SweepTraced(ops: seq<Op>, s: Sweep) {
    && (forall p :: p in s.b.buff ==> Witnessed(ops, p, s.b.buff[p].ip))
    && (forall p :: p in s.b.hold ==> forall m :: m in s.b.hold[p].msg ==> m.process == p && Explained(ops, m))
    && AllExplained(ops, s.out)
    && (forall m :: m in s.caught ==> Witnessed(ops, m.process, m.ip))
  }

  lemma SweepOneTraced(ops: seq<Op>, valid: Validity, f: Filter, s: Sweep, m: Message)
    requires SweepTraced(ops, s) && UsedFilter(ops, f) && Explained(ops, m)
    ensures SweepTraced(ops, SweepOne(valid, f, s, m))
  {
    FateTraced(ops, valid, f, s.b, m);
    var fate := FateOf(valid, f, s.b, m);
    if fate.Caught? {
      assert Explained(ops, m.(ip := fate.ip));
    }
  }

  lemma {:induction false} SweepAllTraced(ops: seq<Op>, valid: Validity, f: Filter, b: Buf, ms: seq<Message>)
    requires Traced(ops, b) && UsedFilter(ops, f) && AllExplained(ops, ms)
    ensures SweepTraced(ops, SweepAll(valid, f, b, ms))
  {
    if ms != [] {
      SweepAllTraced(ops, valid, f, b, ms[..|ms| - 1]);
      SweepOneTraced(ops, valid, f, SweepAll(valid, f, b, ms[..|ms| - 1]), ms[|ms| - 1]);
    }
  }

  lemma NextTraced(valid: Validity, ops: seq<Op>, b: Buf, op: Op)
    requires Traced(ops, b)
    ensures Traced(ops + [op], Next(valid, b, op))
    ensures forall m :: m in CaughtBy(valid, b, op) ==> Witnessed(ops + [op], m.process, m.ip)
  {
    var more := ops + [op];
    assert more[|ops|] == op;
    MoreTraced(ops, op, b);
    match op
    case LoadOp(ms) =>
      forall m | m in ms ensures LoadedMessage(more, m) {
      }
      LoadTraced(more, b, ms);
    case ForwardOp(f) => SweepAllTraced(more, valid, f, b, b.out);
    case DoneOp =>
  }

  /** Provenance over every run: each caught message carries an IP that its own process is vouched for,
      by a message that came with it or by a capture from a message's text. */
  lemma {:induction false} Provenance(valid: Validity, enableCache: bool, ops: seq<Op>)
    ensures Traced(ops, Run(valid, Empty(enableCache), ops))
    ensures forall m :: m in CaughtIn(valid, Empty(enableCache), ops) ==> Witnessed(ops, m.process, m.ip)
  {
    if ops != [] {
      var init, last := ops[..|ops| - 1], ops[|ops| - 1];
      assert ops == init + [last];
      Provenance(valid, enableCache, init);
      NextTraced(valid, init, Run(valid, Empty(enableCache), init), last);
      forall m | m in CaughtIn(valid, Empty(enableCache), init) ensures Witnessed(ops, m.process, m.ip) {
        MoreWitnessed(init, last, m.process, m.ip);
      }
    }
  }

  // ----- What `forward` hands out -----

  lemma {:induction false} CaughtValid(valid: Validity, f: Filter, b: Buf, ms: seq<Message>)
    ensures forall m :: m in SweepAll(valid, f, b, ms).caught ==> m.ip != "" && valid(m.ip)
  {
    if ms != [] {
      CaughtValid(valid, f, b, ms[..|ms| - 1]);
    }
  }

  /** The report of a filter files every caught message under its own IP, which is valid; no entry is
      empty, and no message is lost, added or moved between IPs. */
  lemma ReportSound(valid: Validity, f: Filter, b: Buf)
    ensures var caught := Forward(valid, f, b).caught;
      var report := GroupByIp(caught);
      && (forall ip :: ip in report ==> ip != "" && valid(ip) && report[ip] != [])
      && (forall ip :: ip in report ==> forall m :: m in report[ip] ==> m.ip == ip)
      && (forall m :: m in caught ==> m.ip in report && multiset(report[m.ip])[m] == multiset(caught)[m])
  {
    var caught := Forward(valid, f, b).caught;
    CaughtValid(valid, f, b, b.out);
    GroupSound(caught);
  }
}
