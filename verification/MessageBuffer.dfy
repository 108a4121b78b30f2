/** The message buffer and the watcher that drives it, as the program runs them. */
module Buffering {
  import opened Messages
  import opened Filters
  import opened Buffer
  import opened BufferOutcome

  lemma {:induction false} AbsentIp(ms: seq<Message>, ip: string)
    requires forall m :: m in ms ==> m.ip != ip
    ensures OfIp(ms, ip) == []
  {
    if ms != [] {
      AbsentIp(ms[..|ms| - 1], ip);
    }
  }

  lemma OfIpLast(ms: seq<Message>, m: Message, ip: string)
    ensures OfIp(ms + [m], ip) == if m.ip == ip then OfIp(ms, ip) + [m] else OfIp(ms, ip)
  {
    assert (ms + [m])[..|ms|] == ms;
    assert OfIp(ms, ip) + [] == OfIp(ms, ip);
  }

  lemma IpsLast(ms: seq<Message>, m: Message)
    ensures Ips(ms + [m]) == Ips(ms) + {m.ip}
  {
    assert forall x :: x in ms + [m] <==> x in ms || x == m;
  }

  function ListFor(report: map<string, seq<Message>>, ip: string): seq<Message> {
    if ip in report then report[ip] else []
  }

  lemma FiledInGroup(ms: seq<Message>, ip: string)
    ensures ListFor(GroupByIp(ms), ip) == OfIp(ms, ip)
  {
    if ip !in GroupByIp(ms) {
      AbsentIp(ms, ip);
    }
  }

  lemma SameReport(left: map<string, seq<Message>>, right: map<string, seq<Message>>)
    requires forall ip :: ip in left <==> ip in right
    requires forall ip :: ip in left ==> left[ip] == right[ip]
    ensures left == right
  {
    assert left.Keys == right.Keys;
  }

  function File(report: map<string, seq<Message>>, m: Message): map<string, seq<Message>> {
    report[m.ip := ListFor(report, m.ip) + [m]]
  }

  lemma GroupLastAt(ms: seq<Message>, m: Message, ip: string)
    ensures OfIp(ms + [m], ip) == ListFor(GroupByIp(ms), ip) + if ip == m.ip then [m] else []
  {
    FiledInGroup(ms, ip);
    OfIpLast(ms, m, ip);
    assert OfIp(ms, ip) + [] == OfIp(ms, ip);
  }

  lemma FileAt(report: map<string, seq<Message>>, m: Message, ip: string)
    ensures ip in File(report, m) <==> ip in report || ip == m.ip
    ensures ip in File(report, m) ==> File(report, m)[ip] == ListFor(report, ip) + if ip == m.ip then [m] else []
  {
    if ip in report {
      assert report[ip] + [] == report[ip];
    }
  }

  /** Filing one more message under its IP. */
  lemma GroupLast(ms: seq<Message>, m: Message)
    ensures GroupByIp(ms + [m]) == File(GroupByIp(ms), m)
  {
    IpsLast(ms, m);
    var before := GroupByIp(ms);
    forall ip
      ensures ip in GroupByIp(ms + [m]) <==> ip in File(before, m)
      ensures ip in GroupByIp(ms + [m]) ==> GroupByIp(ms + [m])[ip] == File(before, m)[ip]
    {
      GroupLastAt(ms, m, ip);
      FileAt(before, m, ip);
    }
    SameReport(GroupByIp(ms + [m]), File(before, m));
  }

  class MessageBuffer {
    var hold: map<Process, Held>
    var buff: map<Process, Known>
    var out: seq<Message>
    const enableCache: bool
    // `inet_pton` accepts the address.
    const valid: Validity

    function State(): Buf
      reads this
    {
      Buf(hold, buff, out, enableCache)
    }

    constructor (enable: bool, valid: Validity)
      ensures State() == Empty(enable) && this.valid == valid
      ensures hold == map[] && buff == map[] && out == [] && enableCache == enable
    {
      hold, buff, out := map[], map[], [];
      enableCache := enable;
      this.valid := valid;
    }

    method RegisterMessage(m: Message)
      modifies this`buff
      ensures State() == Register(old(State()), m)
    {
      if !enableCache {
        return;
      }
      buff := buff[m.process := Known(m.ip, 0)];
    }

    method TryLoadIp(m: Message) returns (r: Message)
      ensures r == Buffer.TryLoadIp(State(), m)
    {
      r := m;
      if !enableCache {
        return;
      }
      if m.process in buff {
        r := r.(ip := buff[m.process].ip);
      }
    }

    method RegisterAndFree(m: Message)
      modifies this`hold, this`buff, this`out
      ensures State() == Buffer.RegisterAndFree(old(State()), m)
    {
      if !enableCache {
        return;
      }
      RegisterMessage(m);
      if m.process in hold {
        var bad := hold[m.process].msg;
        ghost var before := out;
        for i := 0 to |bad|
          invariant out == before + Fill(bad, m.ip)[..i]
          invariant hold == old(hold) && buff == old(buff)[m.process := Known(m.ip, 0)]
        {
          assert Fill(bad, m.ip)[..i + 1] == Fill(bad, m.ip)[..i] + [bad[i].(ip := m.ip)];
          out := out + [bad[i].(ip := m.ip)];
        }
        assert Fill(bad, m.ip)[..|bad|] == Fill(bad, m.ip);
      } else {
        assert hold - {m.process} == hold;
        assert out + Fill([], m.ip) == out;
      }
      hold := hold - {m.process};
    }

    method Load(messages: seq<Message>)
      modifies this`hold, this`buff, this`out
      ensures State() == Buffer.Load(old(State()), messages)
    {
      for i := 0 to |messages|
        invariant State() == Buffer.Load(old(State()), messages[..i])
      {
        assert messages[..i + 1][..i] == messages[..i];
        var message := messages[i];
        if message.ip != "" {
          RegisterAndFree(message);
        } else {
          message := TryLoadIp(message);
        }
        out := out + [message];
      }
      assert messages[..|messages|] == messages;
    }

    /** Runs a filter over the batch, which is rewritten in place.  The report files what was caught
        by IP. */
    method Forward(f: Filter) returns (caught: map<string, seq<Message>>)
      modifies this`hold, this`buff, this`out
      ensures State() == Buffer.Forward(valid, f, old(State())).b
      ensures caught == GroupByIp(Buffer.Forward(valid, f, old(State())).caught)
      ensures Forwarded(valid, f, old(State()), State(), Buffer.Forward(valid, f, old(State())).caught)
    {
      ForwardOutcomes(valid, f, State());
      caught := Sweep(f);
    }

    /** The loop of `forward`. */
    method Sweep(f: Filter) returns (caught: map<string, seq<Message>>)
      modifies this`hold, this`buff, this`out
      ensures State() == Buffer.Forward(valid, f, old(State())).b
      ensures caught == GroupByIp(Buffer.Forward(valid, f, old(State())).caught)
    {
      caught := map[];
      ghost var batch, b := out, State();
      ghost var s := SweepAll(valid, f, b, []);
      assert GroupByIp([]) == map[];
      for i := 0 to |out|
        invariant |out| == |batch| && s == SweepAll(valid, f, b, batch[..i])
        invariant out == s.out + batch[i..]
        invariant hold == s.b.hold && buff == s.b.buff
        invariant caught == GroupByIp(s.caught)
      {
        Rewritten(s.out, batch, i);
        ghost var t := SweepAll(valid, f, b, batch[..i + 1]);
        var m, got := ForwardOne(f, out[i], b, batch, i);
        if got {
          GroupLast(s.caught, m);
          caught := File(caught, m);
        }
        out := out[i := m];
        assert out == t.out + batch[i + 1..];
        s := t;
      }
      assert batch[..|batch|] == batch;
      SweepFrame(valid, f, b, batch);
      SweepKeepsSwitch(valid, f, b, batch);
    }

    /** The loop body of `forward`: what becomes of message `i` of the batch. */
    method ForwardOne(f: Filter, m: Message, ghost b: Buf, ghost batch: seq<Message>, ghost i: nat) returns (r: Message, got: bool)
      requires i < |batch| && m == batch[i] && b.enableCache == enableCache
      requires hold == SweepAll(valid, f, b, batch[..i]).b.hold && buff == SweepAll(valid, f, b, batch[..i]).b.buff
      modifies this`hold, this`buff
      ensures var s, t := SweepAll(valid, f, b, batch[..i]), SweepAll(valid, f, b, batch[..i + 1]);
        && hold == t.b.hold && buff == t.b.buff
        && t.out == s.out + [r]
        && t.caught == if got then s.caught + [r] else s.caught
    {
      ghost var s := SweepAll(valid, f, b, batch[..i]);
      assert batch[..i + 1][..i] == batch[..i];
      SweepKeepsSwitch(valid, f, b, batch[..i]);
      FateSame(f, m, s.b);
      r, got := m, false;
      var c := Ask(f, m, 0);
      var checked := c.result;
      if checked.None? {
        return;
      }
      var ip := checked.value.ip;
      if checked.value.error {
        if !enableCache {
          return;
        }
        if m.process in buff {
          ip := buff[m.process].ip;
        } else {
          var held := if m.process in hold then hold[m.process] else Held([], 0);
          hold := hold[m.process := Held(held.msg + [m], held.failedChecks)];
          return;
        }
      }
      if ip != "" {
        if !valid(ip) {
          return;
        }
        r := m.(ip := ip);
        RegisterMessage(r);
        got := true;
      }
    }

    /** What a filter does with a message does not depend on the batch. */
    lemma FateSame(f: Filter, m: Message, b: Buf)
      requires hold == b.hold && buff == b.buff && enableCache == b.enableCache
      ensures FateOf(valid, f, State(), m) == FateOf(valid, f, b, m)
    {
    }

    method Done()
      modifies this`hold, this`buff, this`out
      ensures State() == Buffer.Done(old(State()))
      ensures out == []
      ensures !enableCache ==> hold == old(hold) && buff == old(buff)
      ensures enableCache ==>
        && hold == (map p | p in old(hold) && old(hold)[p].failedChecks + 1 < 5 :: Held(old(hold)[p].msg, old(hold)[p].failedChecks + 1))
        && buff == (map p | p in old(buff) && old(buff)[p].passedCycles + 1 < 5 :: Known(old(buff)[p].ip, old(buff)[p].passedCycles + 1))
    {
      out := [];
      if !enableCache {
        return;
      }
      AgeAll();
      hold := map p | p in hold && hold[p].failedChecks < MAX_AGE :: hold[p];
      buff := map p | p in buff && buff[p].passedCycles < MAX_AGE :: buff[p];
      assert hold == AgeHold(old(hold));
      assert buff == AgeBuff(old(buff));
    }

    /** The two counting loops of `done`. */
    method AgeAll()
      modifies this`hold, this`buff
      ensures hold == map p | p in old(hold) :: Held(old(hold)[p].msg, old(hold)[p].failedChecks + 1)
      ensures buff == map p | p in old(buff) :: Known(old(buff)[p].ip, old(buff)[p].passedCycles + 1)
    {
      var rest := hold.Keys;
      while rest != {}
        invariant rest <= hold.Keys == old(hold).Keys
        invariant forall p :: p in hold ==>
          hold[p] == if p in rest then old(hold)[p] else Held(old(hold)[p].msg, old(hold)[p].failedChecks + 1)
        invariant buff == old(buff)
        decreases rest
      {
        var p :| p in rest;
        rest := rest - {p};
        hold := hold[p := Held(hold[p].msg, hold[p].failedChecks + 1)];
      }
      ghost var aged := hold;
      rest := buff.Keys;
      while rest != {}
        invariant rest <= buff.Keys == old(buff).Keys
        invariant forall p :: p in buff ==>
          buff[p] == if p in rest then old(buff)[p] else Known(old(buff)[p].ip, old(buff)[p].passedCycles + 1)
        invariant hold == aged
        decreases rest
      {
        var p :| p in rest;
        rest := rest - {p};
        buff := buff[p := Known(buff[p].ip, buff[p].passedCycles + 1)];
      }
    }
  }

  /** Rewriting the next message of the batch in place. */
  lemma Rewritten(done: seq<Message>, batch: seq<Message>, i: nat)
    requires |done| == i < |batch|
    ensures (done + batch[i..])[i] == batch[i]
    ensures forall m :: (done + batch[i..])[i := m] == (done + [m]) + batch[i + 1..]
  {
    forall m ensures (done + batch[i..])[i := m] == (done + [m]) + batch[i + 1..] {
    }
  }

  /** A sweep leaves the batch of the buffer itself alone. */
  lemma {:induction false} SweepFrame(valid: Validity, f: Filter, b: Buf, ms: seq<Message>)
    ensures SweepAll(valid, f, b, ms).b.out == b.out
  {
    if ms != [] {
      SweepFrame(valid, f, b, ms[..|ms| - 1]);
    }
  }
}
