/** What a filter does with every message of a batch, from the patterns and the buffer alone. */
module BufferOutcome {
  import opened Options
  import opened Messages
  import opened Filters
  import opened Buffer

  // ----- One message -----

  /** The message is caught under this IP: it carries it from now on, and its process is known by it. */
  predicate CaughtUnder(s: Sweep, m: Message, ip: string, s': Sweep) {
    var m' := m.(ip := ip);
    && s'.out == s.out + [m'] && s'.caught == s.caught + [m'] && s'.pushed == s.pushed
    && s'.b == s.b.(buff := if s.b.enableCache then s.b.buff[m.process := Known(ip, 0)] else s.b.buff)
  }

  /** The message joins the others of its process that wait for an IP. */
  predicate PutOnHold(s: Sweep, m: Message, s': Sweep) {
    && s'.out == s.out + [m] && s'.caught == s.caught && s'.pushed == s.pushed + [m]
    && s'.b.buff == s.b.buff && s'.b.out == s.b.out && s'.b.enableCache == s.b.enableCache
    && s'.b.hold.Keys == s.b.hold.Keys + {m.process}
    && (forall p :: p in s.b.hold && p != m.process ==> s'.b.hold[p] == s.b.hold[p])
    && s'.b.hold[m.process] ==
         if m.process in s.b.hold then Held(s.b.hold[m.process].msg + [m], s.b.hold[m.process].failedChecks)
         else Held([m], 0)
  }

  predicate LeftAlone(s: Sweep, m: Message, s': Sweep) {
    s' == Sweep(s.b, s.out + [m], s.caught, s.pushed)
  }

  predicate CaughtIfValid(valid: Validity, s: Sweep, m: Message, ip: string, s': Sweep) {
    if ip != "" && valid(ip) then CaughtUnder(s, m, ip, s') else LeftAlone(s, m, s')
  }

  /** A match with this capture.  The captured IP counts, or the message's own if nothing was captured;
      only if that is empty, and the cache is on, does the process's known IP, or the hold if it has
      none. */
  predicate MatchOutcome(valid: Validity, captured: Option<string>, s: Sweep, m: Message, s': Sweep) {
    var ip := if captured.Some? then captured.value else m.ip;
    if ip != "" then CaughtIfValid(valid, s, m, ip, s')
    else if !s.b.enableCache then LeftAlone(s, m, s')
    else if m.process in s.b.buff then CaughtIfValid(valid, s, m, s.b.buff[m.process].ip, s')
    else PutOnHold(s, m, s')
  }

  /** The first pattern that hits decides. */
  ghost predicate Outcome(valid: Validity, hs: seq<Match>, s: Sweep, m: Message, s': Sweep) {
    && (forall k: nat :: FirstHitAt(hs, 0, k) ==> MatchOutcome(valid, hs[k].ip, s, m, s'))
    && (NoHit(hs, 0) ==> LeftAlone(s, m, s'))
  }

  lemma {:induction false} SomeOrNone(hs: seq<Match>, from: nat)
    requires from <= |hs|
    ensures NoHit(hs, from) || exists k: nat :: FirstHitAt(hs, from, k)
    decreases |hs| - from
  {
    if from < |hs| {
      if hs[from].Hit? {
        assert FirstHitAt(hs, from, from);
      } else {
        var next := from + 1;
        SomeOrNone(hs, next);
        if k: nat :| FirstHitAt(hs, next, k) {
          assert FirstHitAt(hs, from, k);
        }
      }
    }
  }

  lemma FateDecides(valid: Validity, captured: Option<string>, f: Filter, s: Sweep, m: Message, k: nat)
    requires AnswerAt(captured, m, 0, k, Check(f, m, 0))
    ensures MatchOutcome(valid, captured, s, m, SweepOne(valid, f, s, m))
  {
  }

  lemma SweepOneOutcome(valid: Validity, f: Filter, s: Sweep, m: Message)
    ensures Outcome(valid, Replies(f, m.text), s, m, SweepOne(valid, f, s, m))
  {
    var hs := Replies(f, m.text);
    CheckAnswers(f, m, 0, 0);
    SomeOrNone(hs, 0);
    if k: nat :| FirstHitAt(hs, 0, k) {
      OnlyFirstHit(hs, 0, k);
      FateDecides(valid, hs[k].ip, f, s, m, k);
    }
  }

  // ----- The whole batch -----

  /** The states behind every message of the batch, from none to all. */
  ghost predicate Trail(valid: Validity, f: Filter, b: Buf, trail: seq<Sweep>) {
    && |trail| == |b.out| + 1
    && trail[0] == Sweep(b, [], [], [])
    && forall i :: 0 <= i < |b.out| ==> Outcome(valid, Replies(f, b.out[i].text), trail[i], b.out[i], trail[i + 1])
  }

  /** The buffer and the report a trail ends in. */
  ghost predicate EndsIn(trail: seq<Sweep>, b: Buf, caught: seq<Message>) {
    && trail != []
    && var last := trail[|trail| - 1];
       b == last.b.(out := last.out) && caught == last.caught
  }

  /** A filter took the buffer from `b` to `b'` and caught these messages. */
  ghost predicate Forwarded(valid: Validity, f: Filter, b: Buf, b': Buf, caught: seq<Message>) {
    exists trail :: Trail(valid, f, b, trail) && EndsIn(trail, b', caught)
  }

  lemma SweepNext(valid: Validity, f: Filter, b: Buf, ms: seq<Message>, i: nat)
    requires i < |ms|
    ensures SweepAll(valid, f, b, ms[..i + 1]) == SweepOne(valid, f, SweepAll(valid, f, b, ms[..i]), ms[i])
  {
    assert ms[..i + 1][..i] == ms[..i];
  }

  /** `forward` takes every message of the batch in turn, each at the buffer the ones before it left. */
  lemma ForwardOutcomes(valid: Validity, f: Filter, b: Buf)
    ensures Forwarded(valid, f, b, Forward(valid, f, b).b, Forward(valid, f, b).caught)
  {
    var trail := seq(|b.out| + 1, i requires 0 <= i <= |b.out| => SweepAll(valid, f, b, b.out[..i]));
    forall i | 0 <= i < |b.out|
      ensures Outcome(valid, Replies(f, b.out[i].text), trail[i], b.out[i], trail[i + 1])
    {
      SweepNext(valid, f, b, b.out, i);
      SweepOneOutcome(valid, f, trail[i], b.out[i]);
    }
    assert b.out[..|b.out|] == b.out;
    assert Trail(valid, f, b, trail) && EndsIn(trail, Forward(valid, f, b).b, Forward(valid, f, b).caught);
  }
}
