/** A watcher runs its filters over a batch and merges what they catch. */
module Watching {
  import opened Messages
  import opened Filters
  import opened Buffer
  import opened BufferInterchange
  import opened Buffering

  type Report = map<string, seq<Message>>

  // ----- Merging -----

  function Merged(one: Report, two: Report): Report {
    map ip | ip in one.Keys + two.Keys :: ListFor(one, ip) + ListFor(two, ip)
  }

  lemma IpsConcat(one: seq<Message>, two: seq<Message>)
    ensures Ips(one + two) == Ips(one) + Ips(two)
  {
    assert forall m :: m in one + two <==> m in one || m in two;
  }

  lemma MergedAt(one: seq<Message>, two: seq<Message>, ip: string)
    ensures OfIp(one + two, ip) == ListFor(GroupByIp(one), ip) + ListFor(GroupByIp(two), ip)
  {
    OfIpConcat(one, two, ip);
    FiledInGroup(one, ip);
    FiledInGroup(two, ip);
  }

  /** Merging two reports is grouping the two lists one after the other. */
  lemma MergeGroups(one: seq<Message>, two: seq<Message>)
    ensures Merged(GroupByIp(one), GroupByIp(two)) == GroupByIp(one + two)
  {
    IpsConcat(one, two);
    forall ip | ip in Ips(one + two)
      ensures Merged(GroupByIp(one), GroupByIp(two))[ip] == GroupByIp(one + two)[ip]
    {
      MergedAt(one, two, ip);
    }
    SameReport(Merged(GroupByIp(one), GroupByIp(two)), GroupByIp(one + two));
  }

  /** The inner loop of `process`. */
  method Merge(out: Report, intermediate: Report) returns (r: Report)
    requires forall ip :: ip in intermediate ==> intermediate[ip] != []
    ensures r == Merged(out, intermediate)
  {
    r := out;
    var rest := intermediate.Keys;
    while rest != {}
      invariant rest <= intermediate.Keys
      invariant forall ip :: ip in r <==> ip in out || (ip in intermediate && ip !in rest)
      invariant forall ip :: ip in r ==>
        r[ip] == ListFor(out, ip) + if ip in intermediate && ip !in rest then intermediate[ip] else []
      decreases rest
    {
      var k :| k in rest;
      rest := rest - {k};
      if k in r {
        r := r[k := r[k] + intermediate[k]];
      } else {
        r := r[k := intermediate[k]];
      }
    }
    forall ip | ip in r ensures r[ip] == Merged(out, intermediate)[ip] {
      assert ListFor(out, ip) + ListFor(intermediate, ip) == r[ip];
    }
    SameReport(r, Merged(out, intermediate));
  }

  // ----- process -----

  lemma CascadeLast(valid: Validity, filters: seq<Filter>, b: Buf, i: nat)
    requires i < |filters|
    ensures var before := Cascade(valid, filters[..i], b);
      var s := Buffer.Forward(valid, filters[i], before.b);
      Cascade(valid, filters[..i + 1], b) == Cascaded(s.b, before.caught + s.caught)
  {
    assert filters[..i + 1][..i] == filters[..i];
  }

  /** For every IP, the messages caught under it: filter by filter, in order. */
  method Process(filters: seq<Filter>, messages: seq<Message>, buff: MessageBuffer) returns (out: Report)
    modifies buff
    ensures buff.State() == Processed(buff.valid, filters, old(buff.State()), messages).b
    ensures out == GroupByIp(Processed(buff.valid, filters, old(buff.State()), messages).caught)
    ensures buff.out == []
  {
    ghost var b := Load(buff.State(), messages);
    buff.Load(messages);
    out := map[];
    ghost var caught: seq<Message> := [];
    assert GroupByIp(caught) == map[];
    for i := 0 to |filters|
      invariant Cascade(buff.valid, filters[..i], b) == Cascaded(buff.State(), caught)
      invariant out == GroupByIp(caught)
    {
      CascadeLast(buff.valid, filters, b, i);
      ghost var more := Buffer.Forward(buff.valid, filters[i], buff.State()).caught;
      GroupSound(more);
      MergeGroups(caught, more);
      var intermediate := buff.Forward(filters[i]);
      out := Merge(out, intermediate);
      caught := caught + more;
    }
    assert filters[..|filters|] == filters;
    buff.Done();
  }

  // ----- process as a run of the buffer -----

  function Forwards(filters: seq<Filter>): (r: seq<Op>)
    ensures |r| == |filters| && forall i :: 0 <= i < |r| ==> r[i] == ForwardOp(filters[i])
  {
    if filters == [] then [] else Forwards(filters[..|filters| - 1]) + [ForwardOp(filters[|filters| - 1])]
  }

  function ProcessOps(filters: seq<Filter>, ms: seq<Message>): seq<Op> {
    [LoadOp(ms)] + Forwards(filters) + [DoneOp]
  }

  lemma RunLast(valid: Validity, b: Buf, ops: seq<Op>, op: Op)
    ensures Run(valid, b, ops + [op]) == Buffer.Next(valid, Run(valid, b, ops), op)
    ensures CaughtIn(valid, b, ops + [op]) == CaughtIn(valid, b, ops) + CaughtBy(valid, Run(valid, b, ops), op)
  {
    assert (ops + [op])[..|ops|] == ops;
  }

  lemma {:induction false} CascadeIsRun(valid: Validity, filters: seq<Filter>, b: Buf, ms: seq<Message>)
    ensures var c := Cascade(valid, filters, Load(b, ms));
      Run(valid, b, [LoadOp(ms)] + Forwards(filters)) == c.b && CaughtIn(valid, b, [LoadOp(ms)] + Forwards(filters)) == c.caught
  {
    if filters == [] {
      RunLast(valid, b, [], LoadOp(ms));
      assert [LoadOp(ms)] + [] == [] + [LoadOp(ms)];
    } else {
      var init, f := filters[..|filters| - 1], filters[|filters| - 1];
      CascadeIsRun(valid, init, b, ms);
      RunLast(valid, b, [LoadOp(ms)] + Forwards(init), ForwardOp(f));
      assert [LoadOp(ms)] + Forwards(filters) == [LoadOp(ms)] + Forwards(init) + [ForwardOp(f)];
    }
  }

  /** `process` is a run of the buffer, so everything proved about runs holds of any sequence of calls. */
  lemma ProcessIsRun(valid: Validity, filters: seq<Filter>, b: Buf, ms: seq<Message>)
    ensures Processed(valid, filters, b, ms).b == Run(valid, b, ProcessOps(filters, ms))
    ensures Processed(valid, filters, b, ms).caught == CaughtIn(valid, b, ProcessOps(filters, ms))
  {
    CascadeIsRun(valid, filters, b, ms);
    RunLast(valid, b, [LoadOp(ms)] + Forwards(filters), DoneOp);
    assert Cascade(valid, filters, Load(b, ms)).caught + [] == Cascade(valid, filters, Load(b, ms)).caught;
  }
}
