/** With the cache off, running filter by filter over a batch and running message by message through
    all filters catch the same. */
module BufferInterchange {
  import opened Messages
  import opened Filters
  import opened Buffer

  /** The batch behind some filters, and everything they caught, in order. */
  datatype Cascaded = Cascaded(b: Buf, caught: seq<Message>)

  function Cascade(valid: Validity, filters: seq<Filter>, b: Buf): Cascaded {
    if filters == [] then Cascaded(b, [])
    else
      var before := Cascade(valid, filters[..|filters| - 1], b);
      var s := Forward(valid, filters[|filters| - 1], before.b);
      Cascaded(s.b, before.caught + s.caught)
  }

  /** `Watcher::process`: load the batch, run the filters in order, finish the cycle. */
  function Processed(valid: Validity, filters: seq<Filter>, b: Buf, ms: seq<Message>): Cascaded {
    var c := Cascade(valid, filters, Load(b, ms));
    Cascaded(Done(c.b), c.caught)
  }

  // ----- One message on its own -----

  /** A message behind some filters, under the IP it has acquired, and what was caught of it. */
  datatype Threaded = Threaded(m: Message, caught: seq<Message>)

  function Step(valid: Validity, f: Filter, m: Message): Threaded {
    var fate := FateOf(valid, f, Empty(false), m);
    if fate.Caught? then Threaded(m.(ip := fate.ip), [m.(ip := fate.ip)]) else Threaded(m, [])
  }

  function Thread(valid: Validity, filters: seq<Filter>, m: Message): Threaded {
    if filters == [] then Threaded(m, [])
    else
      var before := Thread(valid, filters[..|filters| - 1], m);
      var now := Step(valid, filters[|filters| - 1], before.m);
      Threaded(now.m, before.caught + now.caught)
  }

  /** Every message taken through all the filters before the next. */
  function OneByOne(valid: Validity, filters: seq<Filter>, ms: seq<Message>): (r: Threadeds)
    ensures |r.ms| == |ms|
  {
    if ms == [] then Threadeds([], [])
    else
      var before := OneByOne(valid, filters, ms[..|ms| - 1]);
      var t := Thread(valid, filters, ms[|ms| - 1]);
      Threadeds(before.ms + [t.m], before.caught + t.caught)
  }

  datatype Threadeds = Threadeds(ms: seq<Message>, caught: seq<Message>)

  // ----- The interchange -----

  lemma FateWithoutCache(valid: Validity, f: Filter, b: Buf, m: Message)
    requires !b.enableCache
    ensures FateOf(valid, f, b, m) == FateOf(valid, f, Empty(false), m)
    ensures !FateOf(valid, f, b, m).Pushed?
  {
  }

  /** One filter over a batch is one filter over each message. */
  lemma {:induction false} SweepApart(valid: Validity, f: Filter, b: Buf, ms: seq<Message>)
    requires !b.enableCache
    ensures var s, t := SweepAll(valid, f, b, ms), OneByOne(valid, [f], ms);
      s.b == b && s.out == t.ms && s.caught == t.caught
  {
    if ms != [] {
      var init, m := ms[..|ms| - 1], ms[|ms| - 1];
      SweepApart(valid, f, b, init);
      FateWithoutCache(valid, f, b, m);
      assert Thread(valid, [f][..0], m) == Threaded(m, []);
      assert Thread(valid, [f], m) == Step(valid, f, m) by {
        assert [] + Step(valid, f, m).caught == Step(valid, f, m).caught;
      }
    }
  }

  /** One more filter, message by message. */
  lemma {:induction false} OneMoreFilter(valid: Validity, filters: seq<Filter>, f: Filter, ms: seq<Message>)
    ensures var before := OneByOne(valid, filters, ms);
      var after, last := OneByOne(valid, filters + [f], ms), OneByOne(valid, [f], before.ms);
      after.ms == last.ms && multiset(after.caught) == multiset(before.caught) + multiset(last.caught)
  {
    if ms != [] {
      var init, m := ms[..|ms| - 1], ms[|ms| - 1];
      OneMoreFilter(valid, filters, f, init);
      var t := Thread(valid, filters, m);
      assert (filters + [f])[..|filters|] == filters;
      assert OneByOne(valid, filters, ms).ms[..|init|] == OneByOne(valid, filters, init).ms;
      assert Thread(valid, [f], t.m) == Step(valid, f, t.m) by {
        assert [f][..0] == [];
        assert [] + Step(valid, f, t.m).caught == Step(valid, f, t.m).caught;
      }
    }
  }

  lemma {:induction false} CascadeApart(valid: Validity, filters: seq<Filter>, b: Buf)
    requires !b.enableCache
    ensures var c, t := Cascade(valid, filters, b), OneByOne(valid, filters, b.out);
      c.b == b.(out := t.ms) && multiset(c.caught) == multiset(t.caught)
  {
    if filters == [] {
      NoFilters(valid, b.out);
    } else {
      var init, f := filters[..|filters| - 1], filters[|filters| - 1];
      CascadeApart(valid, init, b);
      var before := Cascade(valid, init, b).b;
      SweepApart(valid, f, before, before.out);
      OneMoreFilter(valid, init, f, b.out);
      assert filters == init + [f];
    }
  }

  lemma {:induction false} NoFilters(valid: Validity, ms: seq<Message>)
    ensures OneByOne(valid, [], ms) == Threadeds(ms, [])
  {
    if ms != [] {
      NoFilters(valid, ms[..|ms| - 1]);
      assert ms == ms[..|ms| - 1] + [ms[|ms| - 1]];
    }
  }

  lemma {:induction false} LoadWithoutCache(b: Buf, ms: seq<Message>)
    requires !b.enableCache
    ensures Load(b, ms) == b.(out := b.out + ms)
  {
    if ms == [] {
      assert b.out + [] == b.out;
    } else {
      LoadWithoutCache(b, ms[..|ms| - 1]);
      assert b.out + ms == b.out + ms[..|ms| - 1] + [ms[|ms| - 1]];
    }
  }

  /** With the cache off, `process` over a batch catches under every IP, as a multiset, what each
      message alone would be caught with, threading the IP it acquires through the filters; the buffer
      is left as it was. */
  lemma ProcessApart(valid: Validity, filters: seq<Filter>, b: Buf, ms: seq<Message>)
    requires !b.enableCache && b.out == []
    ensures Processed(valid, filters, b, ms).b == b
    ensures multiset(Processed(valid, filters, b, ms).caught) == multiset(OneByOne(valid, filters, ms).caught)
    ensures forall ip :: multiset(OfIp(Processed(valid, filters, b, ms).caught, ip))
                         == multiset(OfIp(OneByOne(valid, filters, ms).caught, ip))
  {
    LoadWithoutCache(b, ms);
    assert [] + ms == ms;
    CascadeApart(valid, filters, Load(b, ms));
    forall ip ensures multiset(OfIp(Processed(valid, filters, b, ms).caught, ip))
                      == multiset(OfIp(OneByOne(valid, filters, ms).caught, ip))
    {
      SameGroups(Processed(valid, filters, b, ms).caught, OneByOne(valid, filters, ms).caught, ip);
    }
  }

  lemma {:induction false} OneByOneSplits(valid: Validity, filters: seq<Filter>, one: seq<Message>, two: seq<Message>)
    ensures OneByOne(valid, filters, one + two).caught == OneByOne(valid, filters, one).caught + OneByOne(valid, filters, two).caught
    decreases |two|
  {
    if two == [] {
      assert one + two == one;
    } else {
      var init := two[..|two| - 1];
      assert (one + two)[..|one + two| - 1] == one + init;
      OneByOneSplits(valid, filters, one, init);
    }
  }

  /** So the reports of two batches add up, for every IP, to the report of the two batches in one. */
  lemma ProcessSplits(valid: Validity, filters: seq<Filter>, b: Buf, one: seq<Message>, two: seq<Message>, ip: string)
    requires !b.enableCache && b.out == []
    ensures multiset(OfIp(Processed(valid, filters, b, one + two).caught, ip))
            == multiset(OfIp(Processed(valid, filters, b, one).caught, ip))
               + multiset(OfIp(Processed(valid, filters, b, two).caught, ip))
  {
    ProcessApart(valid, filters, b, one + two);
    ProcessApart(valid, filters, b, one);
    ProcessApart(valid, filters, b, two);
    OneByOneSplits(valid, filters, one, two);
    OfIpConcat(OneByOne(valid, filters, one).caught, OneByOne(valid, filters, two).caught, ip);
  }
}
