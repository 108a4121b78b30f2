/** One turn of the daemon for one watcher: filter the polled messages by process, run the watcher's
    filters, log what they caught. */
module Pipeline {
  import opened Options
  import opened Messages
  import opened Filters
  import opened Buffer
  import opened Buffering
  import opened BufferInterchange
  import opened Watching
  import BufferBatch
  import BufferIsolation
  import opened Tables
  import Ledger
  import LedgerView
  import LedgerOrder
  import opened BanManagement

  datatype Watcher = Watcher(filters: seq<Filter>, process: Option<Process>, src: Ledger.Source)

  /** The messages a watcher gets to see. */
  function Share(w: Watcher, multiprocess: bool, messages: seq<Message>): seq<Message> {
    if multiprocess && w.process.Some? then BufferIsolation.Of(messages, w.process.value) else messages
  }

  /** `mine` are the messages at these places, which are all those of the process, in order. */
  ghost predicate Picks(places: seq<nat>, messages: seq<Message>, p: Process, mine: seq<Message>) {
    && |places| == |mine|
    && (forall k :: 0 <= k < |mine| ==> places[k] < |messages| && mine[k] == messages[places[k]] && mine[k].process == p)
    && (forall i, k :: 0 <= i < k < |places| ==> places[i] < places[k])
    && (forall i: nat :: i < |messages| && messages[i].process == p ==> i in places)
  }

  /** A watcher of one process sees, of a parser that serves several, just that process's messages; any
      other watcher sees them all. */
  ghost predicate Sees(w: Watcher, multiprocess: bool, messages: seq<Message>, mine: seq<Message>) {
    if multiprocess && w.process.Some? then exists places :: Picks(places, messages, w.process.value, mine)
    else mine == messages
  }

  lemma PickNext(places: seq<nat>, messages: seq<Message>, m: Message, p: Process, mine: seq<Message>)
    requires Picks(places, messages, p, mine)
    ensures m.process == p ==> Picks(places + [|messages|], messages + [m], p, mine + [m])
    ensures m.process != p ==> Picks(places, messages + [m], p, mine)
  {
    forall i: nat | i < |messages| + 1 && (messages + [m])[i].process == p
      ensures i in places + [|messages|] && (m.process != p ==> i in places)
    {
      if i < |messages| {
        assert messages[i].process == p && i in places;
      } else {
        assert (places + [|messages|])[|places|] == i;
      }
    }
  }

  lemma {:induction false} OfPicks(messages: seq<Message>, p: Process) returns (places: seq<nat>)
    ensures Picks(places, messages, p, BufferIsolation.Of(messages, p))
  {
    places := [];
    if messages != [] {
      var init, m := messages[..|messages| - 1], messages[|messages| - 1];
      places := OfPicks(init, p);
      assert messages == init + [m];
      PickNext(places, init, m, p, BufferIsolation.Of(init, p));
      BufferIsolation.AddedOnly(init, m, p);
      if m.process == p {
        places := places + [|init|];
      }
    }
  }

  lemma ShareSees(w: Watcher, multiprocess: bool, messages: seq<Message>)
    ensures Sees(w, multiprocess, messages, Share(w, multiprocess, messages))
  {
    if multiprocess && w.process.Some? {
      var places := OfPicks(messages, w.process.value);
    }
  }

  /** In the turn of a watcher of one process nothing of another process is caught. */
  lemma OwnProcessOnly(valid: Validity, w: Watcher, messages: seq<Message>, b: Buf, mine: seq<Message>, m: Message)
    requires w.process.Some? && Sees(w, true, messages, mine)
    requires BufferIsolation.Tidy(b) && b.out == [] && m in Processed(valid, w.filters, b, mine).caught
    ensures m.process == w.process.value
  {
    BufferBatch.CaughtOfGiven(valid, w.filters, b, mine, m);
    var given :| given in mine && given.process == m.process;
    var places :| Picks(places, messages, w.process.value, mine);
  }

  /** What `log` is told: the number of messages caught for each IP. */
  function Strikes(report: Report): map<Ip, nat> {
    var ips := set text | text in report :: Ip(text);
    map ip | ip in ips :: |ListFor(report, ip.text)|
  }

  /** A merged report never holds an IP without messages, so `log` never skips an IP for having none;
      each IP's number is that of its caught messages, and no caught message goes uncounted. */
  lemma StrikesPositive(caught: seq<Message>)
    ensures var strikes := Strikes(GroupByIp(caught));
      && (forall ip :: ip in strikes ==> strikes[ip] > 0 && strikes[ip] == |OfIp(caught, ip.text)|)
      && (forall m :: m in caught ==> Ip(m.ip) in strikes)
  {
    GroupSound(caught);
    forall ip | ip in Strikes(GroupByIp(caught))
      ensures Strikes(GroupByIp(caught))[ip] > 0 && Strikes(GroupByIp(caught))[ip] == |OfIp(caught, ip.text)|
    {
      FiledInGroup(caught, ip.text);
    }
  }

  method Polled(w: Watcher, multiprocess: bool, messages: seq<Message>) returns (mine: seq<Message>)
    ensures mine == Share(w, multiprocess, messages)
    ensures Sees(w, multiprocess, messages, mine)
  {
    ShareSees(w, multiprocess, messages);
    if multiprocess && w.process.Some? {
      mine := OfProcess(messages, w.process.value);
    } else {
      mine := messages;
    }
  }

  /** The loop that leaves out the other processes. */
  method OfProcess(messages: seq<Message>, p: Process) returns (mine: seq<Message>)
    ensures mine == BufferIsolation.Of(messages, p)
  {
    mine := [];
    for i := 0 to |messages|
      invariant mine == BufferIsolation.Of(messages[..i], p)
    {
      BufferIsolation.AddedOnly(messages[..i], messages[i], p);
      assert messages[..i + 1] == messages[..i] + [messages[i]];
      if messages[i].process == p {
        mine := mine + [messages[i]];
      }
    }
    assert messages[..|messages|] == messages;
  }

  /** What a turn logs: the strikes of everything `process` catches. */
  function TurnReport(valid: Validity, w: Watcher, multiprocess: bool, messages: seq<Message>, b: Buf): map<Ip, nat> {
    Strikes(GroupByIp(Processed(valid, w.filters, b, Share(w, multiprocess, messages)).caught))
  }

  /** The whole turn: the buffer ends where `process` leaves it, and the ledger has run one step for each
      IP caught, up to one that throws.  With the watcher's bouncer loaded none throws, and every order
      of the IPs leaves the same ledger.  Nothing caught, nothing logged. */
  method Turn(w: Watcher, multiprocess: bool, messages: seq<Message>, at: Ip -> int, buff: MessageBuffer, man: BanManager)
    returns (threw: bool, ghost order: seq<Ip>)
    modifies buff, man, man.db
    ensures buff.State() == Processed(buff.valid, w.filters, old(buff.State()), Share(w, multiprocess, messages)).b
    ensures Sees(w, multiprocess, messages, Share(w, multiprocess, messages))
    ensures var report := TurnReport(buff.valid, w, multiprocess, messages, old(buff.State()));
      && LedgerOrder.LoggedAs(man.conf, old(man.State()), w.src, at, report, order, man.State(), threw)
      && (!threw ==> LedgerOrder.Walks(order, report))
      && (report == map[] ==> man.State() == old(man.State()))
      && (LedgerView.Filed(old(man.State())) && w.src.bouncer in old(man.bouncers) ==>
            !threw && forall walk :: LedgerOrder.Walks(walk, report) ==>
              man.State() == Ledger.Run(man.conf, old(man.State()), LedgerOrder.LogSteps(w.src, at, report, walk)))
  {
    var mine := Polled(w, multiprocess, messages);
    var result := Watching.Process(w.filters, mine, buff);
    threw, order := LogCaught(w.src, at, result, man);
  }

  /** Logs a report, unless it is empty. */
  method LogCaught(src: Ledger.Source, at: Ip -> int, caught: Report, man: BanManager)
    returns (threw: bool, ghost order: seq<Ip>)
    modifies man, man.db
    ensures var report := Strikes(caught);
      && LedgerOrder.LoggedAs(man.conf, old(man.State()), src, at, report, order, man.State(), threw)
      && (!threw ==> LedgerOrder.Walks(order, report))
      && (report == map[] ==> man.State() == old(man.State()))
      && (LedgerView.Filed(old(man.State())) && src.bouncer in old(man.bouncers) ==>
            !threw && forall walk :: LedgerOrder.Walks(walk, report) ==>
              man.State() == Ledger.Run(man.conf, old(man.State()), LedgerOrder.LogSteps(src, at, report, walk)))
  {
    threw, order := false, [];
    StrikesOfAny(caught);
    if |caught| > 0 {
      threw, order := man.Log(src, at, Strikes(caught));
    } else {
      NothingLogged(man.conf, man.State(), src, at);
    }
  }

  /** The empty report has one walk, which does nothing. */
  lemma NothingLogged(cfg: Ledger.Config, w: Ledger.World, src: Ledger.Source, at: Ip -> int)
    ensures LedgerOrder.LoggedAs(cfg, w, src, at, map[], [], w, false)
    ensures forall walk :: LedgerOrder.Walks(walk, map[]) <==> walk == []
  {
    var report: map<Ip, nat> := map[];
    assert |report| == 0;
  }

  /** An empty report means no strikes, and only that does. */
  lemma StrikesOfAny(report: Report)
    ensures Strikes(report) == map[] <==> |report| == 0
  {
    if |report| != 0 {
      assert report.Keys != {};
      var text :| text in report.Keys;
      assert Ip(text) in Strikes(report);
    }
  }
}
