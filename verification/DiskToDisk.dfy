/** One run of the whole server with a sending and a receiving client: what the sender had
    on disk is what the receiver has on disk. */
module DiskToDisk {
  import opened Basics
  import opened Messages
  import opened Storage
  import opened Transfers
  import opened Protocol
  import opened SendQueue
  import opened ServerSystem
  import opened EndToEnd
  import Server
  import ServerRuns
  import Relay
  import Receiver
  import Sender
  import Delivery

  /* ------------------------------------------------------------- the rest of a run */

  lemma {:induction false} EventsBefore(files: Files, now: int, c: Codec, g: Config, max: nat, events: seq<Event>,
                                        p: nat)
    requires p <= |events|
    ensures ServerEvents(files, now, c, g, max, events[..p]) <= ServerEvents(files, now, c, g, max, events)
  {
    if p < |events| {
      hide Enabled, RunSystem, ServerPart;
      var init := events[..|events| - 1];
      assert init[..p] == events[..p];
      EventsBefore(files, now, c, g, max, init, p);
    } else {
      assert events[..p] == events;
    }
  }

  /** What the storage sees of a run after its first `p` events. */
  ghost function EventsAfter(files: Files, now: int, c: Codec, g: Config, max: nat, events: seq<Event>, p: nat)
    : seq<Server.Event>
    requires p <= |events|
  {
    EventsBefore(files, now, c, g, max, events, p);
    ServerEvents(files, now, c, g, max, events)[|ServerEvents(files, now, c, g, max, events[..p])|..]
  }

  lemma {:induction false} RunSplit(srv: Server.Server, g: Config, a: seq<Server.Event>, b: seq<Server.Event>)
    ensures ServerRuns.Run(srv, g, a + b) == ServerRuns.Run(ServerRuns.Run(srv, g, a), g, b)
  {
    if b == [] {
      assert a + b == a;
    } else {
      hide Server.Next, Server.Enabled;
      var init, e := b[..|b| - 1], b[|b| - 1];
      RunSplit(srv, g, a, init);
      assert b == init + [e];
      Assoc(a, init, [e]);
      ServerRunSnoc(srv, g, a + init, e);
      ServerRunSnoc(ServerRuns.Run(srv, g, a), g, init, e);
    }
  }

  /** The storage at the end of a run, from where it was after `p` events. */
  lemma RestOfRun(files: Files, now: int, c: Codec, g: Config, max: nat, events: seq<Event>, p: nat)
    requires p <= |events|
    ensures RunSystem(files, now, c, g, max, events).srv
            == ServerRuns.Run(RunSystem(files, now, c, g, max, events[..p]).srv, g,
                              EventsAfter(files, now, c, g, max, events, p))
  {
    hide RunSystem, ServerEvents, ServerRuns.Run;
    var before, all := ServerEvents(files, now, c, g, max, events[..p]), ServerEvents(files, now, c, g, max, events);
    BothViews(files, now, c, g, max, events);
    BothViews(files, now, c, g, max, events[..p]);
    EventsBefore(files, now, c, g, max, events, p);
    assert all == before + all[|before|..];
    RunSplit(ServerRuns.Started(files, now), g, before, all[|before|..]);
  }

  lemma {:induction false} StampsCarryOver(files: Files, now: int, c: Codec, g: Config, max: nat, events: seq<Event>)
    requires StampsMovedOn(files, events)
    ensures ServerRuns.StampsMovedOn(files, ServerEvents(files, now, c, g, max, events))
  {
    hide Server.StampFresh, RunSystem, Enabled, View;
    if events != [] {
      var init, e := events[..|events| - 1], events[|events| - 1];
      assert e in events;
      StampsCarryOver(files, now, c, g, max, init);
    }
  }

  /* ------------------------------------------------------------- logs only grow */

  lemma NextLogs(sys: System, c: Codec, g: Config, max: nat, e: Event, s: nat)
    requires Enabled(sys, c, g, e)
    ensures LogAt(sys.srv, s) <= LogAt(Next(sys, c, g, max, e).srv, s)
  {
    if e.Handle? {
      hide Server.Process, View, Forwarded, Validate;
      ProcessLogs(sys.srv, g, e.sid, View(e.j), e.authOk, e.env);
    } else {
      hide DropTransfers, Server.Settle, Relay.Next;
    }
  }

  lemma {:induction false} LogGrows(files: Files, now: int, c: Codec, g: Config, max: nat, events: seq<Event>, q: nat,
                                    s: nat)
    requires q <= |events|
    ensures LogAt(RunSystem(files, now, c, g, max, events[..q]).srv, s)
            <= LogAt(RunSystem(files, now, c, g, max, events).srv, s)
  {
    if q < |events| {
      hide Enabled, Next, LogAt;
      var init := events[..|events| - 1];
      assert init[..q] == events[..q];
      LogGrows(files, now, c, g, max, init, q, s);
      var before := RunSystem(files, now, c, g, max, init);
      if Enabled(before, c, g, events[|events| - 1]) {
        NextLogs(before, c, g, max, events[|events| - 1], s);
      }
    } else {
      assert events[..q] == events;
    }
  }

  lemma SentIsLogged(sys: System, c: Codec, g: Config, max: nat, inherited: set<Path>, s: nat)
    requires Inv(sys, c, g, max, inherited)
    ensures |Relay.At(sys.peers, s).broadcasts| <= |LogAt(sys.srv, s)|
  {
    hide Server.Inv, Relay.RelayInv, RepliesOk, Shows;
    assert InStep(sys, c, s);
  }

  /** What a session had broadcast by event `q` it had logged by any later event. */
  lemma BroadcastsWereLogged(files: Files, now: int, c: Codec, g: Config, max: nat, events: seq<Event>,
                             q: nat, p: nat, s: nat)
    requires RoundTrips(c) && StampsMovedOn(files, events) && q <= p <= |events|
    ensures BroadcastsBy(files, now, c, g, max, events, q, s)
            <= |LogAt(RunSystem(files, now, c, g, max, events[..p]).srv, s)|
  {
    hide Inv, RunSystem, RoundTrips, LogAt;
    assert events[..p][..q] == events[..q];
    SystemOk(files, now, c, g, max, events[..q]);
    SentIsLogged(RunSystem(files, now, c, g, max, events[..q]), c, g, max, files.Keys, s);
    LogGrows(files, now, c, g, max, events[..p], q, s);
  }

  /* ------------------------------------------------------------- the sender's file */

  /** From event `p` on session `s`, then authenticated, sends the script of `source`, each
      message of it in due course, and about its transfer nothing else that counts; other
      traffic is not restricted. */
  ghost predicate SendsFrom(files: Files, now: int, c: Codec, g: Config, max: nat, events: seq<Event>, p: nat, s: nat,
                            source: Sender.Source)
    requires p <= |events|
  {
    var srv, rest := RunSystem(files, now, c, g, max, events[..p]).srv, EventsAfter(files, now, c, g, max, events, p);
    && s in srv.sessions && srv.sessions[s].authenticated
    && (source.sha256 != "" ==> source.sha256 == g.sha256(source.content))
    && Delivery.Smooth(srv, g, rest, s, Sender.Script(source), Sender.Opening(source))
    && Delivery.Arrived(srv, g, rest, s, Sender.Script(source), Sender.Opening(source)) == |Sender.Script(source)|
  }

  /** In the run of the whole server that file is committed. */
  lemma SentFileCommitted(files: Files, now: int, c: Codec, g: Config, max: nat, events: seq<Event>, p: nat, s: nat,
                          source: Sender.Source)
    returns (i: nat)
    requires RoundTrips(c) && StampsMovedOn(files, events) && p <= |events|
    requires SendsFrom(files, now, c, g, max, events, p, s, source)
    ensures var srv := RunSystem(files, now, c, g, max, events).srv;
            && s in srv.sessions
            && Delivery.DeliveredAt(srv.sessions[s], |LogAt(RunSystem(files, now, c, g, max, events[..p]).srv, s)|, i,
                                    Sender.Opening(source), source.content)
  {
    hide RunSystem, ServerEvents, Delivery.Arrived, Delivery.Smooth, Delivery.CommittedAt, Delivery.OnlyCompletion;
    hide Sender.Script, RoundTrips, Server.Inv, InStep, Relay.RelayInv, ServerRuns.Run, Server.StampFresh;
    var srv, rest := RunSystem(files, now, c, g, max, events[..p]).srv, EventsAfter(files, now, c, g, max, events, p);
    SystemOk(files, now, c, g, max, events[..p]);
    RestOfRun(files, now, c, g, max, events, p);
    StampsCarryOver(files, now, c, g, max, events);
    Delivery.SenderServerRoundTrip(srv, g, files.Keys, rest, s, source);
    i :| Delivery.DeliveredAt(ServerRuns.Run(srv, g, rest).sessions[s], |srv.sessions[s].log|, i,
                              Sender.Opening(source), source.content);
  }

  /** The completion the client handles is the one that committed the file. */
  lemma SameTransfer(srv: Server.Server, g: Config, inherited: set<Path>, s: nat, base: nat, i: nat, k: nat,
                     joined: nat, source: Sender.Source, before: Receiver.Local, after: Receiver.Local)
    requires Server.Inv(srv, g, inherited) && s in srv.sessions && joined <= base <= k < |srv.sessions[s].log|
    requires Delivery.DeliveredAt(srv.sessions[s], base, i, Sender.Opening(source), source.content)
    requires srv.sessions[s].log[k] == TransferComplete(Sender.IdOf(source))
    requires Agree(srv, s, k, joined, before, after)
    ensures Rebuilt(before, after, |source.content|, source.content)
  {
    hide Server.Inv, StartIndex, Rebuilt;
    CommittedStart(srv, g, inherited, s, i);
  }

  /** From disk to disk. Session `r` registers, later session `s` sends a file, and `r`'s
      client handles the completion: then it saves a file equal to the sender's, octet for
      octet - just when it reads the declared size rightly or as zero. */
  lemma SourceReachesReceiver(files: Files, now: int, c: Codec, g: Config, max: nat, events: seq<Event>, q: nat, p: nat,
                              s: nat, r: nat, e: nat, chunks: seq<string>, source: Sender.Source,
                              present: Receiver.LocalFiles, items: seq<Receiver.Item>, last: Receiver.Item)
    requires RoundTrips(c) && StampsMovedOn(files, events) && q <= p <= |events|
    requires RegistersAt(files, now, c, g, max, events, q, r)
    requires SendsFrom(files, now, c, g, max, events, p, s, source)
    requires HandlesCompletion(RunSystem(files, now, c, g, max, events), c, g, s, r, e, chunks, present, items, last)
    requires last.m.id == Sender.IdOf(source)
    requires LogIndex(RunSystem(files, now, c, g, max, events), s, r, e)
             >= |LogAt(RunSystem(files, now, c, g, max, events[..p]).srv, s)|
    ensures Rebuilt(Receiver.Handled(present, items, g.sha256), Receiver.Handled(present, items + [last], g.sha256),
                    |source.content|, source.content)
  {
    hide Inv, RunSystem, RoundTrips, RegistersAt, SendsFrom, Agree, Rebuilt, Receiver.Handled, Delivery.DeliveredAt;
    var sys := RunSystem(files, now, c, g, max, events);
    CompletionFacts(sys, c, g, s, r, e, chunks, present, items, last);
    hide HandlesCompletion, LogIndex, LogAt;
    ReceiverEqualsServer(files, now, c, g, max, events, q, s, r, e, chunks, present, items, last);
    var i := SentFileCommitted(files, now, c, g, max, events, p, s, source);
    BroadcastsWereLogged(files, now, c, g, max, events, q, p, s);
    StorageInOrder(files, now, c, g, max, events);
    SameTransfer(sys.srv, g, files.Keys, s, |LogAt(RunSystem(files, now, c, g, max, events[..p]).srv, s)|, i,
                 LogIndex(sys, s, r, e), BroadcastsBy(files, now, c, g, max, events, q, s), source,
                 Receiver.Handled(present, items, g.sha256), Receiver.Handled(present, items + [last], g.sha256));
  }

  lemma CompletionFacts(sys: System, c: Codec, g: Config, s: nat, r: nat, e: nat, chunks: seq<string>,
                        present: Receiver.LocalFiles, items: seq<Receiver.Item>, last: Receiver.Item)
    requires HandlesCompletion(sys, c, g, s, r, e, chunks, present, items, last)
    ensures last.m.TransferComplete? && r in sys.peers && e < |sys.peers[r].outbox.accepted|
  {}

  lemma StorageInOrder(files: Files, now: int, c: Codec, g: Config, max: nat, events: seq<Event>)
    requires RoundTrips(c) && StampsMovedOn(files, events)
    ensures Server.Inv(RunSystem(files, now, c, g, max, events).srv, g, files.Keys)
  {
    hide Server.Inv, Relay.RelayInv, InStep, RunSystem, RoundTrips;
    SystemOk(files, now, c, g, max, events);
  }

  /* ------------------------------------------------------------- below two gigabytes */

  /** The client keeps the file. */
  predicate Kept(before: Receiver.Local, after: Receiver.Local, content: seq<byte>) {
    && |after.saved| == |before.saved| + 1
    && var f := after.saved[|before.saved|];
    f.content == content && f.path in after.files && after.files[f.path] == content
  }

  /** The file the completion at log position `k` committed, if it is whole and its opening
      is not among the first `joined` messages, is kept. */
  predicate KeptIfWhole(srv: Server.Server, s: nat, k: nat, joined: nat, before: Receiver.Local, after: Receiver.Local)
    requires s in srv.sessions && k < |srv.sessions[s].log| && srv.sessions[s].log[k].TransferComplete?
  {
    var (log, fates) := (srv.sessions[s].log, srv.sessions[s].fates);
    var i := StartIndex(log[..k], log[k].id);
    && i.Some? && i.value < k && log[i.value].TransferStart? && i.value in fates && fates[i.value].Committed?
    && fates[i.value].path in srv.files && srv.files[fates[i.value].path] == fates[i.value].content
    && (i.value >= joined && |fates[i.value].content| == log[i.value].size ==>
        Kept(before, after, fates[i.value].content))
  }

  lemma KeptWhenFit(srv: Server.Server, g: Config, s: nat, k: nat, joined: nat, before: Receiver.Local,
                    after: Receiver.Local)
    requires s in srv.sessions && k < |srv.sessions[s].log| && srv.sessions[s].log[k].TransferComplete?
    requires Agree(srv, s, k, joined, before, after)
    requires OpeningsFit(g, srv.sessions[s].log) && g.maxMessage < Receiver.TWO_32 / 2
    ensures KeptIfWhole(srv, s, k, joined, before, after)
  {
    hide StartIndex, Receiver.IntToSize;
    var log := srv.sessions[s].log;
    Receiver.SizeCheckIff(log[StartIndex(log[..k], log[k].id).value].size);
  }

  /** A server whose message limit is below two gigabytes, as both shipped servers are, never
      relays a size the client misreads: in every run a client that was there before the
      opening keeps what it rebuilds, and that is what the server committed. */
  lemma KeptBelowTwoGigabytes(files: Files, now: int, c: Codec, g: Config, max: nat, events: seq<Event>, q: nat,
                              s: nat, r: nat, e: nat, chunks: seq<string>,
                              present: Receiver.LocalFiles, items: seq<Receiver.Item>, last: Receiver.Item)
    requires RoundTrips(c) && StampsMovedOn(files, events) && RegistersAt(files, now, c, g, max, events, q, r)
    requires HandlesCompletion(RunSystem(files, now, c, g, max, events), c, g, s, r, e, chunks, present, items, last)
    requires g.maxMessage < Receiver.TWO_32 / 2
    ensures var sys := RunSystem(files, now, c, g, max, events);
            var k := LogIndex(sys, s, r, e);
            && s in sys.srv.sessions && k < |sys.srv.sessions[s].log| && sys.srv.sessions[s].log[k] == last.m
            && KeptIfWhole(sys.srv, s, k, BroadcastsBy(files, now, c, g, max, events, q, s),
                           Receiver.Handled(present, items, g.sha256),
                           Receiver.Handled(present, items + [last], g.sha256))
  {
    assert q <= |events|;
    hide RunSystem, RoundTrips, RegistersAt, Agree, KeptIfWhole, Receiver.Handled, OpeningsFit;
    var sys := RunSystem(files, now, c, g, max, events);
    CompletionFacts(sys, c, g, s, r, e, chunks, present, items, last);
    hide HandlesCompletion, LogIndex;
    ReceiverEqualsServer(files, now, c, g, max, events, q, s, r, e, chunks, present, items, last);
    OpeningsAlwaysFit(files, now, c, g, max, events, s);
    KeptWhenFit(sys.srv, g, s, LogIndex(sys, s, r, e), BroadcastsBy(files, now, c, g, max, events, q, s),
                Receiver.Handled(present, items, g.sha256), Receiver.Handled(present, items + [last], g.sha256));
  }
}
