/** server_common/tcpserver.cpp and server_common/router.cpp under concurrency: every
    session's reader thread, writer thread and the router as one state machine whose steps
    interleave freely. A broadcast is one snapshot of the registered sessions followed by
    one separate `enqueue` per recipient. */
module Relay {
  import opened Basics
  import opened SendQueue
  import Router

  /** Connected; `auth_response` queued; registered with the router; unregistered. */
  datatype Phase = Fresh | Greeted | Member | Left

  /** `broadcasts` is the history of what this session's reader has broadcast, `pending`
      the recipients the last of these has not reached yet, `joinedAt` how many broadcasts
      each session had made when this one was registered. */
  datatype Peer = Peer(
    phase: Phase, outbox: Outbox, writing: bool,
    broadcasts: seq<string>, pending: set<nat>, joinedAt: map<nat, nat>)

  type Peers = map<nat, Peer>

  const NEW_PEER := Peer(Fresh, EMPTY_OUTBOX, true, [], {}, map[])

  datatype Step =
    | Connect(sid: nat)
    | Greet(sid: nat, reply: string)
    | Register(sid: nat)
    | Answer(sid: nat, reply: string)
    | Broadcast(sid: nat, payload: string)
    | Deliver(sid: nat, to: nat)
    | Close(sid: nat)
    | Leave(sid: nat)
    | TakeNext(sid: nat)
    | Send(sid: nat, n: nat)
    | Stop(sid: nat)

  function Members(peers: Peers): set<nat> {
    set r | r in peers && peers[r].phase.Member?
  }

  /** A reader is busy with its broadcast until every recipient had its turn. Anyone may
      close a session at any time, and a send may fail at any time; a session that never
      registered has nothing to leave. */
  predicate Enabled(peers: Peers, e: Step) {
    if e.Connect? then e.sid !in peers
    else
      && e.sid in peers
      && var p := peers[e.sid];
      match e
      case Greet(_, _) => p.phase.Fresh? && p.pending == {}
      case Register(_) => p.phase.Greeted? && p.pending == {}
      case Answer(_, _) => p.pending == {}
      case Broadcast(_, _) => p.phase.Member? && p.pending == {}
      case Deliver(_, to) => to in p.pending && to in peers && p.broadcasts != []
      case Leave(_) => p.phase.Member? && p.pending == {}
      case TakeNext(_) => p.writing && MayTake(p.outbox)
      case Send(_, n) => p.writing && 0 < n <= |p.outbox.inflight|
      case _ => true
  }

  function Offered(p: Peer, max: nat, e: Entry): Peer {
    p.(outbox := Offer(p.outbox, max, e))
  }

  function JoinCounts(peers: Peers): map<nat, nat> {
    map s | s in peers :: |peers[s].broadcasts|
  }

  function Next(peers: Peers, max: nat, e: Step): Peers
    requires Enabled(peers, e)
  {
    match e
    case Connect(s) => peers[s := NEW_PEER]
    case Greet(s, reply) => peers[s := Offered(peers[s], max, Entry(Greeting, reply)).(phase := Greeted)]
    case Register(s) => peers[s := peers[s].(phase := Member, joinedAt := JoinCounts(peers))]
    case Answer(s, reply) => peers[s := Offered(peers[s], max, Entry(Reply, reply))]
    case Broadcast(s, payload) =>
      peers[s := peers[s].(broadcasts := peers[s].broadcasts + [payload],
                           pending := Router.Recipients(Members(peers), s))]
    case Deliver(s, to) =>
      var p := peers[s];
      var q := peers[s := p.(pending := p.pending - {to})];
      q[to := Offered(q[to], max, Entry(From(s), p.broadcasts[|p.broadcasts| - 1]))]
    case Close(s) => peers[s := peers[s].(outbox := Shut(peers[s].outbox))]
    case Leave(s) => peers[s := peers[s].(phase := Left)]
    case TakeNext(s) => peers[s := peers[s].(outbox := Take(peers[s].outbox))]
    case Send(s, n) => peers[s := peers[s].(outbox := Transmit(peers[s].outbox, n))]
    case Stop(s) => peers[s := peers[s].(outbox := Shut(peers[s].outbox), writing := false)]
  }

  /** Steps that are not enabled change nothing. */
  function Run(max: nat, steps: seq<Step>): Peers {
    if steps == [] then map[]
    else
      var before, e := Run(max, steps[..|steps| - 1]), steps[|steps| - 1];
      if Enabled(before, e) then Next(before, max, e) else before
  }

  /** What one session's queue accepted of another's broadcasts. */
  function FromSender(entries: seq<Entry>, s: nat): seq<string> {
    if entries == [] then []
    else
      var e := entries[|entries| - 1];
      FromSender(entries[..|entries| - 1], s) + (if e.origin == From(s) then [e.payload] else [])
  }

  lemma FromSnoc(entries: seq<Entry>, e: Entry, s: nat)
    ensures FromSender(entries + [e], s) == FromSender(entries, s) + (if e.origin == From(s) then [e.payload] else [])
  {
    assert (entries + [e])[..|entries|] == entries;
  }

  function JoinedAt(p: Peer, s: nat): nat {
    if s in p.joinedAt then p.joinedAt[s] else 0
  }

  /* ------------------------------------------------------------- the invariant */

  /** Sender and recipient: what was accepted is a contiguous segment of the broadcasts
      from the registration on, and an open, registered recipient misses at most the
      broadcast still on its way to it. */
  predicate LinkOk(sent: seq<string>, waiting: bool, phase: Phase, closing: bool, got: seq<string>, joined: nat) {
    if phase.Fresh? || phase.Greeted? then got == [] && !waiting && joined == 0
    else
      && joined + |got| <= |sent| && got == sent[joined..joined + |got|]
      && (waiting ==> joined < |sent|)
      && (!closing && waiting ==> joined + |got| == |sent| - 1)
      && (!closing && !waiting && phase.Member? ==> joined + |got| == |sent|)
  }

  /** A session that has not connected yet has done nothing. */
  function At(peers: Peers, s: nat): Peer {
    if s in peers then peers[s] else NEW_PEER
  }

  predicate Linked(peers: Peers, s: nat, r: nat) {
    var p, q := At(peers, s), At(peers, r);
    if s == r then FromSender(q.outbox.accepted, s) == [] && r !in p.pending
    else LinkOk(p.broadcasts, r in p.pending, q.phase, q.outbox.closing, FromSender(q.outbox.accepted, s),
                JoinedAt(q, s))
  }

  /** The links from and to one session. */
  predicate LinkedBoth(peers: Peers, x: nat, r: nat) {
    Linked(peers, x, r) && Linked(peers, r, x)
  }

  predicate Greets(entries: seq<Entry>) {
    exists k :: 0 <= k < |entries| && entries[k].origin.Greeting?
  }

  /** No relayed payload before the greeting. */
  predicate Courteous(entries: seq<Entry>) {
    forall k | 0 <= k < |entries| && entries[k].origin.From? :: Greets(entries[..k])
  }

  predicate PeerOk(p: Peer, max: nat) {
    && OutboxOk(p.outbox, max)
    && Courteous(p.outbox.accepted)
    && (p.phase.Fresh? || p.outbox.closing || Greets(p.outbox.accepted))
  }

  ghost predicate RelayInv(peers: Peers, max: nat) {
    && (forall r <- peers :: PeerOk(peers[r], max))
    && (forall s: nat, r: nat :: Linked(peers, s, r))
  }

  /* ------------------------------------------------------------- one queue */

  lemma GreetsMore(entries: seq<Entry>, e: Entry)
    ensures Greets(entries + [e]) <==> Greets(entries) || e.origin.Greeting?
  {
    var more := entries + [e];
    if Greets(entries) {
      var k :| 0 <= k < |entries| && entries[k].origin.Greeting?;
      assert more[k] == entries[k];
    }
    assert more[|entries|] == e;
  }

  lemma CourteousMore(entries: seq<Entry>, e: Entry)
    requires Courteous(entries) && (e.origin.From? ==> Greets(entries))
    ensures Courteous(entries + [e])
  {
    var more := entries + [e];
    forall k | 0 <= k < |more| && more[k].origin.From? ensures Greets(more[..k]) {
      assert more[..k] == if k < |entries| then entries[..k] else entries;
    }
  }

  /** Offering keeps a queue in order; a relayed payload is accepted only by an open
      queue, and an open queue of a registered session has its greeting. */
  lemma OfferedOk(p: Peer, max: nat, e: Entry)
    requires PeerOk(p, max) && (e.origin.From? ==> !p.phase.Fresh?)
    ensures PeerOk(Offered(p, max, e), max)
    ensures e.origin.Greeting? ==> PeerOk(Offered(p, max, e).(phase := Greeted), max)
  {
    OfferOk(p.outbox, max, e);
    if !Refuses(p.outbox, max, e.payload) {
      GreetsMore(p.outbox.accepted, e);
      CourteousMore(p.outbox.accepted, e);
    }
  }

  lemma WriterOk(p: Peer, max: nat, n: nat)
    requires PeerOk(p, max)
    ensures MayTake(p.outbox) ==> PeerOk(p.(outbox := Take(p.outbox)), max)
    ensures n <= |p.outbox.inflight| ==> PeerOk(p.(outbox := Transmit(p.outbox, n)), max)
    ensures PeerOk(p.(outbox := Shut(p.outbox)), max)
  {
    if MayTake(p.outbox) { TakeOk(p.outbox, max); }
    if n <= |p.outbox.inflight| { TransmitOk(p.outbox, max, n); }
  }

  /* ------------------------------------------------------------- links under one step */

  /** A peer as the links towards it see it: the same, except that it may have closed. */
  ghost predicate SameAsRecipient(p: Peer, q: Peer) {
    && q.phase == p.phase && q.joinedAt == p.joinedAt && (p.outbox.closing ==> q.outbox.closing)
    && forall s :: FromSender(q.outbox.accepted, s) == FromSender(p.outbox.accepted, s)
  }

  lemma LinkCloses(sent: seq<string>, waiting: bool, phase: Phase, closing: bool, got: seq<string>, joined: nat)
    requires LinkOk(sent, waiting, phase, closing, got, joined)
    ensures LinkOk(sent, waiting, phase, true, got, joined)
    ensures !phase.Left? ==> LinkOk(sent, waiting, if phase.Member? then Left else Greeted, closing, got, joined)
  {}

  /** One peer changes; its links as a sender and as a recipient are known to hold. */
  lemma UpdateOne(peers: Peers, max: nat, x: nat, p: Peer, q: Peers)
    requires RelayInv(peers, max) && PeerOk(p, max) && q == peers[x := p]
    requires forall r: nat :: LinkedBoth(q, x, r)
    ensures RelayInv(q, max)
  {
    hide LinkOk, PeerOk;
    forall s: nat, r: nat ensures Linked(q, s, r) {
      assert Linked(peers, s, r) && LinkedBoth(q, x, r) && LinkedBoth(q, x, s);
    }
  }

  /** A change the sender side does not show, and the recipient side at most as a closing. */
  lemma UpdateQuietly(peers: Peers, max: nat, x: nat, p: Peer)
    requires RelayInv(peers, max) && x in peers && PeerOk(p, max)
    requires p.broadcasts == peers[x].broadcasts && p.pending == peers[x].pending && SameAsRecipient(peers[x], p)
    ensures RelayInv(peers[x := p], max)
  {
    hide PeerOk, LinkOk;
    var q := peers[x := p];
    forall r: nat ensures LinkedBoth(q, x, r) {
      assert Linked(peers, x, r) && Linked(peers, r, x);
      if r != x {
        LinkCloses(At(peers, r).broadcasts, x in At(peers, r).pending, p.phase, peers[x].outbox.closing,
                   FromSender(p.outbox.accepted, r), JoinedAt(p, r));
      }
    }
    UpdateOne(peers, max, x, p, q);
  }

  lemma ReplySame(p: Peer, max: nat, e: Entry)
    requires !e.origin.From?
    ensures SameAsRecipient(p, Offered(p, max, e))
  {
    forall s ensures FromSender(Offered(p, max, e).outbox.accepted, s) == FromSender(p.outbox.accepted, s) {
      FromSnoc(p.outbox.accepted, e, s);
    }
  }

  lemma ConnectOk(peers: Peers, max: nat, x: nat)
    requires RelayInv(peers, max) && x !in peers
    ensures RelayInv(peers[x := NEW_PEER], max)
  {
    assert PeerOk(NEW_PEER, max) by { assert "" + ("" + "") == ""; }
    var q := peers[x := NEW_PEER];
    forall r: nat ensures LinkedBoth(q, x, r) {
      assert Linked(peers, x, r) && Linked(peers, r, x);
    }
    UpdateOne(peers, max, x, NEW_PEER, q);
  }

  /** Greeting, registering and leaving change how others' broadcasts reach a session. */
  lemma GreetOk(peers: Peers, max: nat, x: nat, reply: string)
    requires RelayInv(peers, max) && Enabled(peers, Step.Greet(x, reply))
    ensures RelayInv(Next(peers, max, Step.Greet(x, reply)), max)
  {
    hide PeerOk;
    var e := Entry(Greeting, reply);
    var p := Offered(peers[x], max, e).(phase := Greeted);
    OfferedOk(peers[x], max, e);
    ReplySame(peers[x], max, e);
    var q := peers[x := p];
    forall r: nat ensures LinkedBoth(q, x, r) {
      assert Linked(peers, x, r) && Linked(peers, r, x);
    }
    UpdateOne(peers, max, x, p, q);
  }

  lemma RegisterOk(peers: Peers, max: nat, x: nat)
    requires RelayInv(peers, max) && Enabled(peers, Step.Register(x))
    ensures RelayInv(Next(peers, max, Step.Register(x)), max)
  {
    hide OutboxOk, Courteous;
    var p := peers[x].(phase := Member, joinedAt := JoinCounts(peers));
    var q := peers[x := p];
    forall r: nat ensures LinkedBoth(q, x, r) {
      assert Linked(peers, x, r) && Linked(peers, r, x);
      assert JoinedAt(p, r) == |At(peers, r).broadcasts|;
    }
    UpdateOne(peers, max, x, p, q);
  }

  lemma LeaveOk(peers: Peers, max: nat, x: nat)
    requires RelayInv(peers, max) && Enabled(peers, Step.Leave(x))
    ensures RelayInv(Next(peers, max, Step.Leave(x)), max)
  {
    hide OutboxOk, Courteous;
    var p := peers[x].(phase := Left);
    var q := peers[x := p];
    forall r: nat ensures LinkedBoth(q, x, r) {
      assert Linked(peers, x, r) && Linked(peers, r, x);
    }
    UpdateOne(peers, max, x, p, q);
  }

  /** The snapshot: everyone registered, and nobody else, now waits for one payload more. */
  lemma BroadcastOk(peers: Peers, max: nat, x: nat, payload: string)
    requires RelayInv(peers, max) && Enabled(peers, Step.Broadcast(x, payload))
    ensures RelayInv(Next(peers, max, Step.Broadcast(x, payload)), max)
  {
    hide PeerOk;
    var p := peers[x].(broadcasts := peers[x].broadcasts + [payload], pending := Router.Recipients(Members(peers), x));
    var q := peers[x := p];
    forall r: nat ensures LinkedBoth(q, x, r) {
      assert Linked(peers, x, r) && Linked(peers, r, x);
      assert r in p.pending <==> r != x && At(peers, r).phase.Member?;
    }
    assert PeerOk(p, max) by { assert PeerOk(peers[x], max); SamePeer(peers[x], p, max); }
    UpdateOne(peers, max, x, p, q);
  }

  lemma SamePeer(p: Peer, q: Peer, max: nat)
    requires PeerOk(p, max) && q.outbox == p.outbox && (q.phase.Fresh? || !p.phase.Fresh?)
    ensures PeerOk(q, max)
  {}

  /** One recipient's turn. */
  lemma LinkDelivers(sent: seq<string>, phase: Phase, closing: bool, got: seq<string>, joined: nat)
    requires LinkOk(sent, true, phase, closing, got, joined)
    ensures !closing ==> LinkOk(sent, false, phase, false, got + [sent[|sent| - 1]], joined)
    ensures LinkOk(sent, false, phase, true, got, joined)
  {}

  lemma DeliveredPeer(peers: Peers, max: nat, x: nat, to: nat)
    requires RelayInv(peers, max) && Enabled(peers, Step.Deliver(x, to))
    ensures x != to && !At(peers, to).phase.Fresh?
  {
    assert Linked(peers, x, to);
  }

  lemma DeliverLink(p: Peer, q: Peer, max: nat, x: nat)
    requires p.broadcasts != []
    requires LinkOk(p.broadcasts, true, q.phase, q.outbox.closing, FromSender(q.outbox.accepted, x), JoinedAt(q, x))
    ensures var o := Offer(q.outbox, max, Entry(From(x), p.broadcasts[|p.broadcasts| - 1]));
            LinkOk(p.broadcasts, false, q.phase, o.closing, FromSender(o.accepted, x), JoinedAt(q, x))
  {
    hide LinkOk, FromSender;
    var e := Entry(From(x), p.broadcasts[|p.broadcasts| - 1]);
    FromSnoc(q.outbox.accepted, e, x);
    LinkDelivers(p.broadcasts, q.phase, q.outbox.closing, FromSender(q.outbox.accepted, x), JoinedAt(q, x));
  }

  /** Links that a delivery from `x` does not serve. */
  lemma DeliverOther(q: Peer, max: nat, x: nat, payload: string, s: nat, sent: seq<string>, waiting: bool)
    requires s != x && LinkOk(sent, waiting, q.phase, q.outbox.closing, FromSender(q.outbox.accepted, s),
                              JoinedAt(q, s))
    ensures var o := Offer(q.outbox, max, Entry(From(x), payload));
            LinkOk(sent, waiting, q.phase, o.closing, FromSender(o.accepted, s), JoinedAt(q, s))
  {
    FromSnoc(q.outbox.accepted, Entry(From(x), payload), s);
    LinkCloses(sent, waiting, q.phase, q.outbox.closing, FromSender(q.outbox.accepted, s), JoinedAt(q, s));
  }

  lemma DeliverShape(peers: Peers, max: nat, x: nat, to: nat)
    requires Enabled(peers, Step.Deliver(x, to)) && x != to
    ensures var q := Next(peers, max, Step.Deliver(x, to));
            && At(q, x) == peers[x].(pending := peers[x].pending - {to})
            && At(q, to) == Offered(peers[to], max, Entry(From(x), peers[x].broadcasts[|peers[x].broadcasts| - 1]))
            && forall s: nat :: s != x && s != to ==> At(q, s) == At(peers, s)
  {}

  lemma DeliverLinks(peers: Peers, max: nat, x: nat, to: nat, s: nat, r: nat)
    requires RelayInv(peers, max) && Enabled(peers, Step.Deliver(x, to)) && x != to
    ensures Linked(Next(peers, max, Step.Deliver(x, to)), s, r)
  {
    hide PeerOk, LinkOk, Next;
    assert Linked(peers, s, r);
    DeliverShape(peers, max, x, to);
    var payload := peers[x].broadcasts[|peers[x].broadcasts| - 1];
    if r == to && s == x {
      DeliverLink(peers[x], peers[to], max, x);
    } else if r == to && s != to {
      DeliverOther(peers[to], max, x, payload, s, At(peers, s).broadcasts, to in At(peers, s).pending);
    } else if r == to {
      FromSnoc(peers[to].outbox.accepted, Entry(From(x), payload), to);
    }
  }

  lemma DeliverOk(peers: Peers, max: nat, x: nat, to: nat)
    requires RelayInv(peers, max) && Enabled(peers, Step.Deliver(x, to))
    ensures RelayInv(Next(peers, max, Step.Deliver(x, to)), max)
  {
    hide LinkOk, OutboxOk, Courteous;
    DeliveredPeer(peers, max, x, to);
    var e := Entry(From(x), peers[x].broadcasts[|peers[x].broadcasts| - 1]);
    OfferedOk(peers[to], max, e);
    forall s: nat, r: nat ensures Linked(Next(peers, max, Step.Deliver(x, to)), s, r) {
      DeliverLinks(peers, max, x, to, s, r);
    }
  }

  lemma WriterSame(p: Peer, n: nat)
    ensures MayTake(p.outbox) ==> SameAsRecipient(p, p.(outbox := Take(p.outbox)))
    ensures n <= |p.outbox.inflight| ==> SameAsRecipient(p, p.(outbox := Transmit(p.outbox, n)))
    ensures SameAsRecipient(p, p.(outbox := Shut(p.outbox)))
    ensures SameAsRecipient(p, p.(outbox := Shut(p.outbox), writing := false))
  {}

  lemma QuietOk(peers: Peers, max: nat, e: Step)
    requires RelayInv(peers, max) && Enabled(peers, e)
    requires e.Answer? || e.Close? || e.TakeNext? || e.Send? || e.Stop?
    ensures RelayInv(Next(peers, max, e), max)
  {
    hide LinkOk, OutboxOk, Courteous, SameAsRecipient;
    var p := peers[e.sid];
    var n := if e.Send? then e.n else 0;
    WriterSame(p, n);
    WriterOk(p, max, n);
    if e.Answer? {
      ReplySame(p, max, Entry(Reply, e.reply));
      OfferedOk(p, max, Entry(Reply, e.reply));
    }
    UpdateQuietly(peers, max, e.sid, Next(peers, max, e)[e.sid]);
  }

  lemma NextOk(peers: Peers, max: nat, e: Step)
    requires RelayInv(peers, max) && Enabled(peers, e)
    ensures RelayInv(Next(peers, max, e), max)
  {
    hide RelayInv, Next, Enabled;
    match e
    case Connect(x) => ConnectStep(peers, max, x);
    case Greet(x, reply) => GreetOk(peers, max, x, reply);
    case Register(x) => RegisterOk(peers, max, x);
    case Broadcast(x, payload) => BroadcastOk(peers, max, x, payload);
    case Deliver(x, to) => DeliverOk(peers, max, x, to);
    case Leave(x) => LeaveOk(peers, max, x);
    case _ => QuietOk(peers, max, e);
  }

  lemma ConnectStep(peers: Peers, max: nat, x: nat)
    requires RelayInv(peers, max) && Enabled(peers, Step.Connect(x))
    ensures RelayInv(Next(peers, max, Step.Connect(x)), max)
  {
    ConnectOk(peers, max, x);
  }

  lemma NobodyYet(max: nat)
    ensures RelayInv(map[], max)
  {}

  lemma {:induction false} RunOk(max: nat, steps: seq<Step>)
    ensures RelayInv(Run(max, steps), max)
  {
    hide RelayInv, Next, Enabled;
    if steps == [] {
      NobodyYet(max);
    } else {
      var before, e := Run(max, steps[..|steps| - 1]), steps[|steps| - 1];
      RunOk(max, steps[..|steps| - 1]);
      if Enabled(before, e) {
        NextOk(before, max, e);
      }
    }
  }

  /* ------------------------------------------------------------- what every run has */

  /** Gap-free FIFO. In every interleaving, what a session's queue accepted of another
      session is a contiguous, in-order segment of that session's broadcasts starting at
      the registration; while the recipient stays registered and open it is all of them,
      but for the one that may still be on its way; before registration it is nothing. */
  lemma GapFreeFifo(max: nat, steps: seq<Step>, s: nat, r: nat)
    requires s != r && s in Run(max, steps) && r in Run(max, steps)
    ensures var (p, q) := (Run(max, steps)[s], Run(max, steps)[r]);
            var (got, from) := (FromSender(q.outbox.accepted, s), JoinedAt(q, s));
            && from + |got| <= |p.broadcasts| && got == p.broadcasts[from..from + |got|]
            && (q.phase.Fresh? || q.phase.Greeted? ==> got == [])
            && (q.phase.Member? && !q.outbox.closing ==>
                  from + |got| == if r in p.pending then |p.broadcasts| - 1 else |p.broadcasts|)
  {
    hide Next, Enabled, PeerOk;
    RunOk(max, steps);
    assert Linked(Run(max, steps), s, r);
  }

  /** Registration happens once and fixes where the segment starts. */
  predicate Joined(p: Peer, joinedAt: map<nat, nat>) {
    (p.phase.Member? || p.phase.Left?) && p.joinedAt == joinedAt
  }

  lemma JoinedOnce(peers: Peers, max: nat, e: Step, r: nat)
    requires Enabled(peers, e) && r in peers && (peers[r].phase.Member? || peers[r].phase.Left?)
    ensures r in Next(peers, max, e) && Joined(Next(peers, max, e)[r], peers[r].joinedAt)
  {}

  /** The segment starts at the number of broadcasts the sender had made when the
      recipient registered, however the run goes on. */
  lemma {:induction false} SegmentStart(max: nat, steps: seq<Step>, k: nat, r: nat)
    requires k < |steps| && steps[k] == Step.Register(r) && Enabled(Run(max, steps[..k]), steps[k])
    ensures r in Run(max, steps) && Joined(Run(max, steps)[r], JoinCounts(Run(max, steps[..k])))
    ensures forall s: nat :: JoinedAt(Run(max, steps)[r], s) == |At(Run(max, steps[..k]), s).broadcasts|
  {
    var init, e := steps[..|steps| - 1], steps[|steps| - 1];
    if k == |init| {
      assert steps[..k] == init;
    } else {
      assert init[..k] == steps[..k];
      SegmentStart(max, init, k, r);
      if Enabled(Run(max, init), e) {
        JoinedOnce(Run(max, init), max, e, r);
      }
    }
  }

  /** Queue and wire. Under concurrent enqueues, partial sends and closings the byte count
      is the sum of what is queued and within the bound, so its unsigned arithmetic never
      wraps, and the peer has been sent a prefix of the payloads accepted. */
  lemma QueueAndWire(max: nat, steps: seq<Step>, r: nat)
    requires r in Run(max, steps)
    ensures var o := Run(max, steps)[r].outbox;
            && o.queuedBytes == TotalLength(o.queue) <= max
            && o.wire + (o.inflight + Concat(o.queue)) == Concat(Payloads(o.accepted))
            && o.wire <= Concat(Payloads(o.accepted))
            && (o.inflight == "" && o.queue != [] ==> MayTake(o))
  {
    RunOk(max, steps);
    var o := Run(max, steps)[r].outbox;
    assert PeerOk(Run(max, steps)[r], max);
    WireIsPrefix(o, max);
    if o.inflight == "" && o.queue != [] {
      TakeOk(o, max);
    }
  }

  /** What a step offers to the queue of `r`, if anything. */
  function OfferTo(peers: Peers, e: Step, r: nat): Option<Entry> {
    if e.Greet? && e.sid == r then Some(Entry(Greeting, e.reply))
    else if e.Answer? && e.sid == r then Some(Entry(Reply, e.reply))
    else if e.Deliver? && e.to == r && At(peers, e.sid).broadcasts != [] then
      Some(Entry(From(e.sid), At(peers, e.sid).broadcasts[|At(peers, e.sid).broadcasts| - 1]))
    else None
  }

  /** What is offered does not fit beside what is queued. */
  predicate Overflows(peers: Peers, max: nat, e: Step, r: nat) {
    && OfferTo(peers, e, r).Some?
    && TotalLength(At(peers, r).outbox.queue) + |OfferTo(peers, e, r).value.payload| > max
  }

  predicate ClosingStep(peers: Peers, max: nat, e: Step, r: nat) {
    Enabled(peers, e) && (e == Step.Close(r) || e == Step.Stop(r) || Overflows(peers, max, e, r))
  }

  lemma OfferCloses(o: Outbox, max: nat, e: Entry)
    requires OutboxOk(o, max)
    ensures Offer(o, max, e).closing <==> o.closing || TotalLength(o.queue) + |e.payload| > max
  {}

  /** What one step does to one session's outgoing side, as far as closing is concerned. */
  lemma StepOutbox(peers: Peers, max: nat, e: Step, r: nat)
    requires Enabled(peers, e) && (e.Deliver? ==> e.sid != e.to)
    ensures var (before, after) := (At(peers, r).outbox, At(Next(peers, max, e), r).outbox);
            if OfferTo(peers, e, r).Some? then after == Offer(before, max, OfferTo(peers, e, r).value)
            else after.closing == (before.closing || e == Step.Close(r) || e == Step.Stop(r))
  {
    hide Offer, MayTake;
    if e.Deliver? {
      DeliverShape(peers, max, e.sid, e.to);
      hide Next;
    }
  }

  lemma AtOk(peers: Peers, max: nat, r: nat)
    requires RelayInv(peers, max)
    ensures PeerOk(At(peers, r), max)
  {
    hide PeerOk;
    assert PeerOk(NEW_PEER, max) by { EmptyOk(max); }
  }

  lemma EmptyOk(max: nat)
    ensures PeerOk(NEW_PEER, max)
  {
    assert "" + ("" + "") == "";
  }

  lemma StepCloses(peers: Peers, max: nat, e: Step, r: nat)
    requires RelayInv(peers, max) && Enabled(peers, e)
    ensures At(Next(peers, max, e), r).outbox.closing <==> At(peers, r).outbox.closing || ClosingStep(peers, max, e, r)
  {
    hide RelayInv, Next, Enabled, At, PeerOk, OutboxOk, Offer;
    if e.Deliver? {
      DeliveredPeer(peers, max, e.sid, e.to);
    }
    StepOutbox(peers, max, e, r);
    if OfferTo(peers, e, r).Some? {
      OfferCloses(At(peers, r).outbox, max, OfferTo(peers, e, r).value) by {
        AtOk(peers, max, r);
        PeerQueue(At(peers, r), max);
      }
    }
  }

  lemma PeerQueue(p: Peer, max: nat)
    requires PeerOk(p, max)
    ensures OutboxOk(p.outbox, max)
  {}

  /** The steps so far at which a session was given a reason to close. */
  ghost predicate Caused(max: nat, steps: seq<Step>, r: nat) {
    exists k :: 0 <= k < |steps| && ClosingStep(Run(max, steps[..k]), max, steps[k], r)
  }

  lemma CausedSnoc(max: nat, steps: seq<Step>, e: Step, r: nat)
    ensures Caused(max, steps + [e], r) <==> Caused(max, steps, r) || ClosingStep(Run(max, steps), max, e, r)
  {
    hide Run, ClosingStep;
    var more := steps + [e];
    assert more[..|steps|] == steps && more[|steps|] == e;
    assert forall k | 0 <= k < |steps| :: more[..k] == steps[..k] && more[k] == steps[k];
    if Caused(max, steps, r) {
      var k :| 0 <= k < |steps| && ClosingStep(Run(max, steps[..k]), max, steps[k], r);
      assert ClosingStep(Run(max, more[..k]), max, more[k], r);
    }
    if ClosingStep(Run(max, steps), max, e, r) {
      assert ClosingStep(Run(max, more[..|steps|]), max, more[|steps|], r);
    }
    if Caused(max, more, r) {
      var k :| 0 <= k < |more| && ClosingStep(Run(max, more[..k]), max, more[k], r);
      assert k < |steps| ==> ClosingStep(Run(max, steps[..k]), max, steps[k], r);
    }
  }

  lemma RunSnoc(max: nat, steps: seq<Step>, e: Step)
    ensures Run(max, steps + [e])
         == if Enabled(Run(max, steps), e) then Next(Run(max, steps), max, e) else Run(max, steps)
  {
    hide Next, Enabled;
    assert (steps + [e])[..|steps|] == steps;
  }

  /** Why a session is closing, exactly, in every interleaving: somebody closed it, its
      writer stopped, or something offered to it did not fit its queue. */
  lemma {:induction false} ClosingHasCause(max: nat, steps: seq<Step>, r: nat)
    ensures At(Run(max, steps), r).outbox.closing
            <==> exists k :: 0 <= k < |steps| && ClosingStep(Run(max, steps[..k]), max, steps[k], r)
  {
    if steps != [] {
      var init, e := steps[..|steps| - 1], steps[|steps| - 1];
      var before := Run(max, init);
      assert init + [e] == steps;
      ClosingHasCause(max, init, r);
      CausedSnoc(max, init, e, r);
      RunSnoc(max, init, e);
      RunOk(max, init);
      if ClosingStep(before, max, e, r) {
        NeedsEnabled(before, max, e, r);
      }
      hide Next, Enabled, RelayInv, ClosingStep, Run;
      if Enabled(before, e) {
        StepCloses(before, max, e, r);
      }
    }
  }

  lemma NeedsEnabled(peers: Peers, max: nat, e: Step, r: nat)
    requires ClosingStep(peers, max, e, r)
    ensures Enabled(peers, e)
  {}

  /** Whatever is offered to an open session and fits is queued, whoever sends it. */
  lemma FittingIsQueued(max: nat, steps: seq<Step>, e: Step, r: nat)
    requires Enabled(Run(max, steps), e) && OfferTo(Run(max, steps), e, r).Some?
    requires !At(Run(max, steps), r).outbox.closing && !Overflows(Run(max, steps), max, e, r)
    ensures var (before, after) := (At(Run(max, steps), r).outbox, At(Run(max, steps + [e]), r).outbox);
            var offer := OfferTo(Run(max, steps), e, r).value;
            && !after.closing && after.queue == before.queue + [offer.payload]
            && after.accepted == before.accepted + [offer]
  {
    hide RelayInv, Next, Enabled, At, PeerOk, OutboxOk, Run;
    var before := Run(max, steps);
    RunOk(max, steps);
    RunSnoc(max, steps, e);
    if e.Deliver? {
      DeliveredPeer(before, max, e.sid, e.to);
    }
    StepOutbox(before, max, e, r);
    OfferCloses(At(before, r).outbox, max, OfferTo(before, e, r).value) by {
      AtOk(before, max, r);
      PeerQueue(At(before, r), max);
    }
  }

  /** Authentication ordering. A relayed payload is queued only behind the session's
      successful authentication reply, never at its own sender, and only registered
      sessions are ever waited for. */
  lemma AuthOrdering(max: nat, steps: seq<Step>, r: nat, k: nat)
    requires r in Run(max, steps)
    requires var a := Run(max, steps)[r].outbox.accepted; k < |a| && a[k].origin.From?
    ensures var a := Run(max, steps)[r].outbox.accepted;
            && (exists g :: 0 <= g < k && a[g].origin.Greeting?)
            && a[k].origin.sender != r
            && !Run(max, steps)[r].phase.Fresh? && !Run(max, steps)[r].phase.Greeted?
  {
    RunOk(max, steps);
    var peers := Run(max, steps);
    var a := peers[r].outbox.accepted;
    assert PeerOk(peers[r], max) && Linked(peers, a[k].origin.sender, r);
    assert Greets(a[..k]);
    var g :| 0 <= g < |a[..k]| && a[..k][g].origin.Greeting?;
    FromHas(a, k);
    assert a[g].origin.Greeting?;
  }

  lemma {:induction false} FromHas(entries: seq<Entry>, k: nat)
    requires k < |entries| && entries[k].origin.From?
    ensures entries[k].payload in FromSender(entries, entries[k].origin.sender)
  {
    if k < |entries| - 1 {
      FromHas(entries[..|entries| - 1], k);
    }
  }
}
