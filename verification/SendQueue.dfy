/** server_common/tcpserver.cpp, `enqueue`, `writerLoop` and `writeRaw`: the bounded queue
    between a session's senders and its one writer thread. */
module SendQueue {
  import opened Basics

  /** Why a payload was queued: the successful authentication reply, some other reply of
      the session's own, or the broadcast of another session. */
  datatype Origin = Greeting | Reply | From(sender: nat)

  datatype Entry = Entry(origin: Origin, payload: string)

  /** A session's outgoing side. `accepted` is the history of what was queued, `inflight`
      what is left of the payload the writer holds, `wire` what the peer was sent. */
  datatype Outbox = Outbox(
    queue: seq<string>, queuedBytes: nat, closing: bool, accepted: seq<Entry>, inflight: string, wire: string)

  const EMPTY_OUTBOX := Outbox([], 0, false, [], "", "")

  predicate Refuses(o: Outbox, max: nat, payload: string) {
    o.closing || |payload| > max || o.queuedBytes > max - |payload|
  }

  /** `enqueue`: a refusal closes the session for good. */
  function Offer(o: Outbox, max: nat, e: Entry): Outbox {
    if Refuses(o, max, e.payload) then o.(closing := true)
    else o.(queue := o.queue + [e.payload], queuedBytes := o.queuedBytes + |e.payload|, accepted := o.accepted + [e])
  }

  predicate MayTake(o: Outbox) {
    o.inflight == "" && o.queue != [] && o.queuedBytes >= |o.queue[0]|
  }

  /** The locked part of `writerLoop`. */
  function Take(o: Outbox): Outbox
    requires MayTake(o)
  {
    o.(queue := o.queue[1..], queuedBytes := o.queuedBytes - |o.queue[0]|, inflight := o.queue[0])
  }

  /** One `send` of `n` octets. */
  function Transmit(o: Outbox, n: nat): Outbox
    requires n <= |o.inflight|
  {
    o.(wire := o.wire + o.inflight[..n], inflight := o.inflight[n..])
  }

  function Shut(o: Outbox): Outbox {
    o.(closing := true)
  }

  function Payloads(entries: seq<Entry>): seq<string> {
    if entries == [] then [] else Payloads(entries[..|entries| - 1]) + [entries[|entries| - 1].payload]
  }

  lemma PayloadsSnoc(entries: seq<Entry>, e: Entry)
    ensures Payloads(entries + [e]) == Payloads(entries) + [e.payload]
  {
    assert (entries + [e])[..|entries|] == entries;
  }

  /** The byte count is the sum of the queued payloads and stays within the bound; sent,
      in flight and queued octets are together exactly what was accepted, in order. */
  predicate OutboxOk(o: Outbox, max: nat) {
    && o.queuedBytes == TotalLength(o.queue) <= max
    && o.wire + (o.inflight + Concat(o.queue)) == Concat(Payloads(o.accepted))
  }

  lemma FirstLength(queue: seq<string>)
    requires queue != []
    ensures TotalLength(queue) == |queue[0]| + TotalLength(queue[1..])
  {}

  lemma OfferOk(o: Outbox, max: nat, e: Entry)
    requires OutboxOk(o, max)
    ensures OutboxOk(Offer(o, max, e), max)
  {
    if !Refuses(o, max, e.payload) {
      TotalLengthAppend(o.queue, [e.payload]);
      assert TotalLength([e.payload]) == |e.payload|;
      PayloadsSnoc(o.accepted, e);
      ConcatSnoc(o.queue, e.payload);
      ConcatSnoc(Payloads(o.accepted), e.payload);
      Assoc(o.inflight, Concat(o.queue), e.payload);
      Assoc(o.wire, o.inflight + Concat(o.queue), e.payload);
    }
  }

  /** Taking never wraps the byte count. */
  lemma TakeOk(o: Outbox, max: nat)
    requires OutboxOk(o, max) && o.inflight == "" && o.queue != []
    ensures MayTake(o) && OutboxOk(Take(o), max)
  {
    FirstLength(o.queue);
    assert Concat(o.queue) == o.queue[0] + Concat(o.queue[1..]);
    assert "" + Concat(o.queue) == Concat(o.queue);
  }

  lemma TransmitOk(o: Outbox, max: nat, n: nat)
    requires OutboxOk(o, max) && n <= |o.inflight|
    ensures OutboxOk(Transmit(o, n), max)
  {
    var rest := o.inflight[n..] + Concat(o.queue);
    assert o.inflight == o.inflight[..n] + o.inflight[n..];
    Assoc(o.inflight[..n], o.inflight[n..], Concat(o.queue));
    Assoc(o.wire, o.inflight[..n], rest);
  }

  /** The peer has been sent a prefix of what was accepted. */
  lemma WireIsPrefix(o: Outbox, max: nat)
    requires OutboxOk(o, max)
    ensures o.wire <= Concat(Payloads(o.accepted))
    ensures o.inflight == "" && o.queue == [] ==> o.wire == Concat(Payloads(o.accepted))
  {
    if o.inflight == "" && o.queue == [] {
      assert o.wire + ("" + "") == o.wire;
    }
  }

  /** What the surroundings do at one turn of the write loop: whether the session is seen
      closing, and what `send` returns. */
  datatype Turn = Turn(closing: bool, sent: int)

  /** How many of `left` octets go out over these turns: until one sees the session closing
      or a send fails. */
  function Gone(left: nat, turns: seq<Turn>): (n: nat)
    ensures n <= left
    decreases |turns|
  {
    if left == 0 || turns == [] || turns[0].closing || turns[0].sent <= 0 || turns[0].sent > left then 0
    else turns[0].sent + Gone(left - turns[0].sent, turns[1..])
  }

  function Octets(turns: seq<Turn>): seq<int> {
    seq(|turns|, i requires 0 <= i < |turns| => turns[i].sent)
  }

  /** What goes out is the sum over the turns up to the first that fails or sees the session
      closing, or until nothing is left or asked. */
  lemma {:induction false} GoneIsSum(left: nat, turns: seq<Turn>, k: nat)
    requires k <= |turns| && (forall t <- turns[..k] :: !t.closing && t.sent > 0)
    requires Sum(Octets(turns[..k])) <= left
    requires k < |turns| ==> || turns[k].closing || turns[k].sent <= 0
                             || Sum(Octets(turns[..k])) + turns[k].sent > left || Sum(Octets(turns[..k])) == left
    ensures Gone(left, turns) == Sum(Octets(turns[..k]))
  {
    if k > 0 {
      var rest := turns[1..];
      assert turns[..k][0] in turns[..k] && turns[..k][1..] == rest[..k - 1];
      assert Octets(turns[..k])[1..] == Octets(rest[..k - 1]);
      assert forall t <- rest[..k - 1] :: t in turns[..k];
      OctetsPositive(rest[..k - 1]);
      GoneIsSum(left - turns[0].sent, rest, k - 1);
    }
  }

  lemma {:induction false} OctetsPositive(turns: seq<Turn>)
    requires forall t <- turns :: t.sent > 0
    ensures Sum(Octets(turns)) >= 0
  {
    if turns != [] {
      assert turns[0] in turns && Octets(turns)[1..] == Octets(turns[1..]);
      OctetsPositive(turns[1..]);
    }
  }

  class Connection {
    const maxSendQueueBytes: nat
    var sendQueue: seq<string>
    var queuedBytes: nat
    var closing: bool
    ghost var accepted: seq<Entry>
    ghost var inflight: string
    ghost var wire: string

    ghost function View(): Outbox
      reads this
    {
      Outbox(sendQueue, queuedBytes, closing, accepted, inflight, wire)
    }

    ghost predicate Valid()
      reads this
    {
      OutboxOk(View(), maxSendQueueBytes)
    }

    constructor (max: nat)
      ensures maxSendQueueBytes == max && View() == EMPTY_OUTBOX && Valid()
    {
      maxSendQueueBytes, sendQueue, queuedBytes, closing := max, [], 0, false;
      accepted, inflight, wire := [], "", "";
    }

    method Enqueue(payload: string, ghost origin: Origin) returns (ok: bool)
      requires Valid()
      modifies this
      ensures Valid() && View() == Offer(old(View()), maxSendQueueBytes, Entry(origin, payload))
      ensures ok <==> !old(closing) && TotalLength(old(sendQueue)) + |payload| <= maxSendQueueBytes
      ensures sendQueue == (if ok then old(sendQueue) + [payload] else old(sendQueue)) && closing == !ok
      ensures accepted == if ok then old(accepted) + [Entry(origin, payload)] else old(accepted)
    {
      OfferOk(View(), maxSendQueueBytes, Entry(origin, payload));
      if closing {
        return false;
      }
      if |payload| > maxSendQueueBytes || queuedBytes > maxSendQueueBytes - |payload| {
        closing := true;
        return false;
      }
      queuedBytes := queuedBytes + |payload|;
      sendQueue := sendQueue + [payload];
      accepted := accepted + [Entry(origin, payload)];
      ok := true;
    }

    /** `requestClientClose`. */
    method RequestClose()
      requires Valid()
      modifies this
      ensures Valid() && View() == Shut(old(View()))
      ensures closing && sendQueue == old(sendQueue) && accepted == old(accepted)
    {
      closing := true;
    }

    method TakePayload() returns (payload: string)
      requires Valid() && inflight == "" && sendQueue != []
      modifies this
      ensures Valid() && MayTake(old(View())) && View() == Take(old(View()))
      ensures payload == old(sendQueue[0]) == inflight
    {
      TakeOk(View(), maxSendQueueBytes);
      payload := sendQueue[0];
      sendQueue := sendQueue[1..];
      queuedBytes := queuedBytes - |payload|;
      inflight := payload;
    }

    /** The write loop over partial sends: what left is `payload[..offset]`, as far as the
        turns allow, and the call succeeds exactly when that is all of it. */
    method WriteRaw(payload: string, turns: seq<Turn>) returns (ok: bool, offset: nat)
      requires Valid() && inflight == payload
      requires forall t <- turns :: t.sent <= |payload|
      modifies this`inflight, this`wire
      ensures offset == Gone(|payload|, turns)
      ensures Valid() && View() == Transmit(old(View()), offset)
      ensures ok <==> offset == |payload|
      ensures ok ==> inflight == ""
    {
      hide OutboxOk;
      offset := 0;
      var turn: nat := 0;
      assert turns[0..] == turns;
      while offset < |payload| && turn < |turns| && !turns[turn].closing
        invariant turn <= |turns| && offset <= |payload| && View() == Transmit(old(View()), offset)
        invariant offset + Gone(|payload| - offset, turns[turn..]) == Gone(|payload|, turns)
        decreases |turns| - turn
      {
        var sent := turns[turn].sent;
        if sent <= 0 || sent > |payload| - offset {
          break;
        }
        TransmitTwice(old(View()), offset, sent);
        assert turns[turn..][1..] == turns[turn + 1..];
        wire := wire + inflight[..sent];
        inflight := inflight[sent..];
        offset := offset + sent;
        turn := turn + 1;
      }
      TransmitOk(old(View()), maxSendQueueBytes, offset);
      ok := offset == |payload|;
    }
  }

  lemma TransmitTwice(o: Outbox, n: nat, k: nat)
    requires n + k <= |o.inflight|
    ensures Transmit(Transmit(o, n), k) == Transmit(o, n + k)
  {
    assert o.inflight[..n] + o.inflight[n..][..k] == o.inflight[..n + k];
    Assoc(o.wire, o.inflight[..n], o.inflight[n..][..k]);
    assert o.inflight[n..][k..] == o.inflight[n + k..];
  }
}
