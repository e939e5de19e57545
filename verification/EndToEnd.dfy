/** From the server's commit to the receiving client's disk: broadcasts, queue, wire, line
    splitting, parsing and rebuilding, composed. */
module EndToEnd {
  import opened Basics
  import opened Framing
  import opened Messages
  import opened Storage
  import opened Transfers
  import opened Protocol
  import opened SendQueue
  import opened ServerSystem
  import Server
  import ServerRuns
  import Relay
  import Receiver

  /* ------------------------------------------------------------- lines */

  function Stripped(payload: string): string {
    if payload == "" then "" else payload[..|payload| - 1]
  }

  function Lines(payloads: seq<string>): (l: seq<string>)
    ensures |l| == |payloads|
  {
    if payloads == [] then [] else Lines(payloads[..|payloads| - 1]) + [Stripped(payloads[|payloads| - 1])]
  }

  lemma {:induction false} LinesPrefix(payloads: seq<string>, n: nat)
    requires n <= |payloads|
    ensures Lines(payloads)[..n] == Lines(payloads[..n])
  {
    if n == |payloads| {
      assert payloads[..n] == payloads;
    } else {
      var init := payloads[..|payloads| - 1];
      LinesPrefix(init, n);
      assert init[..n] == payloads[..n];
    }
  }

  ghost predicate AllLines(c: Codec, payloads: seq<string>) {
    forall p <- payloads :: IsLine(c, p)
  }

  lemma {:induction false} LinesAreTidy(c: Codec, payloads: seq<string>)
    requires AllLines(c, payloads)
    ensures forall l <- Lines(payloads) :: '\n' !in l && Tidy(l)
    ensures Wire(Lines(payloads)) == Concat(payloads)
  {
    if payloads != [] {
      var init, p := payloads[..|payloads| - 1], payloads[|payloads| - 1];
      LinesAreTidy(c, init);
      assert IsLine(c, p);
      ConcatSnoc(init, p);
      assert payloads == init + [p];
      WireSnoc(Lines(init), Stripped(p));
      assert p == Stripped(p) + "\n";
      Assoc(Wire(Lines(init)), Stripped(p), "\n");
    }
  }

  lemma PrefixLines(text: string, lines: seq<string>)
    requires text <= Wire(lines) && forall l <- lines :: '\n' !in l
    ensures Split(text).complete <= lines
  {
    var rest := Wire(lines)[|text|..];
    assert text + rest == Wire(lines);
    SplitAppend(text, rest);
    SplitWire(lines);
  }

  /** Whatever part of the stream a client has read, in whatever reads, it has seen the
      first so many payloads, each as it was queued. */
  lemma ClientSees(c: Codec, payloads: seq<string>, chunks: seq<string>)
    requires AllLines(c, payloads) && Concat(chunks) <= Concat(payloads)
    ensures var lines := RunPolls(chunks).lines;
            |lines| <= |payloads| && lines == Lines(payloads[..|lines|])
  {
    LinesAreTidy(c, payloads);
    PollsSeeStream(chunks);
    PrefixLines(Concat(chunks), Lines(payloads));
    var complete := Split(Concat(chunks)).complete;
    forall l <- complete ensures Tidy(l) { assert l in Lines(payloads); }
    VisibleTrimmed(complete);
    LinesPrefix(payloads, |complete|);
  }

  /* ------------------------------------------------------------- messages */

  function LineMessage(c: Codec, line: string): seq<Message> {
    if c.parse(line).Some? && ClientView(c.parse(line).value).Some? then [ClientView(c.parse(line).value).value] else []
  }

  /** The transfer messages a client hands on from the lines it has read. */
  function MessagesIn(c: Codec, lines: seq<string>): seq<Message> {
    if lines == [] then []
    else MessagesIn(c, lines[..|lines| - 1]) + LineMessage(c, lines[|lines| - 1])
  }

  function HeardIn(c: Codec, payload: string): seq<Message> {
    if ReadAs(c, payload).Some? then [ReadAs(c, payload).value] else []
  }

  function Heard(c: Codec, payloads: seq<string>): seq<Message> {
    if payloads == [] then []
    else Heard(c, payloads[..|payloads| - 1]) + HeardIn(c, payloads[|payloads| - 1])
  }

  lemma HeardSnoc(c: Codec, payloads: seq<string>, p: string)
    ensures Heard(c, payloads + [p]) == Heard(c, payloads) + HeardIn(c, p)
  {
    assert (payloads + [p])[..|payloads|] == payloads;
  }

  lemma {:induction false} HeardLines(c: Codec, payloads: seq<string>)
    requires AllLines(c, payloads)
    ensures MessagesIn(c, Lines(payloads)) == Heard(c, payloads)
  {
    if payloads != [] {
      var init, p := payloads[..|payloads| - 1], payloads[|payloads| - 1];
      HeardLines(c, init);
      assert IsLine(c, p);
      assert Lines(payloads)[..|payloads| - 1] == Lines(init);
    }
  }

  /** A payload that carries nothing about the transfer. */
  predicate Silent(c: Codec, payload: string, id: string) {
    ReadAs(c, payload).Some? ==> !About(ReadAs(c, payload).value, id)
  }

  lemma OnlyHeardIn(c: Codec, log: seq<Message>, p: string, id: string)
    ensures Only(log + HeardIn(c, p), id)
            == Only(log, id) + (if ReadAs(c, p).Some? && About(ReadAs(c, p).value, id) then [ReadAs(c, p).value]
                                else [])
  {
    if ReadAs(c, p).Some? {
      OnlySnoc(log, ReadAs(c, p).value, id);
    } else {
      assert log + [] == log;
    }
  }

  lemma OnlyFromStep(c: Codec, payloads: seq<string>, sent: seq<string>, e: Entry, s: nat, id: string)
    requires Only(Heard(c, payloads), id) == Only(Heard(c, sent), id)
    requires e.origin == From(s) || Silent(c, e.payload, id)
    ensures Only(Heard(c, payloads + [e.payload]), id)
            == Only(Heard(c, sent + (if e.origin == From(s) then [e.payload] else [])), id)
  {
    HeardSnoc(c, payloads, e.payload);
    OnlyHeardIn(c, Heard(c, payloads), e.payload, id);
    if e.origin == From(s) {
      HeardSnoc(c, sent, e.payload);
      OnlyHeardIn(c, Heard(c, sent), e.payload, id);
    } else {
      assert sent + [] == sent;
    }
  }

  /** Of all a session's queue accepted, only one sender's part matters for a transfer. */
  lemma {:induction false} OnlyFrom(c: Codec, a: seq<Entry>, s: nat, id: string)
    requires forall k | 0 <= k < |a| :: a[k].origin == From(s) || Silent(c, a[k].payload, id)
    ensures Only(Heard(c, Payloads(a)), id) == Only(Heard(c, Relay.FromSender(a, s)), id)
  {
    hide Silent, Heard, Only;
    if a != [] {
      var init, e := a[..|a| - 1], a[|a| - 1];
      OnlyFrom(c, init, s, id);
      OnlyFromStep(c, Payloads(init), Relay.FromSender(init, s), e, s, id);
    }
  }

  lemma OnlyShownStep(c: Codec, sent: seq<string>, log: seq<Message>, p: string, m: Message, id: string)
    requires Only(Heard(c, sent), id) == Only(log, id) && Shows(c, p, Seen(m))
    ensures Only(Heard(c, sent + [p]), id) == Only(log + [m], id)
  {
    HeardSnoc(c, sent, p);
    OnlyHeardIn(c, Heard(c, sent), p, id);
    OnlySnoc(log, m, id);
  }

  lemma ShownInit(c: Codec, sent: seq<string>, log: seq<Message>)
    requires |sent| == |log| > 0 && AllShown(c, sent, log)
    ensures var n := |sent| - 1;
            && AllShown(c, sent[..n], log[..n]) && Shows(c, sent[n], Seen(log[n]))
            && sent == sent[..n] + [sent[n]] && log == log[..n] + [log[n]]
  {
    hide Shows, Seen;
  }

  /** Broadcasts that show a log carry that log's messages. */
  lemma {:induction false} OnlyShown(c: Codec, sent: seq<string>, log: seq<Message>, id: string)
    requires |sent| == |log| && AllShown(c, sent, log)
    ensures Only(Heard(c, sent), id) == Only(log, id)
  {
    if sent != [] {
      hide Shows, Heard, Only, Seen, AllShown;
      var n := |sent| - 1;
      ShownInit(c, sent, log);
      OnlyShown(c, sent[..n], log[..n], id);
      OnlyShownStep(c, sent[..n], log[..n], sent[n], log[n], id);
    }
  }

  lemma {:induction false} FromPrefix(a: seq<Entry>, s: nat, n: nat)
    requires n <= |a|
    ensures Relay.FromSender(a[..n], s) <= Relay.FromSender(a, s)
  {
    if n < |a| {
      FromPrefix(a[..|a| - 1], s, n);
      assert a[..|a| - 1][..n] == a[..n];
    } else {
      assert a[..n] == a;
    }
  }

  /* ------------------------------------------------------------- openings and completions */

  /** An opening that lies in the later part of a log is found there too. */
  lemma {:induction false} StartInSuffix(a: seq<Message>, b: seq<Message>, id: string, i: nat)
    requires StartIndex(a + b, id) == Some(i) && i >= |a|
    ensures StartIndex(b, id) == Some(i - |a|)
  {
    if b == [] {
      assert a + b == a;
      StartIndexPoints(a, id);
    } else {
      var init, m := b[..|b| - 1], b[|b| - 1];
      assert b == init + [m];
      Assoc(a, init, [m]);
      TrackSnoc(a + init, m, id);
      TrackSnoc(init, m, id);
      if !(m.TransferStart? && m.id == id) {
        StartInSuffix(a, init, id, i);
      }
    }
  }

  lemma {:induction false} StartIndexEarlier(log: seq<Message>, id: string, i: nat, x: nat)
    requires StartIndex(log, id) == Some(i) && i < x <= |log|
    ensures StartIndex(log[..x], id) == Some(i)
  {
    if x == |log| {
      assert log[..x] == log;
    } else {
      var init := log[..|log| - 1];
      assert init[..x] == log[..x];
      StartIndexEarlier(init, id, i, x);
    }
  }

  lemma {:induction false} UnfinishedWhen(log: seq<Message>, id: string, i: nat)
    requires StartIndex(log, id) == Some(i)
    requires forall x | i < x < |log| :: !(log[x].TransferComplete? && log[x].id == id)
    ensures Receiver.Unfinished(log, id)
  {
    var m := log[|log| - 1];
    if !(m.TransferStart? && m.id == id) {
      StartIndexPoints(log, id);
      UnfinishedWhen(log[..|log| - 1], id, i);
    }
  }

  lemma {:induction false} UnfinishedOnly(log: seq<Message>, id: string)
    ensures Receiver.Unfinished(Only(log, id), id) == Receiver.Unfinished(log, id)
  {
    if log != [] {
      var init, m := log[..|log| - 1], log[|log| - 1];
      UnfinishedOnly(init, id);
      assert log == init + [m];
      OnlySnoc(init, m, id);
      Receiver.UnfinishedSnoc(init, m, id);
      if About(m, id) {
        Receiver.UnfinishedSnoc(Only(init, id), m, id);
      } else {
        assert Only(init, id) + [] == Only(init, id);
      }
    }
  }

  /** Between an opening and the completion that committed it the log holds no other
      completion of that transfer. */
  lemma NoEarlierCompletion(s: Server.Session, k: nat, x: nat, i: nat)
    requires k < |s.log| && s.log[k].TransferComplete? && Server.CompletionOk(s, k)
    requires StartIndex(s.log[..k], s.log[k].id) == Some(i) && i < x < k
    requires s.log[x].TransferComplete? ==> Server.CompletionOk(s, x)
    ensures s.log[x] != s.log[k]
  {
    if s.log[x] == s.log[k] {
      assert s.log[..k][..x] == s.log[..x];
      StartIndexEarlier(s.log[..k], s.log[k].id, i, x);
      assert false;
    }
  }

  /* ------------------------------------------------------------- one queue of the system */

  /** A broadcast that reached a queue is one of its sender's, and shows what that
      session's log holds at the same place. */
  lemma RelayedEntry(sys: System, c: Codec, g: Config, max: nat, inherited: set<Path>, r: nat, k: nat)
    requires Inv(sys, c, g, max, inherited) && r in sys.peers
    requires k < |sys.peers[r].outbox.accepted| && sys.peers[r].outbox.accepted[k].origin.From?
    ensures var e := sys.peers[r].outbox.accepted[k];
            var log := LogAt(sys.srv, e.origin.sender);
            e.origin.sender != r && exists m :: m in log && Shows(c, e.payload, Seen(m))
  {
    hide Server.Inv, RepliesOk, Relay.PeerOk, Shows;
    var a := sys.peers[r].outbox.accepted;
    var s := a[k].origin.sender;
    assert Relay.Linked(sys.peers, s, r) && InStep(sys, c, s);
    Relay.FromHas(a, k);
    var sent := Relay.At(sys.peers, s).broadcasts;
    assert a[k].payload in sent;
    var x :| 0 <= x < |sent| && sent[x] == a[k].payload;
    assert Shows(c, sent[x], Seen(LogAt(sys.srv, s)[x]));
  }

  /** No other session's log mentions the transfer. */
  predicate IdIsOf(srv: Server.Server, s: nat, id: string) {
    forall other <- srv.sessions :: other != s ==> forall m <- srv.sessions[other].log :: !About(m, id)
  }

  lemma EntryFacts(sys: System, c: Codec, g: Config, max: nat, inherited: set<Path>, s: nat, r: nat, id: string, k: nat)
    requires Inv(sys, c, g, max, inherited) && r in sys.peers && IdIsOf(sys.srv, s, id)
    requires k < |sys.peers[r].outbox.accepted|
    ensures var e := sys.peers[r].outbox.accepted[k];
            IsLine(c, e.payload) && (e.origin == From(s) || Silent(c, e.payload, id))
  {
    hide Server.Inv, Relay.RelayInv, IsLine, Spoken;
    var e := sys.peers[r].outbox.accepted[k];
    if e.origin.From? {
      RelayedEntry(sys, c, g, max, inherited, r, k);
      var log := LogAt(sys.srv, e.origin.sender);
      var m :| m in log && Shows(c, e.payload, Seen(m));
    } else {
      assert InStep(sys, c, r);
    }
  }

  lemma {:induction false} PayloadsAt(a: seq<Entry>, k: nat)
    requires k < |a|
    ensures |Payloads(a)| == |a| && Payloads(a)[k] == a[k].payload
    ensures Payloads(a)[..k] == Payloads(a[..k])
  {
    if k < |a| - 1 {
      PayloadsAt(a[..|a| - 1], k);
      assert a[..|a| - 1][..k] == a[..k];
    } else {
      PayloadsLength(a[..|a| - 1]);
      assert a[..k] == a[..|a| - 1];
    }
  }

  lemma {:induction false} PayloadsLength(a: seq<Entry>)
    ensures |Payloads(a)| == |a|
  {
    if a != [] { PayloadsLength(a[..|a| - 1]); }
  }

  lemma QueueIsLines(sys: System, c: Codec, g: Config, max: nat, inherited: set<Path>, s: nat, r: nat, id: string)
    requires Inv(sys, c, g, max, inherited) && r in sys.peers && IdIsOf(sys.srv, s, id)
    ensures AllLines(c, Payloads(sys.peers[r].outbox.accepted))
  {
    hide Inv, IsLine, IdIsOf;
    var a := sys.peers[r].outbox.accepted;
    PayloadsLength(a);
    forall p <- Payloads(a) ensures IsLine(c, p) {
      var k :| 0 <= k < |a| && Payloads(a)[k] == p;
      PayloadsAt(a, k);
      EntryFacts(sys, c, g, max, inherited, s, r, id, k);
    }
  }

  /** The place in the sender's log of the `e`-th entry of the recipient's queue. */
  function LogIndex(sys: System, s: nat, r: nat, e: nat): nat
    requires r in sys.peers && e <= |sys.peers[r].outbox.accepted|
  {
    Relay.JoinedAt(sys.peers[r], s) + |Relay.FromSender(sys.peers[r].outbox.accepted[..e], s)|
  }

  lemma SegmentSlices(sent: seq<string>, got: seq<string>, part: seq<string>, p: string, joined: nat)
    requires joined + |got| <= |sent| && got == sent[joined..joined + |got|] && part + [p] <= got
    ensures joined + |part| < |sent| && sent[joined + |part|] == p && part == sent[joined..joined + |part|]
  {
    assert got[..|part|] == part && got[|part|] == p;
    assert sent[joined..joined + |got|][..|part|] == sent[joined..joined + |part|];
  }

  /** Up to an entry of the sender's, the queue holds the sender's log from the
      registration on. */
  lemma QueueHoldsLog(sys: System, c: Codec, g: Config, max: nat, inherited: set<Path>, s: nat, r: nat, e: nat,
                      id: string)
    requires Inv(sys, c, g, max, inherited) && r in sys.peers && s != r && IdIsOf(sys.srv, s, id)
    requires e < |sys.peers[r].outbox.accepted| && sys.peers[r].outbox.accepted[e].origin == From(s)
    ensures var a := sys.peers[r].outbox.accepted;
            var (j, k, log) := (Relay.JoinedAt(sys.peers[r], s), LogIndex(sys, s, r, e), LogAt(sys.srv, s));
            && j <= k < |log| && Shows(c, a[e].payload, Seen(log[k]))
            && Only(Heard(c, Payloads(a[..e])), id) == Only(log[j..k], id)
  {
    hide Server.Inv, Relay.PeerOk, RepliesOk, Shows, Silent, IdIsOf, IsLine, Only, Heard;
    var a := sys.peers[r].outbox.accepted;
    var (j, k, log) := (Relay.JoinedAt(sys.peers[r], s), LogIndex(sys, s, r, e), LogAt(sys.srv, s));
    var sent, part := Relay.At(sys.peers, s).broadcasts, Relay.FromSender(a[..e], s);
    assert Relay.Linked(sys.peers, s, r) && InStep(sys, c, s);
    assert a[..e + 1] == a[..e] + [a[e]];
    Relay.FromSnoc(a[..e], a[e], s);
    FromPrefix(a, s, e + 1);
    SegmentSlices(sent, Relay.FromSender(a, s), part, a[e].payload, j);
    forall x | 0 <= x < |a[..e]| ensures a[..e][x].origin == From(s) || Silent(c, a[..e][x].payload, id) {
      EntryFacts(sys, c, g, max, inherited, s, r, id, x);
    }
    OnlyFrom(c, a[..e], s, id);
    OnlyShown(c, sent[j..k], log[j..k], id);
  }

  /* ------------------------------------------------------------- the receiving client */

  /** What the client handed on before it came to line `e`, and what it found there. */
  lemma ClientHeard(c: Codec, a: seq<Entry>, chunks: seq<string>, e: nat)
    requires AllLines(c, Payloads(a)) && Concat(chunks) <= Concat(Payloads(a))
    requires e < |RunPolls(chunks).lines|
    ensures e < |a|
    ensures MessagesIn(c, RunPolls(chunks).lines[..e]) == Heard(c, Payloads(a[..e]))
    ensures LineMessage(c, RunPolls(chunks).lines[e]) == HeardIn(c, a[e].payload)
  {
    hide IsLine, RunPolls, LineMessage, HeardIn, Payloads;
    var lines := RunPolls(chunks).lines;
    ClientSees(c, Payloads(a), chunks);
    PayloadsLength(a);
    PayloadsAt(a, e);
    LinesPrefix(Payloads(a)[..|lines|], e);
    LinesPrefix(Payloads(a)[..|lines|], e + 1);
    assert Payloads(a)[..|lines|][..e] == Payloads(a)[..e];
    assert Payloads(a)[..|lines|][..e + 1] == Payloads(a)[..e] + [a[e].payload];
    LineAfter(Payloads(a)[..e], a[e].payload);
    assert lines[e] == lines[..e + 1][e] == Stripped(a[e].payload);
    LineReads(c, Payloads(a)[e]);
    forall p <- Payloads(a)[..e] ensures IsLine(c, p) {}
    HeardLines(c, Payloads(a)[..e]);
  }

  lemma LineReads(c: Codec, payload: string)
    requires IsLine(c, payload)
    ensures LineMessage(c, Stripped(payload)) == HeardIn(c, payload)
  {}

  lemma LineAfter(payloads: seq<string>, p: string)
    ensures Lines(payloads + [p]) == Lines(payloads) + [Stripped(p)]
  {
    assert (payloads + [p])[..|payloads|] == payloads;
  }

  /** A client that heard, of one transfer, what the server logged of it since before its
      opening, sees the transfer as the server saw it at the completion. */
  lemma SameProgress(s: Server.Session, j: nat, k: nat, heard: seq<Message>)
    requires j <= k < |s.log| && s.log[k].TransferComplete?
    requires forall x | 0 <= x < |s.log| && s.log[x].TransferComplete? :: Server.CompletionOk(s, x)
    requires Only(heard, s.log[k].id) == Only(s.log[j..k], s.log[k].id)
    requires StartIndex(s.log[..k], s.log[k].id).Some? && StartIndex(s.log[..k], s.log[k].id).value >= j
    ensures Track(heard, s.log[k].id) == Track(s.log[..k], s.log[k].id) && Receiver.Unfinished(heard, s.log[k].id)
  {
    hide Server.CompletionOk, Track, Only, Receiver.Unfinished, StartIndex;
    var id, i, later := s.log[k].id, StartIndex(s.log[..k], s.log[k].id).value, s.log[j..k];
    assert s.log[..k] == s.log[..j] + later;
    StartInSuffix(s.log[..j], later, id, i);
    TrackSuffix(s.log[..j], later, id);
    TrackOnly(heard, id);
    TrackOnly(later, id);
    forall x | i - j < x < |later| ensures !(later[x].TransferComplete? && later[x].id == id) {
      if later[x].TransferComplete? && later[x].id == id {
        assert s.log[x + j] == later[x];
        NoEarlierCompletion(s, k, x + j, i);
      }
    }
    UnfinishedWhen(later, id, i - j);
    UnfinishedOnly(heard, id);
    UnfinishedOnly(later, id);
  }

  /** The client keeps the file just when it reads the declared size rightly, or as none. */
  predicate Rebuilt(before: Receiver.Local, after: Receiver.Local, size: nat, content: seq<byte>) {
    if Receiver.IntToSize(size) == 0 || Receiver.IntToSize(size) == size then
      && |after.saved| == |before.saved| + 1
      && var f := after.saved[|before.saved|];
      f.content == content && f.path in after.files && after.files[f.path] == content
    else after.saved == before.saved
  }

  /** The server's record of the completion at log position `k`. */
  lemma CommitOf(srv: Server.Server, g: Config, inherited: set<Path>, s: nat, k: nat)
    requires Server.Inv(srv, g, inherited) && s in srv.sessions
    requires k < |srv.sessions[s].log| && srv.sessions[s].log[k].TransferComplete?
    ensures var session := srv.sessions[s];
            var (log, id) := (session.log, session.log[k].id);
            && (forall x | 0 <= x < |log| && log[x].TransferComplete? :: Server.CompletionOk(session, x))
            && var i := StartIndex(log[..k], id);
            && i.Some? && i.value < k && i.value in session.fates && session.fates[i.value].Committed?
            && session.fates[i.value].at == k && log[i.value].TransferStart? && log[i.value].id == id
            && Server.CommitOk(srv.files, g, log, i.value, session.fates[i.value])
            && Track(log[..k], id).opening == Some(log[i.value])
  {
    hide Server.CommitOk, Track, StartIndex;
    var session := srv.sessions[s];
    assert Server.SessionOk(srv.files, srv.nextEvent, g, inherited, s, session);
    assert Server.CompletionOk(session, k);
    StartIndexPoints(session.log[..k], session.log[k].id);
  }

  lemma RebuiltFrom(present: Receiver.LocalFiles, items: seq<Receiver.Item>, last: Receiver.Item, g: Config,
                    opening: Message, content: seq<byte>)
    requires Receiver.AllRoomy(present, items, g.sha256) && last.m.TransferComplete?
    requires Receiver.Unfinished(Receiver.LogOf(items), last.m.id) && opening.TransferStart?
    requires var p := Track(Receiver.LogOf(items), last.m.id); p.opening == Some(opening) && p.bytes == content
    requires opening.size == |content| && (opening.sha256 != "" ==> g.sha256(content) == opening.sha256)
    ensures Rebuilt(Receiver.Handled(present, items, g.sha256), Receiver.Handled(present, items + [last], g.sha256),
                    opening.size, content)
  {
    Receiver.SavedIff(present, items, last, g.sha256);
  }

  /** What the client read is what a completion of the sender's log says. */
  lemma HeardIs(c: Codec, payload: string, m: Message, last: Message)
    requires Shows(c, payload, Seen(m)) && HeardIn(c, payload) == [last]
    ensures m == last
  {
    assert [last][0] == last;
  }

  /** Everything about one queue entry that carries a completion: the sender's log has it,
      the server committed it, and the client, if it was there before the opening, rebuilds
      what the server was sent. */
  lemma CompletionReaches(sys: System, c: Codec, g: Config, max: nat, inherited: set<Path>, s: nat, r: nat, e: nat,
                          heard: seq<Message>, last: Message)
    requires Inv(sys, c, g, max, inherited) && r in sys.peers && s != r && last.TransferComplete?
    requires IdIsOf(sys.srv, s, last.id)
    requires var a := sys.peers[r].outbox.accepted;
             && e < |a| && a[e].origin == From(s)
             && heard == Heard(c, Payloads(a[..e])) && HeardIn(c, a[e].payload) == [last]
    ensures var (k, log) := (LogIndex(sys, s, r, e), LogAt(sys.srv, s));
            && s in sys.srv.sessions && k < |log| && log[k] == last
            && (StartIndex(log[..k], last.id).Some?
                && StartIndex(log[..k], last.id).value >= Relay.JoinedAt(sys.peers[r], s) ==>
                  Track(heard, last.id) == Track(log[..k], last.id) && Receiver.Unfinished(heard, last.id))
  {
    hide Server.Inv, Relay.RelayInv, InStep, IdIsOf, Heard, HeardIn, Track, StartIndex, Only, Shows;
    var (j, k, log) := (Relay.JoinedAt(sys.peers[r], s), LogIndex(sys, s, r, e), LogAt(sys.srv, s));
    QueueHoldsLog(sys, c, g, max, inherited, s, r, e, last.id);
    HeardIs(c, sys.peers[r].outbox.accepted[e].payload, log[k], last);
    CommitOf(sys.srv, g, inherited, s, k);
    if StartIndex(log[..k], last.id).Some? && StartIndex(log[..k], last.id).value >= j {
      SameProgress(sys.srv.sessions[s], j, k, heard);
    }
  }

  /** What the server keeps of a completion, and what the client makes of it. */
  predicate Agree(srv: Server.Server, s: nat, k: nat, joined: nat, before: Receiver.Local, after: Receiver.Local)
    requires s in srv.sessions && k < |srv.sessions[s].log| && srv.sessions[s].log[k].TransferComplete?
  {
    var session := srv.sessions[s];
    var i := StartIndex(session.log[..k], session.log[k].id);
    && i.Some? && i.value < k && session.log[i.value].TransferStart?
    && i.value in session.fates && session.fates[i.value].Committed? && session.fates[i.value].at == k
    && var f := session.fates[i.value];
    && f.path in srv.files && srv.files[f.path] == f.content
    && (i.value >= joined && |f.content| == session.log[i.value].size ==>
          Rebuilt(before, after, session.log[i.value].size, f.content))
  }

  lemma ClientAgrees(sys: System, c: Codec, g: Config, max: nat, inherited: set<Path>, s: nat, r: nat, e: nat,
                     chunks: seq<string>, present: Receiver.LocalFiles, items: seq<Receiver.Item>, last: Receiver.Item)
    requires Inv(sys, c, g, max, inherited) && r in sys.peers && last.m.TransferComplete?
    requires IdIsOf(sys.srv, s, last.m.id) && Receiver.AllRoomy(present, items, g.sha256)
    requires Concat(chunks) <= sys.peers[r].outbox.wire && e < |RunPolls(chunks).lines|
    requires e < |sys.peers[r].outbox.accepted| && sys.peers[r].outbox.accepted[e].origin == From(s)
    requires Receiver.LogOf(items) == MessagesIn(c, RunPolls(chunks).lines[..e])
    requires LineMessage(c, RunPolls(chunks).lines[e]) == [last.m]
    ensures var k := LogIndex(sys, s, r, e);
            && s in sys.srv.sessions && k < |sys.srv.sessions[s].log| && sys.srv.sessions[s].log[k] == last.m
            && Agree(sys.srv, s, k, Relay.JoinedAt(sys.peers[r], s), Receiver.Handled(present, items, g.sha256),
                     Receiver.Handled(present, items + [last], g.sha256))
  {
    hide Server.Inv, InStep, IdIsOf, Heard, HeardIn, Track, StartIndex, Only, RunPolls, MessagesIn, LineMessage;
    var a := sys.peers[r].outbox.accepted;
    RelayedEntry(sys, c, g, max, inherited, r, e);
    QueueIsLines(sys, c, g, max, inherited, s, r, last.m.id);
    WireIsPrefix(sys.peers[r].outbox, max);
    ClientHeard(c, a, chunks, e);
    CompletionReaches(sys, c, g, max, inherited, s, r, e, Receiver.LogOf(items), last.m);
    var k := LogIndex(sys, s, r, e);
    CommitOf(sys.srv, g, inherited, s, k);
    AgreeFrom(sys.srv, g, s, k, Relay.JoinedAt(sys.peers[r], s), present, items, last);
  }

  lemma AgreeFrom(srv: Server.Server, g: Config, s: nat, k: nat, joined: nat,
                  present: Receiver.LocalFiles, items: seq<Receiver.Item>, last: Receiver.Item)
    requires s in srv.sessions && k < |srv.sessions[s].log| && srv.sessions[s].log[k] == last.m
    requires last.m.TransferComplete? && Receiver.AllRoomy(present, items, g.sha256)
    requires var session := srv.sessions[s];
             var (log, id) := (session.log, last.m.id);
             var i := StartIndex(log[..k], id);
             && i.Some? && i.value < k && i.value in session.fates && session.fates[i.value].Committed?
             && session.fates[i.value].at == k
             && log[i.value].TransferStart? && log[i.value].id == id
             && Server.CommitOk(srv.files, g, log, i.value, session.fates[i.value])
             && Track(log[..k], id).opening == Some(log[i.value])
             && (i.value >= joined ==> Track(Receiver.LogOf(items), id) == Track(log[..k], id)
                                       && Receiver.Unfinished(Receiver.LogOf(items), id))
    ensures Agree(srv, s, k, joined, Receiver.Handled(present, items, g.sha256),
                  Receiver.Handled(present, items + [last], g.sha256))
  {
    hide Track, StartIndex, Receiver.Handled, Receiver.AllRoomy, Receiver.Unfinished, Rebuilt;
    var session := srv.sessions[s];
    var i: nat := StartIndex(session.log[..k], last.m.id).value;
    var f := session.fates[i];
    if i >= joined && |f.content| == session.log[i].size {
      RebuiltFrom(present, items, last, g, session.log[i], f.content);
    }
  }

  /* ------------------------------------------------------------- over whole runs */

  lemma RegisteredBefore(sys: System, c: Codec, g: Config, max: nat, e: Event, r: nat)
    requires Enabled(sys, c, g, e) && r in sys.peers && (sys.peers[r].phase.Member? || sys.peers[r].phase.Left?)
    ensures var p := Relay.At(Next(sys, c, g, max, e).peers, r);
            r in Next(sys, c, g, max, e).peers && Relay.Joined(p, sys.peers[r].joinedAt)
  {
    hide Relay.Next, Server.Next, Handled;
    match e
    case Connect(sid) => Relay.JoinedOnce(sys.peers, max, Relay.Step.Connect(sid), r);
    case Route(step) => Relay.JoinedOnce(sys.peers, max, step, r);
    case Handle(_, _, _, _) => HandledIsNext(sys, g, e.sid, e.j, e.authOk, e.env);
    case Drop(_) =>
  }

  /** Session `r` registers by the event at position `q`. */
  ghost predicate RegistersAt(files: Files, now: int, c: Codec, g: Config, max: nat, events: seq<Event>, q: nat,
                              r: nat) {
    && q < |events| && events[q] == Event.Route(Relay.Step.Register(r))
    && Enabled(RunSystem(files, now, c, g, max, events[..q]), c, g, events[q])
  }

  /** How many broadcasts session `s` had made by then. */
  ghost function BroadcastsBy(files: Files, now: int, c: Codec, g: Config, max: nat, events: seq<Event>, q: nat,
                              s: nat): nat
    requires q <= |events|
  {
    |Relay.At(RunSystem(files, now, c, g, max, events[..q]).peers, s).broadcasts|
  }

  lemma {:induction false} JoinedWhenRegistered(files: Files, now: int, c: Codec, g: Config, max: nat,
                                                events: seq<Event>, q: nat, r: nat)
    requires RegistersAt(files, now, c, g, max, events, q, r)
    ensures var peers := RunSystem(files, now, c, g, max, events).peers;
            r in peers && Relay.Joined(peers[r], Relay.JoinCounts(RunSystem(files, now, c, g, max, events[..q]).peers))
  {
    hide Relay.JoinCounts;
    var init, e := events[..|events| - 1], events[|events| - 1];
    var before := RunSystem(files, now, c, g, max, init);
    if q == |init| {
      assert events[..q] == init;
    } else {
      assert init[..q] == events[..q];
      JoinedWhenRegistered(files, now, c, g, max, init, q, r);
      if Enabled(before, c, g, e) {
        RegisteredBefore(before, c, g, max, e, r);
      }
    }
  }

  /** Session `r`'s client has read `chunks` of what was put on its wire and handed `items`
      on; its line `e`, which came from session `s`, is the completion `last`. Transfer ids
      differ between sessions, and the client's disk opens its files. */
  ghost predicate HandlesCompletion(sys: System, c: Codec, g: Config, s: nat, r: nat, e: nat, chunks: seq<string>,
                                    present: Receiver.LocalFiles, items: seq<Receiver.Item>, last: Receiver.Item) {
    && last.m.TransferComplete? && IdIsOf(sys.srv, s, last.m.id) && Receiver.AllRoomy(present, items, g.sha256)
    && r in sys.peers && Concat(chunks) <= sys.peers[r].outbox.wire && e < |RunPolls(chunks).lines|
    && e < |sys.peers[r].outbox.accepted| && sys.peers[r].outbox.accepted[e].origin == From(s)
    && Receiver.LogOf(items) == MessagesIn(c, RunPolls(chunks).lines[..e])
    && LineMessage(c, RunPolls(chunks).lines[e]) == [last.m]
  }

  /** End to end. Take any run of the whole server. Session `r` registered at event `q`,
      its client has read some part of what was put on its wire, in any reads, and now
      handles a completion that session `s` sent. Then the server committed that transfer;
      and if its opening was broadcast after `r` registered, and what reached the server's
      disk is the whole file, then the client saves a file equal to the server's, octet for
      octet, its own size and hash checks included - just when it reads the declared size
      rightly or as zero. Transfer ids must differ between sessions, and the client's disk
      must open its files. */
  lemma ReceiverEqualsServer(files: Files, now: int, c: Codec, g: Config, max: nat, events: seq<Event>, q: nat,
                             s: nat, r: nat, e: nat, chunks: seq<string>,
                             present: Receiver.LocalFiles, items: seq<Receiver.Item>, last: Receiver.Item)
    requires RoundTrips(c) && StampsMovedOn(files, events) && RegistersAt(files, now, c, g, max, events, q, r)
    requires HandlesCompletion(RunSystem(files, now, c, g, max, events), c, g, s, r, e, chunks, present, items, last)
    ensures var sys := RunSystem(files, now, c, g, max, events);
            var k := LogIndex(sys, s, r, e);
            && s in sys.srv.sessions && k < |sys.srv.sessions[s].log| && sys.srv.sessions[s].log[k] == last.m
            && Agree(sys.srv, s, k, BroadcastsBy(files, now, c, g, max, events, q, s),
                     Receiver.Handled(present, items, g.sha256), Receiver.Handled(present, items + [last], g.sha256))
  {
    hide Inv, Enabled, Next, Agree, RunPolls, MessagesIn, LineMessage, IdIsOf, RoundTrips;
    hide Receiver.Handled, Receiver.AllRoomy;
    SystemOk(files, now, c, g, max, events);
    JoinedWhenRegistered(files, now, c, g, max, events, q, r);
    var sys := RunSystem(files, now, c, g, max, events);
    ClientAgrees(sys, c, g, max, files.Keys, s, r, e, chunks, present, items, last);
    assert Relay.JoinedAt(sys.peers[r], s) == BroadcastsBy(files, now, c, g, max, events, q, s);
  }

  lemma CommittedStart(srv: Server.Server, g: Config, inherited: set<Path>, s: nat, i: nat)
    requires Server.Inv(srv, g, inherited) && s in srv.sessions
    requires i in srv.sessions[s].fates && srv.sessions[s].fates[i].Committed?
    ensures var (log, f) := (srv.sessions[s].log, srv.sessions[s].fates[i]);
            && i < f.at < |log| && log[i].TransferStart? && log[f.at] == TransferComplete(log[i].id)
            && StartIndex(log[..f.at], log[i].id) == Some(i)
  {
    assert Server.SessionOk(srv.files, srv.nextEvent, g, inherited, s, srv.sessions[s]);
    assert Server.CommitOk(srv.files, g, srv.sessions[s].log, i, srv.sessions[s].fates[i]);
  }

  /* ------------------------------------------------------------- below two gigabytes */

  predicate OpeningsFit(g: Config, log: seq<Message>) {
    forall m <- log :: m.TransferStart? ==> m.size <= g.maxMessage
  }

  lemma AcceptedOpeningFits(x: Server.Server, g: Config, sid: nat, m: Message, authOk: bool, env: Env)
    requires sid in x.sessions && m.TransferStart? && Server.Continue(x, g, sid, m, authOk, env).1 == Accepted
    ensures m.size <= g.maxMessage
  {
    var c := Server.CoreOf(x, sid);
    assert HandleStart(c, g, sid, x.sessions[sid].user, m, env).1 == Accepted;
    assert StartProblem(c, g, m).None?;
  }

  lemma HandledFits(sys: System, g: Config, sid: nat, j: Json, authOk: bool, env: Env, s: nat)
    requires sid in sys.srv.sessions && OpeningsFit(g, LogAt(sys.srv, s))
    ensures OpeningsFit(g, LogAt(Handled(sys, g, sid, j, authOk, env).srv, s))
  {
    hide Server.Continue, View, Forwarded;
    ProcessLogs(sys.srv, g, sid, View(j), authOk, env);
    if View(j).TransferStart? && Server.Process(sys.srv, g, sid, View(j), authOk, env).1 == Accepted {
      AcceptedOpeningFits(Server.Expire(sys.srv, sid, env.expiryClock), g, sid, View(j), authOk, env);
    }
  }

  /** No session ever logs an opening above the server's message limit. */
  lemma {:induction false} OpeningsAlwaysFit(files: Files, now: int, c: Codec, g: Config, max: nat, events: seq<Event>,
                                             s: nat)
    ensures OpeningsFit(g, LogAt(RunSystem(files, now, c, g, max, events).srv, s))
  {
    if events != [] {
      var init, e := events[..|events| - 1], events[|events| - 1];
      OpeningsAlwaysFit(files, now, c, g, max, init, s);
      var sys := RunSystem(files, now, c, g, max, init);
      if Enabled(sys, c, g, e) && e.Handle? {
        hide OpeningsFit, Handled;
        HandledFits(sys, g, e.sid, e.j, e.authOk, e.env, s);
      }
    }
  }
}
