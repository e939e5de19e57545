/** The whole server: the transfer handlers of Server and the threads of Relay, run
    together. A message the handlers accept is what its session broadcasts next. */
module ServerSystem {
  import opened Basics
  import opened Framing
  import opened Messages
  import opened Storage
  import opened Transfers
  import opened Bundles
  import opened Protocol
  import opened SendQueue
  import Server
  import ServerSteps
  import ServerRuns
  import Relay

  /** The JSON library. */
  datatype Codec = Codec(dump: Json -> string, parse: string -> Option<Json>)

  /** Dumping and parsing round-trip, and a dumped value is one line with nothing blank at
      its ends. */
  ghost predicate RoundTrips(c: Codec) {
    forall j :: c.parse(c.dump(j)) == Some(j) && '\n' !in c.dump(j) && Tidy(c.dump(j))
  }

  /** `message.dump() + "\n"`. */
  function LineOf(c: Codec, j: Json): string {
    c.dump(j) + ['\n']
  }

  /** `due` holds the forwarded message of a session between its acceptance and its
      broadcast, `owed` the sessions that logged in and have not been answered yet. */
  datatype System = System(srv: Server.Server, peers: Relay.Peers, due: map<nat, Json>, owed: set<nat>)

  datatype Event =
    | Connect(sid: nat)
    | Handle(sid: nat, j: Json, authOk: bool, env: Env)
    | Route(step: Relay.Step)
    | Drop(sid: nat)

  /** One line of JSON, newline included. */
  predicate IsLine(c: Codec, payload: string) {
    && payload != "" && payload[|payload| - 1] == '\n'
    && var line := payload[..|payload| - 1];
    '\n' !in line && Tidy(line) && c.parse(line).Some?
  }

  /** The transfer message, if any, that the receiving client reads from a payload. */
  function ReadAs(c: Codec, payload: string): Option<Message> {
    if IsLine(c, payload) then ClientView(c.parse(payload[..|payload| - 1]).value) else None
  }

  predicate Shows(c: Codec, payload: string, m: Option<Message>) {
    IsLine(c, payload) && ReadAs(c, payload) == m
  }

  function Seen(m: Message): Option<Message> {
    if IsTransfer(m) then Some(m) else None
  }

  /** A reader handles its next message once its last broadcast is out and its login is
      answered. Replies are lines no client takes for a transfer message; a greeting answers
      a login; what is broadcast is what is due. */
  predicate Enabled(sys: System, c: Codec, g: Config, e: Event) {
    match e
    case Connect(sid) => sid !in sys.srv.sessions && sid !in sys.peers
    case Handle(sid, j, _, _) =>
      && sid in sys.srv.sessions && sid in sys.peers && sid !in sys.due && sid !in sys.owed
      && sys.peers[sid].pending == {}
      && Validate(j, Routable(g.maxMessage)).Valid?
    case Route(step) =>
      && Relay.Enabled(sys.peers, step) && !step.Connect?
      && (step.Greet? ==> step.sid in sys.owed)
      && (step.Greet? || step.Answer? ==> Shows(c, step.reply, None))
      && (step.Broadcast? ==> step.sid in sys.due && step.payload == LineOf(c, sys.due[step.sid]))
    case Drop(sid) => sid in sys.srv.sessions && sid in sys.peers && !sys.peers[sid].phase.Member?
  }

  ghost function Handled(sys: System, g: Config, sid: nat, j: Json, authOk: bool, env: Env): System
    requires sid in sys.srv.sessions
  {
    var (after, verdict) := Server.Process(sys.srv, g, sid, View(j), authOk, env);
    sys.(srv := after,
         due := if verdict == Accepted then sys.due[sid := Forwarded(j, sys.srv.sessions[sid].user)] else sys.due,
         owed := if verdict == LoggedIn then sys.owed + {sid} else sys.owed)
  }

  ghost function Next(sys: System, c: Codec, g: Config, max: nat, e: Event): System
    requires Enabled(sys, c, g, e)
  {
    match e
    case Connect(sid) =>
      sys.(srv := Server.Next(sys.srv, g, Server.Event.Connect(sid)),
           peers := Relay.Next(sys.peers, max, Relay.Step.Connect(sid)))
    case Handle(sid, j, authOk, env) => Handled(sys, g, sid, j, authOk, env)
    case Route(step) =>
      sys.(peers := Relay.Next(sys.peers, max, step),
           due := if step.Broadcast? then sys.due - {step.sid} else sys.due,
           owed := if step.Greet? then sys.owed - {step.sid} else sys.owed)
    case Drop(sid) => sys.(srv := Server.Next(sys.srv, g, Server.Event.End(sid)))
  }

  ghost function RunSystem(files: Files, now: int, c: Codec, g: Config, max: nat, events: seq<Event>): System {
    if events == [] then System(ServerRuns.Started(files, now), map[], map[], {})
    else
      var before, e := RunSystem(files, now, c, g, max, events[..|events| - 1]), events[|events| - 1];
      if Enabled(before, c, g, e) then Next(before, c, g, max, e) else before
  }

  predicate StampsMovedOn(files: Files, events: seq<Event>) {
    forall e <- events :: e.Handle? ==> Server.StampFresh(files.Keys, e.env.stamp)
  }

  /* ------------------------------------------------------------- the invariant */

  predicate AllShown(c: Codec, sent: seq<string>, log: seq<Message>) {
    |sent| <= |log| && forall k | 0 <= k < |sent| :: Shows(c, sent[k], Seen(log[k]))
  }

  /** What a session has broadcast is its log, but for the message still due. */
  predicate Spoken(c: Codec, sent: seq<string>, due: Option<Json>, log: seq<Message>) {
    && AllShown(c, sent, log)
    && |log| == |sent| + (if due.Some? then 1 else 0)
    && (due.Some? ==> ClientView(due.value) == Seen(log[|sent|]))
  }

  predicate RepliesOk(c: Codec, entries: seq<Entry>) {
    forall k | 0 <= k < |entries| && !entries[k].origin.From? :: Shows(c, entries[k].payload, None)
  }

  function DueOf(due: map<nat, Json>, sid: nat): Option<Json> {
    if sid in due then Some(due[sid]) else None
  }

  function LogAt(srv: Server.Server, sid: nat): seq<Message> {
    if sid in srv.sessions then srv.sessions[sid].log else []
  }

  predicate Authenticated(srv: Server.Server, sid: nat) {
    sid in srv.sessions && srv.sessions[sid].authenticated
  }

  predicate InStep(sys: System, c: Codec, sid: nat) {
    var p := Relay.At(sys.peers, sid);
    && Spoken(c, p.broadcasts, DueOf(sys.due, sid), LogAt(sys.srv, sid))
    && RepliesOk(c, p.outbox.accepted)
    && (!p.phase.Fresh? || sid in sys.owed ==> Authenticated(sys.srv, sid))
  }

  ghost predicate Inv(sys: System, c: Codec, g: Config, max: nat, inherited: set<Path>) {
    && Server.Inv(sys.srv, g, inherited) && Relay.RelayInv(sys.peers, max)
    && sys.srv.sessions.Keys == sys.peers.Keys
    && forall sid: nat :: InStep(sys, c, sid)
  }

  lemma LineShows(c: Codec, j: Json)
    requires RoundTrips(c)
    ensures Shows(c, LineOf(c, j), ClientView(j))
  {
    assert c.parse(c.dump(j)) == Some(j);
    var p := LineOf(c, j);
    assert p[..|p| - 1] == c.dump(j);
  }

  /* ------------------------------------------------------------- the server's side */

  lemma ContinueLogs(e: Server.Server, g: Config, sid: nat, m: Message, authOk: bool, env: Env)
    requires sid in e.sessions
    ensures var (after, verdict) := Server.Continue(e, g, sid, m, authOk, env);
            && after.sessions.Keys == e.sessions.Keys
            && after.sessions[sid].log
              == (if verdict == Accepted then e.sessions[sid].log + [m] else e.sessions[sid].log)
            && (e.sessions[sid].authenticated || verdict == LoggedIn ==> after.sessions[sid].authenticated)
            && forall other <- e.sessions :: other != sid ==> after.sessions[other] == e.sessions[other]
  {
    hide HandleTransfer, Persist;
  }

  /** An accepted message is what the session's log grows by; nothing else is logged. */
  lemma ProcessLogs(srv: Server.Server, g: Config, sid: nat, m: Message, authOk: bool, env: Env)
    requires sid in srv.sessions
    ensures var (after, verdict) := Server.Process(srv, g, sid, m, authOk, env);
            && after.sessions.Keys == srv.sessions.Keys
            && after.sessions[sid].log
              == (if verdict == Accepted then srv.sessions[sid].log + [m] else srv.sessions[sid].log)
            && (srv.sessions[sid].authenticated || verdict == LoggedIn ==> after.sessions[sid].authenticated)
            && forall other <- srv.sessions :: other != sid ==> after.sessions[other] == srv.sessions[other]
  {
    hide Server.Continue;
    ContinueLogs(Server.Expire(srv, sid, env.expiryClock), g, sid, m, authOk, env);
  }

  lemma SpokenMore(c: Codec, sent: seq<string>, log: seq<Message>, m: Message, f: Json)
    requires Spoken(c, sent, None, log) && ClientView(f) == Seen(m)
    ensures Spoken(c, sent, Some(f), log + [m])
  {}

  lemma HandleOk(sys: System, c: Codec, g: Config, max: nat, inherited: set<Path>, sid: nat, j: Json, authOk: bool,
                 env: Env)
    requires Inv(sys, c, g, max, inherited) && Enabled(sys, c, g, Event.Handle(sid, j, authOk, env))
    requires Server.StampFresh(inherited, env.stamp)
    ensures Inv(Handled(sys, g, sid, j, authOk, env), c, g, max, inherited)
  {
    hide Server.Process, Server.Inv, Relay.RelayInv, Validate, Forwarded, View, AllShown, Spoken;
    var after := Handled(sys, g, sid, j, authOk, env);
    ProcessLogs(sys.srv, g, sid, View(j), authOk, env);
    ServerRuns.ProcessGood(sys.srv, g, inherited, sid, View(j), authOk, env);
    RelayedViewAgrees(j, sys.srv.sessions[sid].user, Routable(g.maxMessage));
    forall other: nat ensures InStep(after, c, other) {
      assert InStep(sys, c, other);
      if other == sid && sid in after.due {
        SpokenMore(c, Relay.At(sys.peers, sid).broadcasts, LogAt(sys.srv, sid), View(j),
                   Forwarded(j, sys.srv.sessions[sid].user));
      }
    }
  }

  /* ------------------------------------------------------------- the relay's side */

  lemma BroadcastsAfter(peers: Relay.Peers, max: nat, step: Relay.Step, s: nat)
    requires Relay.Enabled(peers, step)
    ensures Relay.At(Relay.Next(peers, max, step), s).broadcasts
            == if step.Broadcast? && step.sid == s then Relay.At(peers, s).broadcasts + [step.payload]
               else Relay.At(peers, s).broadcasts
    ensures !Relay.At(Relay.Next(peers, max, step), s).phase.Fresh?
            ==> !Relay.At(peers, s).phase.Fresh? || (step.Greet? && step.sid == s)
    ensures Relay.Next(peers, max, step).Keys == if step.Connect? then peers.Keys + {step.sid} else peers.Keys
  {
    hide Offer, Take, Transmit;
  }

  function Latest(sent: seq<string>): string {
    if sent == [] then "" else sent[|sent| - 1]
  }

  /** A queue grows by nothing, by a relayed payload, or by the reply just made. */
  lemma AcceptedAfter(peers: Relay.Peers, max: nat, step: Relay.Step, s: nat)
    requires Relay.Enabled(peers, step)
    ensures var before := Relay.At(peers, s).outbox.accepted;
            var after := Relay.At(Relay.Next(peers, max, step), s).outbox.accepted;
            || after == before
            || (step.Deliver?
                && after == before + [Entry(From(step.sid), Latest(Relay.At(peers, step.sid).broadcasts))])
            || (step.Greet? && after == before + [Entry(Greeting, step.reply)])
            || (step.Answer? && after == before + [Entry(Reply, step.reply)])
  {}

  lemma RepliesMore(c: Codec, entries: seq<Entry>, e: Entry)
    requires RepliesOk(c, entries) && (e.origin.From? || Shows(c, e.payload, None))
    ensures RepliesOk(c, entries + [e])
  {}

  lemma RepliesAfter(sys: System, c: Codec, g: Config, max: nat, step: Relay.Step, s: nat)
    requires Enabled(sys, c, g, Event.Route(step)) && RepliesOk(c, Relay.At(sys.peers, s).outbox.accepted)
    ensures RepliesOk(c, Relay.At(Relay.Next(sys.peers, max, step), s).outbox.accepted)
  {
    hide Relay.Next, Relay.Enabled, Shows, RepliesOk;
    AcceptedAfter(sys.peers, max, step, s);
    var a := Relay.At(sys.peers, s).outbox.accepted;
    if step.Greet? {
      RepliesMore(c, a, Entry(Greeting, step.reply));
    } else if step.Answer? {
      RepliesMore(c, a, Entry(Reply, step.reply));
    } else if step.Deliver? && Relay.At(Relay.Next(sys.peers, max, step), s).outbox.accepted != a {
      RepliesMore(c, a, Entry(From(step.sid), Latest(Relay.At(sys.peers, step.sid).broadcasts)));
    }
  }

  lemma SpokenOut(c: Codec, sent: seq<string>, log: seq<Message>, f: Json)
    requires RoundTrips(c) && Spoken(c, sent, Some(f), log)
    ensures Spoken(c, sent + [LineOf(c, f)], None, log)
  {
    hide RoundTrips, Shows;
    LineShows(c, f);
  }

  lemma RouteOk(sys: System, c: Codec, g: Config, max: nat, inherited: set<Path>, step: Relay.Step)
    requires RoundTrips(c) && Inv(sys, c, g, max, inherited) && Enabled(sys, c, g, Event.Route(step))
    ensures Inv(Next(sys, c, g, max, Event.Route(step)), c, g, max, inherited)
  {
    hide RoundTrips, Server.Inv, Relay.RelayInv, Relay.Next, Relay.Enabled, Shows, Spoken, RepliesOk;
    var after := Next(sys, c, g, max, Event.Route(step));
    Relay.NextOk(sys.peers, max, step);
    BroadcastsAfter(sys.peers, max, step, 0);
    forall s: nat ensures InStep(after, c, s) {
      assert InStep(sys, c, s);
      BroadcastsAfter(sys.peers, max, step, s);
      RepliesAfter(sys, c, g, max, step, s);
      if step.Broadcast? && step.sid == s {
        SpokenOut(c, Relay.At(sys.peers, s).broadcasts, LogAt(sys.srv, s), sys.due[s]);
      }
    }
  }

  lemma ConnectOk(sys: System, c: Codec, g: Config, max: nat, inherited: set<Path>, sid: nat)
    requires Inv(sys, c, g, max, inherited) && Enabled(sys, c, g, Event.Connect(sid))
    ensures Inv(Next(sys, c, g, max, Event.Connect(sid)), c, g, max, inherited)
  {
    hide Server.Inv, Relay.RelayInv, Spoken, RepliesOk;
    ServerRuns.NextGood(sys.srv, g, inherited, Server.Event.Connect(sid));
    Relay.NextOk(sys.peers, max, Relay.Step.Connect(sid));
    var after := Next(sys, c, g, max, Event.Connect(sid));
    forall s: nat ensures InStep(after, c, s) {
      assert InStep(sys, c, s);
    }
  }

  lemma DropOk(sys: System, c: Codec, g: Config, max: nat, inherited: set<Path>, sid: nat)
    requires Inv(sys, c, g, max, inherited) && Enabled(sys, c, g, Event.Drop(sid))
    ensures Inv(Next(sys, c, g, max, Event.Drop(sid)), c, g, max, inherited)
  {
    hide Server.Inv, Relay.RelayInv, Spoken, RepliesOk;
    ServerRuns.NextGood(sys.srv, g, inherited, Server.Event.End(sid));
    var after := Next(sys, c, g, max, Event.Drop(sid));
    forall s: nat ensures InStep(after, c, s) {
      assert InStep(sys, c, s);
    }
  }

  lemma NextOk(sys: System, c: Codec, g: Config, max: nat, inherited: set<Path>, e: Event)
    requires RoundTrips(c) && Inv(sys, c, g, max, inherited) && Enabled(sys, c, g, e)
    requires e.Handle? ==> Server.StampFresh(inherited, e.env.stamp)
    ensures Inv(Next(sys, c, g, max, e), c, g, max, inherited)
  {
    hide Inv, RoundTrips, Relay.Next, Relay.Enabled;
    match e
    case Connect(sid) => ConnectOk(sys, c, g, max, inherited, sid);
    case Handle(sid, j, authOk, env) => HandleOk(sys, c, g, max, inherited, sid, j, authOk, env);
    case Route(step) => RouteOk(sys, c, g, max, inherited, step);
    case Drop(sid) => DropOk(sys, c, g, max, inherited, sid);
  }

  lemma StartedOk(files: Files, now: int, c: Codec, g: Config, max: nat)
    ensures Inv(System(ServerRuns.Started(files, now), map[], map[], {}), c, g, max, files.Keys)
  {
    ServerRuns.Always(files, now, g, []);
    Relay.NobodyYet(max);
  }

  lemma {:induction false} SystemOk(files: Files, now: int, c: Codec, g: Config, max: nat, events: seq<Event>)
    requires RoundTrips(c) && StampsMovedOn(files, events)
    ensures Inv(RunSystem(files, now, c, g, max, events), c, g, max, files.Keys)
  {
    hide Inv, RoundTrips, Next, Enabled, Server.StampFresh;
    if events == [] {
      StartedOk(files, now, c, g, max);
    } else {
      var init, e := events[..|events| - 1], events[|events| - 1];
      assert e in events;
      SystemOk(files, now, c, g, max, init);
      if Enabled(RunSystem(files, now, c, g, max, init), c, g, e) {
        NextOk(RunSystem(files, now, c, g, max, init), c, g, max, files.Keys, e);
      }
    }
  }

  /** Only authenticated sessions are greeted, registered or heard, in every run. */
  lemma OnlyAuthenticated(files: Files, now: int, c: Codec, g: Config, max: nat, events: seq<Event>, sid: nat)
    requires RoundTrips(c) && StampsMovedOn(files, events)
    ensures var sys := RunSystem(files, now, c, g, max, events);
            !Relay.At(sys.peers, sid).phase.Fresh? || LogAt(sys.srv, sid) != []
                || Relay.At(sys.peers, sid).broadcasts != []
            ==> Authenticated(sys.srv, sid)
  {
    SystemOk(files, now, c, g, max, events);
    var sys := RunSystem(files, now, c, g, max, events);
    assert InStep(sys, c, sid);
    if sid in sys.srv.sessions {
      var s := sys.srv.sessions[sid];
      assert Server.SessionOk(sys.srv.files, sys.srv.nextEvent, g, files.Keys, sid, s);
    }
  }

  /* ------------------------------------------------------------- two views of one run */

  function ServerPart(e: Event): seq<Server.Event> {
    match e
    case Connect(sid) => [Server.Event.Connect(sid)]
    case Handle(sid, j, authOk, env) => [Server.Event.Receive(sid, View(j), authOk, env)]
    case Drop(sid) => [Server.Event.End(sid)]
    case Route(_) => []
  }

  function RelayPart(e: Event): seq<Relay.Step> {
    match e
    case Connect(sid) => [Relay.Step.Connect(sid)]
    case Route(step) => [step]
    case _ => []
  }

  /** The events that took place, as the storage and as the threads see them. */
  ghost function ServerEvents(files: Files, now: int, c: Codec, g: Config, max: nat,
                              events: seq<Event>): seq<Server.Event> {
    if events == [] then []
    else
      var init, e := events[..|events| - 1], events[|events| - 1];
      ServerEvents(files, now, c, g, max, init)
      + (if Enabled(RunSystem(files, now, c, g, max, init), c, g, e) then ServerPart(e) else [])
  }

  ghost function RelaySteps(files: Files, now: int, c: Codec, g: Config, max: nat,
                            events: seq<Event>): seq<Relay.Step> {
    if events == [] then []
    else
      var init, e := events[..|events| - 1], events[|events| - 1];
      RelaySteps(files, now, c, g, max, init)
      + (if Enabled(RunSystem(files, now, c, g, max, init), c, g, e) then RelayPart(e) else [])
  }

  lemma ServerRunSnoc(srv: Server.Server, g: Config, events: seq<Server.Event>, e: Server.Event)
    ensures var before := ServerRuns.Run(srv, g, events);
            ServerRuns.Run(srv, g, events + [e])
            == if Server.Enabled(before, e) then Server.Next(before, g, e) else before
  {
    assert (events + [e])[..|events|] == events;
  }

  lemma RelayRunSnoc(max: nat, steps: seq<Relay.Step>, e: Relay.Step)
    ensures var before := Relay.Run(max, steps);
            Relay.Run(max, steps + [e]) == if Relay.Enabled(before, e) then Relay.Next(before, max, e) else before
  {
    assert (steps + [e])[..|steps|] == steps;
  }

  /** Every run of the whole server is a run of its storage and a run of its threads: what
      is proved of either holds here. */
  lemma {:induction false} BothViews(files: Files, now: int, c: Codec, g: Config, max: nat, events: seq<Event>)
    ensures var sys := RunSystem(files, now, c, g, max, events);
            && sys.srv == ServerRuns.Run(ServerRuns.Started(files, now), g, ServerEvents(files, now, c, g, max, events))
            && sys.peers == Relay.Run(max, RelaySteps(files, now, c, g, max, events))
  {
    if events != [] {
      hide Server.Next, Relay.Next, Relay.Enabled, ServerRuns.Run, Relay.Run, View, Validate, Shows;
      var init, e := events[..|events| - 1], events[|events| - 1];
      BothViews(files, now, c, g, max, init);
      var sys, before, steps := RunSystem(files, now, c, g, max, init), ServerEvents(files, now, c, g, max, init),
                                RelaySteps(files, now, c, g, max, init);
      var started := ServerRuns.Started(files, now);
      assert before + [] == before && steps + [] == steps;
      if Enabled(sys, c, g, e) {
        match e
        case Connect(sid) =>
          ServerRunSnoc(started, g, before, Server.Event.Connect(sid));
          RelayRunSnoc(max, steps, Relay.Step.Connect(sid));
          ConnectEnabled(sys.peers, sid);
        case Handle(sid, j, authOk, env) =>
          ServerRunSnoc(started, g, before, Server.Event.Receive(sid, View(j), authOk, env));
          HandledIsNext(sys, g, sid, j, authOk, env);
        case Route(step) => RelayRunSnoc(max, steps, step);
        case Drop(sid) => ServerRunSnoc(started, g, before, Server.Event.End(sid));
      }
    }
  }

  lemma ConnectEnabled(peers: Relay.Peers, sid: nat)
    requires sid !in peers
    ensures Relay.Enabled(peers, Relay.Step.Connect(sid))
  {}

  lemma HandledIsNext(sys: System, g: Config, sid: nat, j: Json, authOk: bool, env: Env)
    requires sid in sys.srv.sessions
    ensures Handled(sys, g, sid, j, authOk, env).srv
            == Server.Next(sys.srv, g, Server.Event.Receive(sid, View(j), authOk, env))
    ensures Handled(sys, g, sid, j, authOk, env).peers == sys.peers
  {}
}
