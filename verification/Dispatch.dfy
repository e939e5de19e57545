/** server_common/tcpserver.cpp, `processMessage` and `authenticateClient` as the code
    runs them, on the objects they update, and as the steps Server takes. */
module Dispatch {
  import opened Basics
  import opened Storage
  import opened Messages
  import opened UploadBudget
  import opened Transfers
  import opened Bundles
  import opened Router
  import opened SendQueue
  import AuthLimiter
  import Server
  import ServerSteps

  datatype Credentials = Credentials(username: string, password: string)

  /** What one message can change for its session. */
  datatype State = State(core: Core, authenticated: bool, user: string)

  ghost function Dispatched(v: State, g: Config, sid: nat, m: Message, authOk: bool, env: Env): (State, Verdict) {
    var x := v.(core := ExpireTransfers(v.core, env.expiryClock));
    if m.Auth? then
      if x.authenticated then (x, Rejected("ALREADY_AUTHENTICATED"))
      else if authOk then (x.(authenticated := true, user := m.username), LoggedIn)
      else (x, Rejected("FAILED"))
    else if !x.authenticated then (x, Rejected("UNAUTHENTICATED"))
    else if m.Ping? then (x, Pong)
    else if m.ClipboardText? then (x, Accepted)
    else if m.FileBundle? then
      var o := Persist(x.core.files, x.core.nextEvent, x.core.budget, g, x.user, m.files, env);
      (x.(core := Core(o.files, o.nextEvent, o.budget, x.core.transfers)), o.verdict)
    else
      var (d, verdict) := HandleTransfer(x.core, g, sid, x.user, m, env);
      (x.(core := d), verdict)
  }

  function StateOf(srv: Server.Server, sid: nat): State
    requires sid in srv.sessions
  {
    State(Server.CoreOf(srv, sid), srv.sessions[sid].authenticated, srv.sessions[sid].user)
  }

  lemma ContinueIsDispatch(x: Server.Server, g: Config, sid: nat, m: Message, authOk: bool, env: Env,
                           before: Server.Server)
    requires sid in x.sessions && sid in before.sessions
    requires StateOf(x, sid)
        == StateOf(before, sid).(core := ExpireTransfers(Server.CoreOf(before, sid), env.expiryClock))
    ensures var (after, verdict) := Server.Continue(x, g, sid, m, authOk, env);
            sid in after.sessions && (StateOf(after, sid), verdict)
                == Dispatched(StateOf(before, sid), g, sid, m, authOk, env)
  {
    hide HandleTransfer, Persist, ExpireTransfers;
  }

  /** A step of the server is one dispatched message. */
  lemma ProcessIsDispatch(srv: Server.Server, g: Config, sid: nat, m: Message, authOk: bool, env: Env)
    requires sid in srv.sessions
    ensures var (after, verdict) := Server.Process(srv, g, sid, m, authOk, env);
            sid in after.sessions && (StateOf(after, sid), verdict)
                == Dispatched(StateOf(srv, sid), g, sid, m, authOk, env)
  {
    hide Server.Continue, Dispatched;
    ContinueIsDispatch(Server.Expire(srv, sid, env.expiryClock), g, sid, m, authOk, env, srv);
  }

  /** What `processMessage` relies on: counters within bounds, a work file per transfer. */
  predicate Orderly(c: Core) {
    c.budget.used <= UPLOAD_LIMIT && HasWork(c) && Server.Apart(c.transfers)
  }

  /** Every reachable state meets it. */
  lemma ReachableIsOrderly(srv: Server.Server, g: Config, inherited: set<Path>, sid: nat)
    requires Server.Inv(srv, g, inherited) && sid in srv.sessions
    ensures Orderly(Server.CoreOf(srv, sid))
  {
    var s := srv.sessions[sid];
    assert Server.SessionOk(srv.files, srv.nextEvent, g, inherited, sid, s);
    forall id <- s.transfers
      ensures s.transfers[id].temporaryPath in srv.files && s.transfers[id].receivedSize <= s.transfers[id].expectedSize
    {
      assert Server.Attached(srv.files, srv.nextEvent, sid, s.transfers[id]);
    }
  }

  lemma ExpiryKeepsOrder(c: Core, now: int)
    requires Orderly(c)
    ensures Orderly(ExpireTransfers(c, now))
  {
    var gone := Expired(c.transfers, now);
    forall id <- c.transfers - gone ensures c.transfers[id].temporaryPath !in WorkPaths(c.transfers, gone) {}
  }

  predicate Admits(rates: AuthLimiter.Table, expected: Credentials, m: Message, address: string, asked: int)
    requires m.Auth?
  {
    && AuthLimiter.Allowed(rates, asked, address, m.username)
    && m.username == expected.username && m.password == expected.password
  }

  function AttemptOf(expected: Credentials, m: Message, address: string, asked: int, told: int): AuthLimiter.Attempt
    requires m.Auth?
  {
    AuthLimiter.Attempt(asked, told, address, m.username,
                        m.username == expected.username && m.password == expected.password)
  }

  /** What the limiter and the credentials make of an attempt. */
  function LoginVerdict(already: bool, rates: AuthLimiter.Table, expected: Credentials, m: Message, address: string,
                        asked: int): Verdict
    requires m.Auth?
  {
    if already then Rejected("ALREADY_AUTHENTICATED")
    else if Admits(rates, expected, m, address, asked) then LoggedIn
    else Rejected("FAILED")
  }

  /** A session's outgoing side after its login attempt: one reply, the greeting if it
      succeeded, and closed for good if it failed. */
  function Answered(o: Outbox, max: nat, verdict: Verdict, reply: Verdict -> string): Outbox {
    var e := Entry(if verdict.LoggedIn? then Greeting else Reply, reply(verdict));
    if verdict == Rejected("FAILED") then Shut(Offer(o, max, e)) else Offer(o, max, e)
  }

  /** `authenticateClient`: the limiter is asked before the password is compared, and told
      of a failure afterwards; a session logs in once, and is registered when it does. */
  method AuthenticateClient(limiter: AuthLimiter.AuthenticationLimiter, router: MemoryRouter, connection: Connection,
                            client: ClientConnection, expected: Credentials, m: Message, address: string,
                            asked: int, told: int, reply: Verdict -> string)
    returns (verdict: Verdict)
    requires m.Auth? && connection.Valid()
    modifies limiter, router, connection, client`authenticated, client`username
    ensures verdict == LoginVerdict(old(client.authenticated), old(limiter.rates), expected, m, address, asked)
    ensures limiter.rates == if old(client.authenticated) then old(limiter.rates)
                             else AuthLimiter.Attempted(old(limiter.rates),
                                                        AttemptOf(expected, m, address, asked, told))
    ensures verdict == LoggedIn
            <==> && !old(client.authenticated)
                 && m.username == expected.username && m.password == expected.password
                 && |AuthLimiter.Running(old(limiter.rates), asked)| < 4096
                 && forall key | key in AuthLimiter.Running(old(limiter.rates), asked)
                                 && key in {"ip:" + address, "account:" + m.username} ::
                      old(limiter.rates)[key].failures < 5
    ensures verdict == LoggedIn || verdict == Rejected("FAILED") || verdict == Rejected("ALREADY_AUTHENTICATED")
    ensures verdict == Rejected("ALREADY_AUTHENTICATED") <==> old(client.authenticated)
    ensures verdict == Rejected("FAILED") ==> connection.closing && !client.authenticated
    ensures verdict == Rejected("FAILED") && asked <= told ==>
              forall key | key in {"ip:" + address, "account:" + m.username} && key in limiter.rates ::
                limiter.rates[key]
                == if key in AuthLimiter.Running(old(limiter.rates), told) && old(limiter.rates)[key].startedAt != 0
                   then AuthLimiter.Rate(old(limiter.rates)[key].failures + 1, old(limiter.rates)[key].startedAt)
                   else AuthLimiter.Rate(1, told)
    ensures verdict == Rejected("FAILED") && |old(limiter.rates)| < 4095 ==>
              {"ip:" + address, "account:" + m.username} <= limiter.rates.Keys
    ensures client.authenticated == (old(client.authenticated) || verdict.LoggedIn?)
    ensures client.username == if verdict.LoggedIn? then m.username else old(client.username)
    ensures connection.Valid()
    ensures connection.View() == Answered(old(connection.View()), connection.maxSendQueueBytes, verdict, reply)
    ensures !old(connection.closing)
            && TotalLength(old(connection.sendQueue)) + |reply(verdict)| <= connection.maxSendQueueBytes ==>
              connection.sendQueue == old(connection.sendQueue) + [reply(verdict)]
    ensures router.sessions == if verdict.LoggedIn? then old(router.sessions)[client.sessionId := connection]
                               else old(router.sessions)
    ensures client.sessionId !in old(router.sessions) ==> (client.sessionId in router.sessions <==> verdict.LoggedIn?)
  {
    hide Offer, OutboxOk, Connection.View, Connection.Valid, Shut, AuthLimiter.Bumped, AuthLimiter.BelowLimit;
    if client.authenticated {
      verdict := Rejected("ALREADY_AUTHENTICATED");
      var sent := connection.Enqueue(reply(verdict), Reply);
      return;
    }
    var rateAllowed := limiter.AuthenticationAllowed(asked, address, m.username);
    var authenticated := rateAllowed && m.username == expected.username && m.password == expected.password;
    if !authenticated {
      verdict := Rejected("FAILED");
      var sent := connection.Enqueue(reply(verdict), Reply);
      limiter.RecordAuthenticationFailure(told, address, m.username);
      connection.RequestClose();
      return;
    }
    verdict := LoggedIn;
    var sent := connection.Enqueue(reply(verdict), Greeting);
    client.authenticated := true;
    client.username := m.username;
    router.RegisterSession(client.sessionId, connection);
  }

  ghost function View(server: TransferServer, client: ClientConnection): State
    reads server, server.uploads, client
  {
    State(server.View(client), client.authenticated, client.username)
  }

  /** The session's own connection, if registered at all, is registered under its id alone. */
  ghost predicate OwnConnection(router: MemoryRouter, connection: Connection, sid: nat)
    reads router
  {
    forall id <- router.sessions :: router.sessions[id] == connection <==> id == sid
  }

  /** What goes out for a message that is not a login: an accepted message is offered once to
      every other registered session, anything else is answered once to the session itself. */
  method Respond(router: MemoryRouter, connection: Connection, sid: nat, verdict: Verdict, forwarded: string,
                 reply: Verdict -> string)
    requires router.Valid() && connection.Valid() && OwnConnection(router, connection, sid)
    modifies connection, router.sessions.Values
    ensures router.Valid() && connection.Valid() && router.sessions == old(router.sessions)
    ensures connection.View() == if verdict.Accepted? then old(connection.View())
                                 else Offer(old(connection.View()), connection.maxSendQueueBytes,
                                            Entry(Reply, reply(verdict)))
    ensures forall id <- router.sessions | id != sid ::
              router.sessions[id].View()
              == if verdict.Accepted?
                 then Offer(old(router.sessions[id].View()), router.sessions[id].maxSendQueueBytes,
                            Entry(From(sid), forwarded))
                 else old(router.sessions[id].View())
    ensures !verdict.Accepted? && !old(connection.closing)
            && TotalLength(old(connection.sendQueue)) + |reply(verdict)| <= connection.maxSendQueueBytes ==>
              connection.sendQueue == old(connection.sendQueue) + [reply(verdict)]
  {
    hide Offer, OutboxOk, Connection.View, Connection.Valid;
    if verdict.Accepted? {
      router.Broadcast(forwarded, sid);
    } else {
      var sent := connection.Enqueue(reply(verdict), Reply);
    }
  }

  /** What `processMessage` makes of a message that is not a login, up to what goes out. */
  method HandleMessage(server: TransferServer, client: ClientConnection, m: Message, env: Env, g: Config)
    returns (verdict: Verdict)
    requires Orderly(server.View(client)) && g.maxMessage == server.maxMessageBytes && !m.Auth?
    modifies server`files, server`nextEventId, server.uploads, client`incomingTransfers
    ensures (View(server, client), verdict) == Dispatched(old(View(server, client)), g, client.sessionId, m, false, env)
    ensures !client.authenticated ==> verdict == Rejected("UNAUTHENTICATED")
    ensures client.authenticated && m.Ping? ==> verdict == Pong
    ensures client.authenticated && m.ClipboardText? ==> verdict == Accepted
    ensures !client.authenticated || m.Ping? || m.ClipboardText? ==>
              server.View(client) == ExpireTransfers(old(server.View(client)), env.expiryClock)
  {
    ExpiryKeepsOrder(server.View(client), env.expiryClock);
    server.CleanupExpiredTransfers(client, env.expiryClock);
    if !client.authenticated {
      verdict := Rejected("UNAUTHENTICATED");
    } else if m.Ping? {
      verdict := Pong;
    } else if m.ClipboardText? {
      verdict := Accepted;
    } else if m.FileBundle? {
      verdict := PersistFiles(server, client.username, m.files, g, env);
    } else {
      verdict := HandleChunkTransfer(server, client, m, env, g);
    }
  }

  /** `processMessage` on a validated message: `forwarded` is the line broadcast if it is
      accepted, `reply` the line sent back otherwise. */
  method ProcessMessage(server: TransferServer, limiter: AuthLimiter.AuthenticationLimiter, router: MemoryRouter,
                        connection: Connection, client: ClientConnection, expected: Credentials, m: Message,
                        address: string, asked: int, told: int, forwarded: string, reply: Verdict -> string,
                        env: Env, g: Config)
    returns (verdict: Verdict)
    requires Orderly(server.View(client)) && g.maxMessage == server.maxMessageBytes
    requires router.Valid() && connection.Valid() && OwnConnection(router, connection, client.sessionId)
    modifies server`files, server`nextEventId, server.uploads, limiter, client
    modifies connection, router, router.sessions.Values
    ensures (View(server, client), verdict)
            == Dispatched(old(View(server, client)), g, client.sessionId, m,
                          m.Auth? && Admits(old(limiter.rates), expected, m, address, asked), env)
    ensures !m.Auth? ==> limiter.rates == old(limiter.rates)
    ensures m.Auth? ==>
              (verdict == LoggedIn
               <==> && !old(client.authenticated)
                    && m.username == expected.username && m.password == expected.password
                    && |AuthLimiter.Running(old(limiter.rates), asked)| < 4096
                    && forall key | key in AuthLimiter.Running(old(limiter.rates), asked)
                                    && key in {"ip:" + address, "account:" + m.username} ::
                         old(limiter.rates)[key].failures < 5)
    ensures m.Auth? && !old(client.authenticated) && verdict != LoggedIn ==>
              verdict == Rejected("FAILED") && connection.closing && !client.authenticated
    ensures !old(client.authenticated) && !m.Auth? ==> verdict == Rejected("UNAUTHENTICATED")
    ensures old(client.authenticated) && m.Ping? ==> verdict == Pong
    ensures old(client.authenticated) && m.ClipboardText? ==> verdict == Accepted
    ensures m.Auth? || !old(client.authenticated) || m.Ping? || m.ClipboardText? ==>
              server.View(client) == ExpireTransfers(old(server.View(client)), env.expiryClock)
    ensures verdict.LoggedIn? ==> client.authenticated && client.username == m.username
    ensures connection.Valid()
    ensures connection.View() ==
              if m.Auth? then Answered(old(connection.View()), connection.maxSendQueueBytes, verdict, reply)
              else if verdict.Accepted? then old(connection.View())
              else Offer(old(connection.View()), connection.maxSendQueueBytes, Entry(Reply, reply(verdict)))
    ensures router.sessions == if verdict.LoggedIn? then old(router.sessions)[client.sessionId := connection]
                               else old(router.sessions)
    ensures forall id <- old(router.sessions) | id != client.sessionId ::
              old(router.sessions)[id].View()
              == if verdict.Accepted?
                 then Offer(old(router.sessions[id].View()), old(router.sessions)[id].maxSendQueueBytes,
                            Entry(From(client.sessionId), forwarded))
                 else old(router.sessions[id].View())
  {
    if m.Auth? {
      hide Offer, OutboxOk, Connection.View, Connection.Valid, Answered;
      server.CleanupExpiredTransfers(client, env.expiryClock);
      verdict := AuthenticateClient(limiter, router, connection, client, expected, m, address, asked, told, reply);
    } else {
      hide Offer, OutboxOk, Connection.View, Connection.Valid, Answered, Dispatched;
      verdict := HandleMessage(server, client, m, env, g);
      NeverGreeted(old(View(server, client)), g, client.sessionId, m, env);
      Respond(router, connection, client.sessionId, verdict, forwarded, reply);
    }
  }

  /** Only a login is answered by a greeting. */
  lemma NeverGreeted(v: State, g: Config, sid: nat, m: Message, env: Env)
    requires !m.Auth?
    ensures Dispatched(v, g, sid, m, false, env).1 != LoggedIn
  {}

  /** `handleChunkTransfer`. */
  method HandleChunkTransfer(server: TransferServer, client: ClientConnection, m: Message, env: Env, g: Config)
    returns (verdict: Verdict)
    requires IsTransfer(m) && server.Valid(client) && g.maxMessage == server.maxMessageBytes
    modifies server`files, server`nextEventId, server.uploads, client`incomingTransfers
    ensures (server.View(client), verdict)
            == HandleTransfer(old(server.View(client)), g, client.sessionId, client.username, m, env)
  {
    if m.TransferStart? {
      verdict := server.HandleChunkTransferStart(client, m, env, g);
    } else if m.TransferChunk? {
      verdict := server.HandleChunkTransferChunk(client, m, env);
    } else {
      verdict := server.HandleChunkTransferComplete(client, m, env, g);
    }
  }
}
