/** Every run of the whole server: what an authenticated session sends is accepted, signed
    with its user's name and brought to every session registered before it. */
module Broadcasts {
  import opened Basics
  import opened Base64
  import opened FileNames
  import opened Framing
  import opened Messages
  import opened Storage
  import opened UploadBudget
  import opened Transfers
  import opened Bundles
  import opened Protocol
  import opened SendQueue
  import opened ServerSystem
  import opened EndToEnd
  import opened DiskToDisk
  import Server
  import Relay

  /* ------------------------------------------------------------- one message */

  /** An authenticated clipboard text is always accepted: it is logged, due for broadcast
      under the user's name, and the storage is left as expiry left it. */
  lemma TextAccepted(sys: System, c: Codec, g: Config, max: nat, sid: nat, j: Json, authOk: bool, env: Env)
    requires Enabled(sys, c, g, Event.Handle(sid, j, authOk, env))
    requires sys.srv.sessions[sid].authenticated && View(j).ClipboardText?
    ensures var after := Next(sys, c, g, max, Event.Handle(sid, j, authOk, env));
            && LogAt(after.srv, sid) == LogAt(sys.srv, sid) + [View(j)]
            && after.due == sys.due[sid := Forwarded(j, sys.srv.sessions[sid].user)] && after.owed == sys.owed
            && after.peers == sys.peers && sid in after.srv.sessions
            && Server.CoreOf(after.srv, sid) == ExpireTransfers(Server.CoreOf(sys.srv, sid), env.expiryClock)
  {
    hide ExpireTransfers, Validate, Forwarded, View;
  }

  /** An authenticated ping is answered, and changes nothing but what expiry does. */
  lemma PingAnswered(srv: Server.Server, g: Config, sid: nat, authOk: bool, env: Env)
    requires sid in srv.sessions && srv.sessions[sid].authenticated
    ensures Server.Process(srv, g, sid, Ping, authOk, env) == (Server.Expire(srv, sid, env.expiryClock), Pong)
  {}

  /** A bundle or transfer message of an authenticated session is accepted exactly when its
      handler accepts it on what expiry left. */
  lemma HandlersDecide(srv: Server.Server, g: Config, sid: nat, m: Message, authOk: bool, env: Env)
    requires sid in srv.sessions && srv.sessions[sid].authenticated
    ensures var left := ExpireTransfers(Server.CoreOf(srv, sid), env.expiryClock);
            var (after, verdict) := Server.Process(srv, g, sid, m, authOk, env);
            && (IsTransfer(m) ==>
                  verdict == HandleTransfer(left, g, sid, srv.sessions[sid].user, m, env).1
                  && sid in after.sessions
                  && Server.CoreOf(after, sid) == HandleTransfer(left, g, sid, srv.sessions[sid].user, m, env).0)
            && (m.FileBundle? ==>
                  var o := Persist(left.files, left.nextEvent, left.budget, g, srv.sessions[sid].user, m.files, env);
                  verdict == o.verdict && after.files == o.files && after.budget == o.budget
                  && sid in after.sessions && after.sessions[sid].transfers == left.transfers)
  {
    hide ExpireTransfers, HandleTransfer, Persist;
  }

  /* ------------------------------------------------------------- signatures */

  function ValueOf(c: Codec, payload: string): Option<Json> {
    if IsLine(c, payload) then c.parse(payload[..|payload| - 1]) else None
  }

  predicate SignedBy(j: Json, m: Message, user: string) {
    View(j) == m && Has(j, "sender") && j.fields["sender"] == Text(user)
  }

  /** A line that says `m` under the name of `user`. */
  predicate Says(c: Codec, payload: string, m: Message, user: string) {
    ValueOf(c, payload).Some? && SignedBy(ValueOf(c, payload).value, m, user)
  }

  /** Forwarding signs a message and leaves what it says alone. */
  lemma ForwardedIsSigned(j: Json, user: string, maxPayload: nat)
    requires Validate(j, maxPayload).Valid?
    ensures SignedBy(Forwarded(j, user), View(j), user)
  {
    ForwardedReads(j, user, "type");
    ForwardedReads(j, user, "username");
    ForwardedReads(j, user, "password");
    ForwardedReads(j, user, "content");
    ForwardedReads(j, user, "files");
    ForwardedReads(j, user, "transfer_id");
    ForwardedReads(j, user, "name");
    ForwardedReads(j, user, "size");
    ForwardedReads(j, user, "sha256");
    ForwardedReads(j, user, "seq");
    ForwardedReads(j, user, "data");
    hide KindOf, BundleItemsOf;
  }

  lemma LineSays(c: Codec, j: Json, m: Message, user: string)
    requires RoundTrips(c) && SignedBy(j, m, user)
    ensures Says(c, LineOf(c, j), m, user)
  {
    hide View;
    assert c.parse(c.dump(j)) == Some(j);
    var p := LineOf(c, j);
    assert p[..|p| - 1] == c.dump(j);
  }

  predicate AllSigned(c: Codec, sent: seq<string>, log: seq<Message>, user: string) {
    |sent| <= |log| && forall k | 0 <= k < |sent| :: Says(c, sent[k], log[k], user)
  }

  /** What a session has broadcast says its log in its user's name, and so will what is
      still due. */
  predicate Signed(c: Codec, sent: seq<string>, due: Option<Json>, log: seq<Message>, user: string) {
    && AllSigned(c, sent, log, user)
    && |log| == |sent| + (if due.Some? then 1 else 0)
    && (due.Some? ==> SignedBy(due.value, log[|sent|], user))
  }

  function UserAt(srv: Server.Server, sid: nat): string {
    if sid in srv.sessions then srv.sessions[sid].user else ""
  }

  predicate SignedAt(sys: System, c: Codec, sid: nat) {
    Signed(c, Relay.At(sys.peers, sid).broadcasts, DueOf(sys.due, sid), LogAt(sys.srv, sid), UserAt(sys.srv, sid))
  }

  lemma SignedMore(c: Codec, sent: seq<string>, log: seq<Message>, user: string, m: Message, f: Json)
    requires Signed(c, sent, None, log, user) && SignedBy(f, m, user)
    ensures Signed(c, sent, Some(f), log + [m], user)
  {
    hide Says, SignedBy;
  }

  lemma SignedOut(c: Codec, sent: seq<string>, log: seq<Message>, user: string, f: Json)
    requires RoundTrips(c) && Signed(c, sent, Some(f), log, user)
    ensures Signed(c, sent + [LineOf(c, f)], None, log, user)
  {
    hide RoundTrips, Says, SignedBy;
    LineSays(c, f, log[|sent|], user);
  }

  lemma NothingSaid(c: Codec, sent: seq<string>, log: seq<Message>, user: string, other: string)
    requires Signed(c, sent, None, log, user) && log == []
    ensures Signed(c, sent, None, log, other)
  {}

  /** The user of a session changes only when it logs in, and it logs in once. */
  lemma ProcessUser(srv: Server.Server, g: Config, sid: nat, m: Message, authOk: bool, env: Env)
    requires sid in srv.sessions
    ensures var (after, verdict) := Server.Process(srv, g, sid, m, authOk, env);
            && sid in after.sessions
            && (verdict == LoggedIn ==>
                  !srv.sessions[sid].authenticated && m.Auth? && authOk && after.sessions[sid].user == m.username)
            && (verdict != LoggedIn ==>
                  && after.sessions[sid].user == srv.sessions[sid].user
                  && after.sessions[sid].authenticated == srv.sessions[sid].authenticated)
  {
    var x := Server.Expire(srv, sid, env.expiryClock);
    if m.FileBundle? {
      BundlesNeverLogIn(x.files, x.nextEvent, x.budget, g, x.sessions[sid].user, m.files, env);
    } else if IsTransfer(m) {
      TransfersNeverLogIn(Server.CoreOf(x, sid), g, sid, x.sessions[sid].user, m, env);
    }
    hide ExpireTransfers, HandleTransfer, Persist;
  }

  lemma TransfersNeverLogIn(c: Core, g: Config, sid: nat, user: string, m: Message, env: Env)
    requires IsTransfer(m)
    ensures HandleTransfer(c, g, sid, user, m, env).1 != LoggedIn
  {
    hide Decode, Sanitized, UniqueName;
  }

  lemma BundlesNeverLogIn(files: Files, nextEvent: nat, budget: Budget, g: Config, user: string,
                          items: seq<BundleItem>, env: Env)
    ensures Persist(files, nextEvent, budget, g, user, items, env).verdict != LoggedIn
  {
    hide CheckItems, WriteParts, CommitParts;
  }

  lemma SilentUntilLogin(srv: Server.Server, g: Config, inherited: set<Path>, sid: nat)
    requires Server.Inv(srv, g, inherited) && sid in srv.sessions
    ensures !srv.sessions[sid].authenticated ==> srv.sessions[sid].log == []
  {
    assert Server.SessionOk(srv.files, srv.nextEvent, g, inherited, sid, srv.sessions[sid]);
  }

  lemma HandleSigned(sys: System, c: Codec, g: Config, max: nat, inherited: set<Path>, sid: nat, j: Json, authOk: bool,
                     env: Env, s: nat)
    requires Inv(sys, c, g, max, inherited) && Enabled(sys, c, g, Event.Handle(sid, j, authOk, env))
    requires SignedAt(sys, c, s)
    ensures SignedAt(Handled(sys, g, sid, j, authOk, env), c, s)
  {
    hide Server.Process, Server.Inv, Relay.RelayInv, InStep, Validate, Forwarded, View, Signed, SignedBy;
    ProcessLogs(sys.srv, g, sid, View(j), authOk, env);
    ProcessUser(sys.srv, g, sid, View(j), authOk, env);
    if s == sid {
      var sent, log, user := Relay.At(sys.peers, s).broadcasts, LogAt(sys.srv, s), UserAt(sys.srv, s);
      var verdict := Server.Process(sys.srv, g, sid, View(j), authOk, env).1;
      if verdict == Accepted {
        ForwardedIsSigned(j, user, Routable(g.maxMessage));
        SignedMore(c, sent, log, user, View(j), Forwarded(j, user));
      } else if verdict == LoggedIn {
        SilentUntilLogin(sys.srv, g, inherited, sid);
        NothingSaid(c, sent, log, user, UserAt(Handled(sys, g, sid, j, authOk, env).srv, s));
      }
    }
  }

  lemma RouteSigned(sys: System, c: Codec, g: Config, max: nat, step: Relay.Step, s: nat)
    requires RoundTrips(c) && Enabled(sys, c, g, Event.Route(step)) && SignedAt(sys, c, s)
    ensures SignedAt(Next(sys, c, g, max, Event.Route(step)), c, s)
  {
    hide RoundTrips, Relay.Next, Relay.Enabled, Shows, Signed;
    BroadcastsAfter(sys.peers, max, step, s);
    if step.Broadcast? && step.sid == s {
      SignedOut(c, Relay.At(sys.peers, s).broadcasts, LogAt(sys.srv, s), UserAt(sys.srv, s), sys.due[s]);
    }
  }

  lemma OtherSigned(sys: System, c: Codec, g: Config, max: nat, e: Event, s: nat)
    requires Enabled(sys, c, g, e) && (e.Connect? || e.Drop?) && SignedAt(sys, c, s)
    ensures SignedAt(Next(sys, c, g, max, e), c, s)
  {
    hide Signed, DropTransfers, Server.Settle;
  }

  lemma NextSigned(sys: System, c: Codec, g: Config, max: nat, inherited: set<Path>, e: Event, s: nat)
    requires RoundTrips(c) && Inv(sys, c, g, max, inherited) && Enabled(sys, c, g, e) && SignedAt(sys, c, s)
    ensures SignedAt(Next(sys, c, g, max, e), c, s)
  {
    hide RoundTrips, Inv, SignedAt, Relay.Next, Relay.Enabled;
    match e
    case Handle(sid, j, authOk, env) => HandleSigned(sys, c, g, max, inherited, sid, j, authOk, env, s);
    case Route(step) => RouteSigned(sys, c, g, max, step, s);
    case _ => OtherSigned(sys, c, g, max, e, s);
  }

  /** In every run, whatever a session has broadcast is its log, message by message, signed
      with its user's name. */
  lemma {:induction false} SystemSigned(files: Files, now: int, c: Codec, g: Config, max: nat, events: seq<Event>,
                                        s: nat)
    requires RoundTrips(c) && StampsMovedOn(files, events)
    ensures SignedAt(RunSystem(files, now, c, g, max, events), c, s)
  {
    hide RoundTrips, Inv, Next, Enabled, Server.StampFresh;
    if events != [] {
      hide SignedAt;
      var init, e := events[..|events| - 1], events[|events| - 1];
      SystemSigned(files, now, c, g, max, init, s);
      SystemOk(files, now, c, g, max, init);
      var before := RunSystem(files, now, c, g, max, init);
      if Enabled(before, c, g, e) {
        NextSigned(before, c, g, max, files.Keys, e, s);
      }
    }
  }

  /* ------------------------------------------------------------- who the user is */

  lemma NextUser(sys: System, c: Codec, g: Config, max: nat, e: Event, s: nat)
    requires Enabled(sys, c, g, e) && Authenticated(sys.srv, s)
    ensures var after := Next(sys, c, g, max, e);
            Authenticated(after.srv, s) && UserAt(after.srv, s) == UserAt(sys.srv, s)
  {
    if e.Handle? {
      hide Server.Process, View, Forwarded, Validate;
      ProcessLogs(sys.srv, g, e.sid, View(e.j), e.authOk, e.env);
      ProcessUser(sys.srv, g, e.sid, View(e.j), e.authOk, e.env);
    } else {
      hide DropTransfers, Server.Settle, Relay.Next;
    }
  }

  lemma {:induction false} UserStays(files: Files, now: int, c: Codec, g: Config, max: nat, events: seq<Event>, q: nat,
                                     s: nat)
    requires q <= |events| && Authenticated(RunSystem(files, now, c, g, max, events[..q]).srv, s)
    ensures var (before, sys) := (RunSystem(files, now, c, g, max, events[..q]),
                                  RunSystem(files, now, c, g, max, events));
            Authenticated(sys.srv, s) && UserAt(sys.srv, s) == UserAt(before.srv, s)
  {
    if q < |events| {
      hide Enabled, Next, UserAt, Authenticated;
      var init := events[..|events| - 1];
      assert init[..q] == events[..q];
      UserStays(files, now, c, g, max, init, q, s);
      var before := RunSystem(files, now, c, g, max, init);
      if Enabled(before, c, g, events[|events| - 1]) {
        NextUser(before, c, g, max, events[|events| - 1], s);
      }
    } else {
      assert events[..q] == events;
    }
  }

  /** A login of session `s` under this name, which limiter and credentials let through. */
  predicate Login(e: Event, s: nat, user: string) {
    e.Handle? && e.sid == s && e.authOk && View(e.j).Auth? && View(e.j).username == user
  }

  lemma NextLogin(sys: System, c: Codec, g: Config, max: nat, e: Event, s: nat)
    requires Enabled(sys, c, g, e) && Authenticated(Next(sys, c, g, max, e).srv, s) && !Authenticated(sys.srv, s)
    ensures e.Handle? && View(e.j).Auth? && Login(e, s, UserAt(Next(sys, c, g, max, e).srv, s))
  {
    if e.Handle? {
      hide Server.Process, View, Forwarded, Validate;
      ProcessLogs(sys.srv, g, e.sid, View(e.j), e.authOk, e.env);
      ProcessUser(sys.srv, g, e.sid, View(e.j), e.authOk, e.env);
    } else {
      hide DropTransfers, Server.Settle, Relay.Next;
    }
  }

  /** Behind every authenticated session, in every run, is a login that was let through,
      and the session acts under its name. */
  lemma {:induction false} LoginBehind(files: Files, now: int, c: Codec, g: Config, max: nat, events: seq<Event>,
                                       s: nat)
    requires Authenticated(RunSystem(files, now, c, g, max, events).srv, s)
    ensures exists e :: e in events && Login(e, s, UserAt(RunSystem(files, now, c, g, max, events).srv, s))
  {
    assert events != [] by { NobodyAtFirst(files, now, c, g, max, s); }
    hide Enabled, Next, UserAt, Authenticated, Login;
    var init, e := events[..|events| - 1], events[|events| - 1];
    assert e in events && forall x <- init :: x in events;
    var before := RunSystem(files, now, c, g, max, init);
    if Enabled(before, c, g, e) {
      if Authenticated(before.srv, s) {
        NextUser(before, c, g, max, e, s);
        LoginBehind(files, now, c, g, max, init, s);
      } else {
        NextLogin(before, c, g, max, e, s);
      }
    } else {
      LoginBehind(files, now, c, g, max, init, s);
    }
  }

  lemma NobodyAtFirst(files: Files, now: int, c: Codec, g: Config, max: nat, s: nat)
    ensures !Authenticated(RunSystem(files, now, c, g, max, []).srv, s)
  {}

  /* ------------------------------------------------------------- everyone hears it */

  lemma {:induction false} FromSenderHas(entries: seq<Entry>, s: nat, i: nat) returns (x: nat)
    requires i < |Relay.FromSender(entries, s)|
    ensures x < |entries| && entries[x] == Entry(From(s), Relay.FromSender(entries, s)[i])
  {
    var init := entries[..|entries| - 1];
    if i < |Relay.FromSender(init, s)| {
      x := FromSenderHas(init, s, i);
    } else {
      x := |entries| - 1;
    }
  }

  /** The queue holds a line that says `m` under the name of `user`. */
  predicate Gained(c: Codec, entries: seq<Entry>, s: nat, m: Message, user: string) {
    exists x :: 0 <= x < |entries| && entries[x].origin == From(s) && Says(c, entries[x].payload, m, user)
  }

  /** Where the `n`-th message of session `s` is, as seen from session `r`: due, on its way
      to `r`, or in `r`'s queue - unless `r` has left or is closing. */
  predicate OnItsWay(sys: System, c: Codec, s: nat, r: nat, n: nat, m: Message, user: string) {
    var p, q := Relay.At(sys.peers, s), Relay.At(sys.peers, r);
    || !q.phase.Member? || q.outbox.closing
    || (n == |p.broadcasts| && s in sys.due && SignedBy(sys.due[s], m, user))
    || (n == |p.broadcasts| - 1 && r in p.pending)
    || Gained(c, q.outbox.accepted, s, m, user)
  }

  lemma SegmentHas(c: Codec, sent: seq<string>, log: seq<Message>, user: string, entries: seq<Entry>, s: nat,
                   from: nat, n: nat)
    requires AllSigned(c, sent, log, user) && from <= n < from + |Relay.FromSender(entries, s)| <= |sent|
    requires Relay.FromSender(entries, s) == sent[from..from + |Relay.FromSender(entries, s)|]
    ensures Gained(c, entries, s, log[n], user)
  {
    hide Says;
    var x := FromSenderHas(entries, s, n - from);
    assert entries[x].payload == sent[n];
  }

  lemma HeardOrUnderway(sys: System, c: Codec, max: nat, s: nat, r: nat, n: nat)
    requires Relay.Linked(sys.peers, s, r) && s != r && SignedAt(sys, c, s)
    requires n < |LogAt(sys.srv, s)| && Relay.JoinedAt(Relay.At(sys.peers, r), s) <= n
    ensures OnItsWay(sys, c, s, r, n, LogAt(sys.srv, s)[n], UserAt(sys.srv, s))
  {
    hide Says, SignedBy, Gained;
    var p, q := Relay.At(sys.peers, s), Relay.At(sys.peers, r);
    var from, got := Relay.JoinedAt(q, s), Relay.FromSender(q.outbox.accepted, s);
    if q.phase.Member? && !q.outbox.closing && n < |p.broadcasts| && (r in p.pending ==> n < |p.broadcasts| - 1) {
      SegmentHas(c, p.broadcasts, LogAt(sys.srv, s), UserAt(sys.srv, s), q.outbox.accepted, s, from, n);
    }
  }

  /** Everyone hears it. In any run, let an authenticated session `s` send a clipboard text
      at event `k`, after session `r` registered at event `q`. Whatever happens afterwards,
      the text stands in the log, and at the end of the run it is due, underway to `r`, or
      queued for `r` with its content and the name of the user who sent it - unless `r` has
      left or is closing. */
  lemma TextReachesEveryone(files: Files, now: int, c: Codec, g: Config, max: nat, events: seq<Event>, q: nat, k: nat,
                            r: nat)
    requires RoundTrips(c) && StampsMovedOn(files, events) && q <= k < |events|
    requires RegistersAt(files, now, c, g, max, events, q, r)
    requires events[k].Handle? && Enabled(RunSystem(files, now, c, g, max, events[..k]), c, g, events[k])
    requires Authenticated(RunSystem(files, now, c, g, max, events[..k]).srv, events[k].sid)
    requires View(events[k].j).ClipboardText? && r != events[k].sid
    ensures var (before, sys) := (RunSystem(files, now, c, g, max, events[..k]),
                                  RunSystem(files, now, c, g, max, events));
            var (s, m) := (events[k].sid, View(events[k].j));
            var n := |LogAt(before.srv, s)|;
            && n < |LogAt(sys.srv, s)| && LogAt(sys.srv, s)[n] == m
            && OnItsWay(sys, c, s, r, n, m, UserAt(before.srv, s))
  {
    var before, sys := RunSystem(files, now, c, g, max, events[..k]), RunSystem(files, now, c, g, max, events);
    var s, m, n := events[k].sid, View(events[k].j), |LogAt(before.srv, events[k].sid)|;
    assert events[..k + 1][..k] == events[..k];
    assert RunSystem(files, now, c, g, max, events[..k + 1]) == Next(before, c, g, max, events[k]);
    assert LogAt(Next(before, c, g, max, events[k]).srv, s) == LogAt(before.srv, s) + [m] by {
      TextAccepted(before, c, g, max, s, events[k].j, events[k].authOk, events[k].env);
    }
    hide RoundTrips, RunSystem, Next, Enabled, LogAt, View, UserAt, Authenticated, OnItsWay;
    LogGrows(files, now, c, g, max, events, k + 1, s);
    UserStays(files, now, c, g, max, events, k, s);
    BroadcastsWereLogged(files, now, c, g, max, events, q, k, s);
    Reached(files, now, c, g, max, events, q, s, r, n);
  }

  /** The same of any message in a session's log that was logged after `r` registered. */
  lemma Reached(files: Files, now: int, c: Codec, g: Config, max: nat, events: seq<Event>, q: nat, s: nat, r: nat,
                n: nat)
    requires RoundTrips(c) && StampsMovedOn(files, events) && s != r
    requires RegistersAt(files, now, c, g, max, events, q, r)
    requires BroadcastsBy(files, now, c, g, max, events, q, s) <= n
    requires n < |LogAt(RunSystem(files, now, c, g, max, events).srv, s)|
    ensures var sys := RunSystem(files, now, c, g, max, events);
            OnItsWay(sys, c, s, r, n, LogAt(sys.srv, s)[n], UserAt(sys.srv, s))
  {
    var sys := RunSystem(files, now, c, g, max, events);
    hide RoundTrips, Enabled, Next, Server.Inv, InStep, Relay.Linked, OnItsWay, SignedAt, LogAt, UserAt;
    SystemOk(files, now, c, g, max, events);
    SystemSigned(files, now, c, g, max, events, s);
    JoinedWhenRegistered(files, now, c, g, max, events, q, r);
    assert Relay.Linked(sys.peers, s, r);
    HeardOrUnderway(sys, c, max, s, r, n);
  }
}
