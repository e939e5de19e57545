/** server_common/tcpserver.cpp: all sessions over one storage directory. Every session
    carries the log of messages it had accepted (and so broadcast), and the fate of every
    transfer that log opened; the invariant ties both to what is on disk. */
module Server {
  import opened Basics
  import opened Base64
  import opened FileNames
  import opened Storage
  import opened Messages
  import opened UploadBudget
  import opened Transfers
  import opened Bundles

  /** What became of a transfer: still open, installed by the message at log position
      `at`, or discarded. */
  datatype Fate = Live | Committed(path: Path, content: seq<byte>, at: nat) | Discarded

  /** `fates` is keyed by the log position of the opening. */
  datatype Session = Session(
    user: string, authenticated: bool, transfers: Table, log: seq<Message>, fates: map<nat, Fate>)

  datatype Server = Server(files: Files, nextEvent: nat, budget: Budget, sessions: map<nat, Session>)

  const NEW_SESSION := Session("", false, map[], [], map[])

  function CoreOf(srv: Server, sid: nat): Core
    requires sid in srv.sessions
  {
    Core(srv.files, srv.nextEvent, srv.budget, srv.sessions[sid].transfers)
  }

  /** Transfers no longer in the table have been discarded. */
  function Settle(s: Session, t: Table): map<nat, Fate> {
    map i | i in s.fates ::
      if s.fates[i].Live? && i < |s.log| && IsTransfer(s.log[i]) && s.log[i].id !in t then Discarded else s.fates[i]
  }

  function Apply(srv: Server, sid: nat, d: Core): Server
    requires sid in srv.sessions
  {
    var s := srv.sessions[sid];
    Server(d.files, d.nextEvent, d.budget,
           srv.sessions[sid := s.(transfers := d.transfers, fates := Settle(s, d.transfers))])
  }

  function FatesAfter(s: Session, fates: map<nat, Fate>, c: Core, m: Message, env: Env): map<nat, Fate> {
    if m.TransferStart? then fates[|s.log| := Live]
    else if m.TransferComplete? && m.id in c.transfers && StartIndex(s.log, m.id).Some? then
      fates[StartIndex(s.log, m.id).value := Committed(Target(c, m.id, env), Installed(c, m.id, env), |s.log|)]
    else fates
  }

  /** The session after an accepted message `m` took the core from `c` to `d`. */
  function Logged(s: Session, c: Core, d: Core, m: Message, env: Env): Session {
    s.(transfers := d.transfers, log := s.log + [m],
       fates := FatesAfter(s, Settle(s, d.transfers), c, m, env))
  }

  function Log(srv: Server, sid: nat, d: Core, m: Message, env: Env): Server
    requires sid in srv.sessions
  {
    Server(d.files, d.nextEvent, d.budget,
           srv.sessions[sid := Logged(srv.sessions[sid], CoreOf(srv, sid), d, m, env)])
  }

  function Expire(srv: Server, sid: nat, now: int): Server
    requires sid in srv.sessions
  {
    Apply(srv, sid, ExpireTransfers(CoreOf(srv, sid), now))
  }

  ghost function TransferStep(srv: Server, g: Config, sid: nat, m: Message, env: Env): (Server, Verdict)
    requires sid in srv.sessions && IsTransfer(m)
  {
    var (d, verdict) := HandleTransfer(CoreOf(srv, sid), g, sid, srv.sessions[sid].user, m, env);
    (if verdict == Accepted then Log(srv, sid, d, m, env) else Apply(srv, sid, d), verdict)
  }

  function BundleResult(srv: Server, sid: nat, m: Message, env: Env, o: Outcome): (Server, Verdict)
    requires sid in srv.sessions
  {
    var d := Core(o.files, o.nextEvent, o.budget, srv.sessions[sid].transfers);
    (if o.verdict == Accepted then Log(srv, sid, d, m, env) else Apply(srv, sid, d), o.verdict)
  }

  ghost function BundleStep(srv: Server, g: Config, sid: nat, m: Message, env: Env): (Server, Verdict)
    requires sid in srv.sessions && m.FileBundle?
  {
    BundleResult(srv, sid, m, env,
                 Persist(srv.files, srv.nextEvent, srv.budget, g, srv.sessions[sid].user, m.files, env))
  }

  /** `processMessage` on a validated message, once expired transfers are gone; `authOk`
      is the verdict of the credentials and the rate limiter. */
  ghost function Continue(e: Server, g: Config, sid: nat, m: Message, authOk: bool, env: Env): (Server, Verdict)
    requires sid in e.sessions
  {
    var s := e.sessions[sid];
    if m.Auth? then
      if s.authenticated then (e, Rejected("ALREADY_AUTHENTICATED"))
      else if authOk then
        (e.(sessions := e.sessions[sid := s.(authenticated := true, user := m.username)]), LoggedIn)
      else (e, Rejected("FAILED"))
    else if !s.authenticated then (e, Rejected("UNAUTHENTICATED"))
    else if m.Ping? then (e, Pong)
    else if m.ClipboardText? then (Log(e, sid, CoreOf(e, sid), m, env), Accepted)
    else if m.FileBundle? then BundleStep(e, g, sid, m, env)
    else TransferStep(e, g, sid, m, env)
  }

  /** An accepted message is the one that is then broadcast. */
  ghost function Process(srv: Server, g: Config, sid: nat, m: Message, authOk: bool, env: Env): (Server, Verdict)
    requires sid in srv.sessions
  {
    Continue(Expire(srv, sid, env.expiryClock), g, sid, m, authOk, env)
  }

  datatype Event =
    | Connect(sid: nat)
    | Receive(sid: nat, message: Message, authOk: bool, env: Env)
    | End(sid: nat)

  predicate Enabled(srv: Server, e: Event) {
    if e.Connect? then e.sid !in srv.sessions else e.sid in srv.sessions
  }

  ghost function Next(srv: Server, g: Config, e: Event): Server
    requires Enabled(srv, e)
  {
    match e
    case Connect(sid) => srv.(sessions := srv.sessions[sid := NEW_SESSION])
    case Receive(sid, m, authOk, env) => Process(srv, g, sid, m, authOk, env).0
    case End(sid) => Apply(srv, sid, DropTransfers(CoreOf(srv, sid)))
  }

  /* ------------------------------------------------------------- the invariant */

  /** The work file and the directory of an open transfer. */
  predicate Attached(files: Files, nextEvent: nat, sid: nat, t: Transfer) {
    && t.temporaryPath.WorkFile? && t.temporaryPath.session == sid && t.temporaryPath.event < nextEvent
    && t.temporaryPath in files
    && t.directory.event < nextEvent && EmptyDir(files, t.directory)
    && |files[t.temporaryPath]| == t.receivedSize <= t.expectedSize
  }

  /** An open transfer is what the session's log says it is. */
  ghost predicate Faithful(files: Files, s: Session, id: string)
    requires id in s.transfers
  {
    var t, p, i := s.transfers[id], Track(s.log, id), StartIndex(s.log, id);
    && p.opening.Some? && p.opening.value.TransferStart?
    && t.expectedSize == p.opening.value.size && t.sha256 == p.opening.value.sha256
    && t.fileName == Sanitized(p.opening.value.name)
    && t.nextSequence == p.chunks
    && ContentOf(files, t.temporaryPath) == p.bytes
    && i.Some? && i.value in s.fates && s.fates[i.value].Live?
  }

  /** The file a completed transfer installed, against the log up to its completion. */
  ghost predicate CommitOk(files: Files, g: Config, log: seq<Message>, i: nat, f: Fate)
    requires f.Committed?
  {
    && i < f.at < |log| && log[i].TransferStart? && log[f.at] == TransferComplete(log[i].id)
    && StartIndex(log[..f.at], log[i].id) == Some(i)
    && f.path.Stored? && f.path in files && files[f.path] == f.content
    && f.content <= Track(log[..f.at], log[i].id).bytes
    && |Track(log[..f.at], log[i].id).bytes| == log[i].size
    && (log[i].sha256 != "" ==> g.sha256(f.content) == log[i].sha256)
  }

  predicate Opens(log: seq<Message>, i: nat) {
    i < |log| && log[i].TransferStart?
  }

  /** A completion in the log installed the transfer it completes. */
  predicate CompletionOk(s: Session, k: nat)
    requires k < |s.log| && s.log[k].TransferComplete?
  {
    var i := StartIndex(s.log[..k], s.log[k].id);
    i.Some? && i.value in s.fates && s.fates[i.value].Committed? && s.fates[i.value].at == k
  }

  ghost predicate FatesOk(files: Files, g: Config, s: Session) {
    && (forall i :: i in s.fates <==> Opens(s.log, i))
    && (forall i <- s.fates :: s.fates[i].Live? ==>
          s.log[i].id in s.transfers && StartIndex(s.log, s.log[i].id) == Some(i))
    && (forall i <- s.fates :: s.fates[i].Committed? ==> CommitOk(files, g, s.log, i, s.fates[i]))
    && (forall k | 0 <= k < |s.log| && s.log[k].TransferComplete? :: CompletionOk(s, k))
  }

  /** Accepted chunks are numbered 0, 1, 2, ... since the opening. */
  ghost predicate Sequenced(log: seq<Message>) {
    forall k | 0 <= k < |log| && log[k].TransferChunk? ::
      log[k].seqNo == Track(log[..k], log[k].id).chunks
  }

  predicate Apart(t: Table) {
    forall i, j | i in t && j in t && i != j ::
      t[i].temporaryPath != t[j].temporaryPath && t[i].directory.event != t[j].directory.event
  }

  /** Work files of the session are those of its open transfers, or lay there before. */
  predicate NoStrayWork(files: Files, inherited: set<Path>, sid: nat, t: Table) {
    forall p <- files :: p.WorkFile? && p.session == sid ==> p in inherited || p in WorkPaths(t, t.Keys)
  }

  /** At most eight transfers, whose declared sizes fit the message limit together. */
  ghost predicate QuotaOk(g: Config, t: Table) {
    |t| <= MAX_TRANSFERS && DeclaredTotal(t) <= g.maxMessage
  }

  predicate AllAttached(files: Files, nextEvent: nat, sid: nat, t: Table) {
    forall id <- t :: Attached(files, nextEvent, sid, t[id])
  }

  ghost predicate AllFaithful(files: Files, s: Session) {
    forall id <- s.transfers :: Faithful(files, s, id)
  }

  /** The table against the disk and the quota. */
  ghost predicate TableOk(files: Files, nextEvent: nat, g: Config, inherited: set<Path>, sid: nat, t: Table) {
    && QuotaOk(g, t)
    && AllAttached(files, nextEvent, sid, t)
    && Apart(t)
    && NoStrayWork(files, inherited, sid, t)
  }

  /** The table and the fates against the log. */
  ghost predicate RecordOk(files: Files, g: Config, s: Session) {
    && AllFaithful(files, s)
    && FatesOk(files, g, s)
    && Sequenced(s.log)
  }

  ghost predicate SessionOk(files: Files, nextEvent: nat, g: Config, inherited: set<Path>, sid: nat, s: Session) {
    && (!s.authenticated ==> s.transfers == map[] && s.log == [])
    && TableOk(files, nextEvent, g, inherited, sid, s.transfers)
    && RecordOk(files, g, s)
  }

  /** No directory with a number still to come exists, unless it lay there before. */
  predicate Bounded(files: Files, nextEvent: nat, inherited: set<Path>) {
    forall p <- files :: p.Stored? ==> p in inherited || p.dir.event < nextEvent
  }

  predicate SessionsApart(sessions: map<nat, Session>) {
    forall a, b | a in sessions && b in sessions && a != b :: TablesApart(sessions[a].transfers, sessions[b].transfers)
  }

  predicate TablesApart(t: Table, u: Table) {
    forall i, j | i in t && j in u :: t[i].directory.event != u[j].directory.event
  }

  ghost predicate Inv(srv: Server, g: Config, inherited: set<Path>) {
    && srv.budget.used <= UPLOAD_LIMIT
    && (forall sid <- srv.sessions :: SessionOk(srv.files, srv.nextEvent, g, inherited, sid, srv.sessions[sid]))
    && SessionsApart(srv.sessions)
    && Bounded(srv.files, srv.nextEvent, inherited)
    && (forall p <- srv.files :: p.WorkFile? && p.session !in srv.sessions ==> p in inherited)
  }

  /** Time stamps have moved on since the process before this one. */
  predicate StampFresh(inherited: set<Path>, stamp: string) {
    forall p <- inherited :: p.Stored? ==> p.dir.stamp != stamp
  }

  /* ------------------------------------------------------------- one session acts */

  /** What a step of session `sid` may do to the files: stored files stay as they are,
      other sessions' work files stay as they are, and new stored files lie in a directory
      of the session's own. */
  predicate Considerate(files: Files, after: Files, nextEvent: nat, sid: nat, t: Table) {
    && (forall p <- files :: p.Stored? || p.session != sid ==> p in after && after[p] == files[p])
    && (forall p <- after :: p !in files ==>
          if p.WorkFile? then p.session == sid
          else p.dir.event >= nextEvent || exists id :: id in t && t[id].directory == p.dir)
  }

  /** Where transfers come from: kept from before, or opened with a fresh number. */
  predicate Descends(t: Table, u: Table, nextEvent: nat) {
    forall id <- u :: (id in t && u[id].directory == t[id].directory) || u[id].directory.event >= nextEvent
  }

  lemma AttachedFrame(files: Files, after: Files, nextEvent: nat, later: nat, sid: nat, t: Table, other: nat,
                      x: Transfer)
    requires other != sid && nextEvent <= later && Attached(files, nextEvent, other, x)
    requires Considerate(files, after, nextEvent, sid, t)
    requires forall i <- t :: t[i].directory.event != x.directory.event
    ensures Attached(after, later, other, x) && after[x.temporaryPath] == files[x.temporaryPath]
  {}

  lemma FatesFrame(files: Files, after: Files, g: Config, s: Session)
    requires FatesOk(files, g, s)
    requires forall p <- files :: p.Stored? ==> p in after && after[p] == files[p]
    ensures FatesOk(after, g, s)
  {
    forall i <- s.fates | s.fates[i].Committed? ensures CommitOk(after, g, s.log, i, s.fates[i]) {
      assert CommitOk(files, g, s.log, i, s.fates[i]);
    }
  }

  /** Another session does not notice. */
  lemma OthersUnaffected(files: Files, after: Files, nextEvent: nat, later: nat, g: Config, inherited: set<Path>,
                         sid: nat, t: Table, other: nat, s: Session)
    requires other != sid && nextEvent <= later
    requires SessionOk(files, nextEvent, g, inherited, other, s)
    requires Considerate(files, after, nextEvent, sid, t) && TablesApart(t, s.transfers)
    ensures SessionOk(after, later, g, inherited, other, s)
  {
    forall id <- s.transfers
      ensures Attached(after, later, other, s.transfers[id]) && Faithful(after, s, id)
    {
      AttachedFrame(files, after, nextEvent, later, sid, t, other, s.transfers[id]);
      assert Faithful(files, s, id);
    }
    FatesFrame(files, after, g, s);
    assert NoStrayWork(after, inherited, other, s.transfers);
  }

  lemma StillApart(t: Table, u: Table, others: Table, nextEvent: nat)
    requires Descends(t, u, nextEvent) && TablesApart(t, others)
    requires forall j <- others :: others[j].directory.event < nextEvent
    ensures TablesApart(u, others) && TablesApart(others, u)
  {}

  lemma EventsBelow(files: Files, nextEvent: nat, g: Config, inherited: set<Path>, sid: nat, s: Session)
    requires SessionOk(files, nextEvent, g, inherited, sid, s)
    ensures forall j <- s.transfers :: s.transfers[j].directory.event < nextEvent
  {
    forall j <- s.transfers ensures s.transfers[j].directory.event < nextEvent {
      assert Attached(files, nextEvent, sid, s.transfers[j]);
    }
  }

  /** The acting session ends up in order and was considerate. */
  ghost predicate GoodStep(srv: Server, g: Config, inherited: set<Path>, sid: nat, d: Core, s: Session)
    requires sid in srv.sessions
  {
    var t := srv.sessions[sid].transfers;
    && s.transfers == d.transfers && srv.nextEvent <= d.nextEvent && d.budget.used <= UPLOAD_LIMIT
    && SessionOk(d.files, d.nextEvent, g, inherited, sid, s)
    && Considerate(srv.files, d.files, srv.nextEvent, sid, t)
    && Descends(t, d.transfers, srv.nextEvent)
    && Bounded(d.files, d.nextEvent, inherited)
  }

  lemma ComposeOne(srv: Server, g: Config, inherited: set<Path>, sid: nat, d: Core, s: Session, other: nat)
    requires Inv(srv, g, inherited) && sid in srv.sessions && GoodStep(srv, g, inherited, sid, d, s)
    requires other in srv.sessions && other != sid
    ensures SessionOk(d.files, d.nextEvent, g, inherited, other, srv.sessions[other])
    ensures TablesApart(d.transfers, srv.sessions[other].transfers)
    ensures TablesApart(srv.sessions[other].transfers, d.transfers)
  {
    var t, o := srv.sessions[sid].transfers, srv.sessions[other];
    OthersUnaffected(srv.files, d.files, srv.nextEvent, d.nextEvent, g, inherited, sid, t, other, o);
    EventsBelow(srv.files, srv.nextEvent, g, inherited, other, o);
    StillApart(t, d.transfers, o.transfers, srv.nextEvent);
  }

  lemma ApartUpdate(sessions: map<nat, Session>, sid: nat, s: Session)
    requires SessionsApart(sessions)
    requires forall other | other in sessions && other != sid ::
               TablesApart(s.transfers, sessions[other].transfers)
                   && TablesApart(sessions[other].transfers, s.transfers)
    ensures SessionsApart(sessions[sid := s])
  {}

  /** One good step of one session keeps the whole server in order. */
  lemma Compose(srv: Server, g: Config, inherited: set<Path>, sid: nat, d: Core, s: Session)
    requires Inv(srv, g, inherited) && sid in srv.sessions && GoodStep(srv, g, inherited, sid, d, s)
    ensures Inv(Server(d.files, d.nextEvent, d.budget, srv.sessions[sid := s]), g, inherited)
  {
    forall other | other in srv.sessions && other != sid
      ensures SessionOk(d.files, d.nextEvent, g, inherited, other, srv.sessions[other])
      ensures TablesApart(s.transfers, srv.sessions[other].transfers)
              && TablesApart(srv.sessions[other].transfers, s.transfers)
    {
      ComposeOne(srv, g, inherited, sid, d, s, other);
    }
    ApartUpdate(srv.sessions, sid, s);
    forall p <- d.files | p.WorkFile? && p.session !in srv.sessions ensures p in inherited {}
  }
}
