/** What holds of the server's storage in every run: any sessions, any messages in any
    interleaving, any clock readings and any answers of the file system. */
module ServerRuns {
  import opened Basics
  import opened Base64
  import opened FileNames
  import opened Storage
  import opened Messages
  import opened UploadBudget
  import opened Transfers
  import opened Bundles
  import opened Server
  import opened ServerSteps

  lemma ProcessGood(srv: Server, g: Config, inherited: set<Path>, sid: nat, m: Message, authOk: bool, env: Env)
    requires Inv(srv, g, inherited) && sid in srv.sessions && StampFresh(inherited, env.stamp)
    ensures Inv(Process(srv, g, sid, m, authOk, env).0, g, inherited)
  {
    var c := CoreOf(srv, sid);
    DiscardGood(srv, g, inherited, sid, c, Expired(c.transfers, env.expiryClock));
    var e := Expire(srv, sid, env.expiryClock);
    AfterExpiry(e, g, inherited, sid, m, authOk, env);
  }

  /** `processMessage` after the expired transfers are gone. */
  lemma AfterExpiry(e: Server, g: Config, inherited: set<Path>, sid: nat, m: Message, authOk: bool, env: Env)
    requires Inv(e, g, inherited) && sid in e.sessions && StampFresh(inherited, env.stamp)
    ensures Inv(Continue(e, g, sid, m, authOk, env).0, g, inherited)
  {
    hide Inv, StampFresh, TransferStep, BundleStep, Log;
    var s := e.sessions[sid];
    if m.Auth? {
      LoginGood(e, g, inherited, sid, m.username);
    } else if s.authenticated {
      if m.ClipboardText? {
        TextGood(e, g, inherited, sid, m, env);
      } else if m.FileBundle? {
        BundleGood(e, g, inherited, sid, m, env);
      } else if m.TransferStart? {
        OpenGood(e, g, inherited, sid, m, env);
      } else if m.TransferChunk? {
        ChunkGood(e, g, inherited, sid, m, env);
      } else if m.TransferComplete? {
        CompleteGood(e, g, inherited, sid, m, env);
      }
    }
  }

  lemma TextGood(e: Server, g: Config, inherited: set<Path>, sid: nat, m: Message, env: Env)
    requires Inv(e, g, inherited) && sid in e.sessions && e.sessions[sid].authenticated && m.ClipboardText?
    ensures Inv(Log(e, sid, CoreOf(e, sid), m, env), g, inherited)
  {
    hide SessionOk, SessionsApart, Bounded, Log;
    NoteGood(e, g, inherited, sid, CoreOf(e, sid), Dir(env.stamp, e.nextEvent, ""), m, env);
  }

  lemma LoginGood(srv: Server, g: Config, inherited: set<Path>, sid: nat, user: string)
    requires Inv(srv, g, inherited) && sid in srv.sessions
    ensures Inv(srv.(sessions := srv.sessions[sid := srv.sessions[sid].(authenticated := true, user := user)]), g,
                inherited)
  {
    var s := srv.sessions[sid];
    var s' := s.(authenticated := true, user := user);
    assert AllFaithful(srv.files, s') by {
      forall id <- s.transfers ensures Faithful(srv.files, s', id) { assert Faithful(srv.files, s, id); }
    }
    assert FatesOk(srv.files, g, s') by {
      forall k | 0 <= k < |s.log| && s.log[k].TransferComplete? ensures CompletionOk(s', k) {
        assert CompletionOk(s, k);
      }
    }
    assert GoodStep(srv, g, inherited, sid, CoreOf(srv, sid), s');
    Compose(srv, g, inherited, sid, CoreOf(srv, sid), s');
  }

  lemma ConnectGood(srv: Server, g: Config, inherited: set<Path>, sid: nat)
    requires Inv(srv, g, inherited) && sid !in srv.sessions
    ensures Inv(srv.(sessions := srv.sessions[sid := NEW_SESSION]), g, inherited)
  {
    hide SessionOk, Bounded;
    NewcomerGood(srv.files, srv.nextEvent, g, inherited, sid);
    ApartUpdate(srv.sessions, sid, NEW_SESSION);
  }

  lemma NewcomerGood(files: Files, nextEvent: nat, g: Config, inherited: set<Path>, sid: nat)
    requires forall p <- files :: p.WorkFile? && p.session == sid ==> p in inherited
    ensures SessionOk(files, nextEvent, g, inherited, sid, NEW_SESSION)
  {
    assert QuotaOk(g, map[]);
  }

  /** Events may fail to be enabled; such an event changes nothing. */
  ghost function Run(srv: Server, g: Config, events: seq<Event>): Server {
    if events == [] then srv
    else
      var before, e := Run(srv, g, events[..|events| - 1]), events[|events| - 1];
      if Enabled(before, e) then Next(before, g, e) else before
  }

  /** The server as it starts on whatever its storage directory holds. */
  function Started(files: Files, now: int): Server {
    Server(files, 1, Budget(now, 0), map[])
  }

  /** No directory of an earlier process carries a time stamp of this one. */
  predicate StampsMovedOn(files: Files, events: seq<Event>) {
    forall e <- events :: e.Receive? ==> StampFresh(files.Keys, e.env.stamp)
  }

  /** Every event keeps the invariant. */
  lemma NextGood(srv: Server, g: Config, inherited: set<Path>, e: Event)
    requires Inv(srv, g, inherited) && Enabled(srv, e)
    requires e.Receive? ==> StampFresh(inherited, e.env.stamp)
    ensures Inv(Next(srv, g, e), g, inherited)
  {
    match e
    case Connect(sid) => ConnectGood(srv, g, inherited, sid);
    case Receive(sid, m, authOk, env) => ProcessGood(srv, g, inherited, sid, m, authOk, env);
    case End(sid) => DiscardGood(srv, g, inherited, sid, CoreOf(srv, sid), srv.sessions[sid].transfers.Keys);
  }

  lemma {:induction false} Always(files: Files, now: int, g: Config, events: seq<Event>)
    requires StampsMovedOn(files, events)
    ensures Inv(Run(Started(files, now), g, events), g, files.Keys)
  {
    if events != [] {
      var init, e := events[..|events| - 1], events[|events| - 1];
      assert e in events;
      Always(files, now, g, init);
      var before := Run(Started(files, now), g, init);
      if Enabled(before, e) {
        NextGood(before, g, files.Keys, e);
      }
    }
  }

  /* ------------------------------------------------------------- consequences */

  /** Commit integrity. Whatever else happened, a committed transfer's file is on disk
      under its path, holds a prefix of the concatenated chunks accepted since its
      opening, those chunks were numbered 0, 1, 2, ... and add up to the declared size,
      and the declared hash, if any, is the hash of what is on disk. The file is the whole
      concatenation exactly when it is not shorter than declared. */
  lemma CommitIntegrity(files: Files, now: int, g: Config, events: seq<Event>, sid: nat, i: nat)
    requires StampsMovedOn(files, events)
    requires var srv := Run(Started(files, now), g, events);
             sid in srv.sessions && i in srv.sessions[sid].fates && srv.sessions[sid].fates[i].Committed?
    ensures var srv := Run(Started(files, now), g, events);
            var s := srv.sessions[sid];
            var f := s.fates[i];
            && i < f.at < |s.log| && s.log[i].TransferStart? && s.log[f.at] == TransferComplete(s.log[i].id)
            && StartIndex(s.log[..f.at], s.log[i].id) == Some(i)
            && (var sent := Track(s.log[..f.at], s.log[i].id).bytes;
                && f.path in srv.files && srv.files[f.path] == f.content && f.content <= sent
                && |sent| == s.log[i].size
                && (f.content == sent <==> |f.content| == s.log[i].size)
                && (s.log[i].sha256 != "" ==> g.sha256(srv.files[f.path]) == s.log[i].sha256))
            && forall k | 0 <= k < |s.log| && s.log[k].TransferChunk? ::
                 s.log[k].seqNo == Track(s.log[..k], s.log[k].id).chunks
  {
    Always(files, now, g, events);
    var srv := Run(Started(files, now), g, events);
    var s := srv.sessions[sid];
    assert SessionOk(srv.files, srv.nextEvent, g, files.Keys, sid, s);
    assert CommitOk(srv.files, g, s.log, i, s.fates[i]);
  }

  /** Whether a commit is whole is decided by one thing the code never looks at: whether
      closing the stream put every octet on disk. */
  lemma CommitWholeIff(srv: Server, g: Config, inherited: set<Path>, sid: nat, m: Message, env: Env)
    requires Inv(srv, g, inherited) && sid in srv.sessions && m.TransferComplete?
    requires HandleComplete(CoreOf(srv, sid), g, m, env).1 == Accepted
    ensures var c := CoreOf(srv, sid);
            && m.id in c.transfers
            && (Installed(c, m.id, env) == Track(srv.sessions[sid].log, m.id).bytes
                <==> env.closedAt >= c.transfers[m.id].expectedSize)
  {
    var c, s := CoreOf(srv, sid), srv.sessions[sid];
    CommitAccepted(c, g, m, env);
    assert SessionOk(srv.files, srv.nextEvent, g, inherited, sid, s);
    OpenTransferFacts(srv.files, srv.nextEvent, g, inherited, sid, s, m.id);
    ClosedWholeIff(ContentOf(c.files, s.transfers[m.id].temporaryPath), env);
  }

  lemma ClosedWholeIff(content: seq<byte>, env: Env)
    ensures Closed(content, env) == content <==> env.closedAt >= |content|
  {}

  lemma OpenTransferFacts(files: Files, nextEvent: nat, g: Config, inherited: set<Path>, sid: nat, s: Session,
                          id: string)
    requires SessionOk(files, nextEvent, g, inherited, sid, s) && id in s.transfers
    ensures Attached(files, nextEvent, sid, s.transfers[id]) && Faithful(files, s, id)
  {}

  /** A short file really is installed: without a declared hash, a completion whose close
      lost octets is accepted all the same. */
  lemma ShortFileInstalled(c: Core, g: Config, m: Message, env: Env)
    requires m.TransferComplete? && m.id in c.transfers && HasWork(c)
    requires var t := c.transfers[m.id];
             t.sha256 == "" && t.receivedSize == t.expectedSize == |c.files[t.temporaryPath]|
    requires env.closedAt < c.transfers[m.id].expectedSize && env.renameOk
    ensures HandleComplete(c, g, m, env).1 == Accepted
    ensures |HandleComplete(c, g, m, env).0.files[Target(c, m.id, env)]|
        == env.closedAt < c.transfers[m.id].expectedSize
  {}

  /** A declared hash in upper case passes validation, but no file has it: such a transfer
      is never committed. */
  lemma UpperCaseHashNeverCommits(c: Core, g: Config, m: Message, env: Env, k: nat)
    requires m.TransferComplete? && m.id in c.transfers
    requires k < |c.transfers[m.id].sha256| && 'A' <= c.transfers[m.id].sha256[k] <= 'F'
    requires forall x :: |g.sha256(x)| == 64 && forall d <- g.sha256(x) :: '0' <= d <= '9' || 'a' <= d <= 'f'
    ensures HandleComplete(c, g, m, env).1 != Accepted
  {
    var computed := g.sha256(Installed(c, m.id, env));
    assert k < |computed| ==> computed[k] in computed;
  }

  /** The quotas of every session in every reachable state. */
  lemma QuotasHold(files: Files, now: int, g: Config, events: seq<Event>, sid: nat)
    requires StampsMovedOn(files, events)
    requires sid in Run(Started(files, now), g, events).sessions
    ensures var t := Run(Started(files, now), g, events).sessions[sid].transfers;
            && |t| <= MAX_TRANSFERS && DeclaredTotal(t) <= g.maxMessage
            && forall id <- t :: t[id].receivedSize <= t[id].expectedSize
    ensures Run(Started(files, now), g, events).budget.used <= UPLOAD_LIMIT
  {
    Always(files, now, g, events);
    var srv := Run(Started(files, now), g, events);
    assert SessionOk(srv.files, srv.nextEvent, g, files.Keys, sid, srv.sessions[sid]);
    forall id <- srv.sessions[sid].transfers
      ensures srv.sessions[sid].transfers[id].receivedSize <= srv.sessions[sid].transfers[id].expectedSize
    {
      assert Attached(srv.files, srv.nextEvent, sid, srv.sessions[sid].transfers[id]);
    }
  }

  /** Conservation. Every opening in a session's log has exactly one fate; it is live just
      when its transfer is in the table under its latest opening; the work files on disk
      are those of the live transfers, one each, apart from any that lay there before. */
  lemma TransfersConserved(files: Files, now: int, g: Config, events: seq<Event>, sid: nat)
    requires StampsMovedOn(files, events)
    requires sid in Run(Started(files, now), g, events).sessions
    ensures var srv := Run(Started(files, now), g, events);
            var s := srv.sessions[sid];
            && (forall i :: i in s.fates <==> Opens(s.log, i))
            && (forall i <- s.fates :: s.fates[i].Live? <==>
                  s.log[i].id in s.transfers && StartIndex(s.log, s.log[i].id) == Some(i))
            && (forall id <- s.transfers :: s.transfers[id].temporaryPath in srv.files)
            && (forall id, j | id in s.transfers && j in s.transfers && id != j ::
                  s.transfers[id].temporaryPath != s.transfers[j].temporaryPath)
            && (forall p <- srv.files :: p.WorkFile? && p.session == sid && p !in files ==>
                  exists id :: id in s.transfers && s.transfers[id].temporaryPath == p)
  {
    Always(files, now, g, events);
    var srv := Run(Started(files, now), g, events);
    var s := srv.sessions[sid];
    assert SessionOk(srv.files, srv.nextEvent, g, files.Keys, sid, s);
    forall id <- s.transfers
      ensures Attached(srv.files, srv.nextEvent, sid, s.transfers[id]) && Faithful(srv.files, s, id) {}
    forall p <- srv.files | p.WorkFile? && p.session == sid && p !in files
      ensures exists id :: id in s.transfers && s.transfers[id].temporaryPath == p
    {
      assert p in WorkPaths(s.transfers, s.transfers.Keys);
    }
  }

  /** Once a session has ended none of its work files is left. */
  lemma EndLeavesNothing(files: Files, now: int, g: Config, events: seq<Event>, sid: nat)
    requires StampsMovedOn(files, events)
    requires sid in Run(Started(files, now), g, events).sessions
    ensures var srv := Next(Run(Started(files, now), g, events), g, End(sid));
            && srv.sessions[sid].transfers == map[]
            && (forall p <- srv.files :: p.WorkFile? && p.session == sid ==> p in files)
            && (forall i <- srv.sessions[sid].fates :: !srv.sessions[sid].fates[i].Live?)
  {
    Always(files, now, g, events);
    var before := Run(Started(files, now), g, events);
    var srv := Next(before, g, End(sid));
    DiscardGood(before, g, files.Keys, sid, CoreOf(before, sid), before.sessions[sid].transfers.Keys);
    var s := srv.sessions[sid];
    CleanupIdempotent(CoreOf(before, sid), 0);
    assert SessionOk(srv.files, srv.nextEvent, g, files.Keys, sid, s);
    assert WorkPaths(s.transfers, s.transfers.Keys) == {};
  }

  /** Before authentication no message changes a transfer, a file or a counter. */
  lemma UnauthenticatedChangesNothing(files: Files, now: int, g: Config, events: seq<Event>,
                                      sid: nat, m: Message, authOk: bool, env: Env)
    requires StampsMovedOn(files, events)
    requires var srv := Run(Started(files, now), g, events);
             sid in srv.sessions && !srv.sessions[sid].authenticated && !m.Auth?
    ensures var srv := Run(Started(files, now), g, events);
            Process(srv, g, sid, m, authOk, env) == (srv, Rejected("UNAUTHENTICATED"))
  {
    Always(files, now, g, events);
    var srv := Run(Started(files, now), g, events);
    var s, c := srv.sessions[sid], CoreOf(srv, sid);
    assert SessionOk(srv.files, srv.nextEvent, g, files.Keys, sid, s);
    assert Expired(c.transfers, env.expiryClock) == {};
    DiscardNothing(c);
    SettleSame(srv.files, g, s);
    assert srv.sessions[sid := s] == srv.sessions;
  }
}
