/** Each handler of server_common/tcpserver.cpp keeps the server's invariant: the steps
    behind the run theorems of ServerRuns. */
module ServerSteps {
  import opened Basics
  import opened Base64
  import opened FileNames
  import opened Storage
  import opened Messages
  import opened UploadBudget
  import opened Transfers
  import opened Bundles
  import opened Server

  /* ------------------------------------------------------------- discarding */

  lemma SettleSame(files: Files, g: Config, s: Session)
    requires FatesOk(files, g, s)
    ensures Settle(s, s.transfers) == s.fates
  {}

  lemma DiscardAttached(c: Core, nextEvent: nat, sid: nat, ids: set<string>, id: string)
    requires Apart(c.transfers) && id in c.transfers && id !in ids
    requires Attached(c.files, nextEvent, sid, c.transfers[id])
    ensures Attached(Discard(c, ids).files, nextEvent, sid, c.transfers[id])
    ensures ContentOf(Discard(c, ids).files, c.transfers[id].temporaryPath)
            == ContentOf(c.files, c.transfers[id].temporaryPath)
  {
    assert c.transfers[id].temporaryPath !in WorkPaths(c.transfers, ids);
  }

  /** Discarded transfers leave the table, their work files go, their fate is settled. */
  function Without(s: Session, ids: set<string>): Session {
    s.(transfers := s.transfers - ids, fates := Settle(s, s.transfers - ids))
  }

  lemma WorkPathsAreWork(files: Files, nextEvent: nat, sid: nat, t: Table, ids: set<string>)
    requires AllAttached(files, nextEvent, sid, t)
    ensures forall p <- WorkPaths(t, ids) :: p.WorkFile? && p.session == sid
  {
    forall p <- WorkPaths(t, ids) ensures p.WorkFile? && p.session == sid {
      var id :| id in ids && id in t && p == t[id].temporaryPath;
      assert Attached(files, nextEvent, sid, t[id]);
    }
  }

  lemma WithoutFates(files: Files, after: Files, g: Config, s: Session, ids: set<string>)
    requires FatesOk(files, g, s)
    requires forall p <- files :: p.Stored? ==> p in after && after[p] == files[p]
    ensures FatesOk(after, g, Without(s, ids))
  {
    FatesFrame(files, after, g, s);
    var w := Without(s, ids);
    forall k | 0 <= k < |s.log| && s.log[k].TransferComplete? ensures CompletionOk(w, k) {
      assert CompletionOk(s, k);
    }
  }

  lemma WithoutFaithful(c: Core, s: Session, ids: set<string>, id: string)
    requires c.transfers == s.transfers && id in s.transfers && id !in ids && Faithful(c.files, s, id)
    requires ContentOf(Discard(c, ids).files, s.transfers[id].temporaryPath)
        == ContentOf(c.files, s.transfers[id].temporaryPath)
    ensures Faithful(Discard(c, ids).files, Without(s, ids), id)
  {
    StartIndexPoints(s.log, id);
  }

  lemma DiscardNoStray(c: Core, inherited: set<Path>, sid: nat, ids: set<string>)
    requires NoStrayWork(c.files, inherited, sid, c.transfers)
    ensures NoStrayWork(Discard(c, ids).files, inherited, sid, c.transfers - ids)
  {
    var d := Discard(c, ids);
    forall p <- d.files | p.WorkFile? && p.session == sid && p !in inherited
      ensures p in WorkPaths(d.transfers, d.transfers.Keys)
    {
      assert p in WorkPaths(c.transfers, c.transfers.Keys);
      var id :| id in c.transfers && p == c.transfers[id].temporaryPath;
      assert id in ids ==> p in WorkPaths(c.transfers, ids);
      assert id in d.transfers && d.transfers[id].temporaryPath == p;
    }
  }

  lemma DiscardTable(c: Core, g: Config, inherited: set<Path>, sid: nat, ids: set<string>)
    requires TableOk(c.files, c.nextEvent, g, inherited, sid, c.transfers)
    ensures TableOk(Discard(c, ids).files, c.nextEvent, g, inherited, sid, c.transfers - ids)
    ensures forall id <- c.transfers - ids :: ContentOf(Discard(c, ids).files, c.transfers[id].temporaryPath)
                                        == ContentOf(c.files, c.transfers[id].temporaryPath)
  {
    var d := Discard(c, ids);
    TotalDropped(c.transfers, ids);
    forall id <- d.transfers
      ensures Attached(d.files, c.nextEvent, sid, d.transfers[id])
      ensures ContentOf(d.files, c.transfers[id].temporaryPath) == ContentOf(c.files, c.transfers[id].temporaryPath)
    {
      assert Attached(c.files, c.nextEvent, sid, c.transfers[id]);
      DiscardAttached(c, c.nextEvent, sid, ids, id);
    }
    DiscardNoStray(c, inherited, sid, ids);
  }

  lemma DiscardRecord(c: Core, g: Config, s: Session, ids: set<string>)
    requires c.transfers == s.transfers && RecordOk(c.files, g, s)
    requires forall p <- c.files :: p.Stored? ==> p in Discard(c, ids).files
    requires forall id <- c.transfers - ids :: ContentOf(Discard(c, ids).files, c.transfers[id].temporaryPath)
                                         == ContentOf(c.files, c.transfers[id].temporaryPath)
    ensures RecordOk(Discard(c, ids).files, g, Without(s, ids))
  {
    forall id <- s.transfers - ids ensures Faithful(Discard(c, ids).files, Without(s, ids), id) {
      assert Faithful(c.files, s, id);
      assert id in c.transfers - ids;
      WithoutFaithful(c, s, ids, id);
    }
    WithoutFates(c.files, Discard(c, ids).files, g, s, ids);
  }

  lemma DiscardSession(c: Core, g: Config, inherited: set<Path>, sid: nat, s: Session, ids: set<string>)
    requires c.transfers == s.transfers && SessionOk(c.files, c.nextEvent, g, inherited, sid, s)
    ensures SessionOk(Discard(c, ids).files, c.nextEvent, g, inherited, sid, Without(s, ids))
  {
    WorkPathsAreWork(c.files, c.nextEvent, sid, s.transfers, ids);
    DiscardTable(c, g, inherited, sid, ids);
    DiscardRecord(c, g, s, ids);
  }

  lemma DiscardGood(srv: Server, g: Config, inherited: set<Path>, sid: nat, c: Core, ids: set<string>)
    requires Inv(srv, g, inherited) && sid in srv.sessions
    requires c.files == srv.files && c.transfers == srv.sessions[sid].transfers
    requires c.nextEvent == srv.nextEvent && c.budget.used <= UPLOAD_LIMIT
    ensures Inv(Apply(srv, sid, Discard(c, ids)), g, inherited)
  {
    var s, d := srv.sessions[sid], Discard(c, ids);
    DiscardSession(c, g, inherited, sid, s, ids);
    WorkPathsAreWork(srv.files, srv.nextEvent, sid, s.transfers, ids);
    assert GoodStep(srv, g, inherited, sid, d, Without(s, ids));
    Compose(srv, g, inherited, sid, d, Without(s, ids));
  }

  /** A rejection that changes counters only. */
  lemma QuietGood(srv: Server, g: Config, inherited: set<Path>, sid: nat, d: Core)
    requires Inv(srv, g, inherited) && sid in srv.sessions
    requires d.files == srv.files && d.transfers == srv.sessions[sid].transfers
    requires d.nextEvent >= srv.nextEvent && d.budget.used <= UPLOAD_LIMIT
    ensures Inv(Apply(srv, sid, d), g, inherited)
    ensures Apply(srv, sid, d).sessions == srv.sessions
  {
    SettleSame(srv.files, g, srv.sessions[sid]);
    assert Apply(srv, sid, d).sessions == srv.sessions;
    forall o <- srv.sessions ensures SessionOk(d.files, d.nextEvent, g, inherited, o, srv.sessions[o]) {
      LaterEvent(srv.files, srv.nextEvent, d.nextEvent, g, inherited, o, srv.sessions[o]);
    }
  }

  lemma LaterEvent(files: Files, nextEvent: nat, later: nat, g: Config, inherited: set<Path>, sid: nat, s: Session)
    requires SessionOk(files, nextEvent, g, inherited, sid, s) && nextEvent <= later
    ensures SessionOk(files, later, g, inherited, sid, s)
  {
    forall id <- s.transfers ensures Attached(files, later, sid, s.transfers[id]) {
      assert Attached(files, nextEvent, sid, s.transfers[id]);
    }
  }

  /* ------------------------------------------------------------- one message more */

  lemma CommitOkSnoc(files: Files, g: Config, log: seq<Message>, m: Message, i: nat, f: Fate)
    requires f.Committed? && CommitOk(files, g, log, i, f)
    ensures CommitOk(files, g, log + [m], i, f)
  {
    assert (log + [m])[..f.at] == log[..f.at];
  }

  lemma CompletionOkSnoc(s: Session, s': Session, m: Message, k: nat)
    requires s'.log == s.log + [m] && k < |s.log| && s.log[k].TransferComplete? && CompletionOk(s, k)
    requires forall i <- s.fates :: s.fates[i].Committed? ==> i in s'.fates && s'.fates[i] == s.fates[i]
    ensures CompletionOk(s', k)
  {
    assert s'.log[..k] == s.log[..k];
  }

  lemma SequencedSnoc(log: seq<Message>, m: Message)
    requires Sequenced(log)
    requires m.TransferChunk? ==> m.seqNo == Track(log, m.id).chunks
    ensures Sequenced(log + [m])
  {
    var more := log + [m];
    assert more[..|log|] == log;
    forall k | 0 <= k < |more| && more[k].TransferChunk?
      ensures more[k].seqNo == Track(more[..k], more[k].id).chunks
    {
      assert k < |log| ==> more[..k] == log[..k];
    }
  }

  /** Committed transfers, live transfers and completions survive a further message that
      is neither an opening nor a completion. */
  lemma FatesSnoc(files: Files, g: Config, s: Session, s': Session, m: Message)
    requires FatesOk(files, g, s) && !m.TransferStart? && !m.TransferComplete?
    requires s'.log == s.log + [m] && s'.fates == s.fates && s'.transfers.Keys == s.transfers.Keys
    ensures FatesOk(files, g, s')
  {
    forall i <- s.fates ensures s.fates[i].Committed? ==> CommitOk(files, g, s'.log, i, s.fates[i]) {
      if s.fates[i].Committed? { CommitOkSnoc(files, g, s.log, m, i, s.fates[i]); }
    }
    forall i <- s.fates | s.fates[i].Live? ensures StartIndex(s'.log, s'.log[i].id) == Some(i) {
      TrackSnoc(s.log, m, s.log[i].id);
    }
    forall k | 0 <= k < |s'.log| && s'.log[k].TransferComplete? ensures CompletionOk(s', k) {
      CompletionOkSnoc(s, s', m, k);
    }
  }

  lemma FaithfulSnoc(files: Files, after: Files, s: Session, s': Session, m: Message, id: string)
    requires id in s.transfers && Faithful(files, s, id) && !About(m, id)
    requires s'.log == s.log + [m]
    requires id in s'.transfers && s'.transfers[id] == s.transfers[id]
    requires ContentOf(after, s.transfers[id].temporaryPath) == ContentOf(files, s.transfers[id].temporaryPath)
    requires forall i <- s.fates :: Opens(s.log, i) && s.log[i].id == id && s.fates[i].Live? ==>
               i in s'.fates && s'.fates[i].Live?
    ensures Faithful(after, s', id)
  {
    TrackSnoc(s.log, m, id);
    StartIndexPoints(s.log, id);
  }

  /** A broadcast message that is not about a transfer. */
  lemma NoteSession(files: Files, nextEvent: nat, g: Config, inherited: set<Path>, sid: nat, s: Session, m: Message)
    requires SessionOk(files, nextEvent, g, inherited, sid, s) && s.authenticated && !IsTransfer(m)
    ensures SessionOk(files, nextEvent, g, inherited, sid, s.(log := s.log + [m]))
  {
    var s' := s.(log := s.log + [m]);
    FatesSnoc(files, g, s, s', m);
    SequencedSnoc(s.log, m);
    forall id <- s.transfers ensures Faithful(files, s', id) {
      FaithfulSnoc(files, files, s, s', m, id);
    }
  }

  /** New stored files in a directory of their own, and nothing else. */
  predicate AddsDir(files: Files, after: Files, d: Dir) {
    && (forall p <- files :: p in after && after[p] == files[p])
    && (forall p <- after :: p !in files ==> p.Stored? && p.dir == d)
  }

  lemma AddsDirSession(files: Files, after: Files, d: Dir, nextEvent: nat, g: Config, inherited: set<Path>,
                       sid: nat, s: Session)
    requires SessionOk(files, nextEvent, g, inherited, sid, s) && AddsDir(files, after, d) && d.event >= nextEvent
    ensures SessionOk(after, nextEvent, g, inherited, sid, s)
  {
    FatesFrame(files, after, g, s);
    forall id <- s.transfers ensures Attached(after, nextEvent, sid, s.transfers[id]) && Faithful(after, s, id) {
      assert Attached(files, nextEvent, sid, s.transfers[id]) && Faithful(files, s, id);
    }
  }

  /** Accepting a message that adds at most a fresh directory of stored files. */
  lemma NoteGood(srv: Server, g: Config, inherited: set<Path>, sid: nat, d: Core, dir: Dir, m: Message, env: Env)
    requires Inv(srv, g, inherited) && sid in srv.sessions && srv.sessions[sid].authenticated && !IsTransfer(m)
    requires d.transfers == srv.sessions[sid].transfers && d.budget.used <= UPLOAD_LIMIT
    requires AddsDir(srv.files, d.files, dir) && dir.event >= srv.nextEvent
    requires d.nextEvent >= srv.nextEvent && (d.files != srv.files ==> d.nextEvent > dir.event)
    ensures Inv(Log(srv, sid, d, m, env), g, inherited)
  {
    var s := srv.sessions[sid];
    SettleSame(srv.files, g, s);
    AddsDirSession(srv.files, d.files, dir, srv.nextEvent, g, inherited, sid, s);
    LaterEvent(d.files, srv.nextEvent, d.nextEvent, g, inherited, sid, s);
    NoteSession(d.files, d.nextEvent, g, inherited, sid, s, m);
    var s' := Logged(s, CoreOf(srv, sid), d, m, env);
    assert s' == s.(log := s.log + [m]);
    assert GoodStep(srv, g, inherited, sid, d, s');
    Compose(srv, g, inherited, sid, d, s');
  }

  lemma FreshDirEmpty(files: Files, nextEvent: nat, inherited: set<Path>, d: Dir)
    requires Bounded(files, nextEvent, inherited) && StampFresh(inherited, d.stamp) && d.event >= nextEvent
    ensures EmptyDir(files, d)
  {}

  lemma StoreBundleAdds(files: Files, d: Dir, pending: seq<Pending>, env: Env)
    requires |pending| <= MAX_BUNDLE && EmptyDir(files, d)
    ensures var (after, verdict) := StoreBundle(files, d, pending, env);
            AddsDir(files, after, d) && (verdict != Accepted ==> after == files)
  {
    EmptyDirHoldsNothing(files, d);
    AllOrNothing(files, d, pending, env);
    var (after, verdict) := StoreBundle(files, d, pending, env);
    if verdict == Accepted {
      var paths := AfterRenames(files, d, pending, env.stamp, |pending|).paths;
      assert AddsExactly(files, after, d, pending, paths);
    }
  }

  lemma PersistEffect(srv: Server, g: Config, user: string, items: seq<BundleItem>, env: Env, inherited: set<Path>)
    requires Bounded(srv.files, srv.nextEvent, inherited) && StampFresh(inherited, env.stamp)
    requires srv.budget.used <= UPLOAD_LIMIT
    ensures var o := Persist(srv.files, srv.nextEvent, srv.budget, g, user, items, env);
            var dir := Dir(env.stamp, srv.nextEvent, Sanitized(user));
            && o.budget.used <= UPLOAD_LIMIT && o.nextEvent >= srv.nextEvent
            && (o.verdict == Accepted ==> AddsDir(srv.files, o.files, dir) && o.nextEvent > dir.event)
            && (o.verdict != Accepted ==> o.files == srv.files)
  {
    var dir := Dir(env.stamp, srv.nextEvent, Sanitized(user));
    FreshDirEmpty(srv.files, srv.nextEvent, inherited, dir);
    var checked := CheckItems(g, items, Routable(g.maxMessage));
    if |items| <= MAX_BUNDLE && checked.Good? {
      StoreBundleAdds(srv.files, dir, checked.files, env);
    }
  }

  lemma OutcomeGood(srv: Server, g: Config, inherited: set<Path>, sid: nat, m: Message, env: Env, o: Outcome, dir: Dir)
    requires Inv(srv, g, inherited) && sid in srv.sessions && srv.sessions[sid].authenticated && !IsTransfer(m)
    requires o.budget.used <= UPLOAD_LIMIT && o.nextEvent >= srv.nextEvent
    requires o.verdict == Accepted ==>
               AddsDir(srv.files, o.files, dir) && dir.event >= srv.nextEvent && o.nextEvent > dir.event
    requires o.verdict != Accepted ==> o.files == srv.files
    ensures Inv(BundleResult(srv, sid, m, env, o).0, g, inherited)
  {
    var d := Core(o.files, o.nextEvent, o.budget, srv.sessions[sid].transfers);
    if o.verdict == Accepted {
      NoteGood(srv, g, inherited, sid, d, dir, m, env);
    } else {
      QuietGood(srv, g, inherited, sid, d);
    }
  }

  lemma BundleGood(srv: Server, g: Config, inherited: set<Path>, sid: nat, m: Message, env: Env)
    requires Inv(srv, g, inherited) && sid in srv.sessions && srv.sessions[sid].authenticated
    requires m.FileBundle? && StampFresh(inherited, env.stamp)
    ensures Inv(BundleStep(srv, g, sid, m, env).0, g, inherited)
  {
    var user := srv.sessions[sid].user;
    PersistEffect(srv, g, user, m.files, env, inherited);
    OutcomeGood(srv, g, inherited, sid, m, env,
                Persist(srv.files, srv.nextEvent, srv.budget, g, user, m.files, env),
                Dir(env.stamp, srv.nextEvent, Sanitized(user)));
  }

  /* ------------------------------------------------------------- opening */

  lemma OpenFates(files: Files, g: Config, s: Session, s': Session, m: Message)
    requires FatesOk(files, g, s) && m.TransferStart? && m.id !in s.transfers && m.id in s'.transfers
    requires s'.log == s.log + [m] && s'.fates == s.fates[|s.log| := Live] && s.transfers.Keys <= s'.transfers.Keys
    ensures FatesOk(files, g, s')
  {
    forall i <- s.fates ensures i != |s.log| && Opens(s.log, i) {}
    forall i <- s.fates | s.fates[i].Committed? ensures CommitOk(files, g, s'.log, i, s'.fates[i]) {
      CommitOkSnoc(files, g, s.log, m, i, s.fates[i]);
    }
    forall i <- s'.fates | s'.fates[i].Live?
      ensures s'.log[i].id in s'.transfers && StartIndex(s'.log, s'.log[i].id) == Some(i)
    {
      TrackSnoc(s.log, m, s'.log[i].id);
    }
    forall k | 0 <= k < |s'.log| && s'.log[k].TransferComplete? ensures CompletionOk(s', k) {
      CompletionOkSnoc(s, s', m, k);
    }
  }

  lemma OpenFaithful(files: Files, s: Session, s': Session, m: Message)
    requires m.TransferStart? && s'.log == s.log + [m]
    requires |s.log| in s'.fates && s'.fates[|s.log|].Live?
    requires m.id in s'.transfers
    requires var t := s'.transfers[m.id];
             && t.expectedSize == m.size && t.sha256 == m.sha256 && t.fileName == Sanitized(m.name)
             && t.nextSequence == 0 && ContentOf(files, t.temporaryPath) == []
    ensures Faithful(files, s', m.id)
  {
    TrackSnoc(s.log, m, m.id);
  }

  /** What an accepted opening does to the core. */
  predicate OpenEffect(c: Core, d: Core, sid: nat, m: Message, t: Transfer) {
    && m.TransferStart? && m.id !in c.transfers
    && d.transfers == c.transfers[m.id := t] && d.files == c.files[t.temporaryPath := []]
    && t.temporaryPath == WorkFile(sid, c.nextEvent + 1) && t.directory.event == c.nextEvent
    && d.nextEvent == c.nextEvent + 2 && d.budget == c.budget
    && t.fileName == Sanitized(m.name) && t.sha256 == m.sha256 && t.expectedSize == m.size
    && t.receivedSize == 0 && t.nextSequence == 0
  }

  lemma OpenAttached(c: Core, d: Core, sid: nat, m: Message, t: Transfer)
    requires OpenEffect(c, d, sid, m, t) && EmptyDir(c.files, t.directory)
    requires AllAttached(c.files, c.nextEvent, sid, c.transfers) && Apart(c.transfers)
    ensures AllAttached(d.files, d.nextEvent, sid, d.transfers) && Apart(d.transfers)
    ensures forall id <- c.transfers :: c.transfers[id].temporaryPath != t.temporaryPath
  {
    forall id <- c.transfers
      ensures Attached(d.files, d.nextEvent, sid, c.transfers[id])
      ensures c.transfers[id].temporaryPath != t.temporaryPath && c.transfers[id].directory.event < c.nextEvent
    {
      assert Attached(c.files, c.nextEvent, sid, c.transfers[id]);
    }
    assert Attached(d.files, d.nextEvent, sid, t);
  }

  lemma OpenAllFaithful(c: Core, d: Core, sid: nat, s: Session, s': Session, m: Message, t: Transfer)
    requires OpenEffect(c, d, sid, m, t) && c.transfers == s.transfers && s'.transfers == d.transfers
    requires AllFaithful(c.files, s)
    requires forall id <- c.transfers :: c.transfers[id].temporaryPath != t.temporaryPath
    requires s'.log == s.log + [m] && s'.fates == s.fates[|s.log| := Live]
    ensures AllFaithful(d.files, s')
  {
    forall id <- s.transfers ensures Faithful(d.files, s', id) {
      assert Faithful(c.files, s, id);
      FaithfulSnoc(c.files, d.files, s, s', m, id);
    }
    OpenFaithful(d.files, s, s', m);
  }

  lemma OpenTable(c: Core, d: Core, g: Config, inherited: set<Path>, sid: nat, m: Message, t: Transfer)
    requires TableOk(c.files, c.nextEvent, g, inherited, sid, c.transfers)
    requires OpenEffect(c, d, sid, m, t) && EmptyDir(c.files, t.directory) && StartProblem(c, g, m).None?
    ensures TableOk(d.files, d.nextEvent, g, inherited, sid, d.transfers)
    ensures forall id <- c.transfers :: c.transfers[id].temporaryPath != t.temporaryPath
  {
    OpenAttached(c, d, sid, m, t);
    OpenQuota(c, g, m, t);
    OpenNoStray(c, d, inherited, sid, m.id);
  }

  lemma OpenQuota(c: Core, g: Config, m: Message, t: Transfer)
    requires m.TransferStart? && StartProblem(c, g, m).None? && t.expectedSize == m.size
    ensures QuotaOk(g, c.transfers[m.id := t])
  {
    TotalWith(c.transfers, m.id, t);
  }

  lemma OpenRecord(c: Core, d: Core, g: Config, sid: nat, s: Session, s': Session, m: Message, t: Transfer)
    requires OpenEffect(c, d, sid, m, t) && c.transfers == s.transfers && RecordOk(c.files, g, s)
    requires forall id <- c.transfers :: c.transfers[id].temporaryPath != t.temporaryPath
    requires s' == s.(transfers := d.transfers, log := s.log + [m], fates := s.fates[|s.log| := Live])
    ensures RecordOk(d.files, g, s')
  {
    OpenAllFaithful(c, d, sid, s, s', m, t);
    OpenFates(c.files, g, s, s', m);
    FatesFrame(c.files, d.files, g, s');
    SequencedSnoc(s.log, m);
  }

  lemma OpenSession(c: Core, d: Core, g: Config, inherited: set<Path>, sid: nat, s: Session, s': Session, m: Message,
                    t: Transfer)
    requires c.transfers == s.transfers && SessionOk(c.files, c.nextEvent, g, inherited, sid, s) && s.authenticated
    requires OpenEffect(c, d, sid, m, t) && EmptyDir(c.files, t.directory) && StartProblem(c, g, m).None?
    requires s' == s.(transfers := d.transfers, log := s.log + [m], fates := s.fates[|s.log| := Live])
    ensures SessionOk(d.files, d.nextEvent, g, inherited, sid, s')
  {
    OpenTable(c, d, g, inherited, sid, m, t);
    OpenRecord(c, d, g, sid, s, s', m, t);
  }

  lemma OpenNoStray(c: Core, d: Core, inherited: set<Path>, sid: nat, id: string)
    requires NoStrayWork(c.files, inherited, sid, c.transfers) && id !in c.transfers && id in d.transfers
    requires d.transfers == c.transfers[id := d.transfers[id]]
    requires forall p <- d.files :: p in c.files || p == d.transfers[id].temporaryPath
    ensures NoStrayWork(d.files, inherited, sid, d.transfers)
  {
    forall p <- d.files | p.WorkFile? && p.session == sid && p !in inherited
      ensures p in WorkPaths(d.transfers, d.transfers.Keys)
    {
      if p in c.files {
        assert p in WorkPaths(c.transfers, c.transfers.Keys);
        var i :| i in c.transfers && p == c.transfers[i].temporaryPath;
        assert i in d.transfers && d.transfers[i] == c.transfers[i];
      }
    }
  }

  lemma OpenAccepted(c: Core, g: Config, sid: nat, s: Session, m: Message, env: Env, files: Files)
    requires m.TransferStart? && HandleStart(c, g, sid, s.user, m, env).1 == Accepted
    requires FatesOk(files, g, s) && c.transfers == s.transfers
    ensures var d := HandleStart(c, g, sid, s.user, m, env).0;
            && StartProblem(c, g, m).None?
            && m.id in d.transfers && OpenEffect(c, d, sid, m, d.transfers[m.id])
            && d.transfers[m.id].directory == Dir(env.stamp, c.nextEvent, Sanitized(s.user))
            && Logged(s, c, d, m, env)
               == s.(transfers := d.transfers, log := s.log + [m], fates := s.fates[|s.log| := Live])
  {
    var d := HandleStart(c, g, sid, s.user, m, env).0;
    SettleSame(files, g, s);
    assert Settle(s, d.transfers) == s.fates;
  }

  lemma OpenConsiderate(c: Core, d: Core, sid: nat, m: Message, t: Transfer, inherited: set<Path>)
    requires OpenEffect(c, d, sid, m, t) && Bounded(c.files, c.nextEvent, inherited)
    requires AllAttached(c.files, c.nextEvent, sid, c.transfers)
    ensures Considerate(c.files, d.files, c.nextEvent, sid, c.transfers)
    ensures Descends(c.transfers, d.transfers, c.nextEvent)
    ensures Bounded(d.files, d.nextEvent, inherited)
  {}

  lemma OpenGood(srv: Server, g: Config, inherited: set<Path>, sid: nat, m: Message, env: Env)
    requires Inv(srv, g, inherited) && sid in srv.sessions && srv.sessions[sid].authenticated
    requires m.TransferStart? && StampFresh(inherited, env.stamp)
    ensures Inv(TransferStep(srv, g, sid, m, env).0, g, inherited)
  {
    var s, c := srv.sessions[sid], CoreOf(srv, sid);
    var (d, verdict) := HandleStart(c, g, sid, s.user, m, env);
    var dir := Dir(env.stamp, srv.nextEvent, Sanitized(s.user));
    FreshDirEmpty(srv.files, srv.nextEvent, inherited, dir);
    if verdict == Accepted {
      OpenAccepted(c, g, sid, s, m, env, srv.files);
      var s' := Logged(s, c, d, m, env);
      OpenSession(c, d, g, inherited, sid, s, s', m, d.transfers[m.id]);
      OpenConsiderate(c, d, sid, m, d.transfers[m.id], inherited);
      Compose(srv, g, inherited, sid, d, s');
    } else {
      OpenRejected(c, g, sid, s.user, m, env);
      QuietGood(srv, g, inherited, sid, d);
    }
  }

  lemma OpenRejected(c: Core, g: Config, sid: nat, user: string, m: Message, env: Env)
    requires m.TransferStart? && HandleStart(c, g, sid, user, m, env).1 != Accepted
    requires EmptyDir(c.files, Dir(env.stamp, c.nextEvent, Sanitized(user)))
    ensures var d := HandleStart(c, g, sid, user, m, env).0;
            d.files == c.files && d.transfers == c.transfers && d.nextEvent >= c.nextEvent && d.budget == c.budget
  {
    EmptyDirHoldsNothing(c.files, Dir(env.stamp, c.nextEvent, Sanitized(user)));
  }

  /* ------------------------------------------------------------- a chunk */

  /** What an accepted chunk does to the core. */
  ghost predicate ChunkEffect(c: Core, d: Core, m: Message, t: Transfer, more: Transfer) {
    && m.TransferChunk? && m.id in c.transfers && t == c.transfers[m.id]
    && m.seqNo == t.nextSequence && |Decoded(m.data)| <= t.expectedSize - t.receivedSize
    && d.nextEvent == c.nextEvent && d.transfers == c.transfers[m.id := more]
    && d.files == c.files[t.temporaryPath := ContentOf(c.files, t.temporaryPath) + Decoded(m.data)]
    && more == t.(receivedSize := t.receivedSize + |Decoded(m.data)|, nextSequence := t.nextSequence + 1,
                  expiresAt := more.expiresAt)
  }

  lemma ChunkAttached(c: Core, d: Core, sid: nat, m: Message, t: Transfer, more: Transfer)
    requires ChunkEffect(c, d, m, t, more)
    requires AllAttached(c.files, c.nextEvent, sid, c.transfers) && Apart(c.transfers)
    ensures AllAttached(d.files, d.nextEvent, sid, d.transfers) && Apart(d.transfers)
    ensures forall id <- c.transfers :: id != m.id ==> c.transfers[id].temporaryPath != t.temporaryPath
  {
    assert Attached(c.files, c.nextEvent, sid, t);
    forall id <- d.transfers ensures Attached(d.files, d.nextEvent, sid, d.transfers[id]) {
      assert Attached(c.files, c.nextEvent, sid, c.transfers[id]);
      forall p <- d.files | p.Stored? ensures p.dir != d.transfers[id].directory {
        assert p in c.files;
      }
    }
  }

  lemma ChunkFaithful(c: Core, d: Core, s: Session, s': Session, m: Message, t: Transfer, more: Transfer)
    requires ChunkEffect(c, d, m, t, more) && c.transfers == s.transfers && s'.transfers == d.transfers
    requires AllFaithful(c.files, s) && t.temporaryPath in c.files
    requires forall id <- c.transfers :: id != m.id ==> c.transfers[id].temporaryPath != t.temporaryPath
    requires s'.log == s.log + [m] && s'.fates == s.fates
    ensures AllFaithful(d.files, s')
  {
    forall id <- s'.transfers ensures Faithful(d.files, s', id) {
      assert Faithful(c.files, s, id);
      if id == m.id {
        TrackSnoc(s.log, m, m.id);
      } else {
        FaithfulSnoc(c.files, d.files, s, s', m, id);
      }
    }
  }

  lemma ChunkTable(c: Core, d: Core, g: Config, inherited: set<Path>, sid: nat, m: Message, t: Transfer, more: Transfer)
    requires TableOk(c.files, c.nextEvent, g, inherited, sid, c.transfers) && ChunkEffect(c, d, m, t, more)
    ensures TableOk(d.files, d.nextEvent, g, inherited, sid, d.transfers)
    ensures t.temporaryPath in c.files
    ensures forall id <- c.transfers :: id != m.id ==> c.transfers[id].temporaryPath != t.temporaryPath
  {
    assert Attached(c.files, c.nextEvent, sid, t);
    ChunkAttached(c, d, sid, m, t, more);
    TotalUpdated(c.transfers, m.id, more);
    SameWorkPaths(c.transfers, d.transfers);
    assert d.files.Keys == c.files.Keys;
  }

  lemma ChunkRecord(c: Core, d: Core, g: Config, s: Session, s': Session, m: Message, t: Transfer, more: Transfer)
    requires c.transfers == s.transfers && RecordOk(c.files, g, s) && ChunkEffect(c, d, m, t, more)
    requires t.temporaryPath in c.files && t.temporaryPath.WorkFile?
    requires forall id <- c.transfers :: id != m.id ==> c.transfers[id].temporaryPath != t.temporaryPath
    requires s' == s.(transfers := d.transfers, log := s.log + [m])
    ensures RecordOk(d.files, g, s')
  {
    hide Track, StartIndex, Decoded;
    ChunkFaithful(c, d, s, s', m, t, more);
    ChunkSequenced(c.files, s, m, t);
    ChunkFates(c.files, d.files, g, s, s', m, t.temporaryPath);
  }

  lemma ChunkFates(files: Files, after: Files, g: Config, s: Session, s': Session, m: Message, work: Path)
    requires FatesOk(files, g, s) && m.TransferChunk? && work.WorkFile? && work in after
    requires s'.log == s.log + [m] && s'.fates == s.fates && s'.transfers.Keys == s.transfers.Keys
    requires after == files[work := after[work]]
    ensures FatesOk(after, g, s')
  {
    FatesSnoc(files, g, s, s', m);
    FatesFrame(files, after, g, s');
  }

  lemma ChunkSequenced(files: Files, s: Session, m: Message, t: Transfer)
    requires m.TransferChunk? && m.id in s.transfers && t == s.transfers[m.id] && m.seqNo == t.nextSequence
    requires Faithful(files, s, m.id) && Sequenced(s.log)
    ensures Sequenced(s.log + [m])
  {
    SequencedSnoc(s.log, m);
  }

  lemma ChunkSession(c: Core, d: Core, g: Config, inherited: set<Path>, sid: nat, s: Session, s': Session, m: Message,
                     t: Transfer, more: Transfer)
    requires c.transfers == s.transfers && SessionOk(c.files, c.nextEvent, g, inherited, sid, s) && s.authenticated
    requires ChunkEffect(c, d, m, t, more)
    requires s' == s.(transfers := d.transfers, log := s.log + [m])
    ensures SessionOk(d.files, d.nextEvent, g, inherited, sid, s')
  {
    assert Attached(c.files, c.nextEvent, sid, t);
    ChunkTable(c, d, g, inherited, sid, m, t, more);
    ChunkRecord(c, d, g, s, s', m, t, more);
  }

  lemma SameWorkPaths(t: Table, u: Table)
    requires t.Keys == u.Keys && forall id <- t :: u[id].temporaryPath == t[id].temporaryPath
    ensures WorkPaths(t, t.Keys) == WorkPaths(u, u.Keys)
  {
    forall p | p in WorkPaths(t, t.Keys) ensures p in WorkPaths(u, u.Keys) {
      var id :| id in t && p == t[id].temporaryPath;
      assert u[id].temporaryPath == p;
    }
    forall p | p in WorkPaths(u, u.Keys) ensures p in WorkPaths(t, t.Keys) {
      var id :| id in u && p == u[id].temporaryPath;
      assert t[id].temporaryPath == p;
    }
  }

  lemma ChunkAccepted(c: Core, g: Config, s: Session, m: Message, env: Env)
    requires m.TransferChunk? && HandleChunk(c, m, env).1 == Accepted
    requires FatesOk(c.files, g, s) && c.transfers == s.transfers && c.budget.used <= UPLOAD_LIMIT
    ensures var d := HandleChunk(c, m, env).0;
            && m.id in c.transfers && m.id in d.transfers
            && ChunkEffect(c, d, m, c.transfers[m.id], d.transfers[m.id])
            && d.budget.used <= UPLOAD_LIMIT
            && Logged(s, c, d, m, env) == s.(transfers := d.transfers, log := s.log + [m])
  {
    var d := HandleChunk(c, m, env).0;
    SettleSame(c.files, g, s);
    assert d.transfers.Keys == s.transfers.Keys;
    assert Settle(s, d.transfers) == s.fates;
  }

  lemma ChunkRejected(c: Core, m: Message, env: Env)
    requires m.TransferChunk? && HandleChunk(c, m, env).1 != Accepted && c.budget.used <= UPLOAD_LIMIT
    ensures var d := HandleChunk(c, m, env).0;
            && d.budget.used <= UPLOAD_LIMIT
            && (d == c.(budget := d.budget) || d == Discard(c.(budget := d.budget), {m.id}))
  {}

  lemma ChunkConsiderate(c: Core, d: Core, sid: nat, m: Message, t: Transfer, more: Transfer, inherited: set<Path>)
    requires ChunkEffect(c, d, m, t, more) && Bounded(c.files, c.nextEvent, inherited)
    requires Attached(c.files, c.nextEvent, sid, t)
    ensures Considerate(c.files, d.files, c.nextEvent, sid, c.transfers)
    ensures Descends(c.transfers, d.transfers, c.nextEvent)
    ensures Bounded(d.files, d.nextEvent, inherited)
  {}

  lemma ChunkGood(srv: Server, g: Config, inherited: set<Path>, sid: nat, m: Message, env: Env)
    requires Inv(srv, g, inherited) && sid in srv.sessions && srv.sessions[sid].authenticated && m.TransferChunk?
    ensures Inv(TransferStep(srv, g, sid, m, env).0, g, inherited)
  {
    var s, c := srv.sessions[sid], CoreOf(srv, sid);
    var (d, verdict) := HandleChunk(c, m, env);
    if verdict == Accepted {
      ChunkAccepted(c, g, s, m, env);
      var s' := Logged(s, c, d, m, env);
      ChunkSession(c, d, g, inherited, sid, s, s', m, c.transfers[m.id], d.transfers[m.id]);
      assert Attached(srv.files, srv.nextEvent, sid, s.transfers[m.id]);
      ChunkConsiderate(c, d, sid, m, c.transfers[m.id], d.transfers[m.id], inherited);
      Compose(srv, g, inherited, sid, d, s');
    } else {
      ChunkRejected(c, m, env);
      if d == c.(budget := d.budget) {
        QuietGood(srv, g, inherited, sid, d);
      } else {
        DiscardGood(srv, g, inherited, sid, c.(budget := d.budget), {m.id});
      }
    }
  }

  /* ------------------------------------------------------------- completion */

  /** What an accepted completion does to the core. */
  predicate CommitEffect(c: Core, d: Core, g: Config, m: Message, t: Transfer, target: Path, content: seq<byte>) {
    && m.TransferComplete? && m.id in c.transfers && t == c.transfers[m.id]
    && t.receivedSize == t.expectedSize
    && content <= ContentOf(c.files, t.temporaryPath)
    && (t.sha256 != "" ==> g.sha256(content) == t.sha256)
    && target.Stored? && target.dir == t.directory
    && d == Discard(c, {m.id}).(files := Discard(c, {m.id}).files[target := content])
  }

  lemma CommitAccepted(c: Core, g: Config, m: Message, env: Env)
    requires m.TransferComplete? && HandleComplete(c, g, m, env).1 == Accepted
    ensures m.id in c.transfers
    ensures CommitEffect(c, HandleComplete(c, g, m, env).0, g, m, c.transfers[m.id],
                         Target(c, m.id, env), Installed(c, m.id, env))
  {}

  lemma CommitTable(c: Core, d: Core, g: Config, inherited: set<Path>, sid: nat, m: Message, t: Transfer,
                    target: Path, content: seq<byte>)
    requires TableOk(c.files, c.nextEvent, g, inherited, sid, c.transfers)
    requires CommitEffect(c, d, g, m, t, target, content)
    ensures TableOk(d.files, d.nextEvent, g, inherited, sid, d.transfers)
    ensures forall id <- d.transfers :: ContentOf(d.files, c.transfers[id].temporaryPath)
                                        == ContentOf(c.files, c.transfers[id].temporaryPath)
  {
    DiscardTable(c, g, inherited, sid, {m.id});
    var e := Discard(c, {m.id});
    assert Attached(c.files, c.nextEvent, sid, t);
    forall id <- d.transfers
      ensures Attached(d.files, d.nextEvent, sid, d.transfers[id])
      ensures ContentOf(d.files, c.transfers[id].temporaryPath) == ContentOf(c.files, c.transfers[id].temporaryPath)
    {
      assert Attached(e.files, c.nextEvent, sid, e.transfers[id]);
      assert id in c.transfers - {m.id};
    }
  }

  /** The completed transfer's fate, seen from the longer log. */
  lemma CommitFate(files: Files, after: Files, g: Config, s: Session, m: Message, t: Transfer, i: nat,
                   target: Path, content: seq<byte>)
    requires m.TransferComplete? && m.id in s.transfers && t == s.transfers[m.id] && Faithful(files, s, m.id)
    requires StartIndex(s.log, m.id) == Some(i)
    requires |ContentOf(files, t.temporaryPath)| == t.receivedSize == t.expectedSize
    requires content <= ContentOf(files, t.temporaryPath) && (t.sha256 != "" ==> g.sha256(content) == t.sha256)
    requires target.Stored? && target in after && after[target] == content
    ensures CommitOk(after, g, s.log + [m], i, Fate.Committed(target, content, |s.log|))
  {
    StartIndexPoints(s.log, m.id);
    assert (s.log + [m])[..|s.log|] == s.log;
  }

  lemma CommitFates(files: Files, after: Files, g: Config, s: Session, s': Session, m: Message, i: nat, f: Fate)
    requires FatesOk(files, g, s) && m.TransferComplete? && StartIndex(s.log, m.id) == Some(i)
    requires i in s.fates && s.fates[i].Live?
    requires f.Committed? && f.at == |s.log| && CommitOk(after, g, s.log + [m], i, f)
    requires forall p <- files :: p.Stored? ==> p in after && after[p] == files[p]
    requires s' == s.(transfers := s.transfers - {m.id}, log := s.log + [m],
                      fates := Settle(s, s.transfers - {m.id})[i := f])
    ensures FatesOk(after, g, s')
  {
    hide Track, StartIndex;
    StartIndexPoints(s.log, m.id);
    forall j <- s'.fates | s'.fates[j].Committed? ensures CommitOk(after, g, s'.log, j, s'.fates[j]) {
      if j != i {
        assert CommitOk(files, g, s.log, j, s.fates[j]);
        CommitOkSnoc(after, g, s.log, m, j, s.fates[j]);
      }
    }
    forall j <- s'.fates | s'.fates[j].Live?
      ensures s'.log[j].id in s'.transfers && StartIndex(s'.log, s'.log[j].id) == Some(j)
    {
      TrackSnoc(s.log, m, s.log[j].id);
    }
    CommitCompletions(s, s', m, i, f);
  }

  lemma CommitCompletions(s: Session, s': Session, m: Message, i: nat, f: Fate)
    requires forall k | 0 <= k < |s.log| && s.log[k].TransferComplete? :: CompletionOk(s, k)
    requires m.TransferComplete? && StartIndex(s.log, m.id) == Some(i) && s'.log == s.log + [m]
    requires f.Committed? && f.at == |s.log| && i in s'.fates && s'.fates[i] == f
    requires i in s.fates && s.fates[i].Live?
    requires forall j <- s.fates :: s.fates[j].Committed? ==> j in s'.fates && s'.fates[j] == s.fates[j]
    ensures forall k | 0 <= k < |s'.log| && s'.log[k].TransferComplete? :: CompletionOk(s', k)
  {
    forall k | 0 <= k < |s'.log| && s'.log[k].TransferComplete? ensures CompletionOk(s', k) {
      if k < |s.log| {
        CompletionOkSnoc(s, s', m, k);
      } else {
        assert s'.log[..k] == s.log;
      }
    }
  }

  lemma CommitFaithful(files: Files, after: Files, s: Session, s': Session, m: Message, i: nat, f: Fate)
    requires AllFaithful(files, s) && m.TransferComplete? && StartIndex(s.log, m.id) == Some(i) && f.Committed?
    requires s' == s.(transfers := s.transfers - {m.id}, log := s.log + [m],
                      fates := Settle(s, s.transfers - {m.id})[i := f])
    requires forall id <- s'.transfers :: ContentOf(after, s.transfers[id].temporaryPath)
                                          == ContentOf(files, s.transfers[id].temporaryPath)
    ensures AllFaithful(after, s')
  {
    hide Track, StartIndex;
    StartIndexPoints(s.log, m.id);
    forall id <- s'.transfers ensures Faithful(after, s', id) {
      assert Faithful(files, s, id);
      StartIndexPoints(s.log, id);
      TrackSnoc(s.log, m, id);
    }
  }

  lemma CommitSession(c: Core, d: Core, g: Config, inherited: set<Path>, sid: nat, s: Session, s': Session, m: Message,
                      t: Transfer, i: nat, target: Path, content: seq<byte>)
    requires c.transfers == s.transfers && SessionOk(c.files, c.nextEvent, g, inherited, sid, s) && s.authenticated
    requires CommitEffect(c, d, g, m, t, target, content) && StartIndex(s.log, m.id) == Some(i)
    requires s' == s.(transfers := d.transfers, log := s.log + [m],
                      fates := Settle(s, d.transfers)[i := Fate.Committed(target, content, |s.log|)])
    requires forall p <- c.files :: p.Stored? ==> p in d.files && d.files[p] == c.files[p]
    ensures SessionOk(d.files, d.nextEvent, g, inherited, sid, s')
  {
    assert Attached(c.files, c.nextEvent, sid, t) && Faithful(c.files, s, m.id);
    var f := Fate.Committed(target, content, |s.log|);
    CommitTable(c, d, g, inherited, sid, m, t, target, content);
    CommitFate(c.files, d.files, g, s, m, t, i, target, content);
    CommitFates(c.files, d.files, g, s, s', m, i, f);
    CommitFaithful(c.files, d.files, s, s', m, i, f);
    SequencedSnoc(s.log, m);
  }

  lemma CommitConsiderate(c: Core, d: Core, g: Config, sid: nat, m: Message, t: Transfer, target: Path,
                          content: seq<byte>, inherited: set<Path>)
    requires CommitEffect(c, d, g, m, t, target, content) && Bounded(c.files, c.nextEvent, inherited)
    requires Attached(c.files, c.nextEvent, sid, t)
    ensures Considerate(c.files, d.files, c.nextEvent, sid, c.transfers)
    ensures Descends(c.transfers, d.transfers, c.nextEvent)
    ensures Bounded(d.files, d.nextEvent, inherited)
  {
    assert WorkPaths(c.transfers, {m.id}) == {t.temporaryPath};
  }

  lemma CompleteAccepted(srv: Server, g: Config, inherited: set<Path>, sid: nat, m: Message, d: Core, s': Session,
                         t: Transfer, target: Path, content: seq<byte>)
    requires Inv(srv, g, inherited) && sid in srv.sessions && srv.sessions[sid].authenticated
    requires CommitEffect(CoreOf(srv, sid), d, g, m, t, target, content)
    requires var s := srv.sessions[sid];
             && StartIndex(s.log, m.id).Some?
             && s' == s.(transfers := d.transfers, log := s.log + [m],
                         fates := Settle(s, d.transfers)[StartIndex(s.log, m.id).value
                                                         := Fate.Committed(target, content, |s.log|)])
    ensures Inv(Server(d.files, d.nextEvent, d.budget, srv.sessions[sid := s']), g, inherited)
  {
    var s, c := srv.sessions[sid], CoreOf(srv, sid);
    assert Attached(c.files, c.nextEvent, sid, t);
    CommitConsiderate(c, d, g, sid, m, t, target, content, inherited);
    CommitSession(c, d, g, inherited, sid, s, s', m, t, StartIndex(s.log, m.id).value, target, content);
    Compose(srv, g, inherited, sid, d, s');
  }

  lemma CompleteRejected(c: Core, g: Config, m: Message, env: Env)
    requires m.TransferComplete? && HandleComplete(c, g, m, env).1 != Accepted
    ensures HandleComplete(c, g, m, env).0 == if m.id in c.transfers then Discard(c, {m.id}) else c
  {}

  lemma CompleteLogged(srv: Server, g: Config, sid: nat, m: Message, env: Env)
    requires sid in srv.sessions && m.TransferComplete? && m.id in srv.sessions[sid].transfers
    requires StartIndex(srv.sessions[sid].log, m.id).Some?
    ensures var (s, c) := (srv.sessions[sid], CoreOf(srv, sid));
            var d := HandleComplete(c, g, m, env).0;
            Logged(s, c, d, m, env)
            == s.(transfers := d.transfers, log := s.log + [m],
                  fates := Settle(s, d.transfers)[StartIndex(s.log, m.id).value
                                                  := Fate.Committed(Target(c, m.id, env),
                                                                    Installed(c, m.id, env), |s.log|)])
  {}

  lemma CompleteGood(srv: Server, g: Config, inherited: set<Path>, sid: nat, m: Message, env: Env)
    requires Inv(srv, g, inherited) && sid in srv.sessions && srv.sessions[sid].authenticated && m.TransferComplete?
    ensures Inv(TransferStep(srv, g, sid, m, env).0, g, inherited)
  {
    hide TableOk, FatesOk, Sequenced, Track, Installed, Target, CompletionProblem, Settle, FatesAfter;
    var s, c := srv.sessions[sid], CoreOf(srv, sid);
    var (d, verdict) := HandleComplete(c, g, m, env);
    if verdict == Accepted {
      CommitAccepted(c, g, m, env);
      assert Faithful(c.files, s, m.id);
      CompleteLogged(srv, g, sid, m, env);
      CompleteAccepted(srv, g, inherited, sid, m, d, Logged(s, c, d, m, env), c.transfers[m.id],
                       Target(c, m.id, env), Installed(c, m.id, env));
    } else {
      CompleteRejected(c, g, m, env);
      if m.id in c.transfers {
        DiscardGood(srv, g, inherited, sid, c, {m.id});
      } else {
        QuietGood(srv, g, inherited, sid, d);
      }
    }
  }
}
