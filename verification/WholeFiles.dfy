/** When closing a stream never loses anything: every commit of every run is whole. */
module WholeFiles {
  import opened Basics
  import opened Storage
  import opened Messages
  import opened Transfers
  import opened Server
  import opened ServerSteps
  import opened ServerRuns
  import opened Delivery

  /** Every committed transfer installed as much as it declared. */
  predicate AllFull(s: Session) {
    forall i <- s.fates :: s.fates[i].Committed? ==>
      i < |s.log| && s.log[i].TransferStart? && |s.fates[i].content| == s.log[i].size
  }

  /** No commit but those before. */
  predicate NoNewCommit(s: Session, s': Session) {
    s.log <= s'.log && forall i <- s'.fates :: s'.fates[i].Committed? ==> i in s.fates && s.fates[i] == s'.fates[i]
  }

  lemma FullStays(s: Session, s': Session)
    requires AllFull(s) && NoNewCommit(s, s')
    ensures AllFull(s')
  {}

  lemma BecomesWithoutCommit(s: Session, c: Core, m: Message, env: Env, s': Session)
    requires MayBecome(s, c, m, env, s') && !m.TransferComplete?
    ensures NoNewCommit(s, s')
  {}

  lemma ApplyWithoutCommit(srv: Server, sid: nat, d: Core)
    requires sid in srv.sessions
    ensures NoNewCommit(srv.sessions[sid], Apply(srv, sid, d).sessions[sid])
  {}

  /** A transfer that may complete has on disk exactly what it declared, and that is within
      the message limit. */
  lemma CompleteIsFull(x: Server, g: Config, inherited: set<Path>, sid: nat, m: Message, env: Env)
    requires Inv(x, g, inherited) && sid in x.sessions && m.TransferComplete?
    requires HandleComplete(CoreOf(x, sid), g, m, env).1 == Accepted && env.closedAt >= g.maxMessage
    ensures var (s, c) := (x.sessions[sid], CoreOf(x, sid));
            var i := StartIndex(s.log, m.id);
            && m.id in c.transfers && i.Some? && i.value < |s.log| && s.log[i.value].TransferStart?
            && |Installed(c, m.id, env)| == s.log[i.value].size
  {
    hide Track, StartIndex, FatesOk, SessionsApart, Bounded, Sequenced, Apart, NoStrayWork, DeclaredTotal;
    var s, c := x.sessions[sid], CoreOf(x, sid);
    CommitAccepted(c, g, m, env);
    assert SessionOk(x.files, x.nextEvent, g, inherited, sid, s);
    OpenTransferFacts(x.files, x.nextEvent, g, inherited, sid, s, m.id);
    StartIndexPoints(s.log, m.id);
    TotalWithout(s.transfers, m.id);
  }

  lemma CommitKeepsFull(s: Session, c: Core, d: Core, m: Message, env: Env)
    requires AllFull(s) && m.TransferComplete? && m.id in c.transfers
    requires var i := StartIndex(s.log, m.id);
             && i.Some? && i.value < |s.log| && s.log[i.value].TransferStart?
             && |Installed(c, m.id, env)| == s.log[i.value].size
    ensures AllFull(Logged(s, c, d, m, env))
  {
    hide StartIndex, Installed, Target;
  }

  lemma CompletionFull(x: Server, g: Config, inherited: set<Path>, sid: nat, m: Message, authOk: bool, env: Env)
    requires Inv(x, g, inherited) && sid in x.sessions && m.TransferComplete? && AllFull(x.sessions[sid])
    requires env.closedAt >= g.maxMessage
    ensures var after := Continue(x, g, sid, m, authOk, env).0; sid in after.sessions && AllFull(after.sessions[sid])
  {
    hide Inv, AllFull, HandleComplete, Logged, Settle;
    var s, c := x.sessions[sid], CoreOf(x, sid);
    var (d, verdict) := HandleComplete(c, g, m, env);
    ApplyWithoutCommit(x, sid, d);
    FullStays(s, Apply(x, sid, d).sessions[sid]);
    if verdict == Accepted {
      CompleteIsFull(x, g, inherited, sid, m, env);
      CommitKeepsFull(s, c, d, m, env);
    }
  }

  lemma ContinueFull(x: Server, g: Config, inherited: set<Path>, sid: nat, m: Message, authOk: bool, env: Env)
    requires Inv(x, g, inherited) && sid in x.sessions && AllFull(x.sessions[sid]) && env.closedAt >= g.maxMessage
    ensures var after := Continue(x, g, sid, m, authOk, env).0; sid in after.sessions && AllFull(after.sessions[sid])
  {
    hide Inv, AllFull, Continue, MayBecome, NoNewCommit;
    if m.TransferComplete? {
      CompletionFull(x, g, inherited, sid, m, authOk, env);
    } else {
      ContinueShape(x, g, sid, m, authOk, env);
      var s' := Continue(x, g, sid, m, authOk, env).0.sessions[sid];
      BecomesWithoutCommit(x.sessions[sid], CoreOf(x, sid), m, env, s');
      FullStays(x.sessions[sid], s');
    }
  }

  lemma NextFull(srv: Server, g: Config, inherited: set<Path>, e: Event, sid: nat)
    requires Inv(srv, g, inherited) && Enabled(srv, e) && sid in srv.sessions && AllFull(srv.sessions[sid])
    requires e.Receive? ==> e.env.closedAt >= g.maxMessage
    ensures sid in Next(srv, g, e).sessions && AllFull(Next(srv, g, e).sessions[sid])
  {
    hide Inv, AllFull, Continue, NoNewCommit, Discard, Settle;
    var c := CoreOf(srv, sid);
    if e.sid != sid {
      Elsewhere(srv, g, e, sid);
    } else if e.Receive? {
      var x := Expire(srv, sid, e.env.expiryClock);
      ExpirySpares(srv, g, inherited, sid, e.env.expiryClock);
      ApplyWithoutCommit(srv, sid, ExpireTransfers(c, e.env.expiryClock));
      FullStays(srv.sessions[sid], x.sessions[sid]);
      ContinueFull(x, g, inherited, sid, e.message, e.authOk, e.env);
    } else {
      ApplyWithoutCommit(srv, sid, DropTransfers(c));
      FullStays(srv.sessions[sid], Apply(srv, sid, DropTransfers(c)).sessions[sid]);
    }
  }

  lemma NewcomerFull(srv: Server, g: Config, e: Event, sid: nat)
    requires Enabled(srv, e) && sid !in srv.sessions && sid in Next(srv, g, e).sessions
    ensures AllFull(Next(srv, g, e).sessions[sid])
  {
    if e.Receive? {
      hide Continue;
      ContinueShape(Expire(srv, e.sid, e.env.expiryClock), g, e.sid, e.message, e.authOk, e.env);
      NoNewcomer(Expire(srv, e.sid, e.env.expiryClock), g, e.sid, e.message, e.authOk, e.env);
    }
  }

  lemma NoNewcomer(x: Server, g: Config, sid: nat, m: Message, authOk: bool, env: Env)
    requires sid in x.sessions
    ensures Continue(x, g, sid, m, authOk, env).0.sessions.Keys == x.sessions.Keys
  {
    hide HandleTransfer;
  }

  lemma {:induction false} RunFull(files: Files, now: int, g: Config, events: seq<Event>, sid: nat)
    requires StampsMovedOn(files, events) && forall e <- events :: e.Receive? ==> e.env.closedAt >= g.maxMessage
    requires sid in Run(Started(files, now), g, events).sessions
    ensures AllFull(Run(Started(files, now), g, events).sessions[sid])
  {
    hide Inv, AllFull, Next, Enabled, StampFresh;
    if events != [] {
      var init, e := events[..|events| - 1], events[|events| - 1];
      assert e in events;
      var before := Run(Started(files, now), g, init);
      Always(files, now, g, init);
      if sid in before.sessions {
        RunFull(files, now, g, init, sid);
      }
      if Enabled(before, e) {
        if sid in before.sessions {
          NextFull(before, g, files.Keys, e, sid);
        } else {
          NewcomerFull(before, g, e, sid);
        }
      }
    }
  }

  /** Exact content over every run: when closing puts all of a file on disk, every
      committed file is, octet for octet, the concatenation of the chunks accepted between
      its opening and its completion. */
  lemma CommitsAreWhole(files: Files, now: int, g: Config, events: seq<Event>, sid: nat, i: nat)
    requires StampsMovedOn(files, events) && forall e <- events :: e.Receive? ==> e.env.closedAt >= g.maxMessage
    requires var srv := Run(Started(files, now), g, events);
             sid in srv.sessions && i in srv.sessions[sid].fates && srv.sessions[sid].fates[i].Committed?
    ensures var srv := Run(Started(files, now), g, events);
            var (s, f) := (srv.sessions[sid], srv.sessions[sid].fates[i]);
            && i < f.at < |s.log| && IsTransfer(s.log[i])
            && f.path in srv.files
            && srv.files[f.path] == Track(s.log[..f.at], s.log[i].id).bytes
  {
    hide Run, StampsMovedOn, Track, StartIndex;
    CommitIntegrity(files, now, g, events, sid, i);
    RunFull(files, now, g, events, sid);
  }
}
