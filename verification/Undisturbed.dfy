/** The round trip of Delivery from conditions one can check before the first message: a
    file whose messages an authenticated session sends at any pace within the lifetime of a
    transfer, with room in every quota, arrives. */
module Undisturbed {
  import opened Basics
  import opened Base64
  import opened Storage
  import opened Messages
  import opened UploadBudget
  import opened Transfers
  import opened Server
  import opened ServerRuns
  import opened Sender
  import opened Delivery

  /** The first `n` messages of a script, each met by its own clock readings and answers. */
  function Straight(script: seq<Message>, sid: nat, envs: seq<Env>, n: nat): seq<Event>
    requires n <= |script| && n <= |envs|
  {
    if n == 0 then []
    else Straight(script, sid, envs, n - 1) + [Receive(sid, script[n - 1], false, envs[n - 1])]
  }

  /** The upload budget once `n` messages have been charged, window by window. */
  ghost function Budgets(b: Budget, script: seq<Message>, envs: seq<Env>, n: nat): Budget
    requires n <= |script| && n <= |envs|
  {
    if n == 0 then b
    else
      var before, m := Budgets(b, script, envs, n - 1), script[n - 1];
      if m.TransferChunk? then Charge(before, envs[n - 1].chargeClock, |Decoded(m.data)|) else before
  }

  /** Every chunk finds room in the window it falls into. */
  ghost predicate RoomForEach(b: Budget, script: seq<Message>, envs: seq<Env>)
    requires |envs| == |script|
  {
    forall k | 0 <= k < |script| && script[k].TransferChunk? ::
      Fits(Budgets(b, script, envs, k), envs[k].chargeClock, |Decoded(script[k].data)|)
  }

  /** Each message is handled before the one before it expires. */
  predicate InTime(envs: seq<Env>) {
    forall k | 0 < k < |envs| :: envs[k].expiryClock < envs[k - 1].renewClock + LIFETIME
  }

  /** What can be checked before the first message, given when the messages come. */
  ghost predicate Admissible(srv: Server, g: Config, sid: nat, source: Source, envs: seq<Env>)
    requires sid in srv.sessions
  {
    && |envs| == |Script(source)| && |envs| > 0
    && srv.sessions[sid].authenticated
    && StartProblem(ExpireTransfers(CoreOf(srv, sid), envs[0].expiryClock), g, Opening(source)).None?
    && RoomForEach(srv.budget, Script(source), envs)
    && InTime(envs)
    && forall env <- envs :: DiskOk(env, |source.content|)
  }

  /* ------------------------------------------------------------- one accepted message */

  lemma AcceptedBudget(c: Core, g: Config, sid: nat, user: string, m: Message, env: Env)
    requires IsTransfer(m) && HandleTransfer(c, g, sid, user, m, env).1 == Accepted
    ensures HandleTransfer(c, g, sid, user, m, env).0.budget
            == if m.TransferChunk? then Charge(c.budget, env.chargeClock, |Decoded(m.data)|) else c.budget
  {
    hide Charge, StartProblem, ChunkProblem, CompletionProblem;
  }

  lemma AcceptedRenews(c: Core, g: Config, sid: nat, user: string, m: Message, env: Env)
    requires IsTransfer(m) && !m.TransferComplete? && HandleTransfer(c, g, sid, user, m, env).1 == Accepted
    ensures var t := HandleTransfer(c, g, sid, user, m, env).0.transfers;
            m.id in t && t[m.id].expiresAt == env.renewClock + LIFETIME
  {
    hide Charge, StartProblem, ChunkProblem, CompletionProblem;
  }

  /** An accepted transfer message charges exactly its chunk and starts its transfer's
      lifetime anew. */
  lemma AcceptedEffects(srv: Server, g: Config, sid: nat, m: Message, env: Env)
    requires sid in srv.sessions && IsTransfer(m) && Process(srv, g, sid, m, false, env).1 == Accepted
    ensures var after := Process(srv, g, sid, m, false, env).0;
            && sid in after.sessions
            && after.budget == (if m.TransferChunk? then Charge(srv.budget, env.chargeClock, |Decoded(m.data)|)
                                else srv.budget)
            && (!m.TransferComplete? ==>
                  && m.id in after.sessions[sid].transfers
                  && after.sessions[sid].transfers[m.id].expiresAt == env.renewClock + LIFETIME)
  {
    hide HandleTransfer, Charge, Settle, FatesAfter, Discard;
    var x := Expire(srv, sid, env.expiryClock);
    ExpiryOnlyExpires(srv, sid, env.expiryClock);
    AcceptedBudget(CoreOf(x, sid), g, sid, x.sessions[sid].user, m, env);
    if !m.TransferComplete? {
      AcceptedRenews(CoreOf(x, sid), g, sid, x.sessions[sid].user, m, env);
    }
  }

  lemma ExpiryOnlyExpires(srv: Server, sid: nat, now: int)
    requires sid in srv.sessions
    ensures var x := Expire(srv, sid, now);
            && sid in x.sessions && x.budget == srv.budget
            && x.sessions[sid].authenticated == srv.sessions[sid].authenticated
  {}

  /* ------------------------------------------------------------- the whole script */

  /** The transfer is open and lives as long as if renewed just now. */
  predicate Lives(at: Server, sid: nat, id: string, env: Env) {
    && sid in at.sessions && id in at.sessions[sid].transfers
    && at.sessions[sid].transfers[id].expiresAt == env.renewClock + LIFETIME
  }

  /** How the run stands after `n` messages. */
  ghost predicate Steady(srv: Server, at: Server, g: Config, inherited: set<Path>, sid: nat, source: Source,
                         envs: seq<Env>, n: nat)
    requires sid in srv.sessions && n <= |Script(source)| == |envs|
    requires WellCut(Script(source), Opening(source), source.content)
  {
    && Inv(at, g, inherited) && sid in at.sessions && (n == 0 ==> at == srv)
    && Sending(at.sessions[sid], |srv.sessions[sid].log|, Script(source), Opening(source), source.content, n)
    && at.budget == Budgets(srv.budget, Script(source), envs, n)
    && (0 < n < |envs| ==> Lives(at, sid, IdOf(source), envs[n - 1]))
  }

  /** Only the first message opens, and only the last completes. */
  lemma ScriptShape(source: Source, n: nat)
    requires n < |Script(source)|
    ensures WellCut(Script(source), Opening(source), source.content)
    ensures var m := Script(source)[n];
            && About(m, IdOf(source)) && (n == 0 ==> m == Opening(source))
            && (m.TransferStart? <==> n == 0) && (m.TransferComplete? <==> n == |Script(source)| - 1)
  {
    ScriptIsWellCut(source);
    if 0 < n < |Script(source)| - 1 {
      assert ChunkAt(Script(source)[n], IdOf(source), n - 1);
    }
  }

  lemma NextFavourable(srv: Server, at: Server, g: Config, inherited: set<Path>, sid: nat, source: Source,
                       envs: seq<Env>, n: nat)
    requires sid in srv.sessions && Admissible(srv, g, sid, source, envs) && n < |envs|
    requires WellCut(Script(source), Opening(source), source.content)
        && Steady(srv, at, g, inherited, sid, source, envs, n)
    ensures var e := Receive(sid, Script(source)[n], false, envs[n]);
            && Favourable(at, g, e, sid, Script(source), Opening(source), n)
            && Due(at, e, sid, Script(source), Opening(source), n)
  {
    hide Inv, WellCut, Sending, StartProblem, Fits, Budgets, Script, DiskOk;
    ScriptShape(source, n);
    assert envs[n] in envs;
  }

  /** The script's next message is accepted. */
  lemma NextAccepted(srv: Server, at: Server, g: Config, inherited: set<Path>, sid: nat, source: Source,
                     envs: seq<Env>, n: nat)
    requires sid in srv.sessions && Admissible(srv, g, sid, source, envs) && n < |envs|
    requires source.sha256 != "" ==> source.sha256 == g.sha256(source.content)
    requires StampFresh(inherited, envs[n].stamp)
    requires WellCut(Script(source), Opening(source), source.content)
        && Steady(srv, at, g, inherited, sid, source, envs, n)
    ensures var e := Receive(sid, Script(source)[n], false, envs[n]);
            && Enabled(at, e) && Inv(Next(at, g, e), g, inherited) && sid in Next(at, g, e).sessions
            && Process(at, g, sid, e.message, false, e.env).1 == Accepted
            && Sending(Next(at, g, e).sessions[sid], |srv.sessions[sid].log|, Script(source), Opening(source),
                       source.content, n + 1)
  {
    assert |envs| == |Script(source)|;
    hide Inv, WellCut, Sending, Favourable, Due, Script, Next, Process, StampFresh, Admissible, Budgets;
    NextFavourable(srv, at, g, inherited, sid, source, envs, n);
    var e := Receive(sid, Script(source)[n], false, envs[n]);
    ScriptShape(source, n);
    NextGood(at, g, inherited, e);
    OwnStep(at, g, inherited, e, sid, |srv.sessions[sid].log|, Script(source), Opening(source), source.content, n);
  }

  lemma NextSteady(srv: Server, at: Server, g: Config, inherited: set<Path>, sid: nat, source: Source,
                   envs: seq<Env>, n: nat)
    requires sid in srv.sessions && Admissible(srv, g, sid, source, envs) && n < |envs|
    requires source.sha256 != "" ==> source.sha256 == g.sha256(source.content)
    requires StampFresh(inherited, envs[n].stamp)
    requires WellCut(Script(source), Opening(source), source.content)
        && Steady(srv, at, g, inherited, sid, source, envs, n)
    ensures var e := Receive(sid, Script(source)[n], false, envs[n]);
            Enabled(at, e) && Steady(srv, Next(at, g, e), g, inherited, sid, source, envs, n + 1)
  {
    assert |envs| == |Script(source)|;
    var e := Receive(sid, Script(source)[n], false, envs[n]);
    NextAccepted(srv, at, g, inherited, sid, source, envs, n);
    NextEffects(srv, at, g, inherited, sid, source, envs, n);
    hide *;
    SteadyFrom(srv, Next(at, g, e), g, inherited, sid, source, envs, n + 1);
  }

  lemma SteadyFrom(srv: Server, at: Server, g: Config, inherited: set<Path>, sid: nat, source: Source, envs: seq<Env>,
                   n: nat)
    requires sid in srv.sessions && 0 < n <= |Script(source)| == |envs|
    requires WellCut(Script(source), Opening(source), source.content)
    requires Inv(at, g, inherited) && sid in at.sessions
    requires Sending(at.sessions[sid], |srv.sessions[sid].log|, Script(source), Opening(source), source.content, n)
    requires at.budget == Budgets(srv.budget, Script(source), envs, n)
    requires n < |envs| ==> Lives(at, sid, IdOf(source), envs[n - 1])
    ensures Steady(srv, at, g, inherited, sid, source, envs, n)
  {
    hide Inv, WellCut, Sending, Budgets, Script, Lives;
  }

  lemma NextEffects(srv: Server, at: Server, g: Config, inherited: set<Path>, sid: nat, source: Source,
                    envs: seq<Env>, n: nat)
    requires sid in srv.sessions && n < |envs| == |Script(source)|
    requires WellCut(Script(source), Opening(source), source.content)
        && Steady(srv, at, g, inherited, sid, source, envs, n)
    requires Process(at, g, sid, Script(source)[n], false, envs[n]).1 == Accepted
    ensures var e := Receive(sid, Script(source)[n], false, envs[n]);
            && Enabled(at, e) && Next(at, g, e).budget == Budgets(srv.budget, Script(source), envs, n + 1)
            && (n + 1 < |envs| ==> Lives(Next(at, g, e), sid, IdOf(source), envs[n]))
  {
    hide Inv, WellCut, Sending, Script, Process, Charge, Next;
    var e := Receive(sid, Script(source)[n], false, envs[n]);
    ScriptShape(source, n);
    NextIsProcess(at, g, e);
    AcceptedEffects(at, g, sid, e.message, e.env);
  }

  lemma NextIsProcess(srv: Server, g: Config, e: Event)
    requires e.Receive? && Enabled(srv, e)
    ensures Next(srv, g, e) == Process(srv, g, e.sid, e.message, e.authOk, e.env).0
  {}

  lemma RunOne(srv: Server, g: Config, events: seq<Event>, e: Event)
    requires Enabled(Run(srv, g, events), e)
    ensures Run(srv, g, events + [e]) == Next(Run(srv, g, events), g, e)
  {
    assert (events + [e])[..|events|] == events;
  }

  lemma {:induction false} StraightIsSteady(srv: Server, g: Config, inherited: set<Path>, sid: nat, source: Source,
                                            envs: seq<Env>, n: nat)
    requires Inv(srv, g, inherited) && sid in srv.sessions && Admissible(srv, g, sid, source, envs) && n <= |envs|
    requires source.sha256 != "" ==> source.sha256 == g.sha256(source.content)
    requires forall env <- envs :: StampFresh(inherited, env.stamp)
    requires WellCut(Script(source), Opening(source), source.content)
    ensures Steady(srv, Run(srv, g, Straight(Script(source), sid, envs, n)), g, inherited, sid, source, envs, n)
  {
    if n == 0 {
      NothingSentYet(srv.sessions[sid], Script(source), Opening(source), source.content);
    } else {
      hide Inv, WellCut, Script, Steady, Enabled, Next, StampFresh, RoomForEach, StartProblem, InTime;
      var before := Straight(Script(source), sid, envs, n - 1);
      StraightIsSteady(srv, g, inherited, sid, source, envs, n - 1);
      assert envs[n - 1] in envs;
      NextSteady(srv, Run(srv, g, before), g, inherited, sid, source, envs, n - 1);
      RunOne(srv, g, before, Receive(sid, Script(source)[n - 1], false, envs[n - 1]));
    }
  }

  /** A file that an authenticated session sends, at any pace that keeps less than the
      lifetime of a transfer between messages, is committed, whatever its size, if at the
      start its id is free, the quotas have room for it, each chunk has room in the window
      it falls into, and the disk works: nothing that happens on the way can refuse it. */
  lemma FileArrives(srv: Server, g: Config, inherited: set<Path>, sid: nat, source: Source, envs: seq<Env>)
    requires Inv(srv, g, inherited) && sid in srv.sessions && Admissible(srv, g, sid, source, envs)
    requires source.sha256 != "" ==> source.sha256 == g.sha256(source.content)
    requires forall env <- envs :: StampFresh(inherited, env.stamp)
    ensures var after := Run(srv, g, Straight(Script(source), sid, envs, |envs|));
            && sid in after.sessions
            && exists i: nat :: DeliveredAt(after.sessions[sid], |srv.sessions[sid].log|, i, Opening(source),
                                            source.content)
                                && after.sessions[sid].fates[i].path in after.files
                                && after.files[after.sessions[sid].fates[i].path] == source.content
  {
    hide Inv, Run, Script, Delivered, DeliveredAt, StampFresh, RoomForEach, StartProblem;
    ScriptIsWellCut(source);
    StraightIsSteady(srv, g, inherited, sid, source, envs, |envs|);
    DeliveredOnDisk(Run(srv, g, Straight(Script(source), sid, envs, |envs|)), g, inherited, sid,
                    |srv.sessions[sid].log|, Opening(source), source.content);
  }

  /* ------------------------------------------------------------- a simpler condition */

  lemma ChargeAdds(b: Budget, now: int, bytes: nat)
    ensures Charge(b, now, bytes).used <= b.used + bytes
    ensures b.used + bytes <= UPLOAD_LIMIT ==> Fits(b, now, bytes)
  {}

  lemma {:induction false} BudgetsAdd(b: Budget, script: seq<Message>, envs: seq<Env>, opening: Message,
                                      content: seq<byte>, n: nat)
    requires WellCut(script, opening, content) && |envs| == |script| && n < |script|
    ensures Budgets(b, script, envs, n).used <= b.used + |Track(script[..n], opening.id).bytes|
  {
    if n > 0 {
      hide WellCut, Charge, Track;
      BudgetsAdd(b, script, envs, opening, content, n - 1);
      TrackGrows(script, opening, content, n - 1);
      if script[n - 1].TransferChunk? {
        ChargeAdds(Budgets(b, script, envs, n - 1), envs[n - 1].chargeClock, |Decoded(script[n - 1].data)|);
      }
    }
  }

  lemma TrackGrows(script: seq<Message>, opening: Message, content: seq<byte>, n: nat)
    requires WellCut(script, opening, content) && n < |script| - 1
    ensures |Track(script[..n + 1], opening.id).bytes|
            == |Track(script[..n], opening.id).bytes| + (if script[n].TransferChunk? then |Decoded(script[n].data)|
                                                         else 0)
  {
    TakeNext(script, n);
    TrackSnoc(script[..n], script[n], opening.id);
    if n > 0 {
      assert ChunkAt(script[n], opening.id, n - 1);
    } else {
      assert script[..n] == [];
    }
  }

  /** What fits the current window as a whole fits chunk by chunk, at whatever ticks the
      chunks come: a window that rolls over only makes room. */
  lemma RoomAtOnce(b: Budget, source: Source, envs: seq<Env>)
    requires |envs| == |Script(source)| && b.used + |source.content| <= UPLOAD_LIMIT
    ensures RoomForEach(b, Script(source), envs)
  {
    hide Script, Budgets, Fits, Track, Decoded;
    ScriptIsWellCut(source);
    var script := Script(source);
    forall k | 0 <= k < |script| && script[k].TransferChunk?
      ensures Fits(Budgets(b, script, envs, k), envs[k].chargeClock, |Decoded(script[k].data)|)
    {
      ScriptShape(source, k);
      BudgetsAdd(b, script, envs, Opening(source), source.content, k);
      CutSoFar(script, Opening(source), source.content, k);
      ChargeAdds(Budgets(b, script, envs, k), envs[k].chargeClock, |Decoded(script[k].data)|);
    }
  }
}
