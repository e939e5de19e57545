/** Sender and server together: a file cut by `sendChunkedFiles` and processed by the
    server amid any other traffic ends up committed, octet for octet. */
module Delivery {
  import opened Basics
  import opened Base64
  import opened FileNames
  import opened Storage
  import opened Messages
  import opened UploadBudget
  import opened Transfers
  import opened Bundles
  import opened Server
  import opened ServerSteps
  import opened ServerRuns
  import opened Sender

  /** A message of session `sid` about transfer `id`. */
  predicate Own(e: Event, sid: nat, id: string) {
    e.Receive? && e.sid == sid && About(e.message, id)
  }

  /** The disk does its part for a file of `size` octets. */
  predicate DiskOk(env: Env, size: nat) {
    env.dirOk && env.openOk && env.writeOk && env.readOk && env.renameOk && env.closedAt >= size
  }

  /** The script's next message, `n` messages into it, with room for its chunk. */
  ghost predicate Due(srv: Server, e: Event, sid: nat, script: seq<Message>, opening: Message, n: nat)
    requires opening.TransferStart?
  {
    && Own(e, sid, opening.id) && n < |script| && e.message == script[n]
    && (e.message.TransferChunk? ==> Fits(srv.budget, e.env.chargeClock, |Decoded(e.message.data)|))
  }

  /** A chunk the server would append `n` messages into the script: numbered as expected,
      short enough, decoding to what there is still room for. */
  ghost predicate Appendable(m: Message, script: seq<Message>, opening: Message, n: nat)
    requires opening.TransferStart? && m.TransferChunk? && 0 < n <= |script|
  {
    && m.seqNo == n - 1 && |m.data| <= 699056
    && Decode(m.data).Some? && |Decoded(m.data)| <= 524288
    && |Track(script[..n], opening.id).bytes| + |Decoded(m.data)| <= opening.size
  }

  /** What may come in between under the transfer's own id. While no such transfer is open:
      chunks and completions. While it is: another opening, and chunks that are repeated,
      skipped ahead, too long, malformed or oversized. */
  ghost predicate Stray(open: bool, m: Message, script: seq<Message>, opening: Message, n: nat)
    requires opening.TransferStart?
  {
    if !open then !m.TransferStart?
    else && 0 < n < |script|
         && (m.TransferStart? || (m.TransferChunk? && !Appendable(m, script, opening, n)))
  }

  /** The session lives on, and the transfer, once open, has not expired when the session is
      heard of. The script's own messages, when due, find a working disk and their opening
      no quota or hash-format problem. All else about the transfer is stray, or the next
      chunk come too early for the upload budget. Nothing is asked of other transfers and
      other sessions. */
  ghost predicate Favourable(srv: Server, g: Config, e: Event, sid: nat, script: seq<Message>, opening: Message, n: nat)
    requires sid in srv.sessions && opening.TransferStart?
  {
    var t := srv.sessions[sid].transfers;
    && e != End(sid)
    && (0 < n < |script| && e.Receive? && e.sid == sid && opening.id in t ==>
          t[opening.id].expiresAt > e.env.expiryClock)
    && (Own(e, sid, opening.id) ==>
          var c := ExpireTransfers(CoreOf(srv, sid), e.env.expiryClock);
          if Due(srv, e, sid, script, opening, n) then
            && DiskOk(e.env, opening.size)
            && (e.message.TransferStart? ==> StartProblem(c, g, e.message).None?)
          else
            || Stray(opening.id in c.transfers, e.message, script, opening, n)
            || (n < |script| && e.message == script[n] && e.message.TransferChunk?))
  }

  /** How many messages of the script have arrived when due. */
  ghost function Arrived(srv: Server, g: Config, events: seq<Event>, sid: nat, script: seq<Message>,
                         opening: Message): nat
    requires opening.TransferStart?
  {
    if events == [] then 0
    else
      var init, e := events[..|events| - 1], events[|events| - 1];
      var n := Arrived(srv, g, init, sid, script, opening);
      if Due(Run(srv, g, init), e, sid, script, opening, n) then n + 1 else n
  }

  ghost predicate Smooth(srv: Server, g: Config, events: seq<Event>, sid: nat, script: seq<Message>, opening: Message)
    requires opening.TransferStart?
  {
    events == [] ||
    var init := events[..|events| - 1];
    && Smooth(srv, g, init, sid, script, opening)
    && (sid in Run(srv, g, init).sessions ==>
          Favourable(Run(srv, g, init), g, events[|events| - 1], sid, script, opening,
                     Arrived(srv, g, init, sid, script, opening)))
  }

  /** The opening at log position `i` ended as a file with this content and name. */
  predicate CommittedAt(s: Session, i: nat, opening: Message, content: seq<byte>) {
    && i < |s.log| && s.log[i] == opening && opening.TransferStart?
    && i in s.fates && s.fates[i].Committed? && s.fates[i].content == content
    && s.fates[i].path.Stored? && s.fates[i].path.name == Sanitized(opening.name)
  }

  /** From `base` on the log completes the transfer nowhere but at `at`. */
  predicate OnlyCompletion(log: seq<Message>, base: nat, id: string, at: Option<nat>) {
    forall x: nat | base <= x < |log| && log[x].TransferComplete? && log[x].id == id :: at == Some(x)
  }

  /** An opening logged from `base` on was committed, by the only completion since. */
  predicate DeliveredAt(s: Session, base: nat, i: nat, opening: Message, content: seq<byte>) {
    base <= i && CommittedAt(s, i, opening, content) && OnlyCompletion(s.log, base, opening.id, Some(s.fates[i].at))
  }

  ghost predicate Delivered(s: Session, base: nat, opening: Message, content: seq<byte>) {
    exists i: nat :: DeliveredAt(s, base, i, opening, content)
  }

  /** The transfer in the middle of its script. */
  ghost predicate Underway(s: Session, base: nat, id: string, p: Progress) {
    && id in s.transfers && Track(s.log, id) == p
    && StartIndex(s.log, id).Some? && StartIndex(s.log, id).value >= base
  }

  /** How far the session is once `n` messages of the script have arrived; `base` is how
      much it had logged before. */
  ghost predicate Sending(s: Session, base: nat, script: seq<Message>, opening: Message, content: seq<byte>, n: nat)
    requires WellCut(script, opening, content)
  {
    && s.authenticated && n <= |script| && base <= |s.log|
    && (n < |script| ==> OnlyCompletion(s.log, base, opening.id, None))
    && (0 < n < |script| ==> Underway(s, base, opening.id, Track(script[..n], opening.id)))
    && (n == |script| ==> Delivered(s, base, opening, content))
  }

  /* ------------------------------------------------------------- what stays */

  lemma ContinueElsewhere(e: Server, g: Config, at: nat, m: Message, authOk: bool, env: Env, sid: nat)
    requires at in e.sessions && sid in e.sessions && sid != at
    ensures sid in Continue(e, g, at, m, authOk, env).0.sessions
    ensures Continue(e, g, at, m, authOk, env).0.sessions[sid] == e.sessions[sid]
  {}

  /** A step of one session changes no other session. */
  lemma Elsewhere(srv: Server, g: Config, e: Event, sid: nat)
    requires Enabled(srv, e) && sid in srv.sessions && e.sid != sid
    ensures sid in Next(srv, g, e).sessions && Next(srv, g, e).sessions[sid] == srv.sessions[sid]
  {
    if e.Receive? {
      ContinueElsewhere(Expire(srv, e.sid, e.env.expiryClock), g, e.sid, e.message, e.authOk, e.env, sid);
    }
  }

  /** Committed transfers keep their fate and the log only grows. */
  predicate Keeps(s: Session, s': Session) {
    && s.log <= s'.log && (s.authenticated ==> s'.authenticated)
    && (forall i <- s.fates :: s.fates[i].Committed? ==> i in s'.fates && s'.fates[i] == s.fates[i])
  }

  /** All that handling `m` can make of the session: nothing, a login, a change of the
      table, or an accepted message. */
  predicate MayBecome(s: Session, c: Core, m: Message, env: Env, s': Session) {
    || s' == s
    || s' == s.(authenticated := true, user := s'.user)
    || s' == s.(transfers := s'.transfers, fates := Settle(s, s'.transfers))
    || s' == Logged(s, c, c.(transfers := s'.transfers), m, env)
  }

  lemma LogShape(e: Server, sid: nat, d: Core, m: Message, env: Env)
    requires sid in e.sessions
    ensures sid in Log(e, sid, d, m, env).sessions && sid in Apply(e, sid, d).sessions
    ensures MayBecome(e.sessions[sid], CoreOf(e, sid), m, env, Log(e, sid, d, m, env).sessions[sid])
    ensures MayBecome(e.sessions[sid], CoreOf(e, sid), m, env, Apply(e, sid, d).sessions[sid])
  {}

  lemma ContinueShape(e: Server, g: Config, sid: nat, m: Message, authOk: bool, env: Env)
    requires sid in e.sessions
    ensures var after := Continue(e, g, sid, m, authOk, env).0;
            sid in after.sessions && MayBecome(e.sessions[sid], CoreOf(e, sid), m, env, after.sessions[sid])
  {
    var c := CoreOf(e, sid);
    if m.Auth? || !e.sessions[sid].authenticated || m.Ping? {
    } else if m.ClipboardText? {
      LogShape(e, sid, c, m, env);
    } else if m.FileBundle? {
      var o := Persist(e.files, e.nextEvent, e.budget, g, e.sessions[sid].user, m.files, env);
      LogShape(e, sid, Core(o.files, o.nextEvent, o.budget, c.transfers), m, env);
    } else {
      LogShape(e, sid, HandleTransfer(c, g, sid, e.sessions[sid].user, m, env).0, m, env);
    }
  }

  lemma LoggedKeeps(files: Files, g: Config, s: Session, c: Core, d: Core, m: Message, env: Env)
    requires AllFaithful(files, s) && FatesOk(files, g, s) && c.transfers == s.transfers
    ensures Keeps(s, Logged(s, c, d, m, env))
  {
    hide Track, StartIndex, Installed, Target, Sanitized, CommitOk, CompletionOk;
    if m.TransferComplete? && m.id in c.transfers {
      assert Faithful(files, s, m.id);
    }
  }

  lemma ContinueKeeps(e: Server, g: Config, inherited: set<Path>, sid: nat, m: Message, authOk: bool, env: Env)
    requires Inv(e, g, inherited) && sid in e.sessions
    ensures var after := Continue(e, g, sid, m, authOk, env).0;
            sid in after.sessions && Keeps(e.sessions[sid], after.sessions[sid])
  {
    ContinueShape(e, g, sid, m, authOk, env);
    var s, c := e.sessions[sid], CoreOf(e, sid);
    var s' := Continue(e, g, sid, m, authOk, env).0.sessions[sid];
    assert SessionOk(e.files, e.nextEvent, g, inherited, sid, s);
    BecomesKeeps(e.files, g, s, c, m, env, s');
  }

  lemma BecomesKeeps(files: Files, g: Config, s: Session, c: Core, m: Message, env: Env, s': Session)
    requires AllFaithful(files, s) && FatesOk(files, g, s) && c.transfers == s.transfers
    requires MayBecome(s, c, m, env, s')
    ensures Keeps(s, s')
  {
    LoggedKeeps(files, g, s, c, c.(transfers := s'.transfers), m, env);
  }

  lemma KeepsTwice(s: Session, t: Session, u: Session)
    requires Keeps(s, t) && Keeps(t, u)
    ensures Keeps(s, u)
  {}

  lemma ApplyKeeps(srv: Server, sid: nat, d: Core)
    requires sid in srv.sessions
    ensures sid in Apply(srv, sid, d).sessions && Keeps(srv.sessions[sid], Apply(srv, sid, d).sessions[sid])
  {}

  lemma NextKeeps(srv: Server, g: Config, inherited: set<Path>, e: Event, sid: nat)
    requires Inv(srv, g, inherited) && Enabled(srv, e) && sid in srv.sessions
    ensures sid in Next(srv, g, e).sessions && Keeps(srv.sessions[sid], Next(srv, g, e).sessions[sid])
  {
    if e.sid != sid {
      Elsewhere(srv, g, e, sid);
    } else if e.Receive? {
      var c := CoreOf(srv, sid);
      var x := Expire(srv, sid, e.env.expiryClock);
      DiscardGood(srv, g, inherited, sid, c, Expired(c.transfers, e.env.expiryClock));
      ApplyKeeps(srv, sid, ExpireTransfers(c, e.env.expiryClock));
      ContinueKeeps(x, g, inherited, sid, e.message, e.authOk, e.env);
      KeepsTwice(srv.sessions[sid], x.sessions[sid], Next(srv, g, e).sessions[sid]);
    } else {
      ApplyKeeps(srv, sid, DropTransfers(CoreOf(srv, sid)));
    }
  }

  /** A committed file keeps its path and its content for ever after. */
  lemma {:induction false} CommitsLast(srv: Server, g: Config, inherited: set<Path>, events: seq<Event>, sid: nat,
                                       i: nat)
    requires Inv(srv, g, inherited) && forall e <- events :: e.Receive? ==> StampFresh(inherited, e.env.stamp)
    requires sid in srv.sessions && i in srv.sessions[sid].fates && srv.sessions[sid].fates[i].Committed?
    ensures var after := Run(srv, g, events);
            var f := srv.sessions[sid].fates[i];
            && Inv(after, g, inherited) && sid in after.sessions && Keeps(srv.sessions[sid], after.sessions[sid])
            && f.path in after.files && after.files[f.path] == f.content
  {
    hide Inv, Next, Enabled, StampFresh;
    if events == [] {
      OnDisk(srv, g, inherited, sid, i);
    } else {
      var init, e := events[..|events| - 1], events[|events| - 1];
      assert e in events;
      CommitsLast(srv, g, inherited, init, sid, i);
      var before := Run(srv, g, init);
      if Enabled(before, e) {
        NextGood(before, g, inherited, e);
        NextKeeps(before, g, inherited, e, sid);
      }
      var after := Run(srv, g, events);
      OnDisk(after, g, inherited, sid, i);
    }
  }

  lemma OnDisk(srv: Server, g: Config, inherited: set<Path>, sid: nat, i: nat)
    requires Inv(srv, g, inherited) && sid in srv.sessions
    requires i in srv.sessions[sid].fates && srv.sessions[sid].fates[i].Committed?
    ensures var f := srv.sessions[sid].fates[i]; f.path in srv.files && srv.files[f.path] == f.content
  {
    hide TableOk, AllFaithful, Sequenced, SessionsApart, Bounded, Track, StartIndex;
    assert SessionOk(srv.files, srv.nextEvent, g, inherited, sid, srv.sessions[sid]);
    assert CommitOk(srv.files, g, srv.sessions[sid].log, i, srv.sessions[sid].fates[i]);
  }

  /* ------------------------------------------------------------- other people's messages */

  lemma ExpirySpares(srv: Server, g: Config, inherited: set<Path>, sid: nat, now: int)
    requires Inv(srv, g, inherited) && sid in srv.sessions
    ensures var x := Expire(srv, sid, now);
            && Inv(x, g, inherited) && sid in x.sessions
            && CoreOf(x, sid) == ExpireTransfers(CoreOf(srv, sid), now)
            && x.sessions[sid].log == srv.sessions[sid].log
            && x.sessions[sid].authenticated == srv.sessions[sid].authenticated
            && Keeps(srv.sessions[sid], x.sessions[sid])
    ensures forall id <- srv.sessions[sid].transfers ::
              srv.sessions[sid].transfers[id].expiresAt > now ==> id in Expire(srv, sid, now).sessions[sid].transfers
  {
    var c := CoreOf(srv, sid);
    DiscardGood(srv, g, inherited, sid, c, Expired(c.transfers, now));
    ApplyKeeps(srv, sid, ExpireTransfers(c, now));
  }

  lemma ForeignHandler(c: Core, g: Config, sid: nat, user: string, m: Message, env: Env, id: string)
    requires IsTransfer(m) && m.id != id && id in c.transfers
    ensures id in HandleTransfer(c, g, sid, user, m, env).0.transfers
  {}

  lemma ContinueTable(e: Server, g: Config, sid: nat, m: Message, authOk: bool, env: Env)
    requires sid in e.sessions
    ensures var after := Continue(e, g, sid, m, authOk, env).0;
            var t := e.sessions[sid].transfers;
            && sid in after.sessions
            && (after.sessions[sid].transfers == t
                || (IsTransfer(m) && after.sessions[sid].transfers
                                     == HandleTransfer(CoreOf(e, sid), g, sid, e.sessions[sid].user, m,
                                                       env).0.transfers))
  {}

  /** The log stays or grows by the message handled. */
  predicate LogMayGrow(log: seq<Message>, after: seq<Message>, m: Message) {
    after == log || after == log + [m]
  }

  lemma ContinueLogs(e: Server, g: Config, sid: nat, m: Message, authOk: bool, env: Env)
    requires sid in e.sessions
    ensures var after := Continue(e, g, sid, m, authOk, env).0;
            sid in after.sessions && LogMayGrow(e.sessions[sid].log, after.sessions[sid].log, m)
  {
    hide Continue, Settle;
    ContinueShape(e, g, sid, m, authOk, env);
  }

  lemma OtherMessage(log: seq<Message>, after: seq<Message>, m: Message, id: string, base: nat, at: Option<nat>)
    requires LogMayGrow(log, after, m) && !About(m, id)
    ensures Track(after, id) == Track(log, id) && StartIndex(after, id) == StartIndex(log, id)
    ensures OnlyCompletion(log, base, id, at) ==> OnlyCompletion(after, base, id, at)
  {
    TrackSnoc(log, m, id);
  }

  lemma ForeignTable(e: Server, g: Config, sid: nat, m: Message, authOk: bool, env: Env, id: string)
    requires sid in e.sessions && !About(m, id) && id in e.sessions[sid].transfers
    ensures var after := Continue(e, g, sid, m, authOk, env).0;
            sid in after.sessions && id in after.sessions[sid].transfers
  {
    hide Continue, HandleTransfer;
    ContinueTable(e, g, sid, m, authOk, env);
    if IsTransfer(m) {
      ForeignHandler(CoreOf(e, sid), g, sid, e.sessions[sid].user, m, env, id);
    }
  }

  lemma DeliveredStays(s: Session, s': Session, base: nat, opening: Message, content: seq<byte>, m: Message)
    requires Delivered(s, base, opening, content) && Keeps(s, s') && LogMayGrow(s.log, s'.log, m)
    requires opening.TransferStart? && !About(m, opening.id)
    ensures Delivered(s', base, opening, content)
  {
    hide OnlyCompletion;
    var i: nat :| DeliveredAt(s, base, i, opening, content);
    OtherMessage(s.log, s'.log, m, opening.id, base, Some(s.fates[i].at));
    assert DeliveredAt(s', base, i, opening, content);
  }

  /** A message that is not the script's leaves its progress as it is. */
  lemma SendingStays(s: Session, s': Session, base: nat, script: seq<Message>, opening: Message, content: seq<byte>,
                     n: nat, m: Message)
    requires WellCut(script, opening, content) && Sending(s, base, script, opening, content, n)
    requires Keeps(s, s') && LogMayGrow(s.log, s'.log, m) && !About(m, opening.id)
    requires 0 < n < |script| && opening.id in s.transfers ==> opening.id in s'.transfers
    ensures Sending(s', base, script, opening, content, n)
  {
    hide Track, StartIndex, OnlyCompletion, Delivered;
    OtherMessage(s.log, s'.log, m, opening.id, base, None);
    if n == |script| {
      DeliveredStays(s, s', base, opening, content, m);
    }
  }

  lemma ForeignTransfer(srv: Server, g: Config, inherited: set<Path>, sid: nat, m: Message, authOk: bool, env: Env,
                        id: string)
    requires Inv(srv, g, inherited) && sid in srv.sessions && !About(m, id)
    ensures var (t, after) := (srv.sessions[sid].transfers, Process(srv, g, sid, m, authOk, env).0);
            && sid in after.sessions && LogMayGrow(srv.sessions[sid].log, after.sessions[sid].log, m)
            && (id in t && t[id].expiresAt > env.expiryClock ==> id in after.sessions[sid].transfers)
  {
    hide Inv, Continue;
    var x := Expire(srv, sid, env.expiryClock);
    ExpirySpares(srv, g, inherited, sid, env.expiryClock);
    ContinueLogs(x, g, sid, m, authOk, env);
    if id in x.sessions[sid].transfers {
      ForeignTable(x, g, sid, m, authOk, env, id);
    }
  }

  /** Anything that is not the script's next message leaves the transfer where it is. */
  lemma ForeignStep(srv: Server, g: Config, inherited: set<Path>, e: Event, sid: nat, base: nat,
                    script: seq<Message>, opening: Message, content: seq<byte>, n: nat)
    requires Inv(srv, g, inherited) && Enabled(srv, e) && sid in srv.sessions && WellCut(script, opening, content)
    requires Sending(srv.sessions[sid], base, script, opening, content, n)
    requires Favourable(srv, g, e, sid, script, opening, n) && !Own(e, sid, opening.id)
    ensures sid in Next(srv, g, e).sessions
    ensures Sending(Next(srv, g, e).sessions[sid], base, script, opening, content, n)
  {
    assert opening.TransferStart?;
    hide Inv, Process, Sending, WellCut, Keeps;
    if e.sid != sid {
      Elsewhere(srv, g, e, sid);
    } else if e.Receive? {
      NextKeeps(srv, g, inherited, e, sid);
      ForeignTransfer(srv, g, inherited, sid, e.message, e.authOk, e.env, opening.id);
      SendingStays(srv.sessions[sid], Next(srv, g, e).sessions[sid], base, script, opening, content, n, e.message);
    }
  }

  /* ------------------------------------------------------------- the script's messages */

  /** Chunks so far, and a prefix of the file. */
  predicate PartOf(p: Progress, opening: Message, content: seq<byte>, n: nat) {
    p.opening == Some(opening) && p.chunks == n && p.bytes <= content
  }

  lemma PartBefore(log: seq<Message>, m: Message, opening: Message, content: seq<byte>, n: nat)
    requires opening.TransferStart? && ChunkAt(m, opening.id, n)
    requires PartOf(Track(log + [m], opening.id), opening, content, n + 1)
    ensures PartOf(Track(log, opening.id), opening, content, n)
    ensures |Track(log, opening.id).bytes| + |Decoded(m.data)| <= |content|
  {
    TrackSnoc(log, m, opening.id);
  }

  lemma TakeNext(script: seq<Message>, n: nat)
    requires n < |script|
    ensures script[..n + 1] == script[..n] + [script[n]]
  {}

  lemma {:induction false} CutSoFar(script: seq<Message>, opening: Message, content: seq<byte>, n: nat)
    requires WellCut(script, opening, content) && 1 <= n < |script|
    ensures PartOf(Track(script[..n], opening.id), opening, content, n - 1)
    ensures n < |script| - 1 ==> |Track(script[..n], opening.id).bytes| + |Decoded(script[n].data)| <= |content|
    decreases |script| - n
  {
    hide Track, Decoded, ChunkAt;
    if n < |script| - 1 {
      assert ChunkAt(script[n], opening.id, n - 1);
      CutSoFar(script, opening, content, n + 1);
      TakeNext(script, n);
      PartBefore(script[..n], script[n], opening, content, n - 1);
    }
  }

  lemma OwnOpening(x: Server, g: Config, sid: nat, m: Message, authOk: bool, env: Env)
    requires sid in x.sessions && x.sessions[sid].authenticated && m.TransferStart?
    requires StartProblem(CoreOf(x, sid), g, m).None? && env.dirOk && env.openOk
    ensures var (after, verdict) := Continue(x, g, sid, m, authOk, env);
            && verdict == Accepted && sid in after.sessions && after.sessions[sid].authenticated
            && m.id in after.sessions[sid].transfers && after.sessions[sid].log == x.sessions[sid].log + [m]
  {}

  /** What an open transfer holds is what its log says. */
  lemma OpenFacts(x: Server, g: Config, inherited: set<Path>, sid: nat, id: string)
    requires Inv(x, g, inherited) && sid in x.sessions && id in x.sessions[sid].transfers
    ensures var s := x.sessions[sid];
            var (t, p) := (s.transfers[id], Track(s.log, id));
            && Faithful(x.files, s, id) && EmptyDir(x.files, t.directory)
            && t.temporaryPath in x.files && x.files[t.temporaryPath] == p.bytes
            && t.receivedSize == |p.bytes| && t.nextSequence == p.chunks
  {
    assert SessionOk(x.files, x.nextEvent, g, inherited, sid, x.sessions[sid]);
    OpenTransferFacts(x.files, x.nextEvent, g, inherited, sid, x.sessions[sid], id);
  }

  lemma ChunkTaken(c: Core, m: Message, env: Env, id: string, k: nat)
    requires ChunkAt(m, id, k) && id in c.transfers && c.transfers[id].nextSequence == k
    requires c.transfers[id].receivedSize + |Decoded(m.data)| <= c.transfers[id].expectedSize
    requires env.writeOk && Fits(c.budget, env.chargeClock, |Decoded(m.data)|)
    ensures HandleChunk(c, m, env).1 == Accepted && id in HandleChunk(c, m, env).0.transfers
  {
    assert ChunkProblem(c, m).None?;
  }

  lemma OwnChunk(x: Server, g: Config, inherited: set<Path>, sid: nat, m: Message, authOk: bool, env: Env,
                 opening: Message, k: nat)
    requires Inv(x, g, inherited) && sid in x.sessions && x.sessions[sid].authenticated
    requires opening.TransferStart? && ChunkAt(m, opening.id, k) && m.id in x.sessions[sid].transfers
    requires var p := Track(x.sessions[sid].log, m.id);
             p.opening == Some(opening) && p.chunks == k && |p.bytes| + |Decoded(m.data)| <= opening.size
    requires env.writeOk && Fits(x.budget, env.chargeClock, |Decoded(m.data)|)
    ensures var (after, verdict) := Continue(x, g, sid, m, authOk, env);
            && verdict == Accepted && sid in after.sessions && after.sessions[sid].authenticated
            && m.id in after.sessions[sid].transfers && after.sessions[sid].log == x.sessions[sid].log + [m]
  {
    hide Inv, Track, Decode, Decoded, ChunkGate, ChunkProblem, FatesAfter;
    OpenFacts(x, g, inherited, sid, m.id);
    ChunkTaken(CoreOf(x, sid), m, env, opening.id, k);
  }

  /** The completion of a transfer that received everything, on a disk that works. */
  lemma CompletesWhole(c: Core, g: Config, m: Message, env: Env, content: seq<byte>)
    requires m.TransferComplete? && m.id in c.transfers
    requires var t := c.transfers[m.id];
             && t.receivedSize == t.expectedSize == |content| && ContentOf(c.files, t.temporaryPath) == content
             && (t.sha256 != "" ==> t.sha256 == g.sha256(content)) && EmptyDir(c.files, t.directory)
    requires env.readOk && env.renameOk && env.closedAt >= |content|
    ensures HandleComplete(c, g, m, env).1 == Accepted && Installed(c, m.id, env) == content
    ensures Target(c, m.id, env) == Stored(c.transfers[m.id].directory, c.transfers[m.id].fileName)
  {
    EmptyDirHoldsNothing(c.files, c.transfers[m.id].directory);
  }

  lemma OwnCompletion(x: Server, g: Config, inherited: set<Path>, sid: nat, m: Message, authOk: bool, env: Env,
                      opening: Message, content: seq<byte>)
    requires Inv(x, g, inherited) && sid in x.sessions && x.sessions[sid].authenticated
    requires m.TransferComplete? && m.id in x.sessions[sid].transfers && opening.TransferStart?
    requires var p := Track(x.sessions[sid].log, m.id);
             p.opening == Some(opening) && p.bytes == content && opening.size == |content|
    requires opening.sha256 != "" ==> opening.sha256 == g.sha256(content)
    requires env.readOk && env.renameOk && env.closedAt >= |content|
    ensures var (after, verdict) := Continue(x, g, sid, m, authOk, env);
            var i := StartIndex(x.sessions[sid].log, m.id);
            && verdict == Accepted && sid in after.sessions && after.sessions[sid].authenticated
            && after.sessions[sid].log == x.sessions[sid].log + [m] && i.Some?
            && CommittedAt(after.sessions[sid], i.value, opening, content)
            && after.sessions[sid].fates[i.value].at == |x.sessions[sid].log|
  {
    hide Inv, Track, Decode, StartIndex, Installed, Target, EmptyDir, CompletionProblem;
    OpenFacts(x, g, inherited, sid, m.id);
    var s, c := x.sessions[sid], CoreOf(x, sid);
    CompletesWhole(c, g, m, env, content);
    CompleteLogged(x, g, sid, m, env);
    StartIndexPoints(s.log, m.id);
    var s' := Continue(x, g, sid, m, authOk, env).0.sessions[sid];
    assert s' == Logged(s, c, HandleComplete(c, g, m, env).0, m, env);
    assert CommittedAt(s', StartIndex(s.log, m.id).value, opening, content);
  }

  /** An opening or a chunk more: the transfer is under way, and nothing completes it. */
  lemma LogsOn(s: Session, s': Session, base: nat, m: Message, id: string)
    requires s'.log == s.log + [m] && About(m, id) && !m.TransferComplete? && base <= |s.log|
    requires id in s'.transfers && OnlyCompletion(s.log, base, id, None)
    requires !m.TransferStart? ==> Underway(s, base, id, Track(s.log, id))
    ensures OnlyCompletion(s'.log, base, id, None)
    ensures Underway(s', base, id, Advance(Track(s.log, id), m, id))
  {
    TrackSnoc(s.log, m, id);
  }

  lemma CompletesOn(s: Session, s': Session, base: nat, m: Message, i: nat, opening: Message, content: seq<byte>)
    requires s'.log == s.log + [m] && opening.TransferStart? && OnlyCompletion(s.log, base, opening.id, None)
    requires base <= i && CommittedAt(s', i, opening, content) && s'.fates[i].at == |s.log|
    ensures Delivered(s', base, opening, content)
  {
    assert DeliveredAt(s', base, i, opening, content);
  }

  /** The next message of the script, once expired transfers are gone. */
  lemma OwnContinue(x: Server, g: Config, inherited: set<Path>, sid: nat, authOk: bool, env: Env, base: nat,
                    script: seq<Message>, opening: Message, content: seq<byte>, n: nat)
    requires Inv(x, g, inherited) && sid in x.sessions && WellCut(script, opening, content) && n < |script|
    requires Sending(x.sessions[sid], base, script, opening, content, n) && DiskOk(env, |content|)
    requires script[n].TransferStart? ==> StartProblem(CoreOf(x, sid), g, script[n]).None?
    requires script[n].TransferChunk? ==> Fits(x.budget, env.chargeClock, |Decoded(script[n].data)|)
    requires opening.sha256 != "" ==> opening.sha256 == g.sha256(content)
    ensures var (after, verdict) := Continue(x, g, sid, script[n], authOk, env);
            && verdict == Accepted && sid in after.sessions
            && Sending(after.sessions[sid], base, script, opening, content, n + 1)
  {
    hide Inv, Continue, Track, StartProblem, StartIndex, OnlyCompletion, Delivered, Decoded, CommittedAt;
    var s := x.sessions[sid];
    TakeNext(script, n);
    TrackSnoc(script[..n], script[n], opening.id);
    if n == 0 {
      OwnOpening(x, g, sid, opening, authOk, env);
      LogsOn(s, Continue(x, g, sid, script[n], authOk, env).0.sessions[sid], base, opening, opening.id);
    } else {
      CutSoFar(script, opening, content, n);
      if n < |script| - 1 {
        assert ChunkAt(script[n], opening.id, n - 1);
        OwnChunk(x, g, inherited, sid, script[n], authOk, env, opening, n - 1);
        LogsOn(s, Continue(x, g, sid, script[n], authOk, env).0.sessions[sid], base, script[n], opening.id);
      } else {
        OwnCompletion(x, g, inherited, sid, script[n], authOk, env, opening, content);
        CompletesOn(s, Continue(x, g, sid, script[n], authOk, env).0.sessions[sid], base, script[n],
                    StartIndex(s.log, opening.id).value, opening, content);
      }
    }
  }

  lemma SendingSpared(s: Session, s': Session, base: nat, script: seq<Message>, opening: Message, content: seq<byte>,
                      n: nat)
    requires WellCut(script, opening, content) && n < |script| && Sending(s, base, script, opening, content, n)
    requires s'.log == s.log && s'.authenticated
    requires n > 0 && opening.id in s.transfers ==> opening.id in s'.transfers
    ensures Sending(s', base, script, opening, content, n)
  {}

  lemma OwnStep(srv: Server, g: Config, inherited: set<Path>, e: Event, sid: nat, base: nat,
                script: seq<Message>, opening: Message, content: seq<byte>, n: nat)
    requires Inv(srv, g, inherited) && Enabled(srv, e) && sid in srv.sessions && WellCut(script, opening, content)
    requires Sending(srv.sessions[sid], base, script, opening, content, n)
    requires Favourable(srv, g, e, sid, script, opening, n) && Due(srv, e, sid, script, opening, n)
    requires opening.sha256 != "" ==> opening.sha256 == g.sha256(content)
    ensures sid in Next(srv, g, e).sessions
    ensures Process(srv, g, sid, e.message, e.authOk, e.env).1 == Accepted
    ensures Sending(Next(srv, g, e).sessions[sid], base, script, opening, content, n + 1)
  {
    assert opening.TransferStart? && opening.size == |content|;
    hide Inv, Continue, Track, StartProblem, WellCut, Sending, Keeps, DiskOk, Fits, ExpireTransfers;
    var x := Expire(srv, sid, e.env.expiryClock);
    ExpirySpares(srv, g, inherited, sid, e.env.expiryClock);
    SameBudget(CoreOf(srv, sid), e.env.expiryClock);
    SendingAuthenticated(srv.sessions[sid], base, script, opening, content, n);
    SendingSpared(srv.sessions[sid], x.sessions[sid], base, script, opening, content, n);
    OwnContinue(x, g, inherited, sid, e.authOk, e.env, base, script, opening, content, n);
  }

  lemma SendingAuthenticated(s: Session, base: nat, script: seq<Message>, opening: Message, content: seq<byte>, n: nat)
    requires WellCut(script, opening, content) && Sending(s, base, script, opening, content, n)
    ensures s.authenticated
  {}

  /* ------------------------------------------------------------- stray messages */

  /** A transfer message that is refused and leaves the table alone leaves the session
      where it is. */
  lemma RefusedShape(x: Server, g: Config, sid: nat, m: Message, authOk: bool, env: Env)
    requires sid in x.sessions && x.sessions[sid].authenticated && IsTransfer(m)
    requires var (d, verdict) := HandleTransfer(CoreOf(x, sid), g, sid, x.sessions[sid].user, m, env);
             verdict != Accepted && d.transfers == x.sessions[sid].transfers
    ensures var (after, verdict) := Continue(x, g, sid, m, authOk, env);
            var (s, s') := (x.sessions[sid], after.sessions[sid]);
            && verdict != Accepted && sid in after.sessions && Keeps(s, s')
            && s'.log == s.log && s'.authenticated && s'.transfers == s.transfers
  {
    hide HandleTransfer;
  }

  lemma RateRefused(c: Core, g: Config, sid: nat, user: string, m: Message, env: Env)
    requires m.TransferChunk? && !Fits(c.budget, env.chargeClock, |Decoded(m.data)|)
    ensures var (d, verdict) := HandleTransfer(c, g, sid, user, m, env);
            verdict != Accepted && d.transfers == c.transfers
  {
    hide Fits, Charge, Decode, Decoded, ChunkProblem;
  }

  lemma UnknownRefused(c: Core, g: Config, sid: nat, user: string, m: Message, env: Env)
    requires IsTransfer(m) && !m.TransferStart? && m.id !in c.transfers
    ensures HandleTransfer(c, g, sid, user, m, env).1 != Accepted && HandleTransfer(c, g, sid, user, m, env).0 == c
  {
    hide Decode;
  }

  lemma ReopeningRefused(c: Core, g: Config, sid: nat, user: string, m: Message, env: Env)
    requires m.TransferStart? && m.id in c.transfers
    ensures HandleTransfer(c, g, sid, user, m, env).1 != Accepted && HandleTransfer(c, g, sid, user, m, env).0 == c
  {
    hide DeclaredTotal;
  }

  lemma ChunkRefused(c: Core, g: Config, sid: nat, user: string, m: Message, env: Env, script: seq<Message>,
                     opening: Message, n: nat)
    requires opening.TransferStart? && m.TransferChunk? && m.id in c.transfers && 0 < n <= |script|
    requires var t := c.transfers[m.id];
             && t.nextSequence == n - 1 && t.receivedSize == |Track(script[..n], opening.id).bytes|
             && t.expectedSize == opening.size
    requires !Appendable(m, script, opening, n)
    ensures HandleTransfer(c, g, sid, user, m, env).1 != Accepted && HandleTransfer(c, g, sid, user, m, env).0 == c
  {
    hide Decode, Track;
    assert ChunkProblem(c, m).Some?;
  }

  /** What the table says of the transfer in the middle of its script. */
  lemma MidwayFacts(x: Server, g: Config, inherited: set<Path>, sid: nat, base: nat, script: seq<Message>,
                    opening: Message, content: seq<byte>, n: nat)
    requires Inv(x, g, inherited) && sid in x.sessions && WellCut(script, opening, content) && 0 < n < |script|
    requires Sending(x.sessions[sid], base, script, opening, content, n)
    ensures opening.id in x.sessions[sid].transfers
    ensures var t := x.sessions[sid].transfers[opening.id];
            && t.nextSequence == n - 1 && t.receivedSize == |Track(script[..n], opening.id).bytes|
            && t.expectedSize == opening.size
  {
    assert opening.TransferStart?;
    hide Inv, Track, StartIndex, OnlyCompletion, Delivered, WellCut, EmptyDir;
    OpenFacts(x, g, inherited, sid, opening.id);
    CutSoFar(script, opening, content, n);
  }

  /** The handlers refuse a stray message, and the next chunk while the budget is used up. */
  lemma StrayRefused(x: Server, g: Config, inherited: set<Path>, sid: nat, m: Message, env: Env, base: nat,
                     script: seq<Message>, opening: Message, content: seq<byte>, n: nat)
    requires Inv(x, g, inherited) && sid in x.sessions && WellCut(script, opening, content)
    requires Sending(x.sessions[sid], base, script, opening, content, n) && About(m, opening.id)
    requires || Stray(opening.id in x.sessions[sid].transfers, m, script, opening, n)
             || (m.TransferChunk? && !Fits(x.budget, env.chargeClock, |Decoded(m.data)|))
    ensures var (d, verdict) := HandleTransfer(CoreOf(x, sid), g, sid, x.sessions[sid].user, m, env);
            verdict != Accepted && d.transfers == x.sessions[sid].transfers
  {
    assert opening.TransferStart?;
    hide Inv, WellCut, Sending, Decoded, Fits, Appendable, HandleTransfer, Track;
    var c, user := CoreOf(x, sid), x.sessions[sid].user;
    if m.TransferChunk? && !Fits(x.budget, env.chargeClock, |Decoded(m.data)|) {
      RateRefused(c, g, sid, user, m, env);
    } else if m.id !in c.transfers {
      UnknownRefused(c, g, sid, user, m, env);
    } else if m.TransferStart? {
      ReopeningRefused(c, g, sid, user, m, env);
    } else {
      MidwayFacts(x, g, inherited, sid, base, script, opening, content, n);
      ChunkRefused(c, g, sid, user, m, env, script, opening, n);
    }
  }

  lemma DeliveredKept(s: Session, s': Session, base: nat, opening: Message, content: seq<byte>)
    requires Delivered(s, base, opening, content) && Keeps(s, s') && s'.log == s.log
    ensures Delivered(s', base, opening, content)
  {
    hide OnlyCompletion;
    var i: nat :| DeliveredAt(s, base, i, opening, content);
    assert DeliveredAt(s', base, i, opening, content);
  }

  lemma SendingKept(s: Session, s': Session, base: nat, script: seq<Message>, opening: Message, content: seq<byte>,
                    n: nat)
    requires WellCut(script, opening, content) && Sending(s, base, script, opening, content, n)
    requires Keeps(s, s') && s'.log == s.log && s'.authenticated
    requires 0 < n < |script| && opening.id in s.transfers ==> opening.id in s'.transfers
    ensures Sending(s', base, script, opening, content, n)
  {
    hide WellCut, Track, StartIndex, OnlyCompletion, Delivered, Keeps;
    if n == |script| {
      DeliveredKept(s, s', base, opening, content);
    }
  }

  lemma StrayStep(srv: Server, g: Config, inherited: set<Path>, e: Event, sid: nat, base: nat,
                  script: seq<Message>, opening: Message, content: seq<byte>, n: nat)
    requires Inv(srv, g, inherited) && Enabled(srv, e) && sid in srv.sessions && WellCut(script, opening, content)
    requires Sending(srv.sessions[sid], base, script, opening, content, n)
    requires Favourable(srv, g, e, sid, script, opening, n)
    requires Own(e, sid, opening.id) && !Due(srv, e, sid, script, opening, n)
    ensures sid in Next(srv, g, e).sessions
    ensures Process(srv, g, sid, e.message, e.authOk, e.env).1 != Accepted
    ensures Sending(Next(srv, g, e).sessions[sid], base, script, opening, content, n)
  {
    assert opening.TransferStart?;
    hide Inv, Continue, WellCut, Sending, Keeps, Stray, Fits, HandleTransfer, ExpireTransfers;
    var x := Expire(srv, sid, e.env.expiryClock);
    ExpirySpares(srv, g, inherited, sid, e.env.expiryClock);
    SendingAuthenticated(srv.sessions[sid], base, script, opening, content, n);
    SendingKept(srv.sessions[sid], x.sessions[sid], base, script, opening, content, n);
    assert x.budget == srv.budget by { SameBudget(CoreOf(srv, sid), e.env.expiryClock); }
    StrayRefused(x, g, inherited, sid, e.message, e.env, base, script, opening, content, n);
    RefusedShape(x, g, sid, e.message, e.authOk, e.env);
    SendingKept(x.sessions[sid], Next(srv, g, e).sessions[sid], base, script, opening, content, n);
  }

  lemma SameBudget(c: Core, now: int)
    ensures ExpireTransfers(c, now).budget == c.budget
  {}

  lemma AnyStep(srv: Server, g: Config, inherited: set<Path>, e: Event, sid: nat, base: nat,
                script: seq<Message>, opening: Message, content: seq<byte>, n: nat)
    requires Inv(srv, g, inherited) && (e.Receive? ==> StampFresh(inherited, e.env.stamp))
    requires sid in srv.sessions && WellCut(script, opening, content)
    requires Sending(srv.sessions[sid], base, script, opening, content, n)
    requires Favourable(srv, g, e, sid, script, opening, n)
    requires opening.sha256 != "" ==> opening.sha256 == g.sha256(content)
    ensures var after := if Enabled(srv, e) then Next(srv, g, e) else srv;
            && Inv(after, g, inherited) && sid in after.sessions
            && Sending(after.sessions[sid], base, script, opening, content,
                       if Due(srv, e, sid, script, opening, n) then n + 1 else n)
  {
    assert opening.TransferStart?;
    assert Own(e, sid, opening.id) ==> Enabled(srv, e);
    hide Inv, Next, Sending, WellCut, Favourable, StampFresh;
    if Enabled(srv, e) {
      NextGood(srv, g, inherited, e);
      if Due(srv, e, sid, script, opening, n) {
        OwnStep(srv, g, inherited, e, sid, base, script, opening, content, n);
      } else if Own(e, sid, opening.id) {
        StrayStep(srv, g, inherited, e, sid, base, script, opening, content, n);
      } else {
        ForeignStep(srv, g, inherited, e, sid, base, script, opening, content, n);
      }
    }
  }

  /** How the server stands after these events. */
  ghost predicate Stands(srv: Server, g: Config, inherited: set<Path>, events: seq<Event>, sid: nat,
                         script: seq<Message>, opening: Message, content: seq<byte>)
    requires sid in srv.sessions && WellCut(script, opening, content)
  {
    var after := Run(srv, g, events);
    && Inv(after, g, inherited) && sid in after.sessions
    && Sending(after.sessions[sid], |srv.sessions[sid].log|, script, opening, content,
               Arrived(srv, g, events, sid, script, opening))
  }

  lemma StandsOn(srv: Server, g: Config, inherited: set<Path>, events: seq<Event>, sid: nat, script: seq<Message>,
                 opening: Message, content: seq<byte>)
    requires events != [] && (events[|events| - 1].Receive? ==> StampFresh(inherited, events[|events| - 1].env.stamp))
    requires sid in srv.sessions && WellCut(script, opening, content)
    requires opening.sha256 != "" ==> opening.sha256 == g.sha256(content)
    requires Smooth(srv, g, events, sid, script, opening)
    requires Stands(srv, g, inherited, events[..|events| - 1], sid, script, opening, content)
    ensures Stands(srv, g, inherited, events, sid, script, opening, content)
  {
    assert opening.TransferStart?;
    hide Inv, Next, Enabled, WellCut, Sending, Favourable, Due, Arrived, Smooth, Run, StampFresh;
    var init, e := events[..|events| - 1], events[|events| - 1];
    SmoothSoFar(srv, g, events, sid, script, opening);
    AnyStep(Run(srv, g, init), g, inherited, e, sid, |srv.sessions[sid].log|, script, opening, content,
            Arrived(srv, g, init, sid, script, opening));
  }

  lemma StandsFirst(srv: Server, g: Config, inherited: set<Path>, sid: nat, script: seq<Message>, opening: Message,
                    content: seq<byte>)
    requires Inv(srv, g, inherited) && sid in srv.sessions && srv.sessions[sid].authenticated
    requires WellCut(script, opening, content)
    ensures Stands(srv, g, inherited, [], sid, script, opening, content)
  {
    NothingSentYet(srv.sessions[sid], script, opening, content);
    hide Inv, WellCut, Sending, Due, Next, Enabled;
  }

  lemma {:induction false} ScriptProgresses(srv: Server, g: Config, inherited: set<Path>, events: seq<Event>, sid: nat,
                                            script: seq<Message>, opening: Message, content: seq<byte>)
    requires Inv(srv, g, inherited) && forall e <- events :: e.Receive? ==> StampFresh(inherited, e.env.stamp)
    requires sid in srv.sessions && srv.sessions[sid].authenticated && WellCut(script, opening, content)
    requires opening.sha256 != "" ==> opening.sha256 == g.sha256(content)
    requires Smooth(srv, g, events, sid, script, opening)
    ensures Stands(srv, g, inherited, events, sid, script, opening, content)
  {
    assert opening.TransferStart?;
    hide Inv, WellCut, Stands, StampFresh, Favourable, Run;
    if events == [] {
      StandsFirst(srv, g, inherited, sid, script, opening, content);
    } else {
      assert events[|events| - 1] in events;
      ScriptProgresses(srv, g, inherited, events[..|events| - 1], sid, script, opening, content);
      StandsOn(srv, g, inherited, events, sid, script, opening, content);
    }
  }

  lemma SmoothSoFar(srv: Server, g: Config, events: seq<Event>, sid: nat, script: seq<Message>, opening: Message)
    requires opening.TransferStart? && events != [] && Smooth(srv, g, events, sid, script, opening)
    ensures var (init, e) := (events[..|events| - 1], events[|events| - 1]);
            var before := Run(srv, g, init);
            var n := Arrived(srv, g, init, sid, script, opening);
            && Smooth(srv, g, init, sid, script, opening)
            && (sid in before.sessions ==> Favourable(before, g, e, sid, script, opening, n))
            && Run(srv, g, events) == (if Enabled(before, e) then Next(before, g, e) else before)
            && Arrived(srv, g, events, sid, script, opening)
              == if Due(before, e, sid, script, opening, n) then n + 1 else n
  {
    hide Favourable, Next, Enabled, Due;
  }

  lemma NothingSentYet(s: Session, script: seq<Message>, opening: Message, content: seq<byte>)
    requires s.authenticated && WellCut(script, opening, content)
    ensures Sending(s, |s.log|, script, opening, content, 0)
  {}

  /** The round trip. Whatever else the same session and all others send in between, and
      in whatever order events come, and whatever rejected, repeated, skipped or malformed
      messages the transfer itself sees, a file whose script arrives complete is committed:
      an opening logged since the start, and no other, ends in a stored file, named after
      it, that equals the source. The declared hash may be missing. */
  lemma SenderServerRoundTrip(srv: Server, g: Config, inherited: set<Path>, events: seq<Event>, sid: nat,
                              source: Source)
    requires Inv(srv, g, inherited) && forall e <- events :: e.Receive? ==> StampFresh(inherited, e.env.stamp)
    requires sid in srv.sessions && srv.sessions[sid].authenticated
    requires source.sha256 != "" ==> source.sha256 == g.sha256(source.content)
    requires Smooth(srv, g, events, sid, Script(source), Opening(source))
    requires Arrived(srv, g, events, sid, Script(source), Opening(source)) == |Script(source)|
    ensures var after := Run(srv, g, events);
            && sid in after.sessions
            && exists i: nat :: DeliveredAt(after.sessions[sid], |srv.sessions[sid].log|, i, Opening(source),
                                            source.content)
                                && after.sessions[sid].fates[i].path in after.files
                                && after.files[after.sessions[sid].fates[i].path] == source.content
  {
    hide Inv, Smooth, Arrived, CommittedAt, OnlyCompletion, Run, StampFresh, Script;
    ScriptIsWellCut(source);
    ScriptProgresses(srv, g, inherited, events, sid, Script(source), Opening(source), source.content);
    var after := Run(srv, g, events);
    DeliveredOnDisk(after, g, inherited, sid, |srv.sessions[sid].log|, Opening(source), source.content);
  }

  lemma DeliveredOnDisk(srv: Server, g: Config, inherited: set<Path>, sid: nat, base: nat, opening: Message,
                        content: seq<byte>)
    requires Inv(srv, g, inherited) && sid in srv.sessions && Delivered(srv.sessions[sid], base, opening, content)
    ensures exists i: nat :: DeliveredAt(srv.sessions[sid], base, i, opening, content)
                             && srv.sessions[sid].fates[i].path in srv.files
                             && srv.files[srv.sessions[sid].fates[i].path] == content
  {
    hide Inv, OnlyCompletion;
    var i: nat :| DeliveredAt(srv.sessions[sid], base, i, opening, content);
    OnDisk(srv, g, inherited, sid, i);
  }

  /* ------------------------------------------------------------- nothing stray */

  /** The messages of the transfer, in order. */
  function OwnMessages(events: seq<Event>, sid: nat, id: string): seq<Message> {
    if events == [] then []
    else
      var e := events[|events| - 1];
      OwnMessages(events[..|events| - 1], sid, id) + (if Own(e, sid, id) then [e.message] else [])
  }

  /** Each chunk of the transfer finds room in the upload budget. */
  ghost predicate Roomy(srv: Server, g: Config, events: seq<Event>, sid: nat, id: string) {
    events == [] ||
    var (init, e) := (events[..|events| - 1], events[|events| - 1]);
    && Roomy(srv, g, init, sid, id)
    && (Own(e, sid, id) && e.message.TransferChunk? ==>
          Fits(Run(srv, g, init).budget, e.env.chargeClock, |Decoded(e.message.data)|))
  }

  /** When nothing about the transfer is sent but its script, all of it arrives when due. */
  lemma {:induction false} NothingStray(srv: Server, g: Config, events: seq<Event>, sid: nat, script: seq<Message>,
                                        opening: Message)
    requires opening.TransferStart? && Roomy(srv, g, events, sid, opening.id)
    requires OwnMessages(events, sid, opening.id) <= script
    ensures Arrived(srv, g, events, sid, script, opening) == |OwnMessages(events, sid, opening.id)|
  {
    if events != [] {
      hide Own, Run, Fits, Decoded;
      var init, e := events[..|events| - 1], events[|events| - 1];
      var own := OwnMessages(init, sid, opening.id);
      if Own(e, sid, opening.id) {
        assert (own + [e.message])[|own|] == script[|own|];
        assert own == (own + [e.message])[..|own|];
      } else {
        assert own + [] == own;
      }
      NothingStray(srv, g, init, sid, script, opening);
    }
  }
}
