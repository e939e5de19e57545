/** Storage and upload budget together: what the server's disk holds grows by no more than
    what `consumeUploadBudget` was charged. */
module StoredBytes {
  import opened Basics
  import opened FileNames
  import opened Storage
  import opened Messages
  import opened UploadBudget
  import opened Transfers
  import opened Bundles
  import opened Server
  import opened ServerSteps
  import opened ServerRuns

  /** All octets on disk, work files included. */
  ghost function Size(f: Files): nat {
    if f == map[] then 0
    else
      var p :| p in f;
      |f[p]| + Size(f - {p})
  }

  lemma {:induction false} SizeWithout(f: Files, p: Path)
    requires p in f
    ensures Size(f) == |f[p]| + Size(f - {p})
    decreases |f|
  {
    var first :| first in f && Size(f) == |f[first]| + Size(f - {first});
    if first != p {
      FewerWithout(f, first);
      FewerWithout(f, p);
      SizeWithout(f - {first}, p);
      SizeWithout(f - {p}, first);
      assert f - {first} - {p} == f - {p} - {first};
    }
  }

  lemma FewerWithout(f: Files, p: Path)
    requires p in f
    ensures |f - {p}| < |f|
  {
    assert f.Keys == (f - {p}).Keys + {p};
  }

  lemma SizeWith(f: Files, p: Path, content: seq<byte>)
    ensures Size(f[p := content]) + |ContentOf(f, p)| == Size(f) + |content|
  {
    var more := f[p := content];
    SizeWithout(more, p);
    assert more - {p} == f - {p};
    if p in f {
      SizeWithout(f, p);
    } else {
      assert f - {p} == f;
    }
  }

  lemma {:induction false} SizeDropped(f: Files, gone: set<Path>)
    ensures Size(f - gone) <= Size(f)
    decreases |f|
  {
    if p :| p in f && p in gone {
      SizeWithout(f, p);
      FewerWithout(f, p);
      SizeDropped(f - {p}, gone);
      assert f - {p} - gone == f - gone;
    } else {
      assert f - gone == f;
    }
  }

  /** What was charged between two states of the budget. */
  function Charged(before: Budget, after: Budget): int {
    if after.startedAt == before.startedAt then after.used - before.used else after.used
  }

  lemma ChargedIs(b: Budget, now: int, bytes: nat)
    ensures Charged(b, Charge(b, now, bytes)) == if Fits(b, now, bytes) then bytes else 0
  {}

  /** A change of files is paid for by a change of budget. */
  ghost predicate Paid(files: Files, b: Budget, after: Files, later: Budget) {
    Size(after) <= Size(files) + Charged(b, later)
  }

  lemma StartPaid(c: Core, g: Config, sid: nat, user: string, m: Message, env: Env)
    requires m.TransferStart?
    ensures var d := HandleStart(c, g, sid, user, m, env).0;
            Paid(c.files, c.budget, d.files, d.budget)
  {
    hide StartProblem, Sanitized;
    SizeWith(c.files, WorkFile(sid, c.nextEvent + 1), []);
    var dir := Dir(env.stamp, c.nextEvent, Sanitized(user));
    assert WithoutDir(c.files, dir) == c.files - InDir(c.files, dir);
    SizeDropped(c.files, InDir(c.files, dir));
  }

  lemma ChunkPaid(c: Core, m: Message, env: Env)
    requires m.TransferChunk?
    ensures var d := HandleChunk(c, m, env).0;
            Paid(c.files, c.budget, d.files, d.budget)
  {
    hide Charge, Fits;
    var octets := Decoded(m.data);
    ChargedIs(c.budget, env.chargeClock, |octets|);
    SizeDropped(c.files, WorkPaths(c.transfers, {m.id}));
    if m.id in c.transfers {
      var p := c.transfers[m.id].temporaryPath;
      SizeWith(c.files, p, ContentOf(c.files, p) + octets);
    }
  }

  /** A completion leaves the disk without the work file, perhaps with the target. */
  lemma CompleteShape(c: Core, g: Config, m: Message, env: Env)
    requires m.TransferComplete? && m.id in c.transfers
    ensures var d := HandleComplete(c, g, m, env).0;
            var gone := c.files - {c.transfers[m.id].temporaryPath};
            && d.budget == c.budget
            && (d.files == gone || d.files == gone[Target(c, m.id, env) := Installed(c, m.id, env)])
    ensures |Installed(c, m.id, env)| <= |ContentOf(c.files, c.transfers[m.id].temporaryPath)|
  {
    assert WorkPaths(c.transfers, {m.id}) == {c.transfers[m.id].temporaryPath};
  }

  lemma SizeMoved(f: Files, p: Path, target: Path, content: seq<byte>)
    requires |content| <= |ContentOf(f, p)|
    ensures Size(f - {p}) <= Size(f) && Size((f - {p})[target := content]) <= Size(f)
  {
    SizeDropped(f, {p});
    if p in f {
      SizeWithout(f, p);
    }
    SizeWith(f - {p}, target, content);
  }

  lemma CompletePaid(c: Core, g: Config, m: Message, env: Env)
    requires m.TransferComplete?
    ensures var d := HandleComplete(c, g, m, env).0;
            Paid(c.files, c.budget, d.files, d.budget)
  {
    if m.id in c.transfers {
      hide HandleComplete, Size;
      CompleteShape(c, g, m, env);
      SizeMoved(c.files, c.transfers[m.id].temporaryPath, Target(c, m.id, env), Installed(c, m.id, env));
    }
  }

  /** The octets of the first `n` files of a bundle. */
  function DataLength(pending: seq<Pending>, n: nat): nat
    requires n <= |pending|
  {
    if n == 0 then 0 else DataLength(pending, n - 1) + |pending[n - 1].data|
  }

  lemma {:induction false} DataLengthInit(a: seq<Pending>, b: seq<Pending>, n: nat)
    requires n <= |a|
    ensures DataLength(a + b, n) == DataLength(a, n)
  {
    if n > 0 {
      DataLengthInit(a, b, n - 1);
    }
  }

  /** The total of a checked bundle is what its files decode to. */
  lemma {:induction false} CheckedTotal(g: Config, items: seq<BundleItem>, limit: nat)
    ensures var checked := CheckItems(g, items, limit);
            checked.Good? ==> checked.total == DataLength(checked.files, |checked.files|)
  {
    if items != [] {
      var before := CheckItems(g, items[..|items| - 1], limit);
      CheckedTotal(g, items[..|items| - 1], limit);
      if before.Good? {
        var one := CheckItem(g, items[|items| - 1], limit, before.total);
        DataLengthInit(before.files, if one.Good? then one.files else [], |before.files|);
      }
    }
  }

  /** The first `n` paths are added to the files, each with its entry's octets. */
  predicate AddsFirst(files: Files, after: Files, pending: seq<Pending>, paths: seq<Path>, n: nat)
    requires n <= |paths| == |pending|
  {
    && after.Keys == files.Keys + (set i | 0 <= i < n :: paths[i])
    && (forall p <- files :: after[p] == files[p])
    && (forall i | 0 <= i < n :: paths[i] in after && after[paths[i]] == pending[i].data)
  }

  predicate FreshPaths(files: Files, paths: seq<Path>) {
    && (forall i | 0 <= i < |paths| :: paths[i] !in files)
    && (forall i, j | 0 <= i < j < |paths| :: paths[i] != paths[j])
  }

  lemma AddsFewer(files: Files, after: Files, pending: seq<Pending>, paths: seq<Path>, n: nat)
    requires 0 < n <= |paths| == |pending| && FreshPaths(files, paths) && AddsFirst(files, after, pending, paths, n)
    ensures AddsFirst(files, after - {paths[n - 1]}, pending, paths, n - 1)
  {
    assert (set i | 0 <= i < n :: paths[i]) == (set i | 0 <= i < n - 1 :: paths[i]) + {paths[n - 1]};
    assert (after - {paths[n - 1]}).Keys == files.Keys + (set i | 0 <= i < n - 1 :: paths[i]);
  }

  lemma AddsNothing(files: Files, after: Files, pending: seq<Pending>, paths: seq<Path>)
    requires |paths| == |pending| && AddsFirst(files, after, pending, paths, 0)
    ensures after == files
  {
    assert after.Keys == files.Keys;
  }

  lemma {:induction false} SizeAdds(files: Files, after: Files, pending: seq<Pending>, paths: seq<Path>, n: nat)
    requires n <= |paths| == |pending| && FreshPaths(files, paths) && AddsFirst(files, after, pending, paths, n)
    ensures Size(after) == Size(files) + DataLength(pending, n)
  {
    hide Size, FreshPaths;
    if n == 0 {
      AddsNothing(files, after, pending, paths);
    } else {
      SizeWithout(after, paths[n - 1]);
      AddsFewer(files, after, pending, paths, n);
      SizeAdds(files, after - {paths[n - 1]}, pending, paths, n - 1);
    }
  }

  lemma BundleSize(files: Files, after: Files, d: Dir, pending: seq<Pending>, paths: seq<Path>)
    requires AddsExactly(files, after, d, pending, paths)
    ensures Size(after) == Size(files) + DataLength(pending, |pending|)
  {
    hide Size;
    assert (set p | p in paths) == (set i | 0 <= i < |paths| :: paths[i]);
    forall i | 0 <= i < |paths| ensures paths[i] in after { assert paths[i] in (set p | p in paths); }
    SizeAdds(files, after, pending, paths, |paths|);
  }

  lemma BundlePaid(files: Files, nextEvent: nat, budget: Budget, g: Config, user: string, items: seq<BundleItem>,
                   env: Env, inherited: set<Path>)
    requires Bounded(files, nextEvent, inherited) && StampFresh(inherited, env.stamp)
    ensures var o := Persist(files, nextEvent, budget, g, user, items, env);
            Paid(files, budget, o.files, o.budget)
  {
    hide CheckItems, StoreBundle, AddsExactly, Charge, Fits, Sanitized;
    var d := Dir(env.stamp, nextEvent, Sanitized(user));
    var checked := CheckItems(g, items, Routable(g.maxMessage));
    if |items| <= MAX_BUNDLE && checked.Good? {
      ChargedIs(budget, env.chargeClock, checked.total);
      CheckedTotal(g, items, Routable(g.maxMessage));
      FreshDirEmpty(files, nextEvent, inherited, d);
      EmptyDirHoldsNothing(files, d);
      AllOrNothing(files, d, checked.files, env);
      var (after, verdict) := StoreBundle(files, d, checked.files, env);
      if verdict == Accepted {
        BundleSize(files, after, d, checked.files,
                   AfterRenames(files, d, checked.files, env.stamp, |checked.files|).paths);
      }
    }
  }

  lemma TransferPaid(c: Core, g: Config, sid: nat, user: string, m: Message, env: Env)
    requires IsTransfer(m)
    ensures var d := HandleTransfer(c, g, sid, user, m, env).0;
            Paid(c.files, c.budget, d.files, d.budget)
  {
    hide HandleStart, HandleChunk, HandleComplete;
    if m.TransferStart? {
      StartPaid(c, g, sid, user, m, env);
    } else if m.TransferChunk? {
      ChunkPaid(c, m, env);
    } else {
      CompletePaid(c, g, m, env);
    }
  }

  lemma ContinuePaid(x: Server, g: Config, inherited: set<Path>, sid: nat, m: Message, authOk: bool, env: Env)
    requires Inv(x, g, inherited) && sid in x.sessions && StampFresh(inherited, env.stamp)
    ensures var after := Continue(x, g, sid, m, authOk, env).0;
            Paid(x.files, x.budget, after.files, after.budget)
  {
    hide HandleTransfer, Persist, Size, SessionOk;
    if IsTransfer(m) {
      TransferPaid(CoreOf(x, sid), g, sid, x.sessions[sid].user, m, env);
    } else if m.FileBundle? {
      BundlePaid(x.files, x.nextEvent, x.budget, g, x.sessions[sid].user, m.files, env, inherited);
    }
  }

  lemma DropPaid(srv: Server, sid: nat, ids: set<string>)
    requires sid in srv.sessions
    ensures Size(Discard(CoreOf(srv, sid), ids).files) <= Size(srv.files)
  {
    SizeDropped(srv.files, WorkPaths(srv.sessions[sid].transfers, ids));
  }

  lemma NextPaid(srv: Server, g: Config, inherited: set<Path>, e: Event)
    requires Inv(srv, g, inherited) && Enabled(srv, e) && (e.Receive? ==> StampFresh(inherited, e.env.stamp))
    ensures Paid(srv.files, srv.budget, Next(srv, g, e).files, Next(srv, g, e).budget)
  {
    hide SessionOk, SessionsApart, Bounded, Size, Continue;
    if e.Receive? {
      var c := CoreOf(srv, e.sid);
      DiscardGood(srv, g, inherited, e.sid, c, Expired(c.transfers, e.env.expiryClock));
      DropPaid(srv, e.sid, Expired(c.transfers, e.env.expiryClock));
      ContinuePaid(Expire(srv, e.sid, e.env.expiryClock), g, inherited, e.sid, e.message, e.authOk, e.env);
    } else if e.End? {
      DropPaid(srv, e.sid, srv.sessions[e.sid].transfers.Keys);
    }
  }

  /** All that the budget was charged during a run. */
  ghost function ChargedOver(srv: Server, g: Config, events: seq<Event>): int {
    if events == [] then 0
    else
      var init := events[..|events| - 1];
      ChargedOver(srv, g, init) + Charged(Run(srv, g, init).budget, Run(srv, g, events).budget)
  }

  /** Over every run the disk grows by at most what the budget was charged. */
  lemma {:induction false} StoredWithinCharged(files: Files, now: int, g: Config, events: seq<Event>)
    requires StampsMovedOn(files, events)
    ensures Size(Run(Started(files, now), g, events).files) <= Size(files) + ChargedOver(Started(files, now), g, events)
  {
    hide Size, Inv, Next, Enabled, StampFresh;
    if events != [] {
      var init, e := events[..|events| - 1], events[|events| - 1];
      assert e in events;
      StoredWithinCharged(files, now, g, init);
      Always(files, now, g, init);
      var before := Run(Started(files, now), g, init);
      if Enabled(before, e) {
        NextPaid(before, g, files.Keys, e);
      }
    }
  }
}
