/** server_common/tcpserver.cpp, `persistFiles`: a bundle is checked as a whole, written
    as numbered part files in a directory of its own, then renamed file by file. */
module Bundles {
  import opened Basics
  import opened Numerals
  import opened Base64
  import opened FileNames
  import opened Storage
  import opened Messages
  import opened UploadBudget
  import opened Transfers

  const MAX_BUNDLE: nat := 64
  const MAX_SEND_QUEUE: nat := 16 * 1024 * 1024

  /** `maxSendQueueBytes_` and the largest payload that is still routable. */
  function QueueLimit(maxMessage: nat): nat {
    if maxMessage < MAX_SEND_QUEUE then maxMessage else MAX_SEND_QUEUE
  }

  function Routable(maxMessage: nat): nat {
    if QueueLimit(maxMessage) > 4096 then QueueLimit(maxMessage) - 4096 else QueueLimit(maxMessage)
  }

  datatype Pending = Pending(name: string, data: seq<byte>)

  datatype Checked = Bad(code: string) | Good(files: seq<Pending>, total: nat)

  /** One entry against the running total. */
  ghost function CheckItem(g: Config, item: BundleItem, limit: nat, total: nat): Checked
    requires total <= limit
  {
    if item.Malformed? then Bad("INVALID_FILE")
    else if !BundleGate(item.data, limit, total) then Bad("QUOTA_EXCEEDED")
    else if Decode(item.data).None? || |Decode(item.data).value| > limit - total then Bad("INVALID_FILE")
    else
      var octets := Decode(item.data).value;
      if item.size.Some? && item.size.value != Some(|octets|) then Bad("CHECKSUM_MISMATCH")
      else if item.sha256.Some? && (item.sha256.value.None? || !ValidSha256(item.sha256.value.value)
                                    || g.sha256(octets) != item.sha256.value.value) then Bad("CHECKSUM_MISMATCH")
      else Good([Pending(Sanitized(item.name), octets)], |octets|)
  }

  /** All entries in order; the running total never exceeds the limit. */
  ghost function CheckItems(g: Config, items: seq<BundleItem>, limit: nat): (c: Checked)
    ensures c.Good? ==> c.total <= limit && |c.files| == |items|
  {
    if items == [] then Good([], 0)
    else
      var before := CheckItems(g, items[..|items| - 1], limit);
      if before.Bad? then before
      else
        var one := CheckItem(g, items[|items| - 1], limit, before.total);
        if one.Bad? then one else Good(before.files + one.files, before.total + one.total)
  }

  function PartName(i: nat): string {
    "." + (Decimal(i) + ".part")
  }

  function Part(d: Dir, i: nat): Path {
    Stored(d, PartName(i))
  }

  lemma PartInjective(d: Dir, i: nat, j: nat)
    requires Part(d, i) == Part(d, j)
    ensures i == j
  {
    assert PartName(i)[1..] == Decimal(i) + ".part" && PartName(j)[1..] == Decimal(j) + ".part";
    assert ['.'] + "part" == ".part";
    NumberThen(i, "part", j, "part", '.');
  }

  function WriteParts(files: Files, d: Dir, pending: seq<Pending>, n: nat): Files
    requires n <= |pending|
  {
    if n == 0 then files else WriteParts(files, d, pending, n - 1)[Part(d, n - 1) := pending[n - 1].data]
  }

  datatype Commit = Commit(files: Files, paths: seq<Path>)

  /** The first `n` renames; a rename moves whatever the part file holds. */
  function CommitParts(parts: Files, d: Dir, pending: seq<Pending>, stamp: string, n: nat): Commit
    requires n <= |pending|
  {
    if n == 0 then Commit(parts, [])
    else
      var c := CommitParts(parts, d, pending, stamp, n - 1);
      var target := Stored(d, UniqueName(NamesIn(c.files, d), pending[n - 1].name, stamp));
      Renamed(c, Part(d, n - 1), target)
  }

  function Renamed(c: Commit, source: Path, target: Path): Commit {
    Commit(if source in c.files then (c.files - {source})[target := c.files[source]] else c.files,
           c.paths + [target])
  }

  datatype Outcome = Outcome(files: Files, nextEvent: nat, budget: Budget, verdict: Verdict)

  function StoreBundle(files: Files, d: Dir, pending: seq<Pending>, env: Env): (Files, Verdict) {
    if !env.dirOk then (files, Rejected("INTERNAL"))
    else if env.partOk < |pending| then
      (WithoutDir(WriteParts(files, d, pending, env.partOk), d), Rejected("INTERNAL"))
    else
      var parts := WriteParts(files, d, pending, |pending|);
      if env.commitOk < |pending| then
        (WithoutDir(CommitParts(parts, d, pending, env.stamp, env.commitOk).files, d), Rejected("INTERNAL"))
      else (CommitParts(parts, d, pending, env.stamp, |pending|).files, Accepted)
  }

  ghost function Persist(files: Files, nextEvent: nat, budget: Budget, g: Config, user: string,
                         items: seq<BundleItem>, env: Env): Outcome
  {
    var checked := if |items| > MAX_BUNDLE then Bad("QUOTA_EXCEEDED") else CheckItems(g, items, Routable(g.maxMessage));
    if checked.Bad? then Outcome(files, nextEvent, budget, Rejected(checked.code))
    else
      var b := Charge(budget, env.chargeClock, checked.total);
      if !Fits(budget, env.chargeClock, checked.total) then Outcome(files, nextEvent, b, Rejected("RATE_LIMITED"))
      else
        var d := Dir(env.stamp, nextEvent, Sanitized(user));
        var (after, verdict) := StoreBundle(files, d, checked.files, env);
        Outcome(after, nextEvent + 1, b, verdict)
  }

  /* ------------------------------------------------------------- all or nothing */

  function PartsFrom(d: Dir, i: nat, n: nat): set<Path> {
    set k: nat | i <= k < n :: Part(d, k)
  }

  lemma PartsGrow(d: Dir, n: nat)
    ensures Part(d, n) !in PartsFrom(d, 0, n) && PartsFrom(d, 0, n + 1) == PartsFrom(d, 0, n) + {Part(d, n)}
  {
    forall i: nat | i < n ensures Part(d, i) != Part(d, n) {
      if Part(d, i) == Part(d, n) { PartInjective(d, i, n); }
    }
  }

  lemma PartsShrink(d: Dir, k: nat, n: nat)
    requires k < n
    ensures Part(d, k) in PartsFrom(d, k, n) && PartsFrom(d, k + 1, n) == PartsFrom(d, k, n) - {Part(d, k)}
  {
    forall i: nat | k < i < n ensures Part(d, i) != Part(d, k) {
      if Part(d, i) == Part(d, k) { PartInjective(d, i, k); }
    }
    assert Part(d, k) in PartsFrom(d, k, n);
    forall p | p in PartsFrom(d, k, n) - {Part(d, k)} ensures p in PartsFrom(d, k + 1, n) {
      var i: nat :| k <= i < n && p == Part(d, i);
    }
  }

  lemma InDirGrows(files: Files, d: Dir, name: string, data: seq<byte>)
    ensures InDir(files[Stored(d, name) := data], d) == InDir(files, d) + {Stored(d, name)}
  {}

  lemma InDirShrinks(files: Files, d: Dir, p: Path)
    ensures InDir(files - {p}, d) == InDir(files, d) - {p}
  {}

  /** The part files lie beside what was there before. */
  predicate Written(files: Files, f: Files, d: Dir, pending: seq<Pending>, n: nat)
    requires n <= |pending|
  {
    && f.Keys == files.Keys + PartsFrom(d, 0, n)
    && (forall p <- files :: f[p] == files[p])
    && (forall i | 0 <= i < n :: Part(d, i) in f && f[Part(d, i)] == pending[i].data)
    && |InDir(f, d)| == n
  }

  lemma WrittenCount(f: Files, d: Dir, p: Path, data: seq<byte>)
    requires p !in f && p.Stored? && p.dir == d
    ensures |InDir(f[p := data], d)| == |InDir(f, d)| + 1
  {
    InDirGrows(f, d, p.name, data);
    assert p !in InDir(f, d);
  }

  lemma WrittenStep(files: Files, f: Files, e: Files, d: Dir, pending: seq<Pending>, n: nat, p: Path)
    requires n < |pending| && p == Part(d, n) && p !in files && Written(files, f, d, pending, n)
    requires e == f[p := pending[n].data]
    ensures Written(files, e, d, pending, n + 1)
  {
    PartsGrow(d, n);
    WrittenCount(f, d, p, pending[n].data);
    assert e.Keys == files.Keys + PartsFrom(d, 0, n + 1);
  }

  lemma {:induction false} PartsWritten(files: Files, d: Dir, pending: seq<Pending>, n: nat)
    requires n <= |pending| && InDir(files, d) == {}
    ensures Written(files, WriteParts(files, d, pending, n), d, pending, n)
  {
    if n > 0 {
      hide Written;
      PartsWritten(files, d, pending, n - 1);
      assert Part(d, n - 1) !in InDir(files, d);
      WrittenStep(files, WriteParts(files, d, pending, n - 1), WriteParts(files, d, pending, n), d, pending, n - 1,
                  Part(d, n - 1));
    } else {
      assert PartsFrom(d, 0, 0) == {};
    }
  }

  /** The first `k` entries have files of their own in the directory. */
  predicate Placed(c: Commit, d: Dir, pending: seq<Pending>, k: nat)
    requires k <= |pending|
  {
    && |c.paths| == k
    && (forall i | 0 <= i < k ::
          c.paths[i].Stored? && c.paths[i].dir == d && c.paths[i] in c.files && c.files[c.paths[i]] == pending[i].data)
    && (forall i, j | 0 <= i < j < k :: c.paths[i] != c.paths[j])
  }

  /** The parts from `k` on still wait, under names no placed file has. */
  predicate Waiting(c: Commit, d: Dir, pending: seq<Pending>, k: nat) {
    && (forall i | k <= i < |pending| :: Part(d, i) in c.files && c.files[Part(d, i)] == pending[i].data)
    && (forall p <- c.paths :: p !in PartsFrom(d, k, |pending|))
  }

  /** Nothing else is there and nothing older has changed. */
  predicate NothingElse(files: Files, c: Commit, d: Dir, k: nat, n: nat) {
    && c.files.Keys == files.Keys + PartsFrom(d, k, n) + (set p | p in c.paths)
    && (forall p <- files :: c.files[p] == files[p])
    && |InDir(c.files, d)| == n
  }

  predicate Between(files: Files, d: Dir, pending: seq<Pending>, c: Commit, k: nat)
    requires k <= |pending|
  {
    Placed(c, d, pending, k) && Waiting(c, d, pending, k) && NothingElse(files, c, d, k, |pending|)
  }

  lemma PlacedStep(d: Dir, pending: seq<Pending>, c: Commit, k: nat, target: Path)
    requires k < |pending| && Placed(c, d, pending, k) && Waiting(c, d, pending, k)
    requires target.Stored? && target.dir == d && target !in c.files
    ensures Placed(Renamed(c, Part(d, k), target), d, pending, k + 1)
  {
    assert Part(d, k) in PartsFrom(d, k, |pending|);
    forall i | 0 <= i < k ensures c.paths[i] != Part(d, k) {
      assert c.paths[i] in c.paths;
    }
  }

  lemma WaitingStep(d: Dir, pending: seq<Pending>, c: Commit, k: nat, target: Path)
    requires k < |pending| && Waiting(c, d, pending, k) && target !in c.files
    ensures Waiting(Renamed(c, Part(d, k), target), d, pending, k + 1)
  {
    PartsShrink(d, k, |pending|);
    forall i | k < i < |pending| ensures Part(d, i) != Part(d, k) && Part(d, i) != target {
      assert Part(d, i) in PartsFrom(d, k + 1, |pending|);
    }
    forall p | p in PartsFrom(d, k, |pending|) ensures p in c.files {
      var i: nat :| k <= i < |pending| && p == Part(d, i);
    }
  }

  lemma NothingElseStep(files: Files, d: Dir, n: nat, c: Commit, k: nat, target: Path)
    requires k < n && NothingElse(files, c, d, k, n) && Part(d, k) in c.files && Part(d, k) !in files
    requires Part(d, k) !in c.paths
    requires target.Stored? && target.dir == d && target !in c.files
    ensures NothingElse(files, Renamed(c, Part(d, k), target), d, k + 1, n)
  {
    var e := Renamed(c, Part(d, k), target);
    PartsShrink(d, k, n);
    assert (set p | p in e.paths) == (set p | p in c.paths) + {target};
    InDirShrinks(c.files, d, Part(d, k));
    InDirGrows(c.files - {Part(d, k)}, d, target.name, c.files[Part(d, k)]);
    assert Part(d, k) in InDir(c.files, d);
  }

  lemma {:induction false} CommitBetween(files: Files, d: Dir, pending: seq<Pending>, stamp: string, k: nat)
    requires k <= |pending| <= MAX_BUNDLE && InDir(files, d) == {}
    ensures var parts := WriteParts(files, d, pending, |pending|);
            Between(files, d, pending, CommitParts(parts, d, pending, stamp, k), k)
  {
    var parts := WriteParts(files, d, pending, |pending|);
    if k == 0 {
      PartsWritten(files, d, pending, |pending|);
      BetweenStart(files, parts, d, pending);
    } else {
      CommitBetween(files, d, pending, stamp, k - 1);
      var c := CommitParts(parts, d, pending, stamp, k - 1);
      CommitStep(files, d, pending, c, stamp, k - 1);
    }
  }

  lemma BetweenStart(files: Files, parts: Files, d: Dir, pending: seq<Pending>)
    requires Written(files, parts, d, pending, |pending|)
    ensures Between(files, d, pending, Commit(parts, []), 0)
  {}

  lemma CommitStep(files: Files, d: Dir, pending: seq<Pending>, c: Commit, stamp: string, k: nat)
    requires k < |pending| <= MAX_BUNDLE && InDir(files, d) == {} && Between(files, d, pending, c, k)
    ensures var target := Stored(d, UniqueName(NamesIn(c.files, d), pending[k].name, stamp));
            Between(files, d, pending, Renamed(c, Part(d, k), target), k + 1)
  {
    NamesCount(c.files, d);
    UniqueNameIsFree(NamesIn(c.files, d), pending[k].name, stamp);
    var target := Stored(d, UniqueName(NamesIn(c.files, d), pending[k].name, stamp));
    assert Part(d, k) !in InDir(files, d);
    assert Part(d, k) in PartsFrom(d, k, |pending|);
    PlacedStep(d, pending, c, k, target);
    WaitingStep(d, pending, c, k, target);
    NothingElseStep(files, d, |pending|, c, k, target);
  }

  /** The stored files of a bundle: one new, distinct file per entry with exactly its
      octets, nothing else added, nothing changed. */
  ghost predicate AddsExactly(files: Files, after: Files, d: Dir, pending: seq<Pending>, paths: seq<Path>) {
    && |paths| == |pending|
    && (forall i | 0 <= i < |paths| :: paths[i].Stored? && paths[i].dir == d && paths[i] !in files)
    && (forall i, j | 0 <= i < j < |paths| :: paths[i] != paths[j])
    && after.Keys == files.Keys + (set p | p in paths)
    && (forall p <- files :: after[p] == files[p])
    && (forall i | 0 <= i < |paths| :: after[paths[i]] == pending[i].data)
  }

  function AfterRenames(files: Files, d: Dir, pending: seq<Pending>, stamp: string, k: nat): Commit
    requires k <= |pending|
  {
    CommitParts(WriteParts(files, d, pending, |pending|), d, pending, stamp, k)
  }

  lemma BetweenUndone(files: Files, d: Dir, pending: seq<Pending>, c: Commit, k: nat)
    requires k <= |pending| && InDir(files, d) == {} && Between(files, d, pending, c, k)
    ensures WithoutDir(c.files, d) == files
  {
    forall p | p in c.files ensures p in files || (p.Stored? && p.dir == d) {}
    OnlyDirAdded(files, c.files, d);
  }

  lemma BetweenDone(files: Files, d: Dir, pending: seq<Pending>, c: Commit)
    requires InDir(files, d) == {} && Between(files, d, pending, c, |pending|)
    ensures AddsExactly(files, c.files, d, pending, c.paths)
  {
    assert PartsFrom(d, |pending|, |pending|) == {};
    forall i | 0 <= i < |c.paths| ensures c.paths[i] !in files {
      assert c.paths[i] !in InDir(files, d);
    }
  }

  /** A bundle of at most 64 files in a directory of its own is stored entirely or not at
      all, whatever the names, including equal ones and names shaped like part files. */
  lemma AllOrNothing(files: Files, d: Dir, pending: seq<Pending>, env: Env)
    requires |pending| <= MAX_BUNDLE && InDir(files, d) == {}
    ensures var (after, verdict) := StoreBundle(files, d, pending, env);
            if verdict == Accepted
            then AddsExactly(files, after, d, pending, AfterRenames(files, d, pending, env.stamp, |pending|).paths)
            else after == files
    ensures StoreBundle(files, d, pending, env).1 == Accepted
            <==> env.dirOk && env.partOk >= |pending| && env.commitOk >= |pending|
  {
    if env.dirOk && env.partOk < |pending| {
      PartsWritten(files, d, pending, env.partOk);
      OnlyDirAdded(files, WriteParts(files, d, pending, env.partOk), d);
    } else if env.dirOk {
      var k := if env.commitOk < |pending| then env.commitOk else |pending|;
      var c := AfterRenames(files, d, pending, env.stamp, k);
      CommitBetween(files, d, pending, env.stamp, k);
      if k < |pending| {
        BetweenUndone(files, d, pending, c, k);
      } else {
        BetweenDone(files, d, pending, c);
      }
    }
  }

  lemma OnlyDirAdded(files: Files, more: Files, d: Dir)
    requires InDir(files, d) == {} && files.Keys <= more.Keys
    requires forall p <- files :: more[p] == files[p]
    requires forall p <- more :: p in files || (p.Stored? && p.dir == d)
    ensures WithoutDir(more, d) == files
  {
    forall p | p in files ensures p !in InDir(more, d) {
      assert p !in InDir(files, d);
    }
  }

  /* ------------------------------------------------------------- the handler */

  method CheckFile(item: BundleItem, g: Config, limit: nat, totalBytes: nat) returns (checked: Checked)
    requires totalBytes <= limit
    ensures checked == CheckItem(g, item, limit, totalBytes)
  {
    if item.Malformed? {
      return Bad("INVALID_FILE");
    }
    if totalBytes > limit || |item.data| > (limit - totalBytes) / 3 * 4 + 8 {
      return Bad("QUOTA_EXCEEDED");
    }
    var ok, decoded := DecodeBase64(item.data);
    if !ok || |decoded| > limit - totalBytes {
      return Bad("INVALID_FILE");
    }
    if item.size.Some? && item.size.value != Some(|decoded|) {
      return Bad("CHECKSUM_MISMATCH");
    }
    if item.sha256.Some? {
      if item.sha256.value.None? || !ValidSha256(item.sha256.value.value)
         || g.sha256(decoded) != item.sha256.value.value {
        return Bad("CHECKSUM_MISMATCH");
      }
    }
    var name := SanitizeFileName(item.name);
    checked := Good([Pending(name, decoded)], |decoded|);
  }

  /** The loop over the entries; the running total stays within the limit, so none of the
      subtractions wraps. */
  method CheckFiles(items: seq<BundleItem>, g: Config) returns (checked: Checked)
    ensures checked == CheckItems(g, items, Routable(g.maxMessage))
  {
    hide CheckItem, CheckItems;
    var limit := Routable(g.maxMessage);
    var totalBytes: nat := 0;
    var pendingFiles: seq<Pending> := [];
    CheckNothing(g, limit);
    assert items[..0] == [];
    for i := 0 to |items|
      invariant totalBytes <= limit
      invariant CheckItems(g, items[..i], limit) == Good(pendingFiles, totalBytes)
    {
      CheckNext(g, items, limit, i);
      var one := CheckFile(items[i], g, limit, totalBytes);
      if one.Bad? {
        BadSticks(g, items, limit, i + 1);
        return one;
      }
      totalBytes := totalBytes + one.total;
      pendingFiles := pendingFiles + one.files;
    }
    assert items[..|items|] == items;
    checked := Good(pendingFiles, totalBytes);
  }

  lemma CheckNothing(g: Config, limit: nat)
    ensures CheckItems(g, [], limit) == Good([], 0)
  {}

  lemma CheckNext(g: Config, items: seq<BundleItem>, limit: nat, i: nat)
    requires i < |items|
    ensures var before := CheckItems(g, items[..i], limit);
            before.Good? ==>
              var one := CheckItem(g, items[i], limit, before.total);
              CheckItems(g, items[..i + 1], limit)
              == if one.Bad? then one else Good(before.files + one.files, before.total + one.total)
  {
    hide CheckItem;
    assert items[..i + 1][..i] == items[..i];
  }

  lemma {:induction false} BadSticks(g: Config, items: seq<BundleItem>, limit: nat, n: nat)
    requires n <= |items|
    ensures CheckItems(g, items[..n], limit).Bad? ==> CheckItems(g, items, limit) == CheckItems(g, items[..n], limit)
    decreases |items| - n
  {
    if n < |items| {
      assert items[..n + 1][..n] == items[..n];
      BadSticks(g, items, limit, n + 1);
    } else {
      assert items[..n] == items;
    }
  }

  method PersistFiles(server: TransferServer, user: string, items: seq<BundleItem>, g: Config, env: Env)
    returns (verdict: Verdict)
    requires server.uploads.uploadedBytesInWindow <= UPLOAD_LIMIT
    modifies server`files, server`nextEventId, server.uploads
    ensures server.uploads.uploadedBytesInWindow <= UPLOAD_LIMIT
    ensures Outcome(server.files, server.nextEventId, server.uploads.View(), verdict)
            == Persist(old(server.files), old(server.nextEventId), old(server.uploads.View()), g, user, items, env)
  {
    if |items| > MAX_BUNDLE {
      return Rejected("QUOTA_EXCEEDED");
    }
    var checked := CheckFiles(items, g);
    if checked.Bad? {
      return Rejected(checked.code);
    }
    var charged := server.uploads.ConsumeUploadBudget(env.chargeClock, checked.total);
    if !charged {
      return Rejected("RATE_LIMITED");
    }
    var owner := SanitizeFileName(user);
    var d := Dir(env.stamp, server.nextEventId, owner);
    server.nextEventId := server.nextEventId + 1;
    verdict := WriteBundle(server, d, checked.files, env);
  }

  method WriteBundle(server: TransferServer, d: Dir, pending: seq<Pending>, env: Env) returns (verdict: Verdict)
    modifies server`files
    ensures (server.files, verdict) == StoreBundle(old(server.files), d, pending, env)
  {
    if !env.dirOk {
      return Rejected("INTERNAL");
    }
    ghost var before := server.files;
    for index := 0 to |pending|
      invariant index <= env.partOk && server.files == WriteParts(before, d, pending, index)
    {
      if index >= env.partOk {
        server.files := WithoutDir(server.files, d);
        return Rejected("INTERNAL");
      }
      server.files := server.files[Part(d, index) := pending[index].data];
    }
    ghost var parts := server.files;
    var committed: seq<Path> := [];
    for index := 0 to |pending|
      invariant index <= env.commitOk
      invariant Commit(server.files, committed) == CommitParts(parts, d, pending, env.stamp, index)
    {
      var name := MakeFilePathUnique(NamesIn(server.files, d), pending[index].name, env.stamp);
      if index >= env.commitOk {
        server.files := WithoutDir(server.files, d);
        return Rejected("INTERNAL");
      }
      var step := Renamed(Commit(server.files, committed), Part(d, index), Stored(d, name));
      server.files := step.files;
      committed := step.paths;
    }
    verdict := Accepted;
  }
}
