/** server_common/tcpserver.cpp, `persistFiles`, from the message to the disk: exactly when
    a bundle is accepted, and what its new files are called and hold, entry by entry. */
module BundleContents {
  import opened Basics
  import opened Numerals
  import opened Base64
  import opened FileNames
  import opened Storage
  import opened Messages
  import opened UploadBudget
  import opened Transfers
  import opened Bundles
  import opened Verdicts

  /** The octets an entry carries; none when it carries nothing that decodes. */
  ghost function Octets(item: BundleItem): seq<byte> {
    if item.Item? && Decode(item.data).Some? then Decode(item.data).value else []
  }

  ghost function OctetsIn(items: seq<BundleItem>): nat {
    if items == [] then 0 else OctetsIn(items[..|items| - 1]) + |Octets(items[|items| - 1])|
  }

  /** An entry with its name and data, short enough to be worth decoding, that decodes
      within what is left of the limit after `before` octets. */
  ghost predicate Carries(item: BundleItem, before: nat, limit: nat) {
    && item.Item?
    && before <= limit && |item.data| <= (limit - before) / 3 * 4 + 8
    && Decode(item.data).Some? && before + |Octets(item)| <= limit
  }

  /** The optional size and hash, where given, are those of the octets. */
  ghost predicate Agrees(g: Config, item: BundleItem) {
    && item.Item?
    && (item.size == None || item.size == Some(Some(|Octets(item)|)))
    && (item.sha256 == None
        || exists h :: item.sha256 == Some(Some(h)) && h != "" && HashReads(h) && g.sha256(Octets(item)) == h)
  }

  ghost predicate AllSound(g: Config, items: seq<BundleItem>, limit: nat) {
    forall i | 0 <= i < |items| :: Carries(items[i], OctetsIn(items[..i]), limit) && Agrees(g, items[i])
  }

  lemma OneItem(g: Config, item: BundleItem, limit: nat, total: nat)
    requires total <= limit
    ensures CheckItem(g, item, limit, total)
         == if Carries(item, total, limit) && Agrees(g, item)
            then Good([Pending(Sanitized(item.name), Octets(item))], |Octets(item)|)
            else CheckItem(g, item, limit, total)
    ensures CheckItem(g, item, limit, total).Good? <==> Carries(item, total, limit) && Agrees(g, item)
  {
    hide Decode, Sanitized;
    if item.Item? && item.sha256.Some? && item.sha256.value.Some? {
      HashReadsIff(item.sha256.value.value);
      assert item.sha256 == Some(Some(item.sha256.value.value));
    }
  }

  lemma OneFault(g: Config, item: BundleItem, limit: nat, total: nat)
    requires total <= limit && !(Carries(item, total, limit) && Agrees(g, item))
    ensures CheckItem(g, item, limit, total)
         == Bad(if item.Malformed? then "INVALID_FILE"
                else if |item.data| > (limit - total) / 3 * 4 + 8 then "QUOTA_EXCEEDED"
                else if Decode(item.data).None? || total + |Octets(item)| > limit then "INVALID_FILE"
                else "CHECKSUM_MISMATCH")
  {
    hide Decode, Sanitized;
    OneItem(g, item, limit, total);
  }

  lemma SoundSnoc(g: Config, items: seq<BundleItem>, limit: nat)
    requires items != []
    ensures var init := items[..|items| - 1];
            AllSound(g, items, limit)
            <==> AllSound(g, init, limit) && Carries(items[|items| - 1], OctetsIn(init), limit)
                 && Agrees(g, items[|items| - 1])
  {
    hide Carries, Agrees, OctetsIn;
    var init := items[..|items| - 1];
    forall i | 0 <= i < |init| ensures init[..i] == items[..i] && init[i] == items[i] {}
  }

  /** One pending file per entry: its octets, under its sanitized name. */
  ghost predicate Reads(files: seq<Pending>, items: seq<BundleItem>) {
    && |files| == |items|
    && forall i | 0 <= i < |items| ::
         items[i].Item? && files[i] == Pending(Sanitized(items[i].name), Octets(items[i]))
  }

  lemma ReadsSnoc(files: seq<Pending>, items: seq<BundleItem>, item: BundleItem)
    requires Reads(files, items) && item.Item?
    ensures Reads(files + [Pending(Sanitized(item.name), Octets(item))], items + [item])
  {}

  ghost predicate ChecksOut(c: Checked, g: Config, items: seq<BundleItem>, limit: nat) {
    && (c.Good? <==> AllSound(g, items, limit))
    && (c.Good? ==> c.total == OctetsIn(items) && Reads(c.files, items))
  }

  function Plus(before: Checked, one: Checked): Checked {
    if before.Bad? then before else if one.Bad? then one else Good(before.files + one.files, before.total + one.total)
  }

  lemma CheckSnoc(g: Config, items: seq<BundleItem>, limit: nat)
    requires items != []
    ensures var before := CheckItems(g, items[..|items| - 1], limit);
            CheckItems(g, items, limit)
            == if before.Bad? then before else Plus(before, CheckItem(g, items[|items| - 1], limit, before.total))
  {
    hide CheckItem;
  }

  lemma ItemsStep(g: Config, items: seq<BundleItem>, limit: nat, before: Checked)
    requires items != [] && ChecksOut(before, g, items[..|items| - 1], limit) && before.Good? && before.total <= limit
    ensures ChecksOut(Plus(before, CheckItem(g, items[|items| - 1], limit, before.total)), g, items, limit)
  {
    hide CheckItem, Octets, Sanitized, Carries, Agrees, AllSound, Reads;
    var init, last := items[..|items| - 1], items[|items| - 1];
    SoundSnoc(g, items, limit);
    OneItem(g, last, limit, before.total);
    if Carries(last, before.total, limit) && Agrees(g, last) {
      CarriesName(last, before.total, limit);
      ReadsSnoc(before.files, init, last);
      assert init + [last] == items;
    }
  }

  /** The check of a whole bundle succeeds exactly on sound entries, and hands on each
      entry's octets under its sanitized name. */
  lemma {:induction false} ItemsIff(g: Config, items: seq<BundleItem>, limit: nat)
    ensures ChecksOut(CheckItems(g, items, limit), g, items, limit)
  {
    if items != [] {
      hide CheckItem, AllSound, Reads, OctetsIn, Plus;
      ItemsIff(g, items[..|items| - 1], limit);
      SoundSnoc(g, items, limit);
      CheckSnoc(g, items, limit);
      var before := CheckItems(g, items[..|items| - 1], limit);
      if before.Good? {
        ItemsStep(g, items, limit, before);
      }
    }
  }

  lemma CarriesName(item: BundleItem, before: nat, limit: nat)
    requires Carries(item, before, limit)
    ensures item.Item?
  {}

  /** Under which code the first unsound entry refuses the whole bundle, whatever follows. */
  lemma FirstFault(g: Config, items: seq<BundleItem>, limit: nat, k: nat)
    requires k < |items| && AllSound(g, items[..k], limit)
    requires !(Carries(items[k], OctetsIn(items[..k]), limit) && Agrees(g, items[k]))
    ensures var (item, before) := (items[k], OctetsIn(items[..k]));
            CheckItems(g, items, limit)
            == Bad(if item.Malformed? then "INVALID_FILE"
                   else if |item.data| > (limit - before) / 3 * 4 + 8 then "QUOTA_EXCEEDED"
                   else if Decode(item.data).None? || before + |Octets(item)| > limit then "INVALID_FILE"
                   else "CHECKSUM_MISMATCH")
  {
    hide AllSound, CheckItem, Carries, Agrees, Decode, Reads, Octets;
    var upto := items[..k + 1];
    assert upto[..k] == items[..k];
    ItemsIff(g, items[..k], limit);
    CheckSnoc(g, upto, limit);
    BadSticks(g, items, limit, k + 1);
    OneFault(g, items[k], limit, CheckItems(g, items[..k], limit).total);
  }

  /* ------------------------------------------------------------- what is on disk */

  /** The largest total that can still be forwarded. */
  lemma RoutableIs(maxMessage: nat)
    ensures maxMessage >= 16_777_216 ==> Routable(maxMessage) == 16_773_120
    ensures 4096 < maxMessage < 16_777_216 ==> Routable(maxMessage) == maxMessage - 4096
    ensures maxMessage <= 4096 ==> Routable(maxMessage) == maxMessage
  {}

  /** A bundle within these bounds: at most 64 sound entries. */
  ghost predicate Sound(g: Config, items: seq<BundleItem>) {
    |items| <= 64 && AllSound(g, items, Routable(g.maxMessage))
  }

  /** Nothing lies yet in the directory the bundle would get. */
  predicate FreshDir(files: Files, nextEvent: nat, user: string, env: Env) {
    EmptyDir(files, Dir(env.stamp, nextEvent, Sanitized(user)))
  }

  /** A bundle is accepted exactly when its entries are sound, the window has room for all
      their octets, and the directory, every part file and every rename succeed. */
  lemma BundleAcceptedIff(files: Files, nextEvent: nat, budget: Budget, g: Config, user: string,
                          items: seq<BundleItem>, env: Env)
    requires FreshDir(files, nextEvent, user, env)
    ensures Persist(files, nextEvent, budget, g, user, items, env).verdict == Accepted
            <==> && Sound(g, items)
                 && ChargedAt(budget, env.chargeClock) + OctetsIn(items) <= UPLOAD_LIMIT
                 && env.dirOk && env.partOk >= |items| && env.commitOk >= |items|
  {
    hide CheckItems, AllSound, StoreBundle, Reads, OctetsIn, Routable;
    ItemsIff(g, items, Routable(g.maxMessage));
    var c := CheckItems(g, items, Routable(g.maxMessage));
    if |items| <= 64 && c.Good? {
      ReadsLength(c.files, items);
      var d := Dir(env.stamp, nextEvent, Sanitized(user));
      EmptyDirHoldsNothing(files, d);
      AllOrNothing(files, d, c.files, env);
    }
  }

  lemma ReadsLength(files: seq<Pending>, items: seq<BundleItem>)
    requires Reads(files, items)
    ensures |files| == |items|
  {}

  /** Whatever the outcome: the window the bundle falls into is charged with the sum of the
      decoded lengths, with nothing when that is too much, and not even looked at for
      unsound entries. A refused bundle leaves no file behind. */
  lemma BundleLeaves(files: Files, nextEvent: nat, budget: Budget, g: Config, user: string,
                     items: seq<BundleItem>, env: Env)
    requires FreshDir(files, nextEvent, user, env)
    ensures var o := Persist(files, nextEvent, budget, g, user, items, env);
            && (o.verdict != Accepted ==> o.files == files)
            && (|items| > 64 ==> o.verdict == Rejected("QUOTA_EXCEEDED"))
            && if !Sound(g, items) then o.budget == budget && o.nextEvent == nextEvent
               else if ChargedAt(budget, env.chargeClock) + OctetsIn(items) > UPLOAD_LIMIT
               then o.verdict == Rejected("RATE_LIMITED") && OnlyRolled(budget, o.budget, env.chargeClock)
                    && o.nextEvent == nextEvent
               else o.budget.used == ChargedAt(budget, env.chargeClock) + OctetsIn(items)
                    && OnlyRolled(budget, o.budget.(used := ChargedAt(budget, env.chargeClock)), env.chargeClock)
                    && o.nextEvent == nextEvent + 1
  {
    hide CheckItems, AllSound, StoreBundle, Reads, OctetsIn, Routable;
    ItemsIff(g, items, Routable(g.maxMessage));
    var c := CheckItems(g, items, Routable(g.maxMessage));
    if |items| <= 64 && c.Good? {
      ReadsLength(c.files, items);
      var d := Dir(env.stamp, nextEvent, Sanitized(user));
      EmptyDirHoldsNothing(files, d);
      AllOrNothing(files, d, c.files, env);
    }
  }

  /** The name is in use when the `k`-th of `n` files is placed: by a file placed before
      it, or by a part file still waiting. */
  predicate InUse(name: string, paths: seq<Path>, k: nat, n: nat)
    requires k <= |paths|
  {
    || (exists i :: 0 <= i < k && paths[i].Stored? && paths[i].name == name)
    || (exists i: nat :: k <= i < n && name == PartName(i))
  }

  /** One new file per entry in the bundle's directory, holding what the entry's data
      decodes to, under its sanitized name exactly when that is free; nothing else is
      added and nothing older changes. */
  ghost predicate Holds(files: Files, after: Files, d: Dir, items: seq<BundleItem>, paths: seq<Path>) {
    && |paths| == |items|
    && (forall i | 0 <= i < |paths| ::
          && paths[i].Stored? && paths[i].dir == d && paths[i] !in files && paths[i] in after
          && Plain(paths[i].name))
    && (forall i, j | 0 <= i < j < |paths| :: paths[i] != paths[j])
    && after.Keys == files.Keys + (set p | p in paths)
    && (forall p <- files :: after[p] == files[p])
    && (forall i | 0 <= i < |items| :: items[i].Item? && Decode(items[i].data) == Some(after[paths[i]]))
    && (forall i | 0 <= i < |items| ::
          paths[i].name == Sanitized(items[i].name) <==> !InUse(Sanitized(items[i].name), paths, i, |items|))
  }

  lemma {:induction false} CommitPrefix(parts: Files, d: Dir, pending: seq<Pending>, stamp: string, k: nat, n: nat)
    requires k <= n <= |pending|
    ensures var (c, e) := (CommitParts(parts, d, pending, stamp, k), CommitParts(parts, d, pending, stamp, n));
            |e.paths| == n && e.paths[..k] == c.paths && |c.paths| == k
  {
    hide UniqueName, NamesIn;
    if k < n {
      CommitPrefix(parts, d, pending, stamp, k, n - 1);
    } else if k > 0 {
      CommitPrefix(parts, d, pending, stamp, k - 1, k - 1);
    }
  }

  /** What is in the directory when the `k`-th file is placed. */
  lemma TakenIs(files: Files, d: Dir, pending: seq<Pending>, c: Commit, k: nat, name: string)
    requires k <= |pending| && InDir(files, d) == {} && Between(files, d, pending, c, k)
    ensures name in NamesIn(c.files, d) <==> InUse(name, c.paths, k, |pending|)
  {
    NamesCount(c.files, d);
    var p := Stored(d, name);
    assert p !in InDir(files, d);
    if p in PartsFrom(d, k, |pending|) {
      var i: nat :| k <= i < |pending| && Part(d, i) == p;
      assert name == PartName(i);
    }
    if i: nat :| k <= i < |pending| && name == PartName(i) {
      assert Part(d, i) == p;
    }
    if p in c.paths {
      var i :| 0 <= i < |c.paths| && c.paths[i] == p;
    }
    if i :| 0 <= i < k && c.paths[i].Stored? && c.paths[i].name == name {
      assert c.paths[i] == p;
    }
  }

  lemma FewTaken(files: Files, d: Dir, pending: seq<Pending>, c: Commit, k: nat)
    requires k <= |pending| <= MAX_BUNDLE && Between(files, d, pending, c, k)
    ensures |NamesIn(c.files, d)| < MAX_PROBE
  {
    NamesCount(c.files, d);
  }

  lemma InUsePrefix(name: string, paths: seq<Path>, k: nat, n: nat)
    requires k <= |paths|
    ensures InUse(name, paths[..k], k, n) <==> InUse(name, paths, k, n)
  {}

  /** The name the `k`-th file gets. */
  lemma PlacedName(files: Files, d: Dir, pending: seq<Pending>, stamp: string, k: nat)
    requires k < |pending| <= MAX_BUNDLE && InDir(files, d) == {} && SafeName(pending[k].name)
    ensures var paths := AfterRenames(files, d, pending, stamp, |pending|).paths;
            && |paths| == |pending| && paths[k].Stored? && Plain(paths[k].name)
            && (paths[k].name == pending[k].name <==> !InUse(pending[k].name, paths, k, |pending|))
  {
    hide InUse, NamesIn, UniqueName, Plain, Between, SafeName;
    var parts := WriteParts(files, d, pending, |pending|);
    var c := CommitParts(parts, d, pending, stamp, k);
    var paths := AfterRenames(files, d, pending, stamp, |pending|).paths;
    CommitPrefix(parts, d, pending, stamp, k, |pending|);
    CommitPrefix(parts, d, pending, stamp, k + 1, |pending|);
    assert paths[k] == paths[..k + 1][k];
    CommitBetween(files, d, pending, stamp, k);
    TakenIs(files, d, pending, c, k, pending[k].name);
    FewTaken(files, d, pending, c, k);
    UniqueNamePlain(NamesIn(c.files, d), pending[k].name, stamp);
    InUsePrefix(pending[k].name, paths, k, |pending|);
  }

  lemma HoldsFrom(files: Files, after: Files, d: Dir, pending: seq<Pending>, items: seq<BundleItem>, paths: seq<Path>)
    requires AddsExactly(files, after, d, pending, paths) && Reads(pending, items)
    requires forall i | 0 <= i < |items| :: items[i].Item? && Decode(items[i].data).Some?
    requires |paths| == |items|
    requires forall i | 0 <= i < |items| ::
               && paths[i].Stored? && Plain(paths[i].name)
               && (paths[i].name == Sanitized(items[i].name) <==> !InUse(Sanitized(items[i].name), paths, i, |items|))
    ensures Holds(files, after, d, items, paths)
  {
    hide Decode, InUse, Plain, Sanitized;
    forall i | 0 <= i < |items| ensures paths[i] in after && Decode(items[i].data) == Some(after[paths[i]]) {
      assert paths[i] in paths;
    }
  }

  lemma SoundDecodes(g: Config, items: seq<BundleItem>, limit: nat)
    requires AllSound(g, items, limit)
    ensures forall i | 0 <= i < |items| :: items[i].Item? && Decode(items[i].data).Some?
  {
    forall i | 0 <= i < |items| ensures items[i].Item? && Decode(items[i].data).Some? {
      assert Carries(items[i], OctetsIn(items[..i]), limit);
    }
  }

  lemma AcceptedIsStored(files: Files, nextEvent: nat, budget: Budget, g: Config, user: string,
                         items: seq<BundleItem>, env: Env) returns (pending: seq<Pending>)
    requires FreshDir(files, nextEvent, user, env)
    requires Persist(files, nextEvent, budget, g, user, items, env).verdict == Accepted
    ensures |pending| <= MAX_BUNDLE && Reads(pending, items) && AllSound(g, items, Routable(g.maxMessage))
    ensures var d := Dir(env.stamp, nextEvent, Sanitized(user));
            AddsExactly(files, Persist(files, nextEvent, budget, g, user, items, env).files, d, pending,
                        AfterRenames(files, d, pending, env.stamp, |pending|).paths)
  {
    hide CheckItems, AllSound, StoreBundle, Reads, OctetsIn, Routable, AddsExactly, AfterRenames;
    ItemsIff(g, items, Routable(g.maxMessage));
    pending := CheckItems(g, items, Routable(g.maxMessage)).files;
    ReadsLength(pending, items);
    var d := Dir(env.stamp, nextEvent, Sanitized(user));
    EmptyDirHoldsNothing(files, d);
    AllOrNothing(files, d, pending, env);
  }

  /** The contents law. An accepted bundle leaves, for each of its entries in order, one new
      file with exactly the octets the entry's data decodes to, under its sanitized name
      if that is free and under another ordinary one if not; all else stays. */
  lemma BundleStored(files: Files, nextEvent: nat, budget: Budget, g: Config, user: string,
                     items: seq<BundleItem>, env: Env)
    returns (paths: seq<Path>)
    requires FreshDir(files, nextEvent, user, env)
    requires Persist(files, nextEvent, budget, g, user, items, env).verdict == Accepted
    ensures Holds(files, Persist(files, nextEvent, budget, g, user, items, env).files,
                  Dir(env.stamp, nextEvent, Sanitized(user)), items, paths)
  {
    var after := Persist(files, nextEvent, budget, g, user, items, env).files;
    var d := Dir(env.stamp, nextEvent, Sanitized(user));
    hide Persist, AllSound, AddsExactly, AfterRenames, Holds, InUse, Plain, Routable, SafeName, Sanitized;
    var pending := AcceptedIsStored(files, nextEvent, budget, g, user, items, env);
    paths := AfterRenames(files, d, pending, env.stamp, |pending|).paths;
    SoundDecodes(g, items, Routable(g.maxMessage));
    EmptyDirHoldsNothing(files, d);
    forall i | 0 <= i < |items|
      ensures |paths| == |items| && paths[i].Stored? && Plain(paths[i].name)
      ensures paths[i].name == Sanitized(items[i].name) <==> !InUse(Sanitized(items[i].name), paths, i, |items|)
    {
      SanitizedIsSafe(items[i].name);
      PlacedName(files, d, pending, env.stamp, i);
    }
    LengthsAgree(files, after, d, pending, paths);
    HoldsFrom(files, after, d, pending, items, paths);
  }

  lemma LengthsAgree(files: Files, after: Files, d: Dir, pending: seq<Pending>, paths: seq<Path>)
    requires AddsExactly(files, after, d, pending, paths)
    ensures |paths| == |pending|
  {}

  /** In particular, data written by an encoder comes back. */
  lemma EncodedComesBack(files: Files, after: Files, d: Dir, items: seq<BundleItem>, paths: seq<Path>, i: nat,
                         x: seq<byte>)
    requires Holds(files, after, d, items, paths) && i < |items| && items[i].Item? && items[i].data == Encode(x)
    ensures paths[i] in after && after[paths[i]] == x
  {
    EncodeDecode(x);
  }

  /* ------------------------------------------------------------- bundles a client builds */

  /** A file as the client bundles it: with its size and its hash. */
  datatype Bundled = Bundled(name: string, content: seq<byte>)

  function ItemFor(g: Config, f: Bundled): BundleItem {
    Item(f.name, Encode(f.content), Some(Some(|f.content|)), Some(Some(g.sha256(f.content))))
  }

  function ItemsFor(g: Config, files: seq<Bundled>): seq<BundleItem> {
    if files == [] then [] else ItemsFor(g, files[..|files| - 1]) + [ItemFor(g, files[|files| - 1])]
  }

  function SizeOf(files: seq<Bundled>): nat {
    if files == [] then 0 else SizeOf(files[..|files| - 1]) + |files[|files| - 1].content|
  }

  /** Hashes are 64 hexadecimal digits. */
  predicate HashesRead(g: Config, files: seq<Bundled>) {
    forall f <- files :: g.sha256(f.content) != "" && HashReads(g.sha256(f.content))
  }

  lemma BuiltItem(g: Config, f: Bundled, before: nat, limit: nat)
    requires before <= limit && g.sha256(f.content) != "" && HashReads(g.sha256(f.content))
    ensures Octets(ItemFor(g, f)) == f.content && Agrees(g, ItemFor(g, f))
    ensures Carries(ItemFor(g, f), before, limit) <==> before + |f.content| <= limit
  {
    hide Encode, Decode;
    EncodeDecode(f.content);
    GatesExact(f.content, limit, before);
  }

  /** Of a bundle a client builds the server asks only that the sizes add up to what can
      still be forwarded: the gates before decoding never bite. */
  lemma {:induction false} BuiltSound(g: Config, files: seq<Bundled>, limit: nat)
    requires HashesRead(g, files)
    ensures AllSound(g, ItemsFor(g, files), limit) <==> SizeOf(files) <= limit
    ensures OctetsIn(ItemsFor(g, files)) == SizeOf(files) && |ItemsFor(g, files)| == |files|
  {
    if files != [] {
      hide AllSound, Carries, Agrees, Octets, HashReads, ItemFor;
      var init, f := files[..|files| - 1], files[|files| - 1];
      assert f in files;
      BuiltSound(g, init, limit);
      var items := ItemsFor(g, files);
      assert items[..|items| - 1] == ItemsFor(g, init);
      SoundSnoc(g, items, limit);
      BuiltItem(g, f, if SizeOf(init) <= limit then SizeOf(init) else 0, limit);
    }
  }

  /** Exactly when a client's bundle of files is accepted. */
  lemma ClientBundleAcceptedIff(files: Files, nextEvent: nat, budget: Budget, g: Config, user: string,
                                bundle: seq<Bundled>, env: Env)
    requires FreshDir(files, nextEvent, user, env) && HashesRead(g, bundle)
    ensures Persist(files, nextEvent, budget, g, user, ItemsFor(g, bundle), env).verdict == Accepted
            <==> && |bundle| <= 64 && SizeOf(bundle) <= Routable(g.maxMessage)
                 && ChargedAt(budget, env.chargeClock) + SizeOf(bundle) <= UPLOAD_LIMIT
                 && env.dirOk && env.partOk >= |bundle| && env.commitOk >= |bundle|
  {
    hide Persist, AllSound, FreshDir, HashesRead, Routable;
    BuiltSound(g, bundle, Routable(g.maxMessage));
    BundleAcceptedIff(files, nextEvent, budget, g, user, ItemsFor(g, bundle), env);
  }
}
