/** RemoteclipboardCliForLinux/clipboard_sync.cpp, `handleChunkTransfer`: the client that
    rebuilds relayed files. It ignores chunk numbers and reads sizes as 32-bit numbers. */
module Receiver {
  import opened Basics
  import opened Base64
  import opened FileNames
  import opened Messages

  /** A file in a batch directory below the receive directory. */
  datatype LocalPath = LocalPath(batch: string, name: string)

  type LocalFiles = map<LocalPath, seq<byte>>

  datatype Incoming = Incoming(sha256: string, expectedSize: nat, receivedSize: nat, targetPath: LocalPath)

  type Openings = map<string, Incoming>

  /** A file reported as saved, and by which message of the connection. */
  datatype SavedFile = SavedFile(path: LocalPath, content: seq<byte>, at: nat)

  datatype Local = Local(files: LocalFiles, incoming: Openings, saved: seq<SavedFile>, handled: nat)

  /** A relayed message, its sender, the time stamp it is handled at, and whether a file
      can be opened. */
  datatype Item = Item(m: Message, sender: string, stamp: string, openOk: bool)

  const TWO_32: nat := 0x1_0000_0000

  /** `static_cast<std::size_t>(message.value("size", 0))`: through a 32-bit `int`. */
  function IntToSize(n: nat): nat {
    var low := n % TWO_32;
    if low < TWO_32 / 2 then low else TWO_64 - TWO_32 + low
  }

  function Taken(files: LocalFiles, batch: string): set<string> {
    set p | p in files && p.batch == batch :: p.name
  }

  function BatchOf(i: Item): string {
    i.stamp + "-" + Sanitized(i.sender)
  }

  function TargetFor(files: LocalFiles, i: Item): LocalPath
    requires i.m.TransferStart?
  {
    LocalPath(BatchOf(i), UniqueName(Taken(files, BatchOf(i)), Sanitized(i.m.name), i.stamp))
  }

  /** An opening overwrites a transfer of the same id; that one's file stays behind. */
  function HandleOpening(l: Local, i: Item): Local
    requires i.m.TransferStart?
  {
    if !i.openOk then l
    else
      var target := TargetFor(l.files, i);
      l.(files := l.files[target := []],
         incoming := l.incoming[i.m.id := Incoming(i.m.sha256, IntToSize(i.m.size), 0, target)])
  }

  function HeldBy(files: LocalFiles, p: LocalPath): seq<byte> {
    if p in files then files[p] else []
  }

  /** The chunk number is not looked at. */
  ghost function HandlePiece(l: Local, m: Message): Local
    requires m.TransferChunk?
  {
    if m.id !in l.incoming || Decode(m.data).None? then l
    else
      var t, octets := l.incoming[m.id], Decode(m.data).value;
      l.(files := l.files[t.targetPath := HeldBy(l.files, t.targetPath) + octets],
         incoming := l.incoming[m.id := t.(receivedSize := t.receivedSize + |octets|)])
  }

  predicate Passes(t: Incoming, content: seq<byte>, sha256: seq<byte> -> string) {
    && (t.expectedSize > 0 ==> t.receivedSize == t.expectedSize)
    && (t.sha256 != "" ==> sha256(content) == t.sha256)
  }

  function HandleCompletion(l: Local, m: Message, sha256: seq<byte> -> string): Local
    requires m.TransferComplete?
  {
    if m.id !in l.incoming then l
    else
      var t := l.incoming[m.id];
      var content := HeldBy(l.files, t.targetPath);
      if Passes(t, content, sha256) then
        l.(incoming := l.incoming - {m.id}, saved := l.saved + [SavedFile(t.targetPath, content, l.handled)])
      else l.(incoming := l.incoming - {m.id}, files := l.files - {t.targetPath})
  }

  ghost function Step(l: Local, i: Item, sha256: seq<byte> -> string): Local {
    var after :=
      if i.m.TransferStart? then HandleOpening(l, i)
      else if i.m.TransferChunk? then HandlePiece(l, i.m)
      else if i.m.TransferComplete? then HandleCompletion(l, i.m, sha256)
      else l;
    after.(handled := l.handled + 1)
  }

  function Targets(incoming: Openings): set<LocalPath> {
    set id | id in incoming :: incoming[id].targetPath
  }

  /** `close`: what is incomplete is removed. */
  function Abandon(l: Local): Local {
    l.(files := l.files - Targets(l.incoming), incoming := map[])
  }

  class ReceivingClient {
    const sha256: seq<byte> -> string
    var files: LocalFiles
    var incomingTransfers: Openings
    var saved: seq<SavedFile>
    var handled: nat

    ghost function View(): Local
      reads this
    {
      Local(files, incomingTransfers, saved, handled)
    }

    constructor (hash: seq<byte> -> string, present: LocalFiles)
      ensures sha256 == hash && View() == Local(present, map[], [], 0)
    {
      sha256, files, incomingTransfers, saved, handled := hash, present, map[], [], 0;
    }

    method HandleChunkTransfer(i: Item)
      modifies this
      ensures View() == Step(old(View()), i, sha256)
    {
      if i.m.TransferStart? {
        HandleTransferStart(i);
      } else if IsTransfer(i.m) && i.m.id in incomingTransfers {
        if i.m.TransferChunk? {
          HandleTransferChunk(i.m);
        } else {
          HandleTransferComplete(i.m);
        }
      }
      handled := handled + 1;
    }

    method HandleTransferStart(i: Item)
      requires i.m.TransferStart?
      modifies this
      ensures View() == HandleOpening(old(View()), i)
      ensures !i.openOk ==> View() == old(View())
    {
      var fileName := SanitizeFileName(i.m.name);
      var name := MakeFilePathUnique(Taken(files, BatchOf(i)), fileName, i.stamp);
      var target := LocalPath(BatchOf(i), name);
      if !i.openOk {
        return;
      }
      files := files[target := []];
      incomingTransfers := incomingTransfers[i.m.id := Incoming(i.m.sha256, IntToSize(i.m.size), 0, target)];
    }

    method HandleTransferChunk(m: Message)
      requires m.TransferChunk? && m.id in incomingTransfers
      modifies this
      ensures View() == HandlePiece(old(View()), m)
    {
      var transfer := incomingTransfers[m.id];
      var ok, decoded := DecodeBase64(m.data);
      if !ok {
        return;
      }
      files := files[transfer.targetPath := HeldBy(files, transfer.targetPath) + decoded];
      incomingTransfers := incomingTransfers[m.id := transfer.(receivedSize := transfer.receivedSize + |decoded|)];
    }

    method HandleTransferComplete(m: Message)
      requires m.TransferComplete? && m.id in incomingTransfers
      modifies this
      ensures View() == HandleCompletion(old(View()), m, sha256)
    {
      var transfer := incomingTransfers[m.id];
      var held := HeldBy(files, transfer.targetPath);
      incomingTransfers := incomingTransfers - {m.id};
      if transfer.expectedSize > 0 && transfer.receivedSize != transfer.expectedSize {
        files := files - {transfer.targetPath};
        return;
      }
      if transfer.sha256 != "" && sha256(held) != transfer.sha256 {
        files := files - {transfer.targetPath};
        return;
      }
      saved := saved + [SavedFile(transfer.targetPath, held, handled)];
    }

    method Close()
      modifies this
      ensures View() == Abandon(old(View()))
    {
      var pending := incomingTransfers;
      while pending != map[]
        invariant incomingTransfers == old(incomingTransfers) && saved == old(saved) && handled == old(handled)
        invariant files - Targets(pending) == old(files) - Targets(old(incomingTransfers))
        decreases |pending|
      {
        var id :| id in pending;
        TargetsWithout(pending, id);
        MinusTwice(files, pending[id].targetPath, Targets(pending - {id}));
        files := files - {pending[id].targetPath};
        pending := pending - {id};
      }
      assert Targets(pending) == {};
      assert files - {} == files;
      incomingTransfers := map[];
    }
  }

  lemma TargetsWithout(t: Openings, id: string)
    requires id in t
    ensures Targets(t) == {t[id].targetPath} + Targets(t - {id}) && |t - {id}| < |t|
  {
    assert t.Keys == (t - {id}).Keys + {id};
  }

  lemma MinusTwice(files: LocalFiles, p: LocalPath, more: set<LocalPath>)
    ensures (files - {p}) - more == files - ({p} + more)
  {}

  /* ------------------------------------------------------------- what it has rebuilt */

  function LogOf(items: seq<Item>): seq<Message> {
    if items == [] then [] else LogOf(items[..|items| - 1]) + [items[|items| - 1].m]
  }

  ghost function Handled(present: LocalFiles, items: seq<Item>, sha256: seq<byte> -> string): Local {
    if items == [] then Local(present, map[], [], 0)
    else Step(Handled(present, items[..|items| - 1], sha256), items[|items| - 1], sha256)
  }

  /** Opened and not completed since. */
  function Unfinished(log: seq<Message>, id: string): bool {
    log != [] &&
    var m := log[|log| - 1];
    if About(m, id) && m.TransferStart? then true
    else if About(m, id) && m.TransferComplete? then false
    else Unfinished(log[..|log| - 1], id)
  }

  lemma UnfinishedSnoc(log: seq<Message>, m: Message, id: string)
    ensures Unfinished(log + [m], id)
            == if About(m, id) && m.TransferStart? then true
               else if About(m, id) && m.TransferComplete? then false
               else Unfinished(log, id)
  {
    assert (log + [m])[..|log|] == log;
  }

  /** An entry is what the relayed messages about its id say. */
  ghost predicate Mirrors(files: LocalFiles, t: Incoming, p: Progress) {
    && p.opening.Some? && p.opening.value.TransferStart?
    && t.sha256 == p.opening.value.sha256 && t.expectedSize == IntToSize(p.opening.value.size)
    && t.receivedSize == |p.bytes| && t.targetPath in files && files[t.targetPath] == p.bytes
  }

  /** Targets are files of their own, and saved files are left alone. */
  predicate Separate(l: Local) {
    && (forall i, j | i in l.incoming && j in l.incoming && i != j ::
        l.incoming[i].targetPath != l.incoming[j].targetPath)
    && (forall f <- l.saved :: f.path in l.files && l.files[f.path] == f.content)
    && (forall f <- l.saved :: forall id <- l.incoming :: l.incoming[id].targetPath != f.path)
  }

  ghost predicate AllMirror(l: Local, log: seq<Message>) {
    && (forall id <- l.incoming :: Mirrors(l.files, l.incoming[id], Track(log, id)))
    && (forall id :: id in l.incoming <==> Unfinished(log, id))
  }

  /** The disk opens files and the batch directory is not full. */
  predicate Roomy(l: Local, i: Item) {
    i.m.TransferStart? ==> i.openOk && |Taken(l.files, BatchOf(i))| < MAX_PROBE
  }

  ghost predicate AllRoomy(present: LocalFiles, items: seq<Item>, sha256: seq<byte> -> string) {
    items == [] ||
    (AllRoomy(present, items[..|items| - 1], sha256)
     && Roomy(Handled(present, items[..|items| - 1], sha256), items[|items| - 1]))
  }

  lemma FreshTarget(files: LocalFiles, i: Item)
    requires i.m.TransferStart? && |Taken(files, BatchOf(i))| < MAX_PROBE
    ensures TargetFor(files, i) !in files
  {
    UniqueNameIsFree(Taken(files, BatchOf(i)), Sanitized(i.m.name), i.stamp);
    var t := TargetFor(files, i);
    assert t in files ==> t.name in Taken(files, BatchOf(i));
  }

  /** Where a relayed file goes: into the batch of its sender and time, under its sanitized
      name exactly when that is free there, never onto another file. */
  lemma TargetIs(files: LocalFiles, i: Item)
    requires i.m.TransferStart? && |Taken(files, BatchOf(i))| < MAX_PROBE
    ensures var target := TargetFor(files, i);
            && target !in files && target.batch == i.stamp + "-" + Sanitized(i.sender)
            && (target.name == Sanitized(i.m.name) <==> LocalPath(target.batch, Sanitized(i.m.name)) !in files)
            && Plain(target.name)
  {
    hide Sanitized, UniqueName, Plain;
    FreshTarget(files, i);
    SanitizedIsSafe(i.m.name);
    UniqueNamePlain(Taken(files, BatchOf(i)), Sanitized(i.m.name), i.stamp);
    var p := LocalPath(BatchOf(i), Sanitized(i.m.name));
    assert p.name in Taken(files, BatchOf(i)) <==> p in files;
  }

  /** Exactly the files of incomplete transfers go when the connection closes. */
  lemma AbandonIs(l: Local)
    ensures var after := Abandon(l);
            && after.incoming == map[] && after.saved == l.saved
            && (forall p :: p in after.files
                  <==> p in l.files && forall id <- l.incoming :: l.incoming[id].targetPath != p)
            && (forall p <- after.files :: after.files[p] == l.files[p])
    ensures Separate(l) ==> forall f <- l.saved :: f.path in Abandon(l).files && Abandon(l).files[f.path] == f.content
  {
    forall p | p in Targets(l.incoming) ensures exists id :: id in l.incoming && l.incoming[id].targetPath == p {
      var id :| id in l.incoming && l.incoming[id].targetPath == p;
    }
  }

  lemma OpeningStep(l: Local, log: seq<Message>, i: Item)
    requires AllMirror(l, log) && Separate(l) && i.m.TransferStart? && Roomy(l, i)
    ensures AllMirror(HandleOpening(l, i), log + [i.m]) && Separate(HandleOpening(l, i))
  {
    FreshTarget(l.files, i);
    var after, target := HandleOpening(l, i), TargetFor(l.files, i);
    forall id ensures id in after.incoming <==> Unfinished(log + [i.m], id) {
      UnfinishedSnoc(log, i.m, id);
    }
    forall id <- after.incoming ensures Mirrors(after.files, after.incoming[id], Track(log + [i.m], id)) {
      TrackSnoc(log, i.m, id);
      if id != i.m.id { assert Mirrors(l.files, l.incoming[id], Track(log, id)); }
    }
    forall id <- l.incoming ensures l.incoming[id].targetPath != target {
      assert Mirrors(l.files, l.incoming[id], Track(log, id));
    }
  }

  lemma PieceHeard(l: Local, log: seq<Message>, m: Message)
    requires m.TransferChunk? && m.id in l.incoming && Mirrors(l.files, l.incoming[m.id], Track(log, m.id))
    ensures var after := HandlePiece(l, m);
            m.id in after.incoming && Mirrors(after.files, after.incoming[m.id], Track(log + [m], m.id))
  {
    hide Decode, Track, IntToSize;
    TrackSnoc(log, m, m.id);
    var p := Track(log, m.id);
    assert p.bytes + [] == p.bytes;
  }

  lemma PieceElsewhere(l: Local, log: seq<Message>, m: Message, id: string)
    requires m.TransferChunk? && id != m.id && id in l.incoming && Mirrors(l.files, l.incoming[id], Track(log, id))
    requires m.id in l.incoming ==> l.incoming[m.id].targetPath != l.incoming[id].targetPath
    ensures var after := HandlePiece(l, m);
            id in after.incoming && Mirrors(after.files, after.incoming[id], Track(log + [m], id))
  {
    hide Decode, Track, IntToSize;
    TrackSnoc(log, m, id);
  }

  lemma PieceStep(l: Local, log: seq<Message>, m: Message)
    requires AllMirror(l, log) && Separate(l) && m.TransferChunk?
    ensures AllMirror(HandlePiece(l, m), log + [m]) && Separate(HandlePiece(l, m))
  {
    hide Decode, Track, Unfinished, Mirrors;
    var after := HandlePiece(l, m);
    forall id ensures id in after.incoming <==> Unfinished(log + [m], id) {
      UnfinishedSnoc(log, m, id);
    }
    forall id <- after.incoming ensures Mirrors(after.files, after.incoming[id], Track(log + [m], id)) {
      if id == m.id {
        PieceHeard(l, log, m);
      } else {
        PieceElsewhere(l, log, m, id);
      }
    }
    if m.id in l.incoming {
      PieceHasFile(l, log, m.id);
    }
  }

  lemma PieceHasFile(l: Local, log: seq<Message>, id: string)
    requires AllMirror(l, log) && id in l.incoming
    ensures l.incoming[id].targetPath in l.files
  {
    assert Mirrors(l.files, l.incoming[id], Track(log, id));
  }

  lemma CompletionStep(l: Local, log: seq<Message>, m: Message, sha256: seq<byte> -> string)
    requires AllMirror(l, log) && Separate(l) && m.TransferComplete?
    ensures AllMirror(HandleCompletion(l, m, sha256), log + [m]) && Separate(HandleCompletion(l, m, sha256))
  {
    var after := HandleCompletion(l, m, sha256);
    forall id ensures id in after.incoming <==> Unfinished(log + [m], id) {
      UnfinishedSnoc(log, m, id);
    }
    forall id <- after.incoming ensures Mirrors(after.files, after.incoming[id], Track(log + [m], id)) {
      TrackSnoc(log, m, id);
      assert Mirrors(l.files, l.incoming[id], Track(log, id));
    }
    if m.id in l.incoming { assert Mirrors(l.files, l.incoming[m.id], Track(log, m.id)); }
  }

  lemma OtherStep(l: Local, log: seq<Message>, m: Message)
    requires AllMirror(l, log) && !IsTransfer(m)
    ensures AllMirror(l, log + [m])
  {
    forall id ensures Unfinished(log + [m], id) <==> Unfinished(log, id) { UnfinishedSnoc(log, m, id); }
    forall id ensures Track(log + [m], id) == Track(log, id) { TrackSnoc(log, m, id); }
  }

  lemma StepMirrors(l: Local, log: seq<Message>, i: Item, sha256: seq<byte> -> string)
    requires AllMirror(l, log) && Separate(l) && Roomy(l, i)
    ensures AllMirror(Step(l, i, sha256), log + [i.m]) && Separate(Step(l, i, sha256))
  {
    if i.m.TransferStart? {
      OpeningStep(l, log, i);
    } else if i.m.TransferChunk? {
      PieceStep(l, log, i.m);
    } else if i.m.TransferComplete? {
      CompletionStep(l, log, i.m, sha256);
    } else {
      OtherStep(l, log, i.m);
    }
  }

  /** After any relayed messages: what is open is what was opened and not completed, each
      with a file of its own that holds what the messages about it carry, and files once
      saved stay as they were. */
  lemma {:induction false} ReceiverMirrors(present: LocalFiles, items: seq<Item>, sha256: seq<byte> -> string)
    requires AllRoomy(present, items, sha256)
    ensures var l := Handled(present, items, sha256);
            AllMirror(l, LogOf(items)) && Separate(l) && l.handled == |items|
  {
    if items != [] {
      var init := items[..|items| - 1];
      ReceiverMirrors(present, init, sha256);
      StepMirrors(Handled(present, init, sha256), LogOf(init), items[|items| - 1], sha256);
    }
  }

  /** The receiver's verdict on a relayed completion, exactly: the file is saved if and
      only if the declared size, read as the receiver reads it, is zero or right, and the
      hash, if any, is right; and then it holds what was relayed since the opening. */
  lemma SavedIff(present: LocalFiles, items: seq<Item>, last: Item, sha256: seq<byte> -> string)
    requires AllRoomy(present, items, sha256) && last.m.TransferComplete?
    requires Unfinished(LogOf(items), last.m.id)
    ensures var (l, after) := (Handled(present, items, sha256), Handled(present, items + [last], sha256));
            var p := Track(LogOf(items), last.m.id);
            && p.opening.Some? && p.opening.value.TransferStart?
            && var opening := p.opening.value;
            if (IntToSize(opening.size) == 0 || |p.bytes| == IntToSize(opening.size))
               && (opening.sha256 == "" || sha256(p.bytes) == opening.sha256)
            then
              && |after.saved| == |l.saved| + 1
              && var f := after.saved[|l.saved|];
              f.at == |items| && f.content == p.bytes && f.path in after.files && after.files[f.path] == p.bytes
              && after.files == l.files
            else
              && after.saved == l.saved && last.m.id in l.incoming
              && after.files == l.files - {l.incoming[last.m.id].targetPath}
  {
    ReceiverMirrors(present, items, sha256);
    assert (items + [last])[..|items|] == items;
    var l := Handled(present, items, sha256);
    assert Mirrors(l.files, l.incoming[last.m.id], Track(LogOf(items), last.m.id));
  }

  /** When the size check lets a complete file pass, for every size the JSON field can
      hold: below two gigabytes, where the number survives; at multiples of four gigabytes,
      which read as zero; and in the last two gigabytes, which read as negative numbers
      that the conversion to `size_t` turns back. */
  lemma SizeCheckIff(size: nat)
    requires size < TWO_64
    ensures IntToSize(size) == 0 || IntToSize(size) == size
            <==> size < TWO_32 / 2 || size % TWO_32 == 0 || size >= TWO_64 - TWO_32 / 2
  {
    SizeReadsAs(size / TWO_32, size % TWO_32);
  }

  lemma SizeReadsAs(high: nat, low: nat)
    requires high < TWO_32 && low < TWO_32
    ensures var size := high * TWO_32 + low;
            && IntToSize(size) == (if low < TWO_32 / 2 then low else TWO_64 - TWO_32 + low)
            && (IntToSize(size) == size <==> if low < TWO_32 / 2 then high == 0 else high == TWO_32 - 1)
            && (high == 0 <==> size < TWO_32) && (high == TWO_32 - 1 <==> size >= TWO_64 - TWO_32)
  {
    assert (high * TWO_32 + low) % TWO_32 == low;
  }

  /** So a file of two gigabytes that arrived complete is thrown away. */
  lemma TwoGigabytesDiscarded(t: Incoming, content: seq<byte>, sha256: seq<byte> -> string)
    requires t.expectedSize == IntToSize(TWO_32 / 2) && t.receivedSize == |content| == TWO_32 / 2
    ensures !Passes(t, content, sha256)
  {}
}
