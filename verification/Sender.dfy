/** RemoteclipboardCliForLinux/clipboard_sync.cpp, `sendChunkedFiles`: a file becomes an
    opening, numbered chunks of at most 512 KiB, and a completion. */
module Sender {
  import opened Basics
  import opened Numerals
  import opened Base64
  import opened Messages
  import opened Protocol

  /** A file to send, the clock tick its transfer id is made from, and its hash. */
  datatype Source = Source(readable: bool, tick: nat, name: string, content: seq<byte>, sha256: string)

  function IdOf(s: Source): string {
    Decimal(s.tick) + ("-" + s.name)
  }

  /** What one `read` of the buffer's size delivers. */
  function NextRead(rest: seq<byte>): (n: nat)
    ensures n <= |rest| && n <= CHUNK_BYTES && (rest != [] ==> n > 0)
  {
    if |rest| < CHUNK_BYTES then |rest| else CHUNK_BYTES
  }

  function ChunksFrom(id: string, sequence: nat, rest: seq<byte>): seq<Message>
    decreases |rest|
  {
    if rest == [] then []
    else
      var n := NextRead(rest);
      [TransferChunk(id, sequence, Encode(rest[..n]))] + ChunksFrom(id, sequence + 1, rest[n..])
  }

  function Opening(s: Source): Message {
    TransferStart(IdOf(s), s.name, |s.content|, s.sha256)
  }

  /** Everything that is sent for one file. */
  function Script(s: Source): seq<Message> {
    [Opening(s)] + ChunksFrom(IdOf(s), 0, s.content) + [TransferComplete(IdOf(s))]
  }

  /** The scripts of the readable files from index `i` on. */
  function Scripts(sources: seq<Source>, i: nat): seq<Message>
    decreases |sources| - i
  {
    if i >= |sources| then []
    else if sources[i].readable then Script(sources[i]) + Scripts(sources, i + 1)
    else Scripts(sources, i + 1)
  }

  function Upto<T>(s: seq<T>, n: nat): seq<T> {
    if n < |s| then s[..n] else s
  }

  /** How many of `left` octets go out while the sends succeed. */
  function SentOf(left: nat, answers: seq<int>): (n: nat)
    ensures n <= left
    decreases |answers|
  {
    if left == 0 || answers == [] || answers[0] <= 0 || answers[0] > left then 0
    else answers[0] + SentOf(left - answers[0], answers[1..])
  }

  /** The sends that count: each took something, and together no more than there was. */
  predicate Went(left: nat, answers: seq<int>) {
    (forall a <- answers :: a > 0) && Sum(answers) <= left
  }

  /** What goes out is the sum of the answers up to the first that fails, or until nothing
      is left or asked. */
  lemma {:induction false} SentIsSum(left: nat, answers: seq<int>, k: nat)
    requires k <= |answers| && Went(left, answers[..k])
    requires k < |answers| ==> answers[k] <= 0 || Sum(answers[..k]) + answers[k] > left || Sum(answers[..k]) == left
    ensures SentOf(left, answers) == Sum(answers[..k])
  {
    if k > 0 {
      assert answers[..k][1..] == answers[1..][..k - 1] && answers[..k][0] in answers[..k];
      var more := answers[1..][..k - 1];
      forall i | 0 <= i < |more| ensures more[i] > 0 {
        assert answers[..k][i + 1] in answers[..k];
      }
      SumPositive(more);
      SentIsSum(left - answers[0], answers[1..], k - 1);
    }
  }

  lemma {:induction false} SumPositive(answers: seq<int>)
    requires forall a <- answers :: a > 0
    ensures Sum(answers) >= 0
  {
    if answers != [] {
      assert answers[0] in answers && forall a <- answers[1..] :: a in answers;
      SumPositive(answers[1..]);
    }
  }

  /** `writeAll`: partial sends until the payload is out, or until one fails. What left is
      the prefix of the payload that the sends took, and success means all of it. */
  method WriteAll(payload: string, answers: seq<int>) returns (ok: bool, written: string)
    requires forall a <- answers :: a <= |payload|
    ensures written == payload[..SentOf(|payload|, answers)]
    ensures ok <==> written == payload
  {
    var offset: nat, call: nat := 0, 0;
    while offset < |payload| && call < |answers|
      invariant offset <= |payload| && call <= |answers|
      invariant offset + SentOf(|payload| - offset, answers[call..]) == SentOf(|payload|, answers)
      decreases |answers| - call
    {
      assert answers[call..][1..] == answers[call + 1..];
      var sent := answers[call];
      if sent <= 0 || sent > |payload| - offset {
        return false, payload[..offset];
      }
      offset := offset + sent;
      call := call + 1;
    }
    return offset == |payload|, payload[..offset];
  }

  /** The client's end of the connection: sends succeed until `room` is used up. */
  class Outlet {
    var sent: seq<Message>
    var room: nat

    constructor (capacity: nat)
      ensures sent == [] && room == capacity
    {
      sent, room := [], capacity;
    }

    method SendJson(m: Message) returns (ok: bool)
      modifies this
      ensures ok == (old(room) > 0)
      ensures sent == old(sent) + Upto([m], old(room)) && room == (if ok then old(room) - 1 else 0)
      ensures sent == if old(room) > 0 then old(sent) + [m] else old(sent)
    {
      if room == 0 {
        return false;
      }
      sent, room := sent + [m], room - 1;
      ok := true;
    }

    /** The read loop of one file. The stream goes bad with the first short read, and a
        read that delivers nothing ends the loop: so the last chunk is never empty. */
    method SendFile(s: Source) returns (ok: bool)
      modifies this
      ensures sent == old(sent) + Upto(Script(s), old(room))
      ensures ok == (old(room) >= |Script(s)|)
      ensures room == if ok then old(room) - |Script(s)| else 0
      ensures if ok then sent == old(sent) + Script(s) else sent == old(sent) + Script(s)[..old(room)]
    {
      var id := IdOf(s);
      ok := SendJson(Opening(s));
      if !ok {
        return false;
      }
      var rest, good, sequence := s.content, true, 0;
      ghost var done := [Opening(s)];
      ghost var last := [TransferComplete(id)];
      assert Script(s) == done + (ChunksFrom(id, 0, s.content) + last);
      while good
        invariant Script(s) == done + (ChunksFrom(id, sequence, rest) + last)
        invariant sent == old(sent) + done && old(room) == |done| + room
        invariant !good ==> rest == []
        decreases |rest|, good
      {
        var count := NextRead(rest);
        good := count == CHUNK_BYTES;
        if count <= 0 {
          break;
        }
        var m := TransferChunk(id, sequence, Encode(rest[..count]));
        ghost var more := ChunksFrom(id, sequence + 1, rest[count..]);
        Regroup(done, m, more, last);
        ok := SendJson(m);
        if !ok {
          assert Upto(Script(s), |done|) == done;
          return false;
        }
        Assoc(old(sent), done, [m]);
        done := done + [m];
        sequence, rest := sequence + 1, rest[count..];
      }
      assert [] + last == last;
      ok := SendJson(TransferComplete(id));
      assert Upto(Script(s), |done|) == done;
      Assoc(old(sent), done, last);
    }

    method SendChunkedFiles(sources: seq<Source>) returns (ok: bool)
      modifies this
      ensures sent == old(sent) + Upto(Scripts(sources, 0), old(room))
      ensures ok == (old(room) >= |Scripts(sources, 0)|)
      ensures if ok then sent == old(sent) + Scripts(sources, 0)
              else sent == old(sent) + Scripts(sources, 0)[..old(room)]
    {
      ghost var done: seq<Message> := [];
      assert [] + Scripts(sources, 0) == Scripts(sources, 0);
      for i := 0 to |sources|
        invariant done + Scripts(sources, i) == Scripts(sources, 0)
        invariant sent == old(sent) + done && old(room) == |done| + room
      {
        if !sources[i].readable {
          continue;
        }
        ok := SendFile(sources[i]);
        CutInside(old(sent), done, Script(sources[i]), Scripts(sources, i + 1), old(room));
        if !ok {
          return false;
        }
        done := done + Script(sources[i]);
      }
      assert done + [] == done;
      ok := true;
    }
  }

  lemma Regroup<T>(done: seq<T>, m: T, more: seq<T>, last: seq<T>)
    ensures done + (([m] + more) + last) == (done + [m]) + (more + last)
  {}

  lemma CutInside<T>(before: seq<T>, done: seq<T>, script: seq<T>, later: seq<T>, room: nat)
    requires room >= |done|
    ensures room < |done| + |script| ==>
              (before + done) + Upto(script, room - |done|) == before + Upto(done + (script + later), room)
    ensures room >= |done| + |script| ==>
              (before + done) + Upto(script, room - |done|) == before + (done + script)
    ensures done + (script + later) == (done + script) + later
  {}

  /* ------------------------------------------------------------- what a script says */

  /** A file cut into messages: an opening with the file's size, chunks numbered from 0
      that pass the size checks and decode to the file, a completion. */
  ghost predicate WellCut(script: seq<Message>, opening: Message, content: seq<byte>) {
    var n := |script|;
    && n >= 2 && opening.TransferStart? && opening.size == |content|
    && script[0] == opening && script[n - 1] == TransferComplete(opening.id)
    && (forall k | 0 < k < n - 1 :: ChunkAt(script[k], opening.id, k - 1))
    && Track(script[..n - 1], opening.id) == Progress(Some(opening), n - 2, content)
  }

  ghost predicate ChunkAt(m: Message, id: string, k: nat) {
    && m.TransferChunk? && m.id == id && m.seqNo == k
    && ChunkGate(m.data) && Decode(m.data).Some? && |Decoded(m.data)| <= CHUNK_BYTES
  }

  lemma PieceFits(piece: seq<byte>)
    requires |piece| <= CHUNK_BYTES
    ensures ChunkGate(Encode(piece)) && Decode(Encode(piece)).Some? && Decoded(Encode(piece)) == piece
  {
    EncodeDecode(piece);
    GatesExact(piece, 0, 0);
  }

  lemma {:induction false} ChunksAreNumbered(id: string, sequence: nat, rest: seq<byte>)
    ensures NumberedFrom(ChunksFrom(id, sequence, rest), id, sequence)
    decreases |rest|
  {
    if rest != [] {
      var n := NextRead(rest);
      PieceFits(rest[..n]);
      ChunksAreNumbered(id, sequence + 1, rest[n..]);
      NumberedCons(TransferChunk(id, sequence, Encode(rest[..n])), ChunksFrom(id, sequence + 1, rest[n..]), id,
                   sequence);
    }
  }

  ghost predicate NumberedFrom(chunks: seq<Message>, id: string, sequence: nat) {
    forall k | 0 <= k < |chunks| :: ChunkAt(chunks[k], id, sequence + k)
  }

  lemma NumberedCons(m: Message, chunks: seq<Message>, id: string, sequence: nat)
    requires ChunkAt(m, id, sequence) && NumberedFrom(chunks, id, sequence + 1)
    ensures NumberedFrom([m] + chunks, id, sequence)
  {}

  lemma TrackPiece(log: seq<Message>, id: string, sequence: nat, piece: seq<byte>)
    requires |piece| <= CHUNK_BYTES
    ensures var p := Track(log, id);
            Track(log + [TransferChunk(id, sequence, Encode(piece))], id)
            == p.(chunks := p.chunks + 1, bytes := p.bytes + piece)
  {
    PieceFits(piece);
    TrackSnoc(log, TransferChunk(id, sequence, Encode(piece)), id);
  }

  lemma Rejoin(bytes: seq<byte>, rest: seq<byte>, n: nat)
    requires n <= |rest|
    ensures (bytes + rest[..n]) + rest[n..] == bytes + rest
  {
    assert rest[..n] + rest[n..] == rest;
  }

  lemma {:induction false} ChunksRebuild(log: seq<Message>, id: string, sequence: nat, rest: seq<byte>)
    ensures var chunks := ChunksFrom(id, sequence, rest);
            var p := Track(log, id);
            Track(log + chunks, id) == p.(chunks := p.chunks + |chunks|, bytes := p.bytes + rest)
    decreases |rest|
  {
    var p := Track(log, id);
    if rest == [] {
      assert log + [] == log && p.bytes + [] == p.bytes;
    } else {
      var n := NextRead(rest);
      var m := TransferChunk(id, sequence, Encode(rest[..n]));
      TrackPiece(log, id, sequence, rest[..n]);
      ChunksRebuild(log + [m], id, sequence + 1, rest[n..]);
      Assoc(log, [m], ChunksFrom(id, sequence + 1, rest[n..]));
      Rejoin(p.bytes, rest, n);
    }
  }

  /** The script of every file, empty or an exact multiple of the chunk size included, is
      a faithful cut: its chunks are numbered from 0, each within the bound, and decode to
      exactly the file. */
  lemma ScriptIsWellCut(s: Source)
    ensures WellCut(Script(s), Opening(s), s.content)
    ensures forall m <- Script(s) :: About(m, IdOf(s))
    ensures Script(s)[0] == TransferStart(Decimal(s.tick) + "-" + s.name, s.name, |s.content|, s.sha256)
  {
    var id := IdOf(s);
    var chunks := ChunksFrom(id, 0, s.content);
    ChunksAreNumbered(id, 0, s.content);
    ChunksRebuild([Opening(s)], id, 0, s.content);
    TrackOpening(Opening(s));
    assert [] + s.content == s.content;
    Framed(Opening(s), chunks, s.content);
  }

  /** Files sent at different ticks, or under different names, get different ids. */
  lemma IdInjective(s: Source, t: Source)
    requires IdOf(s) == IdOf(t)
    ensures s.tick == t.tick && s.name == t.name
  {
    DecimalDenotes(s.tick);
    DecimalDenotes(t.tick);
    Assoc(Decimal(s.tick), ['-'], s.name);
    Assoc(Decimal(t.tick), ['-'], t.name);
    SplitUnique(Decimal(s.tick), s.name, Decimal(t.tick), t.name, '-');
    DecimalInjective(s.tick, t.tick);
  }

  /** How many messages the readable ones of the first `k` files take. */
  function Ahead(sources: seq<Source>, i: nat, k: nat): nat
    requires i <= k <= |sources|
    decreases k - i
  {
    if i == k then 0 else (if sources[i].readable then |Script(sources[i])| else 0) + Ahead(sources, i + 1, k)
  }

  /** The scripts of all readable files, each as a whole and in order, and nothing else. */
  lemma {:induction false} ScriptsInOrder(sources: seq<Source>, i: nat, k: nat)
    requires i <= k < |sources|
    ensures |Scripts(sources, i)| == Ahead(sources, i, |sources|)
    ensures Ahead(sources, i, k) + (if sources[k].readable then |Script(sources[k])| else 0) <= |Scripts(sources, i)|
    ensures sources[k].readable ==>
              Scripts(sources, i)[Ahead(sources, i, k)..Ahead(sources, i, k) + |Script(sources[k])|]
              == Script(sources[k])
    decreases |sources| - i
  {
    hide Script;
    if i < k {
      ScriptsInOrder(sources, i + 1, k);
    } else if i + 1 < |sources| {
      ScriptsInOrder(sources, i + 1, i + 1);
    }
  }

  lemma TrackOpening(m: Message)
    requires m.TransferStart?
    ensures Track([m], m.id) == Progress(Some(m), 0, [])
  {
    TrackSnoc([], m, m.id);
    assert [] + [m] == [m];
  }

  lemma Framed(opening: Message, chunks: seq<Message>, content: seq<byte>)
    requires opening.TransferStart? && opening.size == |content| && NumberedFrom(chunks, opening.id, 0)
    requires Track([opening] + chunks, opening.id) == Progress(Some(opening), |chunks|, content)
    ensures WellCut([opening] + chunks + [TransferComplete(opening.id)], opening, content)
    ensures forall m <- [opening] + chunks + [TransferComplete(opening.id)] :: About(m, opening.id)
  {
    var script := [opening] + chunks + [TransferComplete(opening.id)];
    assert script[..|script| - 1] == [opening] + chunks;
    forall k | 0 < k < |script| - 1 ensures ChunkAt(script[k], opening.id, k - 1) {
      assert script[k] == chunks[k - 1];
    }
  }

  /** `n` chunks are what `size` octets take, one per started 512 KiB. */
  predicate CountFor(n: nat, size: nat) {
    size <= n * CHUNK_BYTES && if size == 0 then n == 0 else (n - 1) * CHUNK_BYTES < size
  }

  lemma CountStep(n: nat, size: nat, taken: nat)
    requires 0 < taken <= size && taken == (if size < CHUNK_BYTES then size else CHUNK_BYTES)
    requires CountFor(n, size - taken)
    ensures CountFor(n + 1, size)
  {}

  lemma {:induction false} ChunkCount(id: string, sequence: nat, rest: seq<byte>)
    ensures CountFor(|ChunksFrom(id, sequence, rest)|, |rest|)
    decreases |rest|
  {
    if rest != [] {
      var n := NextRead(rest);
      ChunkCount(id, sequence + 1, rest[n..]);
      CountStep(|ChunksFrom(id, sequence + 1, rest[n..])|, |rest|, n);
    }
  }

  /** Where the `k`-th chunk ends. */
  function ChunkEnd(size: nat, k: nat): nat {
    if (k + 1) * 524288 < size then (k + 1) * 524288 else size
  }

  lemma SliceLater<T>(s: seq<T>, n: nat, a: nat, b: nat)
    requires a <= b && n + b <= |s|
    ensures s[n..][a..b] == s[n + a..n + b]
  {}

  lemma ChunkSplits(id: string, sequence: nat, rest: seq<byte>)
    requires rest != []
    ensures var n := NextRead(rest);
            && ChunksFrom(id, sequence, rest)[0] == TransferChunk(id, sequence, Encode(rest[..n]))
            && ChunksFrom(id, sequence, rest)[1..] == ChunksFrom(id, sequence + 1, rest[n..])
            && n == ChunkEnd(|rest|, 0) && (|ChunksFrom(id, sequence, rest)| > 1 ==> n == 524288 < |rest|)
  {
    hide Encode;
    var n := NextRead(rest);
    assert |rest| <= 524288 ==> rest[n..] == [];
  }

  /** The `k`-th half mebibyte of a file, the last one being what is left. */
  predicate IsPiece(m: Message, id: string, sequence: nat, rest: seq<byte>, k: nat) {
    && k * 524288 < ChunkEnd(|rest|, k) <= |rest|
    && m == TransferChunk(id, sequence + k, Encode(rest[k * 524288..ChunkEnd(|rest|, k)]))
  }

  lemma LaterPiece(m: Message, id: string, sequence: nat, rest: seq<byte>, k: nat)
    requires k > 0 && |rest| > 524288 && IsPiece(m, id, sequence + 1, rest[524288..], k - 1)
    ensures IsPiece(m, id, sequence, rest, k)
  {
    hide Encode;
    ChunkEndLater(|rest|, k);
    SliceLater(rest, 524288, (k - 1) * 524288, ChunkEnd(|rest| - 524288, k - 1));
  }

  /** Chunk by chunk, what is sent for a file. */
  lemma {:induction false} ChunkIs(id: string, sequence: nat, rest: seq<byte>, k: nat)
    requires k < |ChunksFrom(id, sequence, rest)|
    ensures IsPiece(ChunksFrom(id, sequence, rest)[k], id, sequence, rest, k)
    decreases k
  {
    ChunkSplits(id, sequence, rest);
    if k > 0 {
      hide Encode, ChunksFrom, NextRead, IsPiece, ChunkEnd;
      assert ChunksFrom(id, sequence, rest)[1..][k - 1] == ChunksFrom(id, sequence, rest)[k];
      ChunkIs(id, sequence + 1, rest[524288..], k - 1);
      LaterPiece(ChunksFrom(id, sequence, rest)[k], id, sequence, rest, k);
    }
  }

  lemma ChunkEndLater(size: nat, k: nat)
    requires k > 0 && size > 524288
    ensures 524288 + ChunkEnd(size - 524288, k - 1) == ChunkEnd(size, k)
    ensures 524288 + (k - 1) * 524288 == k * 524288
  {}

  /** The builders take 64-bit numbers. */
  predicate Buildable(m: Message) {
    IsTransfer(m) && (m.TransferStart? ==> m.size < TWO_64) && (m.TransferChunk? ==> m.seqNo < TWO_64)
  }

  /** The message as the builders of client_common/protocol.cpp make it. */
  function Built(m: Message): Json
    requires Buildable(m)
  {
    match m
    case TransferStart(id, name, size, sha256) => MakeTransferStart(id, name, size, sha256, "")
    case TransferChunk(id, seqNo, data) => MakeTransferChunk(id, seqNo, data)
    case TransferComplete(id) => MakeTransferComplete(id)
  }

  lemma BuiltReads(m: Message, maxPayload: nat)
    requires Buildable(m)
    ensures View(Built(m)) == m
    ensures Validate(Built(m), maxPayload).Valid? <==>
            && 0 < |m.id| <= 128
            && (m.TransferStart? ==> 0 < |m.name| <= 1024)
            && (m.TransferChunk? ==> |m.data| <= maxPayload)
  {
    match m
    case TransferStart(id, name, size, sha256) => StartValid(id, name, size, sha256, "", maxPayload);
    case TransferChunk(id, seqNo, data) => ChunkValid(id, seqNo, data, maxPayload);
    case TransferComplete(id) => CompleteValid(id, maxPayload);
  }

  ghost predicate Short(chunks: seq<Message>, id: string, maxPayload: nat) {
    forall m <- chunks :: m.TransferChunk? && m.id == id && |m.data| <= maxPayload
  }

  lemma LaterReadsShorter(rest: seq<byte>)
    ensures EncodedLength(NextRead(rest[NextRead(rest)..])) <= EncodedLength(NextRead(rest))
  {}

  lemma ShortCons(m: Message, chunks: seq<Message>, id: string, maxPayload: nat)
    requires m.TransferChunk? && m.id == id && |m.data| <= maxPayload && Short(chunks, id, maxPayload)
    ensures Short([m] + chunks, id, maxPayload)
  {}

  lemma {:induction false} ChunkLengths(id: string, sequence: nat, rest: seq<byte>, maxPayload: nat)
    requires EncodedLength(NextRead(rest)) <= maxPayload
    ensures Short(ChunksFrom(id, sequence, rest), id, maxPayload)
    decreases |rest|
  {
    if rest != [] {
      var n := NextRead(rest);
      EncodeDecode(rest[..n]);
      LaterReadsShorter(rest);
      ChunkLengths(id, sequence + 1, rest[n..], maxPayload);
      ShortCons(TransferChunk(id, sequence, Encode(rest[..n])), ChunksFrom(id, sequence + 1, rest[n..]), id,
                maxPayload);
    }
  }

  predicate AllBuildable(messages: seq<Message>) {
    forall m <- messages :: Buildable(m)
  }

  lemma BuildableCons(m: Message, more: seq<Message>)
    requires Buildable(m) && AllBuildable(more)
    ensures AllBuildable([m] + more)
  {}

  lemma {:induction false} ChunksAreBuildable(id: string, sequence: nat, rest: seq<byte>)
    requires sequence + |rest| < TWO_64
    ensures AllBuildable(ChunksFrom(id, sequence, rest))
    decreases |rest|
  {
    if rest != [] {
      var n := NextRead(rest);
      ChunksAreBuildable(id, sequence + 1, rest[n..]);
      BuildableCons(TransferChunk(id, sequence, Encode(rest[..n])), ChunksFrom(id, sequence + 1, rest[n..]));
    }
  }

  lemma ScriptIsBuildable(s: Source)
    requires |s.content| < TWO_64
    ensures AllBuildable(Script(s))
  {
    var chunks, last := ChunksFrom(IdOf(s), 0, s.content), [TransferComplete(IdOf(s))];
    ChunksAreBuildable(IdOf(s), 0, s.content);
    forall m <- Script(s) ensures m == Opening(s) || m in chunks || m in last {}
  }

  /** Exactly when the server's validation lets a whole script through. The id is made of
      the clock and the file name, so its bound of 128 is a bound on the file name. */
  lemma ScriptValidIff(s: Source, maxPayload: nat)
    requires |s.content| < TWO_64
    ensures (forall m <- Script(s) :: Buildable(m) && Validate(Built(m), maxPayload).Valid?) <==>
            && 0 < |s.name| && |Decimal(s.tick)| + 1 + |s.name| <= 128
            && EncodedLength(NextRead(s.content)) <= maxPayload
  {
    var id, chunks := IdOf(s), ChunksFrom(IdOf(s), 0, s.content);
    ScriptIsBuildable(s);
    assert Script(s)[0] == Opening(s);
    if EncodedLength(NextRead(s.content)) <= maxPayload {
      ChunkLengths(id, 0, s.content, maxPayload);
      forall m <- Script(s) ensures m == Opening(s) || m in chunks || m == TransferComplete(id) {}
      forall m <- Script(s)
        ensures Validate(Built(m), maxPayload).Valid?
                <==> 0 < |id| <= 128 && (m.TransferStart? ==> 0 < |s.name| <= 1024)
      {
        BuiltReads(m, maxPayload);
      }
    } else {
      var n := NextRead(s.content);
      EncodeDecode(s.content[..n]);
      assert Script(s)[1] == TransferChunk(id, 0, Encode(s.content[..n]));
      BuiltReads(Script(s)[1], maxPayload);
    }
  }
}
