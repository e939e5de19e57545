/** server_common/tcpserver.cpp: the chunked-transfer handlers of one session, as
    functions of what they read and write: the files, the event counter, the upload
    budget and the session's table of open transfers. */
module Transfers {
  import opened Basics
  import opened Base64
  import opened FileNames
  import opened Storage
  import opened Messages
  import opened UploadBudget

  const MAX_TRANSFERS: nat := 8
  const LIFETIME: int := 5 * MINUTE

  /** `IncomingTransferState`; the open stream is the work file at `temporaryPath`. */
  datatype Transfer = Transfer(
    fileName: string,
    sha256: string,
    directory: Dir,
    temporaryPath: Path,
    expectedSize: nat,
    receivedSize: nat,
    nextSequence: nat,
    expiresAt: int)

  type Table = map<string, Transfer>

  datatype Core = Core(files: Files, nextEvent: nat, budget: Budget, transfers: Table)

  /** The message limit, and SHA-256 as a function nothing is assumed about. */
  datatype Config = Config(maxMessage: nat, sha256: seq<byte> -> string)

  /** What the surroundings answer while one message is handled: clock readings, the time
      stamp, whether directory, open, write, read-back and rename succeed, and how many
      octets of the work file had reached the disk when it was closed. */
  datatype Env = Env(
    expiryClock: int, chargeClock: int, renewClock: int, stamp: string,
    dirOk: bool, openOk: bool, writeOk: bool, closedAt: nat, readOk: bool, renameOk: bool,
    partOk: nat, commitOk: nat)

  /** Accepted for broadcast; a successful login; a heartbeat answered; or refused. */
  datatype Verdict = Accepted | LoggedIn | Pong | Rejected(code: string)

  predicate ValidSha256(s: string) {
    |s| == 64 && forall c <- s :: '0' <= c <= '9' || 'a' <= c <= 'f' || 'A' <= c <= 'F'
  }

  /** The sizes declared by the open transfers, summed. */
  ghost function DeclaredTotal(t: Table): nat {
    if t == map[] then 0
    else
      var id :| id in t;
      t[id].expectedSize + DeclaredTotal(t - {id})
  }

  /** The sum does not depend on the order in which the table is walked. */
  lemma {:induction false} TotalWithout(t: Table, id: string)
    requires id in t
    ensures DeclaredTotal(t) == t[id].expectedSize + DeclaredTotal(t - {id})
    decreases |t|
  {
    var first :| first in t && DeclaredTotal(t) == t[first].expectedSize + DeclaredTotal(t - {first});
    if first != id {
      assert |t - {first}| < |t| && |t - {id}| < |t| by {
        SmallerWithout(t, first);
        SmallerWithout(t, id);
      }
      TotalWithout(t - {first}, id);
      TotalWithout(t - {id}, first);
      assert t - {first} - {id} == t - {id} - {first};
    }
  }

  lemma SmallerWithout(t: Table, id: string)
    requires id in t
    ensures |t - {id}| == |t| - 1
  {
    assert t.Keys == (t - {id}).Keys + {id};
  }

  lemma TotalWith(t: Table, id: string, transfer: Transfer)
    requires id !in t
    ensures DeclaredTotal(t[id := transfer]) == DeclaredTotal(t) + transfer.expectedSize
    ensures |t[id := transfer]| == |t| + 1
  {
    var u := t[id := transfer];
    TotalWithout(u, id);
    SmallerWithout(u, id);
    assert u - {id} == t;
  }

  /** Progress of a transfer does not touch the quota. */
  lemma TotalUpdated(t: Table, id: string, transfer: Transfer)
    requires id in t && transfer.expectedSize == t[id].expectedSize
    ensures DeclaredTotal(t[id := transfer]) == DeclaredTotal(t)
    ensures |t[id := transfer]| == |t|
  {
    var u := t[id := transfer];
    TotalWithout(u, id);
    TotalWithout(t, id);
    assert u - {id} == t - {id} && u.Keys == t.Keys;
  }

  lemma WithoutMore(t: Table, id: string, ids: set<string>)
    requires id in ids
    ensures (t - {id}) - ids == t - ids
  {}

  lemma {:induction false} TotalDropped(t: Table, ids: set<string>)
    ensures DeclaredTotal(t - ids) <= DeclaredTotal(t) && |t - ids| <= |t|
    decreases |t|
  {
    hide DeclaredTotal;
    if id :| id in t && id in ids {
      TotalWithout(t, id);
      SmallerWithout(t, id);
      WithoutMore(t, id, ids);
      TotalDropped(t - {id}, ids);
    } else {
      assert t - ids == t;
    }
  }

  function WorkPaths(t: Table, ids: set<string>): set<Path> {
    set id | id in ids && id in t :: t[id].temporaryPath
  }

  /** `discardTransfer` and `erase` for each of `ids`. The directories go too, but only
      when empty, which no file notices. */
  function Discard(c: Core, ids: set<string>): Core {
    c.(files := c.files - WorkPaths(c.transfers, ids), transfers := c.transfers - ids)
  }

  function Expired(t: Table, now: int): set<string> {
    set id | id in t && t[id].expiresAt <= now
  }

  /** `cleanupExpiredTransfers`. */
  function ExpireTransfers(c: Core, now: int): Core {
    Discard(c, Expired(c.transfers, now))
  }

  /** `cleanupClientTransfers`. */
  function DropTransfers(c: Core): Core {
    Discard(c, c.transfers.Keys)
  }

  /** The checks of an opening that come before anything is created. */
  ghost function StartProblem(c: Core, g: Config, m: Message): Option<string>
    requires m.TransferStart?
  {
    if m.id in c.transfers then Some("INVALID_SEQUENCE")
    else if |c.transfers| >= MAX_TRANSFERS || DeclaredTotal(c.transfers) + m.size > g.maxMessage then
      Some("QUOTA_EXCEEDED")
    else if m.sha256 != "" && !ValidSha256(m.sha256) then Some("INVALID_MESSAGE")
    else None
  }

  function OpenTransfer(c: Core, sid: nat, user: string, m: Message, env: Env): (Core, Verdict)
    requires m.TransferStart?
  {
    var directory := Dir(env.stamp, c.nextEvent, Sanitized(user));
    if !env.dirOk then (c.(nextEvent := c.nextEvent + 1), Rejected("INTERNAL"))
    else if !env.openOk then
      (c.(nextEvent := c.nextEvent + 2, files := WithoutDir(c.files, directory)), Rejected("INTERNAL"))
    else
      var work := WorkFile(sid, c.nextEvent + 1);
      var transfer := Transfer(Sanitized(m.name), m.sha256, directory, work, m.size, 0, 0, env.renewClock + LIFETIME);
      (c.(nextEvent := c.nextEvent + 2, files := c.files[work := []],
          transfers := c.transfers[m.id := transfer]), Accepted)
  }

  ghost function HandleStart(c: Core, g: Config, sid: nat, user: string, m: Message, env: Env): (Core, Verdict)
    requires m.TransferStart?
  {
    var problem := StartProblem(c, g, m);
    if problem.Some? then (c, Rejected(problem.value)) else OpenTransfer(c, sid, user, m, env)
  }

  /** The checks of a chunk that come before the upload budget is charged. */
  ghost function ChunkProblem(c: Core, m: Message): Option<string>
    requires m.TransferChunk?
  {
    if m.id !in c.transfers then Some("TRANSFER_EXPIRED")
    else
      var t := c.transfers[m.id];
      if m.seqNo != t.nextSequence then Some("INVALID_SEQUENCE")
      else if !ChunkGate(m.data) then Some("FRAME_TOO_LARGE")
      else if Decode(m.data).None? || |Decode(m.data).value| > CHUNK_BYTES
              || |Decode(m.data).value| > t.expectedSize - t.receivedSize then Some("INVALID_MESSAGE")
      else None
  }

  /** What a file holds; nothing when it does not exist. */
  function ContentOf(files: Files, p: Path): seq<byte> {
    if p in files then files[p] else []
  }

  /** Every open transfer has its work file, and has not received too much. */
  predicate HasWork(c: Core) {
    forall id <- c.transfers ::
      && c.transfers[id].temporaryPath in c.files
      && c.transfers[id].receivedSize <= c.transfers[id].expectedSize
  }

  ghost function HandleChunk(c: Core, m: Message, env: Env): (Core, Verdict)
    requires m.TransferChunk?
  {
    var problem := ChunkProblem(c, m);
    if problem.Some? then (c, Rejected(problem.value))
    else
      var t, octets := c.transfers[m.id], Decoded(m.data);
      var c1 := c.(budget := Charge(c.budget, env.chargeClock, |octets|));
      if !Fits(c.budget, env.chargeClock, |octets|) then (c1, Rejected("RATE_LIMITED"))
      else if !env.writeOk then (Discard(c1, {m.id}), Rejected("INTERNAL"))
      else
        var more := t.(receivedSize := t.receivedSize + |octets|, nextSequence := t.nextSequence + 1,
                       expiresAt := env.renewClock + LIFETIME);
        (c1.(files := c.files[t.temporaryPath := ContentOf(c.files, t.temporaryPath) + octets],
             transfers := c.transfers[m.id := more]), Accepted)
  }

  /** What is on disk once the stream is closed; nothing checks that the close succeeded. */
  function Closed(content: seq<byte>, env: Env): seq<byte> {
    if env.closedAt < |content| then content[..env.closedAt] else content
  }

  /** What a completed transfer leaves behind, and where. */
  function Installed(c: Core, id: string, env: Env): seq<byte>
    requires id in c.transfers
  {
    Closed(ContentOf(c.files, c.transfers[id].temporaryPath), env)
  }

  function Target(c: Core, id: string, env: Env): Path
    requires id in c.transfers
  {
    var t := c.transfers[id];
    Stored(t.directory, UniqueName(NamesIn(c.files, t.directory), t.fileName, env.stamp))
  }

  function CompletionProblem(c: Core, g: Config, m: Message, env: Env): Option<string>
    requires m.TransferComplete? && m.id in c.transfers
  {
    var t := c.transfers[m.id];
    if t.receivedSize != t.expectedSize then Some("CHECKSUM_MISMATCH")
    else if t.sha256 != "" && (if env.readOk then g.sha256(Installed(c, m.id, env)) else "") != t.sha256 then
      Some("CHECKSUM_MISMATCH")
    else if !env.renameOk then Some("INTERNAL")
    else None
  }

  function HandleComplete(c: Core, g: Config, m: Message, env: Env): (Core, Verdict)
    requires m.TransferComplete?
  {
    if m.id !in c.transfers then (c, Rejected("TRANSFER_EXPIRED"))
    else
      var problem, gone := CompletionProblem(c, g, m, env), Discard(c, {m.id});
      if problem.Some? then (gone, Rejected(problem.value))
      else (gone.(files := gone.files[Target(c, m.id, env) := Installed(c, m.id, env)]), Accepted)
  }

  ghost function HandleTransfer(c: Core, g: Config, sid: nat, user: string, m: Message, env: Env): (Core, Verdict)
    requires IsTransfer(m)
  {
    if m.TransferStart? then HandleStart(c, g, sid, user, m, env)
    else if m.TransferChunk? then HandleChunk(c, m, env)
    else HandleComplete(c, g, m, env)
  }

  /** The fields of a session the transfer handlers update. */
  class ClientConnection {
    const sessionId: nat
    var authenticated: bool
    var username: string
    var incomingTransfers: Table

    constructor (id: nat)
      ensures sessionId == id && !authenticated && username == "" && incomingTransfers == map[]
    {
      sessionId, authenticated, username, incomingTransfers := id, false, "", map[];
    }
  }

  class TransferServer {
    const maxMessageBytes: nat
    const uploads: UploadLimiter
    var files: Files
    var nextEventId: nat

    constructor (maxMessage: nat, limiter: UploadLimiter, stored: Files)
      ensures maxMessageBytes == maxMessage && uploads == limiter && files == stored && nextEventId == 1
    {
      maxMessageBytes, uploads, files, nextEventId := maxMessage, limiter, stored, 1;
    }

    ghost function View(client: ClientConnection): Core
      reads this, uploads, client
    {
      Core(files, nextEventId, uploads.View(), client.incomingTransfers)
    }

    /** Every quantity an unsigned subtraction starts from is large enough. */
    ghost predicate Valid(client: ClientConnection)
      reads this, uploads, client
    {
      && uploads.uploadedBytesInWindow <= UPLOAD_LIMIT
      && HasWork(View(client))
    }

    /** The quota loop: the running total is kept within the limit, so the subtraction
        never wraps, and it stops early exactly when the full sum would not fit. */
    method QuotaAllows(client: ClientConnection, declaredSize: nat) returns (ok: bool)
      requires declaredSize <= maxMessageBytes
      ensures ok <==> DeclaredTotal(client.incomingTransfers) + declaredSize <= maxMessageBytes
    {
      var t := client.incomingTransfers;
      var declaredTotal := declaredSize;
      var rest := t;
      while rest != map[]
        invariant declaredTotal <= maxMessageBytes
        invariant declaredTotal + DeclaredTotal(rest) == declaredSize + DeclaredTotal(t)
        decreases |rest|
      {
        var id :| id in rest;
        TotalWithout(rest, id);
        SmallerWithout(rest, id);
        var room: nat := maxMessageBytes - declaredTotal;
        if rest[id].expectedSize > room {
          return false;
        }
        declaredTotal := declaredTotal + rest[id].expectedSize;
        rest := rest - {id};
      }
      ok := true;
    }

    method CheckStart(client: ClientConnection, m: Message, ghost g: Config) returns (problem: Option<string>)
      requires m.TransferStart? && g.maxMessage == maxMessageBytes
      ensures problem == StartProblem(View(client), g, m)
    {
      if m.id in client.incomingTransfers {
        return Some("INVALID_SEQUENCE");
      }
      if |client.incomingTransfers| >= MAX_TRANSFERS || m.size > maxMessageBytes {
        return Some("QUOTA_EXCEEDED");
      }
      var fits := QuotaAllows(client, m.size);
      if !fits {
        return Some("QUOTA_EXCEEDED");
      }
      if m.sha256 != "" && !ValidSha256(m.sha256) {
        return Some("INVALID_MESSAGE");
      }
      problem := None;
    }

    method HandleChunkTransferStart(client: ClientConnection, m: Message, env: Env, ghost g: Config)
      returns (verdict: Verdict)
      requires m.TransferStart? && g.maxMessage == maxMessageBytes
      modifies this`files, this`nextEventId, client`incomingTransfers
      ensures (View(client), verdict)
              == HandleStart(old(View(client)), g, client.sessionId, client.username, m, env)
    {
      var problem := CheckStart(client, m, g);
      if problem.Some? {
        return Rejected(problem.value);
      }
      var fileName := SanitizeFileName(m.name);
      var owner := SanitizeFileName(client.username);
      var directory := Dir(env.stamp, nextEventId, owner);
      nextEventId := nextEventId + 1;
      if !env.dirOk {
        return Rejected("INTERNAL");
      }
      var work := WorkFile(client.sessionId, nextEventId);
      nextEventId := nextEventId + 1;
      if !env.openOk {
        files := WithoutDir(files, directory);
        return Rejected("INTERNAL");
      }
      files := files[work := []];
      var transfer := Transfer(fileName, m.sha256, directory, work, m.size, 0, 0, env.renewClock + LIFETIME);
      client.incomingTransfers := client.incomingTransfers[m.id := transfer];
      verdict := Accepted;
    }

    /** `discardTransfer` followed by `erase`. */
    method DiscardTransfer(client: ClientConnection, id: string)
      requires id in client.incomingTransfers
      modifies this`files, client`incomingTransfers
      ensures View(client) == Discard(old(View(client)), {id})
    {
      files := files - {client.incomingTransfers[id].temporaryPath};
      assert WorkPaths(client.incomingTransfers, {id}) == {client.incomingTransfers[id].temporaryPath};
      client.incomingTransfers := client.incomingTransfers - {id};
    }

    method HandleChunkTransferChunk(client: ClientConnection, m: Message, env: Env) returns (verdict: Verdict)
      requires m.TransferChunk? && Valid(client)
      modifies this`files, uploads, client`incomingTransfers
      ensures uploads.uploadedBytesInWindow <= UPLOAD_LIMIT
      ensures (View(client), verdict) == HandleChunk(old(View(client)), m, env)
    {
      if m.id !in client.incomingTransfers {
        return Rejected("TRANSFER_EXPIRED");
      }
      var transfer := client.incomingTransfers[m.id];
      if m.seqNo != transfer.nextSequence {
        return Rejected("INVALID_SEQUENCE");
      }
      if |m.data| > (CHUNK_BYTES + 2) / 3 * 4 + 4 {
        return Rejected("FRAME_TOO_LARGE");
      }
      var room: nat := transfer.expectedSize - transfer.receivedSize;
      var ok, decoded := DecodeBase64(m.data);
      if !ok || |decoded| > CHUNK_BYTES || |decoded| > room {
        return Rejected("INVALID_MESSAGE");
      }
      var charged := uploads.ConsumeUploadBudget(env.chargeClock, |decoded|);
      if !charged {
        return Rejected("RATE_LIMITED");
      }
      if !env.writeOk {
        DiscardTransfer(client, m.id);
        return Rejected("INTERNAL");
      }
      files := files[transfer.temporaryPath := files[transfer.temporaryPath] + decoded];
      var more := transfer.(receivedSize := transfer.receivedSize + |decoded|,
                            nextSequence := transfer.nextSequence + 1,
                            expiresAt := env.renewClock + LIFETIME);
      client.incomingTransfers := client.incomingTransfers[m.id := more];
      verdict := Accepted;
    }

    method HandleChunkTransferComplete(client: ClientConnection, m: Message, env: Env, g: Config)
      returns (verdict: Verdict)
      requires m.TransferComplete? && Valid(client)
      modifies this`files, client`incomingTransfers
      ensures (View(client), verdict) == HandleComplete(old(View(client)), g, m, env)
    {
      if m.id !in client.incomingTransfers {
        return Rejected("TRANSFER_EXPIRED");
      }
      var transfer := client.incomingTransfers[m.id];
      var content := Closed(files[transfer.temporaryPath], env);
      var taken := NamesIn(files, transfer.directory);
      DiscardTransfer(client, m.id);
      if transfer.receivedSize != transfer.expectedSize {
        return Rejected("CHECKSUM_MISMATCH");
      }
      if transfer.sha256 != "" {
        var actual := if env.readOk then g.sha256(content) else "";
        if actual != transfer.sha256 {
          return Rejected("CHECKSUM_MISMATCH");
        }
      }
      if !env.renameOk {
        return Rejected("INTERNAL");
      }
      var name := MakeFilePathUnique(taken, transfer.fileName, env.stamp);
      files := files[Stored(transfer.directory, name) := content];
      verdict := Accepted;
    }

    /** Erases while iterating; the entries may come in any order. */
    method CleanupExpiredTransfers(client: ClientConnection, now: int)
      modifies this`files, client`incomingTransfers
      ensures View(client) == ExpireTransfers(old(View(client)), now)
    {
      ghost var before := View(client);
      var pending := client.incomingTransfers.Keys;
      ghost var gone: set<string> := {};
      assert Discard(before, {}) == before by { DiscardNothing(before); }
      while pending != {}
        invariant pending <= before.transfers.Keys && gone !! pending
        invariant gone == Expired(before.transfers, now) - pending
        invariant View(client) == Discard(before, gone)
      {
        var id :| id in pending;
        pending := pending - {id};
        if client.incomingTransfers[id].expiresAt <= now {
          DiscardTransfer(client, id);
          DiscardTwice(before, gone, {id});
          gone := gone + {id};
        }
      }
    }

    method CleanupClientTransfers(client: ClientConnection)
      modifies this`files, client`incomingTransfers
      ensures View(client) == DropTransfers(old(View(client)))
    {
      ghost var before := View(client);
      var pending := client.incomingTransfers.Keys;
      ghost var gone: set<string> := {};
      DiscardNothing(before);
      while pending != {}
        invariant gone + pending == before.transfers.Keys && gone !! pending
        invariant View(client) == Discard(before, gone)
      {
        var id :| id in pending;
        pending := pending - {id};
        DiscardTransfer(client, id);
        DiscardTwice(before, gone, {id});
        gone := gone + {id};
      }
    }
  }

  lemma DiscardNothing(c: Core)
    ensures Discard(c, {}) == c
  {
    assert c.files - WorkPaths(c.transfers, {}) == c.files && c.transfers - {} == c.transfers;
  }

  lemma DiscardTwice(c: Core, a: set<string>, b: set<string>)
    requires a !! b
    ensures Discard(Discard(c, a), b) == Discard(c, a + b)
  {
    var d := Discard(c, a);
    assert WorkPaths(d.transfers, b) == WorkPaths(c.transfers, b);
    assert WorkPaths(c.transfers, a + b) == WorkPaths(c.transfers, a) + WorkPaths(c.transfers, b);
    assert d.files - WorkPaths(c.transfers, b) == c.files - WorkPaths(c.transfers, a + b);
    assert d.transfers - b == c.transfers - (a + b);
  }

  /** Repeating a cleanup changes nothing. */
  lemma CleanupIdempotent(c: Core, now: int)
    ensures ExpireTransfers(ExpireTransfers(c, now), now) == ExpireTransfers(c, now)
    ensures DropTransfers(DropTransfers(c)) == DropTransfers(c)
    ensures DropTransfers(c).transfers == map[]
  {
    var d, e := ExpireTransfers(c, now), DropTransfers(c);
    assert Expired(d.transfers, now) == {};
    assert e.transfers.Keys == {};
    DiscardNothing(d);
    DiscardNothing(e);
  }
}
