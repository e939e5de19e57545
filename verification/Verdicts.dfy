/** server_common/tcpserver.cpp: exactly when each transfer message is accepted, under
    which code it is refused otherwise, and what either leaves behind. Every condition is
    stated on the message, the session's table, the window and the answers of the
    surroundings alone. */
module Verdicts {
  import opened Basics
  import opened Base64
  import opened FileNames
  import opened Storage
  import opened Messages
  import opened UploadBudget
  import opened Transfers

  /** What is charged in the window an upload at `now` falls into. */
  function ChargedAt(b: Budget, now: int): nat {
    if now >= b.startedAt + 60_000_000_000 then 0 else b.used
  }

  /** The budget is as it was, or its window was over and a new one has begun. */
  predicate OnlyRolled(b: Budget, after: Budget, now: int) {
    after == if now >= b.startedAt + 60_000_000_000 then Budget(now, 0) else b
  }

  /* ------------------------------------------------------------- openings */

  ghost predicate StartFits(c: Core, g: Config, m: Message)
    requires m.TransferStart?
  {
    |c.transfers| < 8 && DeclaredTotal(c.transfers) + m.size <= g.maxMessage
  }

  predicate HashReads(sha256: string) {
    sha256 == "" || (|sha256| == 64 && forall x <- sha256 :: x in "0123456789abcdefABCDEF")
  }

  lemma HashReadsIff(sha256: string)
    ensures HashReads(sha256) <==> sha256 == "" || ValidSha256(sha256)
  {
    var digits := "0123456789abcdefABCDEF";
    assert forall i | 0 <= i < 10 :: digits[i] == ('0' as int + i) as char;
    assert forall i | 10 <= i < 16 :: digits[i] == ('a' as int + i - 10) as char;
    assert forall i | 16 <= i < 22 :: digits[i] == ('A' as int + i - 16) as char;
    forall x: char ensures x in digits <==> '0' <= x <= '9' || 'a' <= x <= 'f' || 'A' <= x <= 'F' {
      if '0' <= x <= '9' {
        assert digits[x as int - '0' as int] == x;
      } else if 'a' <= x <= 'f' {
        assert digits[10 + x as int - 'a' as int] == x;
      } else if 'A' <= x <= 'F' {
        assert digits[16 + x as int - 'A' as int] == x;
      }
    }
  }

  /** An opening is accepted exactly when its id is new, it fits the quotas, its hash reads
      as one, and directory and work file can be made. */
  lemma StartAcceptedIff(c: Core, g: Config, sid: nat, user: string, m: Message, env: Env)
    requires m.TransferStart?
    ensures var v := HandleStart(c, g, sid, user, m, env).1;
            && (v == Accepted <==> m.id !in c.transfers && StartFits(c, g, m) && HashReads(m.sha256)
                                   && env.dirOk && env.openOk)
            && (v == Rejected("INVALID_SEQUENCE") <==> m.id in c.transfers)
            && (v == Rejected("QUOTA_EXCEEDED") <==> m.id !in c.transfers && !StartFits(c, g, m))
            && (v == Rejected("INVALID_MESSAGE")
                <==> m.id !in c.transfers && StartFits(c, g, m) && !HashReads(m.sha256))
            && (v == Rejected("INTERNAL")
                <==> m.id !in c.transfers && StartFits(c, g, m) && HashReads(m.sha256) && !(env.dirOk && env.openOk))
  {
    HashReadsIff(m.sha256);
    Codes();
  }

  /** No two refusals share a code by accident. */
  lemma Codes()
    ensures |"INVALID_SEQUENCE"| == 16 && |"QUOTA_EXCEEDED"| == 14 && |"INVALID_MESSAGE"| == 15 && |"INTERNAL"| == 8
    ensures |"TRANSFER_EXPIRED"| == 16 && "TRANSFER_EXPIRED"[0] == 'T' && "INVALID_SEQUENCE"[0] == 'I'
    ensures |"FRAME_TOO_LARGE"| == 15 && "FRAME_TOO_LARGE"[0] == 'F' && |"RATE_LIMITED"| == 12
    ensures "INVALID_MESSAGE"[0] == 'I' && |"CHECKSUM_MISMATCH"| == 17 && |"INVALID_FILE"| == 12
    ensures "INVALID_FILE"[0] == 'I' && "RATE_LIMITED"[0] == 'R'
  {}

  /** An accepted opening adds one transfer with an empty work file and five minutes to
      live; a refused one changes neither files nor table where no directory was in use. */
  lemma StartLeaves(c: Core, g: Config, sid: nat, user: string, m: Message, env: Env)
    requires m.TransferStart? && EmptyDir(c.files, Dir(env.stamp, c.nextEvent, Sanitized(user)))
    ensures var (d, v) := HandleStart(c, g, sid, user, m, env);
            && d.budget == c.budget && c.nextEvent <= d.nextEvent <= c.nextEvent + 2
            && if v == Accepted then
                 var t := Transfer(Sanitized(m.name), m.sha256, Dir(env.stamp, c.nextEvent, Sanitized(user)),
                                   WorkFile(sid, c.nextEvent + 1), m.size, 0, 0, env.renewClock + 300_000_000_000);
                 d.files == c.files[t.temporaryPath := []] && d.transfers == c.transfers[m.id := t]
                 && d.nextEvent == c.nextEvent + 2
               else d.files == c.files && d.transfers == c.transfers
  {
    hide Sanitized, DeclaredTotal, ValidSha256, NamesIn, InDir, WithoutDir, EmptyDir;
    EmptyDirHoldsNothing(c.files, Dir(env.stamp, c.nextEvent, Sanitized(user)));
  }

  /* ------------------------------------------------------------- chunks */

  /** The next chunk of an open transfer. */
  predicate Expected(c: Core, m: Message)
    requires m.TransferChunk?
  {
    m.id in c.transfers && m.seqNo == c.transfers[m.id].nextSequence
  }

  /** At most 512 KiB that decode and fit what the transfer still misses. */
  ghost predicate Decodes(c: Core, m: Message)
    requires m.TransferChunk? && m.id in c.transfers
  {
    && Decode(m.data).Some? && |Decode(m.data).value| <= 524288
    && c.transfers[m.id].receivedSize + |Decode(m.data).value| <= c.transfers[m.id].expectedSize
  }

  ghost predicate WithinRate(c: Core, m: Message, now: int)
    requires m.TransferChunk? && Decode(m.data).Some?
  {
    ChargedAt(c.budget, now) + |Decode(m.data).value| <= UPLOAD_LIMIT
  }

  /** A chunk is accepted exactly when it is the expected one, short enough, decodes and
      fits, the window has room, and it can be written. */
  lemma ChunkAcceptedIff(c: Core, m: Message, env: Env)
    requires m.TransferChunk?
    ensures var v := HandleChunk(c, m, env).1;
            var sound := Expected(c, m) && |m.data| <= 699056 && Decodes(c, m);
            && (v == Accepted <==> sound && WithinRate(c, m, env.chargeClock) && env.writeOk)
            && (v == Rejected("TRANSFER_EXPIRED") <==> m.id !in c.transfers)
            && (v == Rejected("INVALID_SEQUENCE") <==> m.id in c.transfers && !Expected(c, m))
            && (v == Rejected("FRAME_TOO_LARGE") <==> Expected(c, m) && |m.data| > 699056)
            && (v == Rejected("INVALID_MESSAGE") <==> Expected(c, m) && |m.data| <= 699056 && !Decodes(c, m))
            && (v == Rejected("RATE_LIMITED") <==> sound && !WithinRate(c, m, env.chargeClock))
            && (v == Rejected("INTERNAL") <==> sound && WithinRate(c, m, env.chargeClock) && !env.writeOk)
  {
    hide Decode;
    Codes();
  }

  /** A refused chunk leaves files and table alone, and of the budget at most a window that
      was over rolls on; only a chunk that could not be written takes its transfer, and
      nothing else, with it. */
  lemma RefusedChunkLeaves(c: Core, m: Message, env: Env)
    requires m.TransferChunk? && HandleChunk(c, m, env).1 != Accepted
    ensures var (d, v) := HandleChunk(c, m, env);
            && d.nextEvent == c.nextEvent
            && if v == Rejected("INTERNAL")
               then m.id in c.transfers && d.transfers == c.transfers - {m.id}
                    && d.files == c.files - {c.transfers[m.id].temporaryPath}
               else && d.files == c.files && d.transfers == c.transfers
                    && (d.budget == c.budget || OnlyRolled(c.budget, d.budget, env.chargeClock))
  {
    hide Decode;
    Codes();
    if m.id in c.transfers {
      assert WorkPaths(c.transfers, {m.id}) == {c.transfers[m.id].temporaryPath};
    }
  }

  /** An accepted chunk is charged, appended to its work file and counted; no other file
      and no other transfer changes. */
  lemma AcceptedChunkLeaves(c: Core, m: Message, env: Env)
    requires m.TransferChunk? && HasWork(c) && HandleChunk(c, m, env).1 == Accepted
    ensures var (d, t, octets) := (HandleChunk(c, m, env).0, c.transfers[m.id], Decode(m.data).value);
            && d.files == c.files[t.temporaryPath := c.files[t.temporaryPath] + octets]
            && d.transfers == c.transfers[m.id := Transfer(
                 t.fileName, t.sha256, t.directory, t.temporaryPath, t.expectedSize,
                 t.receivedSize + |octets|, t.nextSequence + 1, env.renewClock + 300_000_000_000)]
            && d.nextEvent == c.nextEvent
            && d.budget.used == ChargedAt(c.budget, env.chargeClock) + |octets|
            && OnlyRolled(c.budget, d.budget.(used := ChargedAt(c.budget, env.chargeClock)), env.chargeClock)
  {
    hide Decode;
  }

  /* ------------------------------------------------------------- completions */

  /** What closing the work file left on disk. */
  function OnDisk(c: Core, id: string, closedAt: nat): seq<byte>
    requires HasWork(c) && id in c.transfers
  {
    var content := c.files[c.transfers[id].temporaryPath];
    if |content| <= closedAt then content else content[..closedAt]
  }

  predicate Matches(c: Core, g: Config, id: string, env: Env)
    requires HasWork(c) && id in c.transfers
  {
    var t := c.transfers[id];
    && t.receivedSize == t.expectedSize
    && (t.sha256 == "" || (env.readOk && g.sha256(OnDisk(c, id, env.closedAt)) == t.sha256))
  }

  /** A completion is accepted exactly when the transfer is open, the octets received are
      as many as declared, what is on disk has the declared hash, and it can be renamed. */
  lemma CompleteAcceptedIff(c: Core, g: Config, m: Message, env: Env)
    requires m.TransferComplete? && HasWork(c)
    ensures var v := HandleComplete(c, g, m, env).1;
            && (v == Accepted <==> m.id in c.transfers && Matches(c, g, m.id, env) && env.renameOk)
            && (v == Rejected("TRANSFER_EXPIRED") <==> m.id !in c.transfers)
            && (v == Rejected("CHECKSUM_MISMATCH") <==> m.id in c.transfers && !Matches(c, g, m.id, env))
            && (v == Rejected("INTERNAL") <==> m.id in c.transfers && Matches(c, g, m.id, env) && !env.renameOk)
  {
    Codes();
  }

  /** Either way the transfer and its work file are gone and every other transfer stays; an
      accepted one leaves what was on disk under the first free name. */
  lemma CompleteLeaves(c: Core, g: Config, m: Message, env: Env)
    requires m.TransferComplete? && HasWork(c)
    ensures var (d, v) := HandleComplete(c, g, m, env);
            && d.budget == c.budget && d.nextEvent == c.nextEvent
            && if m.id !in c.transfers then d == c
               else
                 var t := c.transfers[m.id];
                 var rest := c.files - {t.temporaryPath};
                 var name := UniqueName(NamesIn(c.files, t.directory), t.fileName, env.stamp);
                 && d.transfers == c.transfers - {m.id}
                 && d.files == if v == Accepted
                               then rest[Stored(t.directory, name) := OnDisk(c, m.id, env.closedAt)] else rest
  {
    if m.id in c.transfers {
      assert WorkPaths(c.transfers, {m.id}) == {c.transfers[m.id].temporaryPath};
    }
  }

  /* ------------------------------------------------------------- expiry */

  /** Exactly the transfers whose time has come go, each with its work file. */
  lemma ExpiryExact(c: Core, now: int)
    ensures var d := ExpireTransfers(c, now);
            && (forall id :: id in d.transfers <==> id in c.transfers && now < c.transfers[id].expiresAt)
            && (forall id <- d.transfers :: d.transfers[id] == c.transfers[id])
            && (forall p :: p in d.files
                  <==> && p in c.files
                       && forall id <- c.transfers ::
                            c.transfers[id].temporaryPath == p ==> now < c.transfers[id].expiresAt)
            && (forall p <- d.files :: d.files[p] == c.files[p])
            && d.nextEvent == c.nextEvent && d.budget == c.budget
  {
    var gone := Expired(c.transfers, now);
    forall p | p in WorkPaths(c.transfers, gone)
      ensures exists id :: id in c.transfers && c.transfers[id].temporaryPath == p && c.transfers[id].expiresAt <= now
    {
      var id :| id in gone && id in c.transfers && c.transfers[id].temporaryPath == p;
    }
  }

  /** The end of a session takes all of its transfers and all of their work files. */
  lemma EndExact(c: Core)
    ensures var d := DropTransfers(c);
            && d.transfers == map[]
            && (forall p :: p in d.files
                  <==> p in c.files && forall id <- c.transfers :: c.transfers[id].temporaryPath != p)
            && (forall p <- d.files :: d.files[p] == c.files[p])
            && d.nextEvent == c.nextEvent && d.budget == c.budget
  {
    forall p | p in WorkPaths(c.transfers, c.transfers.Keys)
      ensures exists id :: id in c.transfers && c.transfers[id].temporaryPath == p
    {
      var id :| id in c.transfers && c.transfers[id].temporaryPath == p;
    }
  }
}
