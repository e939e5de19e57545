# Remote Clipboard: a verified model of the session core

This project models the part of Remote Clipboard through which every file travels, and
proves what it keeps, for every input, every run and every interleaving:

    bytes -> frames -> validated messages -> transfer state and storage
          -> router -> bounded send queues -> bytes -> the receiving client's files

`dafny verify dfyconfig.toml` checks the whole project (Dafny 4.11).

## How it is organised

| file | models |
|---|---|
| `Basics`, `Numerals`, `Windows` | shared types, decimal numbers, one lemma about tumbling windows |
| `FileNames`, `Base64` | `server_common/filetransfer.cpp` |
| `Framing` | `server_common/frameparser.cpp` and the client's line splitter |
| `ClientLoop` | the reader thread: reads, frames, the limit before authentication |
| `UploadBudget`, `AuthLimiter` | the two rate limiters |
| `Protocol` | JSON messages, validation, builders, what each end reads |
| `Messages` | validated messages, and what a log of them says about one transfer |
| `Storage` | the server's storage directory as a map from paths to octets |
| `Transfers`, `Bundles` | chunked transfers and file bundles, as functions and as methods on mutable objects |
| `Verdicts`, `BundleContents` | exactly when each transfer message and each bundle is accepted, under which code it is refused, and what either leaves on disk, stated on the message alone |
| `Dispatch` | `processMessage` and `authenticateClient` on those objects, replies and broadcast included |
| `Server`, `ServerSteps`, `ServerRuns` | all sessions over one disk: invariant, each step, theorems over runs |
| `StoredBytes` | disk growth against the upload budget |
| `Sender`, `Delivery`, `Undisturbed` | the sending client, its round trip with the server amid other traffic, and from up-front conditions |
| `WholeFiles` | exact content of every commit when closing loses nothing |
| `SendQueue`, `Router`, `Relay` | send queue, router, and reader and writer threads as one interleaved state machine |
| `ServerSystem` | `Server` and `Relay` run together |
| `Receiver`, `EndToEnd` | the receiving client, and the path from the server's disk to its disk |
| `DiskToDisk` | one run with a sending and a receiving client, from disk to disk |
| `Broadcasts` | who hears what an authenticated session sends, and under which name, in every run |

Code that changes objects in place (`FrameParser`, `TransferServer`, `UploadLimiter`,
`AuthenticationLimiter`, `Connection`, `MemoryRouter`, `Outlet`, `ReceivingClient`,
`LineReader`) is modelled as classes whose methods are proved equal to functions of the
old state; the theorems are about those functions. `Track(log, id)` is the central
specification: the latest opening of a transfer in a log of messages and the octets of the
chunks since. Server and receiver are both measured against it.

## What is assumed

* SHA-256 is a function of the octets about which nothing is assumed (one lemma assumes
  that it prints 64 lower-case hexadecimal digits). The JSON library is a pair `dump`/`parse`
  that round-trips on the values it can hold (64-bit integers, finite doubles, valid
  Unicode strings); a dumped value is one line without blanks at its ends.
* The file system does what it is asked or reports failure; directories, opens, writes,
  reads, renames and the final `close` may each fail, at every message. The time stamps
  in directory names have moved on since the previous process on the same storage
  directory (`ServerRuns.StampsMovedOn`); event numbers restart at 1 with each process.
* Upload limiter: the clock never runs backwards in lock order, although `now` is read
  before the lock is taken (`server_common/tcpserver.cpp:816-817`).
* Authentication limiter: attempts come one at a time, on a clock that never runs backwards
  (`server_common/tcpserver.cpp:770-771`) and has left zero.
* The receiving client keys transfers by id alone
  (`RemoteclipboardCliForLinux/clipboard_sync.cpp:652`), so the end-to-end theorem asks that
  no two sessions use the same transfer id.
* Accepted messages are broadcast. `recordAcceptedEvent` can throw between the two when a
  `workspace_id` or `device_id` is present that is not a string
  (`server_common/tcpserver.cpp:867-868`); messages from `client_common/protocol.cpp:32-62`
  carry neither.

## Where code and promise differ

* The repository's `README.md:217` promises that a file is moved into place only after its
  size and hash were checked. `handleChunkTransferComplete` compares a counter of octets
  handed to the stream and never looks at whether closing the stream succeeded. Without a
  declared hash a file cut short by a failed close is installed
  (`ServerRuns.ShortFileInstalled`). The exact condition is `ServerRuns.CommitWholeIff`: the
  installed file is whole if and only if closing put at least the declared number of octets
  on disk.
* The receiving client reads the declared size through a 32-bit `int`. A file of two
  gigabytes or more that arrives complete is thrown away unless its size is a multiple of
  four gigabytes, which reads as zero and skips the check, or lies in the last two
  gigabytes below 2^64, which survive the conversion (`Receiver.SizeCheckIff`,
  `Receiver.TwoGigabytesDiscarded`). The shipped servers stay below that
  (`DiskToDisk.KeptBelowTwoGigabytes`).
* The sending client makes the transfer id out of the clock and the file name, and the
  server allows 128 characters: a file with a long name is never accepted
  (`Sender.ScriptValidIff` gives the exact bound).
* With one free place in its table the authentication limiter gives it to the address of a
  failed attempt and does not count the account (`server_common/tcpserver.cpp:798-811`).
  `AuthLimiter.AccountUncounted` is such a case and `AuthLimiter.WhenCharged` the exact
  condition; every failure that is counted is bounded (`AuthLimiter.FailuresBounded`).
* At clock tick zero the authentication limiter never counts beyond one failure
  (`AuthLimiter.NoLimitAtTickZero`).
* An upper-case hash passes validation but no file ever matches it
  (`ServerRuns.UpperCaseHashNeverCommits`).

## Model

| member | source | states |
|---|---|---|
| EndToEnd.ReceiverEqualsServer | RemoteclipboardCliForLinux/clipboard_sync.cpp:625-696 | In every run of the whole server, a client that registered before a transfer's opening was broadcast and handles its completion saves a file equal to the one the server committed, provided that one is whole, exactly when it reads the declared size rightly or as zero; its own size and hash checks pass |
| DiskToDisk.SourceReachesReceiver | RemoteclipboardCliForLinux/clipboard_sync.cpp:452-496 | In one run of the whole server: session r registers, later session s sends a file amid any other traffic and stray messages of the same transfer, and r's client handles the completion; then it saves a file equal to the sender's, exactly when it reads the declared size rightly or as zero |
| DiskToDisk.SentFileCommitted | server_common/tcpserver.cpp:1035-1178 | In the run of the whole server the sender's file is committed, by the only completion of its transfer since the sender began |
| DiskToDisk.KeptBelowTwoGigabytes | server_common/tcpserver.cpp:1044-1056 | In every run of a server whose message limit is below two gigabytes, a client that was there before the opening keeps what the server committed, if that is whole |
| DiskToDisk.BroadcastsWereLogged | server_common/tcpserver.cpp:722-730 | What a session had broadcast by one event it had logged by any later one |
| DiskToDisk.RestOfRun | server_common/tcpserver.cpp:689-731 | The storage at the end of a run is its run from any earlier point over the events since |
| EndToEnd.OpeningsAlwaysFit | server_common/tcpserver.cpp:1044-1056 | In every run no session logs, and so broadcasts, an opening above the message limit |
| EndToEnd.ClientSees | RemoteclipboardCliForLinux/clipboard_sync.cpp:527-541 | Whatever part of its stream a client has read, in whatever reads, its lines are the first so many queued payloads, unchanged |
| EndToEnd.QueueHoldsLog | server_common/tcpserver.cpp:722-730 | Up to any entry of a sender's, a recipient's queue holds, of each transfer, exactly the sender's log from the recipient's registration on |
| EndToEnd.SameProgress | RemoteclipboardCliForLinux/clipboard_sync.cpp:657-696 | A client that heard a transfer from before its opening sees the same opening, chunks and octets as the server at the completion, although it ignores chunk numbers |
| EndToEnd.JoinedWhenRegistered | server_common/tcpserver.cpp:829-836 | The position from which a client hears a sender is how many broadcasts that sender had made when the client registered |
| ServerSystem.SystemOk | server_common/tcpserver.cpp:670-731 | Every run of handlers and threads together keeps the joint invariant: what a session has broadcast is its log of accepted messages, but for one still due |
| ServerSystem.BothViews | server_common/tcpserver.cpp:689-731 | Every run of the whole server is a run of its storage and a run of its threads, so the theorems about either hold of it |
| ServerSystem.ProcessLogs | server_common/tcpserver.cpp:704-730 | A message is logged for broadcast if and only if its handler accepted it, and no other session changes |
| ServerSystem.OnlyAuthenticated | server_common/tcpserver.cpp:733-766 | A session is greeted only in answer to its successful login, so only authenticated sessions are ever greeted, registered or heard |
| Broadcasts.TextReachesEveryone | server_common/tcpserver.cpp:706-730 | In every run, a clipboard text that an authenticated session sends after another session registered stands in its log for good, and at any later moment it is due for broadcast, on its way to that other session, or in its queue with its content and the name of the user who sent it, unless that session has left or is closing |
| Broadcasts.Reached | server_common/router.cpp:18-34 | The same of every message logged after a recipient registered: bundles, openings, chunks and completions included |
| Broadcasts.SystemSigned | server_common/tcpserver.cpp:722-730 | In every run what a session has broadcast is its log, message by message, each reading as the server read it and signed with the session's user name; what is still due is too |
| Broadcasts.TextAccepted | server_common/tcpserver.cpp:706-730 | A clipboard text of an authenticated session is always accepted: logged, due for broadcast under the user's name, the storage left as expiry left it |
| Broadcasts.PingAnswered | server_common/tcpserver.cpp:702-705 | A ping of an authenticated session is answered, and nothing but expiry touches the storage |
| Broadcasts.HandlersDecide | server_common/tcpserver.cpp:706-726 | A bundle or transfer message of an authenticated session is accepted exactly when its handler accepts it on what expiry left, with that handler's effects |
| Broadcasts.LoginBehind | server_common/tcpserver.cpp:733-766 | Behind every authenticated session, in every run, is a login message that limiter and credentials let through, and the session acts under that message's user name |
| Broadcasts.UserStays | server_common/tcpserver.cpp:753-756 | Once authenticated, a session stays so under the same user name for the rest of the run |
| Delivery.SenderServerRoundTrip | RemoteclipboardCliForLinux/clipboard_sync.cpp:452-496 | Amid any other traffic, and with any repeated, skipped, oversized or malformed chunks, second openings and rate-limited attempts of the same transfer in between, a file whose script arrives without quota, expiry or disk failure is committed under its own name, equal to the source, for every size, with or without a declared hash, by the only completion of its transfer since |
| Delivery.StrayStep | server_common/tcpserver.cpp:1094-1140 | Such a stray message is refused and leaves the transfer exactly where it is: a second opening, a chunk or completion of no open transfer, a chunk out of number, too long, undecodable, oversized or beyond the rate |
| Delivery.NothingStray | server_common/tcpserver.cpp:1094-1140 | When only the script is sent and each chunk finds room in its window, the whole script arrives when due |
| Undisturbed.FileArrives | server_common/tcpserver.cpp:1035-1178 | A file of any size, sent at any pace below a transfer's lifetime between messages, is committed if at the start its id is free, the quotas have room, each chunk has room in the window it falls into, and the disk works: nothing on the way can refuse it |
| Undisturbed.RoomAtOnce | server_common/tcpserver.cpp:814-827 | What fits the current window as a whole fits chunk by chunk, at whatever ticks the chunks come |
| Undisturbed.AcceptedEffects | server_common/tcpserver.cpp:1124-1139 | An accepted transfer message charges exactly its chunk and starts its transfer's lifetime anew |
| WholeFiles.CommitsAreWhole | server_common/tcpserver.cpp:1142-1178 | In every run in which closing loses nothing, every committed file is exactly the concatenation of the chunks accepted between its opening and its completion |
| Delivery.CommitsLast | server_common/tcpserver.cpp:1169-1177 | A committed file keeps its path and content for ever after |
| Delivery.CutSoFar | server_common/tcpserver.cpp:1116-1123 | After any part of a script the octets received are a prefix of the file, and the next chunk fits what is left |
| Delivery.ForeignStep | server_common/tcpserver.cpp:1022-1033 | No event other than the script's next message moves the transfer |
| Delivery.Elsewhere | server_common/tcpserver.cpp:689-731 | A step of one session changes no other session |
| ServerRuns.CommitIntegrity | server_common/tcpserver.cpp:1142-1178 | In every run every installed file holds a prefix of the concatenated chunks accepted since its opening, which were numbered 0, 1, 2, ... and add up to the declared size; it is the whole exactly when not shorter than declared; a declared hash is the hash of what is on disk |
| ServerRuns.CommitWholeIff | server_common/tcpserver.cpp:1150-1166 | An accepted completion installs the whole file if and only if closing the stream put at least the declared size on disk |
| ServerRuns.ShortFileInstalled | server_common/tcpserver.cpp:1150-1166 | Without a declared hash a file cut short by the close is installed all the same |
| ServerRuns.UpperCaseHashNeverCommits | server_common/filetransfer.cpp:208-213 | A declared hash with an upper-case digit is never matched |
| ServerRuns.QuotasHold | server_common/tcpserver.cpp:1044-1056 | In every reachable state each session has at most eight transfers whose declared sizes fit the limit together, none has received more than declared, and the budget counter is within the limit |
| ServerRuns.TransfersConserved | server_common/tcpserver.cpp:1035-1217 | Every opening has exactly one fate; it is live just when its transfer is in the table; work files and live transfers correspond one to one |
| ServerRuns.EndLeavesNothing | server_common/tcpserver.cpp:1208-1217 | When a session ends none of its work files is left and no transfer is live |
| ServerRuns.UnauthenticatedChangesNothing | server_common/tcpserver.cpp:697-700 | Before authentication no message changes a transfer, a file or a counter |
| ServerRuns.NextGood | server_common/tcpserver.cpp:689-731 | Every event keeps the server's invariant |
| ServerRuns.Always | server_common/tcpserver.cpp:689-731 | The invariant holds in every run from any storage directory |
| ServerSteps.OpenGood | server_common/tcpserver.cpp:1035-1092 | An opening keeps the invariant, accepted or not |
| ServerSteps.ChunkGood | server_common/tcpserver.cpp:1094-1140 | A chunk keeps the invariant, accepted or not |
| ServerSteps.CompleteGood | server_common/tcpserver.cpp:1142-1178 | A completion keeps the invariant, accepted or not |
| ServerSteps.BundleGood | server_common/tcpserver.cpp:919-1020 | A bundle keeps the invariant, accepted or not |
| ServerSteps.DiscardGood | server_common/tcpserver.cpp:1180-1217 | Expiry and cleanup keep the invariant |
| Server.Compose | server_common/tcpserver.cpp:1022-1033 | A session's step that minds its own files and its own directory keeps every other session in order |
| StoredBytes.StoredWithinCharged | server_common/tcpserver.cpp:973-976 | Over every run the disk grows by at most what the upload budget was charged |
| StoredBytes.ChunkPaid | server_common/tcpserver.cpp:1124-1136 | A chunk adds no more to the disk than it was charged |
| StoredBytes.BundlePaid | server_common/tcpserver.cpp:973-1020 | A bundle adds no more to the disk than it was charged |
| Dispatch.ProcessMessage | server_common/tcpserver.cpp:689-731 | The method on mutable objects does exactly what the specification of one message says; a login succeeds if and only if the session was not logged in, both credentials are the configured ones, fewer than 4096 keys are running and neither the address nor the account has five failures in its window; a refused one leaves the session closing and the registrations alone; authenticated texts are accepted and pings answered, with the storage as expiry left it; an accepted message is offered once to every other registered session, anything else answered once |
| Dispatch.HandleMessage | server_common/tcpserver.cpp:696-726 | Everything but logins, up to what goes out: refused before authentication, otherwise a ping is answered, a text accepted, and the rest decided by its handler |
| Dispatch.Respond | server_common/tcpserver.cpp:838-854 | One broadcast for an accepted message, one reply otherwise, nothing else |
| Dispatch.ProcessIsDispatch | server_common/tcpserver.cpp:689-731 | That specification is the step the run theorems are about |
| Dispatch.ReachableIsOrderly | server_common/tcpserver.cpp:1116-1123 | Every reachable state meets what the methods rely on |
| Dispatch.AuthenticateClient | server_common/tcpserver.cpp:733-766 | A login succeeds if and only if the session was not logged in, user name and password are the configured ones, fewer than 4096 keys are running, and neither the address nor the account has five failures in its running window; it is answered once; a session that succeeds is registered, one that fails is closing and not registered, and the failure is recorded |
| Dispatch.HandleChunkTransfer | server_common/tcpserver.cpp:1022-1033 | The three handlers, chosen by message type |
| Transfers.TransferServer.QuotaAllows | server_common/tcpserver.cpp:1044-1056 | The early-exit loop refuses exactly when the full sum would exceed the limit, in any order, and its subtraction never wraps |
| Transfers.TransferServer.CheckStart | server_common/tcpserver.cpp:1038-1062 | The checks of an opening, in the code's order |
| Transfers.TransferServer.HandleChunkTransferStart | server_common/tcpserver.cpp:1035-1092 | The opening handler equals its specification, every failure included |
| Transfers.TransferServer.HandleChunkTransferChunk | server_common/tcpserver.cpp:1094-1140 | The chunk handler equals its specification; no subtraction wraps |
| Transfers.TransferServer.HandleChunkTransferComplete | server_common/tcpserver.cpp:1142-1178 | The completion handler equals its specification |
| Verdicts.StartAcceptedIff | server_common/tcpserver.cpp:1038-1089 | An opening is accepted exactly when its id is new, fewer than eight transfers are open, the declared sizes fit the limit together, its hash is absent or 64 hexadecimal digits, and directory and work file can be made; each refusal has its code |
| Verdicts.StartLeaves | server_common/tcpserver.cpp:1064-1091 | An accepted opening adds one transfer with an empty work file, number zero and five minutes to live; a refused one changes neither files nor table |
| Verdicts.ChunkAcceptedIff | server_common/tcpserver.cpp:1098-1139 | A chunk is accepted exactly when its transfer is open and expects its number, its text has at most 699056 characters and decodes to at most 512 KiB that still fit, the window has room, and it can be written; each refusal has its code |
| Verdicts.RefusedChunkLeaves | server_common/tcpserver.cpp:1099-1135 | A refused chunk leaves files and table alone and of the budget at most rolls a window on that was over; only a failed write takes its transfer, and nothing else, with it |
| Verdicts.AcceptedChunkLeaves | server_common/tcpserver.cpp:1124-1139 | An accepted chunk is charged, appended to its work file and counted, and its transfer lives five more minutes; no other file or transfer changes |
| Verdicts.CompleteAcceptedIff | server_common/tcpserver.cpp:1145-1177 | A completion is accepted exactly when the transfer is open, as many octets were received as declared, what is on disk has the declared hash, and it can be renamed; each refusal has its code |
| Verdicts.CompleteLeaves | server_common/tcpserver.cpp:1150-1177 | Either way the transfer and its work file are gone and every other transfer stays; an accepted one leaves what was on disk under the first free name |
| Verdicts.ExpiryExact | server_common/tcpserver.cpp:1180-1206 | Exactly the transfers whose time has come go, each with its work file |
| Verdicts.EndExact | server_common/tcpserver.cpp:1208-1217 | The end of a session takes all of its transfers and work files, and nothing else |
| Transfers.TransferServer.DiscardTransfer | server_common/tcpserver.cpp:1194-1206 | A discarded transfer leaves with its work file |
| Transfers.TransferServer.CleanupExpiredTransfers | server_common/tcpserver.cpp:1180-1192 | Erasing while iterating removes exactly the expired transfers, in any order |
| Transfers.TransferServer.CleanupClientTransfers | server_common/tcpserver.cpp:1208-1217 | All transfers leave with their work files |
| Transfers.CleanupIdempotent | server_common/tcpserver.cpp:1180-1217 | Repeating a cleanup changes nothing |
| Transfers.TotalWithout | server_common/tcpserver.cpp:1049-1056 | The sum of declared sizes does not depend on the order of the table |
| Bundles.AllOrNothing | server_common/tcpserver.cpp:977-1020 | A bundle of at most 64 files adds one distinct file per entry with its octets and nothing else, or leaves everything as it was, whatever the names |
| BundleContents.BundleStored | server_common/tcpserver.cpp:949-1020 | An accepted bundle leaves, for each entry in order, one new file with exactly the octets the entry's data decodes to, under its sanitized name exactly when that is free at its turn and under another ordinary one if not; nothing else is added or changed |
| BundleContents.BundleAcceptedIff | server_common/tcpserver.cpp:928-1019 | A bundle is accepted exactly when it has at most 64 entries, each with name and data, short enough to decode, decoding within what is left of the routable limit, with the size and hash it declares; the window has room for the sum; and directory, part files and renames succeed |
| BundleContents.BundleLeaves | server_common/tcpserver.cpp:928-1019 | The charge is the sum of the decoded lengths, nothing when that is too much or an entry is unsound; a refused bundle leaves no file |
| BundleContents.FirstFault | server_common/tcpserver.cpp:936-969 | The first unsound entry refuses the bundle, under the code of what is wrong with it |
| BundleContents.ClientBundleAcceptedIff | RemoteclipboardCliForLinux/clipboard_sync.cpp:250-272 | Of a bundle built by the client only the number and the summed size of its files decide: the gates before decoding never bite |
| BundleContents.EncodedComesBack | server_common/tcpserver.cpp:949-955 | An entry whose data encodes some octets is stored as those octets |
| Bundles.CheckFiles | server_common/tcpserver.cpp:933-972 | The checking loop equals its specification, whose verdict and result `BundleContents` pins to the entries; the running total never exceeds the routable limit |
| Bundles.PersistFiles | server_common/tcpserver.cpp:919-1020 | The bundle handler equals its specification, which `BundleContents.BundleAcceptedIff`, `BundleStored` and `BundleLeaves` determine from the message |
| Bundles.WriteBundle | server_common/tcpserver.cpp:977-1020 | The write and rename loops, with removal on every failure |
| Storage.RenderInjective | server_common/tcpserver.cpp:1064-1078 | Different paths of the model are different paths on disk |
| UploadBudget.UploadLimiter.ConsumeUploadBudget | server_common/tcpserver.cpp:814-827 | Grants exactly when the bytes fit beside what the current window was charged, or beside nothing once it is a minute old; charges them or nothing; the subtraction never wraps |
| UploadBudget.UploadBounded | server_common/tcpserver.cpp:814-827 | Over every sequence of requests no window exceeds the limit, windows are a minute apart, and no minute exceeds twice the limit |
| UploadBudget.GrantedExactly | server_common/tcpserver.cpp:818-826 | After any requests, one more is granted if and only if what was granted in the window it falls into and its own bytes are within the limit; a minute after the window opened anything up to the limit is |
| UploadBudget.TwiceIsAttained | server_common/tcpserver.cpp:814-827 | The factor two is attained |
| Windows.AnyMinuteAtMostTwice | server_common/tcpserver.cpp:814-827 | The windowing lemma both limiters share |
| AuthLimiter.AuthenticationLimiter.AuthenticationAllowed | server_common/tcpserver.cpp:768-790 | Purges a full table of every key whose window is over, and allows exactly when fewer than 4096 are running and neither key has five failures |
| AuthLimiter.AuthenticationLimiter.RecordAuthenticationFailure | server_common/tcpserver.cpp:792-812 | Counts one failure for the address and one for the account, in a new window where none is running, as far as the table has room; no other key changes |
| AuthLimiter.FailuresBounded | server_common/tcpserver.cpp:741-812 | Over every run the table stays within 4096 entries, and each address and each account is charged with at most five allowed failures per window and ten in any minute |
| AuthLimiter.AllowedIff | server_common/tcpserver.cpp:772-789 | An attempt is allowed exactly when fewer than 4096 keys are running and neither the address nor the account has five failures in its running window |
| AuthLimiter.RefusedForCause | server_common/tcpserver.cpp:741-812 | Over every run a login with the right credentials is refused only while 4096 keys are running, or when its address or its account failed five times within the last minute |
| AuthLimiter.AttemptRecords | server_common/tcpserver.cpp:798-811 | A failed attempt, allowed or not, adds one to each of its keys in the running window or begins the next; a successful one leaves every entry alone |
| AuthLimiter.WhenCharged | server_common/tcpserver.cpp:798-811 | An allowed failure is always charged to its address, and to its account exactly when that is in the table or there is room for it beside the address |
| AuthLimiter.AccountUncounted | server_common/tcpserver.cpp:798-811 | With one place left in the table a failure from a new address leaves the account uncounted |
| AuthLimiter.PurgeNeutral | server_common/tcpserver.cpp:772-786 | Purging never changes whether a key is below its limit |
| AuthLimiter.NoLimitAtTickZero | server_common/tcpserver.cpp:803-807 | At clock tick zero failures never add up |
| ClientLoop.Serve | server_common/tcpserver.cpp:493-534 | For every stream in every fragmentation the frames processed are the non-blank ones of a prefix of its newline split, all of it when reads run out; the frame error comes exactly when the bound is exceeded, the quota error only when the next or the pending frame is above 16 KiB before authentication; nothing is processed once the session is closing |
| ClientLoop.Drain | server_common/tcpserver.cpp:514-527 | The inner loop over completed frames |
| ClientLoop.NonEmptyIs | server_common/tcpserver.cpp:521-523 | Exactly the blank frames are dropped |
| ClientLoop.NonEmptyAppend | server_common/tcpserver.cpp:521-523 | Whether a frame is dropped does not depend on what stands around it |
| Framing.FrameParser.Append | server_common/frameparser.cpp:14-35 | One read, byte by byte, overflow included |
| Framing.FrameParser.PopFrame | server_common/frameparser.cpp:37-45 | The oldest completed frame, if any |
| Framing.FragmentationIndependence | server_common/frameparser.cpp:14-45 | For every stream, fragmentation and placement of pops: overflow exactly when a newline-free piece exceeds the bound; otherwise popped, queued and pending are the newline split; what was popped is always a prefix of it within the bound |
| Framing.SplitRebuilds | server_common/frameparser.cpp:14-45 | The split loses nothing: joining with newlines rebuilds the stream |
| Framing.SplitAppend | server_common/frameparser.cpp:14-45 | More bytes only continue the pending piece |
| Framing.LineReader.Poll | RemoteclipboardCliForLinux/clipboard_sync.cpp:527-541 | The find and erase loop yields the trimmed non-blank lines and keeps the rest |
| Framing.TrimIs | RemoteclipboardCliForLinux/clipboard_sync.cpp:49-57 | Trimming takes blanks off both ends and nothing else |
| Framing.TidyIff | RemoteclipboardCliForLinux/clipboard_sync.cpp:531-534 | A line passes unchanged exactly when it is not empty and has no blank at either end |
| Framing.PollsSeeStream | RemoteclipboardCliForLinux/clipboard_sync.cpp:527-541 | The client's lines depend on the stream alone |
| Framing.ClientAgreesWithServer | server_common/frameparser.cpp:14-45 | On one stream within the bound the client's lines are the server's frames, trimmed and without blanks |
| Framing.FramingRoundTrip | server_common/tcpserver.cpp:612-615 | Newline-free payloads come out of the server's parser in order and unchanged, for every fragmentation, exactly when each is within the bound; out of the client trimmed and without blank ones |
| Relay.GapFreeFifo | server_common/router.cpp:18-34 | In every interleaving what a queue accepted of a sender is a contiguous, in-order segment of its broadcasts from the registration on, and all of them, but one on its way, while the recipient is registered and open |
| Relay.SegmentStart | server_common/tcpserver.cpp:829-836 | Registration happens once and fixes where that segment starts |
| Relay.QueueAndWire | server_common/tcpserver.cpp:536-610 | The byte count is the sum of what is queued and within the bound, taking never wraps it, and the wire carries a prefix of what was accepted, under partial sends and concurrent enqueues and closings |
| Relay.ClosingHasCause | server_common/tcpserver.cpp:593-626 | In every interleaving a session is closing if and only if somebody closed it, its writer stopped, or something offered to it did not fit beside what was queued |
| Relay.FittingIsQueued | server_common/tcpserver.cpp:600-609 | In every interleaving whatever is offered to an open session and fits is queued behind what is there, and the session stays open |
| Relay.AuthOrdering | server_common/tcpserver.cpp:746-764 | A relayed payload is queued only behind the session's successful authentication reply, only for registered sessions, never at its own sender |
| Relay.NextOk | server_common/tcpserver.cpp:536-626 | Every step of every thread keeps the relay's invariant |
| Relay.DeliverLinks | server_common/router.cpp:31-33 | One recipient's turn keeps every pair of sender and recipient in order |
| SendQueue.Connection.Enqueue | server_common/tcpserver.cpp:593-610 | Appends the payload exactly when the session is open and the queued lengths and its own fit the bound together; otherwise refuses, and the session is closing for good |
| SendQueue.Connection.TakePayload | server_common/tcpserver.cpp:543-551 | The writer takes the oldest payload; the byte count never wraps |
| SendQueue.Connection.WriteRaw | server_common/tcpserver.cpp:572-591 | What left is exactly what the partial sends took before a failure or a closing, a prefix of the payload; success means all of it |
| SendQueue.GoneIsSum | server_common/tcpserver.cpp:572-591 | What goes out is the sum of the sends up to the first that fails or sees the session closing |
| SendQueue.Connection.RequestClose | server_common/tcpserver.cpp:617-626 | Closed for good, with nothing queued lost or added |
| SendQueue.WireIsPrefix | server_common/tcpserver.cpp:536-591 | What was sent is a prefix of what was accepted, and all of it once queue and writer are empty |
| Router.MemoryRouter.Snapshot | server_common/router.cpp:20-29 | Every registered session but the excluded one, once each |
| Router.MemoryRouter.Broadcast | server_common/router.cpp:18-34 | Undisturbed, the payload is offered once to every recipient and to nobody else |
| Receiver.ReceivingClient.HandleChunkTransfer | RemoteclipboardCliForLinux/clipboard_sync.cpp:625-696 | The client's handler equals its specification |
| Receiver.ReceivingClient.Close | RemoteclipboardCliForLinux/clipboard_sync.cpp:404-412 | What is incomplete is removed |
| Receiver.AbandonIs | RemoteclipboardCliForLinux/clipboard_sync.cpp:404-412 | Exactly the files of incomplete transfers go when the connection closes; saved files stay |
| Receiver.TargetIs | RemoteclipboardCliForLinux/clipboard_sync.cpp:634-651 | A relayed file goes into the batch of its sender and time, under its sanitized name exactly when that is free, never onto another file |
| Receiver.ReceiverMirrors | RemoteclipboardCliForLinux/clipboard_sync.cpp:625-696 | After any messages, what is open is what was opened and not completed, each with a file of its own that holds what the messages about it carry; saved files stay as they were |
| Receiver.SavedIff | RemoteclipboardCliForLinux/clipboard_sync.cpp:673-696 | A completion saves the file if and only if the size as read is zero or right and the hash, if any, is right; otherwise the file, and no other, is removed |
| Receiver.SizeCheckIff | RemoteclipboardCliForLinux/clipboard_sync.cpp:645 | For every 64-bit size: it reads as zero or right exactly below two gigabytes, at multiples of four, and in the last two gigabytes below 2^64 |
| Receiver.TwoGigabytesDiscarded | RemoteclipboardCliForLinux/clipboard_sync.cpp:676-681 | A complete file of two gigabytes is thrown away |
| Sender.Outlet.SendFile | RemoteclipboardCliForLinux/clipboard_sync.cpp:455-492 | The read loop sends the file's script, or its first part when the connection fails |
| Sender.Outlet.SendChunkedFiles | RemoteclipboardCliForLinux/clipboard_sync.cpp:452-496 | The scripts of the readable files, one after the other |
| Sender.WriteAll | RemoteclipboardCliForLinux/clipboard_sync.cpp:699-715 | What left is exactly what the sends took before a failure, a prefix of the payload; success means all of it |
| Sender.SentIsSum | RemoteclipboardCliForLinux/clipboard_sync.cpp:699-715 | What goes out is the sum of the sends up to the first that fails |
| Sender.ScriptIsWellCut | RemoteclipboardCliForLinux/clipboard_sync.cpp:465-492 | Every script opens with the file's size, numbers its chunks from 0, keeps each within the bound, decodes to the file, and completes |
| Sender.ChunkCount | RemoteclipboardCliForLinux/clipboard_sync.cpp:473-487 | One chunk per started 512 KiB, none for an empty file |
| Sender.ChunkIs | RemoteclipboardCliForLinux/clipboard_sync.cpp:473-487 | The k-th chunk carries number k and encodes the k-th half mebibyte of the file, the last one what is left |
| Sender.ScriptsInOrder | RemoteclipboardCliForLinux/clipboard_sync.cpp:455-496 | What is sent for several files is the script of each readable one, whole and in order, and nothing else |
| Sender.IdInjective | RemoteclipboardCliForLinux/clipboard_sync.cpp:461-463 | Files sent at different ticks or under different names get different transfer ids |
| Sender.ScriptValidIff | client_common/protocol.cpp:94-121 | Exactly when validation lets a whole script through, for every file size the 64-bit field can hold |
| Protocol.RelayedViewAgrees | server_common/tcpserver.cpp:722-730 | Both ends read the same transfer message out of a relayed object |
| Protocol.ValidIff | client_common/protocol.cpp:64-125 | A message is valid exactly when every field its handler takes out is there, of the right type and within its bound |
| Protocol.ForwardedValid | server_common/tcpserver.cpp:722-730 | Filling in the sender leaves a message as valid as it was |
| Protocol.StartValid | client_common/protocol.cpp:94-107 | A built opening is valid exactly within the bounds and reads back as built |
| Protocol.ChunkValid | client_common/protocol.cpp:108-115 | A built chunk is valid exactly within the bounds and reads back as built |
| Protocol.CompleteValid | client_common/protocol.cpp:116-121 | A built completion is valid exactly within the bounds and reads back as built |
| Protocol.AuthValid | client_common/protocol.cpp:22-25 | A built login is valid exactly within the bounds, and user name and password read back as built |
| Protocol.ClipboardTextValid | client_common/protocol.cpp:27-30 | A built clipboard text is valid exactly within the bound and reads back as built |
| Protocol.FileBundleValid | RemoteclipboardCliForLinux/clipboard_sync.cpp:268-273 | A built bundle is valid exactly when it has entries |
| Protocol.BundleItemReads | RemoteclipboardCliForLinux/clipboard_sync.cpp:250-255 | A built entry reads back with its name, data, size and hash |
| Messages.TrackOnly | server_common/tcpserver.cpp:1094-1140 | A transfer's progress depends on the messages about it alone |
| Messages.TrackSuffix | RemoteclipboardCliForLinux/clipboard_sync.cpp:634-655 | Once a log contains the opening, what came before is irrelevant |
| Base64.EncodeDecode | server_common/filetransfer.cpp:71-138 | Decoding undoes encoding, for every sequence of octets |
| Base64.DecodeAccepts | server_common/filetransfer.cpp:71-125 | Acceptance and decoded length, exactly |
| Base64.SymbolIsTabled | server_common/filetransfer.cpp:127-138 | Each symbol is the one table 1 of RFC 4648 gives, and stands for its place in it |
| Base64.GroupDenotes | server_common/filetransfer.cpp:127-138 | Three octets and their four symbols are the same 24-bit number |
| Base64.TailIsPadded | server_common/filetransfer.cpp:127-138 | One or two last octets are encoded with zero fill bits and padding |
| Base64.WhitespaceIrrelevant | server_common/filetransfer.cpp:73-79 | Whitespace inserted anywhere changes nothing |
| Base64.DecodeBase64 | server_common/filetransfer.cpp:71-125 | The loops compute the specification |
| Base64.EncodeBase64 | server_common/filetransfer.cpp:127-138 | The encoding, which decodes to the input |
| Base64.GatesExact | server_common/tcpserver.cpp:1110-1123 | The early length gates reject no canonical encoding that the decoded length would pass, for chunks and at every running total of a bundle |
| FileNames.SanitizeFileName | server_common/filetransfer.cpp:15-34 | The in-place replacement computes a safe name |
| FileNames.SanitizedIsSafe | server_common/filetransfer.cpp:15-34 | Every sanitized name is safe, and exactly the safe names are left alone |
| FileNames.SanitizedExact | server_common/filetransfer.cpp:15-34 | For every client-supplied path: its last component, or the stock name where that names no file, an underscore for each control, separator or reserved character, cut after 240 |
| FileNames.MakeFilePathUnique | server_common/filetransfer.cpp:52-69 | The probing loop computes the first free name |
| FileNames.UniqueNameIsFree | server_common/filetransfer.cpp:52-69 | The probe fails only when all ten thousand names and the fallback are taken |
| FileNames.UniqueNameFirst | server_common/filetransfer.cpp:52-69 | The name itself if free, else the first free one of its numbered candidates, else the time-stamped one |
| FileNames.ExtensionIs | server_common/filetransfer.cpp:58-59 | The number goes before the extension, which begins at the last dot unless that leads the name |
| FileNames.UniqueNamePlain | server_common/filetransfer.cpp:52-69 | In a directory of fewer entries than probes the chosen name is free and ordinary, and the one asked for exactly when that is free |
| FileNames.OccupiedCount | server_common/filetransfer.cpp:52-69 | Pigeonhole over the numbered candidates |

## Left out

- Handlers as atomic steps: the storage work of one message is one step; event numbers drawn by two sessions at the same moment, or by `recordAcceptedEvent`, do not interleave with it (numbers are only ever skipped, never reused).
- Sockets, TLS, OpenSSL, SQLite, the JSON library and OS threads: abstract steps, parameters and answers of the surroundings.
- `recordAcceptedEvent`, retention scanning and the event store: I/O and single-statement database behaviour.
- Accept loop, connection and handshake limits, process shutdown: they depend on the OS; the model keeps only the `closing` flag.
- `std::filesystem` calls that throw instead of reporting failure, and directories that cannot be removed.
- Delivery.CommitsLast: retention scanning, which deletes stored files after some days, is not modelled; nothing else removes a committed file.
- Dispatch.ProcessMessage: `recordAcceptedEvent`, which runs between the handler and the broadcast, and log output are not modelled.
- Dispatch.AuthenticateClient: the pause of a tenth of a second before a failed session is closed is not modelled.
- Sender.WriteAll: the `close` that follows a failed send is `Receiver.ReceivingClient.Close`; the method only reports the failure.
- Relay.Run: a send may happen after the session was seen closing, and a writer may stop at any time; the model allows more interleavings than the code, never fewer.
- Relay.QueueAndWire: says nothing about when queued bytes are sent (no fairness is assumed).
- Delivery.SenderServerRoundTrip: starts from messages; that each message fits a frame and the queue is not part of it, validation bounds are in `Sender.ScriptValidIff`.
- EndToEnd.ReceiverEqualsServer: failures of the receiving client's own disk while writing, and bundles written into the same batch directory, are not modelled.
- Receiver.ReceivingClient.HandleChunkTransfer: `saveLegacyFiles` and the clipboard are not modelled.
- Router.MemoryRouter.Broadcast: the method is sequential; its interleaving with other threads is the subject of `Relay`.
- FileNames.SanitizeFileName: paths are POSIX paths; on Windows a backslash also separates components.
- Base64.DecodeBase64: the code relies on OpenSSL for the inner blocks; they are modelled by section 4 of RFC 4648, with `=` decoding as zero bits.
- The `mime` field and optional request ids: stored or echoed, with no effect on any property here.
- GUI clients, heartbeats, clipboard echo suppression, configuration, packaging and command lines.
