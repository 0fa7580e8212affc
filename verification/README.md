# CTMP proxy: a verified model

The program is a proxy for the CoreTech Message Protocol (CTMP). One source connects and sends
messages; every receiver connected at the time gets each valid message. Inside, a source thread
parses messages and appends timestamped entries to a shared queue that is never shortened; a pool
of workers, one per receiver, walks the queue and forwards what is newer than its receiver; a
destination server hands new receivers to idle workers; a cleanup thread frees message data past
its time to live.

The project models the three linked cores and proves what they do over all inputs and all runs.

| file | content |
|---|---|
| `Common.dfy`, `Timestamp.dfy`, `Bitmask.dfy` | bytes and 16-bit words, clock readings, the 64-bit mask with its `int` shift |
| `Checksum.dfy` | `calc_checksum` and the checksum of RFC 1071 |
| `Wire.dfy`, `Ctmp.dfy`, `Framing.dfy` | partial reads and writes, both parsers, sending, whole byte streams |
| `Server.dfy` | the running server as one transition system |
| `Pool.dfy`, `Ownership.dfy` | the worker pool: statuses, mask, locks, wake-ups, who serves whom |
| `Sessions.dfy`, `Delivery.dfy`, `Broadcast.dfy`, `Marks.dfy`, `Timing.dfy` | what each receiver is sent, in what order, and what the sent masks mean |
| `Words.dfy` | the program's 64-bit masks carried along every run |
| `Cleanup.dfy` | what is freed, when, and who can still be looking |
| `EndToEnd.dfy` | source bytes against receiver bytes |
| `Blocking.dfy` | when each thread can take a step, exactly |
| `Runs.dfy`, `Progress.dfy`, `Service.dfy` | what each thread gets done by its own steps |
| `Witnesses.dfy` | concrete runs that show where the obvious promises fail |

`dafny verify dfyconfig.toml` checks the whole project.

## How the program is represented

*Codec.* A socket is a finite script of events: data in pieces of any size, interrupts, failures.
The methods of `Wire` and `Ctmp` keep the loops and buffers of lib/ctmp.c and are proved against
functions of the script: reading against functions of its *content*, the bytes and failures
without chunk boundaries and interrupts. A *unit* is a piece of stream that one parser call uses up
exactly: a whole frame, an empty frame, or 8 bytes without the magic byte. The host is little-endian with a 64-bit `long`.

*Server.* The threads share memory, so they are steps of one machine. Each action of `Server` is
one critical section, one shared access or one system call: `ServeAfter` (ws_server.c:112-138),
`ParkAfter` (ws_server.c:143-168), `DstNext` (ws_server.c:189-230 with lib/thread.c:56-141),
`CleanerNext` (ws_server.c:246-270 with lib/msg_queue.c:52-66), `SrcNext` (ws_server.c:67-95 with
lib/msg_queue.c:21-44), `GetEntry` (lib/msg_queue.c:82-118), `CanForward` (lib/msg_queue.c:162-169).
`Exec` runs any sequence of actions and `Reachable` means reached by some sequence, so a lemma that
requires `Reachable` holds in every interleaving. New clients, dead connections, the size and
failure of each `send`, spurious wake-ups and the clock are choices of the environment; the clock
never runs backwards. A dereference of freed data ends the run in a fault state. A *session* is one
client's tenure on a worker; sessions, the assignment log, the source streams, the mask at the
start of a scan and the clock at the start of a pass are history that no step reads.

*Masks.* The server machine holds the busy mask and the sent masks as sets of worker indices.
`Words.WordsAgree` carries the program's 64-bit words along every run and shows that they agree
with the sets for up to 32 workers, the default.

## Where the code and its documentation differ

The model follows the code.

- Padding bytes are documented as checked; the mask is zero, so the check always succeeds.
- `send_ctmp_msg` and the read helpers are documented to return a byte count; they return 0 or a
  negative number.
- `lib/args.h` allows 64 workers; the mask tells at most 32 apart.
- The cleanup thread is documented to remove expired entries; it frees their data, keeps the
  entries, and starts another pass only when a new entry arrives.
- A comment in `can_forward` says the timestamp test keeps workers away from freed masks; the
  reset of a sent bit on reassignment has no such test.
- A message with a bad magic byte is documented as dropped; only its first 8 bytes are.

## Model

| member | source | states |
|---|---|---|
| `Timestamp.BeforeIsStrictOrder` | lib/timestamp.c:24-33 | comparing timestamps is a strict total order, also after adding the time to live |
| `Timestamp.InstantsCompare` | lib/timestamp.c:24-33 | on clock readings, whose nanoseconds are below one second, the comparison is that of the instants in nanoseconds, and a time to live adds that many seconds |
| `Bitmask.Mask.SetBit` | lib/bitmask.c:25-32 | after setting or clearing a position, `is_set` answers that value at every position with the same residue modulo 32 and is unchanged at all others; bits 31..63 stay uniform |
| `Bitmask.IsSetReads` | lib/bitmask.c:14-18 | on any mask `is_set` reads the bit at the residue modulo 32 and, for residue 31, the sign-extended half too |
| `Bitmask.MaskRefinesSet` | lib/bitmask.c:14-32 | for every history of calls at positions 0..31, the mask answers as a mathematical set of positions, and bits 31..63 are all equal |
| `Bitmask.MaskCapacityIs32` | lib/bitmask.c:14-32 | n positions behave as a set for all histories iff n is at most 32 |
| `Bitmask.Alias` | lib/bitmask.c:14-32 | the failing case: position 32 reads what was written at position 0 |
| `Checksum.AddHeaderWords` | lib/ctmp.c:322-326 | the header loop adds the little-endian words of the filled header |
| `Checksum.AddDataWords` | lib/ctmp.c:328-339 | the data loop adds all words and the leftover byte of an odd length |
| `Checksum.FoldCarries` | lib/ctmp.c:341-343 | the folding loop ends below 2^16 with the folded value |
| `Checksum.CalcChecksum` | lib/ctmp.c:304-347 | the result with its bytes swapped is the RFC 1071 checksum of the 0xCC-filled header and the data, and is never 0xFFFF |
| `Checksum.SumsCongruent` | lib/ctmp.c:324-339 | 256 times the deferred little-endian sum and the end-around-carry network-order sum differ by a multiple of 65535, and vanish together |
| `Checksum.FoldCongruent` | lib/ctmp.c:341-343 | folding changes the sum by a multiple of 65535 and keeps it positive |
| `Checksum.HostChecksumIsSwappedRfc` | lib/ctmp.c:304-347 | byte-order theorem: the folded, complemented little-endian sum is the byte-swapped network-order checksum, for every header and every length including odd ones |
| `Checksum.FieldMatchesIffRfc` | lib/ctmp.c:409-413 | the comparison succeeds iff the field holds, in network order, the RFC 1071 checksum |
| `Checksum.RawSumBound` | lib/ctmp.c:306-343 | for every message the raw sum is at most 2147634633 and two folds suffice |
| `Checksum.RawSumBoundReached` | lib/ctmp.c:306-339 | that bound is attained, beyond a 32-bit `long` |
| `Checksum.SealedMatches` | lib/ctmp.c:304-347 | storing the result of `calc_checksum` into the field makes the field match |
| `Checksum.UndetectedIffCongruent` | lib/ctmp.c:407-418 | with the field kept, altered contents still match iff the raw sums agree modulo 65535 |
| `Checksum.DataByteDetected` | lib/ctmp.c:407-418 | any single changed data byte breaks the match |
| `Checksum.HeaderByteDetected` | lib/ctmp.c:407-418 | any single changed header byte, the checksum field included, breaks the match |
| `Wire.ReadMsg` | lib/ctmp.c:34-66 | for every script the result, the buffer and the unread rest are a function of the content: success iff the length is at least 1 and that many octets come before any failure |
| `Wire.SendMsg` | lib/ctmp.c:82-110 | for every script of `send` results the return code, the bytes the peer gets (a prefix of the buffer) and the unused rest are those of `Wire.SendSpec` |
| `Wire.SentIffWilling` | lib/ctmp.c:82-110 | the peer gets the smaller of `len` and what it takes before the first failure or empty `send`; success iff that is all of it |
| `Wire.SendReportsLastEvent` | lib/ctmp.c:82-110 | a negative code reports the event that ended the call: minus `errno` for a failure, -1 for a `send` that takes nothing |
| `Ctmp.LengthIsNetworkOrder` | lib/ctmp.c:175-181 | the length field is decoded in network order |
| `Ctmp.ValidPadding` | lib/ctmp.c:141-167 | the padding check succeeds on every header |
| `Ctmp.ReadHeader` | lib/ctmp.c:118-122 | eight bytes are read as `Wire.ReadMsg` says |
| `Ctmp.ReadData` | lib/ctmp.c:189-204 | the data is read into a buffer that ends with a zero byte |
| `Ctmp.ParseCtmpMsg` | lib/ctmp.c:226-271 | the base parser agrees with `Ctmp.Parse` on every script |
| `Ctmp.CheckOptions` | lib/ctmp.c:402-425 | passes iff the options byte is 0x00, or 0x40 with a matching RFC 1071 checksum in network order |
| `Ctmp.ParseCtmpMsgExtended` | lib/ctmp.c:357-429 | the extended parser agrees with `Ctmp.Parse` on every script |
| `Ctmp.SendCtmpMsg` | lib/ctmp.c:280-294 | for every script the code and the bytes the peer gets are those of `Ctmp.FrameSpec`: a prefix of header and data, the data only after the whole header |
| `Ctmp.FrameSentIffWhole` | lib/ctmp.c:280-294 | with data to send, success iff the peer got the whole frame; otherwise the code reports the event that ended the send |
| `Ctmp.NoEventTakesBoth` | lib/ctmp.c:280-294 | header and data go out in separate calls: in no script does a single `send` take bytes of both |
| `Framing.ExactAcceptance` | lib/ctmp.c:226-271 | on any bytes a parser returns the leading frame iff magic, length, presence of all data and, in extended mode, options and checksum are right; used plus unread bytes are the input |
| `Framing.SameContentSameParse` | lib/ctmp.c:34-66 | two scripts with equal content give the same result and leave the same content, however cut and interrupted |
| `Framing.PaddingIrrelevant` | lib/ctmp.c:155-163 | outside sensitive frames, whose checksum covers them, padding bytes never change acceptance; the bytes used up are the same |
| `Framing.FramesOfUnits` | lib/ctmp.c:226-271 | over any list of whole frames, empty frames and 8-byte runs without magic, followed by anything, the parser stays aligned and yields exactly the acceptable frames, unchanged and in order |
| `Framing.StreamIsUnits` | lib/ctmp.c:226-271 | every byte stream is a list of such units followed by a rest too short for one |
| `Framing.UnitsAreUnique` | lib/ctmp.c:226-271 | and in only one way |
| `Framing.FramesOfStream` | lib/ctmp.c:226-271 | for every stream of bytes and read failures, with no condition, what the parser yields is exactly the acceptable units in order: a failure or the end costs only the unit it cuts |
| `Framing.AcceptedFrameReparses` | lib/ctmp.c:226-271 | every accepted frame parses back to itself alone |
| `Framing.BadMagicResumesInBody` | lib/ctmp.c:247-253 | a bad magic byte uses up exactly 8 bytes |
| `Framing.AfterBadMagic` | lib/ctmp.c:247-253 | what is forwarded after a bad magic byte is exactly the acceptable units of what follows the 8 bytes; nothing iff there is none |
| `Framing.BodyOfBadMessageForwarded` | lib/ctmp.c:247-253 | so the body of a dropped message is forwarded when it is itself a frame |
| `Framing.SealedFrameAccepted` | lib/ctmp.c:407-418 | every sensitive frame sealed with `calc_checksum` is accepted |
| `Framing.OneChangedByteDetected` | lib/ctmp.c:403-425 | after one changed byte outside the length field an accepted sensitive frame is accepted iff the change turned it into a normal message |
| `Pool.PoolInvReachable` | ws_server.c:143-161 | in every reachable state each worker's program point, status, lock and mask bit fit the stage of the destination server |
| `Pool.ClearBitMeansIdle` | ws_server.c:200-229 | a clear bit belongs to a worker that is not created yet or parked in its wait loop |
| `Pool.AssignmentNeverDropped` | ws_server.c:212-229 | the default branch is never taken and the assertion of `wake_up_thread` never fails |
| `Pool.IdleUntilAssigned` | ws_server.c:143-161 | only the destination server changes the bit or status of an idle worker |
| `Pool.ScanFoundNone` | lib/thread.c:56-73 | an answer of -1 means every worker was busy when the scan began |
| `Pool.ScanFound` | lib/thread.c:56-73 | an answer of i means all lower workers were busy when the scan began and i is idle on return |
| `Pool.MaskShrinksDuringScan` | lib/thread.c:56-73 | while a scan runs the mask only loses bits |
| `Pool.NoLostWakeUp` | lib/thread.c:113-141 | a worker asleep with a client is held by the destination server, which is on its way to signal it |
| `Pool.WaitsAreShort` | lib/thread.c:113-141 | the holder of the mask lock waits for nothing, the holder of a worker lock at most for the mask lock |
| `Pool.NoCircularWait` | lib/thread.c:113-141 | no reachable state has a circular wait of any length |
| `Broadcast.HolderMoves` | lib/thread.c:113-141 | whoever holds a wanted lock can take a step or waits only for the mask lock behind a thread that can; the holder of the mask lock releases it with its next step, which is always possible |
| `Blocking.DstBlockedIff` | ws_server.c:189-230 | the destination server is held up exactly while a lock it is about to take is held: never by a full pool |
| `Blocking.WorkerBlockedIff` | ws_server.c:111-168 | a worker can take a step, for a given answer of its client, iff its lock is free, an entry beyond its cursor exists when it is about to fetch one, and the answer is one of those possible at that point: alive or gone, any part of the header or of the data, failure iff the frame is incomplete |
| `Blocking.CleanerBlockedIff` | lib/msg_queue.c:82-118 | the cleanup thread is held up exactly while the queue is empty or holds nothing beyond its last pass |
| `Blocking.SourceNeverBlocked` | ws_server.c:67-95 | without a connection the source thread accepts any, with one it goes on reading, and it drops one exactly at its end |
| `Blocking.ClockGoesOn` | lib/timestamp.c:10-16 | the clock can be read as any instant no earlier than before |
| `Blocking.GetsAtCursor` | lib/msg_queue.c:82-118 | a worker fetches the entry at its cursor, and waits exactly when there is none yet |
| `Blocking.NextIsFollowing` | ws_server.c:130-133 | after an entry, `next` is the one that follows in the queue, NULL exactly when there is none |
| `Blocking.CleanerGoesOn` | ws_server.c:262-270 | a pass goes on to the entry that follows whenever there is one |
| `Progress.ScanFindsFirstIdle` | lib/thread.c:56-73 | the scan stops at the first idle worker |
| `Progress.ScanRetries` | ws_server.c:200-207 | when none is idle the scan begins again for the same client with the same timestamp |
| `Progress.ClientIsHandedOver` | ws_server.c:189-229 | from `accept`, with an idle worker, the next client is stamped with the clock and handed to the first idle worker; the whole new state |
| `Ownership.EachClientHandedOnce` | ws_server.c:190-229 | every accepted client but the one in hand has been handed over exactly once, in order of acceptance, to a worker of the pool that serves it, has served it or is about to |
| `Ownership.SessionIsLogged` | lib/thread.c:83-141 | every session has the client and the acceptance time of one assignment to its own worker: no half-written assignment is ever used |
| `Ownership.OneSessionPerClient` | ws_server.c:190-229 | a client has at most one session, over all workers and their whole past |
| `Delivery.DeliveryReachable` | ws_server.c:105-171 | in every reachable state queue, cursors, sessions, bytes sent, `bytes_sent` and sent bits satisfy the delivery invariant |
| `Broadcast.Slice` | ws_server.c:111-168 | a session has attempted exactly the entries newer than its client between its start and its cursor, a contiguous block in queue order |
| `Broadcast.AtMostOnce` | ws_server.c:111-168 | over all its clients a worker attempts each entry at most once, in queue order |
| `Broadcast.CursorAdvances` | ws_server.c:111-168 | no step of any thread moves a worker's cursor back |
| `Broadcast.TestAdvances` | ws_server.c:111-132 | every test of an entry that does not fault moves the cursor on by exactly that entry |
| `Broadcast.CompleteIff` | ws_server.c:105-132 | a session misses nothing up to its cursor iff it starts at the front or its client is not older than the entry before its start |
| `Broadcast.FirstSessionComplete` | ws_server.c:105-132 | a worker's first client misses nothing |
| `Broadcast.AtMostOnePassedOver` | ws_server.c:135-168 | a reassigned worker goes on where it stopped or one entry later |
| `Broadcast.PassedOverIff` | ws_server.c:116-168 | for every run from the step that closes a client to the start of the worker's next session: an entry is passed over iff that step was `is_alive` finding the client gone with `next` still NULL, that is, on an entry fetched with `current` NULL |
| `Broadcast.SameOrder` | ws_server.c:111-168 | any two sessions attempt their common entries in the same order |
| `Broadcast.ClosesIff` | ws_server.c:126-138 | after an entry a client is closed iff its own send failed, or nothing was attempted for it and the worker's last attempt for an earlier client failed |
| `Broadcast.UnprovokedCloseIsEarly` | ws_server.c:126-138 | a close without a failed send of its own happens on the first entry looked at, which the client was not owed |
| `Broadcast.EntryAtHand` | lib/msg_queue.c:82-118 | past the wait a worker's current entry is always in the queue |
| `Broadcast.GuardNeverFires` | lib/msg_queue.c:162-169 | in every reachable state `can_forward` answers as the timestamp comparison, or reads a freed mask, which it does iff the client is owed the entry and the mask is gone |
| `Broadcast.SentMaskIsRedundant` | lib/msg_queue.c:162-169 | every run that does not end in a fault is the same run, state by state, without the look at the sent mask |
| `Broadcast.UnguardedRunIsRun` | lib/msg_queue.c:162-169 | conversely every run without that look is the same run with it, or a prefix of the run with it ends in a fault |
| `Marks.SentIffAttempted` | lib/msg_queue.c:127-150 | for a serving worker and an examined entry the bit is set iff the entry was attempted for this client |
| `Timing.NoEarlierMessage` | ws_server.c:197-198 | in every run, a client accepted after an instant is never sent an entry queued before it |
| `Timing.StampedAtAcceptance` | ws_server.c:196-207 | in every run, however often the scan is retried, a client is handed over with the clock of its acceptance |
| `Timing.OwedSinceAcceptance` | lib/msg_queue.c:155-169 | so its session has attempted exactly the entries it examined that were stamped after that instant |
| `Timing.LaterMessageIsOwed` | lib/msg_queue.c:30-31 | in every run, an entry stamped after the clock has passed a client's acceptance is newer than that client |
| `Words.WordsAgree` | lib/bitmask.c:14-32 | in every run of at most 32 workers, `is_set` on the program's busy word and sent words answers as the machine's index sets do, and a sent word is NULL exactly when the machine's is |
| `Words.ForwardReadsWord` | lib/msg_queue.c:162-169 | `can_forward` on the program's word: timestamps first, a NULL word is read only then, and `is_set` decides |
| `Cleanup.FreesIffPastTtl` | ws_server.c:250-261 | the cleanup thread frees an entry exactly when, on the clock of this moment, more seconds and nanoseconds than the time to live have passed since its timestamp |
| `Cleanup.FreedOnlyAfterTtl` | ws_server.c:250-261 | in every reachable state whatever is freed is past its time to live in seconds and nanoseconds, message and mask together |
| `Cleanup.NoDoubleFree` | lib/msg_queue.c:52-66 | each `free` finds its object still allocated |
| `Cleanup.QueueOnlyGrows` | ws_server.c:240-274 | no step unlinks, reorders or revives an entry |
| `Cleanup.FaultIff` | lib/msg_queue.c:52-66 | exactly when a worker reads freed data, in every reachable state: at the test of an entry its client is owed, at the mark and at the reset iff message and mask are not both there; while sending iff both are gone |
| `Cleanup.FaultNeedsExpiry` | lib/msg_queue.c:162-169 | so it needs an expired entry, and a client owed that entry or the reset of a sent bit |
| `Cleanup.OldEntryFaultIff` | ws_server.c:156-159 | for a client not older than the entry, a step faults iff it is the reset and the mask went away after the check |
| `Cleanup.NoFaultWithinTtl` | lib/msg_queue.c:162-169 | within its time to live no worker faults on an entry |
| `Cleanup.CleanupProgress` | ws_server.c:246-270 | whatever else happens and however long new messages extend the pass, what had expired between two passes is freed once a later pass has gone by it |
| `Cleanup.QuietQueueKeepsData` | lib/msg_queue.c:98-110 | while nothing is appended, a cleanup thread at the end of the queue frees nothing, whatever expires |
| `Cleanup.FreedIffMessageArrived` | ws_server.c:246-270 | exactly when expired data is freed: between two rests of the cleanup thread, in every run, an entry that had expired by the first is freed by the second iff a message was appended in between |
| `Progress.PassFreesExpired` | ws_server.c:246-270 | a pass, exactly: woken up between two passes, the cleanup thread frees the data of precisely the expired entries of the whole queue and rests |
| `Progress.CleanerComesToRest` | ws_server.c:246-270 | from every reachable state with a message it comes to rest by its own steps |
| `EndToEnd.SourceConserved` | ws_server.c:75-90 | queue, message in hand and messages still to be parsed are together exactly what the source streams contain |
| `EndToEnd.ReceivedBytes` | ws_server.c:122-138 | what a session has sent is the block of accepted source frames from the first one newer than its client up to its cursor, byte for byte and in order, the last possibly cut |
| `EndToEnd.SocketIsSession` | ws_server.c:105-171 | everything a client's socket has taken, over all workers and sessions, is what its one session sent |
| `EndToEnd.ClientBytes` | ws_server.c:67-171 | end to end, for every client and every source content: all its socket has ever taken is one contiguous block of the acceptable source units, byte for byte and in order, the last possibly cut |
| `EndToEnd.CutFrameEndsSession` | ws_server.c:126-138 | after a cut frame nothing more is sent in that session |
| `Service.SendCovered` | lib/ctmp.c:280-294 | every outcome of sending a frame is a run of the machine: any part of the rest can be taken, and then the send can fail iff the frame is incomplete |
| `Service.SendFollowsScript` | lib/ctmp.c:280-294 | for every script the machine can follow `send_ctmp_msg` call by call: same bytes, then failure or success as its return code |
| `EndToEnd.QueuedFramesHaveData` | lib/ctmp.c:189-204 | every queued frame has a header and at least one byte of data |
| `Progress.SourceDelivers` | ws_server.c:67-95 | from any state without a source, for every stream, the source thread can accept a connection, queue everything the stream contains, stamped, and be back at `accept` |
| `Progress.EverySourceIsServed` | ws_server.c:67-95 | for every list of source connections some run queues exactly what they contain |
| `Service.HealthyClientGetsAll` | ws_server.c:105-138 | as long as nothing it is owed is freed, a worker can bring a live client to the end of the queue, having sent it whole, in order and byte for byte exactly the newer entries of its session |
| `Service.ClosesGone` | ws_server.c:116-120 | a client found gone is closed |
| `Service.ClosesAfterFailure` | ws_server.c:126-138 | after a failed send the attempt is marked, the failure remembered and the client closed |
| `Service.Parks` | ws_server.c:138-154 | a worker that has closed its client parks, idle by status and by bit |
| `Service.Resumes` | ws_server.c:152-168 | a woken worker resets its bit on the entry at hand, nobody else's, and starts the session of its next client at `next`, or after that entry when `next` is NULL |
| `EndToEnd.AllFramesOfUnits` | lib/ctmp.c:226-271 | whatever the source connections carry and wherever they end, the accepted frames are exactly their acceptable units |
| `Witnesses.OwedMessageMissed` | ws_server.c:116-120 | a run in which a client connected before a message misses it |
| `Witnesses.ExpiredDataKept` | ws_server.c:246-270 | a run in which the cleanup thread rests while a message is past its time to live and all its data is still there |
| `Witnesses.HealthyClientClosed` | ws_server.c:108-138 | a run in which `is_alive` finds a client alive and the worker's next steps close it although nothing was ever sent to it |
| `Witnesses.SlowReceiverFaults` | lib/msg_queue.c:162-169 | a run in which a worker slower than the time to live reads a freed mask |
| `Witnesses.ResetRaceFaults` | ws_server.c:156-159 | a run in which a client connected no earlier than an entry still makes its worker fault on it |

## Left out

- More than 32 workers in the server machine: the C standard leaves the shift of lib/bitmask.c undefined there; the exact limit is `Bitmask.MaskCapacityIs32`.
- Update in place in lib/thread.c, lib/msg_queue.c and ws_server.c: several threads share those structures, so each update is a step between values; pointer aliasing is not captured.
- The queue lock and the per-entry sent locks: each guards a single access and none is held while waiting for another, so they have no state of their own.
- A header `send` that fails before a byte of the freed message is read: any failing `send` on freed data is a fault, while the program would only fault at the mark that follows.
- Pointers read while `free` is in progress: the two fields are freed in two steps, but a step of a worker is never split by one of them.
- Sockets, `accept`, `recv` and `close` (lib/socket.c): choices of the environment.
- Logging (lib/log.c) and argument parsing (lib/args.c): no effect on the protocol.
- Allocation failure and `exit`: allocation always succeeds.
- The exponential backoff of the destination server, including the overflow of its delay: a retry is another scan.
- Big-endian hosts and a 32-bit `long`.
- Fair scheduling: `Progress` and `Service` show what each thread can always get done by its own steps, not that the scheduler lets it run.
