# Verification of the blob transfer stack

A Dafny model of the three layers of phosphor-ipmi-blobs, and proofs about whole runs of them:

* the session manager (`manager.cpp`), which keeps a session table, a reference count by path and a set of
  session ids by handler, a wrapping 16-bit id counter and a sweep of stale sessions;
* the example handler (`example/example.cpp`), with a 1024-byte buffer for each session;
* the command layer (`process.cpp`, `ipmi.cpp`, `ipmi.hpp`), from request bytes to reply bytes.

`dafny verify dfyconfig.toml` checks everything.

## How it is built

`Manager.BlobManager`, `Example.ExampleBlobHandler` and the functions of `Commands` are the code as it is
written, updating its tables, buffers and replies in place. Each method is proved against a specification:

* `Reference.Step` is a simple machine with one map from session id to (path, handler, flags, last time) and
  the history of handler calls. Delete asks whether any live session has the path, the sweep filters the map.
  The manager's reference counts and its index by handler are proved to be caches of that map.
* `ExampleSpec.Reply` and `ExampleSpec.Next` say what the example handler answers and how its table changes.
* `Wire.Serve` is admission, decoding, one `Step`, the reply and its framing.

Everything said about whole runs is then proved about these specifications. `AddSession`, `OpenOn`, `CollectStale`
and `ExpireEach` are stretches of `open` and of the sweep given a name of their own.

**Handlers.** A handler pointer is its identity (`HandlerId`). `World.answer` is an arbitrary function from the
history of all handler calls, the handler and the call to an answer, so a statement about every `World` covers
every behaviour of every handler, also of handlers that influence each other. `Coupling.IsExample` says that one
of them is an `ExampleBlobHandler`, which `ExampleRuns.Relive` ties to the class as written; the others stay arbitrary. Handlers do not call back into the manager.

**Clock.** Each call carries the clock readings it makes. An open makes two: one for the sweep, one for the new
entry. Nothing is assumed about how they are ordered, so every result also holds for a steady clock. The timeout is
any number; the source's default is ten minutes.

**CRC.** `ipmiblob::generateCrc` is not part of this model: it is an arbitrary function from bytes to 16 bits.

**Main results.** `Manager.BlobManager.Drive` (refinement over whole runs), `Contract.ContractHonoured` (the
calling contract), `Sweeping.SweepExact`, `Discipline.OpenExpiresTheIdle`, `Discipline.OpenIsTransactional`,
`Discipline.RoutedExactlyWhen`, `Replies.UnroutedRequests`, `Replies.RoutedRequests`,
`Discipline.UsedSurvivesRun`, `Reissue.ReissueDistance`, `Reissue.RepeatsExactlyWhen`, `SessionIds.FailsExactlyWhen`,
`Coupling.TablesAgree`, `ExampleRuns.Relive`, `Enumeration.EnumerationSnapshot`, `Ownership.LookupFindsTheHolder`,
`WireTheory.RequestRoundTrip`, and `Transfer.TransferWorks`, which runs through all three layers.

## Where the code and its documentation differ

The model follows the code.

* `README.md:362-370` describes a sweep over all sessions, at most once a minute, that frees every stale session.
  The code sweeps only the sessions of the handler being opened, on every open that gets that far, and keeps a
  session whose handler refuses to expire it (`manager.cpp:93`, `manager.cpp:317-325`).
* `README.md:298-300` says that a stat closes a session that timed out. Nothing in the code does.
* `manager.hpp:180-181` says the manager does not track whether a session was opened for writing. It does
  (`manager.cpp:180`).
* `manager.hpp:242-243` says a session's flags must contain the required flags. The test asks for any one of them
  (`manager.cpp:263`), which for single flags is the same.
* `manager.cpp:226` says that allocation is not meant to fail, and ids are expected to differ from one call to the
  next. Two successful allocations with no failed one between them always differ (`SessionIds.BackToBackDiffer`).
  With failed ones between they may or may not: each failure turns `next` back by one, and
  `Reissue.RepeatsExactlyWhen` says exactly when the same id comes again. `Exhaustion.AnIdIsRepeated` is a run in
  which it does.
* The one-byte metadata length of a stat reply is truncated. `WireTheory.StatReplyLength` says exactly when it is
  right.

## Model

| member | source | states |
|---|---|---|
| SessionIds.FirstFreeId | manager.cpp:231-240 | the id handed out is free, every value probed before it was in use, and `next` moves by exactly the probes made |
| SessionIds.FailsExactlyWhen | manager.cpp:219-242 | allocation fails if and only if every id other than `next`-1 is in use: 65535 values are probed, not 65536 |
| SessionIds.TwoFreeIdsSuffice | manager.cpp:226-240 | with two free ids, wherever they lie, allocation succeeds |
| SessionIds.LastFreeId | manager.cpp:231-242 | with exactly one free id, allocation returns it unless it is `next`-1, and then fails |
| SessionIds.TwoFailuresMeanFull | manager.cpp:231-242 | two consecutive calls both fail if and only if all 65536 ids are in use |
| SessionIds.BackToBackDiffer | manager.cpp:231-240 | two allocations with no failed one between them give different ids, whatever sessions opened or closed meanwhile |
| SessionIds.AllotsExactly | manager.cpp:231-240 | allocation gives id x exactly when x is free, is not `next`-1, and every id from `next` up to it is in use |
| SessionIds.RepeatsAfterFailures | manager.cpp:231-242 | after id x and f failures, whatever the table has become, x comes again exactly when f is not a multiple of 65536, x is free and the ids between `next` and x are in use |
| SessionIds.OnlyFreeIdRepeats | manager.cpp:231-242 | with one table throughout and `next` its only free id, three calls give that id, nothing, and that id again |
| Reissue.RepeatsExactlyWhen | manager.cpp:217-243 | the same rule over runs: two allocations with only failed ones among any calls between them give the same id if and only if the stated condition holds at the second |
| Exhaustion.AnIdIsRepeated | manager.cpp:217-243 | a run from a fresh manager after which three calls of getSession give an id, nothing, and the same id |
| Reissue.OnlyAllocationsMoveNext | manager.cpp:78-81 | over all calls, `next` moves only by allocations, and the id a call returns is the one it allocated |
| Reissue.ReissueDistance | manager.cpp:217-243 | over any run, two allocations give the same id exactly when the probes between them are a multiple of 65536, and then at least 65536 of them lie between |
| OrderedIds.WalkMeetsEach | manager.cpp:301-309 | walking an ordered set of ids meets each member once, in increasing order |
| Indexes.AgreeAfterInsert | manager.cpp:100-103 | recording a new session keeps the count of every path and the id set of every handler equal to what the session table says |
| Indexes.AgreeAfterErase | manager.cpp:274-288 | erasing a session, with the zero count removed, keeps both tables in agreement with the session table |
| Indexes.AgreeAfterTouch | manager.cpp:265 | refreshing a session's time keeps both tables in agreement |
| Indexes.CountedIffOpen | manager.cpp:198 | a path's count is positive exactly when some live session is on that path, although unopened paths may have zero entries |
| Indexes.CountsFitInt | manager.hpp:279 | every count lies between 0 and 65536, so the C++ int never goes negative and never overflows |
| Indexes.TotalsAgree | manager.hpp:275-281 | the counts over all paths and the set sizes over all handlers both add up to the number of sessions, which is at most 65536 |
| Manager.BlobManager.constructor | manager.hpp:80-84 | a new manager is the initial simple machine, its `next` the low 16 bits of the wall clock |
| Manager.BlobManager.RegisterHandler | manager.cpp:28-37 | refines the simple machine: a null handler is refused, any other is appended |
| Manager.BlobManager.BuildBlobList | manager.cpp:39-53 | refines the simple machine: every handler is asked once in registration order, and the count is 32 bits wide |
| Manager.BlobManager.GetBlobId | manager.cpp:55-64 | refines the simple machine: the id at an index of the snapshot, empty when out of range |
| Manager.BlobManager.GetHandler | manager.cpp:245-257 | the first registered handler that answers that it can handle the path, with exactly the questions that takes |
| Manager.BlobManager.GetSession | manager.cpp:217-243 | the probing loop computes the allocation characterised by module SessionIds |
| Manager.BlobManager.GetActionHandler | manager.cpp:259-269 | a handler is returned exactly when the session is live with one of the required flags, and exactly then its time is refreshed |
| Manager.BlobManager.EraseSession | manager.cpp:271-289 | the session is gone, nothing else in the session table changes, and all three tables still agree |
| Manager.BlobManager.CleanUpStaleSessions | manager.cpp:291-327 | the two loops over the handler index do what the simple machine does by filtering the session map |
| Manager.BlobManager.Open | manager.cpp:66-105 | refines the simple machine's open, in the source's order: handler, id, flags, sweep, offer, record |
| Manager.BlobManager.StatPath | manager.cpp:107-119 | refines the simple machine's path stat |
| Manager.BlobManager.Stat | manager.cpp:121-128 | refines the simple machine's session stat |
| Manager.BlobManager.Commit | manager.cpp:130-137 | refines the simple machine's commit |
| Manager.BlobManager.Close | manager.cpp:139-151 | refines the simple machine's close: the session goes only if the handler agrees |
| Manager.BlobManager.Read | manager.cpp:153-175 | refines the simple machine's read, gated by the read flag |
| Manager.BlobManager.Write | manager.cpp:177-185 | refines the simple machine's write, gated by the write flag |
| Manager.BlobManager.DeleteBlob | manager.cpp:187-205 | the reference count decides as the simple machine does by asking whether any live session has the path; the inserted zero entry is harmless |
| Manager.BlobManager.WriteMeta | manager.cpp:207-215 | refines the simple machine's writeMeta |
| Manager.BlobManager.Drive | manager.hpp:77-282 | any client's whole run gives the results of the simple machine and asks the handlers the same things in the same order, whatever they answer |
| Sweeping.SweepExact | manager.cpp:291-327 | the sweep asks expiry of exactly the handler's sessions idle for the timeout, once each, in ascending order; exactly those agreed to are removed, every other entry is unchanged |
| Sweeping.ExpiryAskedExactly | manager.cpp:301-317 | in a sweep, expiry of a session is asked if and only if it is the handler's and has been idle for the timeout or longer |
| Sweeping.RecentlyUsedSurvives | manager.cpp:259-269 | a session a call just reached outlives a sweep of any handler within the timeout, its entry unchanged |
| Discipline.UsedSurvivesRun | manager.cpp:259-327 | a session some call reached outlives every run, with all its sweeps, that keeps within the timeout and does not close it |
| Contract.ContractHonoured | README.md:372-383 | for every run and every handler behaviour, each handler call in the history was allowed by the calling contract, stated over the history alone |
| Contract.StepIsSound | manager.cpp:66-215 | every public call keeps the session table equal to what the history says is live, and keeps the contract |
| Contract.OpenIsSound | manager.cpp:66-105 | a handler is offered a session only for a path it just accepted, under an id live nowhere, with a read or write flag |
| Contract.DeleteIsSound | manager.cpp:187-205 | a handler is asked to delete only a path it just accepted and no live session has |
| Contract.SweepIsSound | manager.cpp:291-327 | expiry is asked only of the handler that holds the live session, and a refused expiry leaves it live |
| Contract.CloseIsSound | manager.cpp:139-151 | close is asked only of the holder, and the session ends exactly when it agrees |
| History.StepContinues | manager.cpp:28-215 | a call only ever extends the history, and only with handler calls its own arguments ask for |
| History.StepKeepsHolder | manager.cpp:95-103 | while a session lives, its handler, path and flags never change |
| History.FindStopsAtTheFirstYes | manager.cpp:245-257 | handlers are asked in registration order, each once, until the first yes, which is the result; nobody is asked after it |
| Discipline.OpenIsTransactional | manager.cpp:66-105 | the exact state and result of open on each of its four paths: no owner, no id or flag, refusal, acceptance; the entries gone are those whose expiry was consented to, and the one added is under the first free id, free before and after the sweep |
| Discipline.OpenExpiresTheIdle | manager.cpp:66-93 | an open asks a handler to expire a session if and only if that handler owns the path, an id and a flag are there, and the session is its own and idle for the timeout or longer |
| Discipline.OpenChangesOneEntry | manager.cpp:66-105 | whatever its outcome, an open adds at most its one entry, overwrites nothing, and only stale entries of its own handler go |
| Discipline.OpenAsksLast | manager.cpp:77-98 | an open that passes its checks ends by offering the first free id with the caller's flags and path, and succeeds exactly when the handler agrees |
| Discipline.PathCallsRouted | manager.cpp:107-205 | delete reaches the owner exactly when no live session is on the path, path stat always; the answer is passed on and no session changes |
| Discipline.RoutedExactlyWhen | manager.cpp:121-185 | close, commit, stat and writeMeta reach the holder of every live session, read and write exactly when their flag is set; the time is refreshed even on refusal, and a gated call changes nothing |
| Discipline.OtherCallsExactly | manager.cpp:28-64 | registering, building and reading the list, and getSession: the result and the whole new state of each |
| BlobTypes.FlagTests | manager.cpp:84 | what the three flag masks test: bit 0, bit 1, either, any bit |
| Ownership.OwnerIsStable | manager.cpp:35 | registering more handlers never changes the owner of an owned path |
| Ownership.LookupFindsTheHolder | manager.cpp:245-257 | with fixed canHandleBlob answers, looking up a live session's path finds that session's handler in every later state |
| Enumeration.ListIsConcatenation | manager.cpp:45-50 | the list built is the registration-order concatenation of what the handlers returned, each asked once |
| Enumeration.EnumerationSnapshot | manager.cpp:39-64 | after GetCount, the indices below the count give the ids in order and all others are refused, until the next GetCount and whatever happens in between |
| Enumeration.EnumeratedIdDecodes | ipmi.cpp:104-107 | an Enumerate reply decodes to the id it was built from |
| Example.ExampleBlob.Store | example/example.cpp:113-116 | the in-place copy and length update give the buffer with the data laid over it and the larger of both lengths |
| Example.ExampleBlobHandler.Open | example/example.cpp:50-66 | opens exactly for the supported path and an unknown id; the new blob's buffer is whatever memory held |
| Example.ExampleBlobHandler.Read | example/example.cpp:68-92 | returns the handler specification's clipped slice |
| Example.ExampleBlobHandler.Write | example/example.cpp:94-118 | accepts exactly what fits and changes that one session's blob only |
| Example.ExampleBlobHandler.Commit | example/example.cpp:127-138 | always refuses |
| Example.ExampleBlobHandler.Close | example/example.cpp:140-150 | removes exactly the session, and answers whether it was there |
| Example.ExampleBlobHandler.Stat | example/example.cpp:152-166 | reports state and length of a known session |
| Example.ExampleBlobHandler.Expire | example/example.cpp:168-177 | always refuses |
| Example.ExampleBlobHandler.Invoke | blobs-ipmid/blobs.hpp:59-176 | every interface call answers and changes the table as the handler specification says, and takes only new memory, so calls can follow one another |
| ExampleRuns.Relive | example/example.cpp:50-177 | a new handler asked a whole history of calls answers each as the replay of that history says and ends with the replay's table |
| ExampleRuns.ReliveAgrees | example/example.cpp:50-177 | so where the world's handler is an example handler, the answers in a genuine history are those of the written handler |
| ExampleSpec.LastWriterWins | example/example.cpp:94-118 | after any mix of accepted and rejected writes, each byte is that of the last accepted write covering it, or the initial one |
| ExampleSpec.LengthIsHighWater | example/example.cpp:113-115 | length is the highest end any accepted write reached, never decreases and never passes 1024 |
| ExampleSpec.BlobIsFoldOfItsWrites | example/example.cpp:50-177 | under any sequence of handler calls that does not close it, a session's blob is the fold of its own writes |
| ExampleSpec.ReadGivesTheSlice | example/example.cpp:77-91 | a read gives the bytes at its offset, cut short only by the end of the buffer |
| ExampleSpec.AcceptsExactly | example/example.cpp:30-177 | exactly which calls the handler says yes to; a write only if it starts and ends within the 1024 bytes of a known session |
| ExampleSpec.RefusedCallsChangeNothing | example/example.cpp:50-177 | what is refused, and every call but open, write and close, changes nothing |
| ExampleSpec.AcceptedCallsTakeEffect | example/example.cpp:50-150 | an accepted open, write or close changes its own session as asked, byte by byte, and no other |
| ExampleSpec.ListsAndUnknownSessions | example/example.cpp:35-75 | the handler lists its one path, and a read of an unknown session gives no bytes |
| Coupling.OwnsExactlyItsPath | example/example.cpp:30-33 | after any history an example handler owns "/dev/fake/command" and nothing else |
| Coupling.TablesAgree | example/example.cpp:50-66 | in every sound state the example's session keys are exactly the manager's live ids for it |
| Coupling.NeverAlreadyActive | example/example.cpp:58-63 | over any run the example is never offered an id it already has, so an offer on its path is always accepted |
| Coupling.ExampleOpensWhenItCan | example/example.cpp:50-66 | in every sound state an open owned by the example fails exactly when no id is left or no read or write flag is set |
| Coupling.LiveSessionsRespond | example/example.cpp:140-166 | close and session stat of a live example session always succeed |
| Coupling.SweepsSpareTheExample | example/example.cpp:168-177 | no sweep ever removes an example session |
| WireTheory.Get32AfterLE32 | README.md:55-57 | a little-endian field reads back as written, at any offset |
| WireTheory.Admission | process.cpp:54-124 | a request reaches a command exactly when its number, length and crc are right, without payload only GetCount; it then meets the decoder's bounds |
| WireTheory.RejectionReasons | process.cpp:60-121 | which of the three errors validation picks for a rejected request, and in which precedence |
| WireTheory.StringRoundTrip | ipmi.cpp:67-76 | a terminated path decodes to itself |
| WireTheory.RequestRoundTrip | ipmi.cpp:78-313 | for each of the eleven commands, the packed fields under a matching crc make the manager do exactly that call |
| WireTheory.CommitTakesItsLength | ipmi.cpp:233-242 | commit passes on exactly the announced bytes, drops what follows them, and refuses when there are too few |
| WireTheory.ReplyFraming | process.cpp:126-174 | a decodable request succeeds exactly when its command produced a reply that fits, and gets the size error exactly when it produced one that does not; a successful reply is empty, or begins with the crc of the rest, and the rest is the command's bytes |
| WireTheory.StatReplyLength | ipmi.cpp:171-189 | a stat reply carries state, size and metadata; its length byte is right exactly below 256 bytes of metadata, so always when replies have at most 264 bytes |
| WireTheory.ReplySizeDoesNotUndo | process.cpp:154-158 | the reply limit never changes what a request does to the manager, so an oversized reply is an error after a successful open |
| Replies.LowByteFirst | README.md:55-57 | 16 and 32 bit values are written low byte first |
| Replies.ReadLowByteFirst | README.md:55-57 | and are read low byte first |
| Replies.TurnedAwayAtTheDoor | process.cpp:54-124 | in bytes: a request of a wrong length, under a wrong crc or of no known command gets that error as its reply and changes nothing, and every other one is dispatched |
| Replies.UnservedIsFailure | process.cpp:129-133 | a request that asks the manager for nothing is always answered with an error and changes nothing |
| Replies.PathNeedsTerminator | ipmi.cpp:110-207 | Open, Delete and Stat: a path without its NUL is a length error and changes nothing; with it, the path is every byte before it |
| Replies.CommitNeedsItsData | ipmi.cpp:229-239 | a commit announcing more data than it carries is a length error and changes nothing |
| Replies.FieldsAtTheirPlaces | ipmi.hpp:20-125 | the other commands are decoded from their fixed places, whatever follows; the two writes take all that follows as data |
| Replies.RefusalsAreErrors | ipmi.cpp:91-313 | a refusal by the manager is an unspecified error, an index without an id an invalid field, and a plain success an empty reply |
| Replies.RepliesCarryResults | ipmi.cpp:78-274 | a reply that fits carries the count, the terminated id, the session's id or the bytes read, which may be none |
| Replies.DeleteOfOpenBlobFails | README.md:244-246 | deleting a path with a live session is answered with an error, and no handler is asked to delete |
| Replies.UnroutedRequests | ipmi.cpp:136-313 | a request for a session that is not live, or lacks the flag, changes nothing: a read gets success without bytes, every other one an error |
| Replies.RoutedRequests | ipmi.cpp:136-313 | a session request that gets through is answered as its handler answers: an error exactly when it refuses, a read with its bytes |
| Commands.GetBlobCount | ipmi.cpp:78-89 | decodes, calls the manager and builds the reply as specified at the byte level |
| Commands.EnumerateBlob | ipmi.cpp:91-108 | the same for Enumerate; an empty id is an invalid field |
| Commands.OpenBlob | ipmi.cpp:110-134 | the same for Open |
| Commands.CloseBlob | ipmi.cpp:136-152 | the same for Close |
| Commands.DeleteBlob | ipmi.cpp:154-169 | the same for Delete |
| Commands.ReturnStatBlob | ipmi.cpp:171-189 | the stat reply built step by step is the specified one, the length truncated to a byte |
| Commands.StatBlob | ipmi.cpp:191-207 | the same for Stat |
| Commands.SessionStatBlob | ipmi.cpp:209-227 | the same for SessionStat |
| Commands.CommitBlob | ipmi.cpp:229-248 | the same for Commit; the unsigned subtraction does not wrap |
| Commands.ReadBlob | ipmi.cpp:250-274 | the same for Read |
| Commands.WriteBlob | ipmi.cpp:276-289 | the same for Write |
| Commands.WriteMeta | ipmi.cpp:291-313 | the same for WriteMeta |
| Commands.ProcessBlobCommand | process.cpp:126-174 | runs the picked command, checks the reply's size and stamps its first two bytes in place |
| Commands.HandleBlobCommand | process.cpp:176-181 | a whole request on the real manager gives the reply and the state the byte-level specification gives on the simple machine |
| Transfer.OthersKeepTheBlob | example/example.cpp:50-177 | no request of another client, and no sweep it triggers, touches a session's blob or ends the session |
| Transfer.UploadWorks | ipmi.cpp:276-289 | sequential write requests, in any split and with any other requests in between, are all accepted and leave their concatenation in the session's buffer |
| Transfer.DownloadWorks | ipmi.cpp:250-274 | sequential read requests, in any split and with any other requests in between, return the consecutive pieces of the buffer after each crc |
| Transfer.OutOfRoomIsReported | example/example.cpp:102-112 | a write request that would end past the 1024 bytes is answered with an error and stores nothing |
| Transfer.FreshSession | example/example.hpp:33-36 | a session the example just accepted has length 0 and both state flags, whatever its buffer holds |
| Transfer.OpenReplies | ipmi.cpp:110-134 | an open request is the manager's open, and its reply of four bytes carries the session's id |
| Transfer.TransferWorks | README.md:9-18 | from any reachable state, in requests and replies only: open, upload in any split, download in any split and session stat under the id from the open's reply return the data and its size, with arbitrary other requests in between |

## Left out

- Library discovery and loading (`utils.cpp`, `fs.cpp`, `internal/sys.cpp`): file system walks and calls into shared objects.
- Registration with the IPMI daemon and the static manager singleton (`main.cpp`, `manager.cpp:329-339`): one constructed manager is taken instead.
- The CRC algorithm: every result holds for any function in its place.
- The null checks on the session and metadata pointers (`manager.cpp:221`, `example/example.cpp:159`): the callers in this repository always pass one.
- What a failed open leaves in the caller's session variable (`manager.cpp:237`): `openBlob` does not read it.
- Handlers that throw, call back into the manager or run in other threads, and logging: the code assumes serial execution.
- A handler's own memory: a handler other than the example is known only by the answers it gives to its history of calls.
- The unused locals and unreachable length checks of `process.cpp:82-96` and `process.cpp:167-170`.
- Idempotence of retried commands (`README.md:350-360`), which the code does not provide: a repeated open makes a second session.
- Short requests: the command functions take at least the bytes the source reads without checking; shorter ones never reach them, which `WireTheory.Admission` proves.
