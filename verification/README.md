# confide: a verified model of the transaction server

confide moves files between users of one server and between servers. A user creates
a *transaction*, uploads files into it and commits it. A committed transaction for
another server is pushed there by the *forwarder*. This project models the parts of
the server whose correctness is not visible in any one function, and proves what they
promise over every input and every run.

What is modelled, by module:

- **The transaction service over its repository and its file store** (`Core`,
  `Sections`, `Cells`, `CellRuns`, `History`, `Accounts`, `Loading`, `Service`, `Uploads`,
  `StorageTree`). Each
  operation is a short program of micro steps: disk calls that happen or fail, and log
  records. A fault or a crash leaves a prefix of the program done. `Cells` interleaves all calls
  on one id step by step: `lock_for`, the mutexes it hands out, the critical sections,
  the unlocked `create`, the retirement of the mutex by `destroy`, faults anywhere and
  restarts. Records of different ids never meet, so a server is a family of such cells.
  `Service` and `Uploads` are the imperative form: classes whose methods change the
  index, the disk and the log, and are proved to perform exactly these programs.
- **The two-site forwarding protocol** (`Delivery`): two copies of the service, a channel
  that loses, delays and repeats requests and replies, cancelled pushes, retries, destroys,
  and everybody else's activity at both sites; with runs from the very start that deliver and
  that fail to (`DeliveryRuns`), and what arrives as a letter (`Letters`). **The retry queue**
  (`ForwardQueue`).
- **Who may do what** (`Rights`, `Listing`): when each operation goes ahead, what it then does
  to the record, who can read it, and that nothing changes otherwise.
- **Timed state**: the session store (`Sessions`) against a history of calls, and the
  login limiter (`Limiter`) over runs of attempts.
- **Codecs**: `meta.json` (`MetaCodec`) over the Gregorian calendar (`Calendar`, `Time`)
  and hex digests (`Hex`); request paths (`UrlPath`, `Paths`); base64 (`Base64`); and the
  business log's lines, rotation and queries (`BizLog`, `LogLines`); transaction ids (`Ids`).
- **Collections**: the sorted file vector (`FileList`) and listings (`Listing`).

Main results, in the order of their difficulty: `Delivery.DeliveredMeansCommittedThere`,
`DeliveryRuns.AnswerTells`,
`Cells.RetirementIsSafe`, `Cells.InterleavingIsSerial`, `Sections.ReachableIsGood`,
`History.AuditLogIsFaithful`, `History.RunFrozen`, `Letters.LandedIsTheLetter`,
`Rights.ChangesAreByRight`, `Accounts.RecordsAreTrue`, `Sessions.VerifyRefinesHistory`,
`Limiter.ThrottlingBound`, `Loading.RestartFindsAll`, `StorageTree.TreeStaysExact`,
`BizLog.LogReadsBack`, `LogLines.LineTellsEvent`, `MetaCodec.MetaRoundTrip`, `UrlPath.PathTravels`,
`ForwardQueue.NothingIsLost`.

Where the code does not keep a promise, the project says so with a concrete case and the
exact condition:

- `push` takes every state but "open" for "committed there". In a run from the start a copy
  that the peer marked expired and could not delete counts as delivered although it was never
  committed (`DeliveryRuns.CutOffRun`). An answer can be trusted if and only if it is not
  "expired" (`DeliveryRuns.AnswerTells`); over runs, a delivered transaction was committed at
  the peer if and only if no destroy had struck the copy while it was open
  (`Delivery.DeliveredMeansCommittedThere`).
- No operation checks that a time it stores fits the four-digit years of `meta.json`. A
  retention change of a transaction dated to the end of 9999 leaves a record that `load`
  refuses (`Loading.RetentionCanSpoilLoad`; `Sections.LoadRebuilds` and
  `Loading.SectionLoads` have the condition).
- A process that dies between a save and its log record leaves the log one event short
  (`CellRuns.LogCanTear` has a run). The log stays faithful if and only if the call was a
  change of retention or stored a file again unchanged (`History.TornExactly`), and it is
  always the faithful story less one event per such death (`History.AuditLogIsFaithful`).
- A folder left behind by an upload whose rename failed, or by a removal whose pruning
  failed, makes a later upload under the folder's own name fail
  (`StorageTree.LeftoverFolderBlocks`; `StorageTree.ClashExactly` has the condition).
- A destroyed id that a peer pushes again before its mutex is dropped gets two mutexes
  (`Cells.ReuseBreaksExclusion`, from a state that `CellRuns.RetiringIsReached` reaches);
  `Cells.RetirementIsSafe` holds as long as no destroyed id
  is inserted again.
- A push that `stop` cuts off leaves the queue until the next start
  (`ForwardQueue.StopCanStrand`). That, and the end of the process, are the only ways for an
  outgoing transaction to be nowhere in the forwarder (`ForwardQueue.NothingIsLost`,
  `ForwardQueue.StrandedOnlySo`).

`dafny verify dfyconfig.toml` checks the whole project. I/O, clocks, random numbers and
the answers of other components are parameters: a disk call's success, the time, a token,
what the user directory or the destination check says, which entry a hash map yields
next.

## Model

| member | source | states |
|---|---|---|
| `Delivery.DeliveredMeansCommittedThere` | src/lib/forwarder/forwarder.cpp:130-206 | In every run of two sites, with lost, late and repeated messages, aborted pushes, retries, faults, destroys and other activity, whenever A's transaction is delivered, B has committed it as pushed by A, with exactly A's paths, sizes and digests and with bytes that match them, if and only if no destroy at B had struck the copy while it was open. |
| `Delivery.DeliveredIsStillThere` | src/lib/forwarder/forwarder.cpp:130-206 | As long as B has destroyed nothing, a delivered transaction is at B, committed, with exactly A's list and bytes that match it. |
| `Delivery.AnswerIsWorth` | src/lib/forwarder/forwarder.cpp:176-201 | Whenever a push is about to mark its transaction delivered: unless the answer it acts on is "expired", B has committed exactly the pushed list; and in any case it has if and only if no destroy had struck the open copy. |
| `Delivery.StepKeeps` | src/lib/forwarder/forwarder.cpp:155-201 | The protocol invariant is kept by every step of either site, of the forwarder and of the channel, when no two byte strings of the run collide. |
| `Delivery.ForeignKeeps` | src/lib/transaction/service.cpp:59-67 | No operation of anybody but the pushing peer changes state or files of what that peer pushed. |
| `Delivery.CommitCopies` | src/lib/transaction/service.cpp:225-267 | When all of A's files are there, a commit by A, wherever it fails, leaves a copy that holds only A's files, keeps them all, and is committed with exactly A's list if at all; an answer of success means it is. |
| `Delivery.FinishCopies` | src/lib/transaction/service.cpp:172-195 | An upload that carries the digest of A's entry stores exactly that entry and removes none, however late it finishes and wherever it fails. |
| `DeliveryRuns.AnswerTells` | src/lib/forwarder/forwarder.cpp:176-182 | An answer is trustworthy, in that in all runs of all sites a push that acts on it finds its list committed at B, if and only if it is not "expired". |
| `DeliveryRuns.CutOffRun` | src/lib/forwarder/forwarder.cpp:176-182 | A run from the start in which B marks its open copy expired during a retry and cannot delete it: A's transaction becomes delivered, and B has committed nothing. |
| `DeliveryRuns.LateDestroyRun` | src/lib/forwarder/forwarder.cpp:176-182 | A run from the start in which the push hears the same "expired" and B has committed exactly A's list, because the destroy came later. |
| `DeliveryRuns.SomeRunDelivers` | src/lib/forwarder/forwarder.cpp:130-206 | For all sites that accept the request there is a run from the start that sends a file, commits and delivers, and B has then committed exactly A's list. |
| `DeliveryRuns.DeliveryHappens` | src/lib/forwarder/forwarder.cpp:130-206 | Such sites exist, so the premises of the delivery theorems can be met. |
| `Letters.LandedIsTheLetter` | src/lib/forwarder/forwarder.cpp:155-175 | In every run of two sites, what B commits for A has the id, sender, addressee, comment and creation time of the transaction A pushed, is for a user of B and is marked as coming from A; and A's own record still agrees with it. |
| `Letters.AddresseeReads` | src/lib/transaction/service.cpp:271-281 | In every such run B's `get` of the committed copy answers the user A's sender addressed, the members of the addressed group and the peer A, and forbids it to everybody else. |
| `Letters.OthersAreUnseen` | src/lib/api/handlers.cpp:347-351 | In every run, whatever A asks about a transaction at B that A did not push is answered as not found, exactly as if there were none, and changes nothing; only a push of the same id meets a conflict. |
| `Letters.GetIsGet` | src/lib/api/handlers.cpp:347-351 | What A hears to a get is the answer of `get` to the peer A, with forbidden told as not found. |
| `Core.EveryPrefixIsGood` | src/lib/transaction/service.cpp:172-267 | Whatever operation runs and whichever of its steps fails, the index still equals the disk, the record is well formed, the tree has its shape, and a committed or delivered transaction matches its bytes and its manifest. |
| `Core.HashCheckMatches` | src/lib/transaction/service.cpp:242-248 | The re-hash of commit passes if and only if every entry matches the stored bytes in size and digest. |
| `Core.CommitProgram` | src/lib/transaction/service.cpp:225-267 | A commit that is not refused found an open transaction that its caller may write, whose every entry matches the disk; it writes the manifest before the record. |
| `Rights.ChangesAreByRight` | src/lib/transaction/service.cpp:225-507 | Through any prefix of any operation, a stored record changes only by right: its expiry only by an administrator's set_retention of 1 to max_days and at most 3650 days, to exactly that many days after its creation; its files only while open, by an upload or its writer's removal; it is committed only by its writer, delivered only after a commit, and goes only by a destroy. |
| `Rights.CreateGoesAhead` | src/lib/transaction/service.cpp:108-150 | A create goes ahead if and only if the caller is a user, the request is well formed, the directory accepts addressee and server (none for the local one), the days, or the default for 0, are 1 to 3650, and the id is new. |
| `Rights.ReceiveGoesAhead` | src/lib/transaction/service.cpp:319-350 | A push goes ahead if and only if it comes from a peer, has sender, addressee and an expiry after its creation, a fine comment and an accepted addressee, and the id is new. |
| `Rights.RetentionGoesAhead` | src/lib/transaction/service.cpp:481-507 | A retention change goes ahead if and only if the caller is an administrator, the days are 1 to max_days and at most 3650, and the transaction exists and is not expired. |
| `Rights.WritingGoesAhead` | src/lib/transaction/service.cpp:152-248 | Uploads, removals and commits go ahead if and only if the transaction is open and, but for the end of an upload, the caller is its sender here or the peer that pushed it; and the upload has its promised digest and meets nothing in its way, the removal names a listed and stored file, the commit finds every listed file with its size and digest. |
| `Rights.RefusalsSay` | src/lib/transaction/service.cpp:152-248 | What a refused operation is told: not found for an unknown id, forbidden exactly for those who may not write, gone once expired, conflict when past open, and deliveries exactly by the state. |
| `Rights.UploadsAreTold` | src/lib/transaction/service.cpp:172-223 | An upload to an open transaction is an integrity error if and only if its digest is not the promised one, and else a conflict if and only if something is in its way; a removal is not found if and only if the file is not listed or not stored. |
| `Rights.NewcomersAreTold` | src/lib/transaction/service.cpp:109-134 | Why a new transaction is refused, in order: a user or peer on the wrong route, a malformed request, what the directory says of the destination, and a known id last. |
| `Rights.HashCheckCodes` | src/lib/transaction/service.cpp:242-248 | The first entry that does not match decides: not found if its file is missing, else an integrity error. |
| `Rights.CreateDoes` | src/lib/transaction/service.cpp:136-150 | A created transaction is the caller's, open and empty, for the addressee, server and comment of the request, and expires the asked or default number of days after now. |
| `Rights.ReceiveDoes` | src/lib/transaction/service.cpp:336-350 | A pushed transaction has the sender, addressee, comment and times of the push, is for this server and is marked with the peer that pushed it. |
| `Rights.FinishDoes` | src/lib/transaction/service.cpp:172-195 | A finished upload is listed with the size and digest of its bytes and stored with them; all other entries, files and fields stay. |
| `Rights.RemoveDoes` | src/lib/transaction/service.cpp:197-223 | A removed file is neither listed nor stored; all others stay. |
| `Rights.OthersDo` | src/lib/transaction/service.cpp:225-507 | Commit, delivery and retention change exactly the state with its time, or the expiry; a destroy leaves neither record nor folder. |
| `Rights.CommentsAreCounted` | src/lib/transaction/transaction.cpp:24-43 | A comment in UTF-8 is accepted if and only if it has at most the allowed number of code points and none is a control character, however many bytes they take. |
| `Sections.ReachableIsGood` | src/lib/transaction/service.cpp:172-267 | Integrity under faults: in every state that runs of operations with failing steps can reach, entries of committed and delivered transactions match the stored bytes, and index and disk agree. |
| `Sections.LoadRebuilds` | src/lib/transaction/repository.cpp:17-40 | In every reachable state, loading a folder gives back the index entry exactly if and only if the record's times have years 0000 to 9999. |
| `Sections.PrefixFrozen` | src/lib/transaction/state_machine.cpp:18-53 | Through any prefix of any operation identity, comment and creation time stay, the state only moves forward, files, commit time, bytes and manifest are frozen once past open, nothing comes back from deletion, and only mark_delivered delivers. |
| `Cells.RetirementIsSafe` | src/lib/transaction/service.cpp:97-104 | Over all interleavings of lock_for, critical sections and the retirement by destroy, no two calls are at once in critical sections of one id that found a live transaction. |
| `Cells.InterleavingIsSerial` | src/lib/transaction/service.cpp:172-267 | At every instant of every interleaving the stored state is one that whole sections, run one after the other, can reach; so integrity and index = disk hold at every instant. |
| `Cells.StepKeeps` | src/lib/transaction/service.cpp:416-440 | Every step of every thread, and a restart, keeps the lock protocol and the rule that a live section works on the record it read, unchanged by others. |
| `Cells.SectionActsAlone` | src/lib/transaction/service.cpp:172-267 | In every interleaving, from the moment a section has read a stored record until it leaves, what is stored is that record with the section's own steps applied, as if it ran by itself. |
| `Cells.ReuseBreaksExclusion` | src/lib/transaction/service.cpp:436-440 | Step by step: if a destroyed id is pushed again just before its mutex is dropped from the map, two calls are at once in critical sections of the same live transaction. |
| `CellRuns.RetiringIsReached` | src/lib/transaction/service.cpp:416-440 | The state in which that happens is reached by an ordinary run of a create and a destroy. |
| `History.RunFrozen` | src/lib/transaction/service.cpp:152-195 | Immutability: between any two states of a run a transaction past open shows the same files, commit time, bytes and manifest, identity never changes, the state only moves forward, and only destruction removes it, for good. |
| `History.LateUploadDoesNothing` | src/lib/transaction/service.cpp:172-182 | An upload begun while open and finished after the commit is refused with conflict (gone if expired) and performs no step. |
| `History.AuditLogIsFaithful` | src/lib/transaction/service.cpp:172-267 | In every state of every run with faults and crashes, replaying the story of events gives exactly the stored state and file list of the id, or does once the call that stands between a save and its record writes it; and the log is that story, less one event for each time the process died just there. |
| `History.TornExactly` | src/lib/transaction/service.cpp:187-194 | If the process dies between a save and its record, the log is still faithful after the restart if and only if the call was a change of retention, or stored a file whose very entry was listed before. |
| `CellRuns.TornRun` | src/lib/transaction/service.cpp:249-266 | A run from the start that dies between the save and the record of a commit: the log tells of an open transaction, the stored one is committed, and only the story is faithful. |
| `CellRuns.LogCanTear` | src/lib/transaction/service.cpp:249-266 | Such a run exists for a concrete environment. |
| `Accounts.RecordsAreTrue` | src/lib/transaction/service.cpp:172-267 | In every run, every record of the story is true of the transaction when it is made: a removed file was listed, committed, received and forwarded records carry the number and the total size of its files, received is said only of pushed transactions and committed only of those made here, and nothing is said after the end. |
| `Accounts.RecordIs` | src/lib/transaction/service.cpp:187-507 | Which record each operation writes: the added entry or removed path, committed or received by the origin, the new days, and admin_deleted or expired by who destroyed it. |
| `Loading.RestartFindsAll` | src/lib/transaction/repository.cpp:17-40 | As long as every stored time has a four-digit year, a restart after any run with faults rebuilds exactly the index the process had. |
| `Loading.SectionLoads` | src/lib/transaction/service.cpp:481-507 | An operation leaves a record that can be read back when the times it stores fit, and one that cannot when it completed and they do not. |
| `Loading.RetentionCanSpoilLoad` | src/lib/transaction/service.cpp:481-507 | A pushed transaction created on the last day of 9999 can be loaded; after an administrator sets one day of retention it cannot. |
| `Service.PerformedKeeps` | src/lib/transaction/service.cpp:172-267 | Performing any prefix of an operation on one id keeps every id of the store good. |
| `Service.Server.Create` | src/lib/transaction/service.cpp:108-150 | Performs the create program up to the fault, ends as refused, failed or done, and touches no other id. Success is for a user and a new id, and adds exactly the caller's open transaction with the requested addressee, server, comment and expiry; an error leaves the index as it was. |
| `Service.Server.CheckCreate` | src/lib/transaction/service.cpp:109-134 | Refuses exactly the requests the rules refuse, in their order, and else gives the target server and expiry. |
| `Service.Server.Finish` | src/lib/transaction/service.cpp:172-195 | Performs the finish program of an upload up to the fault; index, disk and log of other ids stay. |
| `Service.Server.RemoveFile` | src/lib/transaction/service.cpp:197-223 | Performs the removal program up to the fault, including partial pruning. |
| `Service.Server.Rehash` | src/lib/transaction/service.cpp:242-248 | The loop over the entries ends with the first mismatch's error, with the error of an unreadable file if and only if no entry before it mismatches, or with none exactly when every entry matches. |
| `Service.Server.Commit` | src/lib/transaction/service.cpp:225-267 | Performs the commit program up to the fault; a failed read while re-hashing changes nothing; on success the stored bytes match the committed list. |
| `Service.Server.MarkDelivered` | src/lib/transaction/service.cpp:380-398 | Performs the delivery program up to the fault. |
| `Service.Server.Destroy` | src/lib/transaction/service.cpp:416-440 | Performs the destroy program up to the fault. |
| `Service.Server.SetRetention` | src/lib/transaction/service.cpp:481-507 | Performs the retention program up to the fault. Success is for an administrator and 1 to max_days, at most 3650 days, of a known id, and moves its expiry to exactly so many days after its creation; an error leaves index and log as they were. |
| `Service.Server.Receive` | src/lib/transaction/service.cpp:319-350 | Performs the receive program of a peer's push up to the fault. Success is for a peer and a new id, and adds exactly the pushed sender, addressee, comment and times, marked with that peer; an error leaves the index as it was. |
| `Service.Server.CheckComment` | src/lib/transaction/transaction.cpp:24-43 | Accepts exactly comments without control characters whose bytes that start a code point do not exceed the limit. |
| `Service.Server.Save` | src/lib/transaction/repository.cpp:59-69 | The index gets exactly this record if the document was written, and stays as it was if not; other ids stay. |
| `Service.Server.Insert` | src/lib/transaction/repository.cpp:42-57 | A known id, or a folder of that name on disk, conflicts; else folder, document and index entry appear together or not at all. |
| `Service.Server.Load` | src/lib/transaction/repository.cpp:17-40 | The loop over the folders rebuilds the decoded records, or fails and changes nothing if one is unreadable; on a good store whose times fit it succeeds and leaves the index as it was. |
| `Service.Server.ReadFolders` | src/lib/transaction/repository.cpp:22-36 | Gives exactly what the folders' documents decode to, or an error if one of them is unreadable. |
| `Service.LoadSameIndex` | src/lib/transaction/repository.cpp:17-40 | Reading every folder of a good store gives back every index entry if and only if every stored time has a year from 0000 to 9999. |
| `Uploads.Upload.Write` | src/lib/storage/impl/upload.cpp:75-93 | Appends to the staged bytes and counts them, or discards the upload. |
| `Uploads.Upload.Commit` | src/lib/storage/impl/upload.cpp:99-144 | Publishes exactly the staged bytes under the path, after digest and clash checks, or leaves all stored files as they were; in either case the upload is over. |
| `Uploads.Upload.TakeOver` | src/lib/storage/impl/upload.cpp:46-60 | Move assignment discards the target's own staged file, takes over path, bytes and state of the source and leaves it finished; an upload assigned to itself stays as it is. |
| `Uploads.Upload.UploadWhole` | src/lib/api/handlers.cpp:193-208 | The upload loop stores the concatenation of all chunks under the path in one step, or leaves the stored files as they were, wherever the connection or the disk fails. |
| `Uploads.ReadDocument` | src/lib/storage/impl/documents.cpp:38-54 | The chunked read loop returns the whole document, or an error if and only if the disk gives less. |
| `StorageTree.TreeStaysExact` | src/lib/storage/storage.cpp:183-207 | After any mix of stores, clashes and pruning removals without faults, the folders under files/ are exactly the proper ancestors of stored files. |
| `StorageTree.PrefixFree` | src/lib/storage/impl/upload.cpp:123-143 | No stored path lies above another. |
| `StorageTree.StoreExact` | src/lib/storage/impl/upload.cpp:123-143 | A store that meets no clash adds exactly the folders it needs. |
| `StorageTree.UnlinkExact` | src/lib/storage/storage.cpp:183-207 | Removing a file with pruning drops exactly the folders no other file needs. |
| `StorageTree.ClashExactly` | src/lib/storage/impl/upload.cpp:123-136 | In every well-shaped tree a store is refused with no stored file above or below its path if and only if a folder of its name is there with no file in it; otherwise exactly because of such a file. |
| `StorageTree.ClashMeansFile` | src/lib/storage/impl/upload.cpp:123-136 | In an exact tree a store is refused if and only if a stored file lies above or below its path. |
| `StorageTree.LeftoverFolderBlocks` | src/lib/storage/storage.cpp:193-205 | After an upload whose rename failed, or a removal whose pruning failed, storing a file under the leftover folder's name clashes though nothing is stored. |
| `StorageTree.RemoveStored` | src/lib/storage/storage.cpp:183-207 | A missing file is not found, one that cannot be removed an error that changes nothing; else the loop removes it and the empty folders above it, up to the first failing removal. |
| `ForwardQueue.NothingIsLost` | src/lib/forwarder/forwarder.cpp:208-247 | In every state of every run with stops, starts and restarts an outgoing id is nowhere in the forwarder if and only if it is stranded; while the forwarder runs nothing is stranded and every id asked for is queued, in flight, delivered or given up; and every waiting item waits exactly as its failures demand. |
| `ForwardQueue.StrandedOnlySo` | src/lib/forwarder/forwarder.cpp:229-240 | An id gets stranded only by a transient failure of its push after stop, or by the end of the process. |
| `ForwardQueue.StartQueuesAllOutgoing` | src/lib/forwarder/forwarder.cpp:80-96 | start queues every committed, undelivered transaction for another server. |
| `ForwardQueue.StopCanStrand` | src/lib/forwarder/forwarder.cpp:236-238 | A run in which a push cut off by stop is outgoing and nowhere in the forwarder. |
| `ForwardQueue.Forwarder.Backoff` | src/lib/forwarder/forwarder.cpp:122-128 | The doubling loop waits exactly min(first * 2^(n-1), max) before retry n. |
| `ForwardQueue.Forwarder.Enqueue` | src/lib/forwarder/forwarder.cpp:69-78 | Appends an id that is not queued yet, due now; else changes nothing. |
| `ForwardQueue.Forwarder.EnqueueWaiting` | src/lib/forwarder/forwarder.cpp:84-87 | Enqueues a whole list in order. |
| `ForwardQueue.Forwarder.TakeDue` | src/lib/forwarder/forwarder.cpp:216-224 | Takes the first of the earliest items if it is due, and nothing if and only if no item is due. |
| `ForwardQueue.Forwarder.AfterPush` | src/lib/forwarder/forwarder.cpp:227-244 | Re-queues exactly transient failures, unless stopping, one attempt later with its wait. |
| `ForwardQueue.TransientExactly` | src/lib/forwarder/forwarder.cpp:56-67 | A push is given up exactly after a validation, authentication, forbidden, not found, conflict, gone or unknown-destination error. |
| `ForwardQueue.WaitsDouble` | src/lib/forwarder/forwarder.cpp:122-128 | The first wait is the first delay, and each later one twice the one before, up to the longest. |
| `Sessions.VerifyRefinesHistory` | src/lib/auth/session_store.cpp:91-110 | After any sound history a presented token is accepted for a scope and user if and only if it was issued for them, not revoked or evicted since, is younger than its lifetime, and no gap between its uses reached the idle limit; sweeping cannot be seen. |
| `Sessions.AliveIsHeld` | src/lib/auth/session_store.cpp:47-49 | What is left of a user's sessions after a sweep are exactly the live ones. |
| `Sessions.HeldIsBounded` | src/lib/auth/session_store.cpp:51-66 | Nobody ever holds more than max(max_per_user, 1) sessions of one scope. |
| `Sessions.LifetimeByScope` | src/lib/auth/session_store.cpp:42-45 | A fresh token lives, unused, until its scope's own lifetime or its scope's own idle limit is over, users' and administrators' each by their own setting. |
| `Sessions.PrefixesDiffer` | src/lib/auth/session_store.hpp:81-82 | No text has both the users' and the administrators' token prefix. |
| `Sessions.ChoiceIsOldest` | src/lib/auth/session_store.cpp:51-66 | The entry that drop_oldest_of removes is an oldest live session of that user and scope, and it removes one only when they are too many. |
| `Sessions.SessionStore.Issue` | src/lib/auth/session_store.cpp:68-89 | Adds one issue to the history, evicting by the rule, and keeps the bound. |
| `Sessions.SessionStore.OldestOf` | src/lib/auth/session_store.cpp:51-66 | Finds an oldest entry of the user and scope, in whatever order the map yields them, when they reach the limit. |
| `Sessions.SessionStore.Verify` | src/lib/auth/session_store.cpp:91-110 | Succeeds with the user exactly when the history says the session is alive. |
| `Sessions.SessionStore.Revoke` | src/lib/auth/session_store.cpp:112-119 | Ends the session of the token. |
| `Sessions.SessionStore.RevokeUser` | src/lib/auth/session_store.cpp:121-124 | Ends every session of the user in both scopes and counts them. |
| `Sessions.SessionStore.List` | src/lib/auth/session_store.cpp:126-140 | Shows exactly the live sessions, each once, oldest login first. |
| `Limiter.ThrottlingBound` | src/lib/auth/login_limiter.cpp:39-68 | In any sequential run, after the n-th failure that counts against a key, with n beyond its free ones, no later attempt naming the key reaches the directory before min(base * 2^min(n-free-1,20), max) has passed; a failure counts until a success forgives the key or the key is dropped. |
| `Limiter.AsksExactly` | src/lib/auth/login_limiter.cpp:39-91 | After any sequential history an attempt reaches the directory if and only if none of its keys is blocked by the failures that count against it. |
| `Limiter.PairIsThrottled` | src/lib/auth/login_limiter.cpp:27-91 | The same for a (user, source) pair, whatever the case of the user name. |
| `Limiter.FailureBlocks` | src/lib/auth/login_limiter.cpp:58-68 | The n-th failure that counts against a key leaves exactly n on its counter and blocks it, n beyond the free ones, until exactly min(base * 2^min(n-free-1,20), max) after it. |
| `Limiter.BlocksDouble` | src/lib/auth/login_limiter.cpp:58-68 | In any two histories, the first failure past the free ones blocks a key for the base delay, and the (n+1)-th for twice as long as the n-th, up to the maximum and to twenty doublings. |
| `Limiter.SourceAndUserAreThrottled` | src/lib/auth/login_limiter.cpp:39-91 | The bound of ThrottlingBound for an address, whoever tries from it, and for a user name in any case, wherever from, each past its own number of free failures. |
| `Limiter.SuccessForgives` | src/lib/auth/login_limiter.cpp:87-91 | A success clears what counts against the pair and the user, and nothing of what counts against the address. |
| `Limiter.DroppingIsUnseen` | src/lib/auth/login_limiter.cpp:70-74 | Dropping idle keys changes no answer of check, then or later, nor the wait it names. |
| `Limiter.RefusedExactly` | src/lib/auth/login_limiter.cpp:39-56 | An attempt is refused if and only if one of its three keys is blocked. |
| `Limiter.PairKeysAreApart` | src/lib/auth/login_limiter.cpp:24-35 | With colon-free user names two pairs share a key if and only if they are the same pair up to case. |
| `Limiter.ColonWouldMix` | src/lib/auth/login_limiter.cpp:24-35 | With a colon in a user name two different pairs can share a key. |
| `Limiter.KindsDiffer` | src/lib/auth/login_limiter.cpp:27-35 | Keys of users, addresses and pairs never coincide. |
| `Limiter.CaseDoesNotMatter` | src/lib/auth/login_limiter.cpp:17-35 | Two user names have the same key, and the same pair key with an address, if and only if they are equal letter by letter up to the case of A to Z. |
| `Limiter.OtherPairsDoNotCount` | src/lib/auth/login_limiter.cpp:76-91 | An attempt of another pair neither adds to a pair's failures nor forgives them; it can only make the limiter drop the pair's idle key. |
| `Limiter.LoginLimiter.Check` | src/lib/auth/login_limiter.cpp:39-56 | The loop over the keys gives the wait until the latest block ends. |
| `Limiter.LoginLimiter.Bump` | src/lib/auth/login_limiter.cpp:58-68 | Counts one failure, with 32-bit wrap-around, and past the key's free failures blocks it for exactly min(base * 2^min(n-free-1,20), max) seconds; other keys stay. |
| `Limiter.LoginLimiter.Fail` | src/lib/auth/login_limiter.cpp:76-85 | Drops idle keys when there are too many and bumps the three keys once each. |
| `Limiter.LoginLimiter.Succeed` | src/lib/auth/login_limiter.cpp:87-91 | Forgets pair and user, keeps the address. |
| `Limiter.AuthenticatePassword` | src/lib/auth/authenticator.cpp:97-113 | One attempt: the user is what stands before the first colon, and the directory is asked if and only if the limiter does not refuse. |
| `MetaCodec.MetaRoundTrip` | src/lib/transaction/codec.cpp:154-210 | decode_meta(encode_meta(tx)) is tx if and only if tx has a valid id, non-empty names, well formed strictly sorted files and times with years 0000 to 9999. |
| `MetaCodec.DecodedIsEncodable` | src/lib/transaction/codec.cpp:177-210 | Whatever decode_meta accepts satisfies those conditions. |
| `MetaCodec.ManifestRoundTrip` | src/lib/transaction/codec.cpp:212-225 | A manifest gives back its file list if and only if the list is well formed and sorted. |
| `MetaCodec.MetaFields` | src/lib/transaction/codec.cpp:154-175 | The document has every field of the record under its own key: id, sender, addressee, both servers, comment, state, times and files, and commit and delivery times exactly if the record has them. |
| `MetaCodec.DecodedSays` | src/lib/transaction/codec.cpp:177-210 | Conversely, a document that is accepted has version 1 and each field of the record it is read as under its own key, the comment and the two optional times missing or null if the record has none. |
| `MetaCodec.CommentIsOptional` | src/lib/transaction/codec.cpp:53-60 | An accepted document is accepted without its comment too, and read the same with an empty one. |
| `MetaCodec.OnlyOpenSaysOpen` | src/lib/transaction/transaction.cpp:10-22 | No state but open is written as "open", which is all that a pushing peer asks. |
| `MetaCodec.SortSorts` | src/lib/transaction/codec.cpp:144-149 | Sorting a decoded list orders it and neither loses nor adds an entry. |
| `MetaCodec.EncodeFilesLoop` | src/lib/transaction/codec.cpp:110-121 | The loop builds the array entry by entry. |
| `MetaCodec.DecodeFilesLoop` | src/lib/transaction/codec.cpp:123-150 | Decoding, sorting in place and refusing duplicates gives the specified list, which is well formed and strictly sorted, or fails exactly when it should. |
| `Hex.HexRoundTrip` | src/lib/common/sha256.cpp:37-61 | A digest comes back from its hex form. |
| `Hex.HexCanonical` | src/lib/common/sha256.cpp:37-61 | Every accepted text is, in lower case, the form of the digest it reads as. |
| `Hex.HexShows` | src/lib/common/sha256.cpp:53-61 | The hex form shows each byte as two lower-case digits, the high half first. |
| `Hex.ToHexLoop` | src/lib/common/sha256.cpp:53-61 | The loop writes two digits per byte, high nibble first. |
| `Hex.FromHexLoop` | src/lib/common/sha256.cpp:37-51 | The loop reads 64 hex digits or refuses. |
| `Calendar.DayNumberCounts` | src/lib/common/time.cpp:52-62 | The day number of the next date is one more, so it counts the days of the proleptic Gregorian calendar. |
| `Calendar.DateUnique` | src/lib/common/time.cpp:39-41 | Two valid dates with the same day number are the same date. |
| `Time.FormatParses` | src/lib/common/time.cpp:39-63 | A timestamp survives its text form if and only if its year is 0000 to 9999. |
| `Time.ParsedIsFormatted` | src/lib/common/time.cpp:43-63 | parse_iso8601 accepts only what format_iso8601 writes, and reads it back. |
| `Time.FormatShows` | src/lib/common/time.cpp:39-41 | The text of a time shows the decimal year, month, day, hour, minute and second of its date at their places, and time 0 is the first second of 1970. |
| `Time.HasIsoShape` | src/lib/common/time.cpp:14-26 | The loop accepts exactly the twenty-character pattern. |
| `Time.ReadDigits` | src/lib/common/time.cpp:29-35 | The loop reads a decimal number. |
| `Time.ParseIso8601` | src/lib/common/time.cpp:43-63 | Computes the parse of the text, refusing invalid dates and clock times. |
| `FileList.EditsRefineMap` | src/lib/transaction/service.cpp:81-88 | Any sequence of upserts and erases keeps the paths strictly increasing and represents exactly the map of last-written entries. |
| `FileList.UpsertRefinesMap` | src/lib/transaction/service.cpp:81-88 | An upsert is an update of the represented map. |
| `FileList.EraseRefinesMap` | src/lib/transaction/service.cpp:211-216 | An erase is a removal from the represented map. |
| `FileList.SortedUnique` | src/lib/transaction/codec.cpp:144-149 | A strictly sorted list is determined by its entries. |
| `PathOrder.LessExactly` | src/lib/transaction/codec.cpp:144-149 | One path is less than another exactly if it is a proper prefix of it or has the smaller character where they first differ. |
| `FileList.LowerBound` | src/lib/transaction/service.cpp:82-82 | Binary search finds the first entry not below the key. |
| `FileList.FindFile` | src/lib/transaction/transaction.cpp:55-58 | The lookup agrees with the represented map. |
| `FileList.UpsertFile` | src/lib/transaction/service.cpp:81-88 | The binary-search upsert computes the specified list. |
| `Paths.ParsePath` | src/lib/common/path_sanitizer.cpp:22-59 | Accepts exactly the valid relative paths, which `Paths.AcceptedExactly` characterises, and never rewrites one. |
| `Paths.ScanComponents` | src/lib/common/path_sanitizer.cpp:39-56 | The scan with a moving start accepts if and only if every component is fine. |
| `Paths.AcceptedExactly` | src/lib/common/path_sanitizer.cpp:22-59 | A text is accepted if and only if it has 1 to 4096 bytes, none a control character, backslash or colon, in components of at most 255 bytes, and walking them, with `..` going up and `.` staying, goes one level down with each; so nothing with a `..` component is accepted. |
| `Paths.AcceptedStaysBelow` | src/lib/common/path_sanitizer.cpp:22-59 | Resolved from any folder, every prefix of an accepted path is below that folder by exactly its own components, and the path is not absolute. |
| `Ids.IdsAreUuids` | src/lib/common/id.cpp:31-53 | A text is accepted as an id if and only if it is the text of a version 4 UUID of the standard variant; so every generated id is. |
| `Ids.ParseId` | src/lib/common/id.cpp:31-53 | The loop accepts exactly the valid ids, unchanged. |
| `UrlPath.PathTravels` | src/lib/forwarder/forwarder.cpp:186-194 | For every id and valid path, the peer's router picks the internal upload route for the target push builds, and captures that id and that very path. |
| `UrlPath.DecodeEncoded` | src/lib/net/url.cpp:47-64 | url_decode undoes url_encode_path for every byte string without NUL, and refuses the others. |
| `UrlPath.DecodesExactly` | src/lib/api/router.cpp:69-93 | A text is decoded if and only if every percent sign in it is followed by two hex digits that are not both zero. |
| `UrlPath.EscapeReads` | src/lib/api/router.cpp:69-93 | An escape stands for its byte, with its hex digits in either case. |
| `UrlPath.PiecesDecode` | src/lib/api/router.cpp:32-47 | Splitting an encoded path at its slashes and decoding each piece gives the path's components. |
| `UrlPath.TargetArrives` | src/lib/api/router.cpp:188-201 | A target of plain segments and an encoded path arrives at the route loop as those segments and the path's components. |
| `UrlPath.RestCaptures` | src/lib/api/router.cpp:166-173 | A rest parameter captures a valid path whole. |
| `UrlPath.EncodeCharIs` | src/lib/net/url.cpp:47-64 | Unreserved characters and the separator stay, every other byte becomes a percent sign and its two upper-case hex digits. |
| `UrlPath.FitExactly` | src/lib/api/router.cpp:157-186 | A pattern with distinct names and its rest parameter last fits a path if and only if literals are equal, parameters are not empty and the lengths agree up to a rest parameter; and it then captures exactly the segments at its parameters. |
| `UrlPath.PickExactly` | src/lib/api/router.cpp:188-222 | The route picked is the first with the verb that fits; it is a conflict if and only if some route fits but none with the verb, and not found if and only if none fits. |
| `UrlPath.QueryTravels` | src/lib/api/router.cpp:49-65 | Whatever keys and values a client encodes and joins, the router reads back every key with its last value, and no others. |
| `UrlPath.UrlEncodePath` | src/lib/net/url.cpp:47-64 | The loop computes the percent-encoding. |
| `UrlPath.UrlDecode` | src/lib/api/router.cpp:69-93 | The loop computes the decoding, with its errors for truncated and bad escapes and NUL. |
| `UrlPath.SplitTarget` | src/lib/api/router.cpp:32-47 | The loop computes the segments. |
| `UrlPath.MatchSegments` | src/lib/api/router.cpp:157-186 | The loop computes the captured parameters, or none. |
| `UrlPath.MatchTarget` | src/lib/api/router.cpp:188-222 | The first entry that fits with the verb, with the decoded query or its error; else conflict if any fits, else not found. |
| `UrlPath.ParseQuery` | src/lib/api/router.cpp:49-65 | The loop computes the decoded parameters of the pieces, or the first decoding error. |
| `BizLog.LogReadsBack` | src/lib/logging/business_log_reader.cpp:63-76 | After any run of records, working or failing rotations and restarts, a query returns the lines of the first `limit` entries recorded in its window, in order, out of all entries since the last but one working rotation. |
| `BizLog.FilesHoldTheEnd` | src/lib/logging/sink.cpp:37-57 | The two files always hold the record from the last but one working rotation to its end, cut at the last one. |
| `BizLog.FilesStaySmall` | src/lib/logging/sink.cpp:45-57 | While renames work, the current file is within the limit but for its last line break, or holds a single line; and the sink's count is its size. |
| `BizLog.WindowExactly` | src/lib/logging/business_log_reader.cpp:34-59 | Every entry is in the answer's window exactly if its time is from `from` to before `until` and has a four-digit year, whatever stands before and after it. |
| `LogLines.LineTellsEvent` | src/lib/logging/business_log.cpp:70-89 | Read as JSON, a line has the time, the kind and each field of the event under its own name with its value, whatever text it holds, and no member for a field the event does not have. |
| `BizLog.TimestampReadsBack` | src/lib/logging/business_log_reader.cpp:18-31 | A line's timestamp reads back exactly whatever text the event holds, in years 0000 to 9999; in others it is not readable. |
| `BizLog.EscapedReadsBack` | src/lib/logging/json.cpp:7-36 | An escaped text ends at its own closing quote and reads back. |
| `BizLog.LineIsOneLine` | src/lib/logging/business_log.cpp:70-89 | A line holds no line break or other control character. |
| `BizLog.JsonEscape` | src/lib/logging/json.cpp:7-36 | The loop computes the escaping. |
| `BizLog.FileSink.constructor` | src/lib/logging/sink.cpp:29-35 | A new sink counts what the file already holds. |
| `BizLog.FileSink.Write` | src/lib/logging/sink.cpp:45-57 | Exactly if the line would not fit, a rename works and there is a file, the current file becomes the previous one and the line starts a new one; otherwise it is appended. |
| `BizLog.FileSink.Record` | src/lib/logging/business_log.cpp:91-95 | Recording an event is the next step of the log's run. |
| `BizLog.Scan` | src/lib/logging/business_log_reader.cpp:34-59 | Appends the matching lines of one file up to the limit and says whether there is room left; a file that does not open, or cannot be read to its end before the limit, is an error. |
| `BizLog.ReadBusinessLog` | src/lib/logging/business_log_reader.cpp:63-76 | Computes the first matching lines of the previous and then the current file, or fails only if one of them cannot be read. |
| `Base64.DecodeEncoded` | src/lib/common/base64.cpp:39-88 | Decoding undoes encoding for every byte string. |
| `Base64.AcceptedText` | src/lib/common/base64.cpp:56-88 | An accepted text stands for 3/4 of its length less its padding in bytes, and encoding those gives it back with the unused bits of its last digit cleared. |
| `Base64.CanonicalExactly` | src/lib/common/base64.cpp:56-88 | An accepted text is the encoding of what it stands for if and only if those bits are clear. |
| `Base64.AlphabetIs` | src/lib/common/base64.cpp:10-31 | The digits are those of section 4 of RFC 4648 in their order. |
| `Base64.GroupIsNumber` | src/lib/common/base64.cpp:39-54 | Three bytes and their four digits are the same number, to base 256 and to base 64. |
| `Base64.Base64Encode` | src/lib/common/base64.cpp:39-54 | The nested loops compute the encoding. |
| `Base64.Base64Decode` | src/lib/common/base64.cpp:56-88 | The nested loops compute the decoding or refuse. |
| `Listing.ListingIsUnique` | src/lib/transaction/service.cpp:283-298 | Whatever order the hash map yields its entries in, the sorted listing is the same sequence. |
| `Listing.ListedIsReadable` | src/lib/transaction/service.cpp:271-298 | Everything listed to a caller is readable by that caller through get, and every committed or delivered transaction addressed to the caller is in the inbox. |
| `Listing.ReadersExactly` | src/lib/transaction/service.cpp:46-74 | `get` answers a peer exactly if it pushed the transaction, and a user exactly if they created it here, or it is past open, for this server, and addressed to them or to a group they are in; it forbids it to all others, and an unknown id is not found. |
| `Listing.ReadersInParticular` | src/lib/transaction/service.cpp:271-281 | Strangers and other peers are refused in every state, an addressee who did not send it if and only if it is open, its sender never. |
| `Listing.OrderedIs` | src/lib/transaction/service.cpp:294-296 | In a listing an earlier entry is newer, or as old with the smaller id; in the forwarder's list it is longer committed, or as long with the smaller id. |
| `Listing.OrderedIsUnique` | src/lib/transaction/service.cpp:294-296 | A strictly ordered sequence is determined by its elements. |
| `Listing.FindIf` | src/lib/transaction/repository.cpp:91-101 | Collects exactly the matching entries, each once. |
| `Listing.List` | src/lib/transaction/service.cpp:283-298 | Gives exactly the caller's box, strictly ordered newest first and by id. |
| `Listing.ListOutgoing` | src/lib/transaction/service.cpp:354-365 | Gives exactly the ids waiting to be forwarded, longest committed first and by id. |
| `Transactions.TransitionsMoveForward` | src/lib/transaction/state_machine.cpp:18-53 | Every allowed transition raises the state's rank, expired is final, and a transaction is mutable exactly while it can be committed. |
| `Transactions.TransitionsExactly` | src/lib/transaction/state_machine.cpp:18-53 | Exactly the forward transitions are allowed, but for open to delivered; a refusal says gone if and only if the transaction is expired, and else conflict. |
| `Transactions.TotalAddsUp` | src/lib/transaction/transaction.cpp:60-63 | The total size adds up over the parts of a list and is the size of a single file. |

## Left out

- HTTP server and client, TLS, coroutines and connection handling: the protocol model keeps only requests, replies and their loss.
- LDAP, the user directory and the peer configuration: their answers are parameters.
- SHA-256: a function parameter; `Delivery` assumes that no two byte strings uploaded in the run collide, as the protocol relies on it.
- JSON and TOML text: `meta.json` and `manifest.json` are value trees, with object keys as an enumeration.
- Creation and deletion of a transaction folder, of the folders above an upload's path, and the writing of a document through its staged file, are single all-or-nothing steps; the code does not protect against half-done ones.
- Durability of fsync, and appends to the business log that fail or are cut short.
- A destroyed id that is inserted again: excluded by premise in `Cells` and, at both sites, in `Delivery`; the code does not rule it out for a peer that pushes the id again.
- Delivery: each site steps by whole critical sections or prefixes of them; `Cells.SectionActsAlone` says why a section's effect and answer do not depend on the interleaving, but the two models are not composed.
- Overflow of sizes, byte totals and times; only the failure counter of the limiter wraps around.
- Limiter.ThrottlingBound: attempts come one after the other and fewer than 2^32 of them; concurrent logins may each pass check before the first of them has failed.
- Sessions and Limiter assume a clock that does not go back, and Limiter one that starts at or after the epoch.
- Sessions.SessionStore.Issue: the token is given, with its prefix and fresh; the failure of the random generator is not modelled.
- UrlPath: the parsing of route patterns in Router::add is left out; routes are given as parsed patterns.
- ForwardQueue: one push is one step with any result; what it does is modelled in `Delivery`.
- The retention timer, list_expired, the admin listing and reads, downloads and the technical log are not modelled.
- Command-line client, password prompts, token cache, configuration and packaging.
