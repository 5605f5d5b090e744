# A verified model of the distributed compiler's core

The repository is a distributed C/C++ build system: a wrapper stands in for the compiler and talks to a local
daemon, the daemon uploads sources to a server, the server compiles them on a pool of workers and sends the
object file back. This project models the parts with the most state and branching, and proves what holds over
every input, every run or every reachable state. `dafny verify dfyconfig.toml` checks the whole project.

| file | models |
|---|---|
| `Upload.dfy`, `UploadRuns.dfy`, `ClientView.dfy` | sessions sharing one table of file states, chunked transfers, the sweep that enqueues compile requests: the steps, what any run keeps, and the code that changes the tables in place |
| `UploadQueue.dfy`, `UploadJoin.dfy`, `UploadFrame.dfy` | the compile queue over whole runs, what an announcement of files leads to, what one chunk writes and leaves alone |
| `Honest.dfy`, `HonestRuns.dfy`, `HonestJoin.dfy`, `HonestSafety.dfy`, `HonestQueue.dfy` | the same protocol with clients that follow it, any number of them interleaved |
| `Chunks.dfy`, `Objects.dfy` | cutting files into chunks and putting them together, in both directions |
| `Paths.dfy`, `IncludeDirs.dfy` | client and server names of a file, rewriting of include directories |
| `Pool.dfy`, `PoolRuns.dfy`, `Locks.dfy` | the worker pool with its condition variable and shutdown; the order of mutexes |
| `Includes.dfy`, `IncludeClosure.dfy`, `IncludeCache.dfy`, `IncludeParser.dfy` | the include resolver: mutual recursion over a possibly cyclic graph, with a cache shared between compilations |
| `IncludeOrder.dfy` | the search order told on the directories, the order of directives, what is cached |
| `IncludeComplete.dfy`, `IncludeSurvey.dfy`, `IncludeMisses.dfy` | when a search with a filled cache reports everything, and searches that do not |
| `Escaping.dfy`, `DepFile.dfy`, `DepFileExact.dfy`, `DepFileScan.dfy`, `DepFileIo.dfy`, `MakeTarget.dfy` | dependency files: escaping, printer, parser, quoting of makefile targets |
| `Framing.dfy`, `Writer.dfy`, `Delivery.dfy`, `Ipc.dfy`, `IpcLayout.dfy`, `Bytes.dfy`, `Words.dfy` | length-prefixed framing, the strand-serialised writers, the codec between wrapper and daemon |
| `Lru.dfy` | the storage that evicts the least recently used entries |

Code that works by changing things step by step is a method or a class here, and each such method is proved
equal to a function of the old state (`ClientView.ProcessFileChunk` to `Upload.ProcessChunk`, for instance).
The theorems about runs are about those functions.

Adding a session, handling one chunk, terminating a session and a worker taking a request are atomic steps.
Results of foreign calls (digests, the iteration order of a hash table, which waiter a notification wakes, how
much of a write went out) are parameters, and the theorems hold for all their values.

## Where the code does not do what one might expect

- A file whose length is a positive multiple of 65536 has no chunk flagged last. Its upload never completes, the
  files behind it are never sent, and the sessions that need one of them are never compiled
  (`HonestSafety.QuietExactly` and `HonestSafety.NobodyWaits` say exactly which, `HonestSafety.StuckUpload` is such
  a run). An object file of such a length, or an empty one, arrives byte for byte but the wrapper is never answered
  (`Objects.ObjectDelivered`).
- A session that has answered the wrapper may compile locally and publish a second answer, if a message that makes
  it give up comes before it notices that it is terminated (`Objects.PublishedExactly`, `Objects.SecondAnswer`). The
  wrapper sees the first one only (`Objects.WrapperAnsweredOnce`).
- The answer to the wrapper carries the two logs exchanged (`Objects.ObjectDelivered`).
- A hash mismatch does not keep a file from becoming available; only the size counts
  (`UploadRuns.AvailableByCompletion`).
- A write that fails loses the message on the server and sends part of it twice on the client, and exactly then
  is anything lost or reordered (`Writer.NothingLostOrReordered`; the two runs are
  `Writer.FailureDropsServerMessage` and `Writer.FailureRepeatsClientMessage`).
- A header found in the cache is not expanded, so a warm search may report less than a cold one
  (`IncludeMisses.WarmSearchMisses`); what it reports is always right (`IncludeCache.WarmSearchSound`). It reports
  everything only if the headers reached without looking behind cached ones include nothing else, and that is enough
  unless a file is named both by a directive the cache answers and by one it does not, or an answer is recorded
  under a candidate that does not exist and hides another file (`IncludeSurvey.WarmSearchComplete`). Neither
  exception can be dropped (`IncludeMisses.NotUniformMisses`, `IncludeMisses.MaskMisses`).
- Client paths with several leading slashes share a server file with the path that has one
  (`Paths.LeadingSlashesCollide`); `Paths.ServerNamesCollide` says when two names fall together and
  `Paths.RoundTripExact` which paths convert back.
- Backslashes in dependency files survive only in front of a space (targets) or a colon (dependencies)
  (`DepFile.TargetExact`, `DepFile.DepExact`); a whole file comes back only if every name does
  (`DepFileExact.FileExact`).
- Storing a value larger than the capacity evicts everything and then looks at the back of the empty list
  (`Lru.LruStorage.StoreValue`).

## Model

| member | source | states |
|---|---|---|
| `HonestSafety.HonestRunSafe` | src/server_session.cpp:389-557 | over every interleaving of honest sessions: no path asked for twice, no file ever faulty, an available file equals the client's, and every pending request's files are all on the server's disk byte for byte |
| `HonestSafety.EnqueuedWithItsFiles` | src/server_session.cpp:194-216 | at the very step that enqueues a session's request, each required file on disk is the client's |
| `HonestSafety.AvailableForGood` | src/server_session.cpp:536-541 | once available a file stays available with the client's bytes, whatever happens later |
| `HonestSafety.HonestChunkAccepted` | src/server_session.cpp:395-557 | no chunk of an honest client is ever refused |
| `HonestSafety.CompleteExactly` | src/client_session.cpp:353-400 | a sent file all of whose chunks were handled is available if and only if it is empty or its length is no multiple of 65536 |
| `HonestSafety.QuietExactly` | src/client_session.cpp:323-402 | when a client has nothing on the wire and nothing to send, a file it was asked for is available if and only if that file and all asked for before it are empty or of a length that is no multiple of 65536 |
| `HonestSafety.NobodyWaits` | src/client_view.cpp:240-251 | once everything sent was handled and no uploader has left, a session's request has been enqueued if and only if each file it requires was asked for with only such lengths up to it |
| `HonestSafety.StuckUpload` | src/client_session.cpp:353-400 | a client with one file of 65536 bytes: a run that ends with everything handled, the file unavailable and the session not enqueued |
| `HonestQueue.CompiledExactly` | src/server_session.cpp:194-216 | in such a world a live session has a valid request in the queue or was started by a worker, if and only if its files are unblocked in that sense |
| `HonestSafety.PlayIsRun` | src/server_session.cpp:389-557 | the views of an honest run are those of a run of the protocol, so what holds of all runs holds of it |
| `HonestRuns.HandledChunk` | src/server_session.cpp:441-552 | what one honest chunk does: the transfer grows by it, the bytes are appended, the flagged one completes the file and sweeps |
| `HonestJoin.AskExactly` | src/client_view.cpp:158-200 | exactly the new and the faulty files among those required are asked for, under the client's own name; only the new ones change; without faulty ones each is asked for once |
| `UploadRuns.EnqueuedAtMostOnce` | src/server_session.cpp:194-216 | in any run, whatever is sent: no session enqueued twice, running exactly when enqueued, and none left waiting once its files are available |
| `UploadRuns.TerminatedNeverStarted` | src/server_session.cpp:560-572 | a session terminated before its request was taken is never compiled |
| `UploadQueue.QueueIsFifo` | src/server_session.cpp:205-214 | in any run the queue is what was enqueued less what was taken, in that order, and a request is invalidated if and only if its session was terminated |
| `UploadQueue.RunningIsQueuedOrStarted` | src/server_session.cpp:205-214 | a live session marked running has a valid request in the queue, or a worker started it |
| `UploadQueue.ReadyIsQueuedOrStarted` | src/server_session.cpp:194-216 | so has a live session all of whose files are available |
| `UploadQueue.PopStarts` | src/compiler_manager.cpp:33-46 | a worker takes the oldest request and starts it if and only if its session is alive; no other step starts anything |
| `UploadQueue.EnqueuedExactlyWhenReady` | src/client_view.cpp:240-251 | a step enqueues exactly the live sessions that have all their files after it and were not enqueued before |
| `UploadJoin.RequiresWhatItAnnounced` | src/client_view.cpp:121-131 | for as long as it lives a session requires exactly the files it announced by name |
| `UploadJoin.NamedInOrder` | src/client_view.cpp:121-131 | in the order announced, exactly the empty names left out |
| `UploadJoin.FirstAnnouncementWins` | src/client_view.cpp:56-90 | an existing entry is kept; a new one has the size, the digest and the server path of the first announcement of its name |
| `UploadJoin.AskedInOrder` | src/client_view.cpp:158-200 | the paths asked for are required files, in the order required |
| `UploadFrame.ChunkTouchesOneFile` | src/server_session.cpp:389-557 | any message changes only the status and the bytes of the file it names and its transfer in this session, and may enqueue sessions; one that names no known file changes nothing |
| `UploadFrame.ChunkWrites` | src/server_session.cpp:447-492 | an expected chunk is written where the transfer's earlier chunks end, and a transfer's first chunk to an emptied file |
| `UploadRuns.AcceptedInOrder` | src/server_session.cpp:464-487 | for any messages: accepted chunks are numbered 1..k with non-decreasing offsets, and the file on disk is their concatenation unless another session opened it too |
| `UploadRuns.FinishedStaysFinished` | src/server_session.cpp:456-462 | a finished transfer, completed or rejected, never changes and no later chunk for it has any effect |
| `UploadRuns.AvailableByCompletion` | src/server_session.cpp:489-541 | a file becomes available if and only if the expected chunk, flagged last, brings it to the announced size |
| `UploadRuns.RefusedExactly` | src/server_session.cpp:418-507 | the handler fails if and only if the file is unknown, the session foreign, the chunk out of sequence or the final size wrong; an unknown file changes nothing, a foreign session marks the file faulty, the other two mark it faulty and end the transfer, and the queue and all other files are left alone |
| `UploadRuns.RunInv` | src/server_session.cpp:389-557 | the invariant behind these holds after every run |
| `ClientViews.ClientView.ProcessFileChunk` | src/server_session.cpp:389-557 | the handler performs exactly the protocol's chunk step, for any digest |
| `ClientViews.ClientView.CompleteUpload` | src/server_session.cpp:489-543 | size mismatch faults the file; otherwise it becomes available, whatever the digest, and the sessions are swept |
| `ClientViews.ClientView.OpenTransfer` | src/server_session.cpp:447-454 | creates the transfer and truncates the file, or leaves an existing one alone |
| `ClientViews.ClientView.WriteChunk` | src/server_session.cpp:485-492 | the chunk is written at the stream's position and recorded in the transfer |
| `ClientViews.ClientView.AddSession` | src/client_view.cpp:93-222 | the new session's files are added, asked for and swept, as the protocol's connect step says |
| `ClientViews.ClientView.AddFileState` | src/client_view.cpp:56-90 | an entry is added unless one exists, which is never overwritten |
| `ClientViews.ClientView.AddRequiredFiles` | src/client_view.cpp:121-131 | every announced file with a name is added and becomes required, in order |
| `ClientViews.ClientView.AskForFiles` | src/client_view.cpp:158-200 | the table and the list of requested paths after the loop over required files |
| `ClientViews.ClientView.UpdateFileState` | src/client_view.hpp:64-79 | overwrites an existing entry, reports a missing one |
| `ClientViews.ClientView.SetFileState` | src/server_session.cpp:395-411 | one file's status changes and nothing else |
| `ClientViews.ClientView.TryRequestSrcCompilation` | src/server_session.cpp:194-216 | enqueues once all required files are available and not before, and only if not running |
| `ClientViews.ClientView.TryCompileForActiveSessions` | src/client_view.cpp:240-251 | the loop over the session table in any order equals one simultaneous sweep |
| `ClientViews.ClientView.TerminateServerSession` | src/server_session.cpp:560-572 | the session's queued requests are flagged and the session leaves the table |
| `Chunks.SplitReassembles` | src/client_session.cpp:323-402 | for every file: sequence numbers 1..k, offsets the prefix sums, no chunk over 65536 bytes, and the concatenation is the file |
| `Chunks.OnlyFinalIsFlagged` | src/client_session.cpp:353-398 | a chunk is flagged if and only if it is the final one and the length is zero or no multiple of 65536 |
| `Chunks.ChunksAreFull` | src/client_session.cpp:377-398 | every chunk but the final one has exactly 65536 octets, and the final one is not empty unless the file is |
| `Chunks.ObjectReassembles` | src/server_session.cpp:286-317 | the same for object files, without the case of the empty file |
| `Chunks.InStream.Read` | src/client_session.cpp:379-383 | a short read delivers what is left and fails the stream; a failed stream delivers nothing |
| `Chunks.SendBlocks` | src/client_session.cpp:377-398 | the read loop sends exactly the chunks of the file |
| `Chunks.ClientSession.SendRequiredFile` | src/client_session.cpp:323-402 | the next requested file goes out and the index moves, unless none is left or the file cannot be opened |
| `Objects.SendCompilationResult` | src/server_session.cpp:246-318 | one final message for a failed compilation, nothing without an object file, otherwise its chunks with the logs on the flagged one |
| `Objects.SendObject` | src/server_session.cpp:286-317 | the read loop sends exactly the chunks of the object, with the logs on the flagged one |
| `Objects.MessagesCarry` | src/server_session.cpp:246-318 | every message names the session and carries the exit code and the object's size; only the final one may be flagged and exactly the flagged one carries the logs |
| `Objects.ObjReceiver.ProcessObjFileChunk` | src/client_session.cpp:181-247 | one step of receiving the object |
| `Objects.ObjectDelivered` | src/client_session.cpp:181-247 | end to end: the object arrives byte for byte, and the wrapper is answered if and only if the compilation failed or the length is no multiple of 65536 |
| `Objects.AnsweredAtMostOnce` | src/client_session.cpp:181-247 | for any messages the handler itself answers at most once, exactly when the transfer finishes, and writes nothing afterwards |
| `Objects.PublishedExactly` | src/client_session.cpp:23-101 | for any messages the session publishes at most two answers: two if and only if both a flagged chunk and a message that makes it give up arrive while the loop runs, none if and only if neither does |
| `Objects.SecondAnswer` | src/client_session.cpp:76-84 | a chunk of a foreign session after the flagged one: the object's answer and then the local one |
| `Objects.WrapperAnsweredOnce` | src/client.cpp:232-240 | once the wrapper has an answer, nothing that happens later changes it |
| `Objects.LeavesOnceAnswered` | src/client_session.cpp:34-89 | once the wrapper has its answer, the session meets at most one more message before it leaves its loop |
| `Objects.PublishedGrows` | src/client_session.hpp:115-132 | answers published are never withdrawn or reordered |
| `Objects.ObjReceiver.HandleMessage` | src/client_session.cpp:34-89 | one turn of the loop: the handler, the local answer on giving up, and the guard |
| `Objects.ObjReceiver.RetrieveResponse` | src/client.cpp:232-240 | takes the first answer and marks the session terminated |
| `Paths.RoundTripExact` | src/file_state_view.hpp:69-103 | the two conversions are inverse on a path if and only if a condition on its leading slashes and the working directory holds |
| `Paths.ServerNamesDistinct` | src/file_state_view.hpp:69-89 | distinct paths that convert back have distinct server names |
| `Paths.LeadingSlashesCollide` | src/file_state_view.hpp:83-87 | a family of distinct client paths with one server name |
| `Paths.ServerNamesCollide` | src/file_state_view.hpp:69-89 | for any two client paths: they have one server name if and only if their relative paths agree, or the one under a system directory is the other's server name |
| `Paths.ServerNameExactly` | src/file_state_view.hpp:69-89 | paths under `/usr/src`, `/usr/local` and `/Library` are kept; any other loses its leading slashes and goes below the working directory after one slash |
| `Paths.ParentOfFile` | src/includes_rework.cpp:304-327 | the directory of a file is what stands before its name |
| `IncludeDirs.RewriteCommutes` | src/server_session.cpp:80-94 | rewriting the flattened directories never reads past the end and equals flattening the converted ones |
| `IncludeDirs.ArgsExactly` | src/includes_rework.hpp:34-57 | the position of every directory on the command line and the flag before it |
| `IncludeDirs.RewriteIncludeArgs` | src/server_session.cpp:80-94 | the index loop computes the rewriting, and tells on which lists it would read past the end |
| `Pool.NeverStranded` | src/compiler_manager.cpp:18-60 | no lost wake-up: while a worker waits un-notified, queued jobs are at most the workers on their way |
| `Pool.AvailableJobs` | src/compiler_manager.hpp:104-106 | the active count is the number of workers compiling, so the number advertised never underflows |
| `Pool.JobsConserved` | src/compiler_manager.cpp:27-58 | jobs start in the order added; each is queued, dropped, in progress or compiled once |
| `PoolRuns.JobsAreTheRequests` | src/compiler_manager.hpp:72-81 | over any run the jobs taken and queued are the requests added, in order, each of the session that added it |
| `PoolRuns.InvalidatedExactly` | src/compiler_manager.hpp:83-93 | a job is dropped if and only if its own session was invalidated after it was added and before it was taken |
| `PoolRuns.WorkerTakesOldest` | src/compiler_manager.cpp:18-46 | in every reachable state a worker at the queue takes the oldest job and compiles it unless invalidated, sleeps or returns only if there is none, and always finds a free slot |
| `Pool.ShutdownDrains` | src/compiler_manager.hpp:60-70 | once all workers returned and nothing was added after the stop, the queue is empty and all that started was compiled |
| `PoolRuns.ShutdownEnds` | src/compiler_manager.hpp:60-70 | once the pool is stopping, the workers take at most four turns per queued job and per worker, and until all have returned some worker can move |
| `PoolRuns.DestructorStops` | src/compiler_manager.hpp:60-66 | the destructor makes the pool a stopping one from any reachable state |
| `Pool.TerminatedNeverCompiled` | src/compiler_manager.hpp:83-93 | invalidated requests are dropped, never started |
| `Pool.TurnInv` | src/compiler_manager.cpp:13-74 | every turn of every thread keeps the pool's invariant |
| `Pool.CompilerManager.AddCompilationRequest` | src/compiler_manager.hpp:72-81 | push and notify one |
| `Pool.CompilerManager.InvalidateRequestsForSession` | src/compiler_manager.hpp:83-93 | the loop flags exactly the session's queued requests |
| `Pool.CompilerManager.WorkerEnter` | src/compiler_manager.cpp:18-46 | one pass through the critical section: wait, return, retry, drop or start; the front is never taken from an empty queue |
| `Pool.CompilerManager.WorkerFinish` | src/compiler_manager.cpp:55-58 | the count goes down again |
| `Pool.CompilerManager.NotifyWorkers` | src/compiler_manager.cpp:60 | all waiting workers are notified |
| `Pool.CompilerManager.ResultPublished` | src/compiler_manager.cpp:62-70 | the worker goes back to its loop |
| `Pool.CompilerManager.StopThreads` | src/compiler_manager.hpp:60-64 | the stop flag is set |
| `Pool.CompilerManager.NotifyStopped` | src/compiler_manager.hpp:66 | all waiting workers are notified of the stop |
| `Pool.CompilerManager.GetAvailableJobs` | src/compiler_manager.hpp:104-106 | pool size less the workers compiling, never negative |
| `Locks.DeadlockFree` | src/server_session.cpp:445-543 | in no reachable interleaving is there a set of threads each waiting for a mutex another of them holds |
| `Locks.AlwaysProgress` | src/client_view.cpp:105-155 | while an operation is unfinished some thread can move |
| `Locks.ScriptDisciplined` | src/client_view.cpp:225-251 | every operation takes its mutexes in the order session, view, manager, but for the session its thread is still creating |
| `Locks.MutualExclusion` | src/server_session.cpp:445-543 | in every reachable state a mutex is held by at most one thread |
| `Locks.ChunkTakes` | src/server_session.cpp:389-557 | every acquisition of handling a chunk with what is held then: the view alone twice, then all under the session, the manager under session and view |
| `Locks.AddTakes` | src/client_view.cpp:93-222 | the same for adding a session |
| `Locks.OthersTake` | src/server_session.cpp:560-572 | the same for the other operations |
| `IncludeClosure.ColdSearchExact` | src/includes_rework.cpp:202-449 | on any file system, cyclic or not, with nothing cacheable: the recorded headers are exactly the least set closed under "first existing candidate" from the source and the command line, each with its own contents, size and digest |
| `IncludeOrder.ResolvesInOrder` | src/includes_rework.cpp:296-356 | a directive resolves to a file if and only if the order told on the directories chooses it: itself, beside the including file, then the first `-iquote`, the first `-I`, the first `-isystem` directory that has it |
| `IncludeOrder.AngleTakesFirst` | src/includes_rework.cpp:329-354 | the first `-I` directory that has the file wins, a `-isystem` one only if none has it, and then the first |
| `IncludeOrder.ProcessedInOrder` | src/includes_rework.cpp:438-440 | directives are processed one after the other, each in the state the earlier ones left |
| `IncludeOrder.ForcedComeFirst` | src/includes_rework.cpp:220-246 | the includes of the command line come first, as angle directives, then those of the source |
| `IncludeOrder.CacheHoldsSystemHeaders` | src/includes_rework.cpp:125-152 | after any compilations the cache holds only headers under a `-isystem` and under no `-I` directory, and of those every one last reported |
| `IncludeOrder.CachedAnswerExactly` | src/includes_rework.cpp:282-294 | a cached name is answered with the file it stands for, under that file's path if the path is cached too and otherwise under the first place it would be looked for |
| `IncludeCache.WarmSearchSound` | src/includes_rework.cpp:282-294 | after any earlier compilations every reported header is in the uncached closure and carries its own contents |
| `IncludeCache.ServedCacheOk` | src/includes_rework.hpp:184-194 | any history of compilations leaves a cache whose names lead to the files they resolve to |
| `IncludeCache.CachedIsNotExpanded` | src/includes_rework.cpp:375-445 | a cached name is answered from the cache with one entry and nothing below it is searched |
| `IncludeCache.OnlyDirectReported` | src/includes_rework.cpp:375-445 | a file all of whose names are cached reports only the headers it names directly |
| `IncludeSurvey.WarmSearchComplete` | src/includes_rework.cpp:255-449 | after any earlier compilations: a complete report implies that the headers seen without looking behind cached ones include nothing else; if no file is named both with and without the cache's answer and no recorded candidate hides a file, the two are equivalent |
| `IncludeSurvey.UntouchedSearchExact` | src/includes_rework.cpp:255-449 | after any earlier compilations: if the cache answers no directive within reach and nothing within reach is stored, the reported paths are exactly the uncached closure |
| `IncludeSurvey.SelfContainedIsComplete` | src/includes_rework.cpp:361-449 | the sufficient half, for any sound cache |
| `IncludeComplete.CompleteIsSelfContained` | src/includes_rework.cpp:282-294 | the necessary half, for any sound cache and without exceptions |
| `IncludeComplete.ReportedIsSeen` | src/includes_rework.cpp:282-294 | whatever is reported was named by the source, the command line or a file reached past the cache |
| `IncludeMisses.WarmSearchMisses` | src/includes_rework.cpp:375-445 | compiling one source twice: the second report lacks a header that is reached |
| `IncludeMisses.NotUniformMisses` | src/includes_rework.cpp:282-294 | the headers seen include nothing else, yet one is missing because its includer was first answered from the cache |
| `IncludeMisses.MaskMisses` | src/includes_rework.cpp:444 | the same where an answer recorded under a candidate that does not exist hides a quoted file |
| `IncludeMisses.BehindCacheMissed` | src/includes_rework.cpp:375-445 | the family of the first: any header reached only behind a cached one is missing the second time |
| `IncludeMisses.TwiceMissed` | src/includes_rework.cpp:282-294 | the family of the second |
| `IncludeMisses.MaskedMissed` | src/includes_rework.cpp:444 | the family of the third |
| `IncludeParser.SourceFileParser.ParseSourceFileIncludes` | src/includes_rework.cpp:202-252 | command-line includes, then the source's own, as `Includes.Parse` says; false if the source cannot be opened |
| `IncludeParser.SourceFileParser.ProcessIncludeDirective` | src/includes_rework.cpp:255-358 | the cache shortcut, or the search |
| `IncludeParser.SourceFileParser.Search` | src/includes_rework.cpp:296-356 | the loops with their early exits try exactly the candidates in order |
| `IncludeParser.SourceFileParser.SearchNearby` | src/includes_rework.cpp:304-327 | the quote form: the including file's directory, then the quote directories |
| `IncludeParser.SourceFileParser.TryDirs` | src/includes_rework.cpp:329-354 | one loop over search directories, stopping at the first that resolves |
| `IncludeParser.SourceFileParser.ProcessDirectives` | src/includes_rework.cpp:438-440 | the loop over a header's directives |
| `IncludeParser.SourceFileParser.TryResolveHeader` | src/includes_rework.cpp:361-449 | records before recursing, so the recursion terminates; stores in the cache what qualifies |
| `IncludeParser.IncludesCache.AddIncludeEntry` | src/includes_rework.hpp:184-194 | both maps get the name |
| `DepFileExact.FileExact` | src/dep_files.hpp:220-313 | for every list of targets: parsing what was printed gives the list back if and only if every target is an escaped name that is read back and every dependency is |
| `DepFileExact.ComesBackPrintable` | src/dep_files.hpp:220-313 | the necessary half: a file that comes back has only such names |
| `DepFileExact.ParseBound` | src/dep_files.hpp:91-200 | for any text the parser emits at most as many backslashes as the text has pairs of adjacent ones |
| `DepFileExact.WrittenPairs` | src/dep_files.hpp:220-253 | the printer makes at most as many such pairs as the names have backslashes |
| `DepFile.FileRoundTrip` | src/dep_files.hpp:220-313 | the sufficient half: such files come back |
| `DepFile.TargetExact` | src/dep_files.hpp:91-140 | an escaped target is read back if and only if the name has no newline, starts with no white space but a space, and has backslashes only before spaces |
| `DepFile.DepExact` | src/dep_files.hpp:148-200 | a printed dependency is read back in place if and only if it is non-empty, starts with none of space, newline, colon and backslash, and has backslashes only before colons |
| `DepFileScan.TargetEndsExactly` | src/dep_files.hpp:91-140 | for any text: a target is read if and only if a colon before which an even run of backslashes stands precedes every such newline, and the rest is what follows it; otherwise the throw |
| `DepFileScan.BlanksCollapse` | src/dep_files.hpp:91-140 | unescaped blanks in a row count as one |
| `DepFileScan.ItemEndsExactly` | src/dep_files.hpp:148-200 | for any text: an item is what stands before the first unescaped blank or newline, without the backslashes that escape |
| `DepFileScan.GapEndsExactly` | src/dep_files.hpp:148-200 | for any text: blanks and escaped characters are skipped up to the first other one |
| `DepFile.PrintedLine` | src/dep_files.hpp:220-253 | the text of a target without dependencies and with one |
| `DepFile.PrintedDeps` | src/dep_files.hpp:220-253 | each further dependency goes on a continued line of its own |
| `DepFile.PrintedTargets` | src/dep_files.hpp:220-253 | a blank line stands between targets |
| `Escaping.ThreePassesIsEscape` | src/dep_files.hpp:51-61 | the three replacement passes equal one map over characters |
| `Escaping.EscapedOneByOne` | src/dep_files.hpp:51-61 | each character is escaped by itself, and exactly newline, space and colon are |
| `Escaping.EscapeInjective` | src/dep_files.hpp:51-61 | escaping loses nothing |
| `Escaping.ReplaceAll` | src/dep_files.hpp:30-48 | the find-and-replace loop is the leftmost non-overlapping replacement |
| `Escaping.Find` | src/dep_files.hpp:30-48 | the first match at or after the position |
| `Escaping.EscapeGnuMakeSpaces` | src/dep_files.hpp:51-61 | a backslash before each newline, space and colon, and nothing else |
| `DepFileIo.ParseSkipSpaces` | src/dep_files.hpp:64-82 | skips exactly the white space, in bounds |
| `DepFileIo.ParseTargetName` | src/dep_files.hpp:91-140 | the unescaped name up to the colon, escaped again, or the throw; in bounds |
| `DepFileIo.ParseNextDepItem` | src/dep_files.hpp:148-200 | the next item; the cursor stays within size plus one and moves whenever an item is returned |
| `DepFileIo.SkipItemGap` | src/dep_files.hpp:148-200 | blanks and escaped pairs before an item are skipped |
| `DepFileIo.ParseItems` | src/dep_files.hpp:292-308 | the inner loop collects all items of a target and strictly progresses |
| `DepFileIo.DepFileContents.ParseDepFileContents` | src/dep_files.hpp:270-313 | terminates on every input, with all targets read before the end or before the throw |
| `DepFileIo.DepFileContents.WriteToBytes` | src/dep_files.hpp:220-253 | the printed file |
| `DepFileIo.WriteLine` | src/dep_files.hpp:220-253 | one printed target |
| `DepFile.NextItem` | src/dep_files.hpp:148-200 | an empty name only at the end of the line or of the input, and strict progress otherwise |
| `MakeTarget.MakeReadsProcessed` | src/dep_files.cpp:141-177 | a reader that follows make and fails otherwise recovers every target: a blank only after an odd run of backslashes, `$` only after `$`, `#` only after a backslash |
| `MakeTarget.DollarsArePaired` | src/dep_files.cpp:162-164 | every run of `$` in the output is of even length |
| `MakeTarget.HashesAreEscaped` | src/dep_files.cpp:165-167 | every `#` in the output directly follows a backslash |
| `MakeTarget.BlankRun` | src/dep_files.cpp:141-177 | a blank after k backslashes is written after 2k+1 |
| `MakeTarget.BlanksAreEscaped` | src/dep_files.cpp:141-177 | in the output every blank follows an odd run of backslashes |
| `MakeTarget.ProcessMakefileTarget` | src/dep_files.cpp:141-177 | the nested loops compute the quoting, which the reader reads back |
| `MakeTarget.LookBack` | src/dep_files.cpp:141-177 | the look-back loop appends one backslash for each that precedes the position |
| `MakeTarget.AppendQuoted` | src/dep_files.cpp:141-177 | what is appended for one character |
| `Writer.NothingLostOrReordered` | src/server_session.cpp:575-641 | for both variants and every interleaving: written, in flight and queued bytes are all messages in order if and only if every failed write was harmless |
| `Writer.AtMostOneWriter` | src/client_session.cpp:405-469 | never two writers, and no writer means an empty queue |
| `Writer.NoFailureIsHarmless` | src/server_session.cpp:607-629 | while writes succeed nothing is lost or reordered |
| `Writer.ReceiverSeesPrefix` | src/proto_io.hpp:19-47 | the far end decodes a prefix of what was sent, and all of it once no writer is left |
| `Delivery.DeliveryEnds` | src/server_session.cpp:607-641 | from any state the writer takes only so many turns if nothing is sent and no write fails |
| `Delivery.EverythingArrives` | src/client_session.cpp:405-469 | when the writer can take no turn everything sent has been received, in order |
| `Writer.FailureDropsServerMessage` | src/server_session.cpp:607-629 | a concrete failed write after which the server has lost the message |
| `Writer.FailureRepeatsClientMessage` | src/client_session.cpp:437-469 | for any message and any point of failure inside it: the client sends the part before that point and then all of it |
| `Writer.SessionWriter.SendMsg` | src/server_session.cpp:575-604 | frames and queues the message, and spawns a writer if there is none |
| `Writer.SessionWriter.ResumeWriter` | src/server_session.cpp:612-639 | the writer takes the next message, before or after writing it |
| `Writer.SessionWriter.WriteCompleted` | src/client_session.cpp:440-452 | the message written is popped where the variant pops late, and the writer goes on |
| `Writer.SessionWriter.WriteFailed` | src/server_session.cpp:626-639 | the writer leaves its loop |
| `Writer.SessionWriter.LeaveWriterLoop` | src/server_session.cpp:631-639 | the flag is cleared, and a new writer spawned if messages are left |
| `Framing.FrameExact` | src/proto_io.hpp:27-45 | a framed message is received back if and only if its length fits 32 bits |
| `Framing.ReceiveAllFrames` | src/proto_io.hpp:19-47 | a stream of frames decodes to the messages |
| `Framing.ReceivePrefix` | src/proto_io.hpp:19-47 | any prefix of the stream decodes to a prefix of the messages |
| `Ipc.RequestRoundTrip` | src/unix_ipc_socket.hpp:323-346 | the daemon decodes the wrapper's request, consuming all of it, if and only if all lengths fit 32 bits |
| `Ipc.ResponseRoundTrip` | src/distbuild_wrapper.cpp:92-114 | the wrapper decodes the daemon's response, signed exit code included, if and only if the lengths fit |
| `Ipc.RequestDelivered` | src/distbuild_wrapper.cpp:68-89 | with the frame around it, delivered if and only if the payload fits 32 bits |
| `Ipc.ResponseDelivered` | src/unix_ipc_socket.hpp:348-370 | the same for responses |
| `IpcLayout.RequestLayout` | src/distbuild_wrapper.cpp:68-89 | where the working directory, the number of arguments and each argument stand in the bytes |
| `IpcLayout.ResponseLayout` | src/unix_ipc_socket.hpp:348-370 | where the exit code, standard output and standard error stand in the bytes |
| `Ipc.SerializeRequest` | src/distbuild_wrapper.cpp:68-89 | the bytes of a request |
| `Ipc.SerializeResponse` | src/unix_ipc_socket.hpp:348-370 | the bytes of a response |
| `Ipc.DeserializeRequest` | src/unix_ipc_socket.hpp:323-346 | the loop decodes, or would read past the end |
| `Ipc.DeserializeResponse` | src/distbuild_wrapper.cpp:92-114 | decodes, or would read past the end |
| `Ipc.ByteVector.AppendU32` | src/unix_ipc_socket.hpp:235-245 | pushes the big-endian octets, by the divisions and remainders that `Words.ShiftsAreBigEndianOctets` shows to be the shifts and masks |
| `Ipc.ByteVector.AppendString` | src/unix_ipc_socket.hpp:259-274 | length, then bytes |
| `Words.ShiftsAreBigEndianOctets` | src/unix_ipc_socket.hpp:235-245 | on 32-bit words, shifting and masking gives the big-endian octets of the word's value |
| `Words.OrsAreBigEndianWord` | src/unix_ipc_socket.hpp:247-257 | shifting and or-ing four octets gives the word whose value they spell |
| `Words.OrsUndoShifts` | src/unix_ipc_socket.hpp:235-257 | shifting out the four octets and or-ing them together again gives back every word |
| `Bytes.ShiftsAreBigEndian` | src/unix_ipc_socket.hpp:241-244 | the four octets by division and remainder, as the other lemmas use them |
| `Bytes.OrsAreBigEndian` | src/unix_ipc_socket.hpp:252-256 | the word by product and sum |
| `Lru.RunGood` | src/lru_storage.hpp:36-80 | over any run of calls the budget holds and the list is in order of last insertion or hit |
| `Lru.FittingIsLongest` | src/lru_storage.hpp:68-74 | what a store keeps is the longest most recent prefix that fits beside the new value |
| `Lru.CallExactly` | src/lru_storage.hpp:36-80 | after any run, a lookup keeps all entries and puts the one found in front; a store puts the new entry in front of as many of the most recent ones as fit |
| `Lru.LruStorage.GetValue` | src/lru_storage.hpp:43-55 | no entry is lost, a hit moves to the front and its value is returned |
| `Lru.LruStorage.StoreValue` | src/lru_storage.hpp:57-80 | false for a present key; otherwise the new entry stands before a prefix of the old ones, and no longer prefix would fit; for a value over the capacity, empties the list and tells that it would look at its back |
| `Lru.LruStorage.MakeRoom` | src/lru_storage.hpp:68-74 | the eviction loop leaves exactly that prefix, in bounds if and only if the value fits the capacity |
| `Lru.LruStorage.EvictLast` | src/lru_storage.hpp:69-73 | the last node leaves list and index and its size the usage |
| `Lru.LruStorage.InsertFront` | src/lru_storage.hpp:76-78 | the new node is first, indexed and counted |
| `Lru.LruStorage.ClearStorage` | src/lru_storage.hpp:36-41 | empties list and index |

## Left out

- Sockets, coroutines, timers and UDP advertising: only the strand's serialisation and in-order byte streams are modelled.
- Compiling itself, local fallback compilation and discovery of system include directories: foreign processes.
- Serialisation of the protocol messages to bytes: messages are values on the wire.
- The digest function: a received digest is any value.
- Interleavings inside one step of the upload protocol, such as the reads of file status without the mutex, and buffering of output streams: steps are atomic and writes reach the disk at once.
- Sessions are values in the view's table and pointers to file states are client paths, so aliasing between session objects and tables is not captured.
- Failures to create directories or open the output file on the server, and the object that the compiler leaves behind.
- Wrap-around of 64-bit sequence numbers, offsets and sizes: they are unbounded here.
- Several clients sharing system paths on one server, and recovery after a fault or an abort (a file whose uploader aborted stays in the uploading state): only safety is claimed there.
- The variant of `try_request_src_compilation` that locks the session first: no caller uses it.
- Arguments other than include directories in `preprocess_compiler_call`, `-ffile-prefix-map`, and generated names of object files: they would add easy members.
- `generate_dep_file`, `_calculate_deps_for_headers`, the flags that select a dependency file, and reading of directives out of source lines: easy members; the file system maps paths to directive lists.
- Escaping.ReplaceAll: an empty search text is excluded; the original would not stop, and is never called so.
- Lru.LruStorage.GetValue: the original's list nodes and the pointer it returns do not type-check as written; the intended structure of key and value pairs is modelled.
- Pool.CompilerManager.InvalidateRequestsForSession: the original takes no mutex here; it is one atomic turn.
- IncludeSurvey.WarmSearchComplete: where a file is named both with and without the cache's answer, or a recorded candidate hides a file, only the necessary half is claimed; what is reported there depends on the order of the directives.
- Lru.RunGood: runs store no value larger than the capacity; after one the original reads the back of an empty list.
- Concurrent use of the include cache by several searches: searches follow one another.
- Symbolic links and canonical paths: distinct strings are distinct files.
