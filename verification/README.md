# multiagent in Dafny

A model of the parts of multiagent that keep records and hand out authority, with proofs of what they
promise over whole runs.

- The audit ledger: canonical JSON, the framed append-only file, the in-memory index beside it, replay, the
  hash chain, signed checkpoints, projections, and the HTTP handlers that share the store.
- The workflow DAG: cycle detection, the node and edge tables, adding and updating nodes, and readiness.
- Execution authority: the one bounded grant a user session can obtain, and the life of launch authorizations.
- The shell command line handed to an agent's terminal.
- The benchmark shard aggregate: coverage, completeness and the suggested next shard.

`dafny verify dfyconfig.toml` checks everything.

## How to read it

Each component has a specification on values and, where the program updates things in place, a class or a loop
proved to make the same step. Runs are sequences of steps, and the theorems about runs are the main results.

- Ledger bytes are strings with one character per byte. Sequence numbers are unbounded.
- SHA-256, Ed25519, RFC 3339 checking and the clock are functions or values supplied from outside
  (`Logger.Library`, `Ledger.Context`). What is required of them is written out: a signature that was made
  verifies, a digest has its printed length. Hashing is never taken to be injective; the commitment theorems
  return the collision instead.
- A durable write succeeds, or keeps any number of bytes of the frame and fails.
- `Ledger.Context` lets the ledger theorems hold for every codec with the stated laws; `Logger.ContextLawful`
  shows the concrete JSON codec is one.
- The checkpoint interval is at least 1, as the configuration demands.
- Handlers of the ledger service are interleaved step by step around the store's lock and the ready flag.
- Workflow, authorization and active-execution files are modelled as their text; reading back what was written is proved.
- A session is a course of requests, launches and finishes over one active-execution file and one directory of
  authorizations; the authority, the registrations and the launches meet in it.

## What turned out to need a condition

- A node row is written with tabs between fields while only line breaks are rejected, so a row round-trips
  exactly when no field has a tab (`Workflow.NodeExact`); `Dag.TabbedAgent` is an accepted request that does
  not. Every reachable workflow is still sound, because what is read back is itself clean
  (`Workflow.StoredClean`).
- A registration is read back as written exactly when the workflow id has no newline and no carriage return at
  its end (`LaunchText.RegistrationExact`), and with the name, role and access asked for exactly when the lines
  of the id do not say otherwise (`Launches.RegisteredAsAsked`); `Launches.ForgedAccess` is an accepted
  registration that reads back with another access. The normal start path only lets through ids of letters,
  digits, dots, dashes and underscores (runtime/src/runtime.rs:721, runtime/src/workflow.rs:2825).
- The cycle of an authorization, the bound on its claims and its plan-alignment binding hold for every id
  (`Lifecycles.Lifecycle`, `Identities.EveryBinding`); nothing is bound under an id that is not valid
  (runtime/src/workflow.rs:301). Its role and access do not: a file loses a carriage return at the end of a
  value each time it is rewritten, and a line of the id can set such a value (`Identities.ReturnLine`).
  `Identities.IdentityExact` gives the exact condition on the lines of the id: none sets a role or access that
  a rewrite changes while some authorization can be claimed.
- An access line can make a reader read as a writer; `Sessions.WritersExact` says exactly which do.
  `Sessions.OneShot` holds for every id, because the authority is asked again at launch.
- The ready flag can be true while writing is disabled (`Server.LateStore`); `Server.ReadyAgain` says exactly
  when, and `Server.FailStop` holds whatever the flag says.
- A program text such as `a=b` is printed unquoted and read as an assignment (`Shell.AssignmentProgram`);
  `Shell.RenderRuns` gives the exact condition.
- Suggested shards complete the benchmark exactly when the reports they start from have no repeated or
  out-of-range index (`Aggregation.Converges`); `Aggregation.RepeatedShard` is a start that never completes.

## Model

| member | source | states |
|---|---|---|
| `Json.RoundTrip` | logger/src/canonical.rs:5-10 | every JSON value whose numbers are natural numbers, the only ones a record holds, parses back from its written bytes, with escapes as in section 7 of RFC 8259 |
| `Json.EncodeInjective` | logger/src/canonical.rs:5-10 | equal bytes come only from equal values of that kind |
| `Json.EncodePrintable` | logger/src/canonical.rs:5-10 | no written value contains a control byte, so none contains a raw newline |
| `Canonical.SortThenDescend` | logger/src/canonical.rs:25-40 | sorting the keys before or after descending into the values gives the same document |
| `Canonical.CanonicalIsCanonical` | logger/src/canonical.rs:25-40 | the canonical form has strictly ascending keys in every object at every depth |
| `Canonical.CanonicalIdempotent` | logger/src/canonical.rs:25-40 | canonicalizing twice is canonicalizing once |
| `Canonical.SameCanonical` | logger/src/canonical.rs:25-40 | two documents have one canonical form if and only if they differ only in the order of object keys |
| `Canonical.CanonicalBytesDecide` | logger/src/canonical.rs:5-40 | so two documents have the same canonical bytes if and only if they differ only in key order |
| `Events.CheckEventType` | logger/src/model.rs:160-183 | the one-pass scan with its separator flag accepts exactly the segment grammar |
| `Events.RecordRoundTrip` | logger/src/store.rs:361-367 | every record, checkpoint or not, is decoded from the line that stores it |
| `Events.CanonicalReaders` | logger/src/store.rs:361-367 | whatever else a decoder tolerates, after the canonical comparison exactly the canonical lines are accepted, each as its own record |
| `Events.RecordCanonical` | logger/src/store.rs:168-183 | the bytes of a record are those of a document already in canonical order |
| `Events.RecordOneLine` | logger/src/store.rs:183-187 | a stored line is never empty and never contains a newline, so framing is unambiguous |
| `Events.BodyBytesInjective` | logger/src/store.rs:150-160 | the hashed bytes determine the entry body |
| `Events.AcceptedBytesInjective` | logger/src/store.rs:128-132 | the bytes behind a request digest determine event and producer |
| `Events.SignedRoundTrip` | logger/src/signer.rs:36-58 | the signed bytes, read as JSON, say exactly the checkpoint body |
| `Events.EntryRoundTrip` | logger/src/store.rs:529-533 | a published entry is one line that reads back as the entry |
| `Ledger.InsertKeepsInvariant` | logger/src/store.rs:375-494 | a record that passes validation keeps the whole index invariant: sequences 1..n, links from genesis, heads, the event bijection, and both checkpoint maps |
| `Replay.FramesReplay` | logger/src/store.rs:329-373 | replaying the frames of records that pass leaves the state after them and goes on with the rest of the file |
| `Replay.ReplayCharacterised` | logger/src/store.rs:329-373 | a file is accepted if and only if it is the frames of records that pass one after the other, and then gives their state |
| `Replay.CrashCut` | logger/src/store.rs:336-371 | a file cut at any byte is accepted if and only if the cut is a record boundary, and then holds exactly the records before it |
| `Replay.ReplayInvariant` | logger/src/store.rs:329-373 | every file that replay accepts gives an index with the full invariant |
| `Storage.OpenedConsistent` | logger/src/store.rs:84-116 | a file that opens gives a store whose file, index and projections agree and which verifies |
| `Storage.AppendConsistent` | logger/src/store.rs:118-200 | an append, whether refused, durable or torn after any number of bytes, keeps file, index and projections in agreement |
| `Storage.TornReplays` | logger/src/store.rs:183-193 | what a file replays to after a write that kept any number of bytes: the old state, a truncation error, or the new state |
| `Storage.HonestAppend` | logger/src/store.rs:375-457 | exactly when validation passes the record of a new event; the duplicate-sequence rule for checkpoints never refuses one |
| `Storage.NextSequenceFree` | logger/src/store.rs:424-457 | no checkpoint of a log ever has its next sequence number |
| `Storage.FlushConsistent` | logger/src/store.rs:305-326 | any mix of published, failed and half-failed projection files keeps every log that is not waiting in agreement with its file |
| `Runs.RunConsistent` | logger/src/store.rs:84-326 | file, index and projections agree after every run of appends, verifications, flushes and restarts, failed writes included |
| `Runs.RunIntact` | logger/src/store.rs:249-294 | with no failed write, the bytes on disk replay to exactly the index in memory after every run |
| `Runs.RunGrows` | logger/src/store.rs:118-200 | no run rewrites or loses a committed entry, event or checkpoint |
| `Runs.OneEntryPerEvent` | logger/src/store.rs:385-393 | an event id has at most one entry across all logs |
| `Runs.Resubmission` | logger/src/store.rs:132-140 | after any run, submitting a committed id again changes nothing: Duplicate for the same digest, Conflict for another |
| `Runs.CrashRecovery` | logger/src/store.rs:183-193 | after a failed write a restart succeeds if and only if nothing or everything was written, and one resubmission, at another time, then leaves exactly one entry: that of the attempt that reached the file |
| `Runs.CutMoments` | logger/src/store.rs:336-371 | after any run without a failed write, the file cut at or beyond its starting length replays if and only if it is cut to the length it had at some moment of the run, and then to the index of that moment |
| `Runs.PagingPrefix` | logger/src/store.rs:206-217 | paging by the last seen sequence concatenates to a prefix of the chain, whatever happens between the pages |
| `Runs.RunScheduled` | logger/src/store.rs:163-167 | with one interval, after every run the checkpoints of each log sit in order exactly at its multiples up to the head |
| `Commitment.ChainCommitment` | logger/src/store.rs:375-422 | one hash in two chains means the same log, position and entries up to there, or two different bodies with that hash are returned |
| `Commitment.HeadCommitment` | logger/src/store.rs:375-422 | two accepted files with one head hash for a log have the same entries and accepted events for it, or a collision is returned |
| `Commitment.CheckpointCommitment` | logger/src/store.rs:424-457 | checkpoints that agree on log, sequence and entry hash force the same history up to that sequence, or a collision is returned |
| `Logger.ContextLawful` | logger/src/signer.rs:36-58 | the concrete codec and a signer that verifies what it signs obey every law the ledger theorems assume |
| `Logger.HistoryCommitment` | logger/src/canonical.rs:5-19 | the same for the deployed functions and two files of possibly different signers: equal heads mean equal histories, or two different byte strings with one SHA-256 |
| `Logger.PrefixCommitment` | logger/src/store.rs:424-457 | checkpoints of two replayed files that agree on log, sequence and entry hash mean equal histories up to there, or two byte strings with one SHA-256 |
| `Logger.ReplayedCheckpoint` | logger/src/store.rs:424-457 | a checkpoint of a replayed file names its log, an entry there by sequence, hash and time, and this service, and its signature verifies over bytes that say exactly that |
| `Logger.SignedCommitment` | logger/src/signer.rs:36-58 | two checkpoints of replayed files that carry one signature text have one body, or two byte strings that the signature vouches for are returned |
| `Logger.SignedPrefix` | logger/src/store.rs:424-457 | so a shared signature means equal histories up to the checkpoint, or returns two byte strings with one SHA-256 or one signature |
| `CheckpointNames.NameDecides` | logger/src/store.rs:496-507 | one checkpoint name belongs to one log, sequence and entry hash, or two byte strings whose digests agree on 48 digits are in hand; the text is read from the right because log ids may contain colons |
| `CheckpointNames.RunNamed` | logger/src/store.rs:496-518 | in every run, failed writes and restarts included, each checkpoint is named after the entry it certifies |
| `CheckpointNames.NextNameFree` | logger/src/store.rs:442-452 | the name of the next checkpoint is free, or two such byte strings are returned |
| `Admission.ReplayedRecords` | logger/src/store.rs:375-395 | an accepted file is a sequence of framed records of the one known version and kind, each about an event with a SHA-256 payload digest |
| `Admission.ReplayVetted` | logger/src/store.rs:375-420 | every event of an accepted file is valid, with a valid producer and a time that parses |
| `Admission.ProjectionNames` | logger/src/store.rs:520-526 | in every consistent store each log gives its projection a plain file name of its own |
| `Logger.DifferentContent` | logger/src/store.rs:132-140 | different content under one id has a different digest, or is a SHA-256 collision |
| `RecordSize.ReferenceLength` | logger/src/model.rs:103-133 | a valid artifact reference encodes within a fixed bound, counting six bytes for every escaped byte |
| `RecordSize.RecordFits` | logger/src/store.rs:168-183 | every record an append builds from a valid event encodes below 2 MiB, so the size rejection is unreachable and replay admits the line |
| `Census.TotalSplit` | logger/src/store.rs:274-286 | the totals of a verification do not depend on the order in which logs are visited |
| `Census.VerificationCountsRecords` | logger/src/store.rs:269-293 | an unfiltered verification counts each record of the file once and each checkpoint once |
| `Deployment.EveryRun` | logger/src/store.rs:84-326 | from an empty file, with the deployed codec, hash and signer, after every run: agreement of file, index and projections, the index invariant, the checkpoint schedule, and without a failed write a file that replays to the index |
| `Deployment.AppendedIfNamed` | logger/src/store.rs:118-200 | in every consistent store an append commits if and only if writing is enabled, the id is new, event, producer and clock are well formed, a due checkpoint name is free and the write is durable; the size limit never decides |
| `Deployment.AppendedExactly` | logger/src/store.rs:118-200 | from an empty file, after every run, a taken checkpoint name never decides either, or two byte strings whose SHA-256 texts agree on 48 digits are returned |
| `Deployment.EveryCut` | logger/src/store.rs:336-371 | the same from an empty file, for every cut, with the deployed functions |
| `Deployment.ResubmittedContent` | logger/src/store.rs:132-140 | after any run the same content under a committed id is a Duplicate and other content a Conflict or a SHA-256 collision, and nothing changes |
| `Projections.ProjectionPublishes` | logger/src/store.rs:529-533 | a projection has exactly one newline-terminated line per entry, and line i reads as entry i |
| `Projections.EveryProjection` | logger/src/store.rs:305-326 | from an empty file, after every run, each log that is not waiting has a file that publishes exactly its entries in chain order |
| `Store.LedgerIndex.InsertRecord` | logger/src/store.rs:459-494 | updating the five maps in place is the insertion the theorems are about |
| `Store.ReplayFile` | logger/src/store.rs:329-373 | the line-by-line loop gives the index, or the first fault, of the record-by-record definition |
| `Store.LedgerStore.constructor` | logger/src/store.rs:84-116 | a store is built only on an index its file replays to, and every log starts out waiting for projection |
| `Store.LedgerStore.Append` | logger/src/store.rs:118-200 | the in-place append makes exactly the specified step and keeps the store valid |
| `Store.LedgerStore.Write` | logger/src/store.rs:183-198 | the durable write: a torn one keeps a prefix and disables writing, a whole one updates file, index and waiting set |
| `Store.LedgerStore.Entries` | logger/src/store.rs:206-217 | the filtered, limited scan gives the page that the paging theorem is about |
| `Store.LedgerStore.Verify` | logger/src/store.rs:249-294 | ok if and only if writing is enabled and the file replays to the index; the counts are those of the one log asked for, of none if it is unknown, or totals over all logs |
| `Store.LedgerStore.FlushProjections` | logger/src/store.rs:305-326 | the loop over waiting logs makes the specified step, and its two counters split the logs that were waiting |
| `Store.PublishPending` | logger/src/store.rs:305-326 | after the loop a log still waits exactly if its file was not confirmed, and the files written are the ones published |
| `Store.ProjectionText` | logger/src/store.rs:520-545 | a projection file is the encoded entries of the log, one line each |
| `Server.ExecuteRuns` | logger/src/server.rs:153-205 | however handler steps interleave, the store goes through a run of whole appends and flushes |
| `Server.EveryInterleaving` | logger/src/server.rs:153-205 | so in every interleaving file, index and projections agree, nothing committed is lost, and checkpoints stay on schedule |
| `Server.Acknowledged` | logger/src/server.rs:153-205 | in every interleaving, whatever fails: an event answered 204 is committed with its own digest, and one answered 409 has its id committed with another |
| `Server.NothingUnasked` | logger/src/server.rs:153-205 | in every interleaving whatever is committed was asked for, exactly as stored, by an authorised request |
| `Server.FailStop` | logger/src/server.rs:153-205 | after one failed durable write, in every interleaving of handler steps nothing more is committed and every later verification computes not ok |
| `Server.ReadyAgain` | logger/src/server.rs:292-321 | the ready flag can read true after a failure if and only if it still does, or a verification that succeeded earlier has yet to store its result |
| `Server.LateStore` | logger/src/server.rs:153-205 | from every state that can commit there is an interleaving that leaves the flag true while writing is disabled |
| `Graph.DepthFirst.Visit` | runtime/src/dag.rs:585-605 | a search from a node finds a real cycle or leaves the node finished: finished nodes are closed under successors and on no cycle, and the active set is restored |
| `Graph.HasCycle` | runtime/src/dag.rs:570-583 | true if and only if the edge list has a directed cycle, self-loops included |
| `Tables.RowExact` | runtime/src/dag.rs:121-152 | a tab-joined row reads back as written if and only if no field contains a tab |
| `Tables.LinesText` | runtime/src/dag.rs:542-568 | rows that survive as lines are read back exactly |
| `Tables.JoinSplit` | runtime/src/dag.rs:269-274 | the parts between separators, joined again, give the text |
| `Tables.TrimExact` | runtime/src/dag.rs:269-274 | trimming cuts off whitespace at both ends, as much as there is |
| `Workflow.NodeExact` | runtime/src/dag.rs:121-152 | a node reads back from its line if and only if none of its ten fields contains a tab |
| `Workflow.NodesRead` | runtime/src/dag.rs:542-560 | a table of newline-free rows comes back row by row, each as its own line reads |
| `Workflow.NodesRoundTrip` | runtime/src/dag.rs:542-560 | a table of rows without tabs or newlines is read back exactly |
| `Workflow.EdgesRoundTrip` | runtime/src/dag.rs:547-568 | the same for edges |
| `Workflow.StoredClean` | runtime/src/dag.rs:121-152 | what a row with tabs reads back as is itself a clean row, with the same id |
| `Dag.TabbedAgent` | runtime/src/dag.rs:211-305 | a request with a tab in its agent is accepted and its node reads back as another one |
| `Dag.SoundAcyclic` | runtime/src/dag.rs:263-305 | distinct ids and edges that only point forward exclude every cycle |
| `Dag.ReachableSound` | runtime/src/dag.rs:211-351 | every reachable workflow, additions interrupted between the two writes included, has distinct ids, edges from earlier to later existing nodes, and no cycle |
| `Dag.SetStatusKeepsSound` | runtime/src/dag.rs:317-351 | a status change keeps the workflow sound |
| `Dag.Refused` | runtime/src/dag.rs:211-300 | the cycle rejection never fires: the only refusals are those of the earlier checks |
| `Dag.WorkflowFiles.AddNode` | runtime/src/dag.rs:211-315 | the rewritten files read back as the old content with the node and its edges, or without the edges after a crash between the writes; a refusal changes nothing |
| `Dag.WorkflowFiles.UpdateStatus` | runtime/src/dag.rs:317-351 | the rewritten file reads back with exactly that status changed, or nothing changed |
| `Additions.DependenciesPlaced` | runtime/src/dag.rs:269-274 | the dependencies of a request are the words between commas that are not blank, trimmed, all of them and in order |
| `Additions.AcceptedExactly` | runtime/src/dag.rs:211-279 | an addition is accepted if and only if its fields are well formed, no row has its id, and every dependency it names has a row |
| `Additions.AddedExactly` | runtime/src/dag.rs:280-306 | an accepted addition adds one row with the requested fields, where no tab splits them, and edges into it from exactly the dependencies it names |
| `Additions.DependenciesStay` | runtime/src/dag.rs:211-351 | whatever is added or updated afterwards, a node depends on exactly what its own addition named |
| `Scheduler.Ready` | runtime/src/dag.rs:353-380 | in a table with distinct ids a row is listed if and only if it is marked ready, or is pending and every edge into it comes from a row that is done or skipped; the list follows the table |
| `Scheduler.Progress` | runtime/src/dag.rs:353-380 | in every sound workflow whose nodes are pending, done or skipped and not all settled, a pending node is listed |
| `Scheduler.ScheduleCounts` | runtime/src/dag.rs:353-380 | marking listed nodes done settles one pending node per step, so no schedule is longer than the pending nodes |
| `Scheduler.ScheduleContinues` | runtime/src/dag.rs:353-380 | an unfinished schedule can always be continued |
| `Scheduler.ScheduleCompletes` | runtime/src/dag.rs:353-380 | every schedule extends to one that settles all nodes, one step per pending node |
| `Scheduler.ScheduleRespectsDependencies` | runtime/src/dag.rs:353-380 | each node of a schedule comes after all its dependencies |
| `Execution.NormalizedStable` | runtime/src/execution.rs:93-107 | a normalized repository path is its own normal form |
| `RepositoryPaths.AcceptedExactly` | runtime/src/execution.rs:93-107 | a path is accepted if and only if it is not blank, has at most 512 bytes, starts with no separator and no "." component and has no ".." between separators or ends; only its backslashes change |
| `RepositoryPaths.NeverLeaves` | runtime/src/execution.rs:93-107 | walking an accepted path component by component never leaves the repository, as given or as normalized |
| `Grants.AcceptableExactly` | runtime/src/execution.rs:273-290 | paths can be asked for if and only if there are at most 32, each is acceptable, no two are the same path, and there are some or operations are asked for |
| `Grants.AuthorityOrigin` | runtime/src/execution.rs:150-246 | authority to write or operate comes only from a person at the terminal, a reviewed grant made out to this session and repository, or this session's own active execution there; no granted path leads out |
| `Execution.RecordAccepted` | runtime/src/execution.rs:190-246 | the record a mutation request makes is accepted as exactly the authority asked for: those normalized paths and those effects |
| `Execution.SortedInOrder` | runtime/src/execution.rs:273-316 | the paths of the record are in order and are exactly the normalized ones |
| `Execution.MayAsk` | runtime/src/execution.rs:84-87 | a mutation may be asked for exactly in a user session without a grant and without an active execution |
| `ActiveText.ActiveFile.RequestMutation` | runtime/src/execution.rs:273-316 | granted if and only if the session is such a one, is bound to a repository and names acceptable paths; the answer is then exactly what was asked for and what the text of the file now says, and otherwise nothing is written |
| `PrettyJson.PrettyRoundTrip` | runtime/src/execution.rs:308-314 | indented JSON text is read back as the document it was written from, by a reader that skips blanks between tokens only |
| `PrettyJson.SplitWord` | runtime/src/execution.rs:194-197 | any text with blanks within a number or literal is unreadable |
| `ActiveText.ActiveRoundTrip` | runtime/src/execution.rs:308-314 | every active-execution record, whatever its texts contain, is read back from the text of its file |
| `ActiveText.GrantedText` | runtime/src/execution.rs:190-246 | the text a granted request writes gives, when it is read, exactly the authority that was asked for |
| `Authority.ValidMutationRequestArgs` | runtime/src/authority.rs:367-388 | the index-and-flag scan accepts exactly the command lines the option parser accepts |
| `Authority.MutationRequestOptions` | runtime/src/runtime.rs:1374-1399 | the option loop gives the parsed paths and flag, or nothing |
| `Authority.MutationGrammar` | runtime/src/authority.rs:367-388 | accepted command lines are exactly those printed from a non-empty list of flags with at most one reviewed-ops, and give back its paths |
| `Authority.SeparateDuties` | runtime/src/authority.rs:166-223 | no peer but root can both submit a resolution and judge it, and the writer can neither publish nor execute an operation |
| `Authority.ObserversObserve` | runtime/src/authority.rs:225-304 | a session that only observes submits no resolution, performs no operation and registers no writer outright |
| `Sessions.OneShot` | runtime/src/supervisor.rs:842-946 | in every course of a user session without a grant at most one mutation succeeds; before it no operation happens and no path is opened to a writer, after it only within exactly the requested paths and effects; every path ever opened is one that was asked for and leads nowhere out of the repository |
| `Sessions.HappenAttributed` | runtime/src/authority.rs:166-223 | every change of a session is made by a peer that may make it: mutations and registrations by the orchestrator, operations by the operations peer, the reviewer or a bound publication, and paths are opened only for a registered writer |
| `Sessions.Unasked` | runtime/src/authority.rs:166-223 | a course without requests of root or the orchestrator obtains no mutation, and without the operations peer and the reviewer performs no operation |
| `Sessions.WritersOnDisk` | runtime/src/supervisor.rs:223-249 | in every course with an id that forges no access, before the mutation no authorization on disk reads as a writer, and afterwards each one that does was admitted for paths within exactly the requested ones |
| `Sessions.EverySession` | runtime/src/supervisor.rs:147-405 | both from the start of a session, whatever is asked, launched and finished; the first for every workflow id |
| `Sessions.WritersExact` | runtime/src/supervisor.rs:307-319 | on a host with a backend every writer on disk was admitted, in every course, if and only if no access line of the workflow id reads as write access, at once or after the rewrites it lives to see |
| `Sessions.FirstMutation` | runtime/src/execution.rs:273-316 | the first request succeeds if and only if an allowed caller sends a well-formed one, naming at most 32 distinct plain paths or reviewed operations |
| `Sessions.SecondMutationRefused` | runtime/src/authority.rs:258-304 | every request after a granted one is refused and changes nothing |
| `Supervision.Supervisor.constructor` | runtime/src/supervisor.rs:804-836 | a user session starts read-only, with nothing granted and nothing registered |
| `Supervision.Supervisor.Handle` | runtime/src/supervisor.rs:842-946 | one request passes the gates in order and updates the files; everything granted and every writer on disk stays within one mutation |
| `Supervision.Supervisor.HandleAll` | runtime/src/supervisor.rs:804-836 | serving goes on until a shutdown request or a request whose process could not be started or read, and stays bounded |
| `Supervision.Supervisor.Launch` | runtime/src/runtime.rs:225-375 | a launch claims the authorization once and opens a writer the paths its assignment names only if the authority in force permits them |
| `Supervision.Supervisor.End` | runtime/src/supervisor.rs:398-405 | finishing keeps the session bounded and completes only a running authorization |
| `LaunchText.EnvReads` | runtime/src/state.rs:57-62 | a key=value file is read back as its pairs when every value survives as a line |
| `LaunchText.RegisterReads` | runtime/src/supervisor.rs:307-319 | for every workflow id, the file reads as the registration with name, role, access and id as the lines of that id leave them |
| `LaunchText.StateReads` | runtime/src/supervisor.rs:530-565 | rewriting the state, in another key order, leaves every other field as read, up to a carriage return at the end of name, role, access or workflow id |
| `LaunchText.LastState` | runtime/src/supervisor.rs:307-319 | whatever the other values are, the last line decides the state |
| `LaunchText.RegistrationExact` | runtime/src/supervisor.rs:307-319 | a registration reads back as written if and only if the workflow id has no newline and does not end in a carriage return |
| `Launches.RegisteredAsAsked` | runtime/src/supervisor.rs:147-329 | an accepted registration asks for read-only access or for a worker to write, a worker's default; it reads back with the name, role and access asked for if and only if the lines of the workflow id do not say otherwise |
| `Launches.ForgedAccess` | runtime/src/supervisor.rs:307-319 | a workflow id with a line break for which a reader is registered and reads back with write access |
| `Lifecycles.StepCycles` | runtime/src/supervisor.rs:147-405 | on any host each step moves an authorization at most one place along registered, running, completed, registered |
| `Lifecycles.Lifecycle` | runtime/src/supervisor.rs:147-405 | in every run on any host, whatever its workflow id and digests, the state of each authorization is the one its counts give, so claims never exceed registrations and renewals |
| `Lifecycles.EveryLaunch` | runtime/src/supervisor.rs:147-405 | the same from the empty directory |
| `Identities.RegisterStep` | runtime/src/supervisor.rs:195-319 | for every workflow id: what an accepted registration leaves on disk, and that a renewal starts from completed and was compared with role, access, cli, binary and binding; a plan-alignment reviewer is bound to the plan and task the lifecycle file vouches for |
| `Identities.StateStep` | runtime/src/supervisor.rs:349-405 | a claim or a finish changes the state, and at most drops a carriage return from a role or access that a line of the workflow id set |
| `Identities.InstructionGuarded` | runtime/src/supervisor.rs:349-405 | whatever the instruction file holds at the claim, the claim succeeds only with the instruction that was registered, or two texts with one digest are in hand |
| `Identities.BindingKept` | runtime/src/supervisor.rs:250-277 | whatever the workflow id, in every run the plan-alignment binding of every authorization stays what it was, even while the workflow seals other plans |
| `Identities.BindingDecides` | runtime/src/workflow.rs:185-212 | equal bindings are bindings to one plan and one task text, or two texts with one digest are in hand; only a valid workflow id and the sealed plan are bound at all |
| `Identities.EveryBinding` | runtime/src/supervisor.rs:267-276 | from the empty directory, on every host: only plan-alignment reviewers under a valid id are bound, and no binding changes, so the plan and the task a reviewer is bound to do not either, or two texts with one digest are in hand |
| `Identities.IdentityKept` | runtime/src/supervisor.rs:250-277 | unless a line of the workflow id frays, in every run role, access, cli and binary stay what they were too |
| `Identities.FrayedClaim` | runtime/src/supervisor.rs:530-565 | otherwise a role or access line that a rewrite changes makes a first claim change whom the authorization is for |
| `Identities.IdentityExact` | runtime/src/supervisor.rs:250-277 | on a host with a backend, identity and binding survive every run if and only if no role or access line of the workflow id frays |
| `Identities.ReturnLine` | runtime/src/supervisor.rs:530-565 | a concrete workflow id, with two carriage returns after its role line, under which a claim changes the role |
| `Identities.AdmittedWriter` | runtime/src/supervisor.rs:223-249 | a registration that reads as a writer, where no access line says so, was made for an active assignment under an authority that permits its owned paths, which are recorded with it |
| `Identities.ReadersOwnNothing` | runtime/src/supervisor.rs:223-249 | a registration that does not ask to write leaves the recorded paths as they were |
| `Identities.OnlyWorkersWrite` | runtime/src/supervisor.rs:331-347 | where no line of the workflow id sets role or access, only workers hold write access |
| `LaunchStore.StateText` | runtime/src/supervisor.rs:530-565 | the loops over required and optional keys write the authorization with only the state changed, and fail exactly when a required field is empty |
| `LaunchStore.LaunchDirectory.Register` | runtime/src/supervisor.rs:147-329 | the in-place registration, with write access checked against the authority and the owned paths, makes exactly the specified step, or none |
| `LaunchStore.LaunchDirectory.Claim` | runtime/src/supervisor.rs:349-378 | a claim returns the authorization as registered and leaves it running, or changes nothing |
| `LaunchStore.LaunchDirectory.Finish` | runtime/src/supervisor.rs:398-405 | only a running authorization becomes completed |
| `Shell.RenderShell` | runtime/src/agent.rs:130-146 | the push loop gives the rendered line |
| `Shell.ScanEscape` | runtime/src/agent.rs:1325-1338 | an escaped string is read back as one word with exactly its text, whatever follows it |
| `Shell.RenderTokenizes` | runtime/src/agent.rs:130-146 | under sections 2.2.1 and 2.2.2 of the POSIX Shell Command Language the line tokenizes to exactly program, arguments and redirection, if and only if no string holds a NUL |
| `Shell.RenderRuns` | runtime/src/agent.rs:130-146 | as a simple command (sections 2.9.1 and 2.10.2) the line runs that program on those arguments if and only if the program text is not an unquoted reserved word or assignment |
| `Shell.AssignmentProgram` | runtime/src/agent.rs:1325-1338 | a concrete program text for which the line runs the first argument instead |
| `Shards.ContiguousRanges` | evaluation/swe_bench_pro_official_aggregate.py:102-115 | the spans expand to exactly the sorted values, repeats included, and no two neighbours could be one |
| `Shards.SortedAscending` | evaluation/swe_bench_pro_official_aggregate.py:102-115 | sorting gives an ascending permutation |
| `Shards.ShardAccepted` | evaluation/swe_bench_pro_shard.py:65-80 | a shard is accepted if and only if every instance it asks for exists |
| `Shards.SuggestedMissingShard` | evaluation/swe_bench_pro_official_aggregate.py:118-127 | the longest run of missing indices from the first, up to the limit, of at least one; nothing when nothing is missing |
| `Shards.MissingExact` | evaluation/swe_bench_pro_official_aggregate.py:179-183 | the missing list is ascending and holds exactly the dataset indices that no report covers |
| `Aggregation.AddReport` | evaluation/swe_bench_pro_official_aggregate.py:165-166 | the owner lists count every listing of every index, repeats within a report included |
| `Aggregation.Tabulate` | evaluation/swe_bench_pro_official_aggregate.py:141-166 | over all reports the owner lists count the included indices, and the running size is their number |
| `Aggregation.IncludedOrigin` | evaluation/swe_bench_pro_official_aggregate.py:71-99 | an index counts if and only if a finished, scored report of the expected agent, with evidence and one outcome per index, lists it |
| `Aggregation.Aggregate` | evaluation/swe_bench_pro_official_aggregate.py:179-194 | with the expected dataset size, complete if and only if the included indices are a permutation of 0..n-1; the reported lists are exact |
| `Aggregation.SuggestedAccepted` | evaluation/swe_bench_pro_shard.py:26-80 | a suggested shard is accepted and selects exactly a prefix of what is missing |
| `Aggregation.SuggestedRuns` | evaluation/swe_bench_pro_official_aggregate.py:192-194 | the shard the aggregate suggests is the one the next round runs |
| `Aggregation.RoundStep` | evaluation/swe_bench_pro_official_aggregate.py:118-127 | one round removes that prefix from what is missing and repeats no index |
| `Aggregation.Converges` | evaluation/swe_bench_pro_official_aggregate.py:118-194 | as many rounds as there are missing indices leave none missing, and cover the dataset exactly if and only if the start had no repeated or stray index |
| `Aggregation.NeverRepaired` | evaluation/swe_bench_pro_official_aggregate.py:179-191 | from a start with a repeated or stray index no number of rounds gives an exact cover |
| `Aggregation.RepeatedShard` | evaluation/swe_bench_pro_official_aggregate.py:179-191 | two reports of one shard, both included, that no further rounds complete |

## Left out

- SHA-256, Ed25519, base64 and RFC 3339 parsing: library code, supplied as functions with stated laws.
- UTF-8 validity: any byte string is allowed, which includes every valid one.
- Overflow of 64-bit sequence numbers: numbers are unbounded, and the 64-bit limit is a hypothesis only of the size bound.
- Line numbers and texts of error messages: faults are kinds.
- Decoders that tolerate whitespace or unknown fields: `Events.CanonicalReaders` shows they make no difference after the canonical comparison.
- Paging of checkpoints, the head lookup, metrics and projection counts: they would repeat the entry paging or only read a field.
- Routing, bearer tokens and permissions of the HTTP service, file modes and locks: only single writing and failing writes matter here.
- The `init`, `blocked`, `show` and `list` commands of the DAG and option parsing: they only print or create empty tables.
- The JSON text of review grants: a grant is absent, malformed, or holds a record.
- The base64 text of a signature: signing and verifying are taken on that text.
- Json.RoundTrip: covers values whose numbers are natural numbers; negative and fractional numbers never occur in a record.
- Json.EncodeInjective: covers the same values as Json.RoundTrip.
- Storage.HonestAppend: leaves the size limit to Deployment.AppendedExactly.
- Shell.RenderShell: leaves out the prompt argument, a command substitution that only interactive compatibility uses.
- Conversion between requests and command lines in `authority.rs`, and request-review arguments: tables without state.
- Canonicalization of instruction and owned paths, and the assignment files: whether an assignment is active and which paths it names are inputs, at registration and again at launch.
- The lifecycle file of a workflow: whether it can be read before implementation, which plan it seals and which task it registers are inputs of each registration, read once.
- The writer lock, sandboxing and file ownership of a launch: only which paths are opened is modelled.
- Lifecycles.Lifecycle: treats each registration as one step, so a crash between its file writes is not modelled.
- LaunchStore.LaunchDirectory.Register: leaves out that the instruction file must be the persisted one, a comparison of canonical paths.
- Alias expansion by the shell: aliases belong to the user's shell.
- Scores of the aggregate: only which reports count and which indices they cover are modelled, not the weighted mean.
- Report discovery, file reading and the Markdown report of the evaluation scripts: input and output only.
- Snapshots, policies, decisions, prompt bundles, privilege and sandbox code, session control, and the workflow, subagent and operations modules: dominated by the operating system or by linear parsing.
