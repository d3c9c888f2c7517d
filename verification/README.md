# Verified model of the pcbex agent's safety-critical Python

pcbex designs circuit boards with the help of an agent that runs external tools, reads and publishes
files, talks to supplier endpoints, checks evidence documents and posts reports. This Dafny project
models the Python parts on which the rest relies and proves what they promise. One file holds one
module; `dafny verify dfyconfig.toml` checks everything.

- **Bounded processes.** `Supervisor` is an interleaved step system of two pipe readers, the stdin
  writer, the child, a clock and the supervising thread. `Cleanup` is the kill, reap and join phase
  with its waiting times.
- **Race-aware files.** `Files` is the world of names, inodes and metadata. `Publish` is one staged
  publication beside foreign actors, with every step on record. `ReadBytes` is the two-pass read
  beside writers in place. `TextEncoding` measures text before encoding it.
- **Supplier transport.** `Slots` is any number of transactions sharing two one-permit slots and
  their sockets. `Chunked` is the chunked body decoder of section 7.1 of RFC 9112 with its budget.
- **Evidence checks.** `Schema` is the structural schema interpreter against the meaning of its
  keywords. `Assembly` is the membership partition and the line items.
- **JSON.** `Json` is documents, the compact printer and UTF-8, `JsonReader` an
  independent reader. `Preflight` and `DecimalDigits` are
  the allocation preflight. `Canonical`, `ErcIdentity`, `DrcFindings`, `Ordering` and `TextOrder` are
  canonical forms. `FloatKey` and `Decimal` are the coordinate key and the decimal rewriter.
- **Smaller evaluators.** `TreeScan`, `Quorum`, `Comment` and `Star`.

Threads are step systems over values: one step is one atomic action, and a theorem about a run holds
for every interleaving. Sequential code is methods over objects and local variables; where the
environment acts, a method picks its behaviour nondeterministically and may fail at every system call;
a `calm` object stands for a system where it does neither, and its contracts say what then must happen.

## Findings

These are consequences of the code as it is, each with the member that states it.

- One deadline is meant to cover input delivery too, but a writer that finds the deadline passed leaves
  without an error, so a run can return normally after the deadline with input undelivered
  (`Supervisor.TruncatedInputCanReturn`). A normal return delivered the input, or had it refused, exactly
  if the writer did not leave this way, in particular whenever it ends before the deadline
  (`Supervisor.SafeReturn`).
- The schema interpreter catches its own depth failure under `not`: a rule that no value satisfies is
  accepted once the negated rule nests deeper than the limit, in a run that trips no counter
  (`Schema.DepthFailureIsSwallowed`, `Schema.SwallowedRun`). Agreement with the unlimited keyword
  semantics therefore holds in every run that trips neither a counter nor the depth
  (`Schema.Validate`).
- The allocation preflight passes integers that cannot be written: Python, from the 3.11 on that the
  package asks for, refuses to write an integer of more than 4300 digits, so the encoding step fails for
  some values whose charge fits (`Preflight.PreflightPassesUnwritable`). `Preflight.JsonBytes` has the
  exact condition.
- If closing the existing destination's descriptor fails, that descriptor is closed a second time on
  the way out; every other descriptor is closed exactly once (`Publish.Publication.Publish`). The same
  holds on Windows for the staging descriptor.
- A no-clobber rollback compares and then unlinks, so a foreign file that arrives in between is removed.
  `Publish.ForeignFileSurvives` excludes exactly this moment, and `Publish.RollbackIsMarked` says the
  destination is unbound after it. If the staging name cannot be unlinked after a no-clobber
  publication, the call fails without a rollback.
- Two passes of a read that are disturbed alike can return bytes of no version of the file
  (`ReadBytes.BothPassesDisturbed`); one undisturbed pass is enough.
- A per-file limit of zero makes the tree scan refuse even empty files, because the bounded reader wants
  a positive limit (`TreeScan.ScanTree`).
- For blank report text the publisher checks two characters more than the writer writes
  (`Comment.CheckedIsWritten`).

## Model

| member | source | states |
|---|---|---|
| `Supervisor.SafeReturn` | agent/src/pcbex_agent/bounded_process.py:842-887 | In every interleaving of both readers, the writer, the child, the clock and the supervisor, a normal return carries both whole streams within their limits and the exit status, the last clock reading was before the deadline, no worker recorded an error or is left, and the input was delivered or refused by a broken pipe exactly if the writer did not leave at the deadline, so always while the clock is before it |
| `Supervisor.OneKillOnEveryPath` | agent/src/pcbex_agent/bounded_process.py:842-912 | No run signals the group twice, every finished run has signalled it once; cleanup closes streams only without live workers; a cleanup failure is reported exactly if a signal failed, the child was not reaped or a worker is left; each other error outcome is backed by what happened |
| `Supervisor.LateClockEndsTheRun` | agent/src/pcbex_agent/bounded_process.py:842-845 | From any state with the deadline passed in which workers are being started, the loop waits or the clock is about to be read, every finished run reports the timeout, a failed cleanup or a failed start, never a result |
| `Supervisor.RecordedFailureEndsTheRun` | agent/src/pcbex_agent/bounded_process.py:846-848 | A failure on record that a check has not passed yet ends the run with it, or with one of a worker checked before: no timeout and no result |
| `Supervisor.DecidedStays` | agent/src/pcbex_agent/bounded_process.py:882-912 | Once decided, an outcome can only be replaced by a failed cleanup |
| `Supervisor.ReaderWindsDown` | agent/src/pcbex_agent/bounded_process.py:307-343 | Every reader step takes bytes or brings the reader closer to its end; after a stop request it takes at most one more chunk, and records an overflow or nothing |
| `Supervisor.WriterWindsDown` | agent/src/pcbex_agent/bounded_process.py:346-384 | Every writer step delivers bytes or brings the writer closer to its end; after a stop request it makes at most one more write and records nothing |
| `Supervisor.RunsReturn` | agent/src/pcbex_agent/bounded_process.py:842-887 | For every output of at most one chunk that exactly meets its limit, every input of at most one chunk and every exit status, some run returns them after the input was delivered, and some after it was refused |
| `Supervisor.RecheckIsNeeded` | agent/src/pcbex_agent/bounded_process.py:874-881 | A run comes to the recheck with an overflow on record that the loop's own failure check did not see; continued from the point after the recheck, the same state ends in a normal return with the overflow lost |
| `Supervisor.TruncatedInputCanReturn` | agent/src/pcbex_agent/bounded_process.py:346-384 | A run that returns normally past the deadline with input never written and no broken pipe: the writer's deadline exit records no error |
| `Supervisor.StepKeeps` | agent/src/pcbex_agent/bounded_process.py:842-912 | Every step of every actor keeps the invariant of workers, progress, kills and verdict |
| `Supervisor.RunKeeps` | agent/src/pcbex_agent/bounded_process.py:842-912 | Every run from a state with the invariant ends in one, and limits, input and deadline are as at the start |
| `Supervisor.ReaderStepKeeps` | agent/src/pcbex_agent/bounded_process.py:307-343 | A reader's buffer is always what it took from the pipe, or the first `limit` bytes of a longer stream, never with more than one byte beyond the limit in hand, and it leaves without an error only at end of file or on a stop |
| `Supervisor.WriterMoveKeeps` | agent/src/pcbex_agent/bounded_process.py:346-384 | The writer never passes the end of its input, and why it left its loop is true: delivered, stopped, past the deadline with input left, broken pipe or error |
| `Cleanup.Runner.DarwinExitedGroupIsGone` | agent/src/pcbex_agent/bounded_process.py:396-438 | Yes exactly if the first look that is not ambiguous found the child reaped and the group gone, so always for a child and group already gone if no call fails; looks every ten milliseconds, gives up on ambiguous looks only at its deadline, within one second |
| `Cleanup.Runner.KillProcessTree` | agent/src/pcbex_agent/bounded_process.py:441-481 | Exactly one group signal and one signal to the child; a failure exactly when a signal failed otherwise than for a process that is gone or the proven Darwin exit race; bounded waiting |
| `Cleanup.Runner.WaitBudget` | agent/src/pcbex_agent/bounded_process.py:523-526 | Waiting the budget never passes the cleanup deadline or the maximum |
| `Cleanup.Runner.Reap` | agent/src/pcbex_agent/bounded_process.py:528-542 | One reaping attempt within five seconds and the deadline: success only for a reaped child, and always for one that is gone if no call fails; it runs out only after all its time with the child still there |
| `Cleanup.Runner.ReapChild` | agent/src/pcbex_agent/bounded_process.py:528-548 | A second kill and a second attempt exactly if the first ran out; giving up takes the whole time of both |
| `Cleanup.Runner.JoinWorkers` | agent/src/pcbex_agent/bounded_process.py:553-555 | At most one second for each worker, not past the deadline, and no less for one that stays; reports exactly whether a worker is alive |
| `Cleanup.Runner.CleanupProcess` | agent/src/pcbex_agent/bounded_process.py:493-567 | Ends by its deadline or within 14 seconds of waiting, requests the stop first, signals the group exactly when asked to and the child once more before a second attempt to reap it, closes streams exactly when no worker is alive, and reports exactly the first reason that applies: not reaped, signal failed, worker alive |
| `Publish.Publication.Publish` | agent/src/pcbex_agent/bounded_io.py:721-893 | On every exit: all recorded steps are legal and no state of the file system binds a public name to a partly written or unsynced file; every failure has its cause on record, a call that failed or what was in the way; every descriptor is closed exactly once, a failed early close alone being repeated; the staging name is gone unless its last unlink failed; the outcome says whether the destination was published, checked, synced and rolled back; on a calm system the outcome is exactly the one the destination deserves, and nothing but the destination changes |
| `Publish.Publication.Stage` | agent/src/pcbex_agent/bounded_io.py:750-887 | Whatever happens in between, the staging descriptor is closed and the staging name unlinked; outcome and descriptors are as for the whole call; undisturbed, exactly the destination changes |
| `Publish.Publication.Attempt` | agent/src/pcbex_agent/bounded_io.py:757-873 | Publication comes after a look that found the destination as at the first inspection, and the looks that confirm it come after publication; an early failure publishes nothing |
| `Publish.Publication.Commit` | agent/src/pcbex_agent/bounded_io.py:823-873 | Success means the destination was seen naming the complete staged file and the parent was synced; after a failed parent sync the rollback and the comparison before it are on record; every failure has its cause on record |
| `Publish.Publication.Confirm` | agent/src/pcbex_agent/bounded_io.py:828-844 | Passes only when the destination was seen naming the complete staged inode, always on a calm system, and else has the failed call or the look on record |
| `Publish.Publication.SyncOrRollBack` | agent/src/pcbex_agent/bounded_io.py:851-873 | Success after a sync of the parent, or the failed sync on record and, in no-clobber mode, a rollback exactly when the comparison allowed it, or a rollback stopped by a call that failed after it |
| `Publish.Publication.RollBack` | agent/src/pcbex_agent/bounded_io.py:858-873 | The destination is unlinked exactly when the comparison right before saw it naming the staged inode, and is then gone; this fails only if the look or the unlink fails or the destination vanishes between them, which is then on record |
| `Publish.Publication.UnlinkDestination` | agent/src/pcbex_agent/bounded_io.py:865-872 | Right after the comparison the unlink succeeds, or the call failed or the destination was gone |
| `Publish.Publication.CheckDestination` | agent/src/pcbex_agent/bounded_io.py:769-798 | No error exactly after a look made by this call that found the destination to be the same file with the same size as at first or, in no-clobber mode, still missing; an error has the failed call or the contrary look on record |
| `Publish.Publication.Prepare` | agent/src/pcbex_agent/bounded_io.py:731-748 | An existing destination goes on only in overwrite mode, as a regular file, with an open descriptor; a refusal has its cause on record, and on a calm system is exactly what is wrong with the destination |
| `Publish.Publication.OpenExisting` | agent/src/pcbex_agent/bounded_io.py:567-618 | A descriptor is returned only for the very inode inspected; otherwise none stays open, and the failed call or the change is on record |
| `Publish.Publication.Fill` | agent/src/pcbex_agent/bounded_io.py:758-767 | The staged inode holds all the data, synced, before anything is published |
| `Publish.Publication.SyncFile` | agent/src/pcbex_agent/bounded_io.py:640-644 | Success means the complete contents are synced |
| `Publish.Publication.CloseEarly` | agent/src/pcbex_agent/bounded_io.py:800-821 | Exactly the descriptors still to be closed are returned, and the one whose close failed |
| `Publish.Publication.WriteAll` | agent/src/pcbex_agent/bounded_io.py:627-637 | With short writes the staged inode ends up holding exactly the data; no progress is an error |
| `Publish.Publication.PublishName` | agent/src/pcbex_agent/bounded_io.py:692-718 | Link or replace: on success the destination names the staged inode; a link keeps the staging name, a replace consumes it |
| `Publish.Publication.SyncParent` | agent/src/pcbex_agent/bounded_io.py:647-676 | Success means the parent was synced, or cannot be on this system; a failure has its call on record; the parent descriptor is closed once whatever happens and no name or file changes |
| `Publish.OwnStepIsHarmless` | agent/src/pcbex_agent/bounded_io.py:692-718 | A step of the publication touches the staging name, the destination and the staged inode only; no-clobber never replaces a bound destination, overwrite never leaves it unbound |
| `Publish.UnpublishedIsUntouched` | agent/src/pcbex_agent/bounded_io.py:721-893 | Without a publication step the staged inode never gets a public name and the destination keeps every binding it has |
| `Publish.ForeignFileSurvives` | agent/src/pcbex_agent/bounded_io.py:853-873 | In no-clobber mode another actor's file at the destination survives to the end of the run, unless other actors remove it or it arrived between the comparison and the rollback |
| `Publish.RollbackIsMarked` | agent/src/pcbex_agent/bounded_io.py:853-873 | There is at most one rollback; it comes right after the comparison that saw the staged inode and leaves the destination unbound |
| `Publish.RelyComposes` | agent/src/pcbex_agent/bounded_io.py:18-21 | Foreign steps in a row are one foreign step, so one between two system calls stands for any number |
| `ReadBytes.Reader.ReadBytes` | agent/src/pcbex_agent/bounded_io.py:377-505 | Succeeds exactly when two whole passes returned the same bytes within the limit and all seven inspections saw one regular file of that size; the result is then a complete version of the file if either pass was undisturbed; the descriptor is closed once; on a calm system the outcome is exactly the one the file deserves |
| `ReadBytes.Reader.ReadTwice` | agent/src/pcbex_agent/bounded_io.py:399-496 | Success needs both whole passes with equal bytes and, after each, the same inode at the same size by descriptor and by path; a calm system gives the contents |
| `ReadBytes.Reader.FirstPass` | agent/src/pcbex_agent/bounded_io.py:399-416 | With short reads the pass reaches the end of the file within the limit, or fails; it takes at most one byte beyond the limit, one chunk at a time |
| `ReadBytes.Reader.SecondPass` | agent/src/pcbex_agent/bounded_io.py:454-471 | Success means a second whole pass returned the same bytes, within the same bounds |
| `ReadBytes.Reader.OpenDescriptor` | agent/src/pcbex_agent/bounded_io.py:340-374 | A descriptor only for the regular file that was inspected, with the same size; otherwise none is left open |
| `ReadBytes.UndisturbedPass` | agent/src/pcbex_agent/bounded_io.py:399-416 | A pass without a write in between returns a prefix of the version, and all of it at the end |
| `ReadBytes.EveryByteWasThere` | agent/src/pcbex_agent/bounded_io.py:399-416 | Whatever is written, each byte returned was in the file at its position at some read of the pass |
| `ReadBytes.BothPassesDisturbed` | agent/src/pcbex_agent/bounded_io.py:440-471 | Two passes and seven inspections that the read accepts, with the file of the same size at every read, although the file never held the bytes: the promise ends where both passes are disturbed |
| `TextEncoding.AsBytes` | agent/src/pcbex_agent/bounded_io.py:524-564 | Text is encoded exactly when it is Unicode and its encoding fits, however it is cut into pieces |
| `Slots.PermitsConserved` | agent/src/pcbex_agent/_supplier_offer_transport.py:819-917 | For any number of concurrent transactions: free permits plus holders is one for each slot, and no release overflows a bounded semaphore |
| `Slots.NothingLeftBehind` | agent/src/pcbex_agent/_supplier_offer_transport.py:667-816 | When all threads of a transaction are over, each slot it took was given back exactly once and no socket or response is open |
| `Slots.CancelledConnectIsClosed` | agent/src/pcbex_agent/_supplier_offer_transport.py:363-411 | A timed-out connect ends with the connection closed, whichever side runs last |
| `Slots.ResponsesAreExclusive` | agent/src/pcbex_agent/_supplier_offer_transport.py:686-783 | At most one response is open at any time, under the request slot |
| `Slots.RequestNeedsConnection` | agent/src/pcbex_agent/_supplier_offer_transport.py:363-411 | In every reachable state a request is prepared and made only after a timely successful connect, on an open connection; after such a connect the caller's cleanup keeps the slot with the request; the caller leaves a request only with a reply or by aborting it |
| `Slots.TransactionsSucceed` | agent/src/pcbex_agent/_supplier_offer_transport.py:819-917 | A run of one transaction has its response open on the way and ends with a reply, both slots taken and given back once, and everything closed |
| `Slots.WorkerMustClose` | agent/src/pcbex_agent/_supplier_offer_transport.py:374-411 | A caller that timed out and closed the connection can be over while it is open again, so the worker's own close is needed |
| `Slots.StepKeeps` | agent/src/pcbex_agent/_supplier_offer_transport.py:363-411 | Every step of every thread keeps the invariant of all transactions and both semaphores |
| `Slots.RunKeeps` | agent/src/pcbex_agent/_supplier_offer_transport.py:819-917 | Every run from a state with that invariant ends in one |
| `Slots.LocalMoveKeeps` | agent/src/pcbex_agent/_supplier_offer_transport.py:667-816 | A thread's step changes who holds a slot exactly as it operates on the semaphore |
| `Slots.OperateConserves` | agent/src/pcbex_agent/_supplier_offer_transport.py:819-917 | Semaphore operations and changes of holders cancel out |
| `Chunked.DecodesWire` | agent/src/pcbex_agent/_supplier_offer_transport.py:538-585 | Decoding inverts encoding for any chunks with sizes written as up to 63 hexadecimal digits in either case with leading zeros, whatever follows, exactly when the budget suffices |
| `Chunked.OnlyWireDecodes` | agent/src/pcbex_agent/_supplier_offer_transport.py:538-585 | Only encodings are accepted, with exactly their data, within the budget |
| `Chunked.SizeTextRead` | agent/src/pcbex_agent/_supplier_offer_transport.py:544-547 | A size written in hexadecimal digits, most significant first, is read as that size |
| `Chunked.EveryHexIsSizeText` | agent/src/pcbex_agent/_supplier_offer_transport.py:544-547 | Every size line is the text of the size it is read as |
| `Chunked.Response.ReadBody` | agent/src/pcbex_agent/_supplier_offer_transport.py:737-756 | The body loop succeeds exactly on a well-formed nonempty body within the limit, returns all of it, and the declared sizes add up to its length |
| `Chunked.Response.Read` | agent/src/pcbex_agent/_supplier_offer_transport.py:564-585 | Reading in pieces of any positive size returns the next bytes of the body, fewer only at its end; an exception means a malformed or oversized body |
| `Chunked.Response.GetChunkLeft` | agent/src/pcbex_agent/_supplier_offer_transport.py:564-585 | Moves between chunks without losing or inventing body bytes; the end closes the connection |
| `Chunked.Response.ReadNextChunkSize` | agent/src/pcbex_agent/_supplier_offer_transport.py:538-552 | A bad line or a size beyond the budget is refused with nothing but the line consumed |
| `Chunked.Response.ReadTrailer` | agent/src/pcbex_agent/_supplier_offer_transport.py:554-562 | Only an empty trailer is accepted |
| `Chunked.WithinBudget` | agent/src/pcbex_agent/_supplier_offer_transport.py:548-551 | An accepted body never exceeds the budget |
| `Chunked.InsideSplits` | agent/src/pcbex_agent/_supplier_offer_transport.py:564-585 | A chunk can be taken in parts without changing the body |
| `Schema.Validate` | agent/src/pcbex_agent/assembly_evidence.py:1254-1376 | Unless a counter tripped, accepts exactly by the keyword semantics with too deep nesting counting as failed; in every run in which the depth did not trip either, exactly by the unlimited semantics; neither trips on values and rules small enough |
| `Schema.Checker.Check` | agent/src/pcbex_agent/assembly_evidence.py:1275-1374 | Through caught failures and persisting counters: exactly the keyword semantics while no counter trips, without a depth limit while the depth does not trip either; the work is bounded in advance, and the depth trips only where the rule nests too deep on the value |
| `Schema.Checker.Matches` | agent/src/pcbex_agent/assembly_evidence.py:1268-1273 | As `Check`, with a raised failure turned into false and the counters kept |
| `Schema.Checker.CheckLists` | agent/src/pcbex_agent/assembly_evidence.py:1280-1290 | While no counter trips, succeeds exactly when allOf, anyOf and oneOf hold; work bounded in advance |
| `Schema.Checker.CheckAll` | agent/src/pcbex_agent/assembly_evidence.py:1280-1282 | While no counter trips, succeeds exactly when every child holds |
| `Schema.Checker.MatchesAny` | agent/src/pcbex_agent/assembly_evidence.py:1283-1286 | While no counter trips, succeeds exactly when some child holds, leaving the rest unvisited |
| `Schema.Checker.MatchesOne` | agent/src/pcbex_agent/assembly_evidence.py:1287-1290 | While no counter trips, succeeds exactly when one and only one child holds, all of them visited |
| `Schema.Checker.CheckConditions` | agent/src/pcbex_agent/assembly_evidence.py:1291-1296 | While no counter trips, succeeds exactly when the negated rule fails and the consequence holds if its condition does |
| `Schema.Checker.CheckProperties` | agent/src/pcbex_agent/assembly_evidence.py:1325-1332 | While no counter trips, succeeds exactly when every declared property that is present holds |
| `Schema.Checker.CheckProperty` | agent/src/pcbex_agent/assembly_evidence.py:1330-1332 | While no counter trips, succeeds exactly when the property is absent or holds |
| `Schema.Checker.CheckArray` | agent/src/pcbex_agent/assembly_evidence.py:1333-1352 | While no counter trips, succeeds exactly when item counts, uniqueness and items hold |
| `Schema.Checker.CheckItems` | agent/src/pcbex_agent/assembly_evidence.py:1349-1352 | While no counter trips, succeeds exactly when every item holds |
| `Schema.Checker.CheckUnique` | agent/src/pcbex_agent/assembly_evidence.py:1339-1348 | While the byte counter does not trip, succeeds exactly when all compact encodings differ; counts exactly the bytes encoded |
| `Schema.DepthFree` | agent/src/pcbex_agent/assembly_evidence.py:1275-1279 | On values where the rule nests no deeper than the limit, the depth limit makes no difference |
| `Schema.DepthFailureIsSwallowed` | agent/src/pcbex_agent/assembly_evidence.py:1291-1292 | A rule no value satisfies is accepted exactly from the nesting where `not` catches the depth failure, with work far below the counters |
| `Schema.SwallowedRun` | agent/src/pcbex_agent/assembly_evidence.py:1275-1292 | A run of the interpreter in which no counter trips and the rule no value satisfies is accepted |
| `Schema.TypeDecides` | agent/src/pcbex_agent/assembly_evidence.py:1298-1314 | `type`: each kind of document is accepted exactly under its own name, an integer also as a number, a boolean not as an integer; of a list of names any one will do |
| `Schema.ValueDecides` | agent/src/pcbex_agent/assembly_evidence.py:1315-1320 | `const` and `enum` are equality and membership; a float equals exactly the floats of its value |
| `Schema.KeysDecide` | agent/src/pcbex_agent/assembly_evidence.py:1322-1329 | `required` and closed properties: the keys of an object contain the one set and lie in the other |
| `Schema.LengthDecides` | agent/src/pcbex_agent/assembly_evidence.py:1353-1358 | String lengths are accepted exactly from the least to the greatest, both included |
| `Schema.SizeDecides` | agent/src/pcbex_agent/assembly_evidence.py:1333-1338 | Item counts likewise |
| `Schema.UniqueDecides` | agent/src/pcbex_agent/assembly_evidence.py:1339-1348 | Arrays are accepted exactly if no document occurs twice |
| `Schema.RangeDecides` | agent/src/pcbex_agent/assembly_evidence.py:1368-1374 | Integers and floats are accepted exactly from the least to the greatest value, both included; nothing else is compared |
| `Schema.PatternDecides` | agent/src/pcbex_agent/assembly_evidence.py:1359-1367 | A pattern from caret to dollar must match the whole string, any other some part of it |
| `Schema.StrictEqualIsEquality` | agent/src/pcbex_agent/assembly_evidence.py:212-223 | Without floats strict equality is equality: no two types are mixed up |
| `Schema.DistinctDocuments` | agent/src/pcbex_agent/assembly_evidence.py:1339-1348 | Comparing compact encodings is comparing documents |
| `Assembly.ValidateMembership` | agent/src/pcbex_agent/assembly_evidence.py:1916-1945 | Accepts exactly three sorted, disjoint lists that add up to the CPL references and to both counts |
| `Assembly.ValidateList` | agent/src/pcbex_agent/assembly_evidence.py:1920-1930 | Accepts exactly the bounded, strictly sorted lists of acceptable texts |
| `Assembly.PartitionIsUnique` | agent/src/pcbex_agent/assembly_evidence.py:1117-1121 | An accepted partition is the intersection and the two differences of the BOM and CPL references |
| `Assembly.ComposedIsAccepted` | agent/src/pcbex_agent/assembly_evidence.py:1117-1121 | What the composer writes is accepted |
| `Assembly.AcceptedIsComposed` | agent/src/pcbex_agent/assembly_evidence.py:1117-1121 | Nothing else is accepted for the same inventories |
| `Assembly.AddLine` | agent/src/pcbex_agent/assembly_evidence.py:1955-2033 | A line is accepted exactly when it is well-formed and shares no reference, folded MPN, supplier number or digest with any earlier line |
| `Assembly.ValidateLines` | agent/src/pcbex_agent/assembly_evidence.py:1946-2036 | Accepts exactly the strictly sorted lists of acceptable, pairwise distinct lines |
| `Assembly.ValidateReport` | agent/src/pcbex_agent/assembly_evidence.py:1916-2041 | Accepts exactly reports whose membership and lines are acceptable and where approved procurement covers exactly the BOM and rejected procurement has no lines |
| `Assembly.QuantitiesCountReferences` | agent/src/pcbex_agent/assembly_evidence.py:1964-1985 | Over distinct lines the quantities add up to the number of all references |
| `Assembly.QuantitiesAddUp` | agent/src/pcbex_agent/assembly_evidence.py:2037-2041 | In an accepted report with approved procurement the quantities add up to the BOM count, each BOM part is in exactly one line, and parts are distinct in MPN, supplier number and digest |
| `Preflight.ChargeCoversEncoding` | agent/src/pcbex_agent/catalog_provenance.py:233-316 | For every acceptable value the charge is at least the length of its compact UTF-8 encoding |
| `Preflight.JsonBytes` | agent/src/pcbex_agent/catalog_provenance.py:319-335 | Succeeds exactly on acceptable values whose charge fits and whose integers all keep to Python's digit limit, with their encoding, which never exceeds the bound; the check after encoding cannot fail |
| `Preflight.PreflightPassesUnwritable` | agent/src/pcbex_agent/catalog_provenance.py:254-260 | Ten to the 5000th passes the preflight for ten thousand bytes and cannot be written under the default digit limit |
| `Preflight.Traversal.Visit` | agent/src/pcbex_agent/catalog_provenance.py:243-314 | Succeeds exactly on acceptable values whose charge still fits, charges exactly that, and copies exactly the value |
| `Preflight.Traversal.VisitMapping` | agent/src/pcbex_agent/catalog_provenance.py:269-296 | Succeeds exactly on mappings with distinct string keys, acceptable values and no raising protocol whose charge fits; charges and copies exactly |
| `Preflight.Traversal.VisitPair` | agent/src/pcbex_agent/catalog_provenance.py:278-289 | Succeeds exactly for an encodable new key and an acceptable value whose charge fits; charges and copies exactly |
| `Preflight.Traversal.VisitList` | agent/src/pcbex_agent/catalog_provenance.py:297-312 | Succeeds exactly on lists of acceptable values whose charge fits; charges and copies exactly |
| `Preflight.JsonStringBytes` | agent/src/pcbex_agent/catalog_provenance.py:168-196 | The size of the quoted, escaped UTF-8 text, exactly when it fits and is encodable |
| `Preflight.QuoteSize` | agent/src/pcbex_agent/catalog_provenance.py:168-196 | The charge of a string is exactly the length of its encoding |
| `DecimalDigits.DigitChargeSuffices` | agent/src/pcbex_agent/catalog_provenance.py:252-258 | For every integer the bit-length estimate is at least the length of its decimal text with sign |
| `DecimalDigits.WritableDecides` | agent/src/pcbex_agent/catalog_provenance.py:325-332 | The integers Python writes under a digit limit are those below its power of ten, without a limit all |
| `DecimalDigits.BitsBelowDigits` | agent/src/pcbex_agent/catalog_provenance.py:252-256 | Powers of two stay below the powers of ten the estimate allows |
| `DecimalDigits.Pivot` | agent/src/pcbex_agent/catalog_provenance.py:252-256 | 2^289 is at most 10^87 |
| `Canonical.PrintInjective` | scripts/native_kicad_drc_summary.py:294-326 | The canonical bytes determine the ordered document |
| `Canonical.PrintPrefixFree` | scripts/native_kicad_drc_summary.py:294-314 | No printed value is confused with another, whatever comma, bracket or end follows |
| `Canonical.PrintToIsPrint` | scripts/native_kicad_drc_summary.py:294-314 | The continuation form that the proofs use prints the same text |
| `Json.Utf8Injective` | scripts/native_kicad_drc_summary.py:325-326 | UTF-8 determines the text |
| `JsonReader.RoundTrip` | agent/src/pcbex_agent/catalog_provenance.py:325-330 | A reader written from the JSON grammar reads every document back from its compact text |
| `JsonReader.ReadPrinted` | scripts/native_kicad_drc_summary.py:294-314 | The same in front of any comma, closing bracket or end |
| `JsonReader.StringRead` | scripts/native_kicad_drc_summary.py:305-306 | An escaped string is read back, whatever follows its closing quote |
| `ErcIdentity.CanonicalBytesDecide` | scripts/native_kicad_erc_summary.py:404-549 | Two documents of a closed shape have the same canonical bytes exactly when they are equal as dictionaries, coordinates by their canonical text |
| `ErcIdentity.RebuildDecides` | scripts/native_kicad_erc_summary.py:425-535 | Two closed documents rebuild to the same ordered document exactly when they are equal as dictionaries |
| `ErcIdentity.RecordsAreClosed` | scripts/native_kicad_erc_summary.py:124-128 | A conforming object has exactly the fields of its shape, each once |
| `ErcIdentity.CoordinatesDecide` | scripts/native_kicad_erc_summary.py:227-233 | Coordinates are the integers up to a thousand kilometres and the finite floats |
| `ErcIdentity.FirstVersionFields` | scripts/native_kicad_erc_summary.py:425-463 | The field names of a written report of version 1, in the order in which they are written |
| `ErcIdentity.VersionsDiffer` | scripts/native_kicad_erc_summary.py:544-549 | A report has a warning policy exactly if it is not of version 1 |
| `ErcIdentity.ReportBytesDecide` | scripts/native_kicad_erc_summary.py:404-549 | For the written report of either version, with coordinates rewritten by the canonical float: equal bytes are equal reports, and then every coordinate is the same number |
| `ErcIdentity.FieldOrderIsIrrelevant` | scripts/native_kicad_erc_summary.py:544-549 | Reordering the parsed fields at any depth changes neither what is accepted nor the canonical bytes |
| `DrcFindings.NormalFormUnique` | scripts/native_kicad_drc_summary.py:244-291 | Two accepted findings arrays that list the same findings, in any order of findings and items, are equal |
| `DrcFindings.CompareFindingIsOrder` | scripts/native_kicad_drc_summary.py:244-255 | The sort key covers every field: only equal findings compare equal, and the order is total |
| `DrcFindings.KeysAreTuples` | scripts/native_kicad_drc_summary.py:244-255 | The first field that differs decides, in the order category, severity, type, description, items; items go by description, then x, then y |
| `DrcFindings.FieldsDecide` | scripts/native_kicad_drc_summary.py:258-291 | Field by field what a finding may be: the three categories, the two severities, texts of 1 to 4096 bytes, at most 1024 sorted items, coordinates within their bound |
| `TextOrder.TextOrderIsLexicographic` | scripts/native_kicad_drc_summary.py:244-255 | Texts are ordered as in a dictionary, by code point |
| `DrcFindings.ValidateFindings` | scripts/native_kicad_drc_summary.py:258-291 | The pass accepts exactly the arrays in normal form |
| `DrcFindings.ValidateItems` | scripts/native_kicad_drc_summary.py:278-287 | The inner pass accepts exactly sorted items with acceptable fields |
| `FloatKey.KeyRealisesTotalOrder` | scripts/native_kicad_erc_summary.py:260-266 | Keys order all bit patterns as totalOrder of section 5.10 of IEEE 754-2019 does |
| `FloatKey.KeyInjective` | scripts/native_kicad_erc_summary.py:260-266 | Different bit patterns have different keys |
| `FloatKey.SmallerValueSmallerKey` | scripts/native_kicad_erc_summary.py:260-266 | A finite value below another as a real number has the smaller key |
| `Decimal.CanonicalFloatKeepsNumber` | scripts/native_kicad_erc_summary.py:376-401 | For the `repr` of every finite float, with or without an exponent, the rewritten text denotes the same number and is not rewritten again; an exponent is lost exactly for -5 to -1 |
| `Decimal.ReprsAreCovered` | scripts/native_kicad_erc_summary.py:376-401 | Nothing `repr` writes is left out: digits around a dot, and with a signed exponent also digits alone, after an optional minus |
| `Decimal.FixedKeepsNumber` | scripts/native_kicad_erc_summary.py:387-400 | Moving the dot denotes the mantissa shifted by the exponent |
| `Decimal.CanonicalFloatIsFloatText` | scripts/native_kicad_erc_summary.py:376-401 | The rewritten text of every finite float is a float token, so the printer stays injective on it |
| `TreeScan.ScanTree` | scripts/ci_runtime.py:420-500 | Succeeds exactly on plain trees within all limits, whatever the order of the listings, and returns exactly the recursive counts; a file limit of zero rejects every file |
| `TreeScan.ScanDirectory` | scripts/ci_runtime.py:446-498 | One directory from the stack: counted, sorted and looked at; what is done plus what is outstanding stays the whole, a failure means the whole is not acceptable, and the work left shrinks |
| `TreeScan.ScanListing` | scripts/ci_runtime.py:463-498 | The loop over a sorted listing keeps what is done plus what is outstanding; a failure means an entry or a limit is violated |
| `TreeScan.ScanEntry` | scripts/ci_runtime.py:464-498 | A directory goes on the stack, a file is counted, anything else or an exceeded limit fails, and only then |
| `TreeScan.CountListing` | scripts/ci_runtime.py:453-461 | Counting a listing stops exactly at the entry limit |
| `TreeScan.FoldIgnoresOrder` | scripts/ci_runtime.py:462-462 | The counts do not depend on the order of a listing |
| `Quorum.QuorumDecides` | scripts/fabrication_authorization_summary.py:847-971 | An accepted report is authorized exactly when at least the minimum, two or more, of distinct trusted keys approve, nobody rejects, the evaluation is in the window and the window fits the policy; no approving key has another role |
| `Quorum.SummaryPassesShape` | scripts/fabrication_authorization_summary.py:772-844 | The summary of an accepted report always passes the independent shape check |
| `Quorum.ShapeDecides` | scripts/fabrication_authorization_summary.py:772-844 | What the shape check refuses: an unsound scope, counts out of bounds, a malformed digest, an empty or oversized report, and an authorization that disagrees with the failures or has a rejection |
| `Quorum.ScopeDecides` | scripts/fabrication_authorization_summary.py:440-476 | A scope is accepted exactly with at least one board and one minor unit, times of 64 bits and a validity of one second to seven days |
| `Quorum.ValidateReport` | scripts/fabrication_authorization_summary.py:847-971 | Accepts exactly the reports that meet the declarative conditions |
| `Quorum.ValidateSignatures` | scripts/fabrication_authorization_summary.py:877-913 | The loop accepts exactly signer-sorted signatures under distinct keys, each mirrored by its member, and counts the approvals |
| `Quorum.ValidateSignature` | scripts/fabrication_authorization_summary.py:881-913 | Accepts exactly a well-formed signature after its predecessor, under a new signer and key, mirrored by its member |
| `Quorum.ValidateSigned` | scripts/fabrication_authorization_summary.py:714-742 | Accepts exactly an approval of the common evidence and scope under a trusted fabrication key with this signer |
| `Quorum.ExpectedGateFailures` | scripts/fabrication_authorization_summary.py:745-769 | The sorted texts of exactly the closed gates |
| `Quorum.GatesDecide` | scripts/fabrication_authorization_summary.py:745-769 | No failure means window active, validity within policy, no rejection, enough approvals |
| `Quorum.ValidatePolicy` | scripts/fabrication_authorization_summary.py:617-657 | Accepts exactly three well-formed trust roles without a common signer or key and bounded policy numbers; returns the fabrication keys |
| `Quorum.ValidateTrustedKeys` | scripts/fabrication_authorization_summary.py:575-589 | Accepts exactly bounded lists of distinct signers and keys; the dictionary holds exactly the listed pairs |
| `Comment.SanitizeIsEscape` | scripts/publish-pr-comment.py:833-839 | The staged replacements are one escape applied character by character |
| `Comment.UnescapeSanitize` | scripts/publish-pr-comment.py:833-839 | The escape has a left inverse |
| `Comment.ShownIsText` | scripts/publish-pr-comment.py:833-839 | What an HTML reader shows of the sanitized text is the text, with a zero-width space after every at-sign |
| `Comment.NoRawCharacters` | scripts/publish-pr-comment.py:833-839 | No raw angle bracket, quote or at-sign is left |
| `Comment.SanitizeBlank` | scripts/publish-pr-comment.py:833-839 | Sanitized text is blank exactly when the text is |
| `Comment.CheckedIsWritten` | scripts/publish-pr-comment.py:842-856 | For text that is not blank the publisher checks exactly the comment that is written; for blank text two characters more |
| `Comment.WriterAgrees` | scripts/upsert-pr-comment.py:188-197 | The writer never refuses what the publisher accepted; it would accept what the publisher refuses exactly for blank text within two characters of the limit |
| `Star.ConnectivityKept` | agent/src/pcbex_agent/circuit.py:36-49 | Two components are joined by a path of connections exactly when they are joined by a chain of nets |
| `Star.ConnectionCount` | agent/src/pcbex_agent/circuit.py:36-49 | The number of connections is the sum of pins minus one over nets with at least two pins |
| `Star.Convert` | agent/src/pcbex_agent/circuit.py:6-57 | One component for each part in order and the stars of all nets, or exactly the error the inputs deserve |
| `Star.Components` | agent/src/pcbex_agent/circuit.py:19-34 | Succeeds exactly when every footprint has dimensions; one component for each part in order, and an index of exactly the known parts |
| `Star.Connections` | agent/src/pcbex_agent/circuit.py:38-49 | Succeeds exactly when all parts of a net with two pins or more are known; every later pin is connected to the first |

## Left out

- Threads, locks and shared cells as heap objects: `Supervisor` and `Slots` model them as values in a state, so update in place and aliasing are not captured; Python's own guarantees for attribute writes and `Event` are taken as atomic steps.
- Windows Job Objects, `ctypes` and console handling; `Cleanup` is the POSIX path.
- Waits are ideal: a wait ends when its cause happens or its timeout is over; scheduling delay is not modelled.
- Spawning, argument, environment and input-size validation of `run_bounded`, before a process exists.
- Replacement of ancestor directories by a hostile administrator, which the source disclaims; the parent identity check is a call that may fail, and creation of missing parents is part of it.
- File modes, symbolic-link walking inside `_lstat_path` and reparse points beyond refusing a final symbolic link.
- Durability of directory entries: syncing the parent changes nothing in the model; syncing the staged file marks its contents.
- Publish.Publication.Publish: inode numbers are not reused while the staging inode is private, because its name or a descriptor keeps it alive; on Windows after the early close only the name does.
- DNS resolution, TLS, the status line, headers and content length of the transport; `Chunked` starts at the body.
- Chunked.Response.ReadBody: the connection delivers its bytes and then ends; socket timeouts between reads are not modelled here, they appear as aborts in `Slots`.
- The chunked reading loop of Python's `http.client` is modelled as it stands in the standard library around the two overridden methods.
- Schema.Checker.Check: nothing more is stated about the verdict of a run in which a counter trips than that the counters persist and that a check begun after that, or one past the byte bound, fails; lone surrogates in a value, which the compact encoder refuses, are excluded by the snapshot made before, and so are integers beyond Python's digit limit, because the snapshot is written and parsed again.
- Objects keep their fields in key order in `Schema`, the order in which the compact encoding writes them; `minLength` counts code points, and the regular expression engine is a parameter.
- Closed-shape field checks of the assembly report other than membership and line items, and the finding lists.
- The `active` set that refuses cyclic containers in the preflight: values are finite trees. Subclasses of `str`, `int` and `float` that lie about themselves are not modelled.
- The text of a float is its `repr`, with at most 32 bytes and the form of a finite float token; how it is computed is not modelled.
- The order check of the ERC report compares Python lists, where both zeros are equal; no strict order is claimed for it. Its policy evaluation and counts are not modelled.
- SHA-256, Ed25519, `casefold` and `lower` are parameters; digests are opaque texts.
- The electrical, DFM and requirement parts of the policy pack, and the shape of the evidence, are one parameter each in `Quorum`; `verify` compares the summary with the derived one field by field and is not modelled further.
- Changes of the tree during `scan_tree`: the tree is static, so reading a file gives its size.
- Paging, event handling and the GitHub client around the comment.
- Argument parsers, exported schema builders, error texts, release and pipeline scripts, and the Rust router.
