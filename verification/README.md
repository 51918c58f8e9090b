# A model of NGSM's cores

NGSM runs ordinary programs as Windows services and lets an administrator configure and watch them. Behind the
platform calls sit a handful of self-contained cores, and this project models them in Dafny and proves what they are for
(names in parentheses are files):

- **The configuration store.** The typed configuration of a service is reconciled onto whatever the service's
  `Parameters` key held before: checks first, then scalar values, the exit-action and hook subtrees, and stale values
  last (`Config`, `Registry`, `Reconcile`). Reading inverts it (`RegistryRead`, `RoundTrip`). Codecs, exit-code
  canonicalisation and the recovery form are below it (`Codecs`, `ExitCodes`, `RecoveryForm`), edit and recovery
  transactions with rollback above it (`Transactions`), and their interleavings under the reentrant per-service lock
  beside it (`Writers`).
- **Command lines and expansion.** The printer of quoted arguments against the platform's rules for taking command
  lines apart (`Quoting`), and single-pass expansion against its meaning over percent-separated segments (`Expansion`).
- **The event history.** Append and rotation over five files (`EventLog`), bounded reading (`EventReader`), what its
  bound (`LogLimits`) and torn appends (`TornAppends`) can lose, the thirty-day window with its seeds (`History`),
  intervals and up time (`Metrics`), the dashboard (`Dashboard`, `DashboardLaws`, `DashboardFigures`), and all of it
  in one statement (`Pipeline`).
- **The service bridge.** The loop between the service control manager and the supervisor, with its controls, startup
  confirmation, one pause or continue transition, terminal handover and deadlines
  (`Bridge`, `BridgeRounds`, `BridgeLaws`, `BridgeProgress`, `BridgeLoop`).
- **The broker.** Admission, draining, the single shutdown claim and the bound on pipe instances (`Broker`).
- **The window and its worker.** The coalescing refresh queue (`Refresh`) and stale-reply rejection (`Requests`).

Code that updates state in place is a class or a method with a loop, proved against a function on values; what the
system promises is proved about that function, over all inputs, all runs or all interleavings. Every operation of the
store, the log directory and the native service record may fail at any point, and their failures are counted, so that
an operation that reports a failure without one is excluded. What a loop or protocol observes of its
environment (controls, clocks, other threads, listing orders) is a parameter, and nothing is assumed of it unless a
precondition says so.

`dafny verify dfyconfig.toml` checks the whole project.

Six findings are stated as lemmas, each with the exact condition, since here the code does less than one
would expect:

- `LogLimits.ExactlyWhenReadable` and `LogLimits.SomeRunLoses`: a reader takes at most the last 16 MiB of a file. If
  rotations keep failing, a file that is not the oldest one can exceed that, and then records between others are
  missing from what is read; otherwise, and in particular as long as nothing fails and lines stay short, none is.
- `TornAppends.ReadableExactly` and `TornAppends.TornLoses`: an append that was cut short leaves an unfinished line, and
  the next one that succeeds is glued to it; a record answered with success can be read exactly if the active file
  ended with a whole line before it.
- `Expansion.DeferredPaths` and `Expansion.DeferredLiteral`: the path check defers some texts in which nothing is ever
  looked up, so `%%a%b` is accepted as a path although it is relative in every environment.
- `Refresh.LosesExactlyWithClones` and `Refresh.StepRight`: coalescing loses nothing with one sender, but the sender
  can be cloned, and with two or more a promise can be lost: when the flag is cleared after a refused offer that
  another sender relied on. The window itself sends from one thread only, so this concerns other users of the sender.
- `DashboardLaws.TodayIsEmptyAtMidnight`, `DashboardLaws.MidnightBucket` and `DashboardLaws.TodayOfAnUpService`: exactly
  at midnight UTC today's bucket is empty and counts every service as down, one that has been up all the time
  included; at any other instant it is right.
- `Requests.DraftBelongs`: the editor hands out its whole draft, the name of its service included, so that the draft
  stays with the editor's service exactly as long as no edit changes that name; the window's edits do not.

## Model

| member | source | states |
|---|---|---|
| Utf16.DecodeEncode | crates/servicemanager-registry/src/imp.rs:407-445 | every string survives UTF-16 encoding and strict decoding |
| Utf16.EncodeDecode | crates/servicemanager-registry/src/imp.rs:407-445 | strict decoding accepts nothing but encodings: no lone surrogate, nothing altered |
| Codecs.StringRoundTrip | crates/servicemanager-registry/src/imp.rs:407-445 | a NUL-free string written as a terminated value is read back exactly |
| Codecs.MultiRoundTrip | crates/servicemanager-registry/src/imp.rs:1818-1848 | every list without empty entries and NULs survives the block encoding |
| Codecs.DecodeMultiExact | crates/servicemanager-registry/src/imp.rs:447-492 | the block reader accepts bytes with result xs if and only if they are zero bytes and xs is empty, or the written form of xs followed by zero padding only |
| Codecs.ReadMulti | crates/servicemanager-registry/src/imp.rs:447-492 | the reader's single scan computes that strict decoding, error cases included |
| Codecs.ScanEntries | crates/servicemanager-registry/src/imp.rs:461-491 | cutting at each NUL: an empty cut must be followed by zeros only, an undecodable entry or a missing terminator is an error |
| Codecs.Split | crates/servicemanager-registry/src/imp.rs:833-849 | the comma notation read left to right with one character of lookahead; no empty entry is returned |
| Codecs.SplitJoin | crates/servicemanager-registry/src/imp.rs:819-849 | printing a list in the comma notation and parsing it returns the list without its empty entries, so the list itself when it has none, for commas, backslashes and trailing backslashes alike |
| Codecs.SplitIsStable | crates/servicemanager-registry/src/imp.rs:819-849 | whatever was typed, what is printed for it parses to the same value |
| Decimal.I32RoundTrip | crates/servicemanager-registry/src/imp.rs:156-168 | a printed signed 32-bit number parses back to itself and consists of digits and a sign |
| ExitCodes.NormalizeIdempotent | crates/servicemanager-registry/src/imp.rs:156-168 | canonicalising a name twice is canonicalising it once |
| ExitCodes.NormalizeMerges | crates/servicemanager-registry/src/imp.rs:156-168 | two names get the same canonical name exactly when both mean the default or both spell the same 32-bit pattern, signed or unsigned |
| ExitCodes.PatternOfCode | crates/servicemanager-registry/src/imp.rs:156-168 | the pattern a name spells is defined exactly when it parses, and is its value modulo 2^32 |
| ExitCodes.CanonicalKeys | crates/servicemanager-ops/src/recovery.rs:25-56 | the keys the validator accepts are exactly the printed signed 32-bit numbers, and exactly the canonical names other than the default |
| ExitCodes.PrintedIsValid | crates/servicemanager-gui/src/recovery.rs:107-134 | every code the form prints passes the validator and is its own canonical name |
| ExitCodes.InsertAllExact | crates/servicemanager-registry/src/imp.rs:170-185 | inserting a list of entries succeeds exactly when every name is readable and no two spellings of one code disagree, and then the table holds exactly the listed codes |
| ExitCodes.MergeOrderIrrelevant | crates/servicemanager-registry/src/imp.rs:170-185 | two lists with the same entries, in whatever order and with whatever repetition, give the same table or fail alike |
| Config.MergeExitActions | crates/servicemanager-registry/src/imp.rs:1418-1426 | walking the table in any order and adding the default gives the one canonical table of a configuration, or the same error |
| RecoveryForm.ParseRows | crates/servicemanager-gui/src/recovery.rs:107-134 | rows are accepted exactly when every filled code is a signed 32-bit number and none repeats; all resulting keys are valid |
| RecoveryForm.RowCodesAre | crates/servicemanager-gui/src/recovery.rs:107-134 | rows make sense exactly if every filled one is a number, and say what the filled ones say, unknown picker positions meaning a restart |
| RecoveryForm.ToSpec | crates/servicemanager-gui/src/recovery.rs:107-150 | a form is accepted exactly when both delays and all rows are, and yields exactly what they say |
| RecoveryForm.FormRoundTrip | crates/servicemanager-gui/src/recovery.rs:53-134 | printing a valid policy into a form, in whatever row order, and parsing the form returns the policy |
| RecoveryForm.EditUntouched | crates/servicemanager-gui/src/recovery.rs:53-134 | loading a policy and saving the untouched form hands on the same policy |
| Config.CheckHooks | crates/servicemanager-registry/src/imp.rs:1382-1398 | hooks pass exactly when all names are valid and no two case variants of one hook carry different commands |
| Config.Preflight | crates/servicemanager-registry/src/imp.rs:1342-1426 | the checks succeed exactly for the acceptable configurations and hand on the merged exit actions |
| Config.StoredNamesDistinct | crates/servicemanager-registry/src/imp.rs:24-55 | no two owned values have names that are case variants of each other |
| Config.AbsoluteForms | crates/servicemanager-core/src/validate.rs:124-160 | absolute means drive-rooted, or a share with a server name and the beginning of a share name |
| Config.PathsAccepted | crates/servicemanager-registry/src/imp.rs:1399-1447 | the paths pass exactly if each configured one is free of control characters and absolute, or marked and possibly made so by a variable |
| Config.MarkOfHook | crates/servicemanager-registry/src/imp.rs:1342-1365 | the mark of a hook is a valid one exactly if both names of the hook are |
| Config.ComponentSplits | crates/servicemanager-core/src/validate.rs:62-105 | a hook's names have 1 to 255 units without slashes and control characters, and can be told apart when joined |
| Registry.OneValueOfAName | crates/servicemanager-registry/src/imp.rs:24-55 | setting or deleting an owned value does so to the one value of that name, in any spelling, and to no value of another name |
| Registry.SameCode | crates/servicemanager-registry/src/imp.rs:1604-1637 | a stored spelling of an exit code is the code itself, and the data asked for under its identity is that code's action |
| Registry.SameHook | crates/servicemanager-registry/src/imp.rs:1645-1662 | all case variants of a hook ask for the same data |
| Registry.SpellingStays | crates/servicemanager-registry/src/imp.rs:1599-1662 | writing under another spelling keeps the spelling a value or subkey was created with and touches nothing else |
| Registry.RegKey.SetScalar | crates/servicemanager-registry/src/imp.rs:1759-1867 | a value write changes that value only or fails without change; what its own checks refuse never reaches the key |
| Registry.RegKey.DeleteScalar | crates/servicemanager-registry/src/imp.rs:1869-1879 | a deletion removes that value only or fails without change |
| Registry.RegKey.SetHook | crates/servicemanager-registry/src/imp.rs:1645-1662 | a hook write keeps the spelling the value was created with |
| Reconcile.CheckExistingNames | crates/servicemanager-registry/src/imp.rs:771-817 | succeeds only if every spelling under both subtrees is readable; changes nothing |
| Reconcile.WriteScalars | crates/servicemanager-registry/src/imp.rs:1449-1597 | after success exactly the configured scalars were set, each to its data; cut short anywhere, every scalar is old or new; nothing is deleted |
| Reconcile.ReconcileExit | crates/servicemanager-registry/src/imp.rs:1599-1637 | writes all actions, then prunes what is not asked for; afterwards the subtree holds exactly the merged actions, or is gone when there are none; cut short anywhere, even half-way through the deletion of the subtree, every action is old, new, or absent if not asked for |
| Reconcile.ReconcileHooks | crates/servicemanager-registry/src/imp.rs:1639-1683 | creates, writes and prunes by case identity; afterwards exactly the configured hooks remain; cut short anywhere, even half-way through deleting an event or the subtree, every hook is old, new, or absent if not asked for |
| Reconcile.DeleteUnwritten | crates/servicemanager-registry/src/imp.rs:1685-1692 | removes exactly the owned scalars that were not written |
| Reconcile.AcceptedIsStorable | crates/servicemanager-registry/src/imp.rs:1791-1848 | nothing an accepted configuration asks for is refused by the writers' own NUL and empty-entry checks |
| Reconcile.ExitNameOk | crates/servicemanager-registry/src/imp.rs:1616-1629 | the late 32-bit check on exit codes cannot fail after the checks made beforehand |
| Reconcile.WriteIntoKey | crates/servicemanager-registry/src/imp.rs:1449-1692 | from any earlier contents: success means the key reflects the configuration and unowned values are untouched; rejected or unreadable means unchanged; a failure at any operation leaves every owned value old, new, or absent if not configured; no deletion precedes the last scalar write; the late checks never fire; unless an operation fails it succeeds exactly for an acceptable configuration over readable spellings |
| RoundTrip.ApplicationSurvives | crates/servicemanager-registry/src/imp.rs:1449-1692 | wherever a write is cut short, a service whose marker was present and not blank still has one |
| RoundTrip.StoredAs | crates/servicemanager-registry/src/imp.rs:1599-1662 | a stored action is the plain word under its code, the default action under the unnamed value; a hook is its command under its names, expandable exactly if marked |
| RoundTrip.StoredForms | crates/servicemanager-registry/src/imp.rs:1759-1867 | the types and bytes of stored values; numbers have their lowest byte first |
| RegistryRead.TextFieldBack | crates/servicemanager-registry/src/imp.rs:506-520 | a stored text and its expandable mark are read back |
| RegistryRead.StreamBack | crates/servicemanager-registry/src/imp.rs:197-226 | a stream and its options are read back whole |
| RegistryRead.ActionBack | crates/servicemanager-registry/src/imp.rs:187-195 | every action written is parsed back |
| RoundTrip.ExitActionsBack | crates/servicemanager-registry/src/imp.rs:228-251 | whatever the listing order, the actions read are exactly the merged ones |
| RoundTrip.HooksBack | crates/servicemanager-registry/src/imp.rs:253-284 | whatever the listing order, the hooks read are one for each configured case identity with its command, and the marks read are exactly those that concern one of them |
| RoundTrip.WriteThenRead | crates/servicemanager-registry/src/imp.rs:77-148 | what has been written over any earlier contents reads back as the normal form of the configuration: canonical codes with the default mirrored, one hook per case identity, marks only of what is stored |
| RoundTrip.SomethingToRead | crates/servicemanager-registry/src/imp.rs:1342-1426 | a configuration of an application alone is accepted and can be held by a key, so none of the above is vacuous |
| Transactions.MergeManagedFields | crates/servicemanager-ops/src/edit.rs:80-104 | the field-by-field updates of a copy are the specified merge; a blank application is refused |
| Transactions.EditTouchesOnlyNamed | crates/servicemanager-ops/src/edit.rs:80-148 | field by field: what an edit does not name stays, a new path keeps the stream's options and mark, clearing removes the stream and exactly its mark |
| Transactions.EditTwice | crates/servicemanager-ops/src/edit.rs:80-148 | an edit made twice is the edit made once |
| Transactions.WriteManaged | crates/servicemanager-registry/src/imp.rs:1148-1157 | a key without the marker is refused and unchanged; a whole write never destroys the marker; success means the key holds the configuration, and any error but a failing operation changes nothing; unless an operation fails it succeeds exactly for an acceptable configuration over a readable key with the marker |
| Transactions.MarkerSurvives | crates/servicemanager-registry/src/imp.rs:1148-1157 | a write that stopped anywhere keeps the marker and all unowned values |
| Transactions.Rollback | crates/servicemanager-ops/src/edit.rs:106-135 | the original is written back: restored means it is stored again, and it is exactly if it passes the checks, the marker and readable spellings are there, and no further operation fails |
| Transactions.Edit | crates/servicemanager-ops/src/edit.rs:24-78 | success: the store holds the merge; an error that does not report a failed rollback: the store is unchanged or holds the original again; the native update is attempted at most once and only on top of the finished managed write; the marker survives everything; when nothing fails the answer is fixed by the request and what is stored; a rollback of a valid original fails only if two operations fail |
| Transactions.SaveRecovery | crates/servicemanager-ops/src/recovery.rs:67-111 | success: the store holds the original with the policy replaced; otherwise as for edits; when nothing fails the answer is fixed, and a rollback fails only after a second failure |
| Transactions.UpdateRecovery | crates/servicemanager-ops/src/recovery.rs:117-137 | the policy computed from what was read under the lock is merged into what is stored under the same lock; a changed service name is refused without change |
| Transactions.MergedOfCanonical | crates/servicemanager-ops/src/recovery.rs:90-98 | a table of canonical codes that agrees with its default is stored as it is, with the default added |
| Transactions.ReadIsCanonical | crates/servicemanager-registry/src/imp.rs:228-251 | whatever is read has canonical codes only, with the default mirrored |
| Transactions.RestoredReadsBack | crates/servicemanager-ops/src/edit.rs:106-135 | after a successful rollback every reader sees the original again, up to the order and case of hooks, with exactly the marks that concern something it has |
| Transactions.RecoveryReadsBack | crates/servicemanager-ops/src/recovery.rs:145-174 | after a save every reader gets exactly the saved policy, whatever was stored before |
| Transactions.ReadPolicyIsValid | crates/servicemanager-ops/src/recovery.rs:145-174 | every policy that can be read passes the checks made on saving |
| Transactions.SavedReadsBack | crates/servicemanager-ops/src/recovery.rs:88-98 | after a save every reader sees what was stored before with just the two delays, the default action and the codes replaced, hooks and marks included |
| Transactions.EditReadsBack | crates/servicemanager-ops/src/edit.rs:80-148 | after an edit every reader sees what was stored before with just the edit made |
| Transactions.ReadIsReadable | crates/servicemanager-registry/src/imp.rs:771-817 | what could be read as a managed configuration carries the marker and has only readable spellings |
| Writers.AdvanceOnTrack | crates/servicemanager-ops/src/edit.rs:24-78 | each locked step keeps the holder where running alone would have brought it |
| Writers.StepConsistent | crates/servicemanager-registry/src/config_lock.rs:49-54 | every step of every writer keeps the serial picture |
| Writers.Serializable | crates/servicemanager-registry/src/config_lock.rs:49-54 | any interleaving of edits and recovery updates, whichever readings, writes, native updates and rollbacks fail, leaves the key and the verdicts of some serial order, namely that of getting the lock |
| Writers.AloneIsEdit | crates/servicemanager-ops/src/edit.rs:24-78 | an edit's steps, run alone, keep the promises of `Transactions.Edit`, whatever the environment decides |
| Writers.AloneIsUpdate | crates/servicemanager-ops/src/recovery.rs:67-137 | a recovery update's steps, run alone, keep the promises of `Transactions.UpdateRecovery` |
| Writers.EditCourse | crates/servicemanager-ops/src/edit.rs:24-78 | the course of an edit run alone: which reading, check, write or native update decides the verdict |
| Writers.WriteCourse | crates/servicemanager-ops/src/edit.rs:106-135 | after the write comes the native update, and whichever of them fails, the original is put back and the verdict says whether that succeeded |
| Writers.UpdateCourse | crates/servicemanager-ops/src/recovery.rs:67-137 | the course of a recovery update: the policy computed from the first reading is merged into the second |
| Writers.EachMeetsItsPromise | crates/servicemanager-registry/src/config_lock.rs:49-54 | in every interleaving each writer's verdict keeps its transaction's promises, from the key the writers before it left to the key the next one finds |
| Writers.SerialKeeps | crates/servicemanager-registry/src/imp.rs:1148-1157 | unowned values and the marker survive any number of concurrent writers |
| Writers.HolderProceeds | crates/servicemanager-registry/src/config_lock.rs:15-47 | a writer never waits for itself: the inner lock of a recovery update is granted |
| Quoting.QuoteWindowsArg | crates/servicemanager-core/src/validate.rs:162-206 | the loop with its pending backslashes prints the specified quoting |
| Quoting.QuotedRead | crates/servicemanager-core/src/validate.rs:162-206 | one quoted argument, followed by a separator or the end, is read back whole |
| Quoting.PlainStaysPlain | crates/servicemanager-core/src/validate.rs:162-170 | an argument is printed as it is exactly if it is not empty and has neither white space nor a quote |
| Quoting.CommandLineRoundTrip | crates/servicemanager-core/src/validate.rs:162-206 | every list of arguments, joined with single spaces and taken apart by the platform's backslash and quote rules, comes back unchanged, empty arguments included, for both known treatments of doubled quotes |
| Expansion.AppendExpanded | crates/servicemanager-core/src/expansion.rs:88-102 | appends exactly while the result stays NUL-free and under the limit |
| Expansion.Expand | crates/servicemanager-core/src/expansion.rs:61-86 | the loop computes the concatenation over percent-separated segments, looks each closed non-empty reference up once and in order, and succeeds exactly when the whole result is NUL-free with at most 32,766 units |
| Expansion.ResolveExpandableStrings | crates/servicemanager-core/src/expansion.rs:16-48 | the fields rewritten one after the other give the effective configuration, or the first failure |
| Expansion.ReferenceRule | crates/servicemanager-core/src/expansion.rs:61-86 | what is found stands for a reference; what is not found, or has no name, stays as written |
| Expansion.ExpansionLimit | crates/servicemanager-core/src/expansion.rs:88-102 | results of up to 32,766 units without NUL are accepted |
| Expansion.EffectiveExactly | crates/servicemanager-core/src/expansion.rs:16-48 | exactly the marked texts are expanded, everything else stays, and the marks are gone |
| Expansion.EffectiveFails | crates/servicemanager-core/src/expansion.rs:16-48 | resolving fails exactly if the expansion of a marked text does not fit |
| Expansion.EffectiveIsFinal | crates/servicemanager-core/src/expansion.rs:4-15 | expansion is one pass: resolving the result again, with any environment, changes nothing |
| Expansion.LogNeedsServiceEnvironment | crates/servicemanager-gui/src/data.rs:422-439 | the viewer's test is true exactly for marked texts in which something is looked up |
| Expansion.IndependentTexts | crates/servicemanager-core/src/expansion.rs:61-102 | a text is its own expansion in every environment exactly when it fits and nothing in it is looked up |
| Expansion.ViewerOpensTheRightFile | crates/servicemanager-gui/src/data.rs:395-439 | the viewer opens a path unasked exactly when that is the file the service writes to in every environment |
| Expansion.DeferredPaths | crates/servicemanager-registry/src/imp.rs:1428-1447 | the path check defers exactly texts with a real reference and those in which an unclosed sign with text behind it follows a closed pair |
| Expansion.DeferredLiteral | crates/servicemanager-registry/src/imp.rs:1428-1447 | the second kind exists: such a path is accepted and relative in every environment |
| EventLog.LogDirectory.MaybeRotate | crates/servicemanager-supervisor/src/event_log.rs:306-336 | fails only if a file operation fails; rotates exactly when the active file has reached the threshold; success leaves the shifted files and an active file below the threshold; a failing removal or rename leaves the files as before or shifted down to some number; no rename ever meets an existing target |
| EventLog.LogDirectory.TryLog | crates/servicemanager-supervisor/src/event_log.rs:143-158 | an append, whole or torn, and its rotation are one cycle, after which the log still is the end of all that was ever written; unless a file operation fails, the line is appended and the rotation that is due is made |
| EventLog.CycleDrops | crates/servicemanager-supervisor/src/event_log.rs:306-336 | whatever fails, a cycle adds what was written at the end and drops nothing or the whole oldest backup, the latter only if the active file had reached the threshold |
| EventLog.CycleKeepsSuffix | crates/servicemanager-supervisor/src/event_log.rs:143-158 | one cycle turns a suffix of history into a suffix of the longer history |
| EventLog.RunKeepsSuffix | crates/servicemanager-supervisor/src/event_log.rs:306-336 | so does any run of cycles with failures anywhere |
| EventLog.EnoughIsRetained | crates/servicemanager-supervisor/src/event_log.rs:306-336 | from an empty directory and without failed rotations at least the smaller of everything and four thresholds is retained |
| EventLog.SizesAreBounded | crates/servicemanager-supervisor/src/event_log.rs:306-336 | from an empty directory and without failures the active file stays below the threshold and every other below the threshold and one line |
| EventReader.ReadTail | crates/servicemanager-gui/src/bounded_log.rs:10-28 | exactly the bytes between the tail's start and the captured length, however the file has grown or shrunk since |
| EventReader.ReadRecords | crates/servicemanager-gui/src/event_log_reader.rs:71-85 | exactly the records of the tail of at most the budget's bytes, without the tail's first line if there is something before it |
| EventReader.TailRecordsAre | crates/servicemanager-gui/src/bounded_log.rs:10-28 | the records read of a file are a suffix of its records, and all of them up to 16 MiB |
| EventReader.TailKeepsAll | crates/servicemanager-gui/src/event_log_reader.rs:71-85 | the records of all lines that begin within the last 16 MiB are read |
| EventReader.TailStartIs | crates/servicemanager-gui/src/bounded_log.rs:10-28 | a tail starts with the budget's bytes, or one later so as not to cut a UTF-16 unit |
| EventReader.ReadAll | crates/servicemanager-gui/src/event_log_reader.rs:103-123 | exactly the records read of each file's tail, oldest file first; missing files count as empty |
| EventReader.ReaderSeesTheLog | crates/servicemanager-gui/src/event_log_reader.rs:103-127 | reading whole files one by one finds the records of the log as one text |
| EventReader.OldestCapped | crates/servicemanager-gui/src/event_log_reader.rs:87-123 | if only the oldest file there is may exceed 16 MiB, what is read is the end of the retained records, and all of them if no file exceeds it |
| EventReader.LoggedThenRead | crates/servicemanager-gui/src/event_log_reader.rs:103-127 | after any run of completed appends, whichever rotations failed, what the reader gets is exactly the last so many logged records in order, if only the oldest file exceeds 16 MiB |
| EventReader.CleanRunIsRead | crates/servicemanager-gui/src/event_log_reader.rs:87-123 | a run without failures, with lines no longer than the rotation threshold, never gets near that limit: the last so many records are read, at least four thresholds of bytes or all there are |
| LogLimits.ExactlyWhenReadable | crates/servicemanager-gui/src/event_log_reader.rs:87-123 | for distinct records and such lines, what is read is the last so many logged records if and only if no file but the oldest one exceeds 16 MiB |
| LogLimits.StuckRunLoses | crates/servicemanager-gui/src/event_log_reader.rs:87-123 | the failing case exists: after one rotation, rotations that keep failing let the active file exceed 16 MiB, and a record between others is missing |
| LogLimits.SomeRunLoses | crates/servicemanager-gui/src/event_log_reader.rs:87-123 | enough different records with short lines are all that takes: from any such family a losing run is built |
| TornAppends.TornText | crates/servicemanager-supervisor/src/event_log.rs:166-169 | when appends may leave any part of their line, what was written holds exactly the records left intact (written whole, with nothing unfinished in front), and at the end possibly one that lacks just its newline |
| TornAppends.TornRunIsRead | crates/servicemanager-gui/src/event_log_reader.rs:87-123 | after any run of attempts, with appends cut short and rotations failing anywhere, the reader gets exactly the last so many of those records, if only the oldest file exceeds 16 MiB |
| TornAppends.ReadableExactly | crates/servicemanager-supervisor/src/event_log.rs:143-169 | of distinct records, one whose append succeeded is there to be read if and only if the active file ended with a whole line when its append began |
| TornAppends.TornLoses | crates/servicemanager-supervisor/src/event_log.rs:143-169 | the losing run: after a torn append one that succeeds is glued to it, and neither is read |
| Pipeline.ReadSince | crates/servicemanager-gui/src/event_log_reader.rs:103-127 | what is shown is exactly the window of the records read |
| Pipeline.DashboardOfTheLog | crates/servicemanager-gui/src/metrics.rs:40-74 | whatever was logged, rotated away and truncated, if only the oldest file exceeds 16 MiB the dashboard of what is shown is the one computed directly from the last so many records ever logged |
| Pipeline.DashboardOfACleanRun | crates/servicemanager-gui/src/metrics.rs:40-74 | without failures, and with lines up to the threshold, that holds unconditionally, for at least four thresholds of records or all |
| Pipeline.DashboardOfAttempts | crates/servicemanager-gui/src/metrics.rs:40-74 | with appends cut short as well, the dashboard of what is shown is that of the last so many of the records left intact |
| Events.SortOfSameMembers | crates/servicemanager-gui/src/event_log_reader.rs:149-158 | the chronological order does not depend on the order records are collected in |
| HistoryWindow.SeedStep | crates/servicemanager-gui/src/event_log_reader.rs:129-148 | the table of seeds holds the newest earlier record of each spelling, the later read of equal instants |
| HistoryWindow.Truncate | crates/servicemanager-gui/src/event_log_reader.rs:129-158 | keeps exactly the window's records and one seed for each spelling, in chronological order with ties in source order |
| HistoryWindow.OneSeedEach | crates/servicemanager-gui/src/event_log_reader.rs:129-148 | of each spelling recorded before the window exactly one earlier record is kept |
| Uptime.BuildUpIntervals | crates/servicemanager-gui/src/metrics.rs:175-219 | the loop computes the specified intervals and the uncertain flag |
| Uptime.IntervalSemantics | crates/servicemanager-gui/src/metrics.rs:175-219 | for chronological events: ordered disjoint intervals inside the window; an instant is covered exactly when the last event at or before it is a start and that run is closed or the host is live; the flag is set exactly for an unclosed last start without a live host |
| Uptime.UpMsInWindow | crates/servicemanager-gui/src/metrics.rs:224-238 | the loop sums the overlaps |
| Uptime.UpMsSplit | crates/servicemanager-gui/src/metrics.rs:224-238 | up time is additive over adjacent windows |
| Uptime.UpMsBound | crates/servicemanager-gui/src/metrics.rs:224-238 | up time never exceeds the window |
| Dashboard.GroupServiceEvents | crates/servicemanager-gui/src/metrics.rs:85-137 | every event goes, in order, to the managed service its spelling names, and to no other |
| Dashboard.BuildServiceTimelines | crates/servicemanager-gui/src/metrics.rs:139-173 | one timeline for each managed service with usable history; anything else makes coverage unknown |
| Dashboard.ComputeAvailability | crates/servicemanager-gui/src/metrics.rs:240-273 | the loop computes the specified mean and days, always a percentage and 1 to 30 days |
| Dashboard.ComputeDailySparkline | crates/servicemanager-gui/src/metrics.rs:279-311 | always thirty percentages, one for each day, carried over days without data |
| Dashboard.ComputeCounts | crates/servicemanager-gui/src/metrics.rs:349-380 | the counts never contradict each other |
| DashboardLaws.CountsCount | crates/servicemanager-gui/src/metrics.rs:349-440 | each of the six counts is the number of managed services it is about, and no service is both failed and recovering |
| Dashboard.ComputeMetrics | crates/servicemanager-gui/src/metrics.rs:40-74 | all figures come from one grouping of the readable records up to now |
| DashboardLaws.SameTimeline | crates/servicemanager-gui/src/metrics.rs:139-219 | dropping or exchanging older records changes neither a timeline nor the last record as long as the newest older one stays |
| DashboardLaws.TruncationIsLossless | crates/servicemanager-gui/src/event_log_reader.rs:129-158 | all figures computed from the truncated history equal those computed from the whole, despite case aliases, ties and a clock that moved on in between |
| DashboardLaws.DashboardTimelinesSound | crates/servicemanager-gui/src/metrics.rs:139-219 | every timeline used is a non-empty window of ordered disjoint up times |
| DashboardLaws.DailyConservation | crates/servicemanager-gui/src/metrics.rs:279-311 | the thirty daily up times add up to the up time since the first of those days |
| DashboardLaws.RatiosAreBuckets | crates/servicemanager-gui/src/metrics.rs:279-311 | the ratios averaged for a day are the shares of that day's up time, the one conserved, of the contributing services |
| DashboardLaws.SparklineFigure | crates/servicemanager-gui/src/metrics.rs:279-311 | each day's figure is the mean of those shares, or the figure before it when no service contributes |
| DashboardLaws.TodayIsEmptyAtMidnight | crates/servicemanager-gui/src/metrics.rs:279-311 | every service contributes to today's bucket, and the bucket holds some of its time exactly unless it is midnight UTC |
| DashboardLaws.TodayOfAnUpService | crates/servicemanager-gui/src/metrics.rs:279-311 | of a service up all the time, today's figure is 100 percent, but 0 at midnight UTC |
| DashboardLaws.MidnightBucket | crates/servicemanager-gui/src/metrics.rs:279-311 | at midnight UTC every ratio averaged for today is 0, whatever the timelines |
| DashboardLaws.PercentIsExact | crates/servicemanager-gui/src/metrics.rs:240-311 | neither clamp of a percentage ever bites |
| DashboardFigures.UpMsCounts | crates/servicemanager-gui/src/metrics.rs:221-238 | up time in a window is the number of its milliseconds that some interval covers |
| DashboardFigures.AvailabilityIsMean | crates/servicemanager-gui/src/metrics.rs:240-258 | the availability is the mean of the services' shares of their own windows, without any clamp, and 100 with no service |
| DashboardFigures.FullAndEmptyShare | crates/servicemanager-gui/src/metrics.rs:246-256 | a service up over its whole window counts 100, one never up counts 0 |
| DashboardFigures.DaysCovered | crates/servicemanager-gui/src/metrics.rs:259-273 | the days are the fewest whole days that reach back to the earliest window, at least one, and thirty without any service |
| DashboardFigures.MeanShares | crates/servicemanager-gui/src/metrics.rs:254-258 | a mean is the sum shared out evenly |
| DashboardFigures.TimelineKnown | crates/servicemanager-gui/src/metrics.rs:139-219 | a timeline starts with the first record or the window, covers exactly the instants the records say, and coverage is unknown exactly if there is no earlier record or the end is ambiguous |
| DashboardFigures.TimelinesAre | crates/servicemanager-gui/src/metrics.rs:139-169 | one timeline for each managed service with history, in order, and unknown exactly if one managed service is |
| DashboardFigures.BucketsAreDays | crates/servicemanager-gui/src/metrics.rs:285-291 | the buckets are the thirty UTC days up to now, without gaps |
| DashboardFigures.BucketShare | crates/servicemanager-gui/src/metrics.rs:292-303 | a service counts on a day for the share of its part of that day in which it was up |
| DashboardFigures.FailedForADay | crates/servicemanager-gui/src/metrics.rs:386-413 | failed is exactly a stopped service whose last record is an exit with a code other than 0, for 24 hours |
| DashboardFigures.RecoveringUntilDue | crates/servicemanager-gui/src/metrics.rs:415-442 | recovering is exactly a running or starting service whose last record is a throttled restart, until half a minute after its delay, or five minutes |
| DashboardFigures.ObservedIs | crates/servicemanager-gui/src/metrics.rs:45-50 | exactly the readable records up to now are looked at, in chronological order with ties as recorded |
| DashboardFigures.CanonicalIs | crates/servicemanager-gui/src/metrics.rs:84-128 | a spelling stands for itself or for the first managed name it equals |
| DashboardFigures.FiguresOfTheFleet | crates/servicemanager-gui/src/metrics.rs:40-74 | all figures told from the fleet: unknown exactly without managed services or with one whose history is not usable, and then no chart |
| Bridge.DefiniteStays | crates/servicemanager-supervisor/src/transition.rs:40-110 | a definite outcome of a transition is final; one cancelled before it was begun is never begun |
| Bridge.Transition.Cancel | crates/servicemanager-supervisor/src/transition.rs:51-66 | cancels at once what nobody has begun and reports what is definite |
| Bridge.Transition.Begin | crates/servicemanager-supervisor/src/transition.rs:68-83 | only a queued transition may be carried out |
| Bridge.Transition.Complete | crates/servicemanager-supervisor/src/transition.rs:84-105 | an abandoned execution counts as degraded |
| Bridge.FirstDecides | crates/servicemanager-supervisor/src/transition.rs:40-110 | whoever comes first decides: cancelled first it is never carried out, begun first it ends with the outcome of its completion |
| BridgeLoop.ServiceBridge.PollControls | crates/servicemanager-runner/src/lib.rs:189-206 | takes at most a batch and notices every stop in it |
| BridgeLoop.ServiceBridge.HandOver | crates/servicemanager-runner/src/lib.rs:207-225 | the handover at the terminal gate: stop before release, pending transition dropped |
| BridgeLoop.ServiceBridge.SettleTransition | crates/servicemanager-runner/src/lib.rs:305-359 | cancellation, outcome and hard deadline of a transition |
| BridgeLoop.ServiceBridge.Iterate | crates/servicemanager-runner/src/lib.rs:188-427 | one iteration of the loop, branch by branch, is the specified step |
| BridgeLoop.ServiceBridge.Serve | crates/servicemanager-runner/src/lib.rs:166-428 | the whole loop is the fold of that step, and its trace is allowed |
| BridgeLaws.EveryTraceAllowed | crates/servicemanager-runner/src/lib.rs:166-428 | over all environments every trace follows the status automaton, and its last report is the current status |
| BridgeLaws.StoppingAbsorbs | crates/servicemanager-runner/src/lib.rs:207-235 | after the first report of stopping nothing else is reported, requested or forwarded |
| BridgeLaws.OneInFlight | crates/servicemanager-runner/src/lib.rs:305-383 | between two requests the first transition has been concluded or dropped |
| BridgeLaws.SettledReports | crates/servicemanager-runner/src/lib.rs:311-345 | every settled report states the transition applied last |
| BridgeLaws.GateOnce | crates/servicemanager-runner/src/lib.rs:207-225 | the gate is released at most once and, for an accepted stop, only after the stop was sent |
| BridgeLaws.ExplicitStopWins | crates/servicemanager-runner/src/lib.rs:203-263 | if any round notices a stop, among its controls, at the gate, while the supervisor exits or when a deadline is missed, or ends by receiving one, the loop ends with stopped and code 0 |
| BridgeLaws.CrashExactly | crates/servicemanager-runner/src/lib.rs:23-34 | the crash-style end is taken exactly for a deliberate exit nobody stopped, and then the supervisor was never told to stop; otherwise the bridge's own failures decide the code |
| BridgeLaws.Timely | crates/servicemanager-runner/src/lib.rs:265-402 | startup, a transition and a stop that survive a round had not reached their deadlines when it began; a transition nobody has begun is resolved at its shorter one |
| BridgeLaws.StopEnds | crates/servicemanager-runner/src/lib.rs:386-402 | no round beginning at or after a stop's deadline is survived |
| BridgeLaws.StartupEnds | crates/servicemanager-runner/src/lib.rs:265-289 | after the startup deadline a service is confirmed or being stopped |
| BridgeLaws.TransitionEnds | crates/servicemanager-runner/src/lib.rs:305-359 | over a whole run, a transition pending from some round on has met no round at or after its hard deadline |
| BridgeLaws.SettledOrInTime | crates/servicemanager-runner/src/lib.rs:265-402 | after every round of a run that goes on, the bridge is settled running or paused, or the round began before the deadline of what is under way |
| BridgeRounds.ConfirmedRuns | crates/servicemanager-runner/src/lib.rs:265-275 | a round in which startup is confirmed and nothing asks for a stop makes the service running and says so, and nothing else does |
| BridgeRounds.RoundState | crates/servicemanager-runner/src/lib.rs:186-402 | what one round does to the state, told from what it is given: running, paused, exactly what begins a stop and when, and with which failure code |
| BridgeRounds.RoundDoes | crates/servicemanager-runner/src/lib.rs:186-402 | exactly when a round releases the gate, sends a stop, drops or cancels a transition, concludes one, and reports running or paused |
| BridgeRounds.RoundEnds | crates/servicemanager-runner/src/lib.rs:238-263 | a round is the last exactly if the supervisor has finished or a stop has met its deadline; the terminal report for every reason and failure |
| BridgeRounds.RoundCarries | crates/servicemanager-runner/src/lib.rs:422-427 | what is known and received is carried into the next round |
| BridgeRounds.NoRepeatTooSoon | crates/servicemanager-runner/src/lib.rs:403-421 | within a checkpoint interval pending statuses are only reported when they begin |
| BridgeRounds.BatchInOrder | crates/servicemanager-runner/src/lib.rs:188-202 | the controls of a round are the one received while waiting and then up to 32 polled ones, in order |
| BridgeProgress.ControlsReachSupervisor | crates/servicemanager-runner/src/lib.rs:292-304 | every power event and rotation request taken in before stopping begins is passed on once and in order, nothing else ever is |
| BridgeProgress.WishIsServed | crates/servicemanager-runner/src/lib.rs:292-383 | the latest pause or continue is asked for in the same round, as what it is, or waits for the transition pending; without one nothing is asked for |
| BridgeProgress.CheckpointsInTime | crates/servicemanager-runner/src/lib.rs:403-421 | a round that begins a checkpoint interval after the checkpoint clock was restarted and ends with something pending has reported, and its last report is the current status |
| BridgeLoop.Finish | crates/servicemanager-runner/src/lib.rs:446-468 | an accepted stop always ends as stopped with code 0; only a crash ends without a last report |
| BridgeLoop.ServeAndFinish | crates/servicemanager-runner/src/lib.rs:430-468 | from the first control to the end of the process: a stop noticed or received anywhere, or claimed at the end, gets a clean end with code 0 |
| Broker.Activity.AdmitAt | crates/servicemanager-broker/src/pipe.rs:147-161 | admits exactly while neither draining nor claimed, and counts what it admits |
| Broker.Activity.Finish | crates/servicemanager-broker/src/pipe.rs:163-170 | takes away exactly what was admitted |
| Broker.Activity.ClaimIdleShutdown | crates/servicemanager-broker/src/pipe.rs:172-188 | claims exactly when draining with nothing inside and not claimed before |
| Broker.StepBalanced | crates/servicemanager-broker/src/pipe.rs:143-199 | with the counters equal to the live guards, an access underflows nothing and keeps them equal |
| Broker.ShutdownIsSafe | crates/servicemanager-broker/src/pipe.rs:143-199 | over every interleaving: whoever comes before draining is let in and nobody after; no counter underflows and counters are live guards; draining begins exactly when a claim finds no authenticated work and the idle time over; a claim succeeds exactly when draining, empty and unclaimed |
| Broker.DrainingEnds | crates/servicemanager-broker/src/pipe.rs:172-188 | once draining, the next claim finds or makes the shutdown claimed exactly if all guards live at the start have been dropped |
| Broker.UnauthenticatedDoesNotPostpone | crates/servicemanager-broker/src/pipe.rs:147-189 | neither admitting unauthenticated work nor dropping its guard touches the idle clock or what draining waits for, so a later claim drains all the same |
| Broker.InstancesBounded | crates/servicemanager-broker/src/pipe.rs:207-314 | a client is served while fewer than 16 are, else told busy while nobody else is; in every interleaving of the accept loop, workers and their watchdogs at most 18 pipe instances are open and the slot counters never underflow |
| Refresh.JobChannel.Send | crates/servicemanager-gui/src/data.rs:157-178 | run alone: a pending refresh is coalesced, a refused one leaves the flag clear, other jobs do not touch the flag |
| Refresh.QueueIsFifo | crates/servicemanager-gui/src/data.rs:157-226 | over all runs the worker gets the accepted jobs in order, each once, and works on what it has taken |
| Refresh.StepRight | crates/servicemanager-gui/src/data.rs:157-226 | with any number of senders the flag counts the refreshes under way; a promise is lost exactly by clearing the flag after a refused offer others had relied on |
| Refresh.RefreshIsNotLost | crates/servicemanager-gui/src/data.rs:157-226 | for one sender in every interleaving: at most one refresh queued, a queued one means the flag is set, and whoever was told Ok has a refresh queued or in the worker's hands |
| Refresh.ServedInTime | crates/servicemanager-gui/src/data.rs:207-226 | a refresh answered Ok begins before the worker has gone through more further jobs than the queue can hold |
| Refresh.LosesExactlyWithClones | crates/servicemanager-gui/src/data.rs:145-226 | no interleaving loses a promised refresh if and only if there is at most one sender |
| Refresh.SendersLose | crates/servicemanager-gui/src/data.rs:145-178 | with any larger number of clones a run loses an accepted refresh |
| Requests.Pending.Submit | crates/servicemanager-gui/src/requests.rs:69-80 | a submission forgets what was pending even if it cannot be sent |
| Requests.Pending.Finish | crates/servicemanager-gui/src/requests.rs:82-90 | only a reply to the current request is accepted |
| Requests.CurrentIsLatest | crates/servicemanager-gui/src/requests.rs:45-91 | over all runs a reply is accepted exactly if it answers the latest accepted request, not invalidated and not completed since |
| Requests.IdsIncrease | crates/servicemanager-gui/src/requests.rs:17-34 | identifiers strictly increase from submission to submission |
| Requests.CompletesOnce | crates/servicemanager-gui/src/requests.rs:82-90 | no request is completed twice |
| Requests.ModalState.Replace | crates/servicemanager-gui/src/requests.rs:140-152 | a busy install or edit dialog is not replaced |
| Requests.ModalState.Submit | crates/servicemanager-gui/src/requests.rs:154-177 | busy, inactive and unsent are told apart; the first two change nothing |
| Requests.MutationKeepsDialog | crates/servicemanager-gui/src/requests.rs:135-181 | an accepted install or edit keeps its dialog and its request until its own reply |
| Requests.RecoveryEditor.Activate | crates/servicemanager-gui/src/requests.rs:282-296 | switching services drops a draft of another one and whatever was pending |
| Requests.RecoveryEditor.Loaded | crates/servicemanager-gui/src/requests.rs:322-337 | a stale or mismatching reply leaves the draft alone |
| Requests.DraftIsFrozen | crates/servicemanager-gui/src/requests.rs:256-337 | over all runs the draft does not change while a reply is awaited except by it or by switching to another service, and replies of other activations change nothing |
| Requests.DraftBelongs | crates/servicemanager-gui/src/requests.rs:249-337 | over all runs the draft is for the editor's service all the time if and only if no edit of it changes its service |
| Requests.LogViewState.Received | crates/servicemanager-gui/src/requests.rs:222-235 | only the current request's reply is shown |
| Requests.LinesMatchTarget | crates/servicemanager-gui/src/requests.rs:190-236 | the lines on screen belong to the selected log and its latest request |

## Left out

- Win32 calls, security descriptors, handles, mutex names and threads: only their effects on the modelled state appear, as operations that may fail.
- Case mapping of names is one character-wise function about which `Config.SoundCase` states what is relied on (ASCII letters have their upper case; digits, minus and path separators have no case variants; variants agree in width and in being control characters); failures of the platform's mapping call and mappings that change a string's length are not modelled.
- Values and subkeys that other programs change while one write or read is under way are not modelled, nor the values and subkeys nested where the store never puts any.
- `create_managed_config`, `delete_managed_config`, `set_value`, `get_value`, `unset_value`, `install`, `remove`, `repair`, `rotate` and `list`: they use the same primitives and would add easier members.
- Error texts, diagnostics and audit lines: an error is one of a few kinds.
- Percentages are exact rationals and instants whole milliseconds; rounding to 32-bit floats and truncation of finer instants are not modelled.
- Parsing of RFC 3339 timestamps, of JSON records and the ordinal comparison of service names are given functions; that a printed record is one line that parses back is the precondition `EventReader.SoundFormat`, and that no text that starts like a record and ends with another one parses is `TornAppends.Strict`.
- Whether a service is a managed one is a field of its definition in the dashboard.
- SVG path strings, rendering, command-line parsing and the broker's request handlers.
- Readers racing a rotation: the reader takes no lock, so a file may be read twice or not at all; the model reads one consistent set of files.
- A wait for the event log's lock that times out is an append that fails and leaves nothing.
- `exists` and a file's reported length are taken to be accurate during a rotation.
- The first argument of a command line follows simpler rules of its own; the round trip is about the arguments after it.
- The supervisor's own loop, hooks and process control are not part of this model; they are the bridge's environment.
- Clock readings may move in any way within an iteration except where `Bridge.WellTimed` is required for deadlines.
- The bridge's progress within an iteration depends on the platform's waits returning after the poll interval; that interval does not appear in the deadlines proved.
- Exhaustion of 64-bit request and generation numbers ends the program; operations that would exceed them are excluded by `Requests.CanIssue` and the bounds on generations.
- Timeouts while waiting for the inner lock of a recovery update: a lock the caller already holds is granted at once.
- Reading a configuration takes no lock; `Writers` models writers only.
- Writers.Serializable: a lock left behind by a crashed writer is not modelled; what such a writer leaves in the store is covered by `Reconcile.WriteIntoKey`.
- Broker.InstancesBounded: connections refused by the platform and failed thread starts are the move `Abandon`, after which the slot and the handle are free again.
- Dashboard.ComputeMetrics: the events shown beside the figures and the sorting for display are not modelled.
