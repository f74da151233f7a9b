# Models and proofs for aic

A Dafny model of the parts of `aic` where a mistake is hard to see by reading: code that
shares state with other processes, code whose two halves must agree, and code that reads back what
it writes.  Each source component has a module of its own.  Everything is checked by

    dafny verify dfyconfig.toml

| module | what it models |
|---|---|
| `LeaseProtocol`, `LeaseClient` | the advisory lease lock of `scripts/idm-recon-lock.template.js`: the protocol for any number of callers, and one caller's code against it |
| `AgentCache` | the agent daemon's key and client cache over two files and a vault that others lock and replace |
| `StateFile` | the lock, temporary and rename of the JSON state file, with crashes at any step |
| `Json`, `JsonDiff`, `JsonPointer` | the structural diff and its RFC 6901 pointers |
| `Canonical` | the canonical text whose digest is the precondition of an access write |
| `AccessRules`, `AccessChanges`, `AccessDocument` | transforms of the access rules, the two change summaries, and the requests |
| `AccessWrite`, `AccessUndo`, `AccessRuns` | writing, confirming and undoing an access document, request by request; exactly when a write or undo replaces what its user saw, and when an undo goes out of reach; the runs in which they fail |
| `Wraps` | enrolled factors of an encrypted vault, edited by sessions holding stale copies |
| `RestartWait` | waiting for a restart under one deadline |
| `ConstLint` | the two `const` lint rules for Rhino |
| `Duration` | the duration parser and printer |
| `Common`, `Text` | options and results; strings, numerals and sorting |

How the concurrent components are modelled: a state, an event per atomic step, and `Run`, the state
after any sequence of enabled events.  A theorem about `Run` from an initial state is a theorem about
every interleaving, of any length and with any number of participants.  Where the source updates an
object in place there is a class whose methods are tied, clause by clause, to the functions the
theorems are about.

What is taken as given:

- one clock that does not go back, revisions that are never reused, a token of its own for every
  lock holder, and a create that is exclusive (the lock script says the last is assumed);
- a file that is replaced gets a modification time no earlier version had;
- a digest that is injective (and lower case) on canonical texts;
- serializing a state-file document and parsing it gives the document back.

What the proofs found:

- Without its lease a client is not protected: one that works past its expiry is joined in `work` by
  the caller that evicted its record (`OverlapAfterExpiry`).
- A mismatch of whole documents is printed with path `/`, which RFC 6901 reads as the member with the
  empty name.  Pointers resolve to the reported sides exactly when the mismatch is below the root
  (`ResolvesIffBelowRoot`), and every root mismatch has the report of two objects that differ at their
  empty key (`RootReportsAreAmbiguous`).
- The undo of an access write that landed can go out of reach without having been used.
  `LandedWriteOutOfReach` says exactly when.  Besides expiry, an undo whose own read or PUT failed, and
  a document somebody had changed, there are two ways: the write's PUT took effect but its answer was
  lost, which is classified as "not written" (`LostAnswerLosesTheUndo`); and an undo started while the
  write is in flight reads the document before the write lands, and its "conflict" retires the entry
  (`EarlyUndoLosesTheUndo`).  Holding undos back while a write is in flight, which the program does for
  a second write, would close the second way (`GatedUndosAreNotEarly`).
- A write and an undo may run at once, and a PUT replaces whatever is there.  If both have read the same
  document, the write can be confirmed over a document its user never saw, with an entry that would
  restore one it never replaced (`UndoThenWriteRace`); or the undo can put an older document over the
  write's confirmed result (`WriteThenUndoRace`).  Nobody else need be there.  A PUT replaces what its
  task read exactly when nothing else was put in between, or that document was put last
  (`LatestIsLastChange`, `OnlyReviewedChanges`, `LandedOverReviewed`, `UndoRestoresIffLanded`); with
  one task at a time and no foreign change between a GET and its PUT it always does
  (`SerialChangesAreReviewed`).
- "Accepted but unconfirmed" does not mean the write is there.  A PUT that was answered and discarded
  leaves its entry pending, and if another writer puts the same document the undo replaces that one
  (`DiscardedWriteUndone`).
- 0.0 and -0.0 are equal to the JSON library and print differently, so a document and its equal can
  have two digests (`ZeroHasTwoTexts`): exactly the documents holding one of them do
  (`OneTextIffNoZero`).

## Model

| member | source | states |
|---|---|---|
| `LeaseProtocol.StepKeeps` | scripts/idm-recon-lock.template.js:155-332 | any step keeps the client's own invariant and changes the store only by creating into a gap, replacing the client's own record, or removing its own or an expired one |
| `LeaseProtocol.GuaranteeIsRely` | scripts/idm-recon-lock.template.js:236-332 | what one client may do is within what every other client relies on |
| `LeaseProtocol.Stable` | scripts/idm-recon-lock.template.js:236-332 | a client's invariant (its remembered revision is current and unchanged, or history; its unexpired lease is in the store) survives everything the others and the clock may do |
| `LeaseProtocol.OthersRely` | scripts/idm-recon-lock.template.js:155-332 | a run of the others, of any length, does no more to the store than the rely condition says |
| `LeaseProtocol.RunKeepsInv` | scripts/idm-recon-lock.template.js:98-135 | the invariant of all clients holds after every run |
| `LeaseProtocol.HolderOwnsRecord` | scripts/idm-recon-lock.template.js:313-332 | in every run, a client in `work` whose last written expiry is ahead owns the stored record, which lasts at least as long |
| `LeaseProtocol.MutualExclusion` | scripts/idm-recon-lock.template.js:98-135 | in every run, two clients are never in `work` under unexpired leases |
| `LeaseProtocol.DeletesAreFenced` | scripts/idm-recon-lock.template.js:255-307 | in every run, a record is removed only by its owner or by a client that read that very revision and found it expired |
| `LeaseProtocol.UpdatesKeepOwner` | scripts/idm-recon-lock.template.js:313-332 | in every run, only the owner's renewal replaces a record in place, and the owner stays |
| `LeaseProtocol.PathKeepsOk` | scripts/idm-recon-lock.template.js:155-332 | along any path of one client's steps and the others' turns its invariant is kept |
| `LeaseProtocol.OverlapAfterExpiry` | scripts/idm-recon-lock.template.js:77-83 | the lease is needed: a run exists in which two clients are in `work`, one past its expiry |
| `LeaseClient.LockService.Create` | scripts/idm-recon-lock.template.js:170-175 | with a record there nothing is created; a create granted puts exactly the caller's record; one that threw may or may not have; as the protocol's step |
| `LeaseClient.LockService.OwnsCanonicalLock` | scripts/idm-recon-lock.template.js:236-243 | a "yes" means the stored record is the caller's; a read error is a "no" |
| `LeaseClient.LockService.ReclaimIfExpired` | scripts/idm-recon-lock.template.js:284-307 | with others moving between its calls, never touches the caller's unexpired record; alone, removes the record exactly when it is expired at its own check |
| `LeaseClient.LockService.Attempt` | scripts/idm-recon-lock.template.js:166-207 | a lease it returns is for a full ttl and covers the stored record while it lasts, and with confirmation the record is the caller's even past that; alone, a free key is acquired and an expired record evicted |
| `LeaseClient.LockService.AcquireLock` | scripts/idm-recon-lock.template.js:155-224 | at most maxRetries + 1 creates, one sleep fewer; times out only after all of them; alone, acquires exactly when the record in its way had expired at one of the first maxRetries reclaim checks, whatever time passed, and then by the next create; so, for every k below maxRetries, within k + 2 creates if it expires within k pauses |
| `LeaseClient.LockService.RenewLease` | scripts/idm-recon-lock.template.js:313-332 | whether it extends or throws, the lease last written still covers the record and never shrinks |
| `LeaseClient.LockService.ReleaseLock` | scripts/idm-recon-lock.template.js:255-273 | removes the caller's record or nothing, whatever the others did meanwhile |
| `LeaseClient.PathCovers` | scripts/idm-recon-lock.template.js:155-332 | every state these calls reach is reached by the protocol's steps and the others' turns, so its invariant holds there and an unexpired lease covers the record |
| `AgentCache.AgentState.constructor` | src/agent/daemon.rs:69-80 | starts locked, with no clients |
| `AgentCache.AgentState.InvalidateClients` | src/agent/daemon.rs:90-93 | no clients, and a generation no task has captured |
| `AgentCache.AgentState.Lock` | src/agent/daemon.rs:85-88 | a locked vault without clients, in a new generation |
| `AgentCache.AgentState.SetVault` | src/agent/daemon.rs:471-476 | the new vault without the old one's clients, in a new generation |
| `AgentCache.AgentState.Install` | src/agent/daemon.rs:853-875 | the map is installed only into the generation it was read for, and then drops every client |
| `AgentCache.AgentState.RefreshStamp` | src/agent/daemon.rs:879-887 | other config bytes, or none, drop every client; the same bytes change nothing |
| `AgentCache.AgentState.PublishClient` | src/agent/daemon.rs:944-954 | a client is cached only if generation and config bytes are those it was built from |
| `AgentCache.Fenced` | src/agent/daemon.rs:782-803 | the result is that of the first attempt that did not move, and at most three are made |
| `AgentCache.FindTenant` | src/agent/daemon.rs:924-929 | the first entry of that name is found exactly when the config has one |
| `AgentCache.AdvanceKeepsInv` | src/agent/daemon.rs:807-954 | the next step of any refresh, unlock, stamp or build task, at any point of any interleaving, keeps the invariant (what an undisturbed task achieves is stated by `RefreshReadsAChange` and those after it) |
| `AgentCache.RunKeepsInv` | src/agent/daemon.rs:412-954 | the invariant of state, disk and tasks in flight holds after every run |
| `AgentCache.ClientsAgree` | src/agent/daemon.rs:897-954 | in every run each cached client has the current map's key and the entry parsed from exactly the stamped config bytes; a locked vault has none |
| `AgentCache.StampIsSound` | src/agent/daemon.rs:452-466 | in every run, a cached mtime equal to the mode's file's means the cached map is that file's |
| `AgentCache.ModeFence` | src/agent/daemon.rs:807-875 | in every run, a map read for one mode or key enters no other vault; the locked and equal-mtime arms of the installation are never reached |
| `AgentCache.InstalledWasContent` | src/agent/daemon.rs:807-875 | in every run, a map a refresh installs was the content of its mode's file at some moment after the refresh captured its state |
| `AgentCache.UnchangedIsContent` | src/agent/daemon.rs:828-830 | in every run, a refresh that finds the file unchanged, in the vault it captured, leaves a map that is the file's content then |
| `AgentCache.RefreshReadsAChange` | src/agent/daemon.rs:828-875 | in every run, a refresh that is not overtaken and whose stat is any mtime but the cached one ends with the file's content cached under that mtime, and no clients |
| `AgentCache.RefreshReadsTheUnstatted` | src/agent/daemon.rs:830-837 | and one with nothing cached reads even a file it cannot stat, under a stamp no file has, so that the next refresh reads it again |
| `AgentCache.RefreshFailsSafely` | src/agent/daemon.rs:832-847 | a refresh whose stat fails over a cache, or whose read fails, leaves the daemon as it was |
| `AgentCache.BuildPublishes` | src/agent/daemon.rs:902-954 | a build nothing disturbs, from the stamped config, ends with the client of the first entry of its name and the cached key in `clients`, all else as it was |
| `AgentCache.BuildFailsSafely` | src/agent/daemon.rs:916-929 | a build from a config that is gone, does not parse or lacks the tenant changes nothing |
| `AgentCache.UnlockLoads` | src/agent/daemon.rs:439-450 | unlocking without encryption loads the plain file under its mtime whatever vault there was; with no file nothing changes |
| `AgentCache.StampFollowsConfig` | src/agent/daemon.rs:879-887 | the stamp becomes the config on disk; clients stay exactly over readable bytes that were the stamped ones |
| `AgentCache.LockAndKey` | src/agent/daemon.rs:412-433 | locking leaves neither vault nor clients, a new key an encrypted vault with nothing read, each in a later generation |
| `AgentCache.GenerationGrows` | src/agent/daemon.rs:60-63 | the generation never goes back, so no fence that closed opens again |
| `AgentCache.LockFencesBuilds` | src/agent/daemon.rs:941-954 | a build in flight across a lock never publishes, whatever runs after |
| `AgentCache.StatAfterReadIsUnsound` | src/agent/daemon.rs:452-457 | reading before the stat would pair old content with the new mtime |
| `StateFile.LoadKeepsInv` | src/statefile.rs:73-87 | a step of the load keeps the invariant: what is read is part of the current version, and what is assembled is the change of all of it (of no records for a missing or empty file, by `FromNothing` and `FirstUpdateCommits`) |
| `StateFile.WriteKeepsInv` | src/statefile.rs:125-138 | a step of the writing keeps the invariant: the temporary holds exactly the part written, and every version stays |
| `StateFile.RenameKeepsInv` | src/statefile.rs:140-146 | the rename keeps the invariant: the new version is the updater's change of the version current at that moment |
| `StateFile.VersionIsFold` | src/statefile.rs:89-121 | the n-th version is the first n committed changes folded over the first document |
| `StateFile.FileIsFoldOfCommits` | src/statefile.rs:89-121 | in every run the path names one whole document: the initial one with the committed changes in rename order; a file that does not parse is never replaced |
| `StateFile.SuccessCommitsOnce` | src/statefile.rs:92-121 | in every run, an updater that reported success is in the rename order exactly once |
| `StateFile.FailureCommitsNothing` | src/statefile.rs:92-121 | and one that reported failure is not in it |
| `StateFile.ReaderSeesOneVersion` | src/statefile.rs:68-87 | in every run, a lock-free reader none of whose calls failed gets exactly what the version current when it opened the file says, be it a document or that it does not parse |
| `StateFile.ReaderSeesAFold` | src/statefile.rs:68-87 | which is the initial document with the first commits, up to that version, in rename order; or the error the file started with |
| `StateFile.FromNothing` | src/statefile.rs:73-121 | in every run from a missing or empty file, the path stays as it was until the first commit and then names the commits folded over no records |
| `StateFile.ReaderFromNothing` | src/statefile.rs:68-87 | and a reader none of whose calls failed gets the commits there were when it opened the file, folded over no records |
| `StateFile.FirstUpdateCommits` | src/statefile.rs:73-146 | an update that finds the lock free and the file missing or empty, undisturbed, commits its change of no records |
| `StateFile.UpdaterCommits` | src/statefile.rs:92-146 | one that finds a file that parses commits its change of that document, reports success and lets go of the lock |
| `StateFile.ReaderReads` | src/statefile.rs:68-87 | a reader left to itself gets what the current file says |
| `StateFile.NamedInodesAreFrozen` | src/statefile.rs:125-146 | no event of any run writes an inode the path has ever named |
| `StateFile.UpdatesExclude` | src/statefile.rs:103-115 | two updaters are never both between taking the lock and letting it go |
| `StateFile.Directory.Update` | src/statefile.rs:92-146 | killed after any number of calls, the path holds the old document or the changed one; with calls enough for the whole text it is done and holds the changed one, over a missing or empty file the change of no records; a file that does not parse is refused and left alone |
| `JsonDiff.EmptyIffEqual` | src/jsondiff.rs:29-32 | no differences exactly when the values are equal |
| `JsonDiff.DiffSwaps` | src/jsondiff.rs:23-67 | comparing the other way round gives the same list with sides swapped |
| `JsonDiff.DiffFaithful` | src/jsondiff.rs:29-67 | every path leads, in each value, to exactly the side reported, and the sides differ |
| `JsonDiff.DiffCovers` | src/jsondiff.rs:29-67 | conversely, wherever the values differ some reported path is at, above or below (which paths those are, `DiffExactly` says) |
| `JsonDiff.DiffExactly` | src/jsondiff.rs:29-67 | an edit is in the list exactly when its path is one where the values differ, not as containers of one kind, and everything above it is a pair of such containers; and its sides are what is there |
| `JsonDiff.DiffInOrder` | src/jsondiff.rs:36-60 | the list goes through the documents depth first, keys in their order and elements by index |
| `JsonDiff.DiffDistinct` | src/jsondiff.rs:29-67 | no path is reported twice |
| `JsonDiff.ReplayUnder` | src/jsondiff.rs:39-60 | replaying a member's differences changes that member and nothing else |
| `JsonDiff.DiffIsPatch` | src/jsondiff.rs:23-67 | replaying the right-hand sides onto the left value yields the right one |
| `JsonPointer.SegmentRoundTrip` | src/jsondiff.rs:16-18 | an escaped segment has no slash and unescapes (section 4 of RFC 6901) to the key |
| `JsonPointer.PointerRoundTrip` | src/jsondiff.rs:16-18 | a rendered pointer parses (section 3 of RFC 6901) to its tokens |
| `JsonPointer.Differ.Walk` | src/jsondiff.rs:29-67 | what the recursion pushes is the diff, reported under its pointer |
| `JsonPointer.Differ.WalkMembers` | src/jsondiff.rs:39-60 | both loops push one member's differences after another's, in order |
| `JsonPointer.Differ.Member` | src/jsondiff.rs:45-58 | what is pushed for a member are the edits of `Diff` under it, which by `DiffExactly` are those of the pair below, or one with a side absent |
| `JsonPointer.Changes` | src/jsondiff.rs:23-27 | the list returned is the diff with pointers for paths |
| `JsonPointer.ReportedIsPatch` | src/jsondiff.rs:23-67 | the reported list, its pointers parsed, is a complete patch; the mismatch of whole documents replaces the whole |
| `JsonPointer.ReportedSwaps` | src/jsondiff.rs:23-67 | the reported list too is only swapped the other way round |
| `JsonPointer.ReportedIsFaithful` | src/jsondiff.rs:29-67 | between two objects or two arrays, reported paths are distinct and resolve in each document to the reported side |
| `JsonPointer.ResolvesIffBelowRoot` | src/jsondiff.rs:29-67 | every reported pointer resolves to both reported sides exactly when the documents are equal or containers of one kind |
| `JsonPointer.RootReportsAreAmbiguous` | src/jsondiff.rs:61-65 | every mismatch of whole documents has the report of two objects that differ so at the empty key |
| `JsonPointer.RootPathIsAmbiguous` | src/jsondiff.rs:61-65 | "/" for the whole document can be the same report as "/" for an empty key |
| `Text.Sort` | src/jsondiff.rs:40-42 | the keys, once each, in increasing order, whatever order they came in |
| `Text.SortedIsUnique` | src/jsondiff.rs:40-42 | there is one such list |
| `Text.LessMeans` | src/jsondiff.rs:40-42 | the order sorted by: a string goes before another when it is a proper prefix of it or has the smaller character where they first differ |
| `Canonical.Writer.Write` | src/access/spec.rs:430-461 | what is appended to the buffer is the value's canonical text |
| `Canonical.Writer.WriteItems` | src/access/spec.rs:430-461 | items with commas between them and the bracket at the end |
| `Canonical.Writer.WriteFields` | src/access/spec.rs:430-461 | fields in key order, though the map yields its keys in any |
| `Canonical.QuotePrefix` | src/access/spec.rs:430-461 | a quoted string (section 7 of RFC 8259) says where it ends and what it says |
| `Canonical.NumberPrefix` | src/access/spec.rs:430-461 | so does a number before whatever may follow it |
| `Canonical.CanonReadsBack` | src/access/spec.rs:430-461 | a reader of JSON gives every value back from its canonical text, and what followed it |
| `Canonical.CanonPrefix` | src/access/spec.rs:430-461 | the text of any value, nested as it may be, says where it ends and which value it is |
| `Canonical.CanonicalFormDecidesEquality` | src/access/spec.rs:430-461 | two values have one canonical text exactly when they are equal up to key order |
| `Canonical.LibraryEqualIffSameText` | src/access/spec.rs:430-461 | without a negative zero, the values the JSON library holds equal are those with one canonical text |
| `Canonical.OneTextIffNoZero` | src/access/spec.rs:430-461 | all values the library holds equal to one have its canonical text exactly when it holds neither 0.0 nor -0.0 |
| `Canonical.ZeroHasTwoTexts` | src/access/spec.rs:430-461 | 0.0 and -0.0 are equal to the library and have two |
| `Canonical.DigestPreconditionMeansEquality` | src/access/spec.rs:400-428 | with an injective digest, the precondition holds exactly when the live document is the reviewed one |
| `AccessRules.RemoveAll` | src/access/ops.rs:286-302 | removing indices from the back leaves exactly the rules whose original index is not named |
| `AccessRules.RemoveIsKeep` | src/access/ops.rs:286-302 | a single removal is the same filter |
| `AccessRules.InsertThenRemove` | src/access/ops.rs:216-229 | inserting then removing there changes nothing |
| `AccessRules.RemoveThenInsert` | src/access/ops.rs:216-229 | nor does the reverse |
| `AccessRules.MoveBack` | src/access/ops.rs:237-249 | a moved rule is at its target, and moving it back restores the list |
| `AccessRules.MoveCounts` | src/access/ops.rs:231-249 | a move permutes the rules |
| `AccessRules.MoveAuthorizesTheSame` | src/access/ops.rs:231-249 | a move authorizes exactly the same requests, whatever a rule grants |
| `AccessRules.InsertAddsItsGrants` | src/access/ops.rs:210-229 | an insert anywhere adds exactly what the new rule grants |
| `AccessRules.RemoveTakesItsGrants` | src/access/ops.rs:285-302 | a removal takes away exactly what only the removed rules granted |
| `AccessRules.MoreRulesGrantMore` | src/access/ops.rs:210-302 | a list with every rule of another authorizes all that it does |
| `AccessChanges.FindUnused` | src/access/ops.rs:367-373 | an unmatched equal rule if there is one |
| `AccessChanges.MatchRules` | src/access/ops.rs:362-383 | the greedy pass matches the multiset intersection and leaves the additions at their indices |
| `AccessChanges.Unmatched` | src/access/ops.rs:384-393 | the removals are the unmatched rules, in order, at their indices |
| `AccessChanges.MultisetChanges` | src/access/ops.rs:362-417 | kept is the intersection's size, before-values are before minus after, after-values after minus before, touched sets exactly the unmatched indices |
| `AccessChanges.NoChangesIffPermutation` | src/access/ops.rs:362-417 | no changes exactly when the rules are permutations of each other |
| `AccessChanges.FlaggedIffRepeated` | src/access/ops.rs:420-431 | a rule is flagged exactly when the document holds it more than once |
| `AccessChanges.TouchedChanges` | src/access/ops.rs:323-360 | the loops over touched indices make the exact summary |
| `AccessChanges.InsertSummariesAgree` | src/access/ops.rs:323-417 | for an insert, exact and content-matched summaries agree on kept, removed and added rules |
| `AccessChanges.EditSummariesAgree` | src/access/ops.rs:323-417 | for an edit too, one that changes nothing included |
| `AccessChanges.RemoveSummariesAgree` | src/access/ops.rs:323-417 | and for a removal of any set of indices |
| `AccessChanges.NoBeforeCannotRevoke` | src/access/cli.rs:422-430 | a content-matched change without a before-value revokes no request |
| `AccessDocument.AmendAndSummarize` | src/access/ops.rs:138-193 | the amended document or the error, with the summary its kind of amendment gets |
| `AccessDocument.AmendmentTakesEffect` | src/access/ops.rs:205-303 | which amendments are refused, and with what; the others make exactly the list they should (the new rule at its index and the rest in order, the moved one at its target, every rule not removed at its index less those removed below it) and leave every other key of the document |
| `AccessDocument.UntouchedStay` | src/access/ops.rs:138-193 | outside the indices a summary reports as touched, the rules and their order are the same |
| `AccessDocument.MovesAreReported` | src/access/ops.rs:150-171 | a summary reports a move exactly for a move to another place, by where the rule was and where it is |
| `AccessDocument.ReplaceMeans` | src/access/ops.rs:490-504 | an edited document is refused exactly for another id; taken, it has the id and is otherwise as given |
| `AccessDocument.NewRuleSays` | src/access/ops.rs:479-488 | a new rule has its three texts, the optional ones it was given, and no other key |
| `AccessDocument.SummariesAgree` | src/access/ops.rs:138-193 | for add, insert, edit, move and removal with repeated indices, both summaries agree |
| `AccessDocument.ExactSummaryCannotRevoke` | src/access/cli.rs:422-430 | a transform whose exact summary has no before-value revokes no request |
| `AccessDocument.EditChangesOnlyItsKeys` | src/access/ops.rs:252-283 | an edit changes one rule; in it, keys it sets have the given text, keys it clears are gone, and all others are as they were |
| `AccessDocument.FormRequestsAreWellBuilt` | src/access/ops.rs:506-543 | whatever is typed into a form, its request's digests and result are of the document it was opened on |
| `AccessDocument.OtherRequestsAreWellBuilt` | src/access/ops.rs:545-601 | the same for deletions and reorders |
| `AccessDocument.EditFormMeans` | src/access/ops.rs:506-543 | an edit form's request is for a valid document that differs, expects the rule the form showed at its index, and makes a rule with what was typed and nothing else changed |
| `AccessDocument.EditFormRefused` | src/access/ops.rs:506-517 | a confirmed edit form of a rule that is there is refused only because the rule is no object, the result is invalid, or nothing changes |
| `AccessDocument.CreateFormMeans` | src/access/ops.rs:506-543 | a form for a new rule puts it at its place with what was typed, empty optional texts left out, and expects no rule; confirmed, it is refused only past the end or as invalid |
| `AccessDocument.DeleteMeans` | src/access/ops.rs:545-571 | a deletion is requested exactly when confirmed, in range and valid; it expects the rule it removes |
| `AccessDocument.MoveMeans` | src/access/ops.rs:573-601 | a reorder is requested exactly when both indices are in range; it expects the rule it moves, which ends at its target |
| `AccessDocument.UntouchedFormIsRefused` | src/access/ops.rs:515-517 | a form nobody typed into makes no request |
| `AccessWrite.PreparedIsReviewed` | src/access/ops.rs:821-845 | once the document check passes the per-rule check never refuses, and what is written is exactly the reviewed result |
| `AccessUndo.OnlyReviewedChanges` | src/access/ops.rs:708-728 | in every run the program's own changes are stored PUTs of a reviewed result or of an entry's prior document; what they replace is the reviewed document, or the entry's written one, exactly when nothing else was put since the task's read, or that document was put last |
| `AccessUndo.LatestIsLastChange` | src/access/ops.rs:708-728 | between a task's read and its PUT, what counts as put since is the last change made by any other task or by anyone else, over any events |
| `AccessUndo.DoneMeansShown` | src/access/api.rs:77-105 | in every run an attempt is done exactly when its read-back answered and found the whole intended document at that moment; otherwise it is accepted but unconfirmed |
| `AccessUndo.StatusTells` | src/access/ops.rs:1093-1102 | in every run, by the last report that retires an entry which has not expired: applied exactly on an undo whose read-back showed the document, conflict exactly on an undo stopped at its check, failure exactly on an undo that could not read or had its PUT errored or a write stopped or unanswered; pending exactly without such a report |
| `AccessUndo.WriteLeavesReviewed` | src/access/ops.rs:688-728 | from any state, a write over its reviewed document, all requests answered and nobody else moving, leaves the reviewed result and a pending entry |
| `AccessUndo.UndoLeavesPrior` | src/access/ops.rs:1037-1068 | likewise an undo over its entry's written document leaves the prior one and the entry applied |
| `AccessUndo.AttemptStops` | src/access/ops.rs:708-717 | from any state, an attempt that cannot read, meets another document, or writes without its backup puts nothing, and its entry says failure, or conflict for an undo that met another document |
| `AccessUndo.FlightIsKnown` | src/access/ops.rs:655-667 | in every run a write is known to be in flight exactly while one is, so the next one can start when it is over |
| `AccessUndo.LandedOverReviewed` | src/access/ops.rs:688-706 | in every run, what a landed write replaced is the document its entry would restore exactly when nothing else was put between its read and its PUT, or that document was put last |
| `AccessUndo.OwnVerdictRetiresIffUnanswered` | src/access/ops.rs:926-935 | in every run a write's own verdict leaves its entry pending exactly when its PUT was answered, landed or not; the write landed exactly when that PUT was stored |
| `AccessUndo.LandedWriteOutOfReach` | src/access/ops.rs:1093-1102 | in every run, the entry of a write that landed and was not undone has left pending exactly when it expired, the write's answer was lost, or an undo of it was spent: it came before the write landed, could not read, had its PUT refused, or met a document somebody had changed (an edit that changes nothing counts as spent with its undo) |
| `AccessRuns.LostAnswerLosesTheUndo` | src/access/api.rs:77-91 | a concrete request and run, with nobody else there: the write landed, its answer was lost, its entry is retired |
| `AccessRuns.EarlyUndoLosesTheUndo` | src/access/ops.rs:1005-1035 | a concrete request and run in which every request is answered and takes effect: an undo during the write retires the entry, and then the write lands |
| `AccessRuns.DiscardedWriteUndone` | src/access/api.rs:93-105 | a concrete request and runs: unconfirmed with the old document still there and the entry pending; then, over the same document put by another, an undo that reports success |
| `AccessUndo.UndoRestoresIffLanded` | src/access/ops.rs:1037-1068 | in every run an undo's PUT leaves the prior document: over the written one exactly when nothing else came between its own read and PUT, and what the write had replaced exactly when the write landed with nothing in between either |
| `AccessUndo.SerialChangesAreReviewed` | src/access/ops.rs:655-667 | in every run with one task at a time and no foreign change between a read and its PUT, a write replaces exactly the reviewed document by the reviewed result, and an undo exactly the written one by what the write had replaced, if it landed |
| `AccessUndo.SerialLandedOverReviewed` | src/access/ops.rs:655-667 | in every such run, what a landed write replaced is the document its entry would restore |
| `AccessRuns.UndoThenWriteRace` | src/access/ops.rs:1005-1035 | concrete requests and a run with nobody else there and every request answered: a write is confirmed over a document its user never saw, and its entry would restore one it never replaced |
| `AccessRuns.WriteThenUndoRace` | src/access/ops.rs:1005-1035 | the other order: an undo puts an older document over a confirmed write |
| `AccessUndo.GatedUndosAreNotEarly` | src/access/ops.rs:655-667 | in every run in which no undo starts while a write is in flight, no undo of a landed write read the document before it landed |
| `AccessUndo.UndoStaysInReach` | src/access/ops.rs:1083-1092 | in every such run with all reads and PUTs answered and nothing expired, a landed write stays undoable until it is undone or somebody replaces the document |
| `AccessWrite.RunKeepsInv` | src/access/ops.rs:655-935 | in every run of writes, undos, foreign changes, lost answers, discarded PUTs and restarts, every entry's status and history and every attempt in flight agree with what the tenant went through; the status by what the reports say (`AccessUndo.StatusTells`) |
| `Wraps.WrapsFile.UpsertPassword` | src/config/wraps.rs:159-170 | the password wrap is replaced where it is, or appended |
| `Wraps.WrapsFile.AddFactor` | src/config/wraps.rs:199-219 | the new file, or the refusal with the file unchanged |
| `Wraps.WrapsFile.RemoveFactor` | src/config/wraps.rs:225-235 | exactly the other factors in order, refused if there are none |
| `Wraps.WrapsFile.RenameFactor` | src/config/wraps.rs:238-250 | one title changes, or the key is not enrolled and nothing does |
| `Wraps.WrapsFile.ClearSaltIfUnused` | src/config/wraps.rs:254-258 | the salt goes exactly when no security key is left |
| `Wraps.AddedOk` | src/config/wraps.rs:199-219 | adding to a sound or new file gives a sound one |
| `Wraps.RemovedOk` | src/config/wraps.rs:225-235 | so does a removal that is not refused |
| `Wraps.RenamedOk` | src/config/wraps.rs:238-250 | and a rename |
| `Wraps.EditsKeepOthers` | src/config/wraps.rs:199-250 | every edit leaves the wraps of all other factors as they were, in order |
| `Wraps.StepTakesEffect` | src/config/wraps.rs:300-313 | what each session step does to the vault: an edit under the vault's key puts the given password where one was, appends the enrolled key with its salt, drops exactly the named factor unless it is alone, or titles the named key; under another key, or refused, the vault stays |
| `Wraps.RefusalsAreExact` | src/config/wraps.rs:199-250 | which additions, removals and renames are refused, and with what |
| `Wraps.StepChangesOnlyItsFactor` | src/config/wraps.rs:300-313 | in any state, a session's step keeps the vault's key and every factor its edit does not name |
| `Wraps.FactorsAreSafe` | src/config/wraps.rs:300-313 | in every run of sessions with stale copies, the file has a factor, at most one password, and only security keys enrolled under its salt |
| `Wraps.FactorsAreSafeFromTheStart` | src/vault/setup.rs:424-500 | the same from an unencrypted vault on, through encrypting and disabling |
| `Wraps.StaleCopyLosesFactors` | src/config/wraps.rs:124-130 | saving a session's copy whole would drop a factor added elsewhere |
| `RestartWait.Watch.Finished` | src/esv/cli.rs:311-321 | `ready` finishes only after `restarting` was seen |
| `RestartWait.Wait` | src/esv/cli.rs:346-423 | the reads made are those the environment answers, none after the wait was over or the deadline, and the result is the one they justify (when reads begin, `PausesAreExact` says, and when it succeeds, `FinishesExactly`) |
| `RestartWait.WaitIsDetermined` | src/esv/cli.rs:346-413 | that contract admits one list of reads and one result |
| `RestartWait.ReadsFollowOneAnother` | src/esv/cli.rs:367-411 | no read begins before an earlier one ended |
| `RestartWait.PausesAreExact` | src/esv/cli.rs:415-423 | the first read begins at once, the one after the restart was seen to finish without a pause, and every other one exactly POLL_INTERVAL (and the loop's lag) after the one before ended |
| `RestartWait.TimesOutAtTheDeadline` | src/esv/cli.rs:367-398 | a wait times out only on a read the deadline fell in, or because after its pause the next would begin at the deadline or later |
| `RestartWait.FinishesExactly` | src/esv/cli.rs:346-413 | the wait returns a list exactly when the startup answers say restarting and later ready with no six failures in a row, the pending list is then read after fewer than six failures, and one interval per pause plus the time the turns take fits the limit |
| `RestartWait.FinishedMeansRestarted` | src/esv/cli.rs:340-345 | a finished wait saw restarting, then ready, then a list read begun after that, all answered by the deadline |
| `RestartWait.UnreadableMeansSixFailures` | src/esv/cli.rs:403-410 | the wait is unreadable exactly when the last six reads failed |
| `RestartWait.ReadsAreBounded` | src/esv/cli.rs:415-423 | at most limit / POLL_INTERVAL + 2 reads are made |
| `ConstLint.DupConst.Declaration` | packages/rhino-local/eslint.am.config.js:113-130 | the handler reports exactly the names its innermost set holds, and adds the rest to that set only |
| `ConstLint.DupConst.Visit` | packages/rhino-local/eslint.am.config.js:95-132 | over any subtree, the sets outside are untouched, the innermost one holds its function's names, and the reports are those of the scope specification |
| `ConstLint.DupConst.Check` | packages/rhino-local/eslint.am.config.js:95-132 | over a program the reports are, in order, exactly the const identifiers an earlier one in the same innermost function shares its name with; the stack is empty again |
| `ConstLint.ReportsPerFunction` | packages/rhino-local/eslint.am.config.js:113-130 | of each function's declarations as many are reported as exceed its distinct names |
| `ConstLint.FunctionsAreIndependent` | packages/rhino-local/eslint.am.config.js:95-130 | a declaration is reported exactly when its function alone would report it |
| `ConstLint.DeclaredExactly` | packages/rhino-local/eslint.am.config.js:95-130 | the rule looks at exactly the plain names of the tree's const declarations, each with the innermost function around it in the tree |
| `ConstLint.PartsInOrder` | packages/rhino-local/eslint.am.config.js:95-130 | and at them in the order of the text |
| `ConstLint.ReportedExactly` | packages/rhino-local/eslint.am.config.js:95-130 | over a program, a name is reported exactly when an earlier const in the text has it in the same innermost function |
| `ConstLint.IsInsideLoopBody` | packages/rhino-local/eslint.am.config.js:162-168 | the climb up the parents agrees with a flag going down that loops set and functions clear |
| `ConstLint.FlagMeansNearestLoop` | packages/rhino-local/eslint.am.config.js:162-168 | that flag says some loop is around with no function between |
| `ConstLint.ConstInLoop.Visit` | packages/rhino-local/eslint.am.config.js:179-192 | the visitor's reports over a subtree are the flagged declarations, in order |
| `ConstLint.FlaggedExactly` | packages/rhino-local/eslint.am.config.js:152-168 | flagged are exactly the const declarations that are no loop's initializer and are in a loop of their own function |
| `ConstLint.InitialMeans` | packages/rhino-local/eslint.am.config.js:152-160 | a declaration is a loop's initializer exactly when its parent is a loop that has one and it stands first in it |
| `ConstLint.FlaggedInOrder` | packages/rhino-local/eslint.am.config.js:170-194 | the second rule's reports are in the order of the text, each once |
| `ConstLint.CheckLoops` | packages/rhino-local/eslint.am.config.js:170-194 | the rule reports exactly those nodes of a program |
| `Duration.ParseDuration` | src/agent/duration.rs:11-20 | trimmed text is refused, read as a bare number, or read as components |
| `Duration.Components` | src/agent/duration.rs:22-59 | whatever reading of the text as strictly ordered components there is, the result is its sum, or "too large"; text without one is refused |
| `Duration.ReadingIsUnique` | src/agent/duration.rs:23-46 | text has one such reading |
| `Duration.AcceptedIffOrderedAndFits` | src/agent/duration.rs:7-59 | other than bare numbers, text is accepted exactly when it is strictly ordered h/m/s components whose sum fits in 64 bits |
| `Duration.TrimMeans` | src/agent/duration.rs:8-10 | what is trimmed off the ends is white space and nothing else |
| `Duration.FormatMeans` | src/agent/duration.rs:61-73 | every count has one normal form (units down from a largest one that is not zero, minutes and seconds under 60, no leading zeros), and that is printed with single spaces |
| `Duration.FormatThenParse` | src/agent/duration.rs:61-73 | for every 64-bit count, parsing the printed text without its spaces gives the count |

## Left out

- Lock script: multi-master replication between nodes, the classification of Java exceptions (a call either takes effect or not, and either answers or throws), back-off jitter and logging; the caller's `work` is the time between its steps.
- LeaseClient.LockService.RenewLease: the renewed lease is a value returned, not a field of a remembered record.
- Agent daemon: sockets, the protocol, tokens and HTTP; `PutDek` accepts any key, which allows more than the check that the key opens keys.enc; locking for idleness or because the vault changed on disk is the lock event; the generation is unbounded where the source has 64 bits.
- State file: durability of the directory after a power loss (best effort in the source), permissions, and creating parent directories.
- JSON: an object is a map sorted by key, as the library builds it here, so no member order is represented; a number is its printed text, so 0.0 and -0.0 differ here outside `Canonical.LibraryEqual`; an element absent on the right replays as the array ending there.
- Access documents: rule validation and its advice, warnings, confirmation of production writes, screens and prompts; what a rule grants is an arbitrary relation between rules and requests.
- Access writes: an undo log is a map from entries to their status, and a failure to save it is not represented; a PUT takes effect, if at all, before its answer or error; a read returns the document as it is; what the screen shows meanwhile, and forgetting a tenant.
- Wraps: cryptography (a security key's wrap carries the salt it was made under), a salt that does not decode, a wraps.toml that does not parse or is missing, and moving the vault's files between modes; the vault lock makes each edit one event.
- Restart wait: progress messages and the rendering of the result.
- Lint rules: the other rules of the configuration; a syntax tree has only the kinds of node the two rules look at.
- Command-line parsing, tenant resolution, gateway retries, `pullguard`, `force`, `backup` and terminal rendering: each decides one case on its own arguments and shares no state with the components above.
