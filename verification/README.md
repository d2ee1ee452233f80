# Models of ottto's registry, money gate, source checks and service lifecycle

This project models five parts of ottto and proves what they promise, over every run, every tree, every text and
every interleaving.

1. **Claude config-slot registry** (`Slot*.dfy`). Registered slots, managed-setup and reconnect operations, an approved
   account and organization per slot, and a Bloom filter of retired reconnect ids kept in the settings file and in a
   sidecar. Each store call is a plan: the files and directories it writes, in order, and its reply. `SlotStore.FileStore`
   is the store as a mutable object whose methods load, change and write step by step; each is proved to carry out its plan
   and to give its caller what the plan promises at the next load: what it leaves (`SlotPromises.dfy`,
   `SlotRowPromises.dfy`), exactly when it is accepted (`SlotAcceptance.dfy`), which pair a slot is bound to
   (`SlotBindings.dfy`) and what happens to directories (`SlotDirectories.dfy`).
   A run (`SlotRuns.Reach`) is any sequence of calls, of calls that crash after any write or between sidecar and main file,
   of rewrites by an older daemon, and of outside changes to directories. SHA-256 digests, service names and canonical
   paths are arbitrary functions; fresh slot ids are arguments of the call.
2. **Money-equivalence gate** (`Json.dfy`, `Money*.dfy`). JSON trees with exact number text, the canonical printer, JSON
   Pointer paths (sections 3 and 4 of RFC 6901), the structural diff with scoped additions and redacted labels, digests of
   entries, and signed lists. A patch function gives the diff its meaning.
3. **Rust source structure** (`Rust*.dfy`). The tokenizer against its token pattern as a grammar (`RustPattern.dfy` finds
   ends, `RustGrammar.dfy` says what each alternative matches), the bracket matcher against a grammar of nested groups, and
   the item splitter with its recursive bodies.
4. **Move ledger and test-id map** (`Bags.dfy`, `Ledger*.dfy`, `TestIdMap.dfy`). Greedy matching with a dictionary of
   candidates against a plain list, module moves, visibility, order, and the exact condition for a clean test map.
5. **Service lifecycle** (`Lifecycle*.dfy`). The lock as the kernel sees it (open file descriptions, close-on-exec, fork,
   exec, exit, in any order), and the launchctl commands issued under it for an arbitrary executor.

`dafny verify dfyconfig.toml` checks everything. `Prelude.dfy` holds options and the order on strings, `Bags.dfy` lists
read as multisets and a stable sort.

Where a promise ends, the project says exactly where and shows a case:

- An older daemon's rewrite drops reconnect rows. A reconnect id that was live but not retired at that moment can then be
  given to another request, and no other id can: `SlotLimits.DowngradeForgetsTheUnretired` is that equivalence for every
  unobstructed request, and `SlotLimits.ReconnectIdRebound` is a run in which it happens. Without such a rewrite no
  reconnect id is ever rebound, and a retired one never is, in any run.
- Removing a slot drops its setup rows without retiring their ids. One step ends what a setup id means if and only if it
  completes a removal of its slot (`SlotLimits.IntentEndsExactly`), and `SlotLimits.SetupIdRebound` is a run in which the
  id is prepared again with another account.
- The ledger judges the matching its greedy passes find. When every base item could be at most one head item, that decides
  for all matchings (`LedgerLimits.LedgerDecides`); with equal items it can report a change of order although another
  matching has none (`LedgerLimits.GreedyCanLose`).

## Model

| member | source | states |
|---|---|---|
| `SlotFilter.RetireCorrect` | crates/ottto-core/src/claude_config_slots.rs:2487-2531 | retiring an id makes it test as retired, clears no bit and un-retires no other id |
| `SlotFilter.RetireExact` | crates/ottto-core/src/claude_config_slots.rs:2487-2531 | retiring an id sets the bits numbered by its eight digest words modulo 32768, and no other bit |
| `SlotFilter.RetiredIs` | crates/ottto-core/src/claude_config_slots.rs:2502-2516 | an id tests as retired if and only if its eight bits are set |
| `SlotFilter.CoversKeepsRetired` | crates/ottto-core/src/claude_config_slots.rs:2502-2516 | an id retired under a filter is retired under every filter with at least its bits |
| `SlotFilter.SaveReadsBack` | crates/ottto-core/src/claude_config_slots.rs:1444-1540 | a completed two-file save of valid settings is loaded back exactly, merge of both filters included |
| `SlotFilter.HalfSaveReadsBack` | crates/ottto-core/src/claude_config_slots.rs:1609-1645 | a crash after the sidecar write loads as the old settings with the new filter |
| `SlotFilter.MergeExact` | crates/ottto-core/src/claude_config_slots.rs:1521-1540 | the merged filter holds exactly the bits of the main file and of the sidecar |
| `SlotStore.ValidatePersisted` | crates/ottto-core/src/claude_config_slots.rs:1800-2018 | the validation passes accept exactly the valid settings: shapes, three uniqueness rules for slots, row ids, slot matches, capacity, at most one active operation |
| `SlotStore.CheckSlots` | crates/ottto-core/src/claude_config_slots.rs:1809-1849 | the pass over slots accepts exactly well-shaped slots with distinct ids, directories and service names, within the limit |
| `SlotStore.CheckRows` | crates/ottto-core/src/claude_config_slots.rs:1879-2010 | the passes over all rows accept exactly distinct ids and at most one active row |
| `SlotStore.CheckReconnects` | crates/ottto-core/src/claude_config_slots.rs:1861-1989 | accepts exactly reconnect rows of the right shape, one per slot, each with its registered directory or stopped, within the limit |
| `SlotStore.CheckSetups` | crates/ottto-core/src/claude_config_slots.rs:1849-2016 | accepts exactly setup rows of the right shape whose unregistered ones still fit the capacity |
| `SlotStore.OrInto` | crates/ottto-core/src/claude_config_slots.rs:1521-1540 | in-place merge of the sidecar words, word by word |
| `SlotStore.RetireId` | crates/ottto-core/src/claude_config_slots.rs:2518-2531 | setting the eight bits in place equals the pure retirement |
| `SlotStore.FileStore.LoadPersisted` | crates/ottto-core/src/claude_config_slots.rs:1438-1540 | load, migrate, merge and validate, with each error |
| `SlotStore.FileStore.WritePersisted` | crates/ottto-core/src/claude_config_slots.rs:1621-1645 | sidecar then main file, nothing else changes |
| `SlotStore.FileStore.SetUpkeepConsent` | crates/ottto-core/src/claude_config_slots.rs:389-400 | on an intact store it is refused only for a wrong schema; the next load reads the chosen consent and is otherwise unchanged; held and frozen ids and all filter bits are kept |
| `SlotStore.FileStore.RegisterDirectory` | crates/ottto-core/src/claude_config_slots.rs:1380-1396 | with a fresh id it is accepted if and only if the directory is well-formed, its path and service are free and there is room; then it is registered once, unapproved, and nothing else changes; refused, it leaves no trace |
| `SlotStore.FileStore.AdmitManaged` | crates/ottto-core/src/claude_config_slots.rs:444-487 | accepted if and only if the arguments and schema are good, the directory exists and the slot is managed there already or, not registered, has a free directory, no row with another one, and room (its own reserved place counts); it leaves exactly one managed slot with that id and directory and every other slot as it was; a given pair replaces any approval the slot had; repeating it changes nothing; refused, it leaves no trace |
| `SlotStore.FileStore.PrepareManaged` | crates/ottto-core/src/claude_config_slots.rs:548-728 | an unknown id is accepted if and only if arguments and schema are good, it is no reconnect and not retired, no operation is under way, there is room, the new slot id is well-formed and unused and the directory well-formed and free, a reusable root a direct child nothing uses; a known id if and only if it asks for the same and its intent can be resumed and registered. Accepted, a first prepare appends one managed slot and the newest row, waiting for login; a replay only resumes and registers its intent; the directory exists, and asking again changes nothing. Directories are only added, and only its own and the root |
| `SlotPrepare.ReplaySettles` | crates/ottto-core/src/claude_config_slots.rs:579-645 | whatever state an intent was left in, a replay that succeeds ends with its row registered under its own slot and directory, identity unchanged |
| `SlotPrepare.ReplaySaves` | crates/ottto-core/src/claude_config_slots.rs:579-645 | an accepted replay makes a stopped or unregistered intent wait for login, registers an unregistered one, and changes nothing else |
| `SlotPrepare.FinalizeSettles` | crates/ottto-core/src/claude_config_slots.rs:1673-1712 | a finalization that succeeds registers the intent's slot and directory, keeps its identity and leaves valid settings |
| `SlotStore.FileStore.BeginReconnect` | crates/ottto-core/src/claude_config_slots.rs:752-905 | an unknown id is accepted if and only if arguments and schema are good, it is no setup and not retired, nothing else is under way, its slot is registered, every row of the slot has ended, and there is a place for the row; a known id if and only if it asks for the same on its registered slot and, when stopped, nothing else is under way. Accepted, a new row is the newest, waits for login and expects the requested pair, and the earlier reconnect of the slot is gone and retired with exactly its eight bits; a known one is only resumed; all else is unchanged, asking again does nothing, and a refusal leaves no trace |
| `SlotStore.FileStore.TransitionOperation` | crates/ottto-core/src/claude_config_slots.rs:1083-1168 | accepted if and only if arguments and schema are good, the id is known, and the row is stopped or no two of what it expects, what the call expects and what was observed differ, the new state leaves one operation under way, and an unregistered setup stays preparing or stopped. Accepted, the row takes the observation and keeps its identity and age; each expected half is the first present of the value before, the call's and the observed one; a completed proof is the approval of its slot and no other slot changes; a reconnect that ends is retired, with exactly its bits; a stopped row keeps everything; refused, it leaves no trace |
| `SlotStore.FileStore.StopWaiting` | crates/ottto-core/src/claude_config_slots.rs:1171-1214 | accepted if and only if the id is known; its operation is then complete or stopped, so not active, and nothing else changes; a directory is dropped if and only if it is that of a never-registered setup that had not ended, and empty |
| `SlotStore.FileStore.EnsureApprovedBinding` | crates/ottto-core/src/claude_config_slots.rs:1256-1309 | slots that have an approval and all other slots are untouched; when the first look finds nothing to approve it answers with the pair that binds the slot and nothing is written; otherwise the locked look approves the latest proof, else the observed pair when every operation of the slot is complete, and the reply is the pair that binds the slot afterwards; refused only for bad arguments, a bad schema or a disk that does not load |
| `SlotStore.FileStore.AdoptReconnectIdentity` | crates/ottto-core/src/claude_config_slots.rs:1331-1378 | adopts if and only if arguments and schema are good, the id is an active reconnect, its slot holds an observed approval, and it was not requested for another pair; the row then expects and observes exactly the proven pair; otherwise nothing is written |
| `SlotStore.FileStore.RemoveSlot` | crates/ottto-core/src/claude_config_slots.rs:1398-1435 | accepted if and only if the slot is registered; then the slot and every row on it are gone, every reconnect id that went is retired, with exactly the bits of those ids, and all else stays |
| `SlotAcceptance.FirstPrepareAccepted` | crates/ottto-core/src/claude_config_slots.rs:655-728 | on valid settings an unknown, unretired id is prepared if and only if nothing else is under way, there is room, and slot id, directory and reusable root are well-formed and unused |
| `SlotAcceptance.ReplayAccepted` | crates/ottto-core/src/claude_config_slots.rs:579-653 | a known intent is replayed if and only if, when stopped, nothing else is under way and, when unregistered, its directory is free and all rows on its slot agree on it |
| `SlotAcceptance.SuccessorAccepted` | crates/ottto-core/src/claude_config_slots.rs:820-905 | a new reconnect is accepted if and only if its id is free, nothing else is under way, its slot is registered with every row ended, and a row is free or gives way |
| `SlotAcceptance.KnownReconnectAccepted` | crates/ottto-core/src/claude_config_slots.rs:774-819 | a known reconnect is accepted if and only if the request matches its row and a stopped one can resume |
| `SlotAcceptance.TransitionAccepted` | crates/ottto-core/src/claude_config_slots.rs:1083-1168 | a transition is accepted if and only if the row is stopped, or no two present values differ and the state fits |
| `SlotAcceptance.AdoptAccepted` | crates/ottto-core/src/claude_config_slots.rs:1331-1378 | an identity is adopted if and only if the reconnect is under way, its slot holds an observed approval and no other pair was requested |
| `SlotAcceptance.NewAdmission` | crates/ottto-core/src/claude_config_slots.rs:444-487 | an unregistered slot is admitted if and only if its directory is free, its rows have that directory, and there is room |
| `SlotRowPromises.TransitionedIs` | crates/ottto-core/src/claude_config_slots.rs:1099-1168 | what an accepted transition leaves, row by row, slot by slot and bit by bit |
| `SlotBindings.BindingIs` | crates/ottto-core/src/claude_config_slots.rs:2366-2421 | the pair a slot is bound to is the right one: the full expected pair of its operation under way, else an approval that operation does not contradict; at rest its approval, else its latest proof |
| `SlotBindings.LatestIs` | crates/ottto-core/src/claude_config_slots.rs:2375-2420 | of the rows that qualify, the last of those with the greatest creation sequence is picked |
| `SlotBindings.EnsureSteps` | crates/ottto-core/src/claude_config_slots.rs:1256-1309 | on valid settings the locked look never fails, writes exactly what is due, and replies with the pair that binds the slot afterwards |
| `SlotDirectories.DirsAfter` | crates/ottto-core/src/claude_config_slots.rs:1171-1214 | only a prepare adds directories, its own and the root; only a stop drops one, exactly an empty one of an abandoned setup; no other call touches any |
| `SlotPromises.CallKeeps` | crates/ottto-core/src/claude_config_slots.rs:1542-1645 | every call on an intact store leaves it intact, loses no filter bit, and keeps every held reconnect id held and every frozen id frozen |
| `SlotEvolution.CallChain` | crates/ottto-core/src/claude_config_slots.rs:548-905 | every save of every call keeps validity, agreement of hashes, traceability of rows and all filter bits, from the save before it |
| `SlotRuns.ReachGood` | crates/ottto-core/src/claude_config_slots.rs:1521-1645 | every reachable disk loads, its sidecar covers the main file, its rows agree |
| `SlotRuns.RunKeeps` | crates/ottto-core/src/claude_config_slots.rs:1542-1645 | the induction principle for runs with crashes and rewrites |
| `SlotGuarantees.ReconnectIdNeverRebound` | crates/ottto-core/src/claude_config_slots.rs:774-905 | an issued reconnect id stays a row with its first slot, directory, target and requested pair or tests as retired, and is never a managed setup |
| `SlotGuarantees.FilterOnlyGrows` | crates/ottto-core/src/claude_config_slots.rs:1521-1540 | in any run the loaded filter bits only grow |
| `SlotGuarantees.RetirementIsPermanent` | crates/ottto-core/src/claude_config_slots.rs:2502-2531 | in any run, rewrites included, a retired id stays retired and gets no row it did not have |
| `SlotLimits.DowngradeForgetsTheUnretired` | crates/ottto-core/src/claude_config_slots.rs:1521-1540 | after an older daemon's rewrite an unobstructed request with a formerly live reconnect id, on any registered slot, is accepted if and only if the id was not retired, and then the id names that request |
| `SlotLimits.ReconnectIdRebound` | crates/ottto-core/src/claude_config_slots.rs:774-905 | a run in which a live reconnect id is given to another slot after a rewrite |
| `SlotLimits.FreeIdAccepted` | crates/ottto-core/src/claude_config_slots.rs:820-905 | on settings without reconnect rows an unobstructed reconnect is accepted if and only if its id is not retired |
| `SlotGuarantees.ReachableWithinBounds` | crates/ottto-core/src/claude_config_slots.rs:2551-2655 | every reachable disk loads valid settings: at most one active operation, registered plus reserved within nine, remaining capacity never negative |
| `SlotGuarantees.EverySaveIsValid` | crates/ottto-core/src/claude_config_slots.rs:608-645 | every save on a reachable disk would pass validation, those that skip it included |
| `SlotGuarantees.StopNeverRefused` | crates/ottto-core/src/claude_config_slots.rs:1171-1214 | on a reachable disk stop succeeds if and only if the id is known |
| `SlotGuarantees.RemoveNeverRefused` | crates/ottto-core/src/claude_config_slots.rs:1398-1435 | on a reachable disk remove succeeds if and only if the slot is registered |
| `SlotGuarantees.IdentityAgreement` | crates/ottto-core/src/claude_config_slots.rs:1099-1168 | in every reachable state observed hashes equal expected ones; a target-bound operation observes and proves only its requested pair |
| `SlotGuarantees.AdoptKeepsTarget` | crates/ottto-core/src/claude_config_slots.rs:1331-1378 | adopting another pair than a target-bound operation requested writes nothing |
| `SlotApprovals.SavesAccounted` | crates/ottto-core/src/claude_config_slots.rs:1256-1309 | each approval in each save was there, was proven by a completed operation on that slot and directory, was admitted, or was observed under first use |
| `SlotApprovals.EnsureAccounted` | crates/ottto-core/src/claude_config_slots.rs:2366-2435 | ensuring an approval leaves every slot that already has one untouched |
| `SlotApprovals.StepAccounted` | crates/ottto-core/src/claude_config_slots.rs:1598-1619 | the same over one step of any kind, crashes included |
| `SlotApprovals.ApprovalProvenance` | crates/ottto-core/src/claude_config_slots.rs:433-487 | in every reachable state a setup- or reconnect-sourced approval goes back to a proof of that pair on the same slot and directory, or to an admission with it |
| `SlotApprovals.ObservationNeverReplaces` | crates/ottto-core/src/claude_config_slots.rs:2341-2435 | an observed approval was there before or was stored where there was none and every operation was Complete at the locked look |
| `SlotPrepare.IntentSurvives` | crates/ottto-core/src/claude_config_slots.rs:1171-1214 | a journaled intent keeps slot and directory through stops, crashes, refused removals, rewrites and all other calls until a removal of its slot completes |
| `SlotLimits.IntentEndsExactly` | crates/ottto-core/src/claude_config_slots.rs:1398-1435 | one step ends what a setup id means if and only if it carries a removal of its slot through to its save |
| `SlotLimits.EmptyPrepareAccepted` | crates/ottto-core/src/claude_config_slots.rs:655-728 | an empty registry accepts every well-formed prepare whose id is not retired, and registers exactly that intent |
| `SlotLimits.SetupIdRebound` | crates/ottto-core/src/claude_config_slots.rs:1419-1421 | a run in which a setup id is prepared, its slot removed, and the id prepared again with another account and slot |
| `SlotPrepare.KnownPrepare` | crates/ottto-core/src/claude_config_slots.rs:579-645 | an accepted replay ends with exactly one managed registration of the intent; asking again only re-creates the directory |
| `SlotPrepare.ReplayOnDisk` | crates/ottto-core/src/claude_config_slots.rs:705-728 | the same for the files: the replay settles and repeating it is the identity on the disk |
| `SlotPrepare.ReplayConverges` | crates/ottto-core/src/claude_config_slots.rs:1673-1712 | after a crash or stop anywhere in a run every successful replay converges to that one registration |
| `Json.EscapeDenotes` | scripts/money_equivalence.py:339-348 | each character of a string is printed as a shortest text that denotes it (section 7 of RFC 8259) |
| `Json.TextDenotes` | scripts/money_equivalence.py:339-348 | between its quotes a string is printed as such texts, one for each of its characters in order |
| `Json.DecimalIs` | scripts/money_equivalence.py:404-446 | the numeral of an index or ordinal denotes it and has no leading zero |
| `Json.CanonicalUnique` | scripts/money_equivalence.py:339-348 | a canonical text followed by anything that may follow a value is read in one way only |
| `Json.CanonicalInjective` | scripts/money_equivalence.py:339-348 | two trees with one canonical text are the same tree |
| `MoneyPaths.LeafRoundTrip` | scripts/money_equivalence.py:222-222 | decoding the last segment of an escaped path gives the label back, for every string |
| `MoneyPaths.ChildInjective` | scripts/money_equivalence.py:404-406 | a path and one more label can both be read off the longer path |
| `MoneyPaths.PointerInjective` | scripts/money_equivalence.py:404-406 | distinct label sequences give distinct path strings |
| `MoneyPaths.DigestIdentifies` | scripts/money_equivalence.py:355-361 | with a collision-free hash an entry digest identifies raw path and value |
| `MoneyDiff.ObjectMember` | scripts/money_equivalence.py:419-438 | the edits of two objects are exactly the added keys, the removed keys and the edits under common keys |
| `MoneyDiff.ArrayMember` | scripts/money_equivalence.py:439-446 | the edits of two arrays are exactly those at common indexes and the two tails |
| `MoneyDiff.EditsBelow` | scripts/money_equivalence.py:408-448 | every edit's raw path lies at or below its node |
| `MoneyDiff.OneEditPerPath` | scripts/money_equivalence.py:408-448 | one diff has at most one edit per raw path |
| `MoneyPatch.PatchIsErasedHead` | scripts/money_equivalence.py:408-448 | patching the base with all edits but some allowed additions gives the head without those additions, at every node |
| `MoneyPatch.DiffPatchRoundTrip` | scripts/money_equivalence.py:381-448 | for all trees and declarations, patching the base with the recorded edits and allowed additions gives exactly the head |
| `MoneyPatch.ObservedPatch` | scripts/money_equivalence.py:381-449 | patching with the observed edits alone gives the head without its allowed additions |
| `MoneyPatch.SignaturePinsHead` | scripts/money_equivalence.py:449-463 | two heads that match one signed list against one base are equal up to allowed additions |
| `MoneyGate.ScopeIsPosition` | scripts/money_equivalence.py:408-414 | the scope the walk derives from display paths is the one the position in the two trees gives |
| `MoneyGate.GateIsExact` | scripts/money_equivalence.py:408-463 | without a signature the gate passes if and only if the head is the base plus permitted additions and nothing else; a declared key is permitted only where no path of the base, at any depth, ends in it |
| `MoneyGate.KeysOccur` | scripts/money_equivalence.py:331-336 | a key is collected if and only if some path of the tree, at any depth, ends in it |
| `MoneyGate.IdenticalPasses` | scripts/money_equivalence.py:462-463 | identical receipts always pass |
| `MoneyDisplay.LabelInjective` | scripts/money_equivalence.py:419-422 | labels within one object are distinct |
| `MoneyDisplay.OneEditPerDisplayPath` | scripts/money_equivalence.py:404-422 | edits of one diff with one display path are the same edit |
| `MoneyDisplay.LabelIs` | scripts/money_equivalence.py:419-422 | a key that neither the vocabulary nor a declaration names is shown as the number of keys before it in the union of both sides |
| `MoneyDisplay.ReportsOnlyKnownKeys` | scripts/money_equivalence.py:400-448 | every segment of every reported path is a key the vocabulary or a declaration names, an index or an ordinal |
| `MoneyRecorder.Recorder.WalkInto` | scripts/money_equivalence.py:400-448 | the recursive walk that appends to the lists records exactly the diff, in order |
| `MoneyRecorder.LogOfWalk` | scripts/money_equivalence.py:400-449 | the observed list is the keys of the remaining edits in order, and each of the four path lists gains exactly the display paths of its own class, in order |
| `MoneyRecorder.Tally` | scripts/money_equivalence.py:368-374 | a Counter with subtraction holds the difference of the two counts, negative ones included |
| `MoneyRecorder.SignedMismatch` | scripts/money_equivalence.py:368-378 | missing and extra are the two multiset differences, in key order; both are empty if and only if the lists are equal as multisets |
| `MoneyRecorder.Gate` | scripts/money_equivalence.py:381-463 | with a signature the gate passes if and only if the observed keys are the signed ones as multisets; without one if and only if the head is the base plus permitted additions |
| `MoneyDecode.DecodeBatches` | scripts/money_equivalence.py:315-324 | every batch of a list body is decoded in order or the receipt is refused |
| `MoneyDecode.DecodeReceipt` | scripts/money_equivalence.py:293-328 | fails exactly on receipts that are no nonempty list of decodable elements; otherwise the tree is element by element the decoded one and the paths are exactly its envelopes |
| `MoneyDecode.ElementIs` | scripts/money_equivalence.py:303-328 | an element decodes to a tree if and only if its body is that object, or a nonempty list whose batches each decode to the object in their place |
| `RustGrammar.StringEndIs` | scripts/rust_source_tree.py:36 | a string literal ends at a quote if and only if the text between is spelled by single characters other than quote and backslash and backslashes with any one character |
| `RustGrammar.CharEndIs` | scripts/rust_source_tree.py:38 | a char literal ends where one plain character or one well-formed escape stands between its quotes, and nowhere else |
| `RustGrammar.RawIs` | scripts/rust_source_tree.py:35 | a raw string opens if and only if `r`, `br` or `cr` and hashes lead to a quote, with just those hashes |
| `RustGrammar.IdentEndIs` | scripts/rust_source_tree.py:39-40 | the longest name is found, with the raw prefix where a name follows it |
| `RustGrammar.MatchIs` | scripts/rust_source_tree.py:31-45 | the match is the longest match of the first alternative, in the order of the pattern, that matches at all |
| `RustGrammar.FirstFitUnique` | scripts/rust_source_tree.py:31-45 | there is one such alternative and one such end |
| `RustGrammar.BlockEndIs` | scripts/rust_source_tree.py:84-94 | a block comment ends where the edges found one after the other first close all comments, and nowhere else |
| `RustGrammar.TokenExact` | scripts/rust_source_tree.py:69-113 | a token is read at a position if and only if the grammar of the pattern, of nested comments and of closing raw strings gives that token with that kind |
| `RustTokens.CloseBlock` | scripts/rust_source_tree.py:86-94 | searching comment edges finds the end that reading nested comments character by character finds |
| `RustTokens.ReadToken` | scripts/rust_source_tree.py:73-111 | one turn of the loop gives the token the grammar reads at the position, or the error of the alternative that never closes |
| `RustTokens.Tokenize` | scripts/rust_source_tree.py:69-113 | tokens are nonempty, lie end to end, and each is the one the grammar reads at its start; an error is that of the first position where the grammar reads none |
| `RustTokens.Lossless` | scripts/rust_source_tree.py:69-113 | the tokens' texts join to the source text |
| `RustTokens.TokensUnique` | scripts/rust_source_tree.py:69-113 | a text has one tokenization |
| `RustTokens.FailureIsExact` | scripts/rust_source_tree.py:69-113 | a text that has a tokenization does not fail |
| `RustBrackets.ScanIsGrammar` | scripts/rust_source_tree.py:144-159 | the stack scan ends empty if and only if the text is in the grammar of nested groups |
| `RustBrackets.MatchBrackets` | scripts/rust_source_tree.py:144-159 | succeeds if and only if the text is in the grammar; then the two tables are inverse, pair every bracket with one of its kind, and pairs are nested or disjoint |
| `RustBrackets.MatchingUnique` | scripts/rust_source_tree.py:144-159 | there is only one such pairing |
| `RustBrackets.PairsInText` | scripts/rust_source_tree.py:144-159 | in the text every opening bracket token is paired with a later closing one of its own shape, and every closing one with an opening one |
| `RustItems.NextCode` | scripts/rust_source_tree.py:178-183 | the first token at or after an index, within the range, that is no white space or comment |
| `RustItems.FindEnd` | scripts/rust_source_tree.py:366-381 | the end is that of the first `;`, or brace group unless only `;` ends the item, outside all brackets opened in the range; an error if and only if there is none; no bracket is split and the range is not left |
| `RustItems.Finish` | scripts/rust_source_tree.py:280-289 | an item takes the comment on its own line if and only if there is one in the range |
| `RustItems.CommentItem` | scripts/rust_source_tree.py:237-242 | pending comments become an item without trailing white space |
| `RustItems.DocItem` | scripts/rust_source_tree.py:206-222 | a run of inner docs without an empty line becomes one item, as long as possible |
| `RustItems.ReadHead` | scripts/rust_source_tree.py:244-267 | the keyword is the first token after comments and attributes, with exactly the attributes before it; an inner attribute is recognised if and only if it leads; an error only when nothing else is left in the range |
| `RustItems.ReadItem` | scripts/rust_source_tree.py:244-278 | the item starts at its first token, is an inner attribute or a keyword item as its head says, and splits no bracket pair; on error no item can be read there |
| `RustItems.ReadKeyword` | scripts/rust_source_tree.py:268-278 | the item has the attributes before its keyword, the kind its keyword gives it, the first end its rule knows, and members that tile the inside of its braces; an error only for an unclassified keyword, a missing end or a broken body |
| `RustItems.Parse` | scripts/rust_source_tree.py:196-235 | terminates with items that tile the range, recursively, plain comments standing alone only before inner docs or at the end; or with the error of the first item that cannot be read |
| `RustItems.InOrder` | scripts/rust_source_tree.py:196-235 | items of a tiling are ordered and disjoint in tokens and in text, and no item splits a bracket pair |
| `RustItems.Covers` | scripts/rust_source_tree.py:196-235 | every token but white space is in exactly one item |
| `RustItems.MembersInside` | scripts/rust_source_tree.py:270-275 | members lie strictly between their container's braces, one level deeper, and cover everything there exactly once |
| `RustItems.LexFile` | scripts/rust_source_tree.py:139-160 | a file gives a tiling of all its tokens, each the one the grammar reads, or an error that is one of: a position without a token, brackets outside the grammar, an item that cannot be read; unbalanced brackets always give an error |
| `LedgerMatch.MatchUnits` | scripts/check_move_ledger.py:474-498 | units are conserved, pairs have equal keys, same-file pairs come first and are as many as possible, no unmatched units share a key; the dictionary finds the pairs the plain list search finds |
| `LedgerMatch.SamePassExhausts` | scripts/check_move_ledger.py:482-489 | after the first pass no unmatched units share key and file |
| `LedgerMatch.AnyPassExhausts` | scripts/check_move_ledger.py:490-495 | after the second pass no unmatched units share a key |
| `LedgerMatch.PairsPerKey` | scripts/check_move_ledger.py:474-498 | per key there are min(base, head) pairs |
| `LedgerMatch.PairsPerFile` | scripts/check_move_ledger.py:482-489 | per key and file there are min(base, head) same-file pairs |
| `LedgerVisibility.ScopeOf` | scripts/check_move_ledger.py:434-456 | following the parts of a path one by one gives the reach: exactly the modules at or below it see an item with this token |
| `LedgerVisibility.ScopeOpens` | scripts/check_move_ledger.py:434-456 | a module sees an item if and only if it is at or below the reach: everywhere for `pub`, the own subtree for private and `pub(self)`, the parent's for `pub(super)`, the first segment's for `pub(crate)`, and for `pub(in ..)` that of the module its parts lead to step by step |
| `LedgerVisibility.SupersThenDown` | scripts/check_move_ledger.py:446-456 | leading `super` parts drop as many modules and the plain parts after them go down again |
| `LedgerVisibility.ChildKeepsReach` | scripts/check_move_ledger.py:45-47 | `pub(super)` in a direct child reaches exactly as far as private in the parent |
| `LedgerVisibility.PathKeepsReach` | scripts/check_move_ledger.py:45-47 | `pub(in M)` anywhere in the crate reaches exactly as far as private in M |
| `LedgerVisibility.ModuleMoves` | scripts/check_move_ledger.py:501-517 | the result holds exactly the modules gone at head whose whole subtree went to one place, with that place |
| `LedgerVisibility.MovesCoherent` | scripts/check_move_ledger.py:501-517 | nested modules that moved went to corresponding places |
| `LedgerVisibility.MovedAny` | scripts/check_move_ledger.py:574-578 | taking the longest moved prefix gives the reach that any moved prefix gives |
| `LedgerVisibility.HomeFollows` | scripts/check_move_ledger.py:501-517 | an item is now where its moved module takes its path |
| `LedgerVisibility.IntactSubtree` | scripts/check_move_ledger.py:46-48 | in a subtree that moved intact private, `pub(self)` and `pub(super)` keep their reach |
| `LedgerVisibility.UnmovedKeepsReach` | scripts/check_move_ledger.py:566-583 | an item that keeps its module and a token that reaches its own ancestors is never widened |
| `LedgerVisibility.MoveReach` | scripts/check_move_ledger.py:574-578 | the loop over prefixes computes the moved reach |
| `LedgerVisibility.CheckVisibility` | scripts/check_move_ledger.py:566-590 | no failure if and only if at every place the head reach lies inside the moved base reach, or the item is allowed; outside the tree, if and only if the tokens are equal |
| `LedgerVisibility.InsideMeans` | scripts/check_move_ledger.py:572-583 | a place is not widened if and only if every module that sees the item at head lies in its base reach, carried along by the moves |
| `LedgerVisibility.UnmovedWidens` | scripts/check_move_ledger.py:566-590 | an unmoved item that only its ancestors' subtrees saw is widened if and only if some module sees it at head that did not at base |
| `LedgerVisibility.PubIsReported` | scripts/check_move_ledger.py:566-590 | such an item made `pub` where it was not seen from everywhere is always reported, unless it is allowed |
| `LedgerVisibility.AsMapLast` | scripts/check_move_ledger.py:571-573 | of several tokens at one place the last counts, and a place without one is absent |
| `LedgerCheck.ExplainDifferences` | scripts/check_move_ledger.py:598-616 | the report names every lost and every gained item exactly once, twins by label together; it is empty if and only if there is none |
| `LedgerCheck.CheckPaths` | scripts/check_move_ledger.py:555-563 | raises if and only if the literal lists differ in length; otherwise no failure if and only if all targets exist and have equal bytes |
| `LedgerCheck.CheckOrder` | scripts/check_move_ledger.py:543-551 | no failure if and only if items that go from one file to one file keep their order |
| `Bags.SortBy` | scripts/check_move_ledger.py:532-544 | sorts stably: the result is a sorted permutation in which ties keep every relation the list had from left to right |
| `LedgerCheck.Check` | scripts/check_move_ledger.py:520-552 | for the matching the two greedy passes find: no failure if and only if it is a bijection of base and head items, byte for byte or re-wrapped, with depth, attributes, targets, visibility and order kept |
| `LedgerLimits.LedgerDecides` | scripts/check_move_ledger.py:520-552 | when every base item could be at most one head item, the ledger's verdict holds if and only if some matching only moves items |
| `LedgerLimits.GreedyCanLose` | scripts/check_move_ledger.py:474-498 | two equal items around a third that leave in different directions: the greedy pairs change the order while another matching only moves items |
| `TestIdMap.Leaf` | scripts/check_test_id_map.py:86-87 | the name after the last separator, with none left in it |
| `TestIdMap.RowsGone` | scripts/check_test_id_map.py:124-129 | the rows reported are the base table minus the head table as multisets |
| `TestIdMap.RowsAdded` | scripts/check_test_id_map.py:130-134 | the rows taken are, in order, those the head table adds |
| `TestIdMap.AddedIsDifference` | scripts/check_test_id_map.py:124-134 | as a multiset they are the head table minus the base table |
| `TestIdMap.ApplyRows` | scripts/check_test_id_map.py:151-163 | no row is refused if and only if all rows are proper renames that fit together into the removed and the added tests |
| `TestIdMap.ExactTotals` | scripts/check_test_id_map.py:140-149 | exact renames imply equal totals and equal function names |
| `TestIdMap.CompareTarget` | scripts/check_test_id_map.py:138-171 | no problem if and only if the rows match exactly the removed with the added tests; then the pairs are a bijection that keeps function names and whose proper renames are the rows |
| `TestIdMap.Compare` | scripts/check_test_id_map.py:119-172 | the same for all targets and the table: no problem if and only if no base row is gone and every target is exact |
| `LifecycleLock.StepInv` | crates/ottto-core/src/service_lifecycle.rs:90-141 | every step keeps: commands hold their copy, copies are known, the winner owns the lock while a copy exists |
| `LifecycleLock.Exclusion` | crates/ottto-core/src/service_lifecycle.rs:90-185 | in every interleaving, kills included, a second acquire succeeds only after the first holder let go and every command ever spawned for it, with all descendants, has exited, and no process at all has a copy of the first description |
| `LifecycleLock.NeverTwo` | crates/ottto-core/src/service_lifecycle.rs:90-141 | of two transactions at most one has anything alive |
| `LifecycleLock.HeldExactly` | crates/ottto-core/src/service_lifecycle.rs:126-141 | with no process between fork and exec the lock is held if and only if something of the transaction is left |
| `LifecycleKickstart.AcquirePath` | crates/ottto-core/src/service_lifecycle.rs:107-123 | polls only while contended and in time, at least once; locked, busy or refused by the last answer |
| `LifecycleKickstart.Session.IsLoaded` | crates/ottto-core/src/local_service.rs:146-158 | one print; loaded, absent for codes 3 and 113, otherwise unknown |
| `LifecycleKickstart.Session.WaitLoaded` | crates/ottto-core/src/local_service.rs:161-172 | at most 20 prints, stopping at the first that does not say absent |
| `LifecycleKickstart.Session.BootstrapAgent` | crates/ottto-core/src/local_service.rs:119-143 | one bootstrap; only a conclusive exit failure is reconciled by waiting |
| `LifecycleKickstart.Session.EnsureLoaded` | crates/ottto-core/src/local_service.rs:106-116 | bootstraps only after a report of absence with a plist present |
| `LifecycleKickstart.Session.KickstartWith` | crates/ottto-core/src/local_service.rs:81-103 | no command when busy or refused; otherwise exactly the described commands and result |
| `LifecycleKickstart.KickstartSafe` | crates/ottto-core/src/local_service.rs:81-172 | for every executor: no bootout or kill flag, at most one bootstrap and right after a print that said absent, at most one kickstart and last, nothing after an inconclusive print, at most 24 commands; success means the kickstart succeeded |

## Left out

- File I/O, permissions, atomic rename and Keychain: a store is two file values and a set of directories; an I/O failure is a crash at that write.
- The older daemon is a rewrite of the main file that drops the fields it does not know; its own transitions are not modelled.
- Status output, launch commands, legacy replay and read-only queries of the registry: they change nothing.
- The transaction lock of the registry: calls are atomic except for crashes; the one call with an unlocked first look is modelled with it.
- SHA-256, NFC, serde and the JSON text decoder: arbitrary functions; a collision-free hash is a hypothesis where it is needed.
- Strings are sequences of Unicode scalar values: lone surrogates, which the Python scripts let through, are not represented.
- Parsing and validating the declaration block of a change request (`parse_declarations`, `_check_money`): only its refusal of keys that look like redaction labels is used, as the hypothesis of `MoneyDisplay.OneEditPerDisplayPath`.
- Unicode classes of the token pattern are arbitrary functions. The pattern is a list of alternatives, each a grammar of its own whose longest match is taken; backtracking inside an alternative is not modelled, and every one of them is greedy.
- Item names, squashed attribute texts and classification by keyword (`_classify`): classification is an arbitrary function of position and range, so the results hold for every classification.
- The module tree (`build_tree`), git access, and the reading of test lists and rename tables.
- Reflow details (`fn_reflow`, `struct_reflow`) and text normalisation: a unit carries its text, and its reflow key is an arbitrary function.
- LedgerCheck.ExplainDifferences: does not model the text of the messages or how changed and removed items interleave in the report.
- Visibility tokens are values, their spelling is not parsed; notes about narrowed visibility are not modelled.
- Never-retry decisions and suggested rows of the test-id check.
- Output collection, kill and reap of a command (`collect`, `complete`): time and output relay; a command's exit is a step of the lock model at any time.
- LifecycleLock.Exclusion: assumes that commands do not close the inherited descriptor themselves, which launchctl does not know about.
- Ownership and mode checks of the lock file and its directory.
