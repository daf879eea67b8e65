# Verification of the manyhands safety core

Dafny models of the parts of manyhands that must not go wrong when processes race,
crash or repeat themselves, with proofs about all runs and all inputs. One module per
component:

| module | component |
|---|---|
| `GuardElection` | the installation guard, a bakery election over claim directories |
| `InstallationLease` | the owner directory that is published, taken over and released inside the guard |
| `RepositoryLease` | the mkdir lock of a repository with takeover claim, relinquish marker and generation fence |
| `Delivery` | compare-and-set delivery with crash recovery, under the durable-result layer |
| `ProofBinding` | the binding of proof strategies to validation obligations |
| `ArgumentQuoting`, `RequestCodec`, `Sha256`, `Sha256KnownAnswer` | the pure parts of the native process custodian |
| `WavePool`, `ExecutionBase` | the bounded worker pool with its serialized journal, and the artifact order under a node |
| `ResourceCatalog`, `GraphSearch` | resolution, containment and overlap of resources, and the bounded neighbourhoods |
| `RepositoryOverlay` | tree overlays and their chains |
| `CanonicalJson`, `GoalContract` | canonical JSON and the digest of a goal contract |
| `EffectReceipts`, `ReplayCache` | replay of physical effect receipts, and the replay cache of the local IPC server |
| `Options`, `Sorting`, `PosixPaths` | optional values, sorting by a strict total order, path segments |

`dafny verify dfyconfig.toml` checks all of it.

## How the source is rendered

Protocols between processes are state machines: `Enabled` says when a step can happen,
`Apply` what it does, a step is one file operation, one git operation or the code between
two awaits, and every theorem is about every interleaving. Loops and objects of a single
process are methods and classes, each proved to compute a specification function about
which the lemmas then speak.

A configuration parameter stands for what the environment may do (`staleRuleIsSafe`,
`checked`, `moves`, `faults`, `drift`, `recordingFails`). Where a promise depends on
the environment, one lemma states for exactly which value of the parameter it holds, with
a reachable bad state for the others.

Assumptions:

- Guard and lease: the two-second rule never removes the claim of a live contender
  (`staleRuleIsSafe`; mutual exclusion and the safety of the installation lease hold exactly
  with it); claim ids and nonces are fresh; `localeCompare` is a strict total order on claim
  ids; the probe answers `dead` or `different` only for a process that is gone.
- Repository lease: a live acquirer writes its owner file within the grace period after its
  `mkdir`, so only a directory that has carried a claim for that long without an owner file
  is known to be abandoned (the read before the claim may time out on any directory);
  `isProcessAlive` reports a process dead only when it is. A heartbeat only refreshes what
  `ownerIsLive` answers for a live process anyway, so it is not a step of the model.
- Delivery: `reset --hard` is one step, nobody edits the checkout while an attempt runs
  under its lease, a commit determines its tree, and the attempts of one effect do not
  overlap. A tree has two parts, the tracked files outside and inside the directories that
  `target-cleanliness.ts` exempts; status is judged by the first, `git diff` and
  `reset --hard` work on both.
- Catalog: a digest of a locator identifies the locator; the tree is well formed as
  `ResourceCatalog.WellFormed` spells out (no blob path is a directory prefix of another,
  every module and symbol has its blob, a package below the root has its manifest).
- Identity: the hasher is injective where a lemma says so; `localeCompare`, and the order in
  which a canonical object enumerates its keys (integer-like keys first, then the sorted
  ones), are strict total orders except in the lemmas that say what ties do; a number is its
  JSON text, so 0 and -0 are one number.
- Replay cache: observation times do not decrease.

## Where the code and what it promises differ

- `installation-lease.ts:335-338` removes a claim that looks as if it had been choosing for
  two seconds, judged by a ticket read earlier. Without an assumption on that rule two
  contenders can be inside (`GuardElection.StaleRuleAdmitsTwo`), a takeover can rename the
  directory of a holder (`InstallationLease.ReachEvicted`), and two live processes can hold the
  lease (`InstallationLease.TwoHolders`).
- `transitional-repository-lease.ts`: a takeover concludes from a vanished directory that
  there is no owner, and between the claim and its rename (lines 126-145) nothing checks that
  the directory at the path is the one it claimed. It can move the directory of a live holder
  (`RepositoryLease.TakeoverMovesALiveLease`), after which two processes hold leases
  (`RepositoryLease.TwoHolders`) and one generation is returned twice
  (`RepositoryLease.OneGenerationTwice`). Each of these is excluded exactly by such a check;
  without it `assertCurrent` still passes for at most one lease
  (`RepositoryLease.OneCurrentLease`).
- `current-lifecycle-adapters.ts:546-561`: the drift check does not see untracked files, so
  a recovery that crashes between its reset and its stored receipt is refused when an
  untracked file is present (`Delivery.SecondRecoveryFails`), and the reset would move a
  branch that another process moved in between (`Delivery.ResetMovesAForeignHead`).
- `target-cleanliness.ts:65-75` exempts tracked files under the exempt directories as well as
  the untracked ones that lines 14-22 speak of, while the `git diff` of the reconciliation
  exempts nothing. A locally changed tracked file there lets the ref update through and then
  fails the attempt (`Delivery.DriftShowsAfterSwap`), and a delivery of nothing but such
  files leaves the checkout as it was and reports success (`Delivery.ReceiptWithoutReset`).
- `transitional-unsafe-profile.ts:289-305` records `failed`, which is terminal, also for an
  attempt that has already moved the ref (`Delivery.FaultAfterSwap`).
- `canonical-execution-driver.ts:241-247` says that every started attempt settles before the
  wave does; when `recordOutcome` throws, `Promise.all` rejects at once
  (`WavePool.RejectsBesideAnExecution`).
- `repository-view.ts:140-144` rejects every `modify` and `type_change` entry, because the
  shape check makes their two paths equal and the first one has just been touched.
- `canonical-json.ts:48` drops an own `__proto__` member, because the assignment reaches the
  prototype setter (`CanonicalJson.FaithfulExactly`).
- `canonical-json.ts:28-30` and `:45` sort by `localeCompare`, which ECMA-262 (section
  "String.prototype.localeCompare") requires to return 0 for canonically equivalent strings.
  Two such keys or constraints (trimmed, as the schema leaves them) keep the order in which
  they come, and the digest shows it (`CanonicalJson.InvariantExactly`,
  `GoalContract.DigestIdentifiesGoalExactly`).
- `resource-catalog.ts:345-354` accepts an alias that targets a module or a symbol, for which
  `no` is not sound unless the alias is ambiguous; the callers in
  `repository-view.ts` only target `path:` locators.
- `local-ipc-server.ts:83` admits a ttl of exactly twice the skew, for which one frame can be
  accepted at both end instants of its window (`ReplayCache.TwiceAtTheEnds`).

## Model

| member | source | states |
|---|---|---|
| `GuardElection.MaximumTicket` | apps/daemon/src/installation-lease.ts:302-308 | The loop over the claims read returns zero or the greatest ticket among them, whatever order they come in |
| `GuardElection.InvariantKept` | apps/daemon/src/installation-lease.ts:255-392 | Every single file operation, verdict, failure and crash keeps the bakery invariant: whoever is ahead of a contender has been, or will be, seen by it |
| `GuardElection.InvariantThroughout` | apps/daemon/src/installation-lease.ts:255-392 | The invariant holds at every point of every run, for any number of contenders and any crashes |
| `GuardElection.MutualExclusion` | apps/daemon/src/installation-lease.ts:255-362 | At most one live entry is inside `operation()` in every interleaving, although listing, owner reads and ticket reads are separate and tickets may tie |
| `GuardElection.StaleRuleAdmitsTwo` | apps/daemon/src/installation-lease.ts:335-338 | The two-second rule, which judges by a ticket read earlier, removes the claim of a contender that has gone inside: a reachable state with two inside |
| `GuardElection.ExclusionNeedsSafeStaleRule` | apps/daemon/src/installation-lease.ts:318-362 | Exclusion in all runs holds if and only if the two-second rule never removes a live contender's claim |
| `GuardElection.FirstIsElected` | apps/daemon/src/installation-lease.ts:318-362 | A waiting contender that comes before every other claim, by ticket and then by claim id, gets inside by its own steps alone |
| `GuardElection.InsideIsFirst` | apps/daemon/src/installation-lease.ts:330-333 | Conversely whoever is inside comes before every other live contender that has a ticket |
| `GuardElection.SomebodyGetsInside` | apps/daemon/src/installation-lease.ts:255-362 | From every reachable state in which claims belong to live contenders or to dead processes, some live contender can get inside although nobody crashes or gives up |
| `InstallationLease.LeaseInvariantKept` | apps/daemon/src/installation-lease.ts:95-253 | Every rename, read, probe answer, guard step and crash keeps the lease invariant |
| `InstallationLease.LeaseInvariantThroughout` | apps/daemon/src/installation-lease.ts:95-253 | The lease invariant holds throughout every history |
| `InstallationLease.LeaseStaysCurrent` | apps/daemon/src/installation-lease.ts:95-131 | From the return of an acquisition on, the owner directory names the holder as long as it lives and has not called release |
| `InstallationLease.AtMostOneHolder` | apps/daemon/src/installation-lease.ts:95-214 | At no point do two live holders of unreleased leases exist, also when a takeover crashes between its two renames |
| `InstallationLease.SoleAcquisitionHolds` | apps/daemon/src/installation-lease.ts:95-131 | An acquisition without competitors returns a held lease, so the statements about holders speak of reachable states |
| `InstallationLease.AssertCurrentSucceeds` | apps/daemon/src/installation-lease.ts:223-229 | `assertCurrent` of a live holder that has not released never throws |
| `InstallationLease.NoAcquisitionBesideAHolder` | apps/daemon/src/installation-lease.ts:133-159 | While somebody holds the lease no other acquisition passes its last check |
| `InstallationLease.OnlyDeadOrReleasedOwnersAreReplaced` | apps/daemon/src/installation-lease.ts:161-214 | An owner leaves the lease directory only by its own release or when its process is gone |
| `InstallationLease.CurrencyNeedsSafeStaleRule` | apps/daemon/src/installation-lease.ts:95-362 | In all reachable states the owner directory names every holder if and only if the two-second rule never removes a live contender's claim; otherwise two takeovers of one abandoned owner meet inside the guard and the second renames the directory of a holder |
| `InstallationLease.TwoHolders` | apps/daemon/src/installation-lease.ts:161-214 | That takeover crashes before it restores the directory, and a newcomer acquires: a reachable state with two live holders |
| `InstallationLease.ExclusionNeedsSafeStaleRule` | apps/daemon/src/installation-lease.ts:95-362 | At most one live holder in all reachable states if and only if the two-second rule never removes a live contender's claim |
| `InstallationLease.ReleaseFrees` | apps/daemon/src/installation-lease.ts:230-253 | A release that returns has removed its owner from the directory, and one throws only when its rename is refused |
| `InstallationLease.ReleasedForGood` | apps/daemon/src/installation-lease.ts:230-253 | From then on no history puts the owner back |
| `InstallationLease.ReleaseLetsTheNextIn` | apps/daemon/src/installation-lease.ts:95-253 | Acquisition, release and a second acquisition: a reachable state with the second holder while the first process lives |
| `InstallationLease.DeadOwnerIsReplaced` | apps/daemon/src/installation-lease.ts:161-214 | Without competitors an acquisition replaces the owner directory of a dead process and returns |
| `InstallationLease.GivesUpWithReason` | apps/daemon/src/installation-lease.ts:133-214 | An acquisition gives up only before an owner that the probe finds neither dead nor different, a directory without a readable owner, or a refused rename |
| `InstallationLease.ReadsBeforeItActs` | apps/daemon/src/installation-lease.ts:117-185 | Whatever the guard has let in, an acquisition passes its last check only when the directory names its owner, and starts a takeover only after reading the expected owner again |
| `InstallationLease.RefusedTakeoverRestores` | apps/daemon/src/installation-lease.ts:198-211 | A takeover whose second rename is refused leaves the directory as it was |
| `InstallationLease.ForeignDirectoryIsRestored` | apps/daemon/src/installation-lease.ts:188-253 | A takeover or release that has moved anybody else's directory puts it back |
| `InstallationLease.AssertCurrentFailsForOthers` | apps/daemon/src/installation-lease.ts:223-229 | `assertCurrent` throws for every other owner while somebody holds the lease |
| `InstallationLease.AssertCurrentFailsAfterRelease` | apps/daemon/src/installation-lease.ts:223-253 | `assertCurrent` throws for an owner whose release has returned, ever after |
| `RepositoryLease.InvariantKept` | apps/daemon/src/transitional-repository-lease.ts:75-153 | Every file operation through the lock path keeps the invariant, as long as a takeover renames the directory it claimed |
| `RepositoryLease.InvariantThroughout` | apps/daemon/src/transitional-repository-lease.ts:75-234 | The invariant holds throughout every run whose takeovers still have their claim at the path when they rename |
| `RepositoryLease.HeldLeaseIsCurrent` | apps/daemon/src/transitional-repository-lease.ts:180-185 | In every run whose takeovers still have their claim at the path when they rename, which the code does not check, an unreleased lease of a live process passes `assertCurrent` |
| `RepositoryLease.AtMostOneHolder` | apps/daemon/src/transitional-repository-lease.ts:75-153 | In the same runs at most one unreleased lease of a live process exists |
| `RepositoryLease.TwoHolders` | apps/daemon/src/transitional-repository-lease.ts:126-153 | Without the check two live processes can hold unreleased leases: a reachable state |
| `RepositoryLease.ExclusionNeedsTheClaimCheck` | apps/daemon/src/transitional-repository-lease.ts:126-153 | At most one holder in all reachable states if and only if takeovers check, before they rename, that the directory at the path is the one they claimed |
| `RepositoryLease.TakeoverMovesAbandonedDirectories` | apps/daemon/src/transitional-repository-lease.ts:110-153 | In the same runs the rename of a takeover never moves a directory that a live contender counts on |
| `RepositoryLease.TakeoversNeedTheClaimCheck` | apps/daemon/src/transitional-repository-lease.ts:126-153 | Takeovers spare every directory that a live contender counts on, in all reachable states, if and only if they make that check |
| `RepositoryLease.GenerationsIncrease` | apps/daemon/src/transitional-repository-lease.ts:83-101 | In the same runs the generations that `acquire` returns increase strictly |
| `RepositoryLease.OneGenerationTwice` | apps/daemon/src/transitional-repository-lease.ts:83-101 | Without the check `acquire` can return one generation to two live processes: a reachable state |
| `RepositoryLease.GenerationsNeedTheClaimCheck` | apps/daemon/src/transitional-repository-lease.ts:83-153 | The returned generations increase in all runs if and only if takeovers make that check |
| `RepositoryLease.OneCurrentLease` | apps/daemon/src/transitional-repository-lease.ts:180-185 | In every run, with or without the check, `assertCurrent` passes for at most one of the leases held at a time |
| `RepositoryLease.TakeoverMovesALiveLease` | apps/daemon/src/transitional-repository-lease.ts:110-153 | `readOwnerWithGrace` also answers undefined when the directory has vanished, and nothing re-reads the claim before the rename: a reachable state in which a live holder's directory has been moved away |
| `RepositoryLease.LeasesNeedTheClaimCheck` | apps/daemon/src/transitional-repository-lease.ts:75-153 | Held leases are current in all reachable states if and only if takeovers check that their own claim is at the path when they rename |
| `RepositoryLease.GivesUpBeforeLiveOwners` | apps/daemon/src/transitional-repository-lease.ts:108-142 | On the way to a takeover a contender gives up exactly before an owner that answered live, goes on to its rename exactly when the owner has not changed and did not, and withdraws its claim otherwise |
| `RepositoryLease.TakesOverDeadOwner` | apps/daemon/src/transitional-repository-lease.ts:83-153 | Undisturbed, a contender that meets the unclaimed lock of a dead or relinquished owner holds a current lease, with a generation greater than that owner's and than the recorded one |
| `RepositoryLease.CrashedHolderIsReplaced` | apps/daemon/src/transitional-repository-lease.ts:108-153 | After a crash of the holder a newcomer holds the lease with a greater generation: a reachable state |
| `RepositoryLease.RelinquishedLockIsTaken` | apps/daemon/src/transitional-repository-lease.ts:187-201 | After a release whose rename was refused a newcomer holds the lease though the releasing process lives |
| `RepositoryLease.WithdrawsItsClaim` | apps/daemon/src/transitional-repository-lease.ts:128-142 | A withdrawing contender removes its claim |
| `RepositoryLease.RefusedRenameWithdraws` | apps/daemon/src/transitional-repository-lease.ts:144-151 | So does one whose rename is refused |
| `RepositoryLease.LeavesForeignLocksAlone` | apps/daemon/src/transitional-repository-lease.ts:112-217 | Releasing, relinquishing, claiming and withdrawing change nothing where the lock is not the own one or carries another claim |
| `RepositoryLease.ReturnsCurrent` | apps/daemon/src/transitional-repository-lease.ts:83-101 | In every run a lease is current when `acquire` returns it |
| `RepositoryLease.PutsForeignBack` | apps/daemon/src/transitional-repository-lease.ts:202-207 | A release that has moved somebody else's directory puts it back |
| `Delivery.SafeStep` | apps/daemon/src/current-lifecycle-adapters.ts:450-561 | A step of the code moves a ref only from the approved head to the final commit, resets only the approved tree of a delivered target, and gives a receipt only for a target at the final commit whose checkout differs from it under exempt directories at most |
| `Delivery.SafeThroughout` | apps/daemon/src/current-lifecycle-adapters.ts:450-561 | The same over every sequence of attempts, crashes, faults, drift and foreign moves that spare the settling |
| `Delivery.SafeExactly` | apps/daemon/src/current-lifecycle-adapters.ts:546-561 | Every step is safe in all reachable states if and only if other processes leave refs alone while an attempt settles; otherwise the reset moves a foreign head |
| `Delivery.ReceiptWithoutReset` | packages/execution-core/src/delivery/target-cleanliness.ts:65-75 | Every tracked change under an exempt directory is exempt, so after delivering changes under such directories alone status is clean, nothing resets the checkout, and a receipt is given for a checkout without the final tree: a reachable state in every environment |
| `Delivery.ReceiptDespiteDrift` | packages/execution-core/src/delivery/target-cleanliness.ts:65-75 | Recovery at the final commit gives a receipt for a checkout with tracked changes under an exempt directory |
| `Delivery.ReceiptsHoldFinalTreeExactly` | apps/daemon/src/current-lifecycle-adapters.ts:546-561 | Every step is safe and every receipt is given for a checkout that holds the whole final tree if and only if refs are left alone while an attempt settles, nobody leaves tracked changes under exempt directories, and the changes of the delivery are not confined to these |
| `Delivery.UndisturbedMissesExactly` | apps/daemon/src/current-lifecycle-adapters.ts:450-561 | For every repository: attempts and crashes alone can end with a receipt for a checkout without the final tree if and only if status is clean, the tracked files outside the exempt directories are those of the final commit, and the others are not; and with a failure after a moved ref if and only if a clean status at the approved head hides that the checkout is not the approved tree, and the delivery changes what status shows |
| `Delivery.OneReceipt` | apps/daemon/src/current-lifecycle-adapters.ts:613-631 | Whatever is stored or recorded over any number of attempts, crashes and foreign moves, at any time, is the same receipt |
| `Delivery.CrashesChangeNothing` | apps/daemon/src/transitional-unsafe-profile.ts:257-312 | Undisturbed attempts, crashed anywhere and with concurrent reads in any order, end with the repository and the observation of one uninterrupted delivery, for every checkout including those with drift under exempt directories |
| `Delivery.RetryEndsAsOneDelivery` | apps/daemon/src/transitional-unsafe-profile.ts:257-312 | From wherever the last crash left it, the next attempt terminates and records what the first one would have, in particular the same receipt after a crash past the ref update |
| `Delivery.CrashProofExactly` | apps/daemon/src/current-lifecycle-adapters.ts:546-561 | Crashes change nothing if and only if recovery does not have to reset a checkout that also holds an untracked file, which the second recovery refuses |
| `Delivery.StepsRunOut` | packages/execution-core/src/delivery/publisher.ts:82-107 | Each step of an attempt lowers a rank, so attempts terminate, and one that is neither invalidated nor refused leaves a terminal observation |
| `Delivery.FailureMeansUnpublishedExactly` | apps/daemon/src/transitional-unsafe-profile.ts:270-305 | A failed observation means that its attempt moved no ref if and only if no operation throws, refs are left alone under the lease, and tracked changes under exempt directories do not meet a delivery that changes anything outside them (where some third commit looks different from both) |
| `Delivery.DriftShowsAfterSwap` | packages/execution-core/src/delivery/target-cleanliness.ts:65-75 | A tracked change under an exempt directory passes every check before the ref update and is listed by `git diff` after it: the attempt fails after publishing, a reachable state in every environment that allows such a change |
| `Delivery.UnrecoverableAfterSwap` | apps/daemon/src/current-lifecycle-adapters.ts:487-529 | The three reads of publish are separate: a branch moved away and back between them lets the ref update through for a checkout that reconciliation then refuses |
| `Delivery.DeclinedAttempt` | apps/daemon/src/transitional-unsafe-profile.ts:270-305 | From its beginning on, an attempt whose intent is invalidated or whose validation refuses changes no ref and no file and gives no receipt; invalidated it records nothing, refused it records the rejection unless it crashes or the record throws |
| `Delivery.RepeatedAttempt` | apps/daemon/src/transitional-unsafe-profile.ts:263-271 | An attempt that finds a terminal observation or a stored receipt does not touch the repository; in the second case it records that receipt |
| `Delivery.SwapIsJustified` | apps/daemon/src/current-lifecycle-adapters.ts:450-516 | Whatever others do, before an attempt updates the ref its inspection and again its publication have read the target branch, the approved head and a clean status |
| `Delivery.ReceiptIsConfirmed` | apps/daemon/src/current-lifecycle-adapters.ts:523-528 | Before an attempt gives a receipt for its own update it has read the final commit at HEAD |
| `ProofBinding.RootCriterion` | apps/daemon/src/current-lifecycle-adapters.ts:729-740 | The walk terminates on every refinement map, returns the first goal criterion of the chain, and returns undefined exactly when the chain leaves the map or closes a cycle first |
| `ProofBinding.AstrayMeetsNoGoal` | apps/daemon/src/current-lifecycle-adapters.ts:729-740 | A chain that leaves the map or closes a cycle before a goal meets no goal however far it is followed |
| `ProofBinding.BoundAsDecided` | apps/daemon/src/current-lifecycle-adapters.ts:741-764 | An obligation is bound by its last rooted validation, with that validation's selector; without one by its first rooted integration |
| `ProofBinding.BoundWhenDecided` | apps/daemon/src/current-lifecycle-adapters.ts:741-764 | An obligation is bound exactly when some rooted validation or integration claims it |
| `ProofBinding.BindProductProofStrategies` | apps/daemon/src/current-lifecycle-adapters.ts:719-782 | In terms of the plan: every obligation has at most one strategy, in the order of obligations; its criterion is the goal that the refinements of its last validation lead to, with that validation's evidence as selector, or without a validation the goal of its first integration; every obligation with a validation or integration that leads to a goal gets one; and the units name them |
| `ProofBinding.SourcesAreRefined` | apps/daemon/src/current-lifecycle-adapters.ts:725-728 | The map of the walk takes a criterion to what the plan's last refinement of it refines, and has no other keys |
| `ProofBinding.RootIsLedTo` | apps/daemon/src/current-lifecycle-adapters.ts:729-740 | The walk finds exactly the goal criterion that the plan's refinements lead to over criteria that are no goals |
| `ProofBinding.SelectorSortsEvidence` | apps/daemon/src/current-lifecycle-adapters.ts:784-786 | The selector is the evidence in order, whatever order it is listed in |
| `ArgumentQuoting.QuoteWindowsArgument` | native/windows-job-runner/src/main.rs:842-868 | The loop with its pending backslashes computes the quoted form of every argument |
| `ArgumentQuoting.ArgumentRoundTrip` | native/windows-job-runner/src/main.rs:842-868 | Microsoft's parsing rules read a quoted argument back as the argument, for all runs of backslashes, quotes, blanks and the empty string |
| `ArgumentQuoting.TailRoundTrip` | native/windows-job-runner/src/main.rs:832-840 | The joined arguments after the program name parse back to exactly the argument list |
| `ArgumentQuoting.QuotedProgramName` | native/windows-job-runner/src/main.rs:832-868 | The separate rule of argv[0] reads a quoted name without quotes back with its trailing backslashes doubled |
| `ArgumentQuoting.CommandLineRoundTrip` | native/windows-job-runner/src/main.rs:832-868 | The whole command line parses back to program and arguments if and only if the program name has no quote and, where it is quoted, no trailing backslash |
| `RequestCodec.Cursor.U32` | native/windows-job-runner/src/main.rs:250-260 | The cursor reads four little-endian bytes exactly when they are there and otherwise stays where it is |
| `RequestCodec.Cursor.String` | native/windows-job-runner/src/main.rs:262-283 | The cursor reads a length-prefixed string exactly when size, bounds, UTF-8 and NUL rules hold |
| `RequestCodec.ParseRequest` | native/windows-job-runner/src/main.rs:442-506 | The parser with its cursor computes the reader of the format, branch by branch |
| `RequestCodec.DecodeAfterEncode` | native/windows-job-runner/src/main.rs:442-506 | Decoding the encoding of a well-formed request gives the request back |
| `RequestCodec.EncodeAfterDecode` | native/windows-job-runner/src/main.rs:442-506 | Whatever is accepted is the encoding of a well-formed request, namely of the one it decodes to |
| `RequestCodec.ParserIsExact` | native/windows-job-runner/src/main.rs:442-506 | Bytes decode to a request if and only if they are its encoding and it is well formed |
| `RequestCodec.DecodingIsInjective` | native/windows-job-runner/src/main.rs:442-506 | Two different accepted byte strings never decode to the same request |
| `RequestCodec.LettersEncoded` | native/windows-job-runner/src/main.rs:442-506 | The bytes of one request, string by string: the magic, the order of the fields and the length prefixes |
| `RequestCodec.RoundTripExactly` | native/windows-job-runner/src/main.rs:262-506 | In plain numbers, exactly the requests that survive the round trip: sizes, counts, UTF-8, NUL, equals signs and which strings may be empty |
| `Sha256.PadMessage` | native/windows-job-runner/src/main.rs:928-935 | The push loops produce the padding of section 5.1.1 of FIPS 180-4, with the length in bits modulo 2^64 |
| `Sha256.ZeroBitsAreLeast` | native/windows-job-runner/src/main.rs:930-934 | The zero bits pushed are the least k with l + 1 + k = 448 modulo 512 |
| `Sha256.PaddedLength` | native/windows-job-runner/src/main.rs:930-935 | The padded length is the least multiple of 64 with room for the mark and the length |
| `Sha256.PaddingIsInjective` | native/windows-job-runner/src/main.rs:928-935 | Different messages of any lengths pad to different bytes |
| `Sha256.LengthFieldIsExact` | native/windows-job-runner/src/main.rs:929-935 | The length field holds the length in bits if and only if the message is shorter than 2^61 bytes |
| `Sha256.FillSchedule` | native/windows-job-runner/src/main.rs:948-963 | The in-place loops fill the schedule array with W of section 6.2.2, step 1 |
| `Sha256.CompressChunk` | native/windows-job-runner/src/main.rs:947-993 | The rounds over the variables a to h and the eight final additions compute one compression of the state array |
| `Sha256.Sha256Hex` | native/windows-job-runner/src/main.rs:916-995 | The function returns the hexadecimal digest of the specified hash, for every message |
| `Sha256.DigestDeterminesHash` | native/windows-job-runner/src/main.rs:994-994 | Equal hexadecimal digests come from equal hash values |
| `Sha256.RoundConstantsAreCubeRoots` | native/windows-job-runner/src/main.rs:917-927 | Each entry of K is the first 32 fractional bits of the cube root of its prime (section 4.2.2) |
| `Sha256.InitialHashIsSquareRoots` | native/windows-job-runner/src/main.rs:937-946 | Each initial word is the first 32 fractional bits of the square root of its prime (section 5.3.3) |
| `Sha256KnownAnswer.DigestOfAbc` | native/windows-job-runner/src/main.rs:916-995 | The digest of the message abc is the one of the standard's example, followed through all 64 rounds |
| `WavePool.InvariantKept` | packages/orchestrator-graph/src/canonical-execution-driver.ts:249-292 | Every step of a worker or of the append chain keeps the wave invariant |
| `WavePool.InFlightBounded` | packages/orchestrator-graph/src/canonical-execution-driver.ts:255-288 | At most min(limit, attempts) executions are in flight in every interleaving, a limit below one counting as one |
| `WavePool.OneRecordingAtATime` | packages/orchestrator-graph/src/canonical-execution-driver.ts:260-269 | At most one `recordOutcome` runs at a time |
| `WavePool.NoAttemptTwice` | packages/orchestrator-graph/src/canonical-execution-driver.ts:271-286 | No attempt executes twice |
| `WavePool.JournalDistinct` | packages/orchestrator-graph/src/canonical-execution-driver.ts:260-269 | No outcome is recorded twice, and `state` is always the projection of the last record |
| `WavePool.ReturnedIsRecorded` | packages/orchestrator-graph/src/canonical-execution-driver.ts:249-292 | Whenever the wave has returned, or rethrown the error of an execution, a started attempt is recorded exactly when its execution did not throw, also where recording can fail |
| `WavePool.AllRecorded` | packages/orchestrator-graph/src/canonical-execution-driver.ts:288-292 | A wave that returns has recorded all attempts, and returns the state last recorded |
| `WavePool.NoDeadlock` | packages/orchestrator-graph/src/canonical-execution-driver.ts:249-292 | Until its promise settles, some step of the wave is always possible |
| `WavePool.WaveSettles` | packages/orchestrator-graph/src/canonical-execution-driver.ts:249-292 | A run of the wave has at most five steps for each attempt, one for each worker and one more, and a run that no step can continue has settled the promise |
| `WavePool.SettlesAfterAllExactly` | packages/orchestrator-graph/src/canonical-execution-driver.ts:288-292 | The wave settles only after every started execution if and only if recording does not fail or there is at most one worker; a failing record rejects it beside a running execution |
| `WavePool.RethrowsTheFirst` | packages/orchestrator-graph/src/canonical-execution-driver.ts:278-291 | A wave in which an execution threw rethrows the error of the one that threw first |
| `WavePool.ParallelismIsReached` | packages/orchestrator-graph/src/canonical-execution-driver.ts:255-288 | Some interleaving has min(limit, attempts) executions in flight |
| `ExecutionBase.Walker.Visit` | packages/orchestrator-graph/src/execution-base-closure.ts:37-50 | The recursive walk terminates on every requirement graph, keeps its order duplicate-free and, on acyclic graphs, producers first |
| `ExecutionBase.BaseOrder` | packages/orchestrator-graph/src/execution-base-closure.ts:34-51 | The order holds every ancestor of the node except itself, once |
| `ExecutionBase.ExecutionBaseArtifacts` | packages/orchestrator-graph/src/execution-base-closure.ts:27-64 | The result lists exactly the contracts whose producer is an ancestor other than the node and whose consumer is in the base, each once; on acyclic graphs every artifact comes after all its producer consumes |
| `GraphSearch.ContainsResource` | packages/repository-index/src/resource-catalog.ts:245-257 | True exactly when the container is one or more containment steps above the member; terminates on cycles by (unvisited ids, stack length) |
| `GraphSearch.Neighborhood` | packages/repository-index/src/resource-catalog.ts:221-239 | From an indexed start, exactly the ids at undirected distance at most the depth |
| `GraphSearch.DependencyNeighborhood` | packages/repository-index/src/repository-query.ts:93-116 | The visited modules are exactly those in the undirected ball of resolved relationships |
| `GraphSearch.NextLevel` | packages/repository-index/src/resource-catalog.ts:226-237 | One level turns the ball of radius n with its frontier into the ball of radius n + 1 |
| `ResourceCatalog.FillTable` | packages/repository-index/src/resource-catalog.ts:89-118 | The constructor's map gives every reference the set of resources that its aliases or its locator name |
| `ResourceCatalog.ResourceCatalog.constructor` | packages/repository-index/src/resource-catalog.ts:84-127 | The object holds the material, its resolution map and its containers |
| `ResourceCatalog.ResourceCatalog.ResolveReference` | packages/repository-index/src/resource-catalog.ts:129-182 | Known, conflicting and unknown references, with declared directories, as the candidates and the path rules say |
| `ResourceCatalog.ResourceCatalog.Overlaps` | packages/repository-index/src/resource-catalog.ts:185-219 | The three-valued answer, with containment decided by the upward search |
| `ResourceCatalog.BuildResourceCatalog` | packages/repository-index/src/resource-catalog.ts:267-368 | The loops build the deduplicated resources, containments and aliases of a model |
| `ResourceCatalog.OverlapIsSymmetric` | packages/repository-index/src/resource-catalog.ts:185-219 | Exchanging the references does not change the answer |
| `ResourceCatalog.DisjointShareNothing` | packages/repository-index/src/resource-catalog.ts:468-476 | Paths judged disjoint after normalisation have subtrees without a common path |
| `ResourceCatalog.UnderIsContained` | packages/repository-index/src/resource-catalog.ts:306-318 | A file or package under a package is contained in it |
| `ResourceCatalog.ContainedIsUnder` | packages/repository-index/src/resource-catalog.ts:306-329 | Containment, over any number of steps, is nesting of paths |
| `ResourceCatalog.OverlapMeansSharing` | packages/repository-index/src/resource-catalog.ts:185-219 | For a catalog of a well-formed tree and known references, `no` means that no path is in both subtrees, and `yes` that the normalised subtrees meet |
| `ResourceCatalog.OverlapIsExact` | packages/repository-index/src/resource-catalog.ts:185-219 | Between known references with normalised paths, `yes` holds if and only if the subtrees share a path |
| `ResourceCatalog.BareAliasIsUnsound` | packages/repository-index/src/resource-catalog.ts:345-354 | For every list of input aliases with a bare alias of a module or symbol (one whose locator neither is the target's own nor is an alias of its file too) there is a well-formed tree in whose catalog two references to one file get `no` |
| `ResourceCatalog.NoIsRightExactly` | packages/repository-index/src/resource-catalog.ts:345-354 | For every list of input aliases: `no` is right in the catalogs of all well-formed trees and for all references if and only if none of the aliases is a bare alias of a module or symbol |
| `ResourceCatalog.UnresolvedOverlap` | packages/repository-index/src/resource-catalog.ts:204-219 | Unless both references are known the answer is that of their paths: `unknown` without two paths or below a gitlink, else `yes` if and only if the normalised subtrees meet, and `no` only for subtrees without a common path |
| `ResourceCatalog.KnownOverlapIsDecided` | packages/repository-index/src/resource-catalog.ts:188-202 | Between known references the answer is `unknown` if and only if one has no known epistemic state |
| `ResourceCatalog.BelowGitlinkIsUnknown` | packages/repository-index/src/resource-catalog.ts:160-219 | A path below a gitlink that no resource has is unknown, and overlaps with nothing for certain |
| `ResourceCatalog.ResolutionExactly` | packages/repository-index/src/resource-catalog.ts:89-182 | Known is exactly a single named resource, or a proper directory path outside gitlinks under known coverage when nothing is named; two named resources conflict |
| `ResourceCatalog.DeduplicatedExactly` | packages/repository-index/src/resource-catalog.ts:419-428 | Of the records with one locator the last surface counts, or else the first |
| `ResourceCatalog.ContainersAndTargets` | packages/repository-index/src/resource-catalog.ts:300-354 | Exactly which containments and aliases the catalog of a model has |
| `ResourceCatalog.NormalDropsOneSlash` | packages/repository-index/src/resource-catalog.ts:463-466 | Normalising turns backslashes into slashes and drops one slash in front |
| `PosixPaths.SegmentsJoin` | packages/repository-index/src/resource-catalog.ts:165-165 | The segments of a path have no slash, and joined by slashes they are the path |
| `RepositoryOverlay.ApplyOverlayEntries` | packages/repository-index/src/repository-view.ts:126-159 | The loop over `result` and `touched` computes the application, entry by entry, or rejects |
| `RepositoryOverlay.OnlyPlainEntriesPass` | packages/repository-index/src/repository-view.ts:133-144 | Every modify and type_change entry is rejected |
| `RepositoryOverlay.AcceptedExactly` | packages/repository-index/src/repository-view.ts:126-159 | An overlay is accepted if and only if its entries are adds and deletes of different paths that fit the base, and its result is the base minus the deletes plus the adds |
| `RepositoryOverlay.OrderDoesNotMatter` | packages/repository-index/src/repository-view.ts:126-159 | Acceptance and result are the same for every order of the entries |
| `RepositoryOverlay.UndoIsAccepted` | packages/repository-index/src/repository-view.ts:126-159 | Swapping adds and deletes gives an overlay that the result accepts |
| `RepositoryOverlay.UndoRestoresExactly` | packages/repository-index/src/repository-view.ts:126-159 | It restores the base if and only if the deleted entries had the kinds of their modes |
| `RepositoryOverlay.AssertSameTree` | packages/repository-index/src/repository-view.ts:189-204 | The check passes if and only if both trees have the same paths with equal object ids and modes |
| `RepositoryOverlay.ComposeRepositoryView` | packages/repository-index/src/repository-view.ts:56-83 | The loop accepts exactly chains of new manifests on the current tree whose results are the trees git lists |
| `RepositoryOverlay.ViewIsTheFold` | packages/repository-index/src/repository-view.ts:56-83 | A composed view has the paths, object ids and modes of the fold of its overlays, and the tree of the last one |
| `RepositoryOverlay.ChainExactly` | packages/repository-index/src/repository-view.ts:56-83 | A chain is accepted if and only if its manifests differ and each overlay is based on the tree before it and describes the tree git lists; the view is what git lists for the last result |
| `RepositoryOverlay.AcceptedPathsStayInside` | packages/repository-index/src/repository-view.ts:161-187 | Whatever an accepted overlay names is relative, without backslashes and without a part that leaves the tree |
| `CanonicalJson.ToCanonicalJsonValue` | packages/contracts/src/canonical-json.ts:32-51 | For every consistent comparison, ties included, the recursive loops, which sort all keys and then skip undefined members, return the canonical value, and throw exactly for the values that are not accepted |
| `CanonicalJson.TextDeterminesValue` | packages/contracts/src/canonical-json.ts:11-13 | The JSON text, with what follows it, determines the value |
| `CanonicalJson.TextIsCompleteInvariant` | packages/contracts/src/canonical-json.ts:11-51 | Two accepted values have equal canonical text if and only if they are equal up to key order, undefined members and `__proto__` members at every depth |
| `CanonicalJson.InvariantExactly` | packages/contracts/src/canonical-json.ts:44-51 | For a comparison of keys that may have ties, sorted stably: text is such a complete invariant of all accepted values if and only if it tells any two keys other than `__proto__` apart |
| `CanonicalJson.CanonicalIsIdempotent` | packages/contracts/src/canonical-json.ts:32-51 | Canonicalising twice is canonicalising once |
| `CanonicalJson.FaithfulExactly` | packages/contracts/src/canonical-json.ts:43-51 | Among values without a `__proto__` member, a value is confused with no different one if and only if it has no such member itself |
| `CanonicalJson.CanonicalKeysAscend` | packages/contracts/src/canonical-json.ts:43-50 | At every depth the keys of the canonical value ascend |
| `CanonicalJson.SpecimenIsPrinted` | packages/contracts/src/canonical-json.ts:11-13 | The text of a value with every construct, character by character |
| `CanonicalJson.ControlCharacters` | packages/contracts/src/canonical-json.ts:11-13 | A control character without a name is printed as four lower-case hexadecimal digits |
| `GoalContract.ProofPairKeyIsInjective` | packages/contracts/src/goal-contract.ts:156-158 | The NUL-joined key tells proof pairs apart |
| `GoalContract.ParseKeepsValid` | packages/shared/src/index.ts:11 | Parsing trims every text; what it yields, and any valid material, is parsed to itself |
| `GoalContract.ParseAcceptsExactly` | packages/contracts/src/goal-contract.ts:5-66 | The inputs that the schema accepts, in terms of the input itself, which may have blanks around its texts |
| `GoalContract.NormalIsTheGoal` | packages/contracts/src/goal-contract.ts:77-88 | Parsed contracts have the same normal form exactly when they agree up to order and repetition of constraints, protected references and proof pairs |
| `GoalContract.DigestIdentifiesGoal` | packages/contracts/src/goal-contract.ts:75-90 | With an injective hasher two inputs that the schema accepts get equal digests if and only if, once trimmed, they state the same goal in that sense |
| `GoalContract.RebuildKeepsDigest` | packages/contracts/src/goal-contract.ts:75-90 | The contract that is built is accepted as an input again and gets the digest it has |
| `GoalContract.DigestIdentifiesGoalExactly` | packages/contracts/src/canonical-json.ts:28-30 | For a `localeCompare` that may call different strings equal, sorted stably: digests identify the goals of all accepted inputs if and only if it calls no two different trimmed, non-empty strings equal |
| `EffectReceipts.ReplayPhysicalEffectReceipts` | packages/contracts/src/effect-protocol.ts:248-303 | The loop over `byId`, replayed ids and issues computes the replay, issue by issue |
| `EffectReceipts.ReplayAcceptsFirstOccurrences` | packages/contracts/src/effect-protocol.ts:248-303 | Accepted are exactly the identity-valid inputs, one per id, in first-occurrence order, and `ok` says that all inputs are identity-valid |
| `EffectReceipts.ReplayForgetsOrder` | packages/contracts/src/effect-protocol.ts:248-303 | The accepted set and `ok` do not depend on order or repetition of the stream |
| `EffectReceipts.OrderMattersOnlyOnCollisions` | packages/contracts/src/effect-protocol.ts:248-303 | Replay is insensitive to order if and only if the digest is injective |
| `EffectReceipts.ReplayedOccurTwice` | packages/contracts/src/effect-protocol.ts:268-271 | The replayed ids are those of the valid receipts that occur more than once |
| `EffectReceipts.ReplayIsIdempotent` | packages/contracts/src/effect-protocol.ts:248-303 | Replaying the accepted receipts returns them unchanged, without issues and without repetitions |
| `EffectReceipts.IssuesExactly` | packages/contracts/src/effect-protocol.ts:248-303 | Exactly the issues that are due are reported, as often as they are due, each at its index |
| `ReplayCache.ExpiringNonceReplayCache.constructor` | apps/daemon/src/local-ipc-server.ts:318-324 | The cache starts empty |
| `ReplayCache.ExpiringNonceReplayCache.Bounded` | apps/daemon/src/local-ipc-server.ts:326-338 | Entries come in request/nonce pairs with equal expiry and number at most twice maxEntries |
| `ReplayCache.ExpiringNonceReplayCache.Consume` | apps/daemon/src/local-ipc-server.ts:326-338 | Expired entries go, a known identity or a full cache refuses, and otherwise one pair is added |
| `ReplayCache.ExpiringNonceReplayCache.ProcessFrame` | apps/daemon/src/local-ipc-server.ts:237-242 | A frame is accepted exactly when it is in the window, authentic and consumed |
| `ReplayCache.EntriesComeInPairs` | apps/daemon/src/local-ipc-server.ts:331-336 | The map has exactly two entries for each remembered pair |
| `ReplayCache.SecondAcceptanceIsLate` | apps/daemon/src/local-ipc-server.ts:326-338 | A second acceptance of a request id or nonce comes at least one ttl after the first |
| `ReplayCache.OnlyAtTheEndInstants` | apps/daemon/src/local-ipc-server.ts:82-85 | With a ttl of twice the skew a frame is accepted again only if the two observations are the two end instants of its window |
| `ReplayCache.NeverTwiceExactly` | apps/daemon/src/local-ipc-server.ts:82-85 | No frame is accepted twice in any run with non-decreasing times if and only if the ttl is strictly greater than twice the skew |
| `ReplayCache.AcceptedExactly` | apps/daemon/src/local-ipc-server.ts:237-338 | In terms of the arrivals: a frame is accepted if and only if it is authentic, within the skew, shares its request id and nonce with no frame accepted less than one ttl ago, and fewer than maxEntries were |
| `ReplayCache.CacheRemembersAccepted` | apps/daemon/src/local-ipc-server.ts:326-338 | The cache remembers exactly the frames accepted within one ttl |

## Left out

- Time in the locks: polling delays, timeouts, heartbeat periods and rename retries are nondeterministic steps; that contenders keep taking steps is not stated, only that steps exist which get one of them inside, and a claim whose removal fails while its process lives is excluded there.
- Shapes of configuration, owner and ticket files beyond readable and unreadable, and the ACL, named-pipe, job-object and process-spawning calls, whose guarantees belong to the operating system.
- Delivery: the `fingerprint` comparisons, which compare one constant with itself once validation has passed, and the branch of `claim` that returns a journalled receipt, which the terminal check precedes.
- Delivery: git's index apart from the working tree, and how the cleanliness rule reads paths out of porcelain lines (quotes, backslashes, ` -> `); which directories are exempt only decides how a tree splits into its two parts.
- InstallationLease: a file system that refuses to rename onto an empty directory reports that as a collision, which the acquisition answers by refusing; the model refuses in one step.
- ProofBinding.BindProductProofStrategies: the constant fields of a strategy and the two digests are left out; the selector is the sorted reference list that its digest is taken of.
- RequestCodec.Cursor.String: UTF-8 decoding is a predicate on byte sequences, and strings are their bytes.
- Sha256.Sha256Hex: the module splits the body of `sha256_hex` into one method per loop; `usize` is unbounded, so only the length field wraps.
- WavePool: an execution that throws `undefined`, which leaves `firstError` unset, so that the wave resolves as if nothing had been thrown.
- WavePool: what `recordOutcome` writes, beyond that it appends one record and returns the projection of the journal.
- ExecutionBase.ExecutionBaseArtifacts: the graph revision apart from its artifact requirements.
- GraphSearch.Neighborhood: the final lookup of resources by id; for a declared directory, which is no resource, the source's lookup yields undefined.
- ResourceCatalog.BuildResourceCatalog: evidence references, generated-file dispositions and digests, which no answer depends on; the sorting of results; references that spell a catalog id as an alias locator.
- RepositoryOverlay.ComposeRepositoryView: the non-empty test of a manifest digest, and the model, catalog and aliases rebuilt from the final tree.
- CanonicalJson: arrays with holes, which are printed like arrays with `null` in their place; strings with lone surrogates, and objects with getters or a `toJSON` method.
- GoalContract: of the schema, the types, default values and refusal of unknown members that the datatype has built in, numbers beyond exact integers, and the messages; and `validateGoalContract`, which reports the shapes and repetitions it finds.
- EffectReceipts: the text of issues, and the binding validation between receipt and intent.
- ReplayCache: the message authentication code is one Boolean of a frame; request ids and nonces are numbers of which only equality matters.
- The conflict-risk scores, the on-disk index cache, the TypeScript and ripgrep readers and `answer`'s byte budget: heuristics or plumbing with only easy claims.
- The daemon profile, planner prompts, traces and the web interface.
