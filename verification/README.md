# Formal models of the repository's tooling

This project models, in Dafny, the parts of the repository whose correctness is easiest to get wrong: the test-selection gate,
the reader and rewriter of package tarballs, the schema linkers, the paid experiment protocols, the run feed of the assistant
view, and the corpus generators. Each module follows one script or one protocol. Code that mutates something is modelled as a class,
an array or a loop and proved against a specification; the properties are then proved of that specification for every input,
every interleaving or every history.

| module | models |
|---|---|
| `Gate`, `GateSafety`, `GateLaws`, `GateReads` | `scripts/gate.ts`: what a test reaches, which tests a change selects, why a skipped test keeps its outcome, and what is read, said of the files alone |
| `TarHeader`, `TarArchive`, `TarModes`, `TarLaws` | `scripts/jaren-artifacts.ts`: the strict ustar reader and the in-place mode normalizer |
| `Foundations` | `scripts/jaren-artifacts.ts`: the artifact manifest and the archive bootstrap |
| `SchemaJson`, `OwnerLinking`, `LinkedMeaning`, `LinkedTwice`, `DeclarationSchemas` | `scripts/research-schema-dependencies.ts`: inlining schema owners without changing what any reference means |
| `SchemaReach`, `GroundProjection`, `ContractClosure` | `scripts/lightrag-report-schema.ts` and `scripts/training-service-contract.ts`: copying and collecting cyclic definitions |
| `Campaign`, `CampaignDecisions` | `benchmark/locomo-policy.ts` with `benchmark/lib/locomo-policy.ts`: the phases of the policy experiment, and what each run records, freezes and decides |
| `PolicyProtocol`, `PolicyReports`, `PolicyJournal`, `PolicyLimits`, `PolicyStrays`, `PolicyFailures` | `benchmark/locomo-policy.ts` with `benchmark/lib/policy-execution.ts`: the journal, report and lock its invocations share; what every run keeps of each, and what a save after the unlock can do |
| `TemporalPurchases`, `ForecastReceipt` | `benchmark/longmemeval-qa.ts` with its transport, and `benchmark/forecast.ts`: buying each planned request at most once |
| `RunFeed` | `examples/assistant-view.ts`: the feed from an observation to a view |
| `QuestionGroups`, `DealingOrders`, `RetrievalCorpus`, `RelevanceSubset` | `scripts/generate-retrieval-corpus.ts` and `benchmark/recall-quality.ts` |
| `Reachability`, `Sequences`, `Text`, `Options` | shared notions: least closed sets and walks, multisets, the order of strings, optional values |

## What stands out

- A test the gate skips has the same files in its module closure in both trees and everything its old reach claims unchanged, so its
  outcome is the same, unless what it reached is gone: reach is computed on the new tree only. Skipping is safe exactly when no file
  the old reach claims was deleted and no package the old closure loads was renamed
  (`GateSafety.SafeExactlyWhenNothingReachedIsGone`); `GateLaws.DeletionIsNotCovered` gives two small trees in which the one test that
  named a deleted file is skipped.
- The mode normalizer needs no bound on modes to produce an archive the reader accepts. Six octal digits is exactly the bound under
  which the rewritten mode stays inside its own field; a longer one spills over the first bytes of the user-id field, which the
  reader does not look at.
- Linking leaves a bare `#` inside an owner as it is, and after linking it opens the linking document. So linking keeps the meaning
  of every reference of the forms the linker handles, to a depth, exactly when each owner that holds such a `#` has a root that
  unfolds as the document's does (`LinkedMeaning.MeaningIsKeptIff`); `LinkedTwice.BareRootReferenceIsCaptured` is a report and an
  owner of recursive items whose items become reports. The same holds of copies into another schema
  (`GroundProjection.CopiesMeanTheSameIff`).
- A report is linked in two passes, and the second leads no reference to the first pass's owners any more. Such a reference stays in
  the declaration exactly where a research reference makes it to an owner that is no research reference itself
  (`LinkedTwice.FirstOwnersRemainIff`).
- The shared lock and the recheck under it make the interleaved policy runs one sequential campaign of sound reports, over every run.
  The journal needs more: an invocation that throws releases the lock without waiting for its requests, and what still happens before
  its process exits saves the whole journal again. Such a save is harmless, then and whatever follows, exactly when it finds what its
  invocation left or what it is about to write, buys under an entry that is new, and nobody at work is disturbed: a process past its
  recheck finds the journal unchanged, or what its own next save will carry (`PolicyStrays.StraySaveIsHarmlessIff`). `PolicyFailures`
  has three runs in which it does harm: a recorded answer is taken back though nobody had written since, a dispatched purchase is lost,
  and one entry is bought twice. A crash leaves the lock behind and can leave a torn report, because the report is not written through
  a temporary file; nothing is then bought until an operator acts, but by such a late save.
- A terminal page that an observation dispatches before `observe` returns ends the feed, but leaves that observation attached: its
  release is assigned after the feed has stopped (`RunFeed.Feed.Follow`). Otherwise an ended feed has released its current
  observation, and stopping releases it in either case. Nothing reaches the view either way.
- A topic of twelve facts is dealt into questions under every shuffle exactly when it has at least three subjects and, beside any
  subject used seven times or more, another one used three times or more (`DealingOrders.DealtInEveryOrderIff`). So it is when none
  is used more than six times.
- A copy that breaks off halfway through the bootstrap blocks every later one until the torn archive is removed, unless the bytes it
  left happen to match.

## Model

| member | source | states |
|---|---|---|
| `Gate.ChangeGate.NamedPaths` | scripts/gate.ts:93-107 | the paths a literal names are exactly its candidate places that are a file, a directory of two segments or the static prefix of a glob in the tree |
| `Gate.ChangeGate.EdgesOf` | scripts/gate.ts:109-130 | memoised or not, the edges of a file are those its content and the tree determine, and the memo stays consistent |
| `Gate.ChangeGate.Walk` | scripts/gate.ts:138-148 | the worklist ends on import cycles with the least set closed under the followed edges, plus what that set names |
| `Gate.ChangeGate.InputsOf` | scripts/gate.ts:138-151 | what a test reaches is the closure from it, the paths the closure names, and its declared extras, and nothing else |
| `Gate.SelectFrom` | scripts/gate.ts:163-176 | full exactly when some changed path forces it; otherwise exactly the tests some changed path picks; one reason per path, in order |
| `Gate.ChangeGate.Select` | scripts/gate.ts:163-176 | the selection for the reach of every test of the tree, computed with one shared memo |
| `Gate.WorkspaceHasManifest` | scripts/gate.ts:79-85 | every workspace was read from the manifest of a listed package directory |
| `Gate.ChangeGate.ImportEdges` | scripts/gate.ts:117-125 | the imports of a module give exactly the modules they load and the manifests they resolve through |
| `Gate.InputsByWalks` | scripts/gate.ts:132-151 | a path is in the reach exactly when some walk from the test leads to it or to a module that names it, or it is declared |
| `Gate.GlobEntriesAddNothing` | scripts/gate.ts:102-147 | a glob entry that is followed like a module adds nothing but itself |
| `GateSafety.EdgesGrow` | scripts/gate.ts:109-130 | a module both closures hold still loads what it loaded, and names what it named up to entries of vanished directories |
| `GateSafety.ReachCoversOldReach` | scripts/gate.ts:138-151 | everything the test reached before is in its reach on the new tree, up to entries of vanished directories and deleted files no test reads |
| `GateSafety.ClaimsCarryOver` | scripts/gate.ts:153-160 | whatever the old reach claims of the new tree, the new reach claims too: what is lost claims nothing that is there |
| `GateSafety.ClosureIsUnchanged` | scripts/gate.ts:138-151 | a test no change touches has the same files in its module closure on both trees |
| `GateSafety.SkippedTestKeepsItsOutcome` | scripts/gate.ts:132-176 | selection safety, with deletions and renames anywhere else in the tree: an outcome of a skipped test that depends on what it reached is the same in both trees, when none of that was deleted or renamed |
| `GateSafety.SafeExactlyWhenNothingReachedIsGone` | scripts/gate.ts:132-176 | skipping a test the gate skips is safe for every outcome exactly when no file its old reach claims was deleted and no package its old closure loads was renamed |
| `GateLaws.SelectionOfSum` | scripts/gate.ts:163-176 | the selection of a concatenation is the join of the selections |
| `GateLaws.SelectionIsUnique` | scripts/gate.ts:163-176 | what a selection must be has exactly one answer: whether it is full, its tests and its reasons |
| `GateLaws.SelectionIsMonotone` | scripts/gate.ts:163-176 | more changed paths never select fewer tests, so neither order nor repetition of the paths matters |
| `GateLaws.ChangedTestIsSelected` | scripts/gate.ts:163-176 | a changed test file selects itself |
| `GateLaws.DeletionIsNotCovered` | scripts/gate.ts:132-176 | two trees and a deletion, all in order otherwise, for which a skipped test's outcome changes |
| `GateReads.EdgesAreReads` | scripts/gate.ts:79-130 | the tables of edges agree with the files: a module loads what its static and dynamic imports name, directly or through the last listed package of that name, and names that package's manifest and what its literals mean |
| `GateReads.InputsByTrails` | scripts/gate.ts:132-151 | a path is in the reach exactly when a trail of such reads leads to it, or to a module that resolves through it or mentions it, or it is declared |
| `GateReads.ImportIsReached` | scripts/gate.ts:117-125 | a static or dynamic import of a reached module brings its target, or the package's manifest and what that exports, into the reach |
| `GateReads.NothingElseIsFollowed` | scripts/gate.ts:117-126 | a file whose imports are for types, in comments or of outside packages, and that has no literals, reaches itself alone |
| `GateReads.ChangedInputSelects` | scripts/gate.ts:163-176 | a test is selected when anything it reaches changed, unless no test reads that |
| `GateReads.DynamicLoaderIsSelected` | scripts/gate.ts:117-176 | a changed module selects the test that imports its package dynamically and the one that imports it statically, not the one that takes its types |
| `GateReads.ClaimedThreeWays` | scripts/gate.ts:153-160 | a path is claimed by itself, below a reached directory, or by a reached glob |
| `GateReads.EveryTestReads` | scripts/gate.ts:25 | the inputs of every test, by name or below |
| `GateReads.NoTestReads` | scripts/gate.ts:27 | the paths read by no test |
| `GateReads.TestsAre` | scripts/gate.ts:164 | the tests are the files below `test/` that end in `.test.ts` |
| `GateReads.FullSaysWhy` | scripts/gate.ts:163-176 | each reason is for its own path, and the suite is full exactly when one of them says so |
| `GateReads.ClaimedTestsRun` | scripts/gate.ts:171-174 | a claimed path counts the tests that claim it and all of those run; unless the suite is full nothing else does |
| `TarHeader.WrittenReadsBack` | scripts/jaren-artifacts.ts:48-53 | a number written as padded octal, a blank and a NUL is read back, wherever in a block it lies |
| `TarHeader.DigitsFit` | scripts/jaren-artifacts.ts:110-111 | how many octal digits a number below a power of eight takes |
| `TarHeader.ChecksumMasksItself` | scripts/jaren-artifacts.ts:54 | two blocks that differ only inside the checksum field have one checksum |
| `TarHeader.ChecksumFits` | scripts/jaren-artifacts.ts:111 | every checksum fits six octal digits |
| `TarHeader.BitOfOr` | scripts/jaren-artifacts.ts:108-110 | the arithmetic `or` is the bitwise one |
| `TarHeader.ExecutableIsExecutable` | scripts/jaren-artifacts.ts:108-110 | setting the execute bits sets all three and keeps the number of octal digits the mode needs |
| `TarArchive.TarEntries` | scripts/jaren-artifacts.ts:62-78 | the scan of the buffer is the recursive reader, with its error for each refusal |
| `TarArchive.ArchiveIsAccepted` | scripts/jaren-artifacts.ts:62-78 | a buffer laid out as members and a zero block is accepted with exactly its members |
| `TarArchive.AcceptedIsArchive` | scripts/jaren-artifacts.ts:62-78 | an accepted buffer has such a layout |
| `TarArchive.AcceptsExactlyTheLayout` | scripts/jaren-artifacts.ts:55-78 | the reader returns entries exactly when they describe a layout of the buffer (the restricted "ustar Interchange Format" of IEEE Std 1003.1, pax) |
| `TarArchive.LayoutIsUnique` | scripts/jaren-artifacts.ts:62-78 | a buffer has at most one layout |
| `TarArchive.EntriesLieInTheBuffer` | scripts/jaren-artifacts.ts:62-78 | offsets are increasing multiples of 512, and headers and contents are disjoint, in bounds and read from where they say |
| `TarModes.PatchInPlace` | scripts/jaren-artifacts.ts:109-111 | one header patched in the shared buffer, mode first and checksum over the result, nothing else touched |
| `TarModes.NormalizeBuffer` | scripts/jaren-artifacts.ts:104-113 | the loop over a fixed list of entries leaves the buffer patched at exactly the listed entries that lacked a bit, and says whether there were any |
| `TarModes.NormalizeModes` | scripts/jaren-artifacts.ts:104-118 | the original bytes when nothing lacked a bit, otherwise the recompressed buffer with the portable OS byte; refusals as the reader's |
| `TarModes.PatchKeepsHeader` | scripts/jaren-artifacts.ts:109-111 | a patched header is still a header, with the new mode and every other field as before |
| `TarModes.NormalizedIsAccepted` | scripts/jaren-artifacts.ts:104-118 | the normalized archive is accepted with the same names, offsets and contents, and execute bits exactly where listed entries lacked them |
| `TarModes.SecondRunFindsNothing` | scripts/jaren-artifacts.ts:104-118 | no entry of a normalized archive lacks a bit |
| `TarModes.NormalizingTwiceIsOnce` | scripts/jaren-artifacts.ts:104-118 | a second run returns its input byte for byte |
| `TarModes.SixDigitModesStayInTheirField` | scripts/jaren-artifacts.ts:110 | only bytes 100 to 107 and 148 to 155 of a header are written exactly when the mode is below eight to the sixth |
| `TarModes.NormalizerKeepsAllElse` | scripts/jaren-artifacts.ts:104-118 | any byte that changed lies in the mode or checksum field of a listed header that lacked a bit |
| `TarLaws.ModesFollowTheList` | scripts/jaren-artifacts.ts:104-113 | entry by entry: a file on the list, under `package/` or without it, gets exactly its three execute bits and keeps every other; any other entry keeps its mode; names, places and contents stay |
| `TarLaws.NormalizedModesFollow` | scripts/jaren-artifacts.ts:104-118 | so it is through compression, and bytes in which no listed file wants a bit come back as they are |
| `TarLaws.ChecksumCountsBlanks` | scripts/jaren-artifacts.ts:54 | the checksum is the sum of all bytes of the block with its own eight counted as blanks |
| `TarLaws.AcceptedHeaderSays` | scripts/jaren-artifacts.ts:62-78 | an accepted header says "ustar" and a NUL, is of a regular file, has no prefix, holds the sum of its bytes, and the entry is what its fields say |
| `TarLaws.NumberMayBePadded` | scripts/jaren-artifacts.ts:48-53 | a number is read through white space before and behind it, and whatever follows a NUL |
| `TarLaws.RefusalSays` | scripts/jaren-artifacts.ts:65-75 | each refusal of a block means that what is checked before it was in order and this was not |
| `TarLaws.PackedIsAccepted` | scripts/jaren-artifacts.ts:62-78 | an archive of one file with its real checksum is accepted with that file |
| `TarLaws.PackedIsMadeExecutable` | scripts/jaren-artifacts.ts:104-113 | with `cli.js` on the list its `package/cli.js` becomes 0o755, without it nothing changes |
| `Foundations.ReadManifest` | scripts/jaren-artifacts.ts:122-161 | the loop accepts exactly the manifests whose packages are distinct, well named, at one version, and depend only on each other |
| `Foundations.AcceptedIsClosed` | scripts/jaren-artifacts.ts:135-159 | following dependencies from packages of an accepted manifest never leaves it and never finds the legacy package |
| `Foundations.FilenamesAreDistinct` | scripts/jaren-artifacts.ts:135-141 | no two packages of an accepted manifest share an archive |
| `Foundations.PackageNamesAre` | scripts/jaren-artifacts.ts:137 | a package's name is the scope and then small letters and hyphens, one at least |
| `Foundations.AcceptedRecordsOneVersion` | scripts/jaren-artifacts.ts:136-159 | an accepted manifest records scoped packages at one version, whose dependencies are packages of the manifest at that version, exact or with a caret |
| `Foundations.RangeDecides` | scripts/jaren-artifacts.ts:154-159 | two packages, one on the other, are accepted at these two ranges and at no other |
| `Foundations.VerifiedHoldsRecordedBytes` | scripts/jaren-artifacts.ts:193-207 | every archive of a verified directory is recorded and has both recorded digests |
| `Foundations.ArchiveDirectory.VerifyArchives` | scripts/jaren-artifacts.ts:193-207 | passes exactly when every archive present is recorded and matches, and none is missing when all are required |
| `Foundations.Pack` | scripts/jaren-artifacts.ts:225-244 | with distinct filenames the temporary directory holds the bytes each record was computed from |
| `Foundations.RecordSays` | scripts/jaren-artifacts.ts:225-244 | what is recorded of a packed archive is its own name, version, digests, files and dependencies |
| `Foundations.CopiesMatch` | scripts/jaren-artifacts.ts:309-312 | copying rebuilt archives that equal the record keeps the directory verified after each copy |
| `Foundations.ArchiveDirectory.Bootstrap` | scripts/jaren-artifacts.ts:277-315 | no archive is written before the rebuilt closure equals the manifest; success, whose exact condition is given, leaves exactly the recorded archives; a clean fault leaves only matching ones |
| `Foundations.SuccessSettles` | scripts/jaren-artifacts.ts:281-284 | after a success every further bootstrap of that manifest finds the directory complete and copies nothing |
| `Foundations.TornArchiveBlocks` | scripts/jaren-artifacts.ts:193-207 | what a broken copy leaves lets the next bootstrap begin exactly when it matches |
| `OwnerLinking.WithOwners` | scripts/research-schema-dependencies.ts:11-29 | the loops over owners and replacements build the linked document |
| `LinkedMeaning.KnownCorresponds` | scripts/research-schema-dependencies.ts:16-27 | a rewritten reference resolves in the linked document to the rewritten body of what the original resolved to |
| `LinkedMeaning.OpensTheSame` | scripts/research-schema-dependencies.ts:11-29 | opening any known reference to any depth is the same after linking as in the original documents, where owners that refer to their own root by `#` have a root like the document's (references as in JSON Schema Core 2020-12, section 8.2.3) |
| `LinkedMeaning.UnfoldsTheSame` | scripts/research-schema-dependencies.ts:11-29 | so is unfolding any schema built from known references |
| `LinkedMeaning.MeaningIsKeptIff` | scripts/research-schema-dependencies.ts:11-29 | over linkages whose owners may refer to their own root by a bare `#`: every known reference of every part opens as it did, to a depth, exactly when the root of each owner that holds such a reference unfolds as the document's root to any smaller depth |
| `LinkedMeaning.BareOpensTheDocument` | scripts/research-schema-dependencies.ts:18-27 | a bare `#` of any part, rewritten, opens the root of the linking document |
| `LinkedTwice.NoOwnerReferenceRemains` | scripts/research-schema-dependencies.ts:23-27 | no reference of the linked document leads to a listed owner's identity |
| `LinkedTwice.SecondPassIsLinkable` | scripts/research-schema-dependencies.ts:33-38 | the linked document meets the conditions for being linked again, to owners it knew how to name |
| `LinkedTwice.OpensTheSameAfterBothPasses` | scripts/research-schema-dependencies.ts:33-38 | meaning survives the nested second pass, where owners that refer to their own root are alike in either pass |
| `LinkedTwice.FirstOwnersRemainIff` | scripts/research-schema-dependencies.ts:33-38 | after both passes a reference to an owner of the first is left exactly where a document of the second makes it and the second does not link that owner too |
| `LinkedTwice.OwnerRootMeansTheSame` | scripts/research-schema-dependencies.ts:18-21 | an owner of the first pass stands in the final document under its prefixed root, and unfolds as it does by itself |
| `DeclarationSchemas.NamesFromPrefixes` | scripts/research-schema-dependencies.ts:20-25 | prefixes that end in their only underscore are enough for names that do not clash, when nobody uses another's prefix |
| `DeclarationSchemas.NumberedPrefixesAreOk` | scripts/research-schema-dependencies.ts:31 | the numbered prefixes are apart, however many references there are |
| `DeclarationSchemas.ReportPrefixesAreOk` | scripts/research-schema-dependencies.ts:34-37 | the prefixes of a report's owners are apart, whichever of them are listed |
| `DeclarationSchemas.ResearchDeclarationSchema` | scripts/research-schema-dependencies.ts:30-32 | for a document in order every known reference opens in the output as it did in its own document, exactly to the depths at which owners that refer to their own root are like the document, and no research document is referred to any more; each stands in the output under its number and means what it means by itself |
| `DeclarationSchemas.ResearchReportDeclarationSchema` | scripts/research-schema-dependencies.ts:33-38 | for a report in order every reference both passes know opens in the output as it did at first, where owners that refer to their own root are alike in either pass, names cannot clash, and no research document is referred to any more; research, run identity and the three MAS documents always, lessons unless the report is the lessons document, and domains, ablation and audit for the research report alone stand in the output under their own prefixes, mean what they mean by themselves, and are referred to from nowhere but a research reference that is none of them |
| `LinkedTwice.IdentityIsKept` | scripts/research-schema-dependencies.ts:23-27 | a document keeps its `$id` exactly when it is not among its owners |
| `LinkedTwice.BareRootReferenceIsCaptured` | scripts/research-schema-dependencies.ts:18-22 | a linkable report and an owner with `$ref: "#"` inside: the copy of the owner's root, unfolded one level or more, differs from the owner's own |
| `ContractClosure.Collector.Include` | scripts/training-service-contract.ts:16-28 | adds what a value needs, closed over cycles, keeps what was there, and fails only on a missing name that is needed |
| `ContractClosure.Collect` | scripts/training-service-contract.ts:15-29 | succeeds exactly when every reachable definition exists, and returns exactly those, unchanged |
| `ContractClosure.NeededIsCollected` | scripts/training-service-contract.ts:15-29 | what is collected covers the operations, is closed under references, and is the least such part of the schema |
| `ContractClosure.CollectedUnfoldsTheSame` | scripts/training-service-contract.ts:15-29 | a value covered by the collected definitions unfolds among them as in the whole schema, to any depth and through any cycle |
| `GroundProjection.Projector.Project` | scripts/lightrag-report-schema.ts:7-18 | the renamed value, with a renamed copy placed for exactly the names it reaches, once each |
| `GroundProjection.Projector.Place` | scripts/lightrag-report-schema.ts:11-14 | places a marker before copying, so a cycle ends |
| `GroundProjection.Rebuild` | scripts/lightrag-report-schema.ts:6-30 | the whole script: old copies deleted, exactly the reachable definitions copied under their new names, the two summaries stored, everything else kept |
| `GroundProjection.CopiesAreNeeded` | scripts/lightrag-report-schema.ts:7-18 | nothing is copied that the two roots do not reach |
| `GroundProjection.RebuildingIsAFixpoint` | scripts/lightrag-report-schema.ts:6-30 | rerunning on its own output changes nothing |
| `GroundProjection.StoredRecordsAre` | scripts/lightrag-report-schema.ts:6-30 | the attempt is stored from `liveQuestionResult` and the summary from `liveRow`; whatever else is no copy stays as it was |
| `GroundProjection.CopiesResolve` | scripts/lightrag-report-schema.ts:11-14 | every reference in a copy leads to a copy |
| `GroundProjection.CopyUnfoldsTheSame` | scripts/lightrag-report-schema.ts:7-18 | a copy unfolds to any depth, through any cycle, as its original does, where a reference to the own root finds a root that unfolds alike |
| `GroundProjection.CopiesMeanTheSameIff` | scripts/lightrag-report-schema.ts:7-18 | the references of the copied definitions open as in the ground schema exactly when none of them is a bare `#` or the two schemas' roots unfold alike |
| `GroundProjection.RebuiltIsCopy` | scripts/lightrag-report-schema.ts:6-30 | the script's output is such a copy, whenever the ground schema defines what it needs |
| `Campaign.DropCells` | benchmark/locomo-policy.ts:376-391 | the census keeps exactly the cells it did not drop, in order |
| `Campaign.MergeAttempts` | benchmark/locomo-policy.ts:430-431 | the attempts merge one after another, or the first refusal stands |
| `Campaign.RunPhase` | benchmark/locomo-policy.ts:349-459 | one authorized run makes of the report what the phase specification says |
| `Campaign.AdvanceKeepsSound` | benchmark/locomo-policy.ts:349-459 | every run keeps the report sound: census before answers, a complete selection before the challenger, only three cells in confirmation, a decision that stands on an eligible comparison |
| `Campaign.AdvanceIsLater` | benchmark/locomo-policy.ts:349-459 | a run only moves the campaign on: the census and the challenger stay once made, and no successful answer changes |
| `Campaign.ConfirmedWentThroughEveryPhase` | benchmark/locomo-policy.ts:398-450 | a confirmed report has a census, eligible selection attempts for every surviving cell, a frozen challenger and eligible confirmation attempts for exactly three cells, and no phase is open |
| `Campaign.DefaultRunReducesPending` | benchmark/locomo-policy.ts:252-259 | a default run that buys an eligible attempt removes exactly that cell from what is pending |
| `Campaign.ChallengerIsTheRegisteredOne` | benchmark/lib/locomo-policy.ts:1890-1918 | the challenger is the eligible candidate ahead by delta, then identity, among those that clear the constraints if any does |
| `CampaignDecisions.ComparisonsAreJudged` | benchmark/locomo-policy.ts:432-438 | the comparisons of a phase are exactly the judge's of each other cell's live attempt against the inert one's |
| `CampaignDecisions.RunRecordsItsComparisons` | benchmark/locomo-policy.ts:432-439 | a run leaves exactly those for its phase, and those of other phases as they were |
| `CampaignDecisions.ConfirmationDecides` | benchmark/locomo-policy.ts:440-450 | a confirmation run decides exactly when its three cells are answered: the default is the challenger exactly if the judge's eligible comparison of the challenger's live attempt against the inert one's promotes it, and the inert cell exactly if not |
| `CampaignDecisions.ConfirmationFailsIff` | benchmark/locomo-policy.ts:430-450 | it fails exactly when an attempt is refused or all three cells are answered and that comparison is not eligible |
| `CampaignDecisions.SelectionFreezes` | benchmark/locomo-policy.ts:440-445 | a selection run freezes a challenger exactly when every surviving cell is answered and some comparison nominates one; it is the registered choice |
| `CampaignDecisions.CensusDrops` | benchmark/locomo-policy.ts:376-391 | a census run drops exactly the named cells and changes nothing else |
| `CampaignDecisions.ConfirmationGoesInOrder` | benchmark/locomo-policy.ts:252-259 | a default confirmation run answers the inert cell, then the shipped one, then the challenger |
| `CampaignDecisions.RequestsArePlanned` | benchmark/locomo-policy.ts:250-260 | a named request plans the named cells of the phase or nothing, and all plans the phase's cells |
| `CampaignDecisions.AdvanceKeepsRegistered` | benchmark/lib/locomo-policy.ts:628-641 | every attempt of a report is of a registered cell, and none is of the confirmation while the report is open |
| `CampaignDecisions.PhasesFollow` | benchmark/lib/policy-execution.ts:121-133 | a census needs a frozen shortlist and no answer yet, a selection the census and no challenger, a confirmation both, and none goes on after the decision |
| `CampaignDecisions.AnsweredIff` | benchmark/locomo-policy.ts:253 | a cell is answered by a live eligible attempt of the phase, and by nothing else |
| `PolicyProtocol.OneHolder` | benchmark/locomo-policy.ts:323-326 | over every run at most one invocation is between its lock and its unlock, and the lock file is its own |
| `PolicyProtocol.CrashedLockStopsEverything` | benchmark/locomo-policy.ts:323-326 | while the lock of a crashed invocation lies there, whatever else changes a file, dispatches or publishes is a late save of an invocation that had unlocked before |
| `PolicyReports.EveryEventKeepsReports` | benchmark/locomo-policy.ts:261-469 | whatever event happens next, in any invocation, late saves included, the published reports stay linked and sound and every process works on the current one |
| `PolicyReports.PublishedReportsAreOneCampaign` | benchmark/locomo-policy.ts:326-469 | over every run the published reports form one sequential campaign of phase steps, each report sound, however the invocations interleave, crash or save late |
| `PolicyReports.ConfirmedWasDecided` | benchmark/locomo-policy.ts:440-450 | over every run a confirmed report was decided by one published confirmation step, whose judge promotes the challenger exactly if that is the default |
| `PolicyReports.ApprovedInferenceStays` | benchmark/locomo-policy.ts:268 | over every run the inference that is approved once stays approved |
| `PolicyLimits.InvocationsStayWithinTheirLimit` | benchmark/lib/policy-execution.ts:26-31 | over every run an invocation records no more requests than its own limit, also after it unlocked, keeps the entries it found, and never starts on a journal that has reached the ceiling |
| `PolicyLimits.LateSavesKeepEarlierEntries` | benchmark/lib/policy-execution.ts:40-46 | a late save leaves the entries its invocation found as they were |
| `PolicyLimits.TheFirstJournalIsEmpty` | benchmark/locomo-policy.ts:262-264 | over every run the first journal that is written is empty |
| `PolicyLimits.OnlyACrashLeavesTheLock` | benchmark/locomo-policy.ts:323-469 | over every run the lock lies there only for an invocation that will still release it, or for one that crashed |
| `PolicyLimits.PublishedCountIsTheJournals` | benchmark/locomo-policy.ts:462 | a report that ends a phase is published with the number of requests the journal records |
| `PolicyJournal.StraySaveIsSafeIff` | benchmark/lib/policy-execution.ts:29-64 | a save after the unlock, of an answer, a remembered reply or a new request, extends the journal, buys something new and keeps the journal's invariant exactly when it is undisturbing |
| `PolicyJournal.EveryEventKeepsJournal` | benchmark/lib/policy-execution.ts:29-64 | every event keeps the journal's invariant, a save after the unlock if it is undisturbing |
| `PolicyJournal.JournalGrowsOverARun` | benchmark/locomo-policy.ts:331-335 | over any run whose late saves are undisturbing, a later journal on disk continues any earlier one: nothing removed, only waiting entries settled, remembered replies unchanged |
| `PolicyJournal.PurchasesStayBelowTheCeiling` | benchmark/lib/policy-execution.ts:25-40 | over any such run every dispatched request is recorded under its own entry, and there are at most as many as the ceiling |
| `PolicyJournal.NothingIsBoughtTwice` | benchmark/lib/policy-execution.ts:29-46 | whatever event dispatches does so under an entry that is on disk and was not dispatched before; all others dispatch nothing |
| `PolicyStrays.StraySaveIsHarmlessIff` | benchmark/lib/policy-execution.ts:29-64 | a save after the unlock is harmless exactly when it is undisturbing; otherwise it takes something off the journal or buys an entry twice itself, or the processes then at work can do so without any further late save |
| `PolicyStrays.WritersAreNotStale` | benchmark/locomo-policy.ts:327-330 | whoever changes the journal or the report holds the lock and planned from what it replaces, or has unlocked and finds exactly the journal it left |
| `PolicyFailures.AnswerIsTakenBack` | benchmark/lib/policy-execution.ts:40-46 | a run reaches a state in which a late answer extends the journal its invocation left, and the ordinary save of the next invocation takes the answer back |
| `PolicyFailures.PurchaseIsLost` | benchmark/lib/policy-execution.ts:40-46 | a run reaches a state in which a late answer takes a dispatched purchase of the next invocation off the journal |
| `PolicyFailures.PurchaseIsDoubled` | benchmark/lib/policy-execution.ts:29-40 | a run reaches a state in which a late request and the next invocation's request go out under one entry, while the journal has only grown |
| `TemporalPurchases.EveryEventKeepsInv` | benchmark/longmemeval-qa.ts:31-50 | every event of every invocation keeps the journal invariant |
| `TemporalPurchases.EachJobIsBoughtAtMostOnce` | benchmark/lib/temporal-live.ts:105-165 | over any run no planned job is dispatched twice, each dispatched one has its receipt on disk, and requests and reserved dollars stay within the campaign |
| `TemporalPurchases.OnlyItsOwnJournal` | benchmark/lib/temporal-live.ts:107-124 | an invocation comes to work exactly on a journal of its own plan and limits, with one receipt for each of its jobs at its own cost; only a live one starts one |
| `TemporalPurchases.NoUpdateIsLost` | benchmark/longmemeval-qa.ts:31-37 | a save continues the journal on disk: read-modify-write with nothing lost |
| `TemporalPurchases.ReplayChangesNothing` | benchmark/longmemeval-qa.ts:34-39 | a replay writes nothing, dispatches nothing and creates no journal |
| `TemporalPurchases.PurchasesRespectTheRun` | benchmark/lib/temporal-live.ts:125-151 | over any run the purchases under one run id stay within the limit every approval of that id sets |
| `TemporalPurchases.FlightsStayWithinTheConcurrency` | benchmark/lib/temporal-live.ts:147-164 | over any run no invocation has more requests in flight than its plan allows |
| `TemporalPurchases.OnlyACrashLeavesTheLock` | benchmark/longmemeval-qa.ts:31-50 | over every run the lock lies there only for an invocation that will still release it, or for one that crashed |
| `TemporalPurchases.OverdrawnBuysNothing` | benchmark/lib/temporal-live.ts:146 | over any run, once a reply on disk exceeds its declared tokens no entry is added and nothing is dispatched any more, by whichever invocation |
| `TemporalPurchases.PurchaseStaysInDollars` | benchmark/lib/temporal-live.ts:148-149 | a purchase leaves both the reserved and the reported dollars of the campaign within its approval, whatever earlier providers charged |
| `TemporalPurchases.PriceIsPerMillion` | benchmark/lib/temporal-live.ts:148 | a million tokens cost the price per million |
| `TemporalPurchases.SettledSays` | benchmark/lib/temporal-live.ts:160-164 | an answered request is completed exactly for a success status within its declared tokens, one without an answer is unknown |
| `TemporalPurchases.ServedIff` | benchmark/lib/temporal-live.ts:138-144 | a job is served exactly when its receipt holds a reply to this very request within the declared tokens, and with that reply |
| `TemporalPurchases.ReportedStaysInBudget` | benchmark/lib/temporal-live.ts:115-117 | while no provider exceeds its declared tokens, reported cost stays within the campaign's dollars |
| `TemporalPurchases.ReceiptsAreStable` | benchmark/lib/temporal-live.ts:138-144 | a reply served from a receipt is served unchanged for ever |
| `ForecastReceipt.AtMostOneExecution` | benchmark/forecast.ts:19-25 | over any interleaving and crashes a plan is executed at most once in a directory, and a claimed receipt turns away every later invocation |
| `ForecastReceipt.EndedMeansExecuted` | benchmark/forecast.ts:23-25 | a receipt that reports an end belongs to an execution that started |
| `ForecastReceipt.ReceiptSaysHowItEnded` | benchmark/forecast.ts:23-25 | over any run a receipt says a result exactly where an execution under it succeeded, and is incomplete exactly where one failed |
| `ForecastReceipt.ReceiptsTellPlans` | benchmark/forecast.ts:22 | two plans never share a receipt in a directory |
| `RunFeed.ProjectRunSummary` | examples/assistant-view.ts:24-44 | a report is running or ended; it is running exactly for the server's two running statuses; an unknown status is a failure that says why |
| `RunFeed.ReportSaysWhatTheServerSays` | examples/assistant-view.ts:24-44 | the report tells the five known statuses apart, shows an unknown one as a failure in the server's words, and has progress exactly where the server names a stage or a safe step |
| `RunFeed.OtherRunsChangeNothing` | examples/assistant-view.ts:65-76 | a message of another attempt or run, or after the stop, changes nothing; a failure or a newer page of its own does what it should |
| `RunFeed.FeedRefinesHistory` | examples/assistant-view.ts:56-81 | one revision, one report and one flag agree at every moment with what the whole history says should be shown |
| `RunFeed.NothingAfterTheEnd` | examples/assistant-view.ts:62-65 | after a terminal page or a stop nothing more reaches the view |
| `RunFeed.ShownRevisionsIncrease` | examples/assistant-view.ts:71-75 | between resets the shown revisions strictly increase |
| `RunFeed.FailureOnlyOverlays` | examples/assistant-view.ts:66-70 | a failed read shows the retained report with the host's text and changes nothing else |
| `RunFeed.ForeignMessagesHaveNoEffect` | examples/assistant-view.ts:65 | messages of another attempt or run leave no trace |
| `RunFeed.NewestPageWins` | examples/assistant-view.ts:71-75 | however a run's pages are repeated and reordered, the view ends on the newest one |
| `RunFeed.Feed.Dispatch` | examples/assistant-view.ts:64-77 | one message advances the feed by one step of that history, adds a resumption only for an own failure, and releases the current observation when it ends |
| `RunFeed.Feed.Follow` | examples/assistant-view.ts:63-78 | messages dispatched inside `observe` count; a feed they end releases the observation before and leaves the new one unreleased; the resumptions they ask for are the stated ones |
| `RunFeed.Feed.Resume` | examples/assistant-view.ts:68 | a resumption follows from its cursor with the whole effect stated, or does nothing once the feed is over |
| `RunFeed.EndedRunEndsInside` | examples/assistant-view.ts:64-77 | a host and a page for which the feed ends inside `observe` |
| `RunFeed.Feed.StopFeed` | examples/assistant-view.ts:62 | stopping releases the current observation, also one a feed that ended inside `observe` left, and shows nothing |
| `RunFeed.PollRunSummary` | examples/assistant-view.ts:89-106 | the view is shown exactly the answers up to the end; polling ends with the summary that ends the run, and only an abort makes it end with nothing |
| `RunFeed.OnlyRunningGoesOn` | examples/assistant-view.ts:101 | polling goes on for a queued or running run alone |
| `RunFeed.PollAndFeedShowTheSame` | examples/assistant-view.ts:56-106 | polling and observing the same answers show the view the same reports and end at the same one |
| `RunFeed.ServerProjectionEndsAlike` | examples/assistant-view.ts:24-44 | the server's own projection ends a run where polling does, as that comparison asks |
| `QuestionGroups.PickSucceedsIff` | scripts/generate-retrieval-corpus.ts:444-449 | a group is filled exactly when the pool has that many subjects |
| `QuestionGroups.DealablePoolsAreDealt` | scripts/generate-retrieval-corpus.ts:435-453 | twelve facts over three subjects or more, with a rival used three times beside any subject used seven times, are dealt in any order |
| `QuestionGroups.FairPoolsAreDealt` | scripts/generate-retrieval-corpus.ts:435-453 | in particular when no subject is used more than six times |
| `DealingOrders.FailingOrder` | scripts/generate-retrieval-corpus.ts:449-450 | any other topic with three subjects has an order for which the generator throws |
| `DealingOrders.DealtInEveryOrderIff` | scripts/generate-retrieval-corpus.ts:435-453 | a topic is dealt in every order exactly when it meets that condition |
| `RetrievalCorpus.DealtUnderEveryShuffleIff` | scripts/generate-retrieval-corpus.ts:436-453 | the same over the exchanges a shuffle makes, which lead to every order |
| `QuestionGroups.TakeGroup` | scripts/generate-retrieval-corpus.ts:444-451 | the scan and the splices are the specified pick and what it leaves |
| `QuestionGroups.DealGroups` | scripts/generate-retrieval-corpus.ts:441-454 | the groups partition the topic's facts, have the registered sizes in order, and distinct subjects inside each |
| `RetrievalCorpus.DrawFacts` | scripts/generate-retrieval-corpus.ts:335-351 | twelve distinct statements per topic, in topic order, each from its topic's vocabulary |
| `RetrievalCorpus.FactComposes` | scripts/generate-retrieval-corpus.ts:286-287 | a fact's text is a subject with its first letter raised, a verb and an object of its own topic, and a full stop |
| `RetrievalCorpus.DistractorIff` | scripts/generate-retrieval-corpus.ts:369-401 | distractors are exactly the sentences of one topic's words, and those of a fact's subject with the words of another topic than the fact's |
| `RetrievalCorpus.AddDistractors` | scripts/generate-retrieval-corpus.ts:369-410 | records grow to the size, keep what was there, and no two state the same |
| `RetrievalCorpus.ShuffleKeepsLabels` | scripts/generate-retrieval-corpus.ts:405-410 | any permutation of the small corpus keeps every fact's record and what it states |
| `RetrievalCorpus.DrawRecords` | scripts/generate-retrieval-corpus.ts:355-410 | the large corpus with every gold record inside its small prefix and all statements distinct |
| `RetrievalCorpus.IdsAreInOrder` | scripts/generate-retrieval-corpus.ts:412-414 | padded ids compare as text the way positions do |
| `RetrievalCorpus.IdsOfTheLargeCorpus` | scripts/generate-retrieval-corpus.ts:412-414 | the first and the last id of the large corpus, spelled out |
| `RetrievalCorpus.GoldStatesTheFact` | scripts/generate-retrieval-corpus.ts:421-424 | a gold id names one memory, which states the fact and lies in the small corpus |
| `RetrievalCorpus.LabelMemories` | scripts/generate-retrieval-corpus.ts:412-424 | the memories in record order and a gold id for every fact |
| `RetrievalCorpus.AskAll` | scripts/generate-retrieval-corpus.ts:435-487 | every fact is asked exactly once, in questions of the registered sizes that carry its gold id; it fails exactly when some topic is not dealt under its shuffle, which no dealable topic is |
| `RetrievalCorpus.Generate` | scripts/generate-retrieval-corpus.ts:330-503 | a generated corpus has all of these at once, every memory states a fact or is a distractor, and the generator throws only when some topic is not dealable and its shuffle is one of those that fail |
| `Text.PaddedOrder` | scripts/generate-retrieval-corpus.ts:412-414 | numbers padded to the width of the largest compare as text as they do as numbers |
| `RelevanceSubset.SmallestSubsetIsTheJudged` | benchmark/recall-quality.ts:20-25 | when every judged id names a document, the smallest accepted size is their number and that subset is exactly the judged documents |
| `RelevanceSubset.RefusedIff` | benchmark/recall-quality.ts:20-22 | a size is refused exactly when it is no safe integer, below the number of judged ids or above the number of documents |
| `RelevanceSubset.SubsetIsLabelled` | benchmark/recall-quality.ts:19-27 | exactly the asked number of documents, sorted by id, holding every judged one |
| `RelevanceSubset.SubsetsAreNested` | benchmark/recall-quality.ts:19-27 | smaller subsets are contained in larger ones, and the full size is a permutation of the corpus |
| `RelevanceSubset.UnjudgedAreTakenByDigest` | benchmark/recall-quality.ts:23-25 | no unjudged document of a subset has a greater digest than a document left out |

## Left out

- SkippedTestKeepsItsOutcome: assumes that a glob matches only below its static prefix, that package names are unique, and that modules of the old closure that are among the paths no test reads did not change, because the gate never looks at those.
- Select: the table of declared extras is a parameter, so the results hold for any such table; glob matching is a parameter too.
- NamedPaths: the lexing of imports and string literals and the pattern tests inside `named` are content of the modelled file; which candidate exists in the tree is modelled.
- The packed-consumer and Bun legs of the gate, its durations and its argument parser.
- NormalizeModes: gunzip and gzip are an inverse pair that ignores the OS byte (RFC 1952, section 2.3); the byte sits at index 9.
- ReadManifest: the format checks of pins, digests, directories and member paths, which only make acceptance stricter; the digests themselves are parameters.
- Pack: npm, git and the sort by package name; packages are taken in name order. Comparing file lists and installed packages is not modelled.
- WithOwners: replacements act on whole string values rather than on the serialized bytes, so rewriting of object keys and of quotes inside strings is not captured; `UnfoldsTheSame` requires that no other text reads like a reference.
- MeaningIsKeptIff: JSON pointers deeper than a definition, and anchors other than a document's own, are outside the forms it covers.
- Rebuild: the script's edits of the attempt and the summary are two functions given as parameters; key order and the emitted types are left out.
- Advance: the statistics behind a comparison, and the recomputation of stored identities before a run, are parameters or left out.
- EveryEventKeepsJournal: a save that fails counts as one that leaves no request in flight; liveness is not claimed: a crash keeps the lock until an operator removes it, and leaving the process inside the locked region counts as a crash. The evidence and Markdown files are left out.
- EachJobIsBoughtAtMostOnce: requests of one invocation are awaited one after another, and an answer after the deadline is dropped, so none is saved after the lock; money is exact rather than floating point; a save is one step, as its rename is; endpoint, body and header checks are left out.
- AtMostOneExecution: the dry-run path and the keyless report are left out.
- Feed: a view whose `update` throws or stops the feed from inside is not modelled; neither is the HTTP transport.
- Generate: draws and shuffles are inputs, so termination of rejection sampling is not claimed; tags, evidence, timestamps and question wording are left out.
- Subset: the digest is a parameter; what follows holds for any digest, colliding or not.
- The remaining benchmark entry points, schema emitters and examples, which are wiring over libraries.
