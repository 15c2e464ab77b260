# Catalog crawler: evidence, publication and recovery

This project models the part of the PartSouq catalog crawler that has to keep its promises while processes
crash, commits lose their answer, workers run side by side and the site changes under them. The SQL tables
are maps and sequences held by classes or by values, SHA-256, zlib and JSON printing are uninterpreted
functions, and a page is a list of links with decoded query pairs, text and table cells. Everything else
follows the code branch by branch, including the places where the code and its comments disagree.

Methods with loops and classes with fields stand for the code that works step by step; each is proved
equal to a specification function, or its contract states outright what it achieves. The main results are
lemmas about these functions and about runs of whole systems of processes.

## What is proved

**Evidence** (`RunEvidence`, `EvidenceVerifiers`, `EvidenceStreams`, `EvidenceRefinement`,
`EvidenceMeaning`, `Canonical`). A run is sealed by one of two verifiers. The batch verifier loads all rows
and compares sets; the streaming verifier keeps counters and looks at adjacent rows only. What acceptance
means is written out on the rows: every part has exactly one accepted record with its digests, every record
is rooted, every artifact was fetched live, restores and replays. Each verifier accepts exactly such runs,
so altering the payload of one part, a record, a body or an artifact makes both refuse. The streaming one
accepts exactly what the batch one accepts with the number of source parts as target, no scope, evidence of
the current attempt only and a dataset that is not empty, and both then seal the same manifest, dataset
text and totals. The vehicle identity pre-image and the dataset pre-image are shown to be injective, the
latter up to order.

**What pages say** (`LinkMeaning`, `CatalogMeaning`, `VehicleMeaning`, `GroupMeaning`, `PartMeaning`,
`PartReader`, `GroupOrder`, `GroupCounter`). For each of the five parsers the records, the skipped links and
the faults are described on the links, texts and cells of the page, without the parser's own steps: from
which row and which column a field comes, which link confirms it, which rows are left out and why. Group
parsing is independent of link order, except for one counter, whose exact condition is stated.

**Sanitised replay** (`Sanitizer`, `SanitizerMeaning`, `Redactor`, `GroupParse`, `GroupReader`,
`GroupReplay`, `CatalogParse`, `CatalogReplay`, `VehicleReplay`, `StoredContext`, `PartParse`). A stored
page is the live page with its request tokens renamed by one injective table, which numbers them by their
first appearance. Model, category, group and part pages replay to the same
public records. Vehicle pages replay if and only if no two links without any request value collapse while
standing for different specifications. The stored context of a page serves every page exactly when
normalising it changed nothing. Merging part rows on the page is the same as merging them in the table.

**Writing and publishing** (`PartStore`, `GroupCrawl`, `Interleaving`, `Publication`, `RunSteps`,
`Finalizer`, `RunRows`, `GroupTable`, `GroupRows`, `GroupCollation`, `GroupClosure`, `Dispatch`,
`VehicleKeys`). The
parts-and-receipt block can be replayed, and a group is stored exactly when its attempts go through; a
receipt is honoured by its rows; bounded runs write the first eligible unseen parts in page order that the
quota leaves room for, and conserve it as long as every commit outcome is known; the commits of parallel
workers may interleave in any way, and a block of another run leaves a receipt that it does not replace
honoured exactly when it writes none of its rows. The published snapshot is empty or exactly 10,000 rows of
one published run, over any interleaving of processes, faults, crashes and unanswered commits, and nothing
is published unless every gate, written out on its facts, held. The group identity cache changes nothing as
long as the collation of the table keeps the texts of a category apart, the closure check is exact and
stable, and vehicle dispatch settles every vehicle key once within its cap.

**Migrations** (`ScriptSplitter`, `ScriptLoop`, `ScriptGrammar`, `ScriptQuoting`, `ScriptPieces`,
`ScriptRoundTrip`, `ScriptDelimiters`, `MigrationLedger`, `LedgerMeaning`, `LedgerSafety`, `Admission`,
`AdmissionRuns`). The script lexer accepts exactly the scripts that a grammar of letters, quotations,
comments, delimiters and directives spells, and returns the statements the grammar tells: quoted or
commented text is never cut. Splitting undoes joining for exactly the usable delimiters. A ledger is
accepted exactly when it is legal row by row; ledgers stay retryable over every history of applies,
failures and crashes, and a call that carries everything through passes its closing validation. While a
migration executes, no crawl is under its committed marker, unless a cleanup took the marker of a direct
crawl from an earlier month; and crawls and migrations do get through, one after the other.

**Rate, restart and retry** (`Governor`, `GovernorPace`, `RestartBreaker`, `BreakerMeaning`, `ChildStarts`,
`Retry`, `BrowserSession`, `SessionSharing`). Bounds on grants in every window, on restart requests and
child starts across supervisor deaths, on requests and refreshes of one call, and on refreshes across
processes and during back-off, each with its counterpart: a burst is served, a sparse row of restarts
passes, every challenge is answered, a new session is shared.

## Where the code does less than it says

Each of these is stated by the member named; where a promise fails, a lemma gives the situation, and the
promise is proved under the exact condition for it.

- Vehicle links without brand, token and vehicle id are told apart by their spelling only, which the
  stored page no longer has: `VehicleReplay.BareLinksCollapse` builds such pages, and
  `VehicleReplay.ReplayPreservesVehicles` holds exactly without them.
- The image-only counter of a clean page depends on whether a picture or its text comes first:
  `GroupOrder.ImageOnlyDependsOnOrder`. It is the same for every order exactly when no group is shown both
  ways: `GroupCounter.ImageOnlyIsOrderIndependentIff`.
- A delimiter that spells an inner piece of the word DELIMITER, opens a quote or a comment, or is a lone
  slash or two dashes can swallow or cut statements: `ScriptRoundTrip.KeywordDelimiterLosesStatements`.
  All others are fine: `ScriptDelimiters.RoundTripsIffUsable`.
- Retrying migration 13 or 14 re-claims migration 15. If a later migration is present, or an earlier one
  was never claimed, a failure then leaves a ledger that no retry arguments open again:
  `LedgerSafety.SupersededRetryIsSafeIff`.
- A truncated bounded write takes rows from a full run whose receipt stays:
  `PartStore.TruncatedWriteStealsMembership`. The receipt stays honoured exactly when the rows are apart:
  `GroupCrawl.Worker.OtherRunKeepsHonouredIff`.
- In a run without evidence, where two part keys of a page are equal under the collation of the table, the
  receipt counts more parts than there are rows: `PartStore.ReceiptCountsRowsIff`. A run with evidence
  refuses such a page: `PartStore.EvidenceFindsIff`.
- The group identity cache compares codes and uids exactly, the table by its collation. With and without
  the cache the upsert does the same exactly when folding keeps the codes and uids, the blank one
  included, different: `GroupCollation.PathsAgreeIff`.
- The context of a page is stored in Unicode normal form C, its links are not. Replay with it agrees on
  every page exactly when brand, vehicle id and category id were in that form before:
  `StoredContext.ModelsReplayIff`, `StoredContext.VehiclesReplayIff`, `StoredContext.CategoriesReplayIff`,
  `StoredContext.GroupsReplayIff`.
- The supervisor's cleanup of runs from earlier months holds the admission lock but does not ask whether
  the crawl is alive; a resumed or month-crossing direct crawl can lose its marker:
  `Admission.CleanupMayClearALiveMarker`. One direct crawl that runs into the next month is enough:
  `Admission.OvernightCrawlIsExposed`. A cleanup is harmless exactly when there is no such crawl, whatever
  happens to crawls of running jobs: `Admission.CleanupIsHarmlessIff`.
- A child starts later than its restart is accepted, by the time it takes to end the old child. The bounds
  on requests are bounds on starts only without that lag: `RestartBreaker.SpreadLikeRequestsIff`. The
  cooldown between starts stays whole, and the window in which it is certain is shorter by exactly the
  lag: `ChildStarts.CooldownBetweenStartsIff`.
- The comment of the HTTP client hands refused redirects to the browser. The exception is not caught by
  the loop, so only challenges reach the browser: `Retry.BrowserOnlyAfterChallenge`.
- The set of rejected versions is read before the session is installed, in two critical sections, so a
  rejection in between is undone: `BrowserSession.CarriedRejectionComesBack`. It holds for good exactly
  when no worker of the process carried the version from disk: `BrowserSession.RejectionHoldsIff`. The
  back-off is kept in memory and forgotten with the process: `BrowserSession.DeathForgetsBackoff`.
- A vehicle that finishes while the limit flag is set is marked done before the stop is raised, although
  the comment says it must not be: `Dispatch.CrawlModel` states the marks as the code makes them.
- A saved restart state whose cooldown was over but not yet pruned brings back the requests that led to
  it: `RestartBreaker.LoadAfterSave`.
- The full-run status is not absorbing under a fresh start: `Publication.SuccessIsNotAbsorbing`.

## Model

| member | source | states |
|---|---|---|
| `RunEvidence.Joined` | src/partsouq_catalog/repositories.py:3018-3060 | the joined stream of one artifact shows its own records, or one row without a record |
| `EvidenceVerifiers.LoadRecords` | src/partsouq_catalog/repositories.py:2520-2558 | loading succeeds exactly when every row is sound and neither a record key nor an accepted part id repeats; the loaded dictionaries then hold exactly the rows |
| `EvidenceVerifiers.CheckChains` | src/partsouq_catalog/repositories.py:2559-2571 | accepted exactly when every record's parent chain is sound and every required parent is an active key |
| `EvidenceVerifiers.CheckRecords` | src/partsouq_catalog/repositories.py:2520-2571 | rows and chains together: success exactly for acceptable records without a repeated part |
| `EvidenceVerifiers.CheckScope` | src/partsouq_catalog/repositories.py:2621-2644 | no part is counted invalid exactly when every source part lies in the scope |
| `EvidenceVerifiers.CheckParts` | src/partsouq_catalog/repositories.py:2645-2741 | every source part is covered by its one accepted record with the recomputed digests |
| `EvidenceVerifiers.CheckArtifacts` | src/partsouq_catalog/repositories.py:2742-2930 | accepted exactly when every artifact's body, replay and provenance are sound; manifest items and byte totals are those of all artifacts in order |
| `EvidenceVerifiers.CalculateRunEvidence` | src/partsouq_catalog/repositories.py:2440-2948 | the batch verifier succeeds exactly on the runs whose rows prove every part, record, body and artifact, written out on the rows, and the summary sealed is that of the rows |
| `EvidenceStreams.Seal.AddRow` | src/partsouq_catalog/repositories.py:3174-3223 | one more row keeps the accumulator equal to what the rows so far determine, or proves that they cannot be accepted |
| `EvidenceStreams.Seal.Finalize` | src/partsouq_catalog/repositories.py:3065-3316 | closing one artifact keeps the accumulator equal to the summary of all artifacts so far; a refusal means the run is unacceptable |
| `EvidenceStreams.ReadArtifacts` | src/partsouq_catalog/repositories.py:3017-3336 | cutting the joined stream at changes of artifact id visits every artifact with exactly its rows, or the run is unacceptable |
| `EvidenceStreams.ReadParts` | src/partsouq_catalog/repositories.py:3338-3469 | accepted exactly when no adjacent rows share a part and every streamed row is sound; the count is the number of rows |
| `EvidenceStreams.DigestedText` | src/partsouq_catalog/repositories.py:3493-3497 | feeding sorted lines in chunks of 10,000 digests the same text as joining them at once |
| `EvidenceStreams.CalculateRunEvidenceFull` | src/partsouq_catalog/repositories.py:2970-3505 | the streaming verifier succeeds exactly on such runs with a dataset that is not empty and artifacts of this attempt only, and seals their summary |
| `EvidenceRefinement.GroupedPermutes` | src/partsouq_catalog/repositories.py:3318-3336 | the artifact stream shows every record row exactly once, in another order |
| `EvidenceRefinement.NoDuplicateMeansOneMatch` | src/partsouq_catalog/repositories.py:3377-3469 | without adjacent duplicates and rows without record, every part has exactly one accepted record |
| `EvidenceRefinement.CountsForceEqualSets` | src/partsouq_catalog/repositories.py:3470-3477 | the pigeonhole step: one match for every part and equal counts make the source id set and the accepted id set equal |
| `EvidenceRefinement.StreamingRefinesBatch` | src/partsouq_catalog/repositories.py:2970-3505 | the streaming verifier accepts exactly the runs the batch verifier accepts with target = number of source parts, no scope, current-attempt provenance and a non-empty dataset |
| `EvidenceRefinement.StreamingSealsTheSameSummary` | src/partsouq_catalog/repositories.py:3489-3505 | both verifiers seal the same manifest, dataset text, counts and byte totals |
| `EvidenceMeaning.BatchProvedIff` | src/partsouq_catalog/repositories.py:2440-2948 | the batch verifier accepts exactly when every source part has exactly one accepted record whose payload digest, natural key, parent, address and ancestors are its own, every record is rooted, and every artifact was fetched live, in time and by its job, restores to its digests and replays to its records |
| `EvidenceMeaning.StreamProvedIff` | src/partsouq_catalog/repositories.py:2970-3505 | the streaming verifier accepts exactly the same with all parts as target, at least one part, and artifacts of the current attempt |
| `EvidenceMeaning.AlteredPartIsRefused` | src/partsouq_catalog/repositories.py:2730-2735 | changing the payload digest of one part of an accepted run makes both verifiers refuse it, under every target and scope |
| `EvidenceMeaning.AlteredRecordIsRefused` | src/partsouq_catalog/repositories.py:2840-2904 | so does changing any field of one stored record |
| `EvidenceMeaning.AlteredBodyIsRefused` | src/partsouq_catalog/repositories.py:2809-2834 | both verifiers refuse a body that does not restore to the text of its digest |
| `EvidenceMeaning.AlteredArtifactIsRefused` | src/partsouq_catalog/repositories.py:2742-2808 | both refuse an artifact that was not fetched live, lies outside the window of its run, has an address that is not its public form, or comes from a job that does not count |
| `EvidenceMeaning.BatchSealProved` | src/partsouq_catalog/repositories.py:2905-2948 | the summary sealed counts parts, artifacts and records, adds up the stored and restored bytes, and digests the items of all artifacts in order and the accepted records as a multiset |
| `EvidenceMeaning.StreamSealProved` | src/partsouq_catalog/repositories.py:3478-3505 | the same of the streaming verifier |
| `Canonical.StrInjective` | src/partsouq_catalog/repositories.py:174-194 | the printed form of an integer determines it |
| `Canonical.DecimalDenotes` | src/partsouq_catalog/repositories.py:174-194 | the print of a number denotes it, in digits and without a leading zero |
| `Canonical.SizeCounts` | src/partsouq_catalog/repositories.py:191-193 | a prefix counts the bytes of the text in UTF-8, or its characters |
| `Canonical.JoinPrefixedInjective` | src/partsouq_catalog/repositories.py:174-194 | a text of length-prefixed pieces determines the pieces |
| `Canonical.VehicleIdentityIsInjective` | src/partsouq_catalog/repositories.py:174-194 | two vehicles have one pre-image exactly when the model id and all ten normalised fields agree |
| `Canonical.SortEqualIffPermutation` | src/partsouq_catalog/evidence.py:563-572 | sorting two lists of lines gives the same list exactly when they are equal as multisets |
| `Canonical.DatasetPreimageIsMultiset` | src/partsouq_catalog/evidence.py:563-572 | the dataset pre-images of two lists of digested records are equal exactly when the lists are equal as multisets |
| `Canonical.DatasetOrderIrrelevant` | src/partsouq_catalog/evidence.py:563-572 | crawl order never changes the dataset pre-image |
| `Sanitizer.AliasInjective` | src/partsouq_catalog/evidence.py:700-716 | two tokens of one document never get the same sentinel |
| `Sanitizer.SanitizingIsRenaming` | src/partsouq_catalog/evidence.py:439-483 | sanitising a document is renaming every link with one injective table that covers all its tokens |
| `Sanitizer.FirstIsRenamed` | src/partsouq_catalog/evidence.py:700-716 | every key a parser reads keeps its value, the token gets its sentinel |
| `Sanitizer.PublicPairsKept` | src/partsouq_catalog/evidence.py:408-436 | the public projection of a URL is untouched by sanitising |
| `Sanitizer.SanitizingTwiceIsOnce` | src/partsouq_catalog/evidence.py:439-483 | sanitising a sanitised document changes nothing |
| `SanitizerMeaning.KeysIff` | src/partsouq_catalog/evidence.py:700-716 | exactly the eight keys that parsers read are kept, whatever their case, and only the token key carries a token |
| `SanitizerMeaning.DocumentMeans` | src/partsouq_catalog/evidence.py:439-483 | every link keeps its address and exactly its kept pairs in their order; each token is replaced by the sentinel with the number of its first appearance in the document, and no token is left |
| `Redactor.Redactor.SanitizeUrlValue` | src/partsouq_catalog/evidence.py:700-716 | one URL is rewritten and the dictionary extended exactly as the specification says |
| `Redactor.SanitizeAttributes` | src/partsouq_catalog/evidence.py:439-483 | the loop over the URL attributes with one growing dictionary computes the sanitised document |
| `GroupParse.GroupText` | src/partsouq_catalog/parsers.py:552-691 | a code with a name is recognised only in the form code, colon, name, and the name is not empty |
| `GroupMeaning.SpelledIff` | src/partsouq_catalog/parsers.py:552-691 | code and name are recognised exactly where a text of one line spells a code, a colon and a name |
| `GroupMeaning.ClassifiedIff` | src/partsouq_catalog/parsers.py:552-691 | a link is taken for a picture, a text or a stranger exactly by what its query pairs, its text and its picture say |
| `GroupReader.Reader.Upgrade` | src/partsouq_catalog/parsers.py:552-691 | the first picture with this cid and uid, and no other entry, becomes the text entry |
| `GroupReader.Reader.ReadLink` | src/partsouq_catalog/parsers.py:552-691 | one link moves lists, dictionaries, sets and counters as one step of the specification |
| `GroupReader.ReadGroups` | src/partsouq_catalog/parsers.py:552-691 | the loop computes the specified parse of every page |
| `GroupOrder.MalformedIffNotClean` | src/partsouq_catalog/parsers.py:552-691 | nothing is malformed exactly when no candidate has two texts, no group two names and every candidate is usable: a condition on the set of links |
| `GroupOrder.GroupsAreApart` | src/partsouq_catalog/parsers.py:552-691 | in every page keys are unique and a cid and uid never have both a picture and a text |
| `GroupOrder.CleanGroupsAreDeclared` | src/partsouq_catalog/parsers.py:552-691 | a clean page lists exactly the groups that its links declare |
| `GroupOrder.GroupParseIsOrderIndependent` | src/partsouq_catalog/parsers.py:552-691 | reordering or repeating links changes neither whether the page is clean nor which groups it then lists |
| `GroupMeaning.FaultlessIff` | src/partsouq_catalog/parsers.py:552-691 | a page has no fault exactly when no target has two texts, no group two names, and every own unit link has a text or picture for its target |
| `GroupMeaning.FaultlessGroupsAreShown` | src/partsouq_catalog/parsers.py:552-691 | the groups of a faultless page are exactly those its links name or picture |
| `GroupMeaning.SkippedAreStrangers` | src/partsouq_catalog/parsers.py:552-691 | on every page the skipped links are exactly the unit links of another brand or vehicle |
| `GroupMeaning.ListedGroupsHaveLinks` | src/partsouq_catalog/parsers.py:552-691 | on every page, faulty or not, each group listed has the address, code and name of links that show it |
| `GroupMeaning.PicturesAreListed` | src/partsouq_catalog/parsers.py:552-691 | no pictured group is lost, whatever else the page holds |
| `GroupOrder.ImageOnlyCountsUpgrades` | src/partsouq_catalog/parsers.py:552-691 | the image-only counter is the number of pictures left plus the number of upgrades |
| `GroupOrder.ImageOnlyDependsOnOrder` | src/partsouq_catalog/parsers.py:552-691 | a clean page of two links whose counter is 0 in one order and 1 in the other |
| `GroupCounter.CounterIsFirstPictures` | src/partsouq_catalog/parsers.py:552-691 | on a page without contradictions the image-only counter is the number of groups that a picture shows first |
| `GroupCounter.ImageOnlyIsOrderIndependentIff` | src/partsouq_catalog/parsers.py:552-691 | the counter of a clean page is the same for every order of its links exactly when no cid and uid are shown both as picture and as text; then it is the number of pictured groups |
| `GroupReplay.PageIsRenamed` | src/partsouq_catalog/evidence.py:439-483 | the stored page is the live page with every link renamed by one table |
| `GroupReplay.ReplayPreservesGroups` | src/partsouq_catalog/evidence.py:317-405 | for every page without faults, replay has no faults, the same skipped and image-only counts and the same public groups in order |
| `CatalogParse.ReadModels` | src/partsouq_catalog/parsers.py:130-169 | the loop over anchors computes the specified model list and malformed count |
| `CatalogParse.ReadCategories` | src/partsouq_catalog/parsers.py:444-523 | the loop over anchors computes the specified categories, skipped count and malformed count |
| `CatalogParse.ClaimRow` | src/partsouq_catalog/parsers.py:290-419 | one specification row claims its candidates; the conflicts counted are those claimed before with other columns |
| `CatalogParse.ReadVehicles` | src/partsouq_catalog/parsers.py:290-419 | the loop over rows computes the specified vehicles, each specification once, and the malformed count |
| `LinkMeaning.SameTargetIff` | src/partsouq_catalog/parsers.py:79-89 | two links have one candidate identity exactly when they agree in every request value, or, where these tell too little, in everything |
| `LinkMeaning.TargetsAreCounted` | src/partsouq_catalog/parsers.py:79-89 | the number of identities is the number of targets: as many links can be chosen with different targets, and every link has the target of one of them |
| `CatalogMeaning.ModelsMean` | src/partsouq_catalog/parsers.py:130-169 | the models are the links with a text in page order; the malformed count is the number of targets to which no link with a text leads |
| `CatalogMeaning.CategoriesMean` | src/partsouq_catalog/parsers.py:444-523 | one record for each category from the link that names it first; skipped are the strays; malformed are the links that rename a category and the targets to which no confirmed link leads |
| `VehicleMeaning.VehiclesMean` | src/partsouq_catalog/parsers.py:290-419 | one vehicle for each specification, with columns and first link of the first row that lists it; malformed are the targets claimed before for another specification, and those no row carries |
| `CatalogReplay.ReplayPreservesModels` | src/partsouq_catalog/evidence.py:317-405 | model pages replay to the same public records and gain no fault |
| `CatalogReplay.ReplayPreservesCategories` | src/partsouq_catalog/evidence.py:317-405 | category pages replay to the same public records and skipped count and gain no fault |
| `VehicleReplay.ReplayPreservesVehicles` | src/partsouq_catalog/evidence.py:317-405 | vehicle records are always the same, and a faultless page stays faultless exactly when no two bare links of different specifications collapse |
| `VehicleReplay.BareLinksCollapse` | src/partsouq_catalog/parsers.py:290-419 | any two bare links that differ in spelling only make a page without faults whose stored form has faults |
| `VehicleReplay.ValuedLinksNeverCollapse` | src/partsouq_catalog/parsers.py:290-419 | when every candidate carries a brand, a token or a vehicle id, nothing can collapse |
| `PartReader.ReadParts` | src/partsouq_catalog/parsers.py:737-936 | the parts returned are the last confirmed rows of their keys, in the order in which the keys first appear: number, name, code, quantity, range and note are the cells under the last columns of that meaning (the fixed places without a header), and the number is what every search link of the row asks for; nameless and malformed rows are stated likewise |
| `PartMeaning.JudgedAsRead` | src/partsouq_catalog/parsers.py:828-926 | a row is listed as a part, or set aside as nameless, with exactly the record its cells and links say |
| `PartMeaning.JudgedMalformed` | src/partsouq_catalog/parsers.py:828-926 | a candidate row is malformed exactly when it can be read neither as a part nor as a nameless part |
| `PartMeaning.MeansNext` | src/partsouq_catalog/parsers.py:927-936 | a row more moves parts, nameless rows and the malformed count as the meaning of the longer page says |
| `PartParse.PartKeysAreDistinct` | src/partsouq_catalog/parsers.py:927-936 | the parts of every page have distinct natural keys |
| `PartParse.MergingRefinesUpsert` | src/partsouq_catalog/parsers.py:927-933 | storing the merged parts leaves the table that storing every part row in page order leaves |
| `PartParse.EveryCandidateIsCounted` | src/partsouq_catalog/parsers.py:737-936 | every candidate row is malformed, set aside as nameless or listed, none twice and none lost |
| `PartParse.ReplayPreservesParts` | src/partsouq_catalog/evidence.py:317-405 | the stored form of every part page gives the same parts, nameless rows and malformed count |
| `StoredContext.ModelsReplayIff` | src/partsouq_catalog/evidence.py:574-620 | every model page replays with the stored brand exactly when it is the live one |
| `StoredContext.VehiclesReplayIff` | src/partsouq_catalog/evidence.py:574-620 | every vehicle page replays with the stored brand, as far as it does with one brand, exactly when it is the live one |
| `StoredContext.CategoriesReplayIff` | src/partsouq_catalog/evidence.py:574-620 | every category page replays with the stored context exactly when vehicle id and, unless that is blank, brand are the live ones |
| `StoredContext.GroupsReplayIff` | src/partsouq_catalog/evidence.py:574-620 | every group page replays with the stored context exactly when vehicle id and, unless that is blank, brand and category id are the live ones |
| `PartStore.BlockOwned` | src/partsouq_catalog/repositories.py:545-613 | writing parts adds exactly their rows to what the run owns, complete or truncated |
| `PartStore.BlockLeavesOthers` | src/partsouq_catalog/repositories.py:545-613 | rows of other groups keep payload and owner |
| `PartStore.BlockIsIdempotent` | src/partsouq_catalog/crawler.py:2030-2127 | running the block twice leaves the store that running it once leaves |
| `PartStore.OtherRunsMembers` | src/partsouq_catalog/repositories.py:545-613 | a write of another run takes exactly the rows it writes from a run's membership, a complete one takes all; the number of members stays exactly when the rows are apart |
| `PartStore.BlocksCommute` | src/partsouq_catalog/crawler.py:2030-2127 | the blocks of two groups, of any runs, complete or truncated, leave the same store in either order |
| `PartStore.ReceiptCountsRowsIff` | src/partsouq_catalog/crawler.py:2030-2127 | in a run without evidence and under any folding of keys by the table, a complete group has as many rows as its receipt says exactly when no two folded keys of the page are equal |
| `PartStore.EvidenceFindsIff` | src/partsouq_catalog/repositories.py:727-765 | the lookup for evidence finds every part of a page exactly when no two folded keys are equal and none meets a row spelled otherwise |
| `PartStore.TruncatedWriteStealsMembership` | src/partsouq_catalog/repositories.py:545-613 | the smallest case in which a truncated bounded write empties the membership of a full run and leaves its receipt |
| `GroupCrawl.Worker.TryBlock` | src/partsouq_catalog/crawler.py:2030-2127 | one pass over the block commits it as a whole or not at all; it is committed and acknowledged exactly when no statement fails and the commit is answered |
| `GroupCrawl.Worker.WriteBlock` | src/partsouq_catalog/crawler.py:2030-2127 | the store is the old one or the whole block; it ends without error exactly when the first attempt is clear, or ends with contention or a lost connection and the second is clear; the counter moves only then |
| `GroupCrawl.Worker.FinishNotFound` | src/partsouq_catalog/crawler.py:1658-1702 | a missing page releases the run's rows, writes the terminal receipt and lowers the counter by as many rows, or changes nothing |
| `GroupCrawl.Worker.CheckPage` | src/partsouq_catalog/crawler.py:1746-1864 | a page is refused exactly when it is malformed, empty without an empty table, shrunken or not a unit page, and taken for another unit exactly when that is its only fault |
| `GroupCrawl.BlockHoldsParts` | src/partsouq_catalog/crawler.py:2030-2127 | after a complete block the receipt's count, the payload keys and the rows owned agree |
| `GroupCrawl.Worker.CrawlFull` | src/partsouq_catalog/crawler.py:1559-2129 | every committed done receipt of the run is honoured by that many rows with this run's id, kept under every fault; a call is at most one transaction on its group; it completes exactly when the limit is not reached and the group was done before, or registration, page and attempts go through, and then receipt and payloads are committed |
| `GroupCrawl.Worker.OtherRunKeepsHonouredIff` | src/partsouq_catalog/repositories.py:545-613 | a block of another run leaves every receipt of this run honoured exactly when it replaces the receipt of the group or writes none of the rows it stands for |
| `GroupCrawl.Worker.VisitFull` | src/partsouq_catalog/crawler.py:1524-1551 | with the caller's closing of a page that shows another unit, receipts stay honoured; it completes exactly when the page is stored or such a group is closed without members |
| `Interleaving.CallIsAWrite` | src/partsouq_catalog/crawler.py:1559-2129 | a call in full mode leaves the store as at most one of three transactions on its group leaves it |
| `Interleaving.OwnWritesDecide` | src/partsouq_catalog/crawler.py:2030-2127 | of its own groups a worker sees what its own transactions made, whatever others commit in between |
| `Interleaving.InterleavingsAgree` | src/partsouq_catalog/crawler.py:2030-2127 | two orders of commits that agree on every single group leave the same store, so all interleavings of workers without a common group do |
| `Interleaving.EveryInterleavingHolds` | src/partsouq_catalog/crawler.py:2030-2127 | however the commits of any number of workers of a full run interleave, every done receipt counts no more rows than the run owns |
| `GroupCrawl.Worker.ReleaseStale` | src/partsouq_catalog/crawler.py:1925-1934 | rows the page no longer shows are released and the counter lowered by their number, in one commit |
| `GroupCrawl.Worker.WriteWithinQuota` | src/partsouq_catalog/crawler.py:1999-2129 | exactly the first parts that the quota leaves room for are written when the attempts go through, complete or cut short at the limit |
| `GroupCrawl.Worker.StoreEligible` | src/partsouq_catalog/crawler.py:1870-2129 | stale rows are released and what is eligible, unseen and within the limit is written, exactly when the attempts go through |
| `GroupCrawl.Worker.FreshPositions` | src/partsouq_catalog/crawler.py:1890-1960 | the parts to write are those of the page with code, number and name that the run does not own, in page order |
| `GroupCrawl.Worker.CrawlBounded` | src/partsouq_catalog/crawler.py:1870-2129 | on every path, with known commit outcomes, the counter equals the rows owned by the run and stays within the limit; when the attempts go through, the rows written are exactly the first eligible unseen parts in page order that the limit leaves room for |
| `GroupCrawl.Worker.VisitBounded` | src/partsouq_catalog/crawler.py:1524-1551 | with known commit outcomes, counter and owned rows stay equal over crawling a group and over the caller's closing of a page that shows another unit |
| `Publication.StepKeeps` | src/partsouq_catalog/crawler.py:2344-2839 | every step of every process keeps the publication invariant, whatever fails |
| `Publication.PublicationIsAllOrNothing` | src/partsouq_catalog/repositories.py:4054-4286 | after any interleaving the committed snapshot is empty or exactly 10,000 rows of one run published as bounded_success |
| `Publication.ReportedMeansCommitted` | src/partsouq_catalog/crawler.py:2704-2839 | bounded_success is reported only while it is committed |
| `Publication.PublishedIsAbsorbing` | src/partsouq_catalog/repositories.py:3734-3769 | bounded_success survives starting, finishing, rejecting and stale-run cleanup in every run |
| `Publication.SnapshotAndStatusChangeTogether` | src/partsouq_catalog/crawler.py:2704-2718 | a step that changes the snapshot replaces it with the rows of one run, numbered in order, and commits its published status, and the gates written out hold of the facts it was published under |
| `Publication.PublishedOnlyIfWarranted` | src/partsouq_catalog/repositories.py:4054-4286 | a step by which a run becomes published commits under facts written out gate by gate: running, scheduled, target 10,000, the desired scope, no failures, 10,000 source and joined rows, 10,000 scoped ones in a scope, evidence, receipts, provenance, no invalid row, replay |
| `Publication.PublishedRunWasWarranted` | src/partsouq_catalog/repositories.py:4054-4286 | over every run of the system: what has become published was published by a commit whose facts were such, and the snapshot then showed their parts |
| `Publication.PublishGoesThroughIff` | src/partsouq_catalog/repositories.py:4054-4286 | a crawling session whose row and table are free inserts its snapshot exactly when these facts hold, and fails otherwise |
| `Publication.PublicationGoesThrough` | src/partsouq_catalog/crawler.py:2704-2839 | from such facts insert, finish and any commit that is not lost before it takes effect lead to the new snapshot and the published status, reported at once or after reading it back |
| `Publication.RowsFollow` | src/partsouq_catalog/repositories.py:3718-3769 | over every step a run keeps its identity, a running one its owner, a published one its whole row, and a complete one changes only by a fresh start |
| `RunSteps.StartGoesThroughIff` | src/partsouq_catalog/repositories.py:1355-1561 | an idle process that finds its row free marks the run exactly when nothing conflicts |
| `RunSteps.MarkerGoesThrough` | src/partsouq_catalog/crawler.py:2385-2453 | with its marker acknowledged a process crawls, unless the run was complete before and is not used anew, which it reports |
| `RunSteps.FinishGoesThrough` | src/partsouq_catalog/repositories.py:3734-3769 | a run that ends without a publication gets its status, unless it is a success already; other rows and the snapshot stay |
| `RunSteps.ReadBackIff` | src/partsouq_catalog/crawler.py:2819-2833 | after an unanswered publication exactly a success that can be read is reported |
| `RunSteps.ClosingGoesThrough` | src/partsouq_catalog/crawler.py:2834-2839 | a failed run is closed as failed, but a success stays |
| `RunSteps.MaintenanceGoesThrough` | src/partsouq_catalog/repositories.py:3718-3732 | rejecting closes and marks an open run, the cleanup closes a stale running one, and neither touches anything else |
| `Publication.SuccessIsNotAbsorbing` | src/partsouq_catalog/repositories.py:1466-1560 | a fresh start takes the full-run status away, an ordinary one keeps it |
| `RunRows.StartAgrees` | src/partsouq_catalog/repositories.py:1355-1561 | seen through the projection, an accepted start writes the same marker in both pictures of a run row, and the narrower picture refuses nothing the wider one accepts |
| `RunRows.ClosingAgrees` | src/partsouq_catalog/repositories.py:3718-3769 | finishing, cleaning up and rejecting agree in both pictures of a run row |
| `Finalizer.Database.MarkRunning` | src/partsouq_catalog/repositories.py:1355-1561 | start_run refuses exactly a scope nobody asks for, another identity under the key, another owner of a running run, or a published run to be used anew; otherwise it writes one row, described field by field, and never changes a published run |
| `Finalizer.Database.RejectEvidence` | src/partsouq_catalog/repositories.py:3718-3732 | rejecting evidence closes a run unless it is published or complete |
| `Finalizer.Database.FinishStatus` | src/partsouq_catalog/repositories.py:3734-3769 | one conditional update that never downgrades a success |
| `Finalizer.Database.PublishBounded` | src/partsouq_catalog/repositories.py:4054-4286 | succeeds exactly when all gates before and after the insert, written out on facts and row, hold; then the transaction holds the joined parts in order under the run |
| `Finalizer.Database.Commit` | src/partsouq_catalog/db.py:248-298 | the transaction takes effect unless the connection was lost before; the session is clean either way |
| `Finalizer.FinishBounded` | src/partsouq_catalog/crawler.py:2704-2839 | snapshot and status change together exactly when all gates, written out, hold and the commit takes effect; a publication that took effect is never closed as failed, and success is returned exactly when it was acknowledged or can be read back |
| `GroupTable.GroupRepository.UpdateRow` | src/partsouq_catalog/repositories.py:427-512 | turning a picture row into a text row needs, and finds, its new key free |
| `GroupTable.GroupRepository.PreloadGroupIdentity` | src/partsouq_catalog/repositories.py:405-425 | the preloaded cache mirrors the table |
| `GroupTable.GroupRepository.UpsertGroup` | src/partsouq_catalog/repositories.py:427-512 | with or without the cache, table and returned id are those of the plain upsert, and the cache still mirrors the table |
| `GroupTable.UpsertCategory` | src/partsouq_catalog/repositories.py:405-512 | any sequence of upserts gives the same table and ids with the cache and without |
| `GroupRows.UpsertMeans` | src/partsouq_catalog/repositories.py:427-512 | one call writes one row with the name and address of the call, and removes at most the picture whose id it takes over; ids are new exactly for new rows |
| `GroupRows.UpsertsMean` | src/partsouq_catalog/repositories.py:405-512 | after any calls: a row is there exactly when it was there or called for and not taken over since, and says what the last call for it said |
| `GroupCollation.PathsAgreeIff` | src/partsouq_catalog/repositories.py:427-512 | cached and uncached upsert agree on every table, mirroring cache and call over given codes and uids exactly when the collation keeps them and the blank apart |
| `GroupCollation.CategoryAgrees` | src/partsouq_catalog/repositories.py:405-512 | then they agree over any sequence of calls, neither fails, and the cache still mirrors the table |
| `GroupCollation.OnlyTheCacheFails` | src/partsouq_catalog/repositories.py:427-512 | the uncached path never runs into the unique key; the cached one does exactly for a text new to the dictionary whose uid has a remembered picture and whose key another spelling holds |
| `GroupCollation.ExactIsUpsert` | src/partsouq_catalog/repositories.py:427-512 | where nothing is folded, this is the upsert of the exact table |
| `GroupTable.UpsertsKeepIds` | src/partsouq_catalog/repositories.py:427-512 | ids stay unique, no row loses its id, and a key changes only from picture to text of one uid |
| `GroupClosure.CollectParsed` | src/partsouq_catalog/crawler.py:192-242 | the dictionary of parsed codes holds exactly what the page shows for the category |
| `GroupClosure.CompareCodes` | src/partsouq_catalog/crawler.py:192-242 | the codes of one uid are split into found, missing and downgraded, each exactly |
| `GroupClosure.ClosureMismatches` | src/partsouq_catalog/crawler.py:192-242 | the three results hold exactly the uids without any link, the codes that stand nowhere on the page and the codes shown only as pictures, each written on the page |
| `GroupClosure.ClosureIsExact` | src/partsouq_catalog/crawler.py:192-242 | nothing is missing exactly when every known group is shown, is a picture whose uid is shown, or is shown as a picture |
| `GroupClosure.ClosureIsStable` | src/partsouq_catalog/crawler.py:192-242 | a page that passes still passes after all its groups were stored |
| `Dispatch.Cap` | src/partsouq_catalog/crawler.py:1018-1021 | one under a part limit, otherwise twice the workers and at least two |
| `Dispatch.Plan` | src/partsouq_catalog/crawler.py:934-966 | pending are, in order, exactly the vehicles in front of the limit that are not done and whose production did not end before the floor; different keys stay different |
| `Dispatch.ModelRun.SubmitNext` | src/partsouq_catalog/crawler.py:1043-1054 | takes the next vehicle, never one twice, and stays within the cap |
| `Dispatch.ModelRun.Refill` | src/partsouq_catalog/crawler.py:1043-1054 | as many vehicles are submitted as completed, unless none is left |
| `Dispatch.ModelRun.Collect` | src/partsouq_catalog/crawler.py:1056-1083 | a collected vehicle is settled with the one mark its end calls for |
| `Dispatch.ModelRun.SettleLate` | src/partsouq_catalog/crawler.py:984-1010 | a callback drops a cancelled vehicle without mark or settles it once |
| `Dispatch.ModelRun.CollectAll` | src/partsouq_catalog/crawler.py:1056-1105 | collecting a completed batch ends early exactly at the limit or at the failure threshold, and then hands over everything left |
| `Dispatch.ModelRun.Drive` | src/partsouq_catalog/crawler.py:1052-1112 | the loop terminates, stays within the cap, stops exactly when a collected vehicle hits the limit, and below the failure threshold has settled every pending vehicle |
| `Dispatch.CrawlModel` | src/partsouq_catalog/crawler.py:895-1112 | no position is marked twice, and no vehicle key where keys differ; every submitted vehicle is dropped by a cancellation or marked as it ended; the number returned is that of the broken vehicles, at most the threshold, plus the truncated ones; below the threshold every pending vehicle is marked as it ended |
| `VehicleKeys.ParsedKeysAreDifferentIff` | src/partsouq_catalog/crawler.py:859-861 | the vehicles parsed from one page have different keys exactly when the digest does not collide on their specifications |
| `Text.StripIsMiddle` | src/partsouq_catalog/migrations.py:341-341 | trimming takes all white space away at both ends, and nothing else |
| `ScriptLoop.Lexer.Round` | src/partsouq_catalog/migrations.py:249-359 | one round of the loop is one step of the lexer specification |
| `ScriptLoop.SplitMysqlScript` | src/partsouq_catalog/migrations.py:249-359 | the loop returns exactly the statements that a spelling of the script by letters, quotations, comments, delimiters and directives tells, and fails exactly without one |
| `ScriptGrammar.SplitsIffSpelled` | src/partsouq_catalog/migrations.py:249-364 | a script is accepted exactly when it is spelled by such items, in a grammar that knows doubled and escaped marks, and is cut into the statements they tell |
| `ScriptQuoting.QuotedTextIsKept` | src/partsouq_catalog/migrations.py:299-340 | any text between two marks, its marks doubled or escaped and its backslashes escaped, makes one statement with the text around it, in which no quotation, comment, semicolon or DELIMITER line begins |
| `ScriptQuoting.BlockCommentIsKept` | src/partsouq_catalog/migrations.py:288-334 | a block comment is never cut, and is a statement of its own exactly with an exclamation mark |
| `ScriptQuoting.LineCommentIsKept` | src/partsouq_catalog/migrations.py:281-327 | a line comment is never cut and holds no SQL; two dashes open one only before white space |
| `ScriptQuoting.AroundIsRead` | src/partsouq_catalog/migrations.py:249-364 | any item between two plain texts makes one statement with them, if there is any SQL |
| `ScriptPieces.PiecesTileTheScript` | src/partsouq_catalog/migrations.py:249-359 | every accepted script is tiled by ordered, disjoint pieces: statements hold SQL, blanks only space and comments, separators the delimiter in force |
| `ScriptRoundTrip.SplitUndoesJoin` | src/partsouq_catalog/migrations.py:249-359 | splitting well-formed statements joined with semicolons gives them back |
| `ScriptRoundTrip.SplitUndoesJoinWithDelimiter` | src/partsouq_catalog/migrations.py:249-359 | the same with any usable delimiter set by a DELIMITER line: one that opens no quote or comment, is neither a lone slash nor two dashes, and spells no inner piece of DELIMITER |
| `ScriptRoundTrip.PlainIsWellFormed` | src/partsouq_catalog/migrations.py:249-359 | trimmed statements without quotes, comments, delimiter and directive are well formed |
| `ScriptRoundTrip.KeywordDelimiterLosesStatements` | src/partsouq_catalog/migrations.py:249-359 | an example: two well-formed statements are lost when the delimiter is LIMI |
| `ScriptDelimiters.RoundTripsIffUsable` | src/partsouq_catalog/migrations.py:249-359 | for every nonblank delimiter, every list of well-formed statements survives joining and splitting exactly when the delimiter is usable |
| `MigrationLedger.CheckRows` | src/partsouq_catalog/migrations.py:437-484 | rows are loaded exactly when keys are distinct and every row fits its manifest entry in kind, version, file name, checksum, attempts and times, with the dirty superseded versions |
| `MigrationLedger.CheckOrder` | src/partsouq_catalog/migrations.py:437-546 | accepted exactly when no active version follows a gap or a dirty one; the dirty version found is the only one |
| `MigrationLedger.ValidateLedger` | src/partsouq_catalog/migrations.py:437-546 | the validator accepts exactly the ledgers and retry arguments that the acceptance predicate describes |
| `MigrationLedger.LedgerTable.Run` | src/partsouq_catalog/migrations.py:2160-2212 | claim, execute and finish or fail leave the rows that the outcome determines |
| `MigrationLedger.LedgerTable.Apply` | src/partsouq_catalog/migrations.py:582-707 | a refused call changes nothing; an accepted one walks the manifest, stops at the first change that does not complete, and otherwise completes exactly when the closing validation accepts the table |
| `LedgerMeaning.AcceptsIffLegal` | src/partsouq_catalog/migrations.py:437-546 | a stored table is accepted exactly when every row repeats what the manifest pins, no active version follows a gap or a dirty one, and the retry arguments name what is dirty, written on rows and version numbers |
| `LedgerMeaning.ApplyMeans` | src/partsouq_catalog/migrations.py:582-707 | one accepted call claims every due change up to the first that is not completed, in manifest order, leaves it as its outcome says, and keeps every other row |
| `LedgerSafety.ApplyKeepsInv` | src/partsouq_catalog/migrations.py:604-703 | an accepted apply, whatever happens to each change, leaves a prefix of the manifest with at most one dirty version |
| `LedgerSafety.CompletedApplyIsComplete` | src/partsouq_catalog/migrations.py:695-703 | an accepted call that carries every change through never fails its closing validation, which asks for a complete ledger without retry and earlier asset |
| `LedgerSafety.AlwaysRetryable` | src/partsouq_catalog/migrations.py:437-546 | such a ledger is accepted with the arguments that name what is dirty |
| `LedgerSafety.ReachableLedgersStayRetryable` | src/partsouq_catalog/migrations.py:582-707 | both hold after every history of calls, failures, losses and crashes |
| `LedgerSafety.NewLedgersStayRetryable` | src/partsouq_catalog/migrations.py:582-707 | in particular after every history that began with an empty ledger |
| `LedgerSafety.ExecutedAgainOnlyOnRetry` | src/partsouq_catalog/migrations.py:604-703 | a migration is executed again only by a call that names it while it is dirty, or as the forced convergence of a superseded retry |
| `LedgerSafety.ForcedReclaimBricks` | src/partsouq_catalog/migrations.py:661-672 | with a later migration present, a failing forced re-claim leaves a ledger no arguments open |
| `LedgerSafety.EarlierGapBricks` | src/partsouq_catalog/migrations.py:661-672 | with an earlier migration missing, its failure during a superseded retry does the same |
| `LedgerSafety.SupersededRetryIsSafeIff` | src/partsouq_catalog/migrations.py:604-703 | a superseded retry is harmless under every outcome exactly when everything before is applied and nothing after the convergence migration is present |
| `Admission.LockServer.GetLock` | src/partsouq_catalog/admission.py:120-133 | a named lock is granted exactly when it is free or already the caller's |
| `Admission.LockServer.ReleaseLock` | src/partsouq_catalog/admission.py:136-151 | one level of the caller's own lock is released, and nobody else's |
| `Admission.AcquireAdmission` | src/partsouq_catalog/admission.py:120-133 | succeeds exactly with a selected database and a free admission lock, and refuses without touching any lock |
| `Admission.WithAdmission` | src/partsouq_catalog/admission.py:110-151 | on every path, including a failed body and a lost release, the session ends without the lock and other sessions keep theirs |
| `Admission.MarkersStep` | src/partsouq_catalog/crawler.py:2385-2453 | a live direct crawl keeps its running marker through every step, also through the repair of a migration's preflight, unless a cleanup finds it older than this month |
| `Admission.MigratingStep` | src/partsouq_catalog/migrations.py:769-843 | while a migration executes, no marker appears |
| `Admission.OverrunStep` | src/partsouq_catalog/migrations.py:769-843 | from any state of the invariant no step lets a migration execute under a crawl |
| `Admission.MigrationsAndCrawlsExclude` | src/partsouq_catalog/crawler.py:2385-2453 | in every interleaving without a cleanup over an older direct crawl, scheduled ones included, no migration executes while a crawl is between its committed marker and its committed end |
| `Admission.OneOfEach` | src/partsouq_catalog/admission.py:159-192 | at most one migration runner and one crawler hold their locks, over all runs |
| `AdmissionRuns.PreflightIff` | src/partsouq_catalog/migrations.py:769-843 | a migration passes its preflight exactly when no scheduled job runs and every running marker is the only run of a failed job; it closes these markers and changes nothing else |
| `AdmissionRuns.CleanupIs` | src/partsouq_catalog/supervisor.py:603-639 | a cleanup closes exactly the running markers of earlier months |
| `AdmissionRuns.MarkerIff` | src/partsouq_catalog/repositories.py:1355-1561 | a marker is refused exactly for a run of another job or a published one to be used anew; a success that is not used anew stays |
| `AdmissionRuns.ScheduledCrawlIsMarked` | src/partsouq_catalog/crawler.py:2385-2453 | from every quiet state a new scheduled crawl gets as far as its committed marker, and then no migration passes |
| `AdmissionRuns.MigrationFollowsCrawl` | src/partsouq_catalog/migrations.py:769-843 | when it has finished and its job has ended, the next migration executes |
| `AdmissionRuns.MigrationExecutes` | src/partsouq_catalog/migrations.py:769-843 | on a quiet system a migration executes at once |
| `AdmissionRuns.MigrationLeaves` | src/partsouq_catalog/migrations.py:604-707 | and gives everything back |
| `AdmissionRuns.LocksComeBack` | src/partsouq_catalog/admission.py:136-192 | whoever leaves or dies frees exactly his own locks and changes no row; a crawl that finds its run complete lets go of the admission lock at once |
| `AdmissionRuns.CrawlDies` | src/partsouq_catalog/crawler.py:2385-2453 | a crawl that dies leaves its marker and no lock |
| `AdmissionRuns.DeadCrawlIsRepairedIffFailed` | src/partsouq_catalog/migrations.py:846-940 | its marker is repaired by the next migration exactly when its job is recorded as failed, and keeps every migration out otherwise |
| `Admission.CleanupMayClearALiveMarker` | src/partsouq_catalog/supervisor.py:603-639 | the shortest failing continuation: cleanup, lock and preflight lead to a migration that executes under a live crawl |
| `Admission.CleanupIsHarmlessIff` | src/partsouq_catalog/supervisor.py:603-639 | from any state of the invariant, no continuation after a cleanup lets a migration execute under a crawl exactly when no direct crawl works under a running marker from before this month |
| `Admission.OvernightCrawlIsExposed` | src/partsouq_catalog/supervisor.py:603-639 | from every start one direct crawl still running when the month changes reaches a state of the invariant in which a cleanup is harmful |
| `Governor.RequestGovernor.TryAcquire` | src/partsouq_catalog/governor.py:45-64 | one round of acquire refills, and grants a token or says how long to wait, as the bucket specification says |
| `Governor.RequestGovernor.Throttle` | src/partsouq_catalog/governor.py:66-77 | a cooldown is extended, never shortened, and leaves one token in stock |
| `Governor.RequestGovernor.Slow` | src/partsouq_catalog/governor.py:79-85 | a slow period is extended, never shortened |
| `Governor.WindowBound` | src/partsouq_catalog/governor.py:45-85 | in every window the grants are at most burst + rate * length plus one for every cooldown too short to pay for its token; inside a slow period with half the rate |
| `Governor.EveryWindowIsBounded` | src/partsouq_catalog/governor.py:36-85 | from a new governor, after any history of operations, every window is bounded by the configured burst and rate |
| `Governor.CooldownBound` | src/partsouq_catalog/governor.py:66-77 | in the d seconds after a cooldown at most 1 + rate * d requests are granted |
| `Governor.NoGrantWhileBlocked` | src/partsouq_catalog/governor.py:52-64 | no request is granted while a cooldown lasts |
| `Governor.WaitSuffices` | src/partsouq_catalog/governor.py:52-64 | a waiter that sleeps as told is granted if nothing happened meanwhile |
| `GovernorPace.CrowdPassesStock` | src/partsouq_catalog/governor.py:45-64 | of a crowd at one moment exactly as many pass as there are whole tokens |
| `GovernorPace.NewGovernorServesItsBurst` | src/partsouq_catalog/governor.py:36-43 | a new governor has the configured rate and burst, neither below its minimum, and serves exactly its burst at once |
| `GovernorPace.WaitIsExact` | src/partsouq_catalog/governor.py:52-64 | an undisturbed waiter passes after exactly the time it was told, and not earlier |
| `GovernorPace.CooldownHolds` | src/partsouq_catalog/governor.py:66-77 | until a cooldown ends everybody is told the time left; then exactly one passes |
| `GovernorPace.SlowPeriodHalves` | src/partsouq_catalog/governor.py:79-85 | within a slow period half the rate bounds every window, after it the old rate is back |
| `GovernorPace.IdleRestoresBurst` | src/partsouq_catalog/governor.py:45-50 | idling for as long as it takes to earn the burst restores it |
| `Governor.LongCooldownsAreFree` | src/partsouq_catalog/governor.py:66-77 | cooldowns worth at least one token cost nothing extra |
| `RestartBreaker.Supervisor.Restart` | src/partsouq_catalog/supervisor.py:387-437 | refuses, trips or accepts as specified, saves the state before a start, and starts exactly when accepted with the old child gone, at the time and with the child stated |
| `RestartBreaker.Supervisor.LoadRestartState` | src/partsouq_catalog/supervisor.py:120-182 | the loop over saved times computes the specified state and saves it |
| `RestartBreaker.RestartsAreSpread` | src/partsouq_catalog/supervisor.py:387-437 | across supervisor deaths, any four accepted requests within the window contain a gap of a whole cooldown |
| `RestartBreaker.StartsAreSpread` | src/partsouq_catalog/supervisor.py:387-437 | starts bounded by their requests and the lag alone, in whatever order they happen: any four within the window less the lag contain a gap of the cooldown less the lag |
| `RestartBreaker.LaggingStartsCrowd` | src/partsouq_catalog/supervisor.py:387-437 | for every lag shorter than the window, a history whose four starts span the window less the lag, evenly and without a cooldown among them |
| `RestartBreaker.SpreadLikeRequestsIff` | src/partsouq_catalog/supervisor.py:387-437 | the window and the cooldown that bound requests bound the starts following them in every history exactly when the lag is zero |
| `ChildStarts.StartsKeepTheCooldown` | src/partsouq_catalog/supervisor.py:365-437 | as a child is started before the supervisor's next event, any four starts within the window less the lag have a whole cooldown between two neighbours |
| `ChildStarts.CooldownBetweenStartsIff` | src/partsouq_catalog/supervisor.py:365-437 | in every history four starts closer than a given time have a whole cooldown between two neighbours exactly when that time is at most the window less the lag, or not positive |
| `RestartBreaker.NoStartInCooldown` | src/partsouq_catalog/supervisor.py:365-437 | no child is started before a cooldown is over, by any path and any supervisor |
| `RestartBreaker.FourthRequestCools` | src/partsouq_catalog/supervisor.py:387-437 | the fourth request within the window enters a cooldown |
| `BreakerMeaning.RequestIff` | src/partsouq_catalog/supervisor.py:387-437 | a request is refused exactly during a pause and trips exactly when three others count; the list then holds exactly those that count and the new one |
| `BreakerMeaning.PruneIff` | src/partsouq_catalog/supervisor.py:232-247 | a finished pause takes the list with it; otherwise exactly the old times are dropped |
| `BreakerMeaning.FileIff` | src/partsouq_catalog/supervisor.py:120-247 | the file keeps list and running pause; reading cuts an overlong pause to half an hour and forgets a finished one with its list |
| `BreakerMeaning.SparseRequestsPass` | src/partsouq_catalog/supervisor.py:387-437 | a supervisor with an empty list accepts every request of a row in which no four fall into one window |
| `RestartBreaker.LoadAfterSave` | src/partsouq_catalog/supervisor.py:120-247 | loading a saved state equals having kept running, except exactly when the cooldown was already over and not pruned when saved |
| `RestartBreaker.CooldownHidesTheList` | src/partsouq_catalog/supervisor.py:232-247 | during a cooldown the saved times have no influence |
| `Retry.RetryAfter` | src/partsouq_catalog/http_client.py:759-782 | the pause is the header's, or 65 seconds without one, brought between 15 seconds and the cap |
| `Retry.SessionManager.OnChallenge` | src/partsouq_catalog/http_client.py:506-550 | a challenge ends the call, rejects a fresh session, or refreshes once and adopts the new session |
| `Retry.SessionManager.Round` | src/partsouq_catalog/http_client.py:418-591 | one turn sends one request and keeps the budgets, the order of events and the promise of a follow-up |
| `Retry.SessionManager.GetResponse` | src/partsouq_catalog/http_client.py:382-616 | at most max_retries + 1 requests and challenge_retries refreshes; with a governor each request has its own slot and each 429 is answered by a global throttle; nothing comes after a decisive reply; every logged request and refresh is one of the given replies in order, every challenge is answered by a refresh, a rejection or the end; it gives up early only on a challenge it may not refresh |
| `Retry.EveryRequestHasItsSlot` | src/partsouq_catalog/http_client.py:418-426 | there are never more requests than acquired slots |
| `Retry.RefreshedSessionIsUsed` | src/partsouq_catalog/http_client.py:534-550 | every successful refresh is followed by a request with the new session |
| `Retry.ReadIsClassified` | src/partsouq_catalog/http_client.py:427-505 | every reply is read in exactly one of seven ways, each described by status, marks of a challenge and redirect target |
| `Retry.EventsHaveCauses` | src/partsouq_catalog/http_client.py:418-591 | no slotless request, and no refresh, throttle, rejection, new connection or browser call without the event that causes it just before |
| `Retry.RequestsHaveAnswers` | src/partsouq_catalog/http_client.py:418-591 | every 429 is followed by a throttle of its pause, every lost connection by new ones, and a decisive reply ends the call |
| `Retry.BrowserOnlyAfterChallenge` | src/partsouq_catalog/http_client.py:591-616 | the browser fallback follows a challenge, never a refused redirect |
| `Retry.SleepWithBackoff` | src/partsouq_catalog/http_client.py:807-822 | the chunks add up to exactly five seconds more than the remaining back-off, or, without one, to 65 seconds or 15 for every attempt, whichever is more |
| `BrowserSession.BackoffGrows` | src/partsouq_catalog/cloak.py:1116-1128 | the pause doubles at most, never shrinks, and reaches its cap with the sixth failure |
| `BrowserSession.SessionState.MarkFailed` | src/partsouq_catalog/cloak.py:1116-1128 | a failure counts once and blocks refreshes for min(60 * 2^(n-1), 1200) seconds |
| `BrowserSession.SessionState.Enter` | src/partsouq_catalog/cloak.py:930-944 | a current session is reused, a back-off respected, otherwise the caller leads |
| `BrowserSession.SessionState.Publish` | src/partsouq_catalog/cloak.py:946-961 | a new session resets failures, back-off and the rejected versions |
| `BrowserSession.SessionState.Reject` | src/partsouq_catalog/cloak.py:976-986 | a rejected version is remembered and dropped if it is in use |
| `BrowserSession.SessionState.Seed` | src/partsouq_catalog/cloak.py:1131-1174 | a stored session is installed unless the present one is current, with its age |
| `BrowserSession.OneRefreshAtATime` | src/partsouq_catalog/cloak.py:914-961 | across all processes at most one refresh is in progress, and the busy flag never makes anyone wait |
| `SessionSharing.BusyIffRefreshing` | src/partsouq_catalog/cloak.py:914-961 | over every run: a process is busy exactly while one of its workers refreshes, and that worker holds the file lock |
| `SessionSharing.LockComesBack` | src/partsouq_catalog/cloak.py:914-999 | however a refresh ends, the lock is free and the worker idle |
| `SessionSharing.DeathFreesTheLock` | src/partsouq_catalog/cloak.py:140-178 | a process that dies leaves no lock and no half-done work |
| `SessionSharing.NewSessionIsShared` | src/partsouq_catalog/cloak.py:914-961 | after a refresh any worker of another process that comes within 25 minutes and has not seen the version rejected leaves with a session and starts no browser |
| `SessionSharing.SweepRemovesOnlyTheRejected` | src/partsouq_catalog/cloak.py:976-999 | the sweep removes a rejected session from disk and leaves any other there |
| `SessionSharing.BackoffIs` | src/partsouq_catalog/cloak.py:1116-1128 | the pauses are 60, 120, 240, 480, 960 and then 1200 seconds |
| `SessionSharing.ReadableIff` | src/partsouq_catalog/cloak.py:1131-1174 | a stored session is read exactly when it is less than 25 minutes old and not rejected |
| `SessionSharing.DecisionIff` | src/partsouq_catalog/cloak.py:930-944 | reuse exactly within 25 minutes; leading exactly without a current session after the pause |
| `SessionSharing.SeedIff` | src/partsouq_catalog/cloak.py:1131-1174 | seeding replaces nothing but a missing or outdated session, keeps the age of what it installs, and changes nothing else |
| `SessionSharing.RejectIff` | src/partsouq_catalog/cloak.py:976-986 | a rejected version is remembered and dropped, and nothing else changes |
| `SessionSharing.PublishIff` | src/partsouq_catalog/cloak.py:946-961 | a published session is current from now, with failures, pause and rejections forgotten |
| `BrowserSession.FailuresAreConsecutive` | src/partsouq_catalog/cloak.py:1116-1128 | the failure counter is the number of failures since the last success |
| `BrowserSession.NoRefreshDuringBackoff` | src/partsouq_catalog/cloak.py:930-961 | after the n-th failure in a row a living process starts no refresh for the back-off of n |
| `BrowserSession.RejectedStaysOut` | src/partsouq_catalog/cloak.py:976-999 | a rejected version stays out until the next new session, if no worker was installing it |
| `BrowserSession.CarriedRejectionComesBack` | src/partsouq_catalog/cloak.py:1131-1174 | a worker that read it just before installs it just after, although it is rejected |
| `BrowserSession.RejectionHoldsIff` | src/partsouq_catalog/cloak.py:976-999 | after a rejection every continuation without a new session or a death of the process keeps the version out exactly when no worker of the process was carrying it from disk |
| `BrowserSession.DeathForgetsBackoff` | src/partsouq_catalog/cloak.py:81-98 | a new process may start a refresh at once, whatever back-off its predecessor had |

## Left out

- MySQL, SQL text, `information_schema` checks, triggers and views: tables are maps with the keys and conditional updates the code relies on.
- Collation: keys stand for what the database compares, except in `PartStore.ReceiptCountsRowsIff`, `PartStore.EvidenceFindsIff` and `GroupCollation`, which fold them; `GroupTable` assumes that codes and uids of a category stay different after folding.
- `GroupReplay.ReplayPreservesGroups` and the other replay theorems: one context serves the live parse and the replay; `StoredContext` says when two different ones agree on every page, not on which single pages they do.
- Attributes that are entity-encoded twice, and text inside `noscript`, which differ between a page and its stored form.
- HTML and URL libraries, percent-decoding and the second entity decoding in `_abs`: pages start from elements with decoded query pairs, and header labels of part tables from their meaning.
- zlib, SHA-256, JSON printing and secret-pattern scanning: uninterpreted functions, or a predicate that may reject.
- Evidence capture inside `crawl_group` and the bounded group receipts: each is one statement that may fail; their own columns are not modelled.
- The second evidence pass over the published rows: one more fact that the publication gate reads.
- `mark_vehicle_groups_not_found` and same-run refetches outside `crawl_group`: receipts and quota are stated over the transitions of `crawl_group`.
- `resumable_bounded_run_key`: which run is resumed is an input.
- Brand list parsing, date ranges and quality gates of parts: the first adds only easier members, the others are inputs.
- Robots evaluation before the first request, and the HTTP date form of Retry-After: the call starts once the URL is allowed, and a header is a number or absent.
- CloakBrowser launching, export polling, signals, `ps`, `kill` and file permissions: steps with an outcome chosen by the environment.
- `fetch_page` of the browser client, which launches a browser under the same file lock without reading the back-off: `BrowserSession` is about refreshes.
- The busy flag and the result of a refresh change in one step of `BrowserSession`, in two of the code; the file lock is held across both.
- The heartbeat of the runtime lease: a crawler in `Admission` holds its lease until it ends or crashes.
- Operator-requested recovery of stale daemon jobs and the NHTSA repair: the preflight is modelled with jobs recorded as failed, which have no live crawler.
- The site login, VIN supplement, recover-only pass, FastAPI back office and command lines.
- `GroupCrawl.Worker.CrawlFull`: one connection. Other workers' commits are brought in by `Interleaving`, which takes calls as the transactions they commit. Bounded runs have one worker in the code as well.
- `Dispatch.CrawlModel`: the database commits around the marks and the evidence of the pick page are not modelled.
