# A verified model of the proposal engine

This project models the parts of the engine whose correctness spans several functions, and proves
what their documentation and tests promise: records that survive a crash, buyer documents that are
changed only where intended, a knowledge base that loses no contribution, stages that survive kill
and resubmit, a steward's batch merge, and drafting that stays safe whatever a model replies.

`dafny verify dfyconfig.toml` checks every file. Each module follows one source component:

- `RecordLog`, `RecordRuns`: the append-only record file, and runs of appends over it with power
  lost after any number of durable effects. `parses` stands for the JSON parser; the theorems take
  a record to hold no newline and to have no proper prefix that parses, as the append's own comment
  assumes, and `PrefixThatParsesIsMisread` shows why the second is needed.
- `Coordinates`, `Ordered`, `SheetPatch`, `CalcChain`, `Workbook`, `WriteBack`: the workbook writer,
  from one coordinate to the whole write and the verifier that re-reads it.
- `FillRendering`, `TemplateFill`, `FillProof`, `FillReturns`: the response-document fill, its replay
  proof, and when it returns.
- `Provenance`, `Ingest`, `IngestProof`, `Reingest`: the card store and the dedup-merge loop, dry
  and real.
- `Durable`, `GateKey`, `GateEdits`, `Gate0`, `Gate0Runs`, `Gate0First`, `Gate0Lines`, `Gate0Endures`:
  Gate 0, its request digest, its edits, and histories of submissions, kills, intake re-runs,
  questions to experts and their answers, rewrites of the rest of the brief, and its freezing.
  `Durable.Volume` is a directory with a number of durable writes left before a kill, so a call
  lands any prefix of the writes it owes.
- `Drafting`, `DraftingRuns`, `DraftingTrips`: the drafting stage over the same kind of directory, and
  runs that a section's replies end.
- `Curation`, `CurationRuns`, `CurationCompletes`: the steward's batch merge, the proposal store, and
  which admitted batches complete.
- `Routing`, `Wire`, `SectionDraft`: draft routing, the reply parsers and one section's draft.
- `Chunker`, `Layout`, `Fingerprint`: three compact algorithms with full specifications.

Code the source writes as loops and updates is a method or a class here, tied by its contract to a
function; the lemmas are about that function. Hashes are arbitrary functions, injective where a
result needs it. Clocks, file contents, model replies and the drafter are parameters.

## Where the code and its promises differ

Each of these is a lemma with a concrete input or an exact condition, and the code is kept as written.

- The calcChain edit loses an owed sheet id when a dropped entry with its own `i` is followed by a
  dropped implicit one; `EditKeepsSheets` gives the exact condition, `LostDebtMovesACell` a chain
  that fails, `RepairKeepsSheets` the repaired loop without any condition. The verifier asks only that
  no entry names an intended cell (`AcceptedIff`), so it accepts a chain whose cell changed sheet
  (`MovedCellIsAccepted`).
- The ingest's `exists` still answers yes for a card this call wrote and then merged away. The dry
  run then reports a merge on which the real run raises (`StaleOwnerRaises`). Nor does the dry run
  validate what it would write, and the outcome a document is ingested under is free text: a card
  its schema refuses is reported as written (`UnfitCandidateRaises`). `RealRunReturnsIff` says exactly
  when the real run returns.
- A Gate 0 stamp is for good exactly when no rejection's redo is pending and the stamp names its
  request (`StampEnduresIff`): approving after a rejection and before the next advance stamps a brief
  that the next intake replaces, and a stamp written before the digest existed takes any request of
  its actor, a rejection included. What is for good is the stamp and the corrected values; the rest
  of the brief is rewritten by later stages.
- What the gate answered or skipped is not for good: a question sent to an expert before the gate
  can be answered after it, and the late answer is written over the gate's. It stands over every
  history exactly when no question on that gap is out or the brief is frozen (`GateAnswerEnduresIff`).
- An approval killed between the stamp and its gap lines loses those lines for good, because the
  call that completes the gate emits none (`GapLinesCompleteIff`).
- Resubmission does not always converge: corrections that pass every check of the gate can leave a
  brief its schema refuses, a number for a name say, and then every submission raises at the write
  (`NumberForNameIsRefused`); `ApprovalCompletesIff` is exact.
- "One duplicate gate line" is a bound for one kill: the log gains a gate line for every try that
  reached it before one wrote the checkpoint (`GateLinesCount`, `KilledAtTheGateLine`).
- "Correct the text, and the parse follows" is true of weights only: a corrected deadline text
  leaves the parsed date as it was (`CorrectedDeadlineDate`).
- A reply that cites a list or an object where an id belongs raises a type error, which is no wire
  error: the run ends instead of pending the section, and a check reply of that kind destroys the
  draft it should have kept. So does text on which the JSON loader raises something other than its
  decode error, an integer of some thousand digits or deep nesting. `FreeFormRaisesIff` and
  `DesignatedRaisesIff` give the exact condition on each path, `RamblingCheckEndsTheRun`,
  `RamblingAnswersEndTheRun` and `UnloadableCheckEndsTheRun` replies that do it. No number of resumes
  gets past a section whose replies keep doing it (`ResumeCompletesIff`).
- A check that says "fixed" replaces the draft whole: a slot the draft answered is lost exactly when
  the usable replacement has no entry for it (`CheckLosesSlotIff`), and an empty replacement loses
  every slot (`EmptyFixLosesAll`).
- A card under legal hold can be deprecated, and its hold lifted: `legal_hold` is tested on
  deprecations only, and an update of a card may carry `deprecated` or `legal_hold` among its keys.
  `HeldCardIsDeprecated` is such a batch; `MergeKeepsHoldIff` and `HeldThroughoutIff` say exactly when
  a hold and a deprecation stand.
- What a batch accepted can be gone when it ends: a lesson, to a later update of the card that carries
  `lessons` (`LessonIsErased`); an update, to a later one of the same key (`UpdateIsOverwritten`); a
  deprecation, to a later mark. `CarriedIff` says exactly when each stands.
- Pass 1 does not validate a whole batch: two proposals of one body, two updates that fit a card
  only apart, a new card that does not fit the schema, and an update that carries `provenance` or
  `kb_id`, which validates and cannot be written, are all admitted, and pass 2 halts on them.
  `CompletesIff` says which admitted batches complete; `TwinsAreAdmitted` and `ProvenanceIsAdmitted` are
  batches that do not. A
  merge killed between a decision and the log line leaves an accepted proposal that no line names
  (`MergeRecordsIff`).
- What a section's other status is depends on the order of its gaps: the last barring gap decides
  on the free-form path (`LastHardWins`), the first on the designated path (`FirstHardWins`).
  What is drafted does not (`OrderIrrelevant`).
- A fill can fail its own proof: over a table with uneven rows a rewrite leaves old cells behind
  (`UnevenFillFails`). It passes exactly when every table that takes a value has the row widths that
  value needs (`SurgeryIsReplayIff`), so always on rectangular tables.
- A coordinate with a leading zero is inserted beside the cell it names; the columns of a sheet stay
  in order exactly when the coordinate is canonical or its cell was absent (`OrderKeptIff`).

## Model

| member | source | states |
|---|---|---|
| `RecordLog.RecordFile.UnterminatedTail` | engine/contracts/atomic.py:66-89 | the backward scan in growing chunks returns exactly the bytes the whole-file form calls the tail, for every length and newline placement |
| `RecordLog.RecordFile.AppendFsync` | engine/contracts/atomic.py:92-146 | the file and the outcome of one append: completed record, truncated fragment, refusal, or any prefix of the bytes when power is lost |
| `RecordLog.RecordFile.ReadJsonl` | engine/contracts/jsonl.py:18-44 | raises exactly on a complete line that does not parse, naming the first; otherwise the parsed lines and the torn tail |
| `RecordLog.LastLineIsTail` | engine/contracts/jsonl.py:47-54 | the reader's last line is the scan's tail whenever there is one |
| `RecordRuns.AppendRefinesStep` | engine/contracts/atomic.py:92-146 | an append on bytes refines one step of a log of whole records and a tail, wherever power is lost |
| `RecordRuns.RunIsReadable` | engine/contracts/jsonl.py:18-44 | after any run of appends, crashes and repairs the reader does not refuse and returns every acknowledged record in order and just those others that landed whole |
| `RecordRuns.RepairRemovesOnlyTornBytes` | engine/contracts/atomic.py:92-146 | over any bytes an append removes nothing but a fragment after the last newline |
| `RecordRuns.PrefixThatParsesIsMisread` | engine/contracts/jsonl.py:18-44 | a record with a parseable proper prefix can be read back as another record |
| `Coordinates.SplitCoordInjective` | engine/assembly/xlsx_patch.py:47-56 | two coordinates without leading zeros that split alike are equal |
| `Coordinates.LeadingZeroAliases` | engine/assembly/xlsx_patch.py:47-56 | without that condition A1 and A01 are one cell |
| `SheetPatch.PatchSheet` | engine/assembly/xlsx_patch.py:90-142 | the writes are applied in order to rows and cells in place; a refused coordinate abandons the part |
| `SheetPatch.CanonicalDecides` | engine/assembly/xlsx_patch.py:90-142 | a write keeps a well-formed sheet well formed exactly when its coordinate has no leading zero |
| `SheetPatch.OrderKeptIff` | engine/assembly/xlsx_patch.py:90-142 | rows and columns stay in strict order exactly when the coordinate is canonical or the cell it names was absent |
| `SheetPatch.PatchAllSets` | engine/assembly/xlsx_patch.py:90-142 | both orders kept, every written cell reads back its text with its old style, every other cell as before, exactly the written formula cells listed |
| `SheetPatch.SheetDetermined` | engine/assembly/xlsx_patch.py:90-142 | a well-formed sheet is determined by what its cells and rows read back |
| `SheetPatch.WriteOrderIrrelevant` | engine/assembly/xlsx_patch.py:90-142 | any order of the same writes gives the same sheet and the same formula cells |
| `CalcChain.ChainEntries` | engine/assembly/xlsx_patch.py:145-154 | every entry is paired with the sheet id it inherits |
| `CalcChain.Part.PatchCalcChain` | engine/assembly/xlsx_patch.py:157-177 | the chain after the loop as written, owed ids included |
| `CalcChain.EditKeepsSheets` | engine/assembly/xlsx_patch.py:157-177 | every survivor keeps its resolved sheet exactly when no debt is lost, for every chain and drop set |
| `CalcChain.NoDroppedPairKeepsSheets` | engine/assembly/xlsx_patch.py:157-177 | so it does when no dropped implicit entry directly follows a dropped entry with its own id |
| `CalcChain.LostDebtMovesACell` | engine/assembly/xlsx_patch.py:168-170 | the family of chains of three whose last cell changes sheet |
| `CalcChain.RepairKeepsSheets` | engine/assembly/xlsx_patch.py:157-177 | with the id read after the stamp every survivor keeps its sheet, unconditionally |
| `Workbook.WriteCells` | engine/assembly/xlsx_patch.py:196-243 | the output parts, rebuilt in the source's order, then the chain edited |
| `WriteBack.RebuiltPartMeans` | engine/assembly/xlsx_patch.py:218-228 | a part whose sheet has an answer has exactly its answered cells set and reports exactly the formula cells among them; any other part is copied unchanged, the core part stamped; good writes are never refused |
| `Workbook.PatchChains` | engine/assembly/xlsx_patch.py:229-232 | the chain part, and no other, goes through the chain loop |
| `WriteBack.FormulasMean` | engine/assembly/xlsx_patch.py:196-243 | the formula cells collected are exactly the intended cells that held a formula |
| `WriteBack.AcceptedIff` | engine/assembly/xlsx_patch.py:260-307 | good writes to a well-formed workbook are never refused, and the verifier accepts what was written exactly when the edited chain names no intended cell |
| `WriteBack.WriterIsAccepted` | engine/assembly/xlsx_patch.py:260-307 | so it does when the chain names formula cells and no debt is lost, with the repaired loop always |
| `WriteBack.MovedCellIsAccepted` | engine/assembly/xlsx_patch.py:285-292 | a chain entry that changed its sheet passes the verifier |
| `WriteBack.AcceptanceProtects` | engine/assembly/xlsx_patch.py:260-307 | whenever the verifier accepts, every sheet reads the same outside the intended coordinates |
| `FillRendering.RecordRows` | engine/assembly/template_fill.py:293-304 | the table's rows with each field's text in its cell |
| `FillRendering.PutFieldsMeans` | engine/assembly/template_fill.py:293-304 | same shape, each field's cell holds its text, every other cell its old one |
| `FillRendering.GridRows` | engine/assembly/template_fill.py:307-321 | the header and one row an entry |
| `FillRendering.EntryRowMeans` | engine/assembly/template_fill.py:307-321 | each cell of an entry's row is the text of the field of that column |
| `TemplateFill.Table.SetTable` | engine/assembly/template_fill.py:327-337 | rows added, cells rewritten in place, surplus rows dropped; raises when a row is too wide |
| `TemplateFill.ReadsBackIff` | engine/assembly/template_fill.py:327-337 | the table reads back exactly the rows set when and only when the widths fit |
| `TemplateFill.Document.FillDocument` | engine/assembly/template_fill.py:340-470 | the body and the change set after the in-place walk, positions shifting as children are removed and inserted |
| `FillProof.AssertFillRoundtrip` | engine/assembly/template_fill.py:473-501 | passes exactly when the output stream is the replay of the change set over the source stream |
| `FillProof.SurgeryIsReplayIff` | engine/assembly/template_fill.py:340-501 | a fill that returns passes its own proof exactly when every non-empty table that takes a hand value has the row widths that value needs, a condition on template and values alone |
| `FillProof.WalkAgrees` | engine/assembly/template_fill.py:340-501 | through every removal, replacement and shift of position, surgery and replay agree exactly while every table rewrite fits |
| `FillProof.EvenDecides` | engine/assembly/template_fill.py:293-337 | a rendering fits its table exactly when the rows are even: for a buyer record all as wide as the next, for a grid as wide as the header, for a case block one cell |
| `FillProof.UnevenFillFails` | engine/assembly/template_fill.py:293-337 | a buyer's record table under a wider header returns and then fails its proof |
| `FillProof.FillPassesReplay` | engine/assembly/template_fill.py:473-501 | a fill of rectangular tables that succeeds passes its own proof |
| `FillReturns.TakesDecides` | engine/assembly/template_fill.py:293-337 | a hand table is rendered and rewritten without a raise exactly when every filled field has its cell and no row is wider than the one it is written over |
| `FillReturns.FillReturnsIff` | engine/assembly/template_fill.py:340-470 | with guidance texts that tell the anchors apart, the fill returns exactly when every table that takes a value has the cells for it and every filled anchor's guidance box stands past the front matter, outside the hand tables |
| `FillProof.EveryAnchorOnce` | engine/assembly/template_fill.py:453-469 | a fill that succeeds consumed every filled anchor exactly once, by a replacement with its own paragraphs |
| `FillProof.FrontMatterGoes` | engine/assembly/template_fill.py:382-400 | the firm's front matter is removed up to the first numbered heading and nothing after it for that reason |
| `Provenance.KBStore.Write` | engine/kb/store.py:80-91 | a card that fails its schema is refused and nothing changes; otherwise card and one-source record are written under the card's id |
| `Provenance.KBStore.Rewrite` | engine/kb/store.py:126-140 | an existing card's content replaced, its record untouched; refuses a missing card and one that fails its schema |
| `Provenance.KBStore.Append` | engine/kb/provenance.py:183-204 | the source joins once, identifiers update, the absorbed id is remembered; raises on a missing record |
| `Provenance.KBStore.Merge` | engine/kb/provenance.py:206-226 | the loser's sources, identifiers and links fold into the survivor and its record goes |
| `Provenance.AbsorbedOwners` | engine/kb/provenance.py:228-240 | each absorbed id maps to the first record that lists it |
| `Provenance.MergeConserves` | engine/kb/provenance.py:206-226 | a merge of two cards loses no source, identifier key or remembered id |
| `Provenance.AppendConserves` | engine/kb/provenance.py:183-204 | an append loses nothing, holds the new source and remembers the absorbed id |
| `Provenance.SelfMergeLoses` | engine/kb/provenance.py:206-226 | a merge of a card into itself would lose its record |
| `Ingest.OutranksIsStrictOrder` | engine/kb/ingest.py:461-477 | the survivor rule is a strict total order on distinct ids |
| `Ingest.TopIsFirst` | engine/kb/ingest.py:881-892 | the merge partner has the highest score, lowest id among equals |
| `Ingest.Writer.Append` | engine/kb/ingest.py:480-549 | the store's append, or nothing at all for a dry writer |
| `Ingest.DedupMerge` | engine/kb/ingest.py:849-952 | the store and the report after the loop over any candidates, dry or real, raises included |
| `Ingest.MergeOne` | engine/kb/ingest.py:903-946 | one near duplicate: the container or the outranking card survives, a measurement moves with it |
| `IngestProof.DryRunIsRealReport` | engine/kb/ingest.py:584-589 | whenever the real run returns, the dry run from the same store gives the same report, because `exists` answers alike at every step |
| `IngestProof.RealRunReturnsIff` | engine/kb/ingest.py:849-952 | the real run returns exactly when every card the dry run would write validates and every append of it lands on a card its own list still names |
| `IngestProof.MergePartnerIsLive` | engine/kb/ingest.py:903-952 | a merge never targets a dead card or the candidate's own id |
| `IngestProof.IngestConserves` | engine/kb/ingest.py:849-952 | over any run, raised or not, no source, identifier or id is lost; until a raise the list names exactly the live cards |
| `IngestProof.EveryCandidateAccounted` | engine/kb/ingest.py:849-952 | after a run that returns every candidate's id is remembered and each one not skipped left its source |
| `Reingest.BeginIsSound` | engine/kb/ingest.py:850-853 | the invariant holds of every consistent store, its listing and its merge memory |
| `Reingest.ReingestWritesNoCard` | engine/kb/ingest.py:865-879 | ingesting the same content again mints, merges away and deletes nothing, and never raises |
| `Reingest.MeasurementsKept` | engine/kb/ingest.py:919-927 | a survival some card carries is carried by a live card after any run of fresh candidates |
| `Reingest.StaleOwnerRaises` | engine/kb/ingest.py:931-932 | a store and three candidates of one outcome and distinct texts on which the dry run reports and the real run raises |
| `Reingest.UnfitCandidateRaises` | engine/kb/ingest.py:945-952 | a candidate the schema refuses is reported by the dry run and raises in the real one |
| `GateKey.PruneDecides` | engine/contracts/gate_key.py:25-35 | two requests have one canonical form exactly when they are equal up to empty entries at any object level |
| `GateKey.PruneIdempotent` | engine/contracts/gate_key.py:25-35 | pruning twice is pruning once |
| `GateKey.RequestDigest` | engine/contracts/gate_key.py:38-55 | the digest is the hash of the pruned semantic fields; any other field is refused |
| `GateKey.DigestDecides` | engine/contracts/gate_key.py:38-55 | with an injective hash two accepted requests share a digest exactly when they are the same request |
| `GateEdits.ApplyCorrections` | engine/intake/gate.py:88-129 | the brief after every correction, or the refusal of the first that fails |
| `GateEdits.CorrectionsKeepWeights` | engine/intake/gate.py:112-128 | whatever the corrections, no weight stands that its text does not state, and the register shows the brief's number |
| `GateEdits.CorrectionsStand` | engine/intake/gate.py:88-129 | an accepted correction is on the brief and its register entry until a later one of its field |
| `GateEdits.CorrectedDeadlineDate` | engine/intake/gate.py:99-111 | after a corrected deadline text the date is right exactly when the new text parses as the old did |
| `GateEdits.ApplyGapActions` | engine/intake/gate.py:132-191 | the gaps and the log lines after answers then skips, or the first refusal |
| `GateEdits.ActionMeans` | engine/intake/gate.py:140-190 | an accepted action names a gap that was open and closes it as asked, whatever else the batch does |
| `GateEdits.ActionsDistinct` | engine/intake/gate.py:140-148 | no two accepted actions name one gap |
| `Gate0.ApproveGate0` | engine/intake/gate.py:218-365 | the directory after a call is a prefix of the call's writes, all of them unless killed |
| `Gate0First.RejectionReopensIntake` | engine/intake/gate.py:282-297 | a rejection never stamps the brief or records the gate, wherever it is killed; past the second clearing the next advance re-runs intake |
| `Gate0First.EditableAtOneClock` | engine/intake/gate.py:132-191 | whether the edits are accepted, and the brief they leave fits its schema, does not depend on the clock |
| `Gate0Runs.StampIsForGood` | engine/intake/gate.py:253-278 | over any history of submissions, kills, intake re-runs, expert questions and answers and rewrites of the rest of the brief, the stamp, the corrected values and their register stand, and a checkpoint stays and agrees with the stamp on actor, clock and digest |
| `Gate0Runs.GateAnswerEnduresIff` | engine/web/pings.py:123-162 | what the gate made of a gap outlives every history exactly when no question on it is out or the brief is frozen |
| `Gate0Runs.StampedAttempt` | engine/intake/gate.py:258-278 | once stamped a well-formed call raises exactly when it is another request, and then writes nothing |
| `Gate0First.FirstApproval` | engine/intake/gate.py:303-341 | a killed approval whose edits are accepted leaves the brief as it was, or with every edit and the stamp together, and with a known part of its gap lines |
| `Gate0First.EditsApplyOnce` | engine/intake/gate.py:268-341 | over any kills and resubmissions under any clocks accepted edits apply once, at the first landed clock |
| `Gate0First.GapLinesCompleteIff` | engine/intake/gate.py:341-362 | however often resubmitted, the log has every gap line of the approval exactly when the try that stamped the brief also landed them all |
| `Gate0First.ResubmissionConverges` | engine/intake/gate.py:253-365 | with accepted edits one uninterrupted resubmission under any clock completes the gate with the stamp's actor, clock and digest |
| `Gate0First.ApprovalCompletesIff` | engine/workspace/pursuit.py:97-109 | after any tries one uninterrupted submission records the gate exactly when its edits are accepted and leave a brief its schema takes; otherwise it raises |
| `Gate0First.NumberForNameIsRefused` | engine/intake/gate.py:88-129 | an accepted correction whose brief a schema that wants text there refuses |
| `Gate0Lines.GateLinesCount` | engine/intake/gate.py:350-362 | over any kills and resubmissions the log gains one gate line for each try that reached it before one wrote the checkpoint |
| `Gate0Lines.KilledAtTheGateLine` | engine/intake/gate.py:350-362 | n kills between the gate line and the checkpoint leave n gate lines |
| `Gate0Endures.StampEnduresIff` | engine/pipeline/driver.py:248-251 | the stamp and the corrected values outlive every history exactly when no redo is pending and the stamp or a checkpoint names its request |
| `Gate0Endures.PendingRedoLosesStamp` | engine/pipeline/driver.py:248-251 | with a redo pending the next advance replaces the stamped brief |
| `Gate0Endures.OldStampTakesRejection` | engine/contracts/gate_key.py:58-69 | a stamp without a digest takes a rejection from its actor |
| `Gate0Endures.DigestFixesDecision` | engine/contracts/gate_key.py:38-55 | the gate's digest fixes the decision, as the gate's theorems ask of it |
| `Drafting.RunDrafting` | engine/drafting/draft.py:134-171 | the directory after a run is a prefix of its writes: envelope, status, one checkpoint a section, envelope |
| `DraftingRuns.LoopIsHonest` | engine/drafting/draft.py:151-162 | after n sections the checkpoint holds the plan's own drafts only, and one for every draftable section passed |
| `Drafting.Assemble` | engine/drafting/draft.py:413-446 | one entry a section in plan order: its checkpointed draft or its skeleton |
| `Drafting.DraftStatus` | engine/drafting/draft.py:457-469 | drafted or planned on the draftable sections and no others |
| `DraftingRuns.EveryEnvelopeIsOfItsPlan` | engine/drafting/draft.py:134-171 | every envelope ever written, over kills, resumes and re-frozen plans, lists exactly its plan's sections in order and no entry of another plan |
| `DraftingRuns.RunCompletes` | engine/drafting/draft.py:134-171 | from any state the stage can leave, an uninterrupted run ends with the finished envelope |
| `DraftingRuns.ResumeIsTransparent` | engine/drafting/draft.py:134-171 | any number of kills and resumes ends in the envelope and draft status of the uninterrupted run |
| `DraftingRuns.NeverDraftedAgain` | engine/drafting/draft.py:151-162 | a checkpointed section is never drafted again for its plan |
| `DraftingTrips.ResumeCompletesIff` | engine/drafting/draft.py:151-171 | after any runs, kills and re-frozen plans one more run ends with the finished envelope exactly when no section it would draft ends the run |
| `Curation.Steward.Stage` | engine/kb/curation.py:539-588 | pass 1: the staged batch or the first refusal, nothing written |
| `Curation.Steward.MergeBatch` | engine/kb/curation.py:520-616 | the knowledge base after a call: untouched when refused, else the operations performed and the log line unless killed |
| `CurationRuns.AdmittedIff` | engine/kb/curation.py:539-588 | a batch is admitted exactly when no id repeats and each would be admitted alone |
| `CurationRuns.AcceptsPrefix` | engine/kb/curation.py:590-607 | wherever pass 2 halts the accepted ids are a prefix of the batch and at most one more proposal has operations performed |
| `CurationRuns.MergeDecides` | engine/kb/curation.py:593-607 | exactly the accepted ids change status, each from proposed |
| `CurationRuns.MergeLogs` | engine/kb/curation.py:608-616 | one line, naming the accepted ids and both snapshots, unless refused or killed |
| `CurationRuns.DecidedOnce` | engine/flywheel/proposals.py:144-161 | over any history a decided proposal's record never changes again |
| `CurationRuns.LogNamesAtMostOnce` | engine/kb/curation.py:251-270 | over every history, kills included, no proposal is named as accepted by two lines |
| `CurationRuns.LogNamesExactlyOnce` | engine/kb/curation.py:608-616 | without a kill every accepted proposal is named by exactly one line |
| `CurationRuns.MergeRecordsIff` | engine/kb/curation.py:608-616 | a merge leaves an accepted proposal without its line exactly when killed after its decision |
| `CurationRuns.CarriedIff` | engine/kb/curation.py:593-607 | what an operation put on the cards still reads back when pass 2 halts exactly when the last later writer of each of its keys wrote the same, and a lesson was not dropped from its list; a new card's body and a decision always stand |
| `CurationRuns.UnwrittenStands` | engine/kb/curation.py:593-607 | so it does when no later operation of the batch writes one of its keys |
| `CurationCompletes.NewCardStands` | engine/kb/curation.py:593-607 | a new card of an admitted batch is on the cards exactly as drafted |
| `CurationCompletes.CompletesIff` | engine/kb/curation.py:590-607 | an admitted batch completes exactly when each new card fits and its id is no earlier one's, and each update can be called and leaves its card, as the earlier operations left it, fitting and free of provenance |
| `CurationCompletes.TwinMintsNeverComplete` | engine/kb/curation.py:412-415 | no admitted batch with two new cards of one body completes |
| `CurationCompletes.TwinsAreAdmitted` | engine/kb/curation.py:539-588 | two proposals of one body that pass 1 admits and pass 2 halts on |
| `CurationCompletes.OddKeyNeverCompletes` | engine/kb/store.py:31-35 | no admitted batch with an update that carries provenance or kb_id completes |
| `CurationCompletes.ProvenanceIsAdmitted` | engine/kb/curation.py:563-616 | a batch that pass 1 admits and the first write refuses: nothing written, nothing decided, an aborted line |
| `CurationRuns.MergeKeepsHoldIff` | engine/kb/curation.py:563-607 | a merge leaves a held card held and deprecated as before exactly when the last performed updates of it that write `legal_hold` and `deprecated` write what stood |
| `CurationRuns.UnkeyedBatchSpares` | engine/kb/curation.py:563-607 | so it does when no proposal on the card carries either key: its deprecation is refused |
| `CurationRuns.HeldThroughoutIff` | engine/kb/curation.py:580-595 | over any history a held card stays held and deprecated as it was exactly when every merge in it spares it so |
| `CurationCompletes.HeldCardIsDeprecated` | engine/kb/curation.py:563-606 | a batch that deprecates a card under legal hold |
| `CurationCompletes.LessonIsErased` | engine/kb/curation.py:563-606 | a batch that accepts a lesson and erases it |
| `CurationCompletes.UpdateIsOverwritten` | engine/kb/curation.py:563-606 | a batch that accepts two updates of one key and keeps the second value |
| `Routing.CascadeGating` | engine/planning/sections.py:119-134 | the skipped slots are the least set closed under the gapped gaters' gates |
| `Routing.SectionPlan` | engine/drafting/route.py:81-196 | the lanes, status, steering and warnings of a section on the designated path |
| `Routing.DraftedLaneIff` | engine/drafting/route.py:106-177 | a slot is drafted exactly when it is answerable, all its gaps are additive and no gap-carrying slot gates it |
| `Routing.DraftedSectionIff` | engine/drafting/route.py:164-192 | a section is drafted exactly when some slot is and no untargetable gap bars it |
| `Routing.OrderIrrelevant` | engine/drafting/route.py:108-192 | what is drafted does not depend on the order of the gaps |
| `Routing.FirstHardWins` | engine/drafting/route.py:120-150 | the lane of an answerable slot is the one its first barring gap names, whatever the later gaps say |
| `Routing.SectionPlanB` | engine/drafting/route.py:199-226 | the plan of a free-form section |
| `Routing.DraftedBIff` | engine/drafting/route.py:199-226 | it is drafted exactly when every gap is additive, flagged exactly when one says so |
| `Routing.LastHardWins` | engine/drafting/route.py:199-226 | its other status is the last barring gap's |
| `Wire.CleanKbIds` | engine/drafting/wire.py:37-53 | the citation gate's result, or the type error |
| `Wire.CleanMeans` | engine/drafting/wire.py:37-53 | what is cited is exactly what was named and opened, once each |
| `Wire.CleanKeepsOrder` | engine/drafting/wire.py:37-53 | in the order first named |
| `Wire.CleanRaisesIff` | engine/drafting/wire.py:37-53 | the gate raises exactly on a list that names a list or an object |
| `Wire.ParseWireAnswers` | engine/drafting/wire.py:56-91 | the answers that land, or why the reply is unusable: a wire error, a type error, or what the loader raises |
| `Wire.AnswersMean` | engine/drafting/wire.py:56-91 | only requested slots, each from its first usable entry, citing opened cards only |
| `Wire.AnswersRaiseIff` | engine/drafting/wire.py:56-91 | a list of answers raises the type error exactly when some entry trips on a compound value and no entry before it trips or is unusable |
| `SectionDraft.ProseOfMeans` | engine/drafting/wire.py:94-108 | a free-form reply raises exactly when it cannot be loaded or is usable prose with a compound citation, is unusable exactly when its prose is missing or unclean, and otherwise gives its prose and the opened cards it names, once each |
| `SectionDraft.DraftSection` | engine/drafting/draft.py:226-285 | the designated-path entry after both replies: pended, drafted or replaced |
| `SectionDraft.DraftProse` | engine/drafting/draft.py:244-285 | the same on the free-form path |
| `SectionDraft.Compose` | engine/drafting/draft.py:328-386 | the entry, lane by lane, its citations in plan order |
| `SectionDraft.WrittenAnswersAreSafe` | engine/drafting/draft.py:244-285 | whatever the model replies, a written answer belongs to a draftable slot and cites opened cards only, through draft and replacement |
| `SectionDraft.CitedCardsWereOpened` | engine/drafting/draft.py:328-386 | the section's cited cards are exactly its answers' citations, all opened for it |
| `SectionDraft.FreeFormCitesOpened` | engine/drafting/wire.py:94-136 | the free-form entry cites opened cards only, once each |
| `SectionDraft.FreeFormRaisesIff` | engine/drafting/wire.py:94-136 | a free-form section ends the run exactly when the draft cannot be loaded or is usable prose with a compound citation, or the draft is usable and its check cannot be loaded or is such a replacement |
| `SectionDraft.RamblingCheckEndsTheRun` | engine/drafting/wire.py:111-136 | a check reply that destroys a good draft instead of failing open |
| `SectionDraft.DesignatedRaisesIff` | engine/drafting/draft.py:244-285 | a designated-path section ends the run exactly when the draft cannot be loaded or trips, or is usable and its check cannot be loaded or says "fixed" and trips |
| `SectionDraft.RamblingAnswersEndTheRun` | engine/drafting/wire.py:56-91 | a check reply that destroys any usable designated-path draft |
| `SectionDraft.UnloadableCheckEndsTheRun` | engine/drafting/wire.py:111-122 | a check the loader raises on destroys any usable draft, on either path |
| `SectionDraft.PlainRepliesNeverRaise` | engine/drafting/wire.py:56-136 | in particular replies that the loader takes or refuses as such, without compound values, never do |
| `SectionDraft.CheckLosesSlotIff` | engine/drafting/draft.py:256-285 | a slot the draft answered is lost exactly when a check that says "fixed" is usable and has no entry for it |
| `SectionDraft.EmptyFixLosesAll` | engine/drafting/draft.py:256-285 | a "fixed" check without answers leaves every slot pending |
| `Chunker.ChunkElements` | engine/kb/chunk.py:35-71 | the chunks tile the non-heading indices: ordered, maximal runs, figures and Q&A alone, each under its path of open headings |
| `Chunker.PopClosed` | engine/kb/chunk.py:57-62 | a heading closes exactly the open headings of its level and below |
| `Chunker.OneTiling` | engine/kb/chunk.py:35-71 | there is only one such list of chunks |
| `Chunker.EachIndexOnce` | engine/kb/chunk.py:35-71 | every non-heading element is in exactly one chunk, every heading in none |
| `Chunker.CharsConserved` | engine/kb/chunk.py:23-32 | the chunks' characters are the elements' characters |
| `Chunker.LevelsIncrease` | engine/kb/chunk.py:46-62 | levels strictly increase along every path |
| `Chunker.HeadingCloses` | engine/kb/chunk.py:57-62 | a path holds exactly the headings no later one of equal or lower level closed |
| `Layout.IsMulticolumn` | engine/extraction/layout.py:41-65 | true exactly when some two groups of at least three boxes are side by side with overlapping ranges |
| `Layout.PrefixSearchDecides` | engine/extraction/layout.py:53-65 | the search over sorted prefixes is complete over all partitions |
| `Layout.YRangeIsTight` | engine/extraction/layout.py:35-38 | the range covers every box and both ends are reached |
| `Fingerprint.HashedBytes` | engine/evals/cases.py:62-80 | the framed stream of the files, or the first file too long to frame |
| `Fingerprint.DecodeOfStream` | engine/evals/cases.py:62-80 | a decoder recovers the list of files from the stream |
| `Fingerprint.StreamOfDecode` | engine/evals/cases.py:62-80 | and what decodes is the stream of what it decodes to |
| `Fingerprint.StreamInjective` | engine/evals/cases.py:62-80 | lists of NUL-free names with framable data give one stream only if equal |

## Left out

- RecordLog.RecordFile.ReadJsonl: lines split on the newline byte only and a record is its own bytes, because records are written with everything else escaped; decoding is the parameter `parses`.
- Fsync, rename and directory semantics: `write_bytes_atomic` is one step that lands or does not, an append lands a prefix of its bytes, and `archive_aside` is not modelled.
- Zip, XML and the office libraries: a workbook is a list of named parts, a sheet its rows and cells, a document a list of paragraphs and tables; shared formulas, row spans, merged cells and rich text are not modelled.
- SheetPatch.PatchSheet: column and row order are the numbers of the coordinate, and a row's own attributes other than its number are not modelled.
- TemplateFill.Document.FillDocument: the delivered texts, hand values and guidance texts are given, not computed from the plan and the store; pattern matches on headings and brackets are written out.
- GateKey.RequestDigest: a ghost method, because the model of pruning picks the keys of a dictionary in no fixed order; JSON numbers are integers.
- Ingest.DedupMerge: candidates, identifiers, the overlap score and the merge memory are given; the refusal, extraction, anonymization scan, reconciliation buckets and claim proposals around the loop are not modelled. Card ids are numbers in their lexicographic order and a card's title, summary and body are one text.
- Reingest.MeasurementsKept: for runs without a drifted candidate, because a drifted card takes its survival from reconciliation, which is not modelled.
- Provenance.KBStore.Write: card file and record in one step, so a crash between the two is not modelled; access grants, the source artifacts and purge are not either.
- Gate0Runs.GateAnswerEnduresIff: gap ids are distinct (the gate takes the last of equal ids and an expert's answer the first), the question's own record is the number of questions out on a gap, and the plan's lane of questions is not modelled.
- Gate0Runs.StampIsForGood: the brief outside its corrected values, register, gaps and stamp is one text, rewritten at will; what research, win themes and Gate 1 put there is not modelled.
- Gate0.ApproveGate0: the brief's schema is asked of the corrected brief, as gap actions, confirmations and the stamp add only what it takes, and a brief already on disk is taken to fit it. The organization link and the card proposals an answer can spawn are left out; both write to other stores, and the first is not idempotent under a crash.
- GateEdits.ApplyCorrections: a field path is its parent and its leaf, parents resolve or not, and a value is a text or a number.
- DraftingTrips.ResumeCompletesIff: a section's replies end the run on every try or on none, and a run they end is told as the writes before it; the section's own parsers are `SectionDraft`.
- FillReturns.FillReturnsIff: for guidance texts that tell the filled anchors apart and do not open with a bracket; anchors that share a text are consumed in their order.
- Drafting.RunDrafting: starts past the refusal gates; warnings and the report are left out, and a ceiling on cost is a kill at the call.
- Curation.Steward.MergeBatch: the log line's append is one step (its crash behaviour is `RecordRuns`), an update carries texts, lessons, deprecation and hold and the other front matter is texts, and the anonymization scan, the schema and the id of a body are given functions.
- CurationRuns.DecidedOnce: purge, which removes a pursuit's proposals, is not an event of the histories.
- Routing.SectionPlan: the wording of warnings and reasons is left out; which warning a gap raises is kept.
- Wire.ParseWireAnswers: which texts the loader refuses, and on which it raises otherwise, is given with the reply.
- SectionDraft.DraftSection: prompt text, length and flag warnings, canonical blocks and the cost of calls are left out.
- The placeholder substitution, the injection screen, retrieval ranking, `match_drifted`, eval lanes, the release record, web and command-line plumbing would add easy members or pattern matching only.
- `unique_keys` in engine/contracts/slots.py is not part of this model.
