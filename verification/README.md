# Pantheon: verified models of its hardest pieces

This project models seven parts of Pantheon in Dafny and proves what they promise.

1. **Test sharding** (`scripts/test-shards.js`). Files are sorted heaviest first and each goes to the
   lightest shard. `ShardScheduler` holds the mutable shard records and the loops; `ShardBounds` proves
   the bounds of the schedule, the classic 4/3 bound of longest-first list scheduling among them, and
   `ShardPlans` in which order files are placed and handed out.
2. **Wrapping text to a width.** `TitleWrap` is the word wrapping and size search of the storefront
   cover; `CharacterWrap` is the version of the product kit, which cuts long words, puts a word back on its
   work list and stops at a line cap; `CharacterMark` tells from the text's words when the last line is
   shortened to mark a cut, and `TruncationMark` when that mark is lost; `LineFit` says how much a shortened
   line keeps and that lines are filled as far as they go. The width of a text is a parameter.
3. **Calculated fields and formula evidence** (`scripts/render-digital-product-kit.py`).
   `CalculatedFields` validates definitions and searches for cycles with one shared visited set;
   `CalculatedRows` has the two evaluators, the emitted spreadsheet formulas and the in-order sample.
   `CalculatedSolutions` proves that the formulas have exactly one solution on every row;
   `CalculatedAgreement`, `CalculatedOrder` and `CalculatedSamples` say when the sample agrees with it, and
   `CalculatedWitnesses` has definition sets on which it does not. `CalculatedMeaning` tells the formulas and the
   sample from the numbers they read. `FormulaCoverage` and `CoverageRoundTrip` are the run-length
   summary of formula cells and its exact expansion, and `CoverageItems` is what each item shows.
4. **The bounded-research controller** (`src/server.js` and the modules it calls). `Savepoints` is the
   nested transaction wrapper. `ResearchLifecycle` states each lifecycle transaction on the ledger's
   tables, `ResearchLedger` runs them step by step with their rollbacks, and `ResearchRuns` proves what
   holds in every reachable state; `ResearchScheduler` says when the scheduler can be switched on.
   `ResearchEffects` tells each transaction from the rows alone: exactly when it goes through, and then what
   becomes of every log, task and approval. `ResearchRefusals` is about tables in any state, whether or not a run
   can reach them. `ResearchContinuation` is the step that chooses the next assignment,
   `ResearchActions` tells its answers from the rows, and `ResearchRounds` is about runs in
   which such steps alternate with the transactions and with what the bridge does in between.
5. **The standby control shell** (`scripts/pantheon-standby.js`). `PowerShellRun` is one child process
   behind a promise, raced by exit, error, deadline and killer events; `StandbyControl` is the single lock
   over mode changes, in every interleaving, and `StandbyAnswers` says what each job answers.
6. **Printers, searches and rewriters.** `SupervisorMetadata` and `SupervisorOwnership` are the JSON
   printer of the Windows supervisor and the text search over its metadata file, measured against the
   JSON reader of `MetadataParser`; `SupervisorDocument` is the document field by field. `ProviderRedaction`,
   `ProviderCompaction` and `ProviderResponse` are the secret passes, the compaction and the bounded reader
   of provider responses, and `CompactionWords` is about the words compaction keeps.
7. **The work-package check** (`scripts/v2/status.js`). `PackageStatus` reads one package and its direct
   dependencies at a time; its clean verdict speaks for the whole dependency graph. `PackageIssues` says which
   issues are reported, and of which packages.

`Sorting`, `CodeUnits`, `Totals`, `Options`, `ByteChunks`, `PythonText` and `TextSearch` hold what several of these
share. Text of the JavaScript and C# sources is a sequence of UTF-16 code units, text of the Python
sources a sequence of characters.

Loops and objects that change fields are methods and classes, tied by their postconditions to functions
on values; what the sources promise is proved of those functions. A run of a system is a sequence of
events, and a theorem about runs holds for every sequence.

Some properties one might expect do not hold of the code. Each is recorded as the exact condition under
which it does:

- Redaction. A listed secret can survive the loop if it can be laid over the text `[REDACTED]`, in part or
  in whole, because a later pass can rebuild it (`ProviderRedaction.SecretsAreAlwaysGoneIffUnmarked`).
- Formula samples. A sample limit of zero or one keeps every sample (`CoverageRoundTrip.SamplesKeepToLimit`);
  the one caller leaves it at fifty.
- Sample checks. A calculation listed before one of its inputs reads what the row held in that input's cell, so
  on a given row it is right exactly if it gives the workbook's value with the stored one
  (`CalculatedAgreement.SampleAgreesIffSeenInputsFit`; `CalculatedWitnesses.StoredCellDecides` has a set out of
  order that agrees on some rows only). A definition set agrees on all numeric rows, whatever their calculated
  cells hold, exactly if every calculated input is listed first, or no row is numeric
  (`CalculatedSamples.AgreesOnNumericRowsIffInOrder`). In order and over numbers, it disagrees exactly
  when a percentage that shows nothing, because an operand is empty or the whole is zero, feeds a sum, a product
  or a difference (`CalculatedSamples.SampleAgreesIffNoEmptyShareFeedsArithmetic`, with a set and row in
  `CalculatedWitnesses.EmptyShareSpoilsTheSum`); with nonzero wholes it always agrees.
- Wrapping. Of a text with more lines than the cap, the last line shown does not end in three dots exactly if one
  word is cut across the end of the page (it closes more lines than there is room for, or it is the last word and
  its remainder reads like the last line), or if the line kept has over 496 characters and the first 500 of it and
  its mark fit, so that the shortening returns them as they are; unless the characters kept end in dots of their
  own (`TruncationMark.MarkIsLostIff`; `TruncationMark.SevenHundredLetters` and `CharacterMark.NarrowColumnIsUnmarked`
  are texts of the two kinds). With a cap of zero an index error is raised exactly if all words stand on one line
  and the first fits there or is alone (`CharacterMark.IndexErrorIffOneLine`). Callers pass caps of two and more.
- The standby lock. It is held for good if making or removing the handoff file throws, and a start request
  made while a return is under way is answered with that return's promise, which has no address
  (`StandbyControl.AbandonedLockIsHeldForever`, `StandbyControl.StartDuringReturnGetsNoAddress`).
- Compaction. A limit below three is exceeded by the dots (`ProviderCompaction.CompactIsIdempotentAndBounded`);
  the callers' limits are 200 and 1200.

## Model

| member | source | states |
|---|---|---|
| ShardScheduler.FindLightest | scripts/test-shards.js:55-59 | the reduce over the shard records returns the first shard of least weight |
| ShardScheduler.PlaceFile | scripts/test-shards.js:54-62 | one placement updates the lightest record and leaves the records holding the specified groups and running weights |
| ShardScheduler.PartitionTestFiles | scripts/test-shards.js:32-65 | the mutable algorithm computes the specified shards, each in ascending code-unit order, or fails for a count below one or the first file without a usable weight |
| ShardPlans.LexIsByFirstDifference | scripts/test-shards.js:26-30 | the order of file names is decided by the first code unit that differs, or by the length |
| ShardPlans.PlacedByWeightThenName | scripts/test-shards.js:46-48 | files are placed heaviest first, and those of the same weight in ascending order |
| ShardPlans.PartitionIsOrderedOrRefused | scripts/test-shards.js:32-64 | a partition is refused for a count below one, else for the first listed file without a usable weight, else every shard ascends and holds the files placed there |
| ShardPlans.CiRunsItsShard | scripts/test-shards.js:67-95 | a CI invocation runs exactly the shard of its index; an index outside the count is refused before anything else |
| ShardPlans.NamedFilesRunAsGiven | scripts/test-shards.js:84-86 | files named explicitly, or by the lifecycle CI, are one invocation as they are, whatever their weights |
| ShardBounds.LongestFirstIsWithinFourThirds | scripts/test-shards.js:40-64 | for m shards and any weights, 3m times the heaviest shard is at most 4m-1 times the heaviest load of every other assignment of the same files |
| ShardBounds.HeavyPlacement | scripts/test-shards.js:40-64 | a file heavier than a third of a rival plan's heaviest load is placed within that load, by counting how many such files any shard can hold |
| ShardBounds.AveragePlacement | scripts/test-shards.js:54-62 | m times the lightest load plus the weight of the file to be placed is at most m times the rival plan's heaviest load |
| ShardBounds.ShardsAreBalanced | scripts/test-shards.js:54-64 | every nonempty shard without its lightest file weighs at most as much as any other shard |
| ShardBounds.GreedyIsBalanced | scripts/test-shards.js:54-62 | the balance holds after every single placement, not only at the end |
| ShardBounds.ShardSpreadIsOneFile | scripts/test-shards.js:54-64 | the heaviest and the lightest shard differ by at most the largest weight |
| ShardBounds.EveryFileInExactlyOneShard | scripts/test-shards.js:32-64 | the shards together hold every file exactly as often as the input does |
| ShardBounds.CiShardsCoverEveryFileOnce | scripts/test-shards.js:67-95 | the CI invocations over all indices are together the whole file list |
| ShardBounds.LocalPlanRunsEveryFileOnce | scripts/test-shards.js:96-100 | a local plan, of five shards unless another count is asked for, runs every file once, has no empty invocation, and fails exactly for a bad count or an unusable weight |
| ShardBounds.ShardsIgnoreInputOrder | scripts/test-shards.js:26-64 | the shards depend on the multiset of files only, not on the order they are listed in |
| Sorting.SortedListingIsUnique | scripts/test-shards.js:26-48 | under the comparator's antisymmetric order a multiset has one sorted listing, whatever sorting algorithm the library uses |
| TitleWrap.WrapWords | scripts/compose-storefront-cover.py:28-41 | the loop over words produces the greedy split, line by line |
| TitleWrap.FitTitle | scripts/compose-storefront-cover.py:44-51 | the first of the sizes 58 to 32 whose wrapped text keeps to the limit, else 31 with the lines cut off |
| TitleWrap.WrapIsValid | scripts/compose-storefront-cover.py:28-41 | every line is a stretch of the words in order that fits or is a single word |
| TitleWrap.WrapUsesFewestLines | scripts/compose-storefront-cover.py:28-41 | no order-preserving split whose lines each fit or are one word has fewer lines |
| TitleWrap.LinesRejoinToNormalisedText | scripts/compose-storefront-cover.py:28-41 | joining the lines gives back the text with its whitespace normalised |
| TitleWrap.LimitMetIffFeasible | scripts/compose-storefront-cover.py:44-51 | the greedy lines keep to the limit exactly if some valid split does |
| TitleWrap.FittedSizeIsLargestFeasible | scripts/compose-storefront-cover.py:44-51 | the size found is the largest at which any valid split keeps to the limit |
| PythonText.SafeTextKeepsWords | scripts/render-digital-product-kit.py:49-50 | normalised text has the words of the text up to the cut, all of them if it is shorter than the limit, and never more characters than the limit |
| CharacterWrap.CutIntoChunks | scripts/render-digital-product-kit.py:237-245 | the character loop cuts a long word into the specified chunks |
| CharacterWrap.EllipsizeLine | scripts/render-digital-product-kit.py:212-219 | the shortening loop removes characters and trailing spaces until the marked text fits |
| LineFit.ShortenedToLongestFit | scripts/render-digital-product-kit.py:212-219 | a shortened line fits or is just the dots; a text that did not fit comes back as a start of it with dots, and no longer start at which the code may stop fits with its dots |
| CharacterWrap.FillLines | scripts/render-digital-product-kit.py:222-247 | the work-list loop, which puts a word back, ends by the measure twice the words plus an open line and stops as specified |
| CharacterWrap.FinishLines | scripts/render-digital-product-kit.py:248-253 | what follows the loop: the last line, the mark, the cut, and the index error of a zero cap |
| CharacterWrap.WrappedLines | scripts/render-digital-product-kit.py:222-253 | the capped wrapping as a whole, with the index error it raises exactly when a cap of zero meets an open line and no closed one |
| LineFit.CappedLinesFit | scripts/render-digital-product-kit.py:222-253 | every line of a capped wrapping fits, the shortened one included, if every single character does; the last may be just the dots |
| LineFit.PiecesAreFull | scripts/render-digital-product-kit.py:237-245 | a long word is cut only where the piece cannot take the next character |
| LineFit.EveryBreakIsForced | scripts/render-digital-product-kit.py:226-247 | no break of the uncapped lines could have come later: the next word, or the next character of a cut word, does not fit on the line before |
| CharacterWrap.FitWrappedFont | scripts/render-digital-product-kit.py:256-263 | every larger size needs too many lines, and the lines returned are those of the size found, or the index error of a zero limit |
| CharacterWrap.UncappedKeepsCharacters | scripts/render-digital-product-kit.py:222-253 | without a cap the lines hold exactly the non-space characters of the text, in order |
| CharacterWrap.UncappedFits | scripts/render-digital-product-kit.py:226-245 | without a cap every line fits if every single character does |
| CharacterWrap.RunFollowsUncapped | scripts/render-digital-product-kit.py:226-247 | wherever the loop stops, the closed lines and those still to come are the uncapped lines, and it stops early only with something left |
| CharacterWrap.CapKeepsFirstLines | scripts/render-digital-product-kit.py:246-253 | the exact effect of the cap on the uncapped lines, told from where the loop stops: which lines are kept and when the last is shortened |
| CharacterWrap.WrappedLineCount | scripts/render-digital-product-kit.py:246-253 | between one and the capped number of lines come back |
| CharacterWrap.WithinCapNothingIsLost | scripts/render-digital-product-kit.py:222-253 | when the cap is not reached, every non-space character is kept in order and each line fits if each character does |
| CharacterWrap.SearchCapIsNeverReached | scripts/render-digital-product-kit.py:256-261 | the size search's cap of 1000 lines never cuts anything, since the text has at most 1000 characters |
| CharacterWrap.SizeIsTooLargeIffTextOverflows | scripts/render-digital-product-kit.py:256-261 | a size is passed over exactly if the whole text needs more lines there than the limit, one at least |
| TruncationMark.MarkIsLostIff | scripts/render-digital-product-kit.py:212-253 | for any text with more lines than the cap, the exact condition under which the last line shown does not end in dots: a word cut across the end of the page, or a kept line of over 496 characters whose marked text fits in its first 500; unless the text has dots of its own there |
| TruncationMark.MarkIsLostIffNoOwnDots | scripts/render-digital-product-kit.py:212-253 | for a kept line without dots of its own the mark is lost exactly if a word is cut across the end of the page or the line pushes its mark off |
| TruncationMark.ShortenedLineShowsMark | scripts/render-digital-product-kit.py:212-219 | a shortened line of words ends in dots exactly if its first 500 characters leave room for the mark or do not fit, or end in dots themselves |
| TruncationMark.SevenHundredLetters | scripts/render-digital-product-kit.py:212-253 | five hundred letters, a space and two hundred more, in a column of six hundred with one line: no word is cut, the second word is gone and no mark shows it |
| CharacterMark.ShortenedUnlessCutAcross | scripts/render-digital-product-kit.py:222-253 | beyond the cap the first lines are kept and the last goes through the shortening with its mark, unless some word is cut across the end of the page; a condition on the words, by a page filled word by word |
| CharacterMark.SkipsMarkIffCutAcross | scripts/render-digital-product-kit.py:226-253 | the work-list loop, started after any number of words, stops on a full page without marking exactly if a later word is cut across the end of the page |
| CharacterMark.PageIsUncapped | scripts/render-digital-product-kit.py:226-247 | the page filled word by word, without putting words back, has the lines of the work-list loop |
| CharacterMark.LongFirstWordIsUnmarked | scripts/render-digital-product-kit.py:222-253 | a text whose first word is cut into more closed lines than the cap comes back as its first pieces with nothing put behind them, whatever follows |
| CharacterMark.TruncationCanGoUnmarked | scripts/render-digital-product-kit.py:222-253 | so does any word of up to 1000 characters cut into more closed lines than the cap |
| CharacterMark.NarrowColumnIsUnmarked | scripts/render-digital-product-kit.py:222-253 | a column too narrow for two characters shows the first characters of a word, one to a line, and no mark |
| CharacterMark.IndexErrorIffOneLine | scripts/render-digital-product-kit.py:246-253 | the index error is raised exactly for a cap of zero and a text whose words all stand on one line, the first fitting there unless it is alone |
| CalculatedFields.Reaches | scripts/render-digital-product-kit.py:682-692 | with its shared visited set the search ends, finds only real paths, and on failure has closed off a set that avoids the target |
| CalculatedFields.LeadsBack | scripts/render-digital-product-kit.py:694-696 | a field is reported circular exactly if a path leads from it back to it |
| CalculatedFields.CalculationDefinitions | scripts/render-digital-product-kit.py:637-697 | definitions are accepted exactly if names are distinct, every calculation is valid and the dependency graph has no cycle; each error names a real offender, a circular one the first; every accepted definition has the target, operation and inputs of its calculation, in order, and the columns where these names stand |
| CalculatedFields.WhatIsRefused | scripts/render-digital-product-kit.py:641-672 | what makes a calculation invalid, told from its names: a target that is no header or taken, an unknown operation, too few or too many inputs, an input that is no header or the target itself |
| CalculatedFields.ClosedSetSeparates | scripts/render-digital-product-kit.py:682-692 | a set closed under dependencies that holds the start and not the target leaves no path between them |
| CalculatedFields.AcyclicGraphHasRank | scripts/render-digital-product-kit.py:677-697 | in an accepted set the number of reachable fields ranks every field above its inputs |
| CalculatedFields.AcyclicIffRanked | scripts/render-digital-product-kit.py:677-697 | no cycle exactly if a topological rank exists |
| CalculatedRows.SampleRow | scripts/render-digital-product-kit.py:746-785 | the in-order loop over one sample row records the specified result for each calculation |
| CalculatedMeaning.TwoInputFormula | scripts/render-digital-product-kit.py:700-715 | over numbers and blanks a product or difference shows nothing while both inputs are blank, else the product or the first minus the second |
| CalculatedMeaning.ShareFormula | scripts/render-digital-product-kit.py:712-713 | a percentage shows nothing while an input is empty or the whole is zero, else the first by the second |
| CalculatedMeaning.SumFormula | scripts/render-digital-product-kit.py:708-709 | a sum shows nothing while all inputs are blank, passes on an error, and else adds the numbers, passing over texts and blanks |
| CalculatedMeaning.SampleMeaning | scripts/render-digital-product-kit.py:759-770 | the sample has no result while an input has no number; else the product, the difference or the quotient of its inputs in the listed order, none for a zero whole |
| CalculatedMeaning.SampleSum | scripts/render-digital-product-kit.py:764-766 | the sample of a sum adds the numbers of its inputs, and has no result while one has none |
| CalculatedMeaning.WhatCellsRead | scripts/render-digital-product-kit.py:718-732 | what a cell gives the sample: its number, the number its text reads as, or nothing |
| CalculatedSolutions.SheetExists | scripts/render-digital-product-kit.py:700-715 | every row of an accepted set has a valuation that satisfies all emitted formulas, the limit of recalculation in rank order |
| CalculatedSolutions.SheetIsUnique | scripts/render-digital-product-kit.py:700-715 | any two such valuations agree on every column of the sheet |
| CalculatedAgreement.EvaluatorsAgreeOnce | scripts/render-digital-product-kit.py:700-785 | whatever the input cells hold, blank and text among them, one formula and one sample evaluation agree exactly under the condition of the operation |
| CalculatedAgreement.SampleAgreesIffSeenInputsFit | scripts/render-digital-product-kit.py:746-785 | on any row and in any order, the sample equals the workbook exactly if each calculation, given the workbook's values of what is calculated earlier and the stored cells of everything else, results in what its formula shows |
| CalculatedOrder.SampleAgreesIffFormulasFit | scripts/render-digital-product-kit.py:700-785 | in dependency order, the sample equals the workbook on any row exactly if the input cells of every formula meet its operation's condition |
| CalculatedSamples.SampleAgreesIffNoEmptyShareFeedsArithmetic | scripts/render-digital-product-kit.py:700-785 | in dependency order and over numbers, the sample equals the workbook exactly if no percentage with an empty operand or a zero whole feeds an arithmetic formula |
| CalculatedSamples.NonzeroMeansNumeric | scripts/render-digital-product-kit.py:700-715 | with numeric inputs and nonzero wholes every calculated cell is a number, in whatever order the definitions are listed |
| CalculatedSamples.NonzeroDenominatorsAgree | scripts/render-digital-product-kit.py:700-785 | with numeric inputs, nonzero wholes and dependency order the sample equals the workbook on the whole row |
| CalculatedSamples.AgreesOnNumericRowsIffInOrder | scripts/render-digital-product-kit.py:746-785 | an accepted set agrees on every row where the workbook is numeric, its calculated cells filled in or not, exactly if every calculated input is listed before its user, or no row is numeric |
| CalculatedSamples.LateInputDisagrees | scripts/render-digital-product-kit.py:746-785 | a calculation with a late input has no sample on any numeric row whose calculated cells are emptied |
| CalculatedWitnesses.StoredCellDecides | scripts/render-digital-product-kit.py:746-785 | an accepted set out of order agrees with the workbook exactly if what was stored for the late input reads as its calculated value |
| CalculatedWitnesses.EmptyShareSpoilsTheSum | scripts/render-digital-product-kit.py:700-785 | an accepted set in order, over numbers: with a zero whole the sum over the share has no sample while the workbook shows a number |
| FormulaCoverage.SplitRuns | scripts/render-digital-product-kit.py:134-144 | the loop over sorted entries produces the specified runs |
| FormulaCoverage.SortOut | scripts/render-digital-product-kit.py:118-132 | facts without a cell name become items of their own, the others are grouped by sheet and column |
| FormulaCoverage.CompactFormulaEvidence | scripts/render-digital-product-kit.py:109-161 | the loops compute the specified samples and sorted coverage |
| CoverageItems.ItemsShowTheirEnds | scripts/render-digital-product-kit.py:118-153 | every item shows the formulas of the first and last cell of its range, and names a range exactly if it counts several cells |
| CoverageItems.CoverageIsInOrder | scripts/render-digital-product-kit.py:155 | the coverage stands in the order of its key |
| CoverageRoundTrip.CoverageExpandsToInput | scripts/render-digital-product-kit.py:118-156 | expanding the ranges gives back exactly the input cells, with repetitions |
| CoverageRoundTrip.CountsAddUp | scripts/render-digital-product-kit.py:118-156 | each count is the size of its range and the counts sum to the number of facts |
| CoverageRoundTrip.RunsAreMaximal | scripts/render-digital-product-kit.py:134-144 | for distinct cells no two ranges of one sheet and column are adjacent |
| CoverageRoundTrip.SamplesKeepToLimit | scripts/render-digital-product-kit.py:109-116 | the samples keep to the limit exactly if there are few enough facts or the limit is at least two, and are then a start and an end of the facts, each half the limit rounded down |
| Savepoints.WithSavepoint | src/server.js:305-319 | an inner call leaves the savepoint stack and the outer transaction as they were and the data as its plain meaning says |
| Savepoints.WithTransaction | src/server.js:307-330 | for any tree of nested calls with throws and failing closes anywhere, a throwing call leaves the database as at entry and a returning one has exactly its operation's effect |
| Savepoints.Undo | src/server.js:315-317 | rollback to and release of the call's own savepoint restore the data and the stack below it |
| Savepoints.OwnFrameIsNewest | src/server.js:309-317 | the frame just set is the one its name finds, whatever names lie below |
| Savepoints.FreshNamesFindTheirFrames | src/server.js:305-310 | names from the counter are new, and each finds its own frame anywhere in the stack |
| Savepoints.EffectIsKeptWrites | src/server.js:307-330 | the effect of a tree of calls is the sequence of its surviving writes, on every database |
| ResearchLedger.Ledger.AppendEvent | src/runtime/preventure-research-store.js:2893-2998 | an event is appended exactly when the candidate, predecessor, order, deadline and approval gates allow; it becomes the latest, no other log changes, and its approval is used up; otherwise nothing changes |
| ResearchRefusals.EventIsTakenIffItFits | src/runtime/preventure-research-store.js:2893-2998 | on any tables, event by event: what it needs of the log, the turn, the deadline and the approval it names; then it becomes the latest, that approval is used up and nothing else changes |
| ResearchLedger.Ledger.CreateTasks | src/runtime/preventure-research-materializer.js:299-380 | missing planned tasks are created blocked and existing ones are left alone |
| ResearchLedger.Ledger.CreateMissing | src/runtime/preventure-research-materializer.js:530-545 | the loop creates the planned assignments that are missing, one at a time and in order |
| ResearchLedger.Ledger.CreateAssignments | src/runtime/preventure-research-materializer.js:454-561 | materialisation ends with the complete planned set or throws, by the gates, the stored assignments and the count at the end |
| ResearchLedger.Ledger.Seal | src/server.js:963-1072 | an expired authority is sealed or left as it is, by the rule that `ResearchEffects.SealsIffNothingUnderWay` tells on the rows |
| ResearchEffects.SealsIffNothingUnderWay | src/server.js:963-1072 | for a registered, open authority past its deadline the log gains the expiry exactly if no assigned task is running or has a running attempt; then unstarted tasks are stopped, pending approvals lapsed and the scheduler off; in every other case nothing changes |
| ResearchLedger.Ledger.EnsureFoundation | src/server.js:1074-1225 | start-up as a whole, undone completely when any of its parts throws |
| ResearchEffects.StartUpElsewhere | src/server.js:1079-1100 | start-up of an authority that is not the candidate, or whose turn has not come, only switches the scheduler off |
| ResearchEffects.StartUpProposesIffInTime | src/server.js:1074-1225 | an authority whose turn has come is proposed, with its acceptance approval pending, exactly before its deadline |
| ResearchRefusals.RegistrationOnRows | src/runtime/preventure-research-authority.js:179-259 | on any tables, a proposal is registered exactly in its turn, before its deadline and while no other authority is open |
| ResearchRefusals.RequestOnRows | src/runtime/preventure-research-lifecycle-decision.js:236-330 | on any tables, an approval can be asked for exactly at its step and in time, unless it has been decided |
| ResearchEffects.StartUpAsks | src/server.js:1148-1215 | for a registered authority in time and not yet activated, start-up asks for its next approval, or throws if a decided one stands there; else only the scheduler changes, to off |
| ResearchEffects.StartUpResumes | src/server.js:1190-1224 | of an activated authority in time, or of one that has ended, start-up changes only the scheduler, on exactly if work can start; it throws exactly for an activated round without templates |
| ResearchEffects.StartUpSeals | src/server.js:1132-1147 | start-up of an overdue authority seals it, by the rule for sealing |
| ResearchEffects.WhatCanStart | src/server.js:889-952 | work can start exactly for a dispatchable candidate with a blocked or queued assignment that this machine has in order |
| ResearchLedger.Ledger.DecideLifecycle | src/server.js:1227-1425 | an owner decision as a whole, undone completely when any of its parts throws |
| ResearchEffects.AcceptanceOnRows | src/server.js:1309-1407 | approving the acceptance goes through exactly in time, with the approval unused and the activation still to ask for; the log gains the acceptance, the approval is used up and the activation waits |
| ResearchEffects.ActivationOnRows | src/server.js:1309-1407 | approving the activation goes through exactly in time, with the approval unused, no unknown outcome, no custody and distinct templates; every template is assigned with a blocked task and the scheduler is on exactly if this machine can run one |
| ResearchEffects.RejectionOnRows | src/server.js:1309-1407 | rejecting a pending approval goes through exactly in time, with the approval unused; it is rejected, the authority revoked and the scheduler off |
| ResearchEffects.ReplayOnRows | src/server.js:1309-1407 | a decision recorded before is replayed exactly if it was the same one, and an approval only if it was used; it changes only the scheduler and, for the acceptance, the activation it asks for again |
| ResearchEffects.DecisionMustBeOwn | src/server.js:1235-1321 | a decision throws unless the authority is the candidate, its turn has come, the approval is there and its own, and scope and owner session are in order |
| ResearchRefusals.LateDecisionIsRefused | src/runtime/preventure-research-lifecycle-decision.js:447-481 | on any tables, a pending decision is refused, either way, unless it is unused and the authority stands at its step, in time |
| ResearchRefusals.MaterialisationIsRefused | src/runtime/preventure-research-materializer.js:454-561 | materialisation is refused for an authority that may not dispatch, a planned task already there and not blocked, or a stored assignment that is not planned |
| ResearchRefusals.IncompleteRoundIsRefused | src/server.js:1190-1209 | start-up is refused for an active round whose assignments are there but not as many as planned |
| ResearchLedger.Ledger.RevokeResearch | src/server.js:1427-1550 | a revocation as a whole, undone when a part throws; one that goes through leaves nothing to start, nothing in flight, no pending approval and the scheduler off |
| ResearchEffects.RevocationOnRows | src/server.js:1427-1550 | a revocation goes through exactly for an authority revoked before, which changes nothing, or an open one in time whose latest event was seen; then every task, attempt and pending approval of it is stopped, row by row |
| ResearchLedger.Ledger.CommitCustody | src/runtime/preventure-research-store.js:4616-5749 | the custody transaction expires an activated authority past its deadline, holds the dispatched task and cancels the untouched ones, or throws and changes nothing |
| ResearchEffects.CustodyOnRows | src/runtime/preventure-research-store.js:4616-5749 | custody goes through exactly if it did before, or if the work stopped at the assignment and a stop, a revocation or the deadline is on record; then that task needs attention, those after it are cancelled, and an overdue authority is expired |
| ResearchRuns.StepKeepsInv | src/server.js:963-1550 | every start-up, decision, revocation, expiry, custody and bridge step, and every recovery of a stale claim, keeps the ledger invariant, rewrites no log and changes no finished task |
| ResearchRuns.RunKeepsInv | src/server.js:963-1550 | so does every run from any state in order |
| ResearchRuns.CustodyKeepsInv | src/runtime/preventure-research-store.js:4920-4941 | a custody transaction, with the expiry it records on the way, keeps the invariant, touches no other authority and leaves nothing of this one to start or running |
| ResearchRuns.RecoveryKeepsInv | src/runtime/task-claims.js:236-308 | putting a running task whose claim went stale back to the queue, or to the owner, keeps the invariant: there is none after a stop |
| ResearchEffects.RecoveryOnRows | src/runtime/task-claims.js:236-308 | a recovered claim is no longer running: its task can be started again if the provider was not reached and waits for the owner otherwise |
| ResearchRuns.AtMostOneOpenAuthority | src/server.js:456-484 | in every reachable state all authorities before the last registered one ended completed, revoked or expired, and at most one is open |
| ResearchRuns.AssignmentsFollowTwoApprovals | src/server.js:1324-1368 | assignments exist exactly after proposed, accepted and activated were logged in that order, each approval its own and used, and they are the complete set |
| ResearchRuns.AssignmentsAreMaterialisedOnce | src/server.js:1150-1209 | later steps never change materialised assignments, rewrite a log or extend a finished one |
| ResearchRuns.StoppedAuthorityHasNoOpenWork | src/server.js:1496-1534 | after a revocation or a sealed expiry no task of the authority is planned, queued, blocked, waiting or running and no approval of it is pending, for the rest of the run |
| ResearchRuns.RevokeGoesThrough | src/server.js:1427-1550 | a revocation goes through exactly for an open authority before its deadline whose latest event the owner has seen |
| ResearchScheduler.OnlyOpenWorkStartsScheduler | src/server.js:889-952 | a step that switches the scheduler on leaves an authority that may dispatch with a blocked or queued assignment |
| ResearchScheduler.StoppedSchedulerStaysOff | src/server.js:1404-1408 | once an authority has ended, no start-up, decision or replay switches its scheduler on for the rest of the run |
| ResearchScheduler.RevokedSchedulerStaysOff | src/server.js:1427-1550 | after a revocation that went through the scheduler is off for the rest of every run |
| ResearchScheduler.ReplayedActivationStartsOnlyOpenWork | src/server.js:1324-1408 | replaying a recorded activation changes only the scheduler, which it switches on exactly for work this machine can run, never after a stop or the deadline |
| ResearchRuns.TwoApprovalsStartTheRound | src/server.js:1074-1368 | before the deadline a start-up and two approvals lead to the complete set of blocked tasks, with the scheduler on exactly if this machine can run one |
| ResearchContinuation.FindFirst | src/server.js:1650-1658 | the first assignment with a property, or none |
| ResearchContinuation.EndEarly | src/server.js:1608-1756 | the questions before the template loop: they let it through exactly when the authority may dispatch and nothing is left to recover or seal, and what ends there sends nothing |
| ResearchContinuation.Attempt | src/server.js:1786-1950 | one template: recover, or ask, prepare, ask again and run; it is sent exactly if it may be, with the hashes read first |
| ResearchContinuation.ContinueResearch | src/server.js:1608-1979 | one continuation sends at most one assignment: the first unfinished template, exactly if it may be sent; a run not ready for its call at the first reading directly follows its one preparation, and any other run has none |
| ResearchContinuation.RunsArePreparedAsNeeded | src/server.js:1835-1888 | in the actions of one continuation a run directly follows exactly one preparation of the same assignment and hashes if its first reading was not ready for the call, and follows none if it was |
| ResearchActions.CustodyComesFirst | src/server.js:1620-1632 | custody is taken before everything else, of the first template in their order that awaits it |
| ResearchActions.UnregisteredIsIdle | src/server.js:1611-1618 | an authority that is not registered: nothing happens |
| ResearchActions.DeadlineIsSealed | src/server.js:1633-1644 | then, past the deadline or with the expiry recorded, the authority is sealed and nothing else is done; blocked exactly if nothing was sealed |
| ResearchActions.RetainedIsReprocessed | src/server.js:1645-1698 | then, for an active candidate, the first template whose retained result can be reprocessed, and nothing is run |
| ResearchActions.HistoricalIsIdle | src/server.js:1700-1707 | an authority that is not the candidate, past these: only the scheduler goes off |
| ResearchActions.ReadyDecisionIsFinalized | src/server.js:1709-1741 | a decision that is ready is sealed before any dispatch, even of a frozen or held authority |
| ResearchActions.ClosedRoundWaits | src/server.js:1743-1756 | a candidate that is not active, or is frozen or held: only the scheduler goes off |
| ResearchActions.FirstOpenTemplateDecides | src/server.js:1758-1951 | an open round turns to the first template that is not done: prepared exactly if it can begin and is not ready for the call, called exactly if it then is ready and unchanged, and after a call the decision is sealed if it is ready and the round open |
| ResearchActions.RetainedIsNotRunAgain | src/server.js:1791-1825 | a template with a retained result when its turn comes is recovered locally and not run |
| ResearchActions.OpeningRoundPrepares | src/server.js:1835-1888 | on a machine ready to prepare but not to call, the opening round prepares the first template and then runs it |
| ResearchActions.DoneRoundCloses | src/server.js:1952-1978 | with every template done the decision is sealed if it is ready |
| ResearchContinuation.LoopIsReached | src/server.js:1619-1756 | the template loop is reached exactly by the candidate, activated and dispatchable, with nothing to recover and no decision to seal |
| ResearchContinuation.DispatchIsFirstUnfinished | src/server.js:1743-1888 | at most one assignment is sent, exactly the first template whose task is not finished and that may be sent |
| ResearchContinuation.DispatchedHashesAreExact | src/server.js:1844-1888 | whatever is sent was described by the same two hashes before and after preparation and met every condition of a provider call |
| ResearchRounds.DispatchesFollowTemplateOrder | src/server.js:1759-1888 | over every run from the empty ledger a later dispatch is never for an earlier template, and for the same one only if it was not finished between |
| ResearchRounds.DispatchFollowsOwnerApprovals | src/server.js:1743-1888 | wherever a run sends work, only the one open authority can have it, after both owner approvals, and every other authority has ended |
| ResearchRounds.SendingSends | src/server.js:1743-1888 | where a template may be sent, exactly it is sent, once |
| ResearchRounds.PlayKeepsInv | src/server.js:1608-1979 | continuations, transactions and bridge steps in any order keep the ledger in order and rewrite no log |
| ResearchRounds.ARoundDispatches | src/server.js:1074-1888 | start-up, two approvals and one continuation on a willing machine do send the first template |
| PowerShellRun.Promise.RetainOutput | scripts/pantheon-standby.js:205-209 | a chunk is kept exactly while less than a mebibyte has been kept |
| PowerShellRun.Promise.Settle | scripts/pantheon-standby.js:179-204 | one call of the settling closure: the promise is settled afterwards, by exactly one settlement if it was not before and by none otherwise |
| PowerShellRun.Promise.Receive | scripts/pantheon-standby.js:210-243 | each event handler changes the closure variables as specified, adds at most one settlement, and none to a settled promise |
| PowerShellRun.SettlesOnceAsFirstEndDecides | scripts/pantheon-standby.js:174-245 | in every interleaving the promise settles at most once, exactly as the first ending event decides, and stays pending without one |
| PowerShellRun.TimeoutWins | scripts/pantheon-standby.js:187-194 | once the deadline passes before anything else ended the run, only the timeout can be reported, even if the child exits with code 0 later |
| PowerShellRun.ResolvesOnlyOnCleanExitInTime | scripts/pantheon-standby.js:187-203 | the promise resolves exactly if the first ending event is an exit with code 0 before the deadline |
| PowerShellRun.TimersAlwaysSettle | scripts/pantheon-standby.js:216-244 | a pending promise always has a timer armed, and the two timers alone settle it |
| PowerShellRun.KillerStartsIffDeadlineCameFirst | scripts/pantheon-standby.js:182-244 | the tree killer is started exactly when the deadline comes before any other end and the machine can kill the tree; a settled promise leaves no deadline armed |
| PowerShellRun.KillerTimerRunsWhileAwaited | scripts/pantheon-standby.js:225-243 | the killer's own timer is armed exactly from the deadline until the killer exits, errors or is given up, even if the child has ended in between |
| PowerShellRun.OutputIsCutAtTheLimit | scripts/pantheon-standby.js:205-211 | the kept output is the shortest start of the stream that reaches a mebibyte, or all of it, in every interleaving |
| StandbyControl.ControlShell.StartWorking | scripts/pantheon-standby.js:248-282 | a start request creates a job only when the lock is free and always returns the promise that holds it |
| StandbyControl.ControlShell.ScheduleReturnToStandby | scripts/pantheon-standby.js:284-303 | a return is scheduled exactly if the lock is free |
| StandbyControl.ControlShell.AfterScript | scripts/pantheon-standby.js:271-297 | what follows the script: the lock is given back exactly for a return or a removed file, and an address is answered exactly for a clean start with one of the right origin |
| StandbyControl.ControlShell.TakeTurns | scripts/pantheon-standby.js:248-303 | the handlers, called in any order, take the shell through the run of that order |
| StandbyControl.AtMostOneScriptInFlight | scripts/pantheon-standby.js:248-303 | in every interleaving at most one start or return script is in flight and its job holds the lock, even when file-system calls throw |
| StandbyControl.LockIsHeldWhileWorking | scripts/pantheon-standby.js:248-303 | if file-system calls do not throw, the lock is held exactly while a job is unfinished |
| StandbyControl.LockIsReleasedUnlessRemovalThrows | scripts/pantheon-standby.js:276-297 | a job gives the lock back exactly if it is a return or its handoff file could be removed |
| StandbyControl.AbandonedLockIsHeldForever | scripts/pantheon-standby.js:249-280 | after such a throw nothing ever starts again and every start request gets the same rejection |
| StandbyControl.AddressMeansCleanExit | scripts/pantheon-standby.js:262-275 | a start request answered with an address had a script that exited cleanly in time and an address of the right origin |
| StandbyControl.StartDuringReturnGetsNoAddress | scripts/pantheon-standby.js:249 | a start request during a return shares the return's promise, which never carries an address |
| StandbyControl.TimersLeadToRelease | scripts/pantheon-standby.js:216-303 | from any reachable state a running job's timers alone lead to the release of the lock |
| StandbyAnswers.ReturnAnswers | scripts/pantheon-standby.js:284-298 | a return resolves exactly after a clean exit of its script and is rejected after any other end; either way the lock is free |
| StandbyAnswers.StartAnswers | scripts/pantheon-standby.js:262-280 | a start answers with the trimmed address exactly after a clean exit, if the handoff could be read and removed and has the right origin; only a failed removal keeps the lock |
| StandbyAnswers.UnsettledScriptIsAwaited | scripts/pantheon-standby.js:262-294 | a job whose script has not settled cannot go on |
| StandbyAnswers.RunningJobSeesItsScript | scripts/pantheon-standby.js:262-296 | while a job runs, exactly the events of its own script reach it, in order, whatever else happens |
| StandbyAnswers.ScheduledReturnWaits | scripts/pantheon-standby.js:286-288 | until its delay is over no script runs for a return, and it stays unanswered |
| StandbyAnswers.ReturnRunsAfterItsDelay | scripts/pantheon-standby.js:286-294 | then its script is started, with nothing seen of it yet |
| StandbyAnswers.FreeLockStarts | scripts/pantheon-standby.js:249-286 | a free lock goes to a new start whose script runs; a held lock lets nothing start |
| StandbyAnswers.UnmadeDirectoryKeepsTheLock | scripts/pantheon-standby.js:249-252 | a start whose handoff directory cannot be made is rejected at once and keeps the lock for ever |
| SupervisorMetadata.PrintJsonString | scripts/windows/PantheonSupervisor.cs:301-330 | the printing loop gives the escaped text, and decoding it gives the string back |
| SupervisorMetadata.DecodingUndoesPrinting | scripts/windows/PantheonSupervisor.cs:301-330 | decoding by section 7 of RFC 8259 gives back every non-null string, whatever text follows |
| SupervisorDocument.PrintedStringIsExact | scripts/windows/PantheonSupervisor.cs:301-330 | piece by piece: the short escapes, lower-case four-digit escapes of the other control characters, every other unit as it is, and null without quotes |
| SupervisorMetadata.SearchIsExact | scripts/windows/PantheonSupervisor.cs:397-402 | in any document of plain keys the text search finds a key and string value exactly if a member has them; nothing inside a value can be mistaken for it |
| SupervisorMetadata.KeyStandsAtMember | scripts/windows/PantheonSupervisor.cs:249-267 | within a member the quoted key with its colon can only stand at the start, and then it is the member's own key |
| SupervisorOwnership.Supervisor.DeleteOwnedMetadata | scripts/windows/PantheonSupervisor.cs:387-407 | the file is deleted exactly if path and start time are set, the file exists and carries this start time, and the file system works |
| SupervisorOwnership.BuildMetadata | scripts/windows/PantheonSupervisor.cs:249-267 | the appends, member by member, build the document of the fifteen members |
| SupervisorOwnership.Supervisor.WriteMetadata | scripts/windows/PantheonSupervisor.cs:239-269 | afterwards the file reads back as the record with this supervisor's start time, it is this supervisor's own exactly if path and start time are not blank, and no other file changed |
| SupervisorOwnership.SearchMatchesOwnStartTime | scripts/windows/PantheonSupervisor.cs:249-268 | the search matches a written document exactly if that document, read as JSON, has the start time searched for in its own processStartFileTimeUtc, whatever its paths contain |
| MetadataParser.ReadingUndoesWriting | scripts/windows/PantheonSupervisor.cs:249-267 | reading a written document of plain keys and digits as JSON gives back exactly its members, in order |
| SupervisorOwnership.MetadataReadsBack | scripts/windows/PantheonSupervisor.cs:249-268 | the metadata document reads back as its fifteen members |
| SupervisorDocument.DocumentNamesOwnProcess | scripts/windows/PantheonSupervisor.cs:250-255 | the first five members by name: the version and the supervisor process, numbers in decimal without leading zeros |
| SupervisorDocument.DocumentNamesChildProcess | scripts/windows/PantheonSupervisor.cs:256-259 | the next four by name: the child process |
| SupervisorDocument.DocumentNamesPorts | scripts/windows/PantheonSupervisor.cs:260-261 | then the two ports by name |
| SupervisorDocument.DocumentNamesOwner | scripts/windows/PantheonSupervisor.cs:262-267 | the last four by name: places, owner and time |
| SupervisorOwnership.OnlyTheWriterOwnsTheFile | scripts/windows/PantheonSupervisor.cs:387-407 | of several supervisors sharing a path only the one the document records takes the file for its own |
| SupervisorDocument.DecimalStartTimeOwns | scripts/windows/PantheonSupervisor.cs:387-402 | with a start time in decimal, as it is always written, the file at a visible path is owned exactly if its document has that start time |
| SupervisorDocument.BlankOwnsNothing | scripts/windows/PantheonSupervisor.cs:389-395 | without a path or a start time, or with one of spaces and line ends only, nothing is owned |
| ProviderRedaction.RedactSecrets | src/adapters/openai-egress-policy.js:186-191 | the secret loop, after which no listed nonempty secret that cannot be laid over the mark remains |
| ProviderRedaction.NoSecretRemains | src/adapters/openai-egress-policy.js:186-191 | such a secret is gone after its own pass and no later pass brings it back, in any order and with any overlaps |
| ProviderRedaction.SecretsAreAlwaysGoneIffUnmarked | src/adapters/openai-egress-policy.js:186-191 | a secret is gone from every text with every list exactly if it cannot be laid over the mark |
| ProviderRedaction.MarkedSecretCanRemain | src/adapters/openai-egress-policy.js:186-191 | for every other secret, a text and a companion secret with which it remains |
| ProviderRedaction.BracketFreeSecrets | src/adapters/openai-egress-policy.js:186-191 | a secret without square brackets meets the condition exactly if it is not inside the word REDACTED |
| ProviderRedaction.JoinUndoesSplit | src/adapters/openai-egress-policy.js:190 | a pass loses nothing but the occurrences: joining the pieces with the secret gives the text back |
| ProviderCompaction.CompactIsIdempotentAndBounded | src/adapters/openai-egress-policy.js:174-184 | compacting twice is compacting once for every limit, and the result is within the limit exactly if the limit is at least three or nothing is cut |
| ProviderCompaction.CompactIsNormal | src/adapters/openai-egress-policy.js:174-184 | the result has no control character, only single spaces, and none at its ends |
| ProviderCompaction.CompactKeepsVisible | src/adapters/openai-egress-policy.js:174-184 | every visible character is kept in order, up to the cut |
| CompactionWords.CompactionKeepsWords | src/adapters/openai-egress-policy.js:174-181 | the words stay whole and apart: compaction changes only what stands between them, to one space each |
| CompactionWords.CompactIsExact | src/adapters/openai-egress-policy.js:181-184 | a compact text within the limit comes back whole; of any other, as much of its start as leaves room for the three dots |
| ProviderResponse.Reader.ReadBounded | src/adapters/openai-egress-policy.js:122-142 | the chunk loop returns all bytes, refuses or passes on the rejection of a read; it takes at most one chunk beyond the limit, cancels exactly on refusal and releases the lock in every case |
| ProviderResponse.BoundedResponseBytes | src/adapters/openai-egress-policy.js:116-151 | a response is refused exactly if its declared or arrived size is over the limit, and otherwise every byte is returned unless a read rejects |
| PackageStatus.CheckCompletion | scripts/v2/status.js:224-250 | the nested loops report the specified issues, none exactly if records and direct dependencies are in order |
| PackageStatus.CheckState | scripts/v2/status.js:139-271 | without the hand-off document, all issues in order, with exact conditions for a clean completion verdict and for no issue at all |
| PackageIssues.CompletionIssuesAre | scripts/v2/status.js:224-250 | exactly these completion issues: a complete package without its listed record, a record of a package that is not complete, a dependency of a started package whose first namesake is not complete with its record |
| PackageIssues.CurrentPackageIsInFocus | scripts/v2/status.js:154-166 | the current package, the first of its name in the current phase, is in focus, ready or not |
| PackageIssues.FirstReadyIsInFocus | scripts/v2/status.js:160-166 | without one, the first ready package is, if there is one |
| PackageIssues.CurrentPhaseIsFirst | scripts/v2/status.js:146-152 | the packages looked at are those of the first phase with the current name, none if there is no such phase |
| PackageIssues.SelectionIssuesAre | scripts/v2/status.js:142-165 | exactly these issues of version, phase, current and ready packages |
| PackageIssues.FocusIssuesAre | scripts/v2/status.js:252-260 | exactly these issues of the package in focus: its blockers that are not recorded, and a missing record |
| PackageStatus.CleanIffProven | scripts/v2/status.js:224-250 | no issue exactly if records match statuses and every direct dependency of a started package is complete with an existing, listed record |
| PackageStatus.TransitiveDependenciesAreProven | scripts/v2/status.js:224-250 | a clean verdict means that all transitive dependencies of every package outside backlog are complete with evidence, for any dependency map, even a cyclic one |
| PackageStatus.ShippedDependenciesAreAcyclic | scripts/v2/status.js:9-17 | in the shipped table no chain of dependencies leads back to its start |

## Left out

- Weights. `ordinaryTestWeight` with its table of floors is the caller's weight function here; weights are natural numbers, so fractional sizes and the rounding of their sums are not modelled.
- ShardBounds.LongestFirstIsWithinFourThirds: about weights, not running times, as the source's own comment on floors says.
- TitleWrap.WrapUsesFewestLines: assumes that removing words from an end of a line does not make it wider; the fonts are not modelled, nor is `fitted_subtitle`.
- CalculatedOrder.SampleAgreesIffFormulasFit: an empty text does not read as a number, and no stored cell is an error value, since rows are read from text.
- Spreadsheet formulas are trees of column numbers: their text, column letters, row numbers and number formats are not modelled, and a spreadsheet's coercion of numeric text is not either. Values are real numbers without rounding.
- FormulaCoverage.CompactFormulaEvidence: the sort key of the coverage is an arbitrary order, because the round trip holds for every order.
- Reading definitions from JSON, `field_reference` normalisation and the display of calculated values: names arrive normalised.
- Savepoints: a `BEGIN`, `ROLLBACK` or `ROLLBACK TO` that itself fails is not modelled; a failing `RELEASE` or `COMMIT` is.
- Authorities, approvals and events carry no hashes or JSON: a hash chain is an index into a log, and an event's latest hash is the length of its log. `verifyLedger` and the lifecycle replay by ID are not modelled.
- Revised and superseded lifecycle events are part of the transition table, but the server's transactions never write them; the successor they name is not modelled.
- Workflow rows, notifications, event inserts and cost records of the research transactions.
- ResearchRuns.AtMostOneOpenAuthority: authorities form one linear chain, each superseding the one before.
- ResearchContinuation.ContinueResearch: the tables are read once; what the bridge changes during its awaits appears in the answers it gives afterwards and as steps of `ResearchRounds`.
- ResearchRuns.StepKeepsInv: the bridge's own changes of tasks are steps that claim queued tasks only, keep a finished task finished and leave nothing of it in flight; what it writes beside the tasks is left out.
- ResearchRuns.RecoveryKeepsInv: stale claims are recovered one at a time and at any time, which includes what one call of the recovery does; the lease is not modelled.
- ResearchLedger.Ledger.CommitCustody: the checks of the retained response, of hashes, receipts and costs are left out, as are the rows it writes beside the events and tasks; whether an emergency stop is on record is a parameter.
- ResearchScheduler.OnlyOpenWorkStartsScheduler: which assignments have their descriptor, request and transport in order on this machine is a parameter; a runtime injected in place of the shipped bridge is not modelled.
- PowerShellRun: decoding and trimming of output is a parameter, real time is the order of events, and a failing spawn of the killer is not modelled.
- StandbyControl: the stop and stop-all requests run their script outside the lock and are not part of the single-flight claim; sessions, health probes and HTTP are left out.
- A start job's file read and URL check are parameters of its last step.
- SupervisorMetadata.DecodingUndoesPrinting: at the level of UTF-16 code units; writing an unpaired surrogate to a UTF-8 file replaces it. The decoder accepts unpaired surrogates as section 8.2 of RFC 8259 allows.
- SupervisorOwnership.Supervisor.WriteMetadata: the atomic replacement through temporary and backup files is one step.
- ProviderRedaction.RedactSecrets: the two credential patterns applied after the loop are left out; what they insert can spell a secret again.
- `safeProviderRequestId`, URL matching and JSON parsing of provider responses; the responses' `json()` fallback.
- PackageStatus.CheckState: the issues about the hand-off document and the active agent and worktree, and the printing, are left out; a package called like a property every JavaScript object has (`constructor`, say) is not modelled.
- HTTP routes, sessions, dashboards, drawing, workbooks and archives, Windows job objects, SQL text.
