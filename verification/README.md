# Verified models of the application's algorithmic cores

Dafny models of the parts of this repository whose behaviour is decided by an algorithm rather than by a screen or a
service: the progressive library pager, the OCR error rates, the empty-document repair, the Stripe catalog sync, the
answer parser, the CSV export, the PDF passage locator, the folder options of a new space, the rate limiters, the robot
pool, the link stripper and the chunk window of the text viewer. Each model keeps the source's branches, constants and
error paths, and states what the code is for: safety over all runs, least cost, idempotence, round trips, conservation.

`dafny verify dfyconfig.toml` checks the project. Each module models code of one source file:

| file | module | models |
|---|---|---|
| `LibraryPager.dfy` | `LibraryPaging` | `LibraryPager` as a step system and as a class |
| `EditDistance.dfy`, `AccentRecall.dfy` | same names | `_edit_distance`, `cer`, `wer`; `accent_recall` |
| `EmptyDocumentRepair.dfy` | `EmptyDocumentRepair` | the PL/pgSQL repair over four tables |
| `StripeCatalog.dfy`, `StripeConvergence.dfy`, `StripeSync.dfy`, `StripeClient.dfy` | same names | the account, planning and applying; each part converges; planning again; the loops around a client |
| `StripePrices.dfy` | `StripePrices` | `price_amounts_match`, `create_params` |
| `AnswerMarkdown.dfy`, `AnswerBlocks.dfy`, `AnswerDirectives.dfy` | same names | `parseMarkdown`; `promoteFileCards`; `directiveBlock` and `parseAnswerBlocks` |
| `TableCsv.dfy` | `TableCsv` | `csvCell`, `tableToCsv` against a reader of RFC 4180, section 2 |
| `PassageLocator.dfy` | `PassageLocator` | `splitHighlight`, `locateInSpans` |
| `NewSpaceOptions.dfy` | `NewSpaces` | `newSpaceOptions`, `coveringSpace`, `catalogItemPath` |
| `RateLimit.dfy` | `RateLimit` | both limiters and `_decide`, with a clock per replica and one on the Redis server |
| `PoolFiller.dfy` | `PoolFiller` | `fill_pool` |
| `AnswerLinks.dfy` | `AnswerLinks` | `stripMarkdownLinks` and the address suffix |
| `ChunkWindow.dfy` | `ChunkWindow` | `document_chunks`, `TextViewer`, `groupByPage` |
| `Common.dfy` | `Common` | options, flattening, trimming |

Code that updates fields is a class (`LibraryPager`, `InMemoryRateLimiter`, `RedisRateLimiter`, `Program` for the
repair, `Client` for the Stripe account, `World` around `fill_pool`, `TextViewer`); loops are methods proved against a
specification function, and the promises are lemmas about that function.

## Where the code and its promises part

These are proved, each with the exact condition where there is one.

- Stripe sync: "re-running performs zero writes" (line 12 of the script) holds if and only if no planned creation
  replays an idempotency key the account has already answered (`StripeSync.SecondPlanIsEmptyExactlyWhenKeysAreFresh`).
- Empty-document repair: a run that holds no empty document can have its status rewritten, because an entry without
  counts is completed; exactly the runs whose entries are already complete are left alone (`RunIsLeftAlone`,
  `RunWithoutEmptyDocumentsIsRewritten`). Failed plus skipped is conserved exactly when the reported failures are at
  least those converted (`EntryKeepsCounts`).
- Robot pool: calls are at most three in any minute, but creations on the other side are so exactly when each happens
  within 0.3 seconds of its call (`ThreeAMinuteExactlyWhenPrompt`). A key is neither stored, deleted nor reported exactly
  when building its row raises, which no handler guards, or when its commit fails and the rollback raises too
  (`AccountedExactlyWhen`, with a run for each cause).
- Link stripper: a link is missed exactly when an opener starts inside the removed destination before it and reaches
  over its start (`PassIsLinkByLink`, `StraddlingOpenerHidesLink`).
- Answer parser: further paragraphs of a promoted header or lead, the text on the opening line of a highlight or steps
  directive, blocks between steps that are neither lists nor paragraphs, and the first word of a directive of no known
  kind, which is meant to degrade to plain Markdown, are dropped; nothing else is (`CardsLoseNothing`, `SectionKeeps`,
  `AnswerLosesNothing`). The names of known directives are not counted as text.
- CSV: a row without cells is read back as one blank cell (`TableReadsBack`).
- In-memory limiter: mixing window lengths makes it forget hits (`MixedWindowsForget`).
- Redis limiter: windows are found by the replicas' clocks while counters expire by the server's. It decides by the
  history exactly when no counter lapses between two hits of its window (`CounterIsHistoryExactlyWhen`); clocks within
  half a second of the server's guarantee that, and no weaker bound does (`SkewIsHarmlessExactlyWhen`).
- New spaces: in Notion a row can be left without any offered ancestor, exactly when some rows are trapped in cycles
  (`EveryRowHasOfferedAncestor`).
- Pager: the abort test never decides anything (`StaleAnswersAreInert`). Passage locator: the test for a negative range
  never fails (`Find`).

## Model

| member | source | states |
|---|---|---|
| `LibraryPaging.StepKeepsValid` | frontend/app/library-view-logic.ts:88-160 | every step of the protocol, with any number of stale operations in flight, keeps the invariant of the pager |
| `LibraryPaging.RunKeepsValid` | frontend/app/library-view-logic.ts:88-160 | so does every run |
| `LibraryPaging.OneCurrentOperation` | frontend/app/library-view-logic.ts:101-159 | in every run `loading` holds exactly when an operation of the current generation waits, there is at most one, and what was last published is the state |
| `LibraryPaging.StaleAnswersAreInert` | frontend/app/library-view-logic.ts:122-131 | an operation is stale exactly when its generation is older; its arrival or failure changes nothing but ending it |
| `LibraryPaging.ListIsMergeOfPages` | frontend/app/library-view-logic.ts:110-159 | in every run the list is the deduplication of pages 1 to nextPage - 1, and `hasMore` is what the last of them announced |
| `LibraryPaging.PutAllDeduplicates` | frontend/app/library-view-logic.ts:118-128 | putting items into the map gives distinct ids in order of first occurrence with the last value of each |
| `LibraryPaging.ListHeldWhileWaiting` | frontend/app/library-view-logic.ts:110-136 | the visible list does not change while an operation waits, whatever else happens |
| `LibraryPaging.FailedRefreshKeepsList` | frontend/app/library-view-logic.ts:130-139 | a failed refresh keeps the list and makes the next `load` a refresh from page 1 |
| `LibraryPaging.RunIsFoldOfListing` | frontend/app/library-view-logic.ts:138-159 | over an unchanged listing every run shows the plain fold of the listing's first pages and goes on exactly while the listing does |
| `LibraryPaging.RefreshOverUnchangedListing` | frontend/app/library-view-logic.ts:110-136 | a refresh that succeeds over an unchanged listing ends at the same last page with exactly the state the loads gave |
| `LibraryPaging.LibraryPager.Reset` | frontend/app/library-view-logic.ts:101-107 | the method performs the reset step on the whole object |
| `LibraryPaging.LibraryPager.Refresh` | frontend/app/library-view-logic.ts:110-122 | the call performs its step up to the first await |
| `LibraryPaging.LibraryPager.Load` | frontend/app/library-view-logic.ts:138-148 | the call performs its step up to the await, or is a refresh, or nothing |
| `LibraryPaging.LibraryPager.Arrive` | frontend/app/library-view-logic.ts:124-158 | resuming an operation with its page performs the arrival step |
| `LibraryPaging.LibraryPager.Fail` | frontend/app/library-view-logic.ts:130-158 | resuming it with a failure performs the failure step |
| `LibraryPaging.LibraryPager.SetAll` | frontend/app/library-view-logic.ts:125 | the loop over a page's items is the fold of single puts |
| `LibraryPaging.LibraryPager.FinishLoad` | frontend/app/library-view-logic.ts:150-153 | a load that is still current appends its page to the visible items |
| `LibraryPaging.LibraryPager.ContinueRefresh` | frontend/app/library-view-logic.ts:122-129 | a refresh asks for its next page, or replaces the list at the end |
| `EditDistance.NoScriptIsCheaper` | backend/scripts/ocr_eval.py:18-25 | every insert, delete and substitute script from one text to the other costs at least the distance |
| `EditDistance.BestScript` | backend/scripts/ocr_eval.py:18-25 | for every pair of prefixes some script attains the table entry |
| `EditDistance.DistanceIsLeastCost` | backend/scripts/ocr_eval.py:18-25 | the distance is the least cost of any script |
| `EditDistance.LeastEdits` | backend/scripts/ocr_eval.py:18-25 | the two-row loop returns that least cost |
| `EditDistance.DistanceIsMetric` | backend/scripts/ocr_eval.py:18-34 | zero exactly on equal texts, symmetric, triangle inequality, between the length difference and the larger length |
| `EditDistance.RateBounds` | backend/scripts/ocr_eval.py:28-34 | a rate is zero exactly on a perfect reading and at most one unless the hypothesis is longer |
| `EditDistance.ErrorRate` | backend/scripts/ocr_eval.py:28-34 | `cer` and `wer` divide the least cost by the length of the reference, at least one |
| `AccentRecall.KeptIsPart` | backend/scripts/ocr_eval.py:57-66 | kept accents never exceed wanted ones, and equal them exactly when every aligned word has all accents of its reference word |
| `AccentRecall.PartnerInOpcode` | backend/scripts/ocr_eval.py:61-66 | the opcode that spans a word decides its partner; in an equal opcode the partner is the word itself |
| `AccentRecall.CountOpcode` | backend/scripts/ocr_eval.py:62-66 | one opcode advances both counts to its end, whatever its kind |
| `AccentRecall.Recall` | backend/scripts/ocr_eval.py:57-67 | for any opcodes that tile the reference, the share of its accents kept by the aligned words; one if and only if none is lost |
| `EmptyDocumentRepair.RepairIsIdempotent` | backend/alembic/versions/20261001_0027_empty_documents_skipped.py:26-103 | on every state of the tables a second run changes nothing: no empty code, no changed progress, no affected folder |
| `EmptyDocumentRepair.Program.Repair` | backend/alembic/versions/20261001_0027_empty_documents_skipped.py:26-103 | the program, visiting rows, entries and folders in any order, ends in the closed form |
| `EmptyDocumentRepair.EntryKeepsCounts` | backend/alembic/versions/20261001_0027_empty_documents_skipped.py:37-47 | failures stay non-negative, and failed plus skipped is conserved exactly when the failures were at least those converted |
| `EmptyDocumentRepair.EntryIsRepairedOnce` | backend/alembic/versions/20261001_0027_empty_documents_skipped.py:36-57 | a repaired entry is left alone and does not improve again |
| `EmptyDocumentRepair.EntryIsLeftAlone` | backend/alembic/versions/20261001_0027_empty_documents_skipped.py:37-55 | an entry is unchanged exactly when it has no empty code and already has outcomes and both counts |
| `EmptyDocumentRepair.ImprovedEntryHasNoFailure` | backend/alembic/versions/20261001_0027_empty_documents_skipped.py:51-54 | an entry's status only moves from a failure to ready, with no failure and no code left |
| `EmptyDocumentRepair.RunIsRepairedOnce` | backend/alembic/versions/20261001_0027_empty_documents_skipped.py:69-77 | a repaired run is left alone and none of its entries improves |
| `EmptyDocumentRepair.RunIsLeftAlone` | backend/alembic/versions/20261001_0027_empty_documents_skipped.py:69-77 | a run is unchanged exactly when each of its entries is |
| `EmptyDocumentRepair.RunWithoutEmptyDocumentsIsRewritten` | backend/alembic/versions/20261001_0027_empty_documents_skipped.py:69-77 | a failed run without any empty document becomes ready |
| `EmptyDocumentRepair.RowsOnlyMoveToReady` | backend/alembic/versions/20261001_0027_empty_documents_skipped.py:58-66 | no row appears or disappears; jobs and folders only move from a failure to ready, jobs without touching another field than the code |
| `EmptyDocumentRepair.JobIsProven` | backend/alembic/versions/20261001_0027_empty_documents_skipped.py:58-96 | a job becomes ready exactly when an empty code or the improving snapshot of this very job in a run of its tenant explains its failure, or it is the newest pre-snapshot job of a clean affected folder |
| `EmptyDocumentRepair.OtherTenantsHaveNoSay` | backend/alembic/versions/20261001_0027_empty_documents_skipped.py:59-103 | where a folder's jobs belong to one tenant, they and the folder come out of the whole repair the same whatever the runs of other tenants are |
| `EmptyDocumentRepair.SameClearing` | backend/alembic/versions/20261001_0027_empty_documents_skipped.py:59-64 | any job is cleared the same whatever the runs of other tenants are |
| `EmptyDocumentRepair.ReadyFolderIsClean` | backend/alembic/versions/20261001_0027_empty_documents_skipped.py:85-103 | a failed folder becomes ready exactly when it is affected and ends with no failed document, no queued or syncing job and a ready newest job |
| `EmptyDocumentRepair.SettleOneMore` | backend/alembic/versions/20261001_0027_empty_documents_skipped.py:85-103 | settling one more folder after any others is settling them at once, so order and repetition do not matter |
| `EmptyDocumentRepair.Program.SkipEmptyDocuments` | backend/alembic/versions/20261001_0027_empty_documents_skipped.py:26-31 | the empty documents are skipped and exactly their folders are affected |
| `EmptyDocumentRepair.Program.AggregateOutcomes` | backend/alembic/versions/20261001_0027_empty_documents_skipped.py:37-44 | the aggregates count converted, failed and skipped outcomes and repair each outcome |
| `EmptyDocumentRepair.Program.NextEntry` | backend/alembic/versions/20261001_0027_empty_documents_skipped.py:37-55 | the JSON updates of one entry amount to its repair |
| `EmptyDocumentRepair.Program.RepairEntries` | backend/alembic/versions/20261001_0027_empty_documents_skipped.py:36-68 | the loop over a run's progress repairs every entry, collects its statuses and clears exactly the jobs it proves |
| `EmptyDocumentRepair.Program.RepairAllRuns` | backend/alembic/versions/20261001_0027_empty_documents_skipped.py:33-78 | the loop over the runs repairs all of them and clears exactly the jobs some run proves |
| `EmptyDocumentRepair.Program.ClearEmptyJobs` | backend/alembic/versions/20261001_0027_empty_documents_skipped.py:80-84 | the jobs that report an empty code are cleared too |
| `EmptyDocumentRepair.Program.FindNewest` | backend/alembic/versions/20261001_0027_empty_documents_skipped.py:92-93 | the newest job by creation and id, or none if the folder has no job |
| `EmptyDocumentRepair.Program.SettleFolder` | backend/alembic/versions/20261001_0027_empty_documents_skipped.py:85-103 | one round of the folder loop settles that folder and no other |
| `StripeSync.SecondPlanIsEmptyExactlyWhenKeysAreFresh` | backend/scripts/stripe_sync_catalog.py:81-179 | from any account, planning again after applying the whole plan yields no action if and only if no planned creation replays an idempotency key |
| `StripeSync.StaleKeyPlansAgain` | backend/scripts/stripe_sync_catalog.py:90-91 | an account that lost a product but remembers the answer to its creation accepts the plan and is planned the same creation again |
| `StripeSync.FreshPlanConverges` | backend/scripts/stripe_sync_catalog.py:81-179 | with fresh keys the account accepts every write and the next plan is empty |
| `StripeSync.ReplayedPlanDoesNotConverge` | backend/scripts/stripe_sync_catalog.py:90-123 | a creation that replays an earlier answer is still to be made |
| `StripeConvergence.ProductsConverge` | backend/scripts/stripe_sync_catalog.py:81-101 | the products end in step with the catalog; others stay as they are |
| `StripeConvergence.PricesConverge` | backend/scripts/stripe_sync_catalog.py:104-138 | the prices end in step with the catalog; holders of other lookup keys stay as they are |
| `StripeConvergence.PortalConverges` | backend/scripts/stripe_sync_catalog.py:141-153 | the managed portal configuration ends matched |
| `StripeConvergence.ReplacedPriceIsArchived` | backend/scripts/stripe_sync_catalog.py:120-127 | after the whole plan a price with other amounts has lost its key and is archived, its terms untouched |
| `StripeConvergence.OtherPricesStay` | backend/scripts/stripe_sync_catalog.py:104-138 | a price that holds no key of the catalog is never written |
| `StripeSync.KeysStayHeldAndTermsStand` | backend/scripts/stripe_sync_catalog.py:120-179 | at every prefix of any writes, lookup keys once held stay held and no price's terms are edited |
| `StripePrices.MatchIsEqualityOfTerms` | backend/app/billing/stripe_catalog.py:227-266 | the comparison of amounts, branch by branch, is equality of normal forms, on every remote price |
| `StripePrices.CreatedPriceMatches` | backend/app/billing/stripe_catalog.py:106-122 | a price just created matches what it was created for if and only if the currency is in lower case |
| `StripePrices.OneMatch` | backend/app/billing/stripe_catalog.py:247-266 | no price matches two entries with different terms |
| `StripeCatalog.MatchesLarger` | backend/scripts/stripe_sync_catalog.py:72-78 | what an object asks for is matched by every object with the same values or more |
| `StripeCatalog.MatchesItself` | backend/scripts/stripe_sync_catalog.py:72-78 | every desired value matches itself |
| `StripeClient.IterList` | backend/scripts/stripe_sync_catalog.py:60-69 | following the cursor over pages of any size yields every object once, in order |
| `StripeClient.PlanProductWrites` | backend/scripts/stripe_sync_catalog.py:81-101 | the planning loop over products |
| `StripeClient.FindBatch` | backend/scripts/stripe_sync_catalog.py:107-110 | one query of at most ten keys finds exactly their holders |
| `StripeClient.FindPrices` | backend/scripts/stripe_sync_catalog.py:105-110 | any number of batches finds exactly the holders of all keys |
| `StripeClient.PlanPriceWrites` | backend/scripts/stripe_sync_catalog.py:104-138 | the planning loop over prices |
| `StripeClient.Client.ApplyActions` | backend/scripts/stripe_sync_catalog.py:163-179 | the writes are made in order up to the first refusal, and all are exactly when the account accepts all |
| `AnswerMarkdown.ParseIsPartition` | frontend/app/answer-blocks.ts:71-153 | the parts of the parse are consecutive and in order, leave no line out, and each block holds the lines of its part in order, except blank ones in a list and a table's separator; a list item by item |
| `AnswerMarkdown.PartsPartition` | frontend/app/answer-blocks.ts:71-153 | the same from any line and any open paragraph |
| `AnswerMarkdown.PartsAreFaithful` | frontend/app/answer-blocks.ts:71-153 | every block is made of exactly its part's lines, the items of a list of consecutive runs of them |
| `AnswerMarkdown.ListTakesTexts` | frontend/app/answer-blocks.ts:105-142 | the lines of a list that are not blank form consecutive runs, one per item and in order; a run's first line starts the item, its other markers are the sub-items, the rest is text and paragraphs in order |
| `AnswerMarkdown.ListHasItems` | frontend/app/answer-blocks.ts:105-142 | a list has items; each starts at the list's own level and kind, and all else in it lies further in |
| `AnswerMarkdown.ReadRows` | frontend/app/answer-blocks.ts:84-85 | the rows of a table are the longest run of lines with a pipe |
| `AnswerMarkdown.ReadFields` | frontend/app/answer-blocks.ts:92-93 | the fields are the longest run of field lines |
| `AnswerMarkdown.LookAhead` | frontend/app/answer-blocks.ts:118-126 | the lookahead over blank lines finds whether and where the list goes on |
| `AnswerMarkdown.ReadList` | frontend/app/answer-blocks.ts:100-142 | the list loop computes the scan |
| `AnswerMarkdown.ParseMarkdown` | frontend/app/answer-blocks.ts:71-153 | the parser with its index corrections ends on every input with the blocks of the partition |
| `AnswerBlocks.CardsKeepItems` | frontend/app/answer-blocks.ts:189-218 | every item of a promoted list is in exactly one card, in order, as header, lead or detail, less the paragraphs of headers and leads |
| `AnswerBlocks.CardsLoseNothing` | frontend/app/answer-blocks.ts:189-218 | cards hold exactly the text of the list if and only if no header and no lead has further paragraphs |
| `AnswerBlocks.HeaderLosesParagraph` | frontend/app/answer-blocks.ts:206-214 | a bare file name with a paragraph of its own loses it |
| `AnswerBlocks.PromotionLosesNothing` | frontend/app/answer-blocks.ts:175-223 | promotion keeps the text of the blocks, in order, if and only if that holds of every list it turns into cards |
| `AnswerBlocks.NothingToPromote` | frontend/app/answer-blocks.ts:177-193 | without file headings and file lists, as when no file is known, the blocks are unchanged |
| `AnswerBlocks.PromotedOnce` | frontend/app/answer-blocks.ts:180-221 | no file heading and no file list is left outside the cards |
| `AnswerBlocks.PromotionIsIdempotent` | frontend/app/answer-blocks.ts:175-223 | promoting again changes nothing |
| `AnswerBlocks.RowCards` | frontend/app/answer-blocks.ts:196-203 | a list of files with summaries gives one card per item |
| `AnswerBlocks.CollectCards` | frontend/app/answer-blocks.ts:204-218 | the collecting loop gives each header the items up to the next one and never lacks a card to add to |
| `AnswerBlocks.PromoteFileCards` | frontend/app/answer-blocks.ts:175-223 | the whole loop computes the promoted blocks |
| `AnswerDirectives.SectionsPartition` | frontend/app/answer-blocks.ts:227-247 | every line, and the first word of every directive of no known kind, is in exactly one section, in order, whatever directives are left open or closed twice |
| `AnswerDirectives.SectionKeeps` | frontend/app/answer-blocks.ts:161-168 | a section's blocks hold its text exactly unless it is a directive of no known kind, a highlight or steps with an argument, or steps with other blocks |
| `AnswerDirectives.UnknownDirectiveLosesItsWord` | frontend/app/answer-blocks.ts:243 | the first word of a directive of no known kind is lost |
| `AnswerDirectives.HighlightLosesItsArgument` | frontend/app/answer-blocks.ts:164 | text on the opening line of a highlight is lost |
| `AnswerDirectives.AnswerLosesNothing` | frontend/app/answer-blocks.ts:225-252 | the blocks of an answer hold its text, in order, if and only if no directive, known or not, and no promoted list drops any |
| `AnswerDirectives.ParseKeepsLine` | frontend/app/answer-blocks.ts:71-153 | parsing keeps every line with text, as often as it occurs |
| `AnswerDirectives.AnswerKeepsEveryLine` | frontend/app/answer-blocks.ts:225-252 | from the lines of an answer to its cards every line with text is kept as often as it occurs, when nothing is dropped |
| `AnswerDirectives.ReadDirective` | frontend/app/answer-blocks.ts:238-245 | a directive takes the lines up to its end and gives the blocks of its section |
| `AnswerDirectives.ParseAnswerBlocks` | frontend/app/answer-blocks.ts:225-252 | the whole loop computes the promoted blocks of the sections |
| `TableCsv.CellReadsBack` | frontend/app/answer-markdown.tsx:39-43 | a printed cell is read back as the guarded value, quotes, commas, semicolons and line breaks included |
| `TableCsv.LineReadsBack` | frontend/app/answer-markdown.tsx:47 | a printed row is read back as its cells |
| `TableCsv.TableReadsBack` | frontend/app/answer-markdown.tsx:46-48 | reading the printed table gives the cleaned and guarded cells, row by row, if and only if every row has a cell |
| `TableCsv.ClosingReaderReadsBack` | frontend/app/answer-markdown.tsx:46-48 | a reader that lets a last line break end the file differs exactly when the last row prints as nothing |
| `TableCsv.NoCellStartsFormula` | frontend/app/answer-markdown.tsx:40-41 | no cell read back starts a formula, and a cleaned cell is guarded exactly when it starts with one of `=+-@` |
| `PassageLocator.SplitMeaning` | frontend/app/file-viewer-logic.ts:135-140 | the split succeeds exactly when the trimmed excerpt of at least 8 characters occurs, and then parts the text at its first occurrence |
| `PassageLocator.SquashIsNormal` | frontend/app/file-viewer-logic.ts:142 | squashing keeps the words with single blanks between them |
| `PassageLocator.JoinedIsNormalised` | frontend/app/file-viewer-logic.ts:149-151 | the joined pieces are the white-space-normalised text of the page |
| `PassageLocator.BuildIndex` | frontend/app/file-viewer-logic.ts:149-151 | the loop builds that text and the offset of every span in it |
| `PassageLocator.EndsHavePieces` | frontend/app/file-viewer-logic.ts:156-164 | the first and last characters of an occurrence lie in spans |
| `PassageLocator.TouchedRange` | frontend/app/file-viewer-logic.ts:158-163 | the loop finds the first and the last span touched; those that are not empty in between overlap the match |
| `PassageLocator.Find` | frontend/app/file-viewer-logic.ts:154-164 | once a needle is found a range is returned |
| `PassageLocator.LocateInSpans` | frontend/app/file-viewer-logic.ts:148-167 | null means exactly that none of the four needles occurs; a range marks the first occurrence of the first needle that does |
| `NewSpaces.CoveringSpace` | frontend/app/new-space-options.ts:35-50 | on any graph, cyclic or incomplete, the space at least parent distance, or the all-accessible one exactly when no proper ancestor is a space |
| `NewSpaces.VisitLayer` | frontend/app/new-space-options.ts:39-46 | one pass of the search visits one distance |
| `NewSpaces.NewSpaceOptions` | frontend/app/new-space-options.ts:25-55 | the offers are the offered rows in order, each with its existing or covering space |
| `NewSpaces.EveryRowHasOfferedAncestor` | frontend/app/new-space-options.ts:32-34 | every Notion row is offered or has an offered ancestor if and only if no non-empty set of rows holds a proper parent of each of its rows and every such parent |
| `NewSpaces.AcyclicRowIsSelectable` | frontend/app/new-space-options.ts:32-34 | without cycles every row is offered or has an offered ancestor |
| `NewSpaces.CycleOffersNothing` | frontend/app/new-space-options.ts:32-34 | two folders that are each other's parent are both left out |
| `NewSpaces.CatalogItemPath` | frontend/app/new-space-options.ts:7-20 | the names from the outermost reachable first parent to the item; only a missing parent, a gap or a cycle ends the climb |
| `RateLimit.MemoryCountsSurvivingHits` | backend/app/access/ratelimit.py:32-37 | what the pruning limiter counts, for any clock and any mixture of windows |
| `RateLimit.SurvivingIsHistoryExactlyWhen` | backend/app/access/ratelimit.py:35 | that is the history exactly when no hit of the window is followed by a later bucket number |
| `RateLimit.MemoryDecidesByHistory` | backend/app/access/ratelimit.py:32-37 | so with one window length and a clock that never goes back |
| `RateLimit.MixedWindowsForget` | backend/app/access/ratelimit.py:35 | with two window lengths a hit is forgotten |
| `RateLimit.CounterIsHistoryExactlyWhen` | backend/app/access/ratelimit.py:44-51 | for any clocks and any mixture of windows, the count the Redis limiter decides by is the history if and only if no two consecutive hits of that key and window are window + 1 or more server seconds apart |
| `RateLimit.CounterMeaning` | backend/app/access/ratelimit.py:46-50 | a counter exists exactly when its window had a hit, expires window + 1 server seconds after the last one, and never exceeds the history |
| `RateLimit.HalfASecondIsHarmless` | backend/app/access/ratelimit.py:46-50 | with one window length for the key, clocks within half a second of the server's never let a counter lapse |
| `RateLimit.SkewIsHarmlessExactlyWhen` | backend/app/access/ratelimit.py:46-50 | half a second of skew either way is the exact bound up to which every such run decides by the history |
| `RateLimit.SlowReplicaForgets` | backend/app/access/ratelimit.py:45-50 | a replica half a minute behind makes the counter start again within its minute, and a hit over the limit passes |
| `RateLimit.SteppedBackClockForgets` | backend/app/access/ratelimit.py:45-50 | so does a clock that steps back within its minute |
| `RateLimit.RedisDecidesByHistory` | backend/app/access/ratelimit.py:44-51 | with one window length for the key, and one clock or clocks within half a second, the Redis limiter decides by the history |
| `RateLimit.CountersOutliveWindow` | backend/app/access/ratelimit.py:46-50 | on the server's clock a counter outlives its window by a second less the skew of the replicas' clocks |
| `RateLimit.AtMostTwiceTheLimit` | backend/app/access/ratelimit.py:21-51 | either limiter, where it decides by the history, lets through exactly the hits of a window up to `limit`, and at most twice `limit` in any interval of its length |
| `RateLimit.ResetReachesNextWindow` | backend/app/access/ratelimit.py:21-23 | after the announced wait exactly the next window has begun |
| `RateLimit.InMemoryRateLimiter.Hit` | backend/app/access/ratelimit.py:32-37 | a hit prunes, counts and decides |
| `RateLimit.RedisRateLimiter.Hit` | backend/app/access/ratelimit.py:44-51 | a hit finds its window by the caller's clock, counts, sets the expiry by the server's and decides |
| `PoolFiller.AtMostThreeCallsAMinute` | scripts/drive_sa_pool.py:139-146 | any 60 seconds hold at most three calls |
| `PoolFiller.ThreeAMinuteExactlyWhenPrompt` | scripts/drive_sa_pool.py:139-146 | the delay guarantees at most three creations in any 60 seconds exactly for latencies up to 0.3 seconds |
| `PoolFiller.ThrottledCreation` | scripts/drive_sa_pool.py:138-146 | a call comes at least 20.1 seconds after the previous reading |
| `PoolFiller.AccountedExactlyWhen` | scripts/drive_sa_pool.py:146-162 | every key obtained is stored, deleted or reported if and only if, in no round that comes, building the row raises or the rollback after a failed commit does |
| `PoolFiller.FailedBuildLosesKey` | scripts/drive_sa_pool.py:147-153 | a run whose row cannot be built leaves its key in nobody's hands |
| `PoolFiller.FailedRollbackLosesKey` | scripts/drive_sa_pool.py:154-159 | so does one whose commit and rollback both fail |
| `PoolFiller.StoredUpToTheLast` | scripts/drive_sa_pool.py:139-163 | all keys of a run but the last are stored, and the run is filled exactly when all of them are |
| `PoolFiller.StoreKey` | scripts/drive_sa_pool.py:147-162 | what a key comes to and whether it ends the run, for every answer of the cipher, the database and IAM |
| `PoolFiller.FillPool` | scripts/drive_sa_pool.py:107-163 | refusals come before any call; the calls are throttled, stored identities never exceed the quota, and the keys come to what the answers of the rounds say |
| `AnswerLinks.StripMarkdownLinks` | frontend/app/answer-display.ts:34-54 | the cursor loop computes the pass over all openers |
| `AnswerLinks.PassIsLinkByLink` | frontend/app/answer-display.ts:34-54 | the pass replaces the leftmost closed link by its label and goes on after its balanced destination, again and again, if and only if no replaced link's destination holds an opener that reaches over the next link |
| `AnswerLinks.StraddlingOpenerHidesLink` | frontend/app/answer-display.ts:38-40 | `[a](x[y) [b](z)` is such a text: its second link stays |
| `AnswerLinks.StripLeavesOut` | frontend/app/answer-display.ts:49-53 | the answer is a subsequence of the text |
| `AnswerLinks.PassReplaces` | frontend/app/answer-display.ts:38-53 | the answer is the text with exactly the links the pass stops at replaced by their labels |
| `AnswerLinks.UnclosedStays` | frontend/app/answer-display.ts:40-49 | a text is unchanged exactly when no destination in it is closed |
| `AnswerLinks.AddressSuffix` | frontend/app/answer-display.ts:8-20 | what is left of an address is its trailing punctuation and the parentheses it closes too often, and no more can be taken |
| `ChunkWindow.LandsOnChunk` | backend/app/api/document_view.py:144-153 | the page around a chunk starts at a multiple of the page size and holds the chunk |
| `ChunkWindow.ClicksKeepWindow` | frontend/app/file-viewer.tsx:130-139 | any clicks, failing or not, keep the pages consecutive and aligned, and only widen them |
| `ChunkWindow.ViewerShowsOneSlice` | frontend/app/file-viewer.tsx:117-142 | after any clicks the text is one contiguous slice in position order without repetition, and holds the cited chunk if there is one |
| `ChunkWindow.PreviousNeedsAlignedPages` | frontend/app/file-viewer.tsx:135 | a first page that starts inside the first page of the document would be repeated by "previous" |
| `ChunkWindow.TextViewer.Add` | frontend/app/file-viewer.tsx:130-139 | a click adds one page at its end, or only notes a failure |
| `ChunkWindow.GroupByPage` | frontend/app/file-viewer-logic.ts:124-132 | the groups are the maximal runs of one page number and hold every chunk in order |

## Left out

- ViewerShowsOneSlice: assumes the document does not change between clicks, and leaves out that shown text is cut at a fixed length.
- LocateInSpans: case folding is taken to be character by character and to keep blanks; foldings that change a text's length are not modelled.
- Recall: the word matcher is a parameter; its opcodes are only assumed to tile the reference with equal words in equal opcodes. Quotients are exact, without floating-point rounding, here and in the error rates.
- TableReadsBack: what a spreadsheet does beyond RFC 4180, section 2, and the byte-order mark of the download are not modelled.
- ParseMarkdown: lines carry what the patterns say about them; the regular expressions, the trimming and splitting of texts, and the tags of fields are not modelled.
- ParseAnswerBlocks: a card's name and citation markers stand for the header text they are cut from; the fallback for a parser that throws is left out, because nothing here throws.
- RunIsLeftAlone: a count stored as a numeric string passes the casts of the program and is rewritten as a number; such counts are not modelled.
- Repair: JSON of the wrong shape, on which a cast aborts the transaction, is not modelled; job ids and their texts are one type.
- SecondPlanIsEmptyExactlyWhenKeysAreFresh: prices carry the normal form of their terms, in which `StripePrices` proves them to be compared; catalog currencies are in lower case, lookup keys are unique and the desired portal carries the managed tag, as the account and the catalog promise.
- MatchesLarger: comparisons of a list with something that is not a list are not modelled.
- FillPool: IAM, the cipher and the database are their answers, round by round, and a log of what becomes of each key; a commit that reports failure after taking effect is not modelled.
- CounterIsHistoryExactlyWhen: the server's clock is taken not to go back, and expiry to happen at its instant.
- `withSpaceHeadings` and the rest of the library view options, whose grouping would add only easy members.
- The other rewriting steps of `cleanAnswerForDisplay`, and the splitting of a text into words before `wer`.
- HTTP, sessions, routing, access checks, Redis, Stripe and IAM transports, migrations of schema only, and all user interface.
