# Annual Operational Plan records — a verified model

The aop-system keeps *plans*. A plan has a header (development area, outcome, strategy), an ordered list of *rows*, a human-facing `idNo` and two timestamps. A row holds a PAP, a performance indicator, four quarterly targets and four quarterly actuals, an office, an estimated cost, a fund source, a risk, mitigating activities and the name of an evidence file.

Plans live in two places:

- the browser's local plan list, which the form saves to, updates and deletes from;
- the server's plan collection, behind `GET/POST/PUT/DELETE /api/plans`, which also stores uploaded evidence files.

The records table and the dashboards recompute figures from the rows on every view: quarter totals, the achieved percentage, the remaining percentage and the cost subtotal.

Modules:

- `Wrappers`, `Seqs`: `Option`/`Result`, and `find`/`findIndex` as `FirstIndex`.
- `Text`: JavaScript's `String.prototype.trim`, using the exact ECMAScript whitespace set.
- `HtmlEscape`: the client's `esc`, a character-by-character reference escape, and the decoding the browser does when it reads a rendered value back.
- `PlanModel`: the `Row` and `Plan` entities, lookup by id, revision and filtering by id.
- `IdAllocator`: the "highest stored number + 1" rule shared by the client and the server's pre-save hook.
- `PlanSchema`: the server's schema. It covers required paths, row defaults and validation before save.
- `FileFields`, `Uploads`: the upload field names `file_row_<n>` and `applyFiles`. `Uploads.ApplyFiles` updates the row array in place.
- `ProofReconcile`: how `PUT` decides each row's evidence file.
- `ServerStore`: the route handlers as methods of a `PlanCollection` class. Each is proved against a function stating its outcome, and the collection invariant `ValidStore` is preserved.
- `PlanForm`: `newRowData`, `collectFormData` (a loop), the edit form `initCreateForm` renders, and the `PlanEditor` class holding `rowCount`, `currentPlanId` and the block numbers on the form.
- `LocalStore`: `savePlan`, `updatePlan` and `deletePlan` over a `LocalPlanStore` class.
- `Aggregation`: the figures of `loadRecords`, `loadDashboard` and `loadDashboardSingle`.

Behaviours of the code worth knowing, some of which a reader of its comments or screens might not expect:

- Quarter figures are whatever the numeric inputs hold. No "strip non-digits" parser exists in the code.
- A row with no positive target total shows 0% achieved and 100% remaining, even when it has actuals.
- `savePlan`'s comment (aop-system/public/script.js:333) says the numbering prevents reuse of old numbers. It does not: deleting the plan just saved gives its number to the next plan saved (`LocalStore.DeleteNewestReissuesNumber`). More generally, once the plan with the highest number `m` is deleted, the next number is at most `m`, and it is `m` exactly when `m - 1` is still stored, or nothing remains and `m` is 1 (`IdAllocator.DeletedHighestUnprotected`).
- The server lists plans by `createdAt`, newest first.
- The server accepts a plan with no rows and a header of only whitespace. Only the form refuses these (`PlanSchema.EmptyRowListValidates`, `PlanForm.BlankHeaderRefusedOnlyByForm`).

## Model

| member | source | states |
|---|---|---|
| Seqs.FirstIndex | aop-system/routes/plans.js:30 | the first position whose element satisfies the predicate; none exactly when no element does |
| Text.Trim | aop-system/public/script.js:274-276 | the result has no whitespace at either end and is no longer than the input |
| Text.TrimStripsWhitespace | aop-system/public/script.js:274-276 | the input is a whitespace run, then the trimmed text, then a whitespace run |
| Text.TrimEmptyIff | aop-system/public/script.js:277 | trimming gives "" if and only if the text is all whitespace |
| Text.TrimOfTrimmed | aop-system/public/script.js:274-276 | a text with no whitespace at either end is unchanged by trimming |
| Text.TrimIdempotent | aop-system/public/script.js:274-276 | trimming twice equals trimming once |
| HtmlEscape.EscIsPerCharacter | aop-system/public/script.js:52-54 | the four chained global replacements (`&` first) equal escaping each character on its own |
| HtmlEscape.EscNoMarkup | aop-system/public/script.js:52-54 | escaped output contains no raw `<`, `>` or `"`; an absent or empty value escapes to "" |
| HtmlEscape.EscPlainUnchanged | aop-system/public/script.js:52-54 | text without `& " < >` comes back unchanged |
| HtmlEscape.EscRoundTrip | aop-system/public/script.js:52-54 | decoding the entities of an escaped text gives the original text |
| HtmlEscape.EscInjective | aop-system/public/script.js:52-54 | distinct texts escape to distinct markup |
| PlanModel.FindPlan | aop-system/public/script.js:376 | `findIndex` by `_id`: the first plan with the id, or none exactly when no plan has it |
| PlanModel.Revise | aop-system/public/script.js:379-383 | an edited plan keeps its id, number and creation time and takes the new header, rows and update time |
| PlanModel.RemoveId | aop-system/public/script.js:404 | filtering never lengthens the list |
| PlanModel.RemoveIdMembers | aop-system/public/script.js:404 | exactly the plans with another id survive the filter |
| PlanModel.RemoveIdConcat | aop-system/public/script.js:404 | filtering keeps order: it distributes over concatenation |
| PlanModel.RemoveIdAbsent | aop-system/public/script.js:404 | deleting an id no plan carries changes nothing |
| PlanModel.RemoveIdAround | aop-system/public/script.js:404 | when only the middle plan carries the id, filtering removes exactly that plan |
| PlanModel.RemoveFoundPlan | aop-system/routes/plans.js:117 | with distinct ids, removing the one plan found by id equals filtering on the id |
| PlanModel.RemoveAppended | aop-system/public/script.js:404 | filtering out the id of a newly appended plan, which no other plan has, restores the earlier list |
| IdAllocator.Max | aop-system/public/script.js:334 | `Math.max`: an element of the list that no element exceeds |
| IdAllocator.NextIdNo | aop-system/public/script.js:334-335 | exceeds every given number; 1 for none; otherwise one more than a given number |
| IdAllocator.LocalIdNos | aop-system/public/script.js:334 | each plan's number, a missing number read as 0, position by position |
| IdAllocator.NextLocalIdNoFresh | aop-system/public/script.js:332-335 | the new local number differs from every stored plan's number; 1 on an empty list; otherwise one more than a stored number |
| IdAllocator.NextIdNoAfterIssue | aop-system/models/Plan.js:33-39 | after the issued number is stored, the next number is one higher |
| IdAllocator.DeletedHighestUnprotected | aop-system/public/script.js:332-335 | when every remaining number is below a deleted highest number `m` (an issued number, so at least 1), the next number is at most `m`, and is `m` exactly when `m - 1` remains or nothing remains and `m` was 1 |
| IdAllocator.SequentialNumbering | aop-system/public/script.js:334-335 | from an empty list the numbers go 1, 2, 3; with 1 and 3 stored the next is 4 |
| PlanSchema.CastRows | aop-system/models/Plan.js:3-21 | the row list casts if and only if every row has a `rowNo`; each row is then cast with its defaults |
| PlanSchema.ValidatePlan | aop-system/models/Plan.js:23-28 | a plan validates if and only if the three headers are present and non-empty and every row has a number; the content is kept |
| PlanSchema.CastBareRow | aop-system/models/Plan.js:4-20 | a row given only its number gets empty texts and zero figures; one without a number is refused |
| PlanSchema.CastToPayload | aop-system/models/Plan.js:3-21 | a stored row written out and cast back is the same row |
| PlanSchema.EmptyRowListValidates | aop-system/models/Plan.js:25-28 | the schema accepts a plan with no rows |
| FileFields.DecimalString | aop-system/routes/plans.js:60 | `${n}` is a non-empty string of digits |
| FileFields.AccumulateValue | aop-system/routes/plans.js:29 | `parseInt`'s left-to-right accumulation equals the positional decimal value |
| FileFields.DecimalStringValue | aop-system/routes/plans.js:60 | the decimal notation of `n` has value `n` |
| FileFields.FileRowFieldRoundTrip | aop-system/routes/plans.js:27-29 | the field declared for row `n` parses back to exactly `n` |
| FileFields.ParseFileRowFieldSpec | aop-system/routes/plans.js:27-29 | a field is accepted if and only if it is the prefix and one or more digits; its number is their decimal value |
| FileFields.RejectsNonDigits | aop-system/routes/plans.js:27-28 | "file_row_1a", "file_row_" and "proof" are ignored |
| Uploads.RowWithNo | aop-system/routes/plans.js:30 | the first row with that `rowNo`; none exactly when no row has it |
| Uploads.ApplyFiles | aop-system/routes/plans.js:24-35 | the in-place pass over the row array leaves exactly the rows `ApplyFilesTo` defines |
| Uploads.UploadForStable | aop-system/routes/plans.js:26-33 | which upload targets a row does not depend on `proofFile` values |
| Uploads.ApplyEntriesShape | aop-system/routes/plans.js:26-33 | uploads keep the number and order of rows and change only `proofFile` |
| Uploads.ApplyEntriesProof | aop-system/routes/plans.js:26-33 | a row's resulting file is the last upload naming its number (when it is the first row with it), else its previous file |
| Uploads.ApplyFilesShape | aop-system/routes/plans.js:24-35 | `applyFiles` changes only `proofFile`, with or without a files object |
| Uploads.NoFilesUnchanged | aop-system/routes/plans.js:25 | no files object, or no entries, leaves the rows unchanged |
| Uploads.IgnoredEntry | aop-system/routes/plans.js:27-31 | an entry with a non-matching field name or an unknown row number has no effect |
| Uploads.UploadLandsOnFirstMatch | aop-system/routes/plans.js:27-31 | an upload for row `n` lands on the first row numbered `n` and no other |
| ProofReconcile.StoredRow | aop-system/routes/plans.js:93 | the first stored row with the submitted number; none for a row without a number |
| ProofReconcile.ReconcileRows | aop-system/routes/plans.js:92-98 | definition (its ensures spell out the comprehension; `PutProofPriority` states the promise): each submitted row is kept with `proofFile` = hint, else the stored row's file, else "" |
| ProofReconcile.PutProofPriority | aop-system/routes/plans.js:92-100 | all submitted rows kept in order; each one's file is its upload, else its hint, else the stored file, else "" |
| ProofReconcile.NeverErasedSilently | aop-system/routes/plans.js:91-98 | without upload or hint a row keeps its stored counterpart's file |
| ProofReconcile.NewRowGetsNoFile | aop-system/routes/plans.js:96 | a row with no counterpart, no hint and no upload gets "" |
| ProofReconcile.UploadWins | aop-system/routes/plans.js:100 | an upload wins over both the hint and the stored file |
| ServerStore.ApiError.Status | aop-system/routes/plans.js:86-111 | definition by cases: an unknown plan is 404, every other refusal 400 |
| ServerStore.ParseRows | aop-system/routes/plans.js:63 | definition by cases (the `Create`/`Update` contracts carry the promise): a missing `rows` field is the empty list, malformed JSON is refused, parsed rows pass through |
| ServerStore.PreSaveIdNo | aop-system/models/Plan.js:33-39 | a new document gets a number above every stored one (1 in an empty collection, else one past a stored number); a stored one keeps its number |
| ServerStore.CreateOutcome | aop-system/routes/plans.js:58-79 | creation succeeds if and only if the rows parse, the headers are present and non-empty, every row has a number and the id is unused; the plan then holds the uploads applied, the next number and `now` |
| ServerStore.UpdateOutcome | aop-system/routes/plans.js:81-112 | 404 if and only if the id is unknown; success if and only if also the rows parse and validate; the plan keeps id, number and creation time and takes the reconciled rows |
| ServerStore.InsertByCreated | aop-system/routes/plans.js:40 | inserting into a newest-first list keeps it newest first and adds exactly the plan |
| ServerStore.NewestFirst | aop-system/routes/plans.js:40 | `sort({createdAt: -1})`: newest first, and a permutation of the stored plans |
| ServerStore.ServerAndClientNumbersAgree | aop-system/models/Plan.js:33-39 | in a numbered collection the hook's number equals the browser's max + 1 |
| ServerStore.CreateKeepsValid | aop-system/routes/plans.js:62-78 | a created plan keeps ids unique, numbers present and unique, headers non-empty |
| ServerStore.CreateNumbersInSequence | aop-system/models/Plan.js:34-36 | each creation raises the next number by exactly one |
| ServerStore.UpdateKeepsValid | aop-system/routes/plans.js:86-108 | an accepted update keeps the collection invariant |
| ServerStore.ConsKeepsValid | aop-system/models/Plan.js:23-39 | a plan with new id and number and present headers can join a valid collection |
| ServerStore.RemoveKeepsValid | aop-system/routes/plans.js:115-122 | deleting by id keeps the collection invariant |
| ServerStore.PlanCollection.FindAll | aop-system/routes/plans.js:38-45 | every stored plan exactly once, newest first |
| ServerStore.PlanCollection.FindById | aop-system/routes/plans.js:48-56 | 404 exactly when no plan has the id; otherwise a stored plan with that id |
| ServerStore.PlanCollection.Create | aop-system/routes/plans.js:58-79 | the outcome is `CreateOutcome`; on success the plan is appended, on refusal (400) nothing changes; the invariant is kept |
| ServerStore.PlanCollection.Update | aop-system/routes/plans.js:81-112 | the outcome is `UpdateOutcome`; on success the found plan is replaced, otherwise nothing changes; the invariant is kept |
| ServerStore.PlanCollection.Delete | aop-system/routes/plans.js:114-122 | the collection becomes its filter by id, the invariant is kept, and the reply is "Deleted" whether or not a plan matched |
| ServerStore.WithUploads | aop-system/routes/plans.js:64 | running the in-place upload pass over a copy gives the rows `ApplyFilesTo` defines |
| PlanForm.NewRowData | aop-system/public/script.js:162-167 | the blank row is the schema's default row numbered 1 |
| PlanForm.CollectedForm | aop-system/public/script.js:273-308 | refused for a missing or blank header, else refused when there is no row block, else the trimmed headers and one collected row per block, in order |
| PlanForm.CollectFormData | aop-system/public/script.js:273-308 | the loop over the blocks returns exactly `CollectedForm` |
| PlanForm.AcceptedHeaderIsRequired | aop-system/public/script.js:274-277 | a header the form accepts passes the server's required check |
| PlanForm.BlankHeaderRefusedOnlyByForm | aop-system/public/script.js:277 | a whitespace-only header is refused by the form but passes the server's required check |
| PlanForm.CollectedRowTrimmed | aop-system/public/script.js:282-301 | every text field of a collected row is trimmed |
| PlanForm.CollectedIsTrimmed | aop-system/public/script.js:273-308 | every text the form collects, headers and rows alike, is trimmed |
| PlanForm.LoadedForm | aop-system/public/script.js:112-122 | definition (`LoadedFormReadsBack` states the promise): the edit form shows the escaped headers and one block per stored row, numbered 1, 2, ... |
| PlanForm.BlankBlockIsDefaultRow | aop-system/public/script.js:162-245 | a blank block reads back as the default row for its number |
| PlanForm.ShownTrimmed | aop-system/public/script.js:187 | a trimmed text rendered through `esc` and read back is the same text |
| PlanForm.UnchangedBlock | aop-system/public/script.js:169-245 | a trimmed row rendered into block `n` and read back unchanged is the same row, file included, numbered `n` |
| PlanForm.ShownHeader | aop-system/public/script.js:138-140 | a non-empty trimmed header rendered and read back is accepted and unchanged |
| PlanForm.LoadedFormReadsBack | aop-system/public/script.js:112-140 | the edit form of a trimmed plan reads back as that plan with rows renumbered by position |
| PlanForm.CollectsTo | aop-system/public/script.js:273-308 | a form that reads back as a plan with rows is collected to that plan's content |
| PlanForm.UnchangedEditRenumbersRows | aop-system/public/script.js:478-496 | opening a trimmed plan and saving it unchanged keeps header and rows and renumbers the rows 1, 2, 3, ... |
| PlanForm.Positions | aop-system/public/script.js:122 | definition: block numbers 1 to n in order |
| PlanForm.Without | aop-system/public/script.js:266-269 | exactly the other block numbers remain |
| PlanForm.WithoutKeepsOrder | aop-system/public/script.js:266-269 | removing a block keeps the remaining numbers increasing |
| PlanForm.PlanEditor.constructor | aop-system/public/script.js:109-110 | `rowCount` starts at 1, no plan is being edited, no block is on the page |
| PlanForm.PlanEditor.InitCreateForm | aop-system/public/script.js:112-122 | `rowCount` becomes the number of rows (1 without a plan), the plan id is recorded, blocks are numbered 1 to `rowCount` |
| PlanForm.PlanEditor.AddRow | aop-system/public/script.js:258-264 | the new block gets `rowCount + 1`, a number no block on the form has; numbers stay increasing and at most `rowCount` |
| PlanForm.PlanEditor.RemoveRow | aop-system/public/script.js:266-269 | the block numbered `n` leaves; the counter is not lowered, so the number is not given back |
| LocalStore.FinalizeRows | aop-system/public/script.js:320-328 | rows keep their order and fields; each `proofFile` is the chosen file's name, else the stored name |
| LocalStore.StoredRows | aop-system/public/script.js:320-328 | definition (`FinalizeRows` and `SavedPlanIsTrimmed` state the promise): one stored row per collected row, in order |
| LocalStore.NewLocalPlan | aop-system/public/script.js:330-343 | a new plan holds the form's content, the new id and `now`, and a number no stored plan has (1 on an empty list) |
| LocalStore.SavedPlanIsTrimmed | aop-system/public/script.js:312-345 | a plan saved from the form has only trimmed texts |
| LocalStore.DeleteNewestReissuesNumber | aop-system/public/script.js:332-335 | after the plan just saved is deleted, the next save gets the same number again |
| LocalStore.LocalPlanStore.constructor | aop-system/public/script.js:3-6 | the stored list, or the empty list when nothing is stored |
| LocalStore.LocalPlanStore.SavePlan | aop-system/public/script.js:312-355 | a refused form changes nothing; otherwise the `NewLocalPlan` is appended |
| LocalStore.LocalPlanStore.UpdatePlan | aop-system/public/script.js:357-394 | a refused form changes nothing; otherwise the first plan with the current id is revised in place, and nothing changes when there is none |
| LocalStore.LocalPlanStore.DeletePlan | aop-system/public/script.js:397-417 | once confirmed, the list becomes its filter by id; unconfirmed, nothing changes |
| Aggregation.RoundedPercent | aop-system/public/script.js:528 | `Math.round((totalActual/totalTarget)*100)` over the exact quotient: the integer nearest to the percentage, halves rounded up |
| Aggregation.Figures | aop-system/public/script.js:526-529 | the remaining share is never negative and makes up 100 with the achieved share unless it is 0; no positive target gives 0% and 100% |
| Aggregation.PercentBounds | aop-system/public/script.js:528-529 | with actuals within the target, the achieved share is 0..100 and the two shares sum to 100 |
| Aggregation.RoundsHalfUp | aop-system/public/script.js:528 | 1 of 8 shows 13, 1 of 200 shows 1, 1 of 3 shows 33, 2 of 3 shows 67 |
| Aggregation.OverAchievement | aop-system/public/script.js:528-529 | exceeding the target shows at least 100% achieved and 0% remaining |
| Aggregation.AchievedMonotone | aop-system/public/script.js:528 | more actual progress never shows a lower percentage |
| Aggregation.ExampleRow | aop-system/public/script.js:526-529 | targets 10,10,10,10 and actuals 5,5,5,10 give 40, 25, 63% and 37% |
| Aggregation.ZeroTarget | aop-system/public/script.js:528-529 | no target total gives 0% achieved and 100% remaining |
| Aggregation.SumsConcat | aop-system/public/script.js:438-439 | target, actual and cost sums are additive over concatenated row lists |
| Aggregation.SumsOfSingleRow | aop-system/public/script.js:438-439 | the sums of a single row are its own totals |
| Aggregation.ExampleSubtotal | aop-system/public/script.js:663 | costs 1000 and 2500 subtotal to 3500 |
| Aggregation.SubtotalCoversEachRow | aop-system/public/script.js:663 | with non-negative costs the subtotal is at least every row's cost |
| Aggregation.SubtotalNonNegative | aop-system/public/script.js:663 | with non-negative costs the subtotal is non-negative |
| Aggregation.RecordLines | aop-system/public/script.js:436-441 | one line per plan, the most recently appended first |
| Aggregation.OverviewCards | aop-system/public/script.js:521-533 | the cards are exactly those of plans with rows, from each one's first row and row count, and never more than the plans (the subtotal `loadDashboard` computes at line 531 is never shown, so cards do not carry it) |
| Aggregation.OverviewCardsSingle | aop-system/public/script.js:521-523 | one plan gives one card when it has rows and none otherwise |
| Aggregation.OverviewCardsConcat | aop-system/public/script.js:521 | cards follow the stored order: the overview of `a + b` is the overview of `a` followed by that of `b` |
| Aggregation.DetailOf | aop-system/public/script.js:657-663 | definition (the `Figures` lemmas state the promise): the figures of every row of the plan, in order |
| Aggregation.PlanDetails | aop-system/public/script.js:640-644 | definition by cases: "not found" exactly for an unknown id or a plan without rows; otherwise the first such plan's details |

## Left out

- The DOM, page switching, toasts, the loading overlay, `setTimeout` delays, Chart.js drawing, printing and date formatting: these are presentation. The model keeps only the values they display.
- `moveRow` does nothing in the source (aop-system/public/script.js:271), so it has no counterpart here.
- Local storage serialisation (`JSON.stringify`/`JSON.parse` of `aop_plans`): the stored list is a value of the model. A stored list that fails to parse is not modelled.
- Clocks, `Date.now()`-based ids, random upload file names and the browser's chosen file: these are parameters (`now`, `newId`, `id`, `filename`, `chosenFile`).
- Model ids stand for well-formed ObjectIds. An id that is not one makes `findById` throw: `PUT` then answers 400 (aop-system/routes/plans.js:109-110), `GET /:id` and `DELETE` answer 500 (aop-system/routes/plans.js:53-54, 119-120). The model answers 404 and "Deleted" for every unmatched id.
- PlanForm.Shown decodes entities only. The HTML parser's CR-to-LF normalisation and the line breaks a text input drops are not modelled, so the read-back lemmas (`PlanForm.ShownTrimmed`, `PlanForm.LoadedFormReadsBack`, `PlanForm.UnchangedEditRenumbersRows`) hold for texts without CR, and without LF in single-line fields. Every text the form itself saves is of that kind.
- Authentication (`authMiddleware`, `createdBy`), the 500 answers of failed database calls, the upload directory and multer's disk storage: this is I/O outside the core.
- multer's limits: the 10 MB size, `maxCount: 1`, and the refusal of fields other than `file_row_1` … `file_row_50`. An entry is modelled as its field name and the first file's stored name.
- Concurrency: two simultaneous creations can read the same highest number in the pre-save hook; the model runs one request at a time.
- Figures are whole numbers: `parseFloat` of fractional input is left out, and so is `parseInt` beyond 2^53.
- Aggregation.RoundedPercent: the source divides in doubles and then multiplies by 100, so at some exact halves the quotient falls just below .5 and the source shows one less than the model (23 of 40: 57 in the source, 58 here; also 41/40, 51/40, 29/200). The model rounds the exact quotient; IEEE double arithmetic is not modelled.
- Values of other JavaScript types (a number where a text is expected, a `rows` field that parses to something other than a row list) are left out: the model's rows are typed.
- The order `sort({createdAt: -1})` gives plans with equal `createdAt` is unspecified in the source. `ServerStore.NewestFirst` promises only newest-first order and a permutation.
- `ServerStore.PlanCollection.Delete`: `findByIdAndDelete` removes one document; under the collection invariant (unique ids) that is the filter by id the model states.
- Row arrays that the server mutates in place through `row.proofFile = …` and `{...newRow}` are sequences, except in `Uploads.ApplyFiles`, which works in place on an array. Aliasing between a submitted array and other references is not modelled.
- Error message texts other than "Deleted" are not modelled; refusals are the `ApiError` and `FormError` values.
- PlanSchema.CastRow: a row field sent as JSON `null` is not modelled. Mongoose applies a path's default only to an absent (undefined) value, so it would keep `null` where the model's absent field gets the default.
- LocalStore.LocalPlanStore.SavePlan: `savePlan` reads the clock twice (aop-system/public/script.js:341-342), so `createdAt` and `updatedAt` can differ by a tick. The model takes one `now` for both.
