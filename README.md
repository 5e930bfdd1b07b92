# CBR anxiety scorer — a Dafny model

This project models the scoring core of a case-based-reasoning (CBR) web app. The app scores a patient's anxiety disorder from a checklist of symptoms. It has three parts:

- **Domain table.** Three diseases: P1 (generalized anxiety disorder), P2 (panic disorder) and P3 (specific phobias). Twenty-seven symptoms, G01–G27, each with a small integer weight per disease. The fixed denominators are 14, 26 and 20.
- **Live similarity.** For each disease, the weight of the selected symptoms divided by that disease's denominator.
- **Case base.** Two seed cases (CASE-001 and CASE-002) plus every retained case. A stored case keeps frozen `weights`, a `denom`, a snapshot of the three live ratios, and one comparison per case that existed when it was retained.

The prediction ranks every disease and every stored case:
- by ratio;
- then by matched weight;
- then a case before a disease;
- then by enumeration order.

It takes the first. The user can:
- toggle symptoms;
- reset the selection;
- retain the selection as a new case (labelled with the prediction);
- reuse a stored case's symptoms;
- remove a case.

On mount, the stored case base is loaded and merged with the seeds.

The modules follow the program's layers:
- `Wrappers`: `Option`.
- `JsSet`: a JavaScript `Set` of strings, as a duplicate-free sequence in insertion order.
- `JsObject`: a plain object, as a list of entries in insertion order.
- `DomainTable`: diseases, symptoms, `getSymptom` and `DENOM`.
- `Similarity`: `computeSimilarityPerDisease`.
- `CaseRecord`: stored records, `computeCaseToCaseSimilarity` and `computeAssignedForCase`.
- `CaseId`: `formatCaseId`.
- `Ranking`: the `predicted` memo.
- `CaseBase`: the seeds, loading, retaining and removing, and the `App` class holding the component state, with one method per action.
- `SeedExamples`: the seed cases and a tie, worked through the model.

Where the source computes with a loop, there is a method with that loop, proved equal to a recursive specification function. Properties are proved about those functions:
- `ComputeSimilarityPerDisease`
- `ComputeCaseToCaseSimilarity`
- `ComputePrediction`
- `BuildWeights`
- `BuildComparisons`
- `App.Load`

Behaviour that follows from the code rather than from the app's written description:
- **The prediction always exists.** Three disease candidates are always ranked.
- **Empty selection.** With nothing selected, every candidate ties at 0. With stored cases, the first stored case wins and its stored result is predicted. With no cases, P1 is predicted.
- **`denom` fallback.** A stored `denom` of 0, or a missing one, falls back to the sum of the case's weights.
- **Failed write-back on load.** If writing the merged case base back to storage throws during loading, the handler resets the case base to the two seeds, dropping every loaded record for the session.
- **Ids can repeat.** Retained ids are `CASE-` and the case count plus one, so an id can come back after a removal.
- **Seed snapshots.** CASE-002's stored P2 snapshot (0.3461538 ≈ 9/26) does not match what its symptoms give (10/26). CASE-001's snapshot matches to the printed precision.
- **Seed weights.** The seeds' frozen weights are hand-entered values, not the result-disease weights that retaining would compute.
- **Label on ties.** The label a retained record is displayed under can differ from its stored result when two diseases tie. The prediction breaks the tie on matched weight; the display breaks it on key order.

## Model

| member | source | states |
|---|---|---|
| JsSet.Add | src/App.jsx:245 | `next.add(code)`: the members become the old ones plus the code, the old order stays as a prefix, and no duplicate appears |
| JsSet.Delete | src/App.jsx:244 | `next.delete(code)`: the members become the old ones except the code, and no duplicate appears |
| JsSet.DeleteAppend | src/App.jsx:244 | deleting keeps the order of the other members: it distributes over concatenation |
| JsSet.FromArray | src/App.jsx:321 | `new Set(array)`: duplicate-free with the array's members, and the array itself when it has no duplicate |
| JsSet.FromArraySnoc | src/App.jsx:321 | building a `Set` from an array with one more element at the end is adding that element |
| JsSet.KeepIn | src/App.jsx:121 | `filter` by key membership keeps exactly the selected codes that are keys, and no duplicate appears |
| JsSet.KeepInAppend | src/App.jsx:121 | the filter keeps the selection order of the kept codes: it distributes over concatenation |
| JsSet.KeepInDisjoint | src/App.jsx:121 | when no selected code is a key, the intersection is empty |
| JsObject.Get | src/App.jsx:126 | `o[k]` is present exactly when k is a key, and then it is the value stored under k |
| JsObject.GetEntry | src/App.jsx:193 | in an object with distinct keys, every entry's key reads back that entry's value |
| JsObject.PutKeys | src/App.jsx:191 | `o[k] = v` keeps the existing keys in order and appends k only when it is new |
| JsObject.PutGet | src/App.jsx:191 | after `o[k] = v`, k reads v and every other key reads as before |
| JsObject.PutNewKey | src/App.jsx:270 | assigning a new key appends its entry at the end |
| JsObject.SumSnoc | src/App.jsx:272 | the `reduce` sum of the values grows by the value of an appended entry |
| JsObject.PutReplaceSum | src/App.jsx:270-272 | reassigning an existing key changes the sum by the difference between the new and old value |
| JsObject.SumWhereBounded | src/App.jsx:131 | with non-negative values, the sum over any set of keys lies between 0 and the sum of all values |
| DomainTable.DiseaseOf | src/App.jsx:9-13 | a code names a disease exactly when it is P1, P2 or P3, and that disease's code is the code |
| DomainTable.GetSymptom | src/App.jsx:52 | the symptom found is a table row with the code; no result means no row has the code |
| DomainTable.CodesAreNumbered | src/App.jsx:19-47 | the table has 27 rows, and row i is G(i+1), so codes are distinct |
| DomainTable.DenomIsColumnTotal | src/App.jsx:19-59 | each fixed denominator (14, 26, 20) is the column sum of the table for its disease |
| DomainTable.ColumnFacts | src/App.jsx:19-59 | a disease's column has distinct keys and non-negative weights, sums to its denominator, and looking up a code gives its table weight (0 when unknown) |
| Similarity.RatioBounded | src/App.jsx:105-107 | a matched weight between 0 and a positive total gives a ratio in [0, 1], equal to 1 exactly when matched equals total |
| Similarity.ComputeSimilarityPerDisease | src/App.jsx:92-109 | the numerator loop, skipping unknown codes, and the division by the fixed denominators give the per-disease specification |
| Similarity.MatchedIsSelectedColumnSum | src/App.jsx:96-102 | for a duplicate-free selection, a disease's numerator is the sum of its table weights over exactly the selected codes |
| Similarity.DiseaseRatioBounded | src/App.jsx:92-109 | for a duplicate-free selection, 0 <= matched <= total and the ratio is in [0, 1] for every disease |
| Similarity.WholeTableScoresOne | src/App.jsx:92-109 | selecting every symptom of the table scores exactly 1 for every disease |
| CaseRecord.Truthy | src/App.jsx:118 | `s \|\| null`: an empty string becomes missing and any other string is kept |
| CaseRecord.ComputeCaseToCaseSimilarity | src/App.jsx:116-135 | the intersection and summing loop with the `denom`-or-weight-sum total give the case-similarity specification, including the all-zero result when the case has no weights |
| CaseRecord.CaseMatchedIsSelectedWeightSum | src/App.jsx:120-129 | only selected codes that are weight keys contribute: matched is the case's weight sum over the selected codes |
| CaseRecord.CaseScoresZeroWithoutOverlap | src/App.jsx:118-132 | a case without weights, or one with no selected weight key, scores 0 |
| CaseRecord.CaseRatioBounded | src/App.jsx:131-132 | with non-negative weights and a denominator of 0 or at least the weight sum, the ratio is in [0, 1] |
| CaseRecord.SelfSimilarity | src/App.jsx:116-135 | a case whose weight keys are all selected and whose denominator is its positive weight sum (given or recomputed) scores exactly 1 |
| CaseRecord.FirstMaxIndex | src/App.jsx:153-154 | the entry a stable descending sort puts first: no entry is larger, and every earlier entry is smaller |
| CaseRecord.AssignedFromSnapshot | src/App.jsx:150-157 | a non-empty snapshot gives its highest entry, the first one on ties |
| CaseRecord.AssignedFromSymptoms | src/App.jsx:160-169 | without a snapshot, recorded symptoms give the disease with the highest recomputed ratio, the earliest of P1, P2, P3 on ties |
| CaseRecord.AssignedFallback | src/App.jsx:172 | with neither, the stored result (or "-" when missing or empty) at ratio 0 |
| CaseId.Decimal | src/App.jsx:139 | `String(n)`: at least one digit, all digits, and at most 1/2/3 digits below 10/100/1000 |
| CaseId.PadStart | src/App.jsx:139 | `padStart(width, "0")`: the result is zeros followed by the string, as long as the larger of the string's length and the width |
| CaseId.PadKeepsValue | src/App.jsx:139 | padding a string of digits with zeros keeps it all digits and keeps the number it denotes |
| CaseId.DecimalRoundTrip | src/App.jsx:139 | reading back the digits of `String(n)` gives n |
| CaseId.FormatCaseIdRoundTrip | src/App.jsx:138-140 | an id is `CASE-` and at least three digits that read back as count + 1, eight characters long below 999 cases |
| CaseId.FormatCaseIdInjective | src/App.jsx:138-140 | different counts give different ids |
| Ranking.PickIndex | src/App.jsx:229-237 | the candidate a stable sort with the comparator puts first: nothing outranks it, and it outranks every earlier candidate |
| Ranking.ComputePrediction | src/App.jsx:216-238 | pushing the disease candidates and then one per case, and taking the first after sorting, gives `Predict` |
| Ranking.CandidatesLayout | src/App.jsx:219-226 | the candidates are the three diseases in order P1, P2, P3, then one per case in case-base order |
| Ranking.PredictIsBest | src/App.jsx:229-237 | the prediction is a candidate with the highest ratio, the most matched weight among those, a disease only when no case ties it on both, and it outranks every candidate enumerated before it |
| Ranking.EmptySelectionScoresZero | src/App.jsx:216-226 | with nothing selected, every candidate has ratio 0 and matched 0 |
| Ranking.EmptySelectionPicksFirstCase | src/App.jsx:229-237 | with nothing selected and a non-empty case base, the first case is predicted, under its stored result |
| Ranking.EmptySelectionWithoutCasesPicksP1 | src/App.jsx:229-237 | with nothing selected and no cases, P1 is predicted at ratio 0 |
| Ranking.SoleBest | src/App.jsx:229-237 | a candidate that outranks every other one is the one the sort puts first |
| Ranking.BestCaseIsPredicted | src/App.jsx:216-238 | a stored case scoring above every disease, and above or with more matched weight than every other case, is predicted under its stored result and id |
| CaseBase.LastWithId | src/App.jsx:190-191 | the record `map[id]` holds after the first pass: present exactly when some loaded record has the id, and then a loaded record with that id that no later loaded record shares |
| CaseBase.FirstWithId | src/App.jsx:192-194 | the seed the second pass adds under an id: present exactly when some seed has the id, and then a seed with that id that no earlier seed shares |
| CaseBase.PutRecordsShape | src/App.jsx:190-191 | the first pass keys every record by its id, with the loaded ids once each in first-seen order, each holding the last loaded record with that id |
| CaseBase.MergeShape | src/App.jsx:184-205 | merged ids are the loaded ids followed by the absent seed ids, each once; a loaded id holds the last loaded record with it, any other a seed |
| CaseBase.LoadEmpty | src/App.jsx:184-205 | nothing stored (or a read or parse failure), an empty list stored, or a failed write-back of the merged case base gives exactly the two seeds |
| CaseBase.LoadedIdsDistinct | src/App.jsx:184-205 | every loaded case base has distinct ids and contains both seed ids |
| CaseBase.RemoveById | src/App.jsx:324-330 | the records kept are exactly those whose id differs, and none are added |
| CaseBase.RemoveByIdAppend | src/App.jsx:326 | removing keeps the order of the remaining records |
| CaseBase.RemoveByIdAbsent | src/App.jsx:326 | removing an id no record has changes nothing |
| CaseBase.RemoveByIdIdempotent | src/App.jsx:324-330 | removing the same id twice is removing it once |
| CaseBase.RemoveByIdCount | src/App.jsx:324-330 | with distinct ids, removing a present id drops exactly one record |
| CaseBase.RemovedStaysRemoved | src/App.jsx:324-330 | a removed record that is not a seed is not brought back by the next load when the removal was written to storage, whether or not the load's own write-back fails |
| CaseBase.UnwrittenRemovalReturns | src/App.jsx:324-330 | when writing the removal fails, storage keeps the old list and the next load (with a successful write-back) brings the record back |
| CaseBase.RemovedSeedReturns | src/App.jsx:324-330 | a removed seed is put back by the next load, whether or not its write-back fails |
| CaseBase.NewRecordParts | src/App.jsx:258-309 | a retained record's id is `formatCaseId` of the case count, its result the prediction's label, its scores the live ratios, and its comparisons the disease entry followed by the case entries |
| CaseBase.RetainWeightsKeys | src/App.jsx:266-271 | the retained weights have exactly the selected codes as keys, in selection order |
| CaseBase.RetainWeightsGet | src/App.jsx:266-271 | each selected code holds its table weight for the predicted disease; unselected codes are absent; no weight is negative |
| CaseBase.RetainWeightsSum | src/App.jsx:266-272 | for a duplicate-free selection, the retained weights sum to the predicted disease's numerator |
| CaseBase.RetainWeightsZero | src/App.jsx:266-272 | without a predicted disease code, every retained weight is 0 and so is their sum |
| CaseBase.RetainedDenom | src/App.jsx:272 | `denom` is the predicted disease's numerator, or 0 when the prediction names no disease |
| CaseBase.RetainedMatchesItself | src/App.jsx:258-309 | compared with its own selection, a retained record with positive `denom` scores 1, with matched equal to `denom` |
| CaseBase.RetainedComparisons | src/App.jsx:277-298 | the comparisons are the disease entry, then one entry per existing case in order, with that case's id, ratio, matched, total and label |
| CaseBase.LiveWinnerIsPeak | src/App.jsx:216-238 | a disease prediction carries the highest of the three disease ratios |
| CaseBase.SnapshotPeak | src/App.jsx:150-157 | a snapshot of the three ratios is shown at its peak ratio |
| CaseBase.RetainedLabelRatio | src/App.jsx:275 | when a disease is predicted, the retained record is later shown at the predicted ratio |
| CaseBase.RemoveRetained | src/App.jsx:311-330 | when no existing record already has the new id, removing the record just retained gives back the case base it was added to (otherwise the filter also drops the older record with that id) |
| CaseBase.SeedIds | src/App.jsx:138-140 | the seed ids are the ids `formatCaseId` gives the first and second case |
| CaseBase.IdRepeatsAfterRemoval | src/App.jsx:259-330 | after a record other than the newest is removed, the next retained record gets the newest record's id again |
| CaseBase.ToggleTwice | src/App.jsx:241-248 | toggling a code twice restores the set of selected codes |
| CaseBase.Toggled | src/App.jsx:241-248 | toggling flips the code's membership, keeps every other code, and keeps the selection duplicate-free |
| CaseBase.App.constructor | src/App.jsx:179-180 | the component starts with an empty selection and an empty case base |
| CaseBase.App.Load | src/App.jsx:184-205 | the two passes over a map give the merged case base, replaced by the seeds when writing it back throws; the selection is unchanged and stays duplicate-free |
| CaseBase.IdsOfValues | src/App.jsx:195 | `Object.values` of a map keyed by id lists the records in key order, so their ids are the keys |
| CaseBase.App.Toggle | src/App.jsx:241-248 | the selection becomes the toggled selection and stays duplicate-free; the case base is unchanged |
| CaseBase.App.Reset | src/App.jsx:250-253 | the selection becomes empty; the case base is unchanged |
| CaseBase.App.Retain | src/App.jsx:258-318 | exactly one new record is put in front of the unchanged case base; the selection is unchanged |
| CaseBase.App.Reuse | src/App.jsx:320-322 | the selection becomes the record's symptoms, duplicate-free, or empty when it has none; the case base is unchanged |
| CaseBase.App.RemoveCase | src/App.jsx:324-330 | the case base becomes the records whose id differs, in order; the selection is unchanged |
| CaseBase.ReuseRestoresSelection | src/App.jsx:300-322 | reusing a retained record restores the duplicate-free selection it was retained from |
| CaseBase.BuildWeights | src/App.jsx:266-271 | the weights loop gives the retained-weights specification |
| CaseBase.BuildComparisons | src/App.jsx:277-298 | the comparisons loop gives the disease entry followed by one comparison per case, in order |
| SeedExamples.Case001Similarity | src/App.jsx:65-74 | CASE-001's symptoms score 5/14, 8/26 and 13/20 |
| SeedExamples.Case001Scores | src/App.jsx:72 | CASE-001's stored snapshot agrees with those ratios to within 1e-9 |
| SeedExamples.Case002Similarity | src/App.jsx:75-84 | CASE-002's symptoms score 3/14, 10/26 and 11/20 |
| SeedExamples.Case002Scores | src/App.jsx:82 | CASE-002's stored P1 and P3 agree with the recomputed ratios, while its P2 is about 9/26, more than 0.03 below 10/26 |
| SeedExamples.Case001PredictsP3 | src/App.jsx:216-238 | with no stored cases, CASE-001's symptoms predict P3 at 13/20 |
| SeedExamples.Case001AgainstSeedsPredictsItself | src/App.jsx:216-238 | against the seed case base, CASE-001's symptoms predict the case CASE-001 itself, at 100%, under its stored result P3 |
| SeedExamples.TiePredictsP2 | src/App.jsx:229-237 | a selection tying P1 and P2 at 0.5 predicts P2, which has more matched weight |
| SeedExamples.TieRetainedUnderOtherLabel | src/App.jsx:258-309 | retaining that selection stores result P2, but the record is shown as P1 at 0.5 |
| SeedExamples.HalfAndHalfShownAsP1 | src/App.jsx:150-157 | a snapshot tying P1 and P2 is shown under P1, the first key |

## Left out

- Rendering: the JSX tree, the expanded-row state (`expandedCaseId`), `diseaseName` and `fmtPct` only affect display and are not modelled. The `caseSims` memo is computed but never read, so it is not modelled either.
- Storage I/O:
  - `localStorage` reads and `JSON.parse` are modelled as the `stored` parameter of `Load` (`None` for nothing stored or a failure).
  - Whether the load effect's write-back throws is the `writeFails` parameter of `Load`. The write itself is not modelled, nor is the write in `removeCase` and `retain`, whose exceptions are swallowed and leave the state as set. A failed write in `removeCase` leaves the old list in storage, so the next load restores the removed record (`UnwrittenRemovalReturns`); `RemovedStaysRemoved` covers only a removal that was written.
  - The "Clear Case Base" button (confirm dialog, removal, page reload) is not modelled.
  - A stored value that parses to something other than an array of records is not modelled.
- `createdAt`: a clock read with no logic attached, so it is left out of the record.
- Numbers: JavaScript's IEEE doubles are modelled as exact rationals (`real`). The seed snapshots are taken as the given decimal values. Weights are assumed to be numbers; the `|| 0` guards against other values are not modelled.
- Sorting: only the first element of each sort is used, so the model states which element a stable sort puts first, not the whole sorted order.
- Object keys are assumed to be non-numeric strings (symptom codes, disease codes and case ids). Insertion order then applies, and numeric-key ordering and prototype-named keys are not modelled.
- The Retain button is disabled while nothing is selected. That is a UI rule, so `App.Retain` accepts any selection.
- CaseBase.ToggleTwice: states only that toggling twice restores the selected codes as a set, because a re-added code moves to the end of the `Set`.
