# Resume Parser: evaluation metrics and dataset conversion

This project models the two pure pieces of logic in the Resume Parser's
benchmark scripts and proves properties of them:

- **`evaluate.py`** — the skills F1 score (`calculate_f1`), the binary name
  match, and the way `run_evaluation` adds the per-file scores and averages
  them. The loop is modelled as a fold over per-item outcomes,
  `Success(f1, nameScore) | Failure`. A failure is an item whose `try` block
  raised.
- **`prepare_dataset.py`** — `convert_dataturks_to_schema`. It turns one
  DataTurks-annotated resume into the ground-truth record the evaluation
  reads.

Modules:

| module | file | contents |
|---|---|---|
| `Text` | text.dfy | The Python `str` operations used: `lower()`, `strip()`, `replace("\n", " ")`, `a in b`, and `s[lo:hi]`. |
| `Optional` | optional.dfy | `Option`. |
| `Schema` | schema.dfy | The ground-truth record, the scored part of a prediction, and a JSON key's three states. |
| `SkillsF1` | skills_f1.dfy | `calculate_f1`, its matching loops, its arithmetic, and its properties. |
| `NameMatch` | name_match.dfy | The name score. |
| `Evaluation` | evaluation.dfy | Discovery, the scoring of one item, the accumulation loop, and the report. |
| `PrepareDataset` | prepare_dataset.dfy | `convert_dataturks_to_schema`. |

All arithmetic is on `real`. Every score is a ratio of naturals, so exact
rationals give what the floating-point code computes up to rounding.

**The skills score is not bounded by 1.** Several predicted skills may be
matched against the same ground-truth skill (evaluate.py:20-24). So the
number of matches is bounded by the number of predicted skills, but not by
the number of ground-truth skills, and recall can exceed 1. Take ground truth
`["java developer"]` and prediction `["java", "developer"]`. Both predicted
skills match, recall is 2, and the score is 4/3. The model follows the code,
and proves these facts about the score:

- It equals 2·m/(|P|+|T|) whenever the ground truth is not empty.
- It lies in [0, 2).
- It is at most 1 whenever the matches do not outnumber the ground truth.

An F1 score is usually bounded by 1; this one is not.

## Model

| member | source | states |
|---|---|---|
| Text.Lower | evaluate.py:13-14 | Lower-casing keeps the length, leaves no capital letter, maps each capital to its small letter, and keeps every other character. |
| Text.TrimStart | evaluate.py:13-14 | `lstrip()` never lengthens its argument, and what it returns does not start with whitespace. |
| Text.TrimStartSuffix | evaluate.py:13-14 | `lstrip()` returns a suffix of its argument and drops only whitespace. |
| Text.TrimEnd | evaluate.py:13-14 | `rstrip()` never lengthens its argument, and what it returns does not end with whitespace. |
| Text.TrimEndPrefix | evaluate.py:13-14 | `rstrip()` returns a prefix of its argument and drops only whitespace. |
| Text.Strip | prepare_dataset.py:39 | The result of `strip()` is no longer than its input and has no whitespace at either end. |
| Text.StripSlice | prepare_dataset.py:39 | The result of `strip()` is the contiguous piece of the input whose margins on both sides are whitespace only. |
| Text.StripMembers | prepare_dataset.py:39 | `strip()` introduces no character that was not in its input. |
| Text.StripTrimmed | evaluate.py:13-14 | A string with no whitespace at either end is its own `strip()`. |
| Text.StripIdempotent | evaluate.py:13-14 | Stripping twice is stripping once. |
| Text.StripPadded | evaluate.py:13-14 | Whitespace added on either side of a string does not survive `strip()`. |
| Text.ReplaceNewlines | prepare_dataset.py:39 | Replacing line feeds keeps the length, turns every line feed into a space, leaves no line feed, and keeps every other character in place. |
| Text.IsSubstring | evaluate.py:22 | The scan answers true exactly when the needle occurs in the haystack at some position. |
| Text.EmptyIsSubstring | evaluate.py:69 | The empty string is in every string. |
| Text.SliceBound | prepare_dataset.py:37 | A slice bound within `0..n` is kept, one above `n` becomes `n`, a negative one counts from the end, and one below `-n` becomes 0. |
| Text.PySlice | prepare_dataset.py:37 | `s[lo:hi]` is the plain sub-sequence for bounds in range, is empty for a reversed range, and counts from the end for a negative start. |
| Text.PySliceClamps | prepare_dataset.py:37 | `s[lo:hi]` is the sub-sequence between the adjusted bounds, or empty when they cross. An end beyond the string stops at its end, a negative end counts from the end, and an end at or before the string's start gives "". |
| SkillsF1.Norm | evaluate.py:13-14 | A normal form is no longer than the skill and has no whitespace at either end. |
| SkillsF1.NormIsLowered | evaluate.py:13-14 | A normal form contains no capital letter. |
| SkillsF1.NormIdempotent | evaluate.py:13-14 | Normalising a normal form changes nothing. |
| SkillsF1.NormSet | evaluate.py:13-14 | The set holds the normal form of every entry. It has no more elements than the list has entries, and it is empty exactly for the empty list. |
| SkillsF1.NormSetCons | evaluate.py:13-14 | Prepending an entry adds exactly its normal form to the set. |
| SkillsF1.MatchCount | evaluate.py:19-24 | The number of matched predicted skills is at most the number of predicted skills, and is positive only when the ground truth is not empty. |
| SkillsF1.FindPartner | evaluate.py:21-24 | The inner loop stops with `found` exactly when some ground-truth skill contains the predicted one or is contained in it. |
| SkillsF1.CountMatches | evaluate.py:19-24 | The nested loops count exactly the predicted skills that have a partner, whatever order the sets are visited in. The count is at most the number of predicted skills. |
| SkillsF1.Precision | evaluate.py:26 | Precision lies in [0, 1] and is 0 exactly when nothing matched. |
| SkillsF1.Recall | evaluate.py:27 | Recall is non-negative, 0 exactly when nothing matched, and above 1 exactly when the matches outnumber the ground truth. |
| SkillsF1.ScoreOfCounts | evaluate.py:16-30 | The guarded harmonic mean is 0 for an empty ground truth, and otherwise equals 2m/(np+nt). It is positive exactly when something matched, below 2, and at most 1 when m ≤ nt. |
| SkillsF1.ClosedFormBounds | evaluate.py:26-30 | 2m/(np+nt) is positive exactly when m > 0, below 2, and at most 1 when m ≤ nt. |
| SkillsF1.HarmonicMeanOfRatios | evaluate.py:29-30 | The harmonic mean of m/a and m/b is 2m/(a+b). |
| SkillsF1.CalculateF1 | evaluate.py:8-30 | The score is 0 for an empty normalised ground truth, and otherwise the closed form over the normalised sets. It is positive exactly when a predicted skill matched, and lies in [0, 2). |
| SkillsF1.EmptyTruthScoresZero | evaluate.py:16 | An empty ground-truth list scores 0, whatever is predicted. |
| SkillsF1.EmptyPredictionScoresZero | evaluate.py:26-29 | An empty prediction scores 0. |
| SkillsF1.F1DependsOnlyOnNormSets | evaluate.py:13-14 | Lists with the same normalised sets get the same score. |
| SkillsF1.NormIgnoresCase | evaluate.py:13-14 | Lower-casing a skill beforehand does not change its normal form. |
| SkillsF1.NormIgnoresPadding | evaluate.py:13-14 | Whitespace around a skill does not change its normal form. |
| SkillsF1.NormSetOfVariants | evaluate.py:13-14 | Lists whose entries normalise pairwise alike have the same normalised set. |
| SkillsF1.VariantsKeepScore | evaluate.py:13-14 | Replacing entries of either list by case or whitespace variants leaves the score unchanged. |
| SkillsF1.DuplicateKeepsScore | evaluate.py:13-14 | Appending a duplicate, or a variant of a predicted skill already present, leaves the score unchanged. |
| SkillsF1.PythonSqlExample | evaluate.py:13-30 | Ground truth ["Python", "SQL"] against ["python"] has one match and scores 2/3. |
| SkillsF1.ReusedTruthExceedsOne | evaluate.py:20-30 | Ground truth ["java developer"] against ["java", "developer"] has more matches than ground-truth skills and scores 4/3. |
| NameMatch.NameScore | evaluate.py:67-69 | The name score is 0 or 1. It is 1 exactly when one lower-cased name occurs in the other. |
| NameMatch.NameScoreSymmetric | evaluate.py:69 | Swapping the names never changes the score. |
| NameMatch.EmptyPredictionScoresOne | evaluate.py:68-69 | An empty or missing predicted name scores 1. |
| NameMatch.CaseVariantScoresOne | evaluate.py:67-69 | Names that differ only in letter case score 1. |
| NameMatch.JohnSmithExample | evaluate.py:67-69 | "John Smith" against "john" scores 1. |
| NameMatch.JaneJohnExample | evaluate.py:67-69 | "Jane" against "John" scores 0. |
| Evaluation.TxtFiles | evaluate.py:35 | The discovered files are the listed names ending in `.txt`, each as many times as it is listed, and no other names. |
| Evaluation.ScoreItem | evaluate.py:56-76 | An item fails exactly when the extraction raised or returned `null` for `skills` or `full_name`. Otherwise it carries a non-negative F1 and a name score of 0 or 1. A missing skills key or an empty ground truth gives F1 0, and a missing or empty name gives name score 1. |
| Schema.Key.Get | evaluate.py:64-68 | `d.get(key, default)` yields the default for a missing key, the value for a present one, and Python's `None` exactly for a `null` one. |
| Evaluation.Total | evaluate.py:71-72 | The sum over no items is 0, and it is never negative when no term is. |
| Evaluation.Failures | evaluate.py:74-76 | Failures never outnumber the items, and they equal the items exactly when every item failed. |
| Evaluation.FailureCount | evaluate.py:74-76 | The number of `Failure` items in the multiset is at most the item count, and equals it exactly when every item failed. |
| Evaluation.Aggregate | evaluate.py:37-93 | There are no results exactly when every item failed. Otherwise the file count is the item count less the failures, and each average times that count is the sum of the corresponding scores. |
| Evaluation.RunEvaluation | evaluate.py:37-93 | The accumulating loop and the guarded division produce the aggregate report. |
| Evaluation.TotalAppend | evaluate.py:71-72 | The sum over a concatenation is the sum of the two sums. |
| Evaluation.TotalPermutation | evaluate.py:43-72 | The sums do not depend on the order of the items. |
| Evaluation.AggregateOrderIndependent | evaluate.py:43-86 | Processing the items in any order gives the same report. |
| Evaluation.FailureIsolation | evaluate.py:74-76 | A failed item affects neither sum, and the report equals the report without it. |
| Evaluation.ReportBounds | evaluate.py:84-86 | For well-formed items, the name accuracy lies in [0, 1] and the average F1 is non-negative. |
| Evaluation.ThreeItemExample | evaluate.py:37-86 | F1 0.8, a failure, and F1 0.4 (names matched) report two files, name accuracy 1 and F1 0.6. |
| PrepareDataset.SliceLoop | prepare_dataset.py:31-37 | Only the last point's slice `content[start:end+1]` survives the loop, and an entity without points keeps the initial "". |
| PrepareDataset.Clean | prepare_dataset.py:39 | A cleaned segment has no line feed and no whitespace at either end. |
| PrepareDataset.EntityText | prepare_dataset.py:30-39 | An entity's segment is clean, and it is "" when the entity has no points. |
| PrepareDataset.LastSpan | prepare_dataset.py:34-37 | When the last point lies inside the content, the loop yields exactly `content[start..end+1]`. |
| PrepareDataset.InRangeSpan | prepare_dataset.py:34-39 | When the last point lies inside the content, the segment is that inclusive span, cleaned. |
| PrepareDataset.Route | prepare_dataset.py:42-49 | A segment routed to the full name or the email overwrites that field. One routed to skills or education is appended to that list. Every other field keeps its value, and the work experience is never touched. |
| PrepareDataset.ApplyAll | prepare_dataset.py:28-49 | The loop over the annotation only appends to the two lists, keeping their old entries as a prefix, and never touches the work experience. |
| PrepareDataset.Segments | prepare_dataset.py:28-49 | The segments routed to one field number at most the entities, and every one of them is clean. |
| PrepareDataset.FieldOf | prepare_dataset.py:42-49 | "Name" goes to the full name, "Email Address" to the email, "Skills" to skills, and "Degree" or "College Name" to education. |
| PrepareDataset.ConvertDataturksToSchema | prepare_dataset.py:11-51 | The result is `None` exactly when some entity has no label. Otherwise: the content is returned unchanged and work experience is empty. Skills and education list the segments routed to them, in annotation order. Full name and email hold the segment of the last entity routed to them, or "". Every stored segment is clean. |
| PrepareDataset.ApplyAllList | prepare_dataset.py:28-49 | A list field grows by exactly the segments routed to it, in order. |
| PrepareDataset.ApplyAllKeepsWork | prepare_dataset.py:24-49 | The loop never touches the work experience. |
| PrepareDataset.ApplyAllLast | prepare_dataset.py:42-45 | A single-valued field holds the segment of the last entity routed to it, or its initial value when there is none. |
| PrepareDataset.ApplyAllStored | prepare_dataset.py:39-49 | Every segment the loop stores is clean. |
| PrepareDataset.ApplyAllAppend | prepare_dataset.py:28 | The loop over a concatenation continues from the loop over its first part. |
| PrepareDataset.OtherLabelIgnored | prepare_dataset.py:42-49 | An entity with any other label leaves the record unchanged. |
| PrepareDataset.UnknownEntityIgnored | prepare_dataset.py:28-51 | Removing an entity with an unknown label from anywhere in the annotation gives the same converted record. |

## Left out

- Directory listing, file reads, JSON parsing and writing (evaluate.py:35, 48-53; prepare_dataset.py:55-78) are filesystem I/O. `TxtFiles` takes the listing as a parameter.
- A missing ground-truth `.json` aborts the whole run, because the read is outside the `try`. The model assumes every item's ground truth could be read.
- `parse_resume` is an external model call whose code is not part of this model. Its result is a parameter of `ScoreItem`: `None` when it raised, otherwise the two keys the evaluation reads.
- `time.sleep(1)`: timing only.
- Console output, the percentage (`*100`) and the `:.2f`/`:.4f` rounding of the report: presentation only.
- `random.sample` and the module-level script of prepare_dataset.py: randomness and I/O.
- `base_name = filename.replace(".txt", "")` only names the JSON file to read, so it is part of the file I/O above.
- Text.Lower: lower-cases ASCII letters only, because full Unicode case mapping (which can change lengths) is outside the model.
- Floating point: scores are exact reals. The code's `precision + recall == 0` test agrees with the model, because both terms are non-negative.
- The ground-truth record is typed. A ground truth lacking `skills` or `full_name`, or holding a non-string there, would raise inside the `try`. That cannot happen to records written by `convert_dataturks_to_schema`, so it is not modelled.
- A DataTurks entity whose `label` list is empty makes the conversion raise. The model returns `None`. Missing `points`, `start` or `end` keys, and non-integer offsets, are excluded by the typed `Entity` and `Point`.
- Python's `a in b` on strings is modelled as a left-to-right scan (`Text.IsSubstring`), not as the CPython search algorithm. Only the answer matters.
