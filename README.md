# Restaurant recommendation core, modelled in Dafny

The backend answers two questions for a city. The first is which cuisines the
city is famous for. The second is which restaurants to recommend for a request
that gives an area, a budget band, a taste preference and, optionally, the
user's coordinates. This project models the decision logic behind both answers
and proves what it promises:

- **Famous foods** (`FamousFoods`, `famous_foods.dfy`). The input is the per-city
  cuisine aggregation: one row per cuisine, most popular first. The selection
  tries the must-show cuisines "Biryani", "South Indian", "Haleem", "Andhra" and
  "Cafe" in turn. For each one it takes the row with exactly that name if it is
  there and not yet chosen. Otherwise it takes the first unchosen row whose name
  contains the word, ignoring case. It then fills up with the remaining rows in
  popularity order until seven are chosen. The loops are methods. Each one is
  proved equal to a recursive specification (`MustPhase`, `Unchosen`, `Famous`),
  and the lemmas about that specification give the size, the provenance and the
  distinctness of the answer.
- **Candidate filters** (`Filters`, `filters.dfy`). The stages run in the order
  area, budget, taste. Each stage keeps its matching records, or hands its input
  on unchanged when none match.
  - The area stage is skipped for an empty area. Otherwise a record matches when
    its locality equals the area, ignoring case.
  - The budget stage is skipped when `budget_max >= 99999`. Otherwise it keeps
    `budget_min <= cost_for_two <= budget_max`, where a missing cost counts as
    500.
  - The taste stage keeps spice level "High" for a "spicy" preference and "Low"
    or "Medium" for any other preference.
- **Scoring** (`Scoring`, `scoring.dfy`). The score is
  `0.35·rating/5 + 0.30·max(0, 1 − d/20) + 0.20·budget + 0.15`. The budget term
  is 1.0, 0.7 or 0.4, depending on the distance of the cost from the middle of
  the band, and 0.8 for an open budget.
- **Ranking** (`Ranking`, `ranking.dfy`). One loop writes the distance into each
  candidate and another writes the score. An in-place, stable insertion sort
  then orders the candidates by score, highest first, and the first twenty are
  kept. The sort is proved equal to a reference sort, which is proved ordered, a
  permutation and stable.
- **Cuisine cleaning** (`ImportData`, `import_data.dfy`). The importer's
  `clean_cuisines` turns a missing cell into no cuisines. Any other cell is split
  at every comma and each piece is stripped. The string helpers it needs are in
  `Text`, `text.dfy`.

`Records` (`records.dfy`) holds the restaurant record and the request. Each key
the backend reads with a default (`r.get(key, default)`) is an `Option` field,
read through an accessor that supplies the same default.

Some choices in the code are easy to get wrong when reading it quickly; the
model follows the code in each:

- The famous-food selection puts the must-show list first; it is not a pure
  popularity sort, and there are no tie-breaks beyond the aggregation's order.
- The filters fall back to their input when nothing matches.
- Taste is judged by `spicy_level`, not by cuisine.
- The distance score divides by 20 km. Without GPS the distance written is
  0.0, so the distance score is full.
- The budget score is stepwise (1.0, 0.7, 0.4).
- The sort key is `ai_score` alone, with no tie-breaks. Equal scores keep the
  candidate order because the sort is stable.
- Twenty results are returned.

## Model

| member | source | states |
|---|---|---|
| `ImportData.CleanCuisines` | Backend/import_data.py:21-24 | A missing cell gives no cuisines. A present cell gives one cuisine more than it has commas, none containing a comma, none starting or ending with whitespace. |
| `ImportData.CleanCuisinesInOrder` | Backend/import_data.py:24 | The cuisines are, in order, the stripped pieces between the commas, and joining the pieces with commas gives back the cell exactly. |
| `ImportData.EmptyCellGivesOneEmptyPiece` | Backend/import_data.py:22-24 | A present but empty cell yields `[""]`, not `[]`. |
| `Text.Strip` | Backend/import_data.py:24 | `str.strip()` returns the contiguous part of the input from its first to its last non-whitespace character. It is empty exactly when the input is all whitespace, and everything cut off is whitespace. |
| `Text.Split` | Backend/import_data.py:24 | `str.split(',')` gives one piece more than there are separators, and no piece contains the separator. |
| `Text.JoinSplit` | Backend/import_data.py:24 | Joining the pieces of a split with the separator gives back the input. |
| `Text.SplitJoin` | Backend/import_data.py:24 | Splitting a join of separator-free pieces gives back the pieces. |
| `FamousFoods.Lookup` | Backend/main.py:107 | The name-to-row map: a row found has that name and is in the input, and no row is found only when no row has that name. |
| `FamousFoods.FirstMatch` | Backend/main.py:119-123 | The row found is unchosen and contains the word ignoring case, and every earlier row is chosen or does not contain it. Nothing is found only when every row is chosen or does not contain it. |
| `FamousFoods.PickSpec` | Backend/main.py:114-123 | A must-show word adds a row exactly when some unchosen row contains it. An unchosen exact name wins, and the row added is an unchosen input row that contains the word. |
| `FamousFoods.MustPhaseFacts` | Backend/main.py:111-123 | The must-show loop adds at most one row per word, only input rows, and never one cuisine twice. |
| `FamousFoods.UnchosenCount` | Backend/main.py:125-126 | With distinct names, the rows left after removing the chosen names number the rows minus the chosen names among them. |
| `FamousFoods.FamousFacts` | Backend/main.py:111-137 | The selection holds min(n, 7) of the n rows. All are input rows, no cuisine is chosen twice, and the must-show rows come first. |
| `FamousFoods.FillStep` | Backend/main.py:125-128 | One step of the fill-up loop appends the next row exactly when its name is unchosen and fewer than seven are chosen. |
| `FamousFoods.ScanForWord` | Backend/main.py:119-123 | The inner scan returns the first unchosen row containing the word, as `FirstMatch` specifies. |
| `FamousFoods.ChooseMustShow` | Backend/main.py:109-123 | The must-show loop yields `MustPhase` for all five words, and its `seen` set is exactly the chosen names. |
| `FamousFoods.FillUp` | Backend/main.py:125-128 | The fill-up loop appends the unchosen rows in popularity order, up to seven in all, and `seen` stays the chosen names. |
| `FamousFoods.GetFamousFoods` | Backend/main.py:107-137 | The answer has min(n, 7) entries. Each entry's name equals its cuisine type, the names are distinct, and each entry is an input row with its popularity score. |
| `Filters.Filter` | Backend/main.py:156-159 | A list comprehension keeps an element exactly when it passes, and its result is an order-preserving selection of the input. |
| `Filters.FilterMultiset` | Backend/main.py:156-159 | The comprehension keeps each passing element as often as it occurs in the input and drops every other one, so with `Filter` it keeps exactly the passing elements, in their order. |
| `Filters.KeepOrAll` | Backend/main.py:160-161 | `[...] or xs` gives the filtered list when something passes, and otherwise `xs`. It is never empty for a non-empty `xs`. |
| `Filters.AreaStage` | Backend/main.py:154-163 | An empty area changes nothing. Otherwise the stage keeps exactly the records whose locality equals the area ignoring case, or all records when none does. |
| `Filters.BudgetStage` | Backend/main.py:165-172 | An open budget (`budget_max >= 99999`) changes nothing. Otherwise the stage keeps exactly the records with `lo <= cost <= hi` (cost 500 when missing), or all records when none has it. |
| `Filters.TasteStage` | Backend/main.py:219-223 | "spicy" (ignoring case) keeps exactly the "High" records, any other preference the "Low"/"Medium" ones, and all records when none matches. |
| `Filters.Candidates` | Backend/main.py:154-175 | The candidates are an order-preserving selection of the city's records, and they are never empty when the city has records. |
| `Filters.CandidatesWhenSomeFullMatch` | Backend/main.py:154-175 | When some record meets every criterion, no stage falls back, and the candidates are the city's records filtered by all criteria at once: exactly the records meeting every criterion, each as often and in the same order as in the city's list. |
| `Scoring.DistanceScore` | Backend/main.py:233-234 | The distance score is 1 − d/20 up to 20 km and 0 beyond. It always lies between 0 and 1 for d ≥ 0. |
| `Scoring.BudgetScore` | Backend/main.py:236-242 | An open budget scores 0.8. Otherwise the score is 1.0 exactly within 200 of the band's middle, 0.7 from 200 up to 500 from it, and 0.4 exactly at 500 or more from it; always within [0.4, 1.0]. |
| `Scoring.AiScore` | Backend/main.py:231-244 | For a rating in [0, 5] and a non-negative distance, the score lies in [0.23, 1.0]. |
| `Scoring.BudgetScoreMonotone` | Backend/main.py:238-240 | A cost further from the band's middle never scores higher. |
| `Scoring.AiScoreMonotoneInRating` | Backend/main.py:232 | A better rating never lowers the score. |
| `Scoring.AiScoreAntitoneInDistance` | Backend/main.py:233-234 | A greater distance never raises the score. |
| `Scoring.AiScoreWithoutGps` | Backend/main.py:178-184 | With the distance 0.0 written when there is no GPS, the distance share is the full 0.30. |
| `Ranking.Annotated` | Backend/main.py:177-189 | Annotation keeps the number of candidates and gives each a score. Without GPS each distance is 0.0. |
| `Ranking.SetDistances` | Backend/main.py:178-184 | The distance loop writes the user-to-record distance into every record (0.0 without GPS, default coordinates for missing or zero ones) and changes nothing else. |
| `Ranking.SetScores` | Backend/main.py:188-189 | The scoring loop writes `calculate_ai_score` of every record into it and changes nothing else. |
| `Ranking.InsertDescAt` | Backend/main.py:191 | A record inserted into the ordered prefix lands after every record scoring at least as high, and before the lower-scoring ones. |
| `Ranking.InsertAt` | Backend/main.py:191 | One pass of the in-place insertion sort equals inserting the next record into the sorted prefix, and leaves the rest of the array alone. |
| `Ranking.SortByScore` | Backend/main.py:191 | The in-place sort leaves the array equal to the reference sort of its old contents. |
| `Ranking.SortDescPerm` | Backend/main.py:191 | The sort is a permutation of its input. |
| `Ranking.SortDescSorted` | Backend/main.py:191 | The sort orders by score, highest first. |
| `Ranking.SortDescStable` | Backend/main.py:191 | The sort is stable: the records of each score come out in their input order. |
| `Ranking.TopFacts` | Backend/main.py:191-192 | The first twenty hold min(n, 20) records. They are drawn from the sorted records without duplication and ordered by score. |
| `Ranking.TopStable` | Backend/main.py:191-192 | Within the first twenty, the records of each score are the first records of that score in input order. |
| `Ranking.RankedFacts` | Backend/main.py:154-192 | The answer holds min(n, 20) of the n candidates, never none for a city with records. Each one is an annotated candidate with a score, scores never increase along it, and without GPS every distance is 0.0. |
| `Ranking.RankedStable` | Backend/main.py:186-192 | Among the answers, the records of each score are the first candidates of that score, in candidate order. |
| `Ranking.Recommend` | Backend/main.py:146-192 | A city without records is the "No restaurants found" error. Otherwise the answer is the ranked list, non-empty, at most twenty long, fully scored and ordered by score. |

## Left out

- The HTTP layer, the database queries and the aggregation pipeline are not modelled. The famous-food selection starts from the aggregated rows, and the recommendation from the city's records. The case-insensitive retry of the city query is not modelled either.
- `calculate_distance` (geodesic distance, 5.0 on failure) is a function parameter of the model. The distance library is not part of this model.
- The live places lookup, the response formatting and all rounding (`round(..., 2)`, the "km"/"Nearby" text) are not modelled.
- The city endpoint's city normalisation and its 404 are not modelled, and neither is `import_dataset`.
- Scores are exact reals, not floating point, so rounding error in the weighted sum is not modelled.
- Text.Lower: lower-cases the ASCII letters only, where Python's `str.lower()` also folds other scripts. The case-insensitive comparisons are modelled for ASCII text.
- FamousFoods.GetFamousFoods: requires distinct cuisine names. The grouping stage of the aggregation guarantees this. With repeated names, the Python dictionary would keep the last row of each name.
- The records are values. Python writes `distance_km` and `ai_score` into the dictionaries it shares with the city list, and that aliasing is not modelled. The copy made by `Recommend` is the only state.
- Ranking.Key: a record without a score sorts as 0.0, where Python would raise `KeyError`. Every record is scored before the sort, so this never arises.
- The insertion sort stands in for Python's Timsort. Both are stable sorts on the same key, so both give the same order.
- Ranking.Recommend: the result contains the annotated records in full, not the response dictionaries built from them.
