# Virtual try-on: detection-to-recommendation core

A Dafny model of the decision logic in `aiModel.js` of the virtual try-on AI service. The
module has three pure stages once its randomness is made explicit:

- **Clothing detection** (`Detection`): the object detector's predictions are kept when
  their lower-cased label is one of eight clothing labels, and each kept prediction
  becomes a record with a type from a case-sensitive label table (`'unknown'` when the
  label has no entry), the prediction's score and its box. When loading or inference
  throws, the stage returns no records.
- **Pose projection** (`Pose`): each estimated pose is reduced to its keypoints and score;
  a failure gives no results.
- **Body-shape classification** (`BodyShape`): an absent or empty keypoint list gives
  shape `'unknown'`, confidence 0 and no advice field; otherwise the shape is `'fit'`,
  the confidence is `random * 0.2 + 0.8`, and the advice comes from a five-entry table.
- **Recommendations** (`Recommendations`): the five-item database is filtered by
  `price <= budget`, the first six survivors are kept (in database order), each gets a
  match score, and the list is sorted by score, highest first. The score starts from
  `random * 0.3 + 0.7`, is multiplied by 0.9 when any clothing was detected, gains 0.1
  when the user's style list names the item's type, and is capped at 1.0.

`Seqs` holds the array `filter` and `slice(0, n)` used by the stages; `Wrappers` holds
`Option`.

Modelling choices:

- Each `Math.random()` result is a parameter `draw` with `0 <= draw < 1`. The score is
  computed from it with the source's own formula. `calculateMatchScore` is called once per
  shortlisted item in list order, so the i-th shortlisted item consumes `draws[i]`.
- Scores, draws and the budget are `real`; ids and prices are `int`. IEEE-754 rounding
  is not modelled. A budget is
  `Amount(value)` or `NotANumber`. `NotANumber` covers `undefined` or a non-numeric
  string, against which every `<=` is false.
- `userStyle` is `Option<seq<string>>`. `None` stands for a falsy value, and `includes`
  is sequence membership.
- `String.prototype.toLowerCase` is modelled for the characters whose lower case is an
  ASCII letter. These are `A`–`Z` and the Kelvin sign U+212A, which becomes `k`. The model
  leaves every other character as it is. Such a character is either its own lower case
  (as `a` or `1` are) or lower-cases to something that contains a non-ASCII character
  (U+0130 becomes `i` followed by U+0307). Either way it cannot help match an ASCII
  clothing label, so the membership test is exact.
- `Array.prototype.sort` is stable, so the sort is a stable insertion sort. The database
  lists ids in increasing order, so tied scores come out in increasing id order.
- The detector's and the estimator's outputs (or their failure) are inputs: `None` stands
  for a thrown error.

Behaviour of the code worth knowing. A negative or non-numeric budget is not rejected;
it just yields an empty list. The list is capped before scoring, not after ranking. Ties
are broken only through sort stability. The body-shape classifier is a placeholder that
always answers `'fit'` with a random confidence. Its degenerate result has no
`recommendations` field rather than an empty one. A case variant such as `Shirt` passes the
case-insensitive filter, but the case-sensitive table then types it `'unknown'`.

## Model

| member | source | states |
|---|---|---|
| `Seqs.Filter` | aiModel.js:79-80 | the kept elements are exactly the input elements satisfying the predicate, and there are no more of them than inputs |
| `Seqs.FilterAppend` | aiModel.js:34-36 | filtering a concatenation is the concatenation of the filtered parts, so relative order is kept |
| `Seqs.FilterSingleton` | aiModel.js:34-36 | a single element is kept exactly when it satisfies the predicate |
| `Seqs.FilterKeepsAll` | aiModel.js:80 | filtering a sequence whose elements all satisfy the predicate returns it unchanged |
| `Seqs.Take` | aiModel.js:81 | `slice(0, n)` is a prefix of length `min(n, length)` |
| `Detection.MapClothingType` | aiModel.js:109-120 | the type is one of six values; it is `'unknown'` exactly when the label has no entry in the case-sensitive table, and `'person'` only for the label `'person'` |
| `Detection.LowerChar` | aiModel.js:125 | the lower case of a character is lower case and is that character in some case |
| `Detection.ToLower` | aiModel.js:125 | the lower-cased label is lower case and spells the label character by character, in some case |
| `Detection.LowerCharMatches` | aiModel.js:125 | a character lower-cases to a lower-case character exactly when it is that character in some case (itself, its ASCII capital, or the Kelvin sign for 'k') |
| `Detection.ToLowerMatches` | aiModel.js:125 | a label lower-cases to a lower-case string exactly when it spells that string in some case |
| `Detection.ClothingClassesLowerCase` | aiModel.js:124 | the eight clothing labels are written in lower case |
| `Detection.IsClothingItem` | aiModel.js:123-126 | a label is accepted exactly when it spells one of the eight clothing labels in some case, character by character |
| `Detection.TitleCaseShirt` | aiModel.js:109-125 | `Shirt` is accepted by the filter but typed `'unknown'` by the case-sensitive table |
| `Detection.KelvinSignJacket` | aiModel.js:123-126 | `JACKET` written with the Kelvin sign for its K is accepted |
| `Detection.ToLowerIdempotent` | aiModel.js:125 | lower-casing twice equals lower-casing once |
| `Detection.LowerCaseFixed` | aiModel.js:125 | a label with no upper-case ASCII letter and no Kelvin sign is unchanged by lower-casing |
| `Detection.AcceptanceIgnoresCase` | aiModel.js:123-126 | a label is accepted exactly when its lower case is, and each of the eight labels as written is accepted |
| `Detection.PersonIsNotClothing` | aiModel.js:110-111 | the table's `'person'` entry can never be reached through the clothing filter |
| `Detection.AcceptedLabelType` | aiModel.js:109-125 | for an accepted label, shoe and boot give `'shoes'`, hat gives `'accessories'`, shirt and pants keep their name, and every other accepted label gives `'unknown'` (jacket, dress, coat, case variants); the type is always one of shirt, pants, shoes, accessories, unknown |
| `Detection.KeepClothing` | aiModel.js:34-36 | the kept predictions are exactly the input predictions whose label is clothing |
| `Detection.Normalize` | aiModel.js:38-42 | the record copies the prediction's score and box; an accepted label gets one of the five detected types; the type is `'unknown'` exactly when the label has no table entry |
| `Detection.DetectClothing` | aiModel.js:30-46 | a failure gives `[]`; otherwise one record per kept prediction, in order, whose type is the table's type for that prediction's label, whose confidence and box are its score and box, and whose type is one of the five detected types |
| `Detection.DetectClothingAppend` | aiModel.js:34-42 | the records for a concatenation of predictions are the records of the parts, in detector order |
| `Detection.DetectClothingSingle` | aiModel.js:34-42 | a single prediction yields one normalised record exactly when its label is clothing |
| `Pose.AnalyzePose` | aiModel.js:55-66 | a failure gives `[]`; otherwise one result per pose, in order, carrying that pose's keypoints and score |
| `BodyShape.DetermineShape` | aiModel.js:162-165 | the shape is one of the five named shapes |
| `BodyShape.GetBodyShapeRecommendations` | aiModel.js:167-177 | exactly three pieces of advice for each of the five named shapes, none for any other shape; the `'fit'` advice is the table's three strings |
| `BodyShape.ClassifyBodyShape` | aiModel.js:145-160 | shape `'unknown'` exactly when the keypoints are absent or empty, then with confidence 0 and no advice; otherwise a named shape, confidence in [0.8, 1.0) and the table's three pieces of advice for that shape |
| `BodyShape.NonEmptyIsFit` | aiModel.js:152-159 | any non-empty keypoint list is classified `'fit'` with the `'fit'` advice |
| `BodyShape.ShapeIndependentOfDraw` | aiModel.js:145-165 | the shape and advice depend on the keypoints only; randomness affects only the confidence |
| `Recommendations.BaseScore` | aiModel.js:93 | the base score lies in [0.7, 1.0) |
| `Recommendations.MatchScore` | aiModel.js:92-106 | the score lies in [0.63, 1.0]; without a style match it is the base times the compatibility factor (0.9 or 1), never capped; with one it is `min(base * factor + 0.1, 1.0)` |
| `Recommendations.ScoreIsBaseWithoutAdjustments` | aiModel.js:93-105 | with nothing detected and no style match the score equals the base exactly |
| `Recommendations.NoStyleNoBonus` | aiModel.js:100-103 | an absent and an empty style list give the same score, with no bonus |
| `Recommendations.ScoreMonotone` | aiModel.js:95-105 | a style match never lowers the score; detected clothing never raises it |
| `Recommendations.InBudget` | aiModel.js:79-80 | the kept items are exactly the database items with `price <= budget` |
| `Recommendations.Shortlist` | aiModel.js:79-81 | at most six items, a prefix of the within-budget items in database order, shorter than six only when all within-budget items are kept |
| `Recommendations.Score` | aiModel.js:82-85 | the scored list carries the shortlisted items unchanged, in order, with only a score added; the i-th score is the one the i-th draw gives and lies in [0.63, 1.0] |
| `Recommendations.Insert` | aiModel.js:86 | one insertion step adds exactly the inserted recommendation (as a multiset); with `InsertKeepsOrder` and `InsertKeepsRank` it keeps a score-ordered list score-ordered |
| `Recommendations.InsertKeepsOrder` | aiModel.js:86 | inserting into a list of non-increasing scores keeps the scores non-increasing |
| `Recommendations.InsertKeepsRank` | aiModel.js:86 | inserting an item whose id is below all others into a ranked list keeps it ranked |
| `Recommendations.SortByScore` | aiModel.js:86 | the sort is a permutation of the recommendations (as a multiset); with `SortOrders`, `SortRanks` and `SortKeepsOrderedInput` it is the stable descending sort by score |
| `Recommendations.InsertCarriesItems` | aiModel.js:86 | one insertion step adds exactly the inserted recommendation's catalog item |
| `Recommendations.SortCarriesItems` | aiModel.js:86 | the sort is a permutation of the catalog items the recommendations carry |
| `Recommendations.SortOrders` | aiModel.js:86 | after the sort, scores never increase from one recommendation to a later one |
| `Recommendations.SortRanks` | aiModel.js:86 | when the input is in increasing id order, equal scores end up in increasing id order (stability) |
| `Recommendations.SortKeepsOrderedInput` | aiModel.js:86 | sorting a list already in non-increasing score order leaves it unchanged |
| `Recommendations.InBudgetKeepsIds` | aiModel.js:79-80 | the budget filter keeps increasing id order |
| `Recommendations.ScoreFacts` | aiModel.js:82-85 | each scored recommendation carries a within-budget database item and the score that item's own draw gives |
| `Recommendations.ShortlistRanks` | aiModel.js:79-86 | for a database in increasing id order, the sorted shortlist is ranked by score, then by id |
| `Recommendations.RecommendFrom` | aiModel.js:79-88 | as many recommendations as shortlisted items (at most six), carrying exactly the shortlisted items unchanged (as a multiset); each is within budget, scored in [0.63, 1.0] by its own draw; scores never increase along the list; ties are in id order for an id-ordered database |
| `Recommendations.CatalogInIdOrder` | aiModel.js:71-77 | the database lists its ids in increasing order |
| `Recommendations.GenerateRecommendations` | aiModel.js:70-89 | at most six recommendations, a permutation of the first six within-budget database items, each within budget with its fields unchanged and a score in [0.63, 1.0] from its own draw, ranked by score and then by id |
| `Recommendations.CapNeverBitesOnCatalog` | aiModel.js:71-81 | with five database items the cap of six never drops a within-budget item |
| `Recommendations.CheapestPriceIsLowest` | aiModel.js:71-77 | 50 is the lowest database price |
| `Recommendations.BudgetBelowCheapestIsEmpty` | aiModel.js:71-80 | a budget below 50 (negative included) or not a number yields no recommendations |
| `Recommendations.AmpleBudgetKeepsCatalog` | aiModel.js:71-81 | a budget of at least 150 keeps the whole database |
| `Recommendations.InBudgetUnfold` | aiModel.js:80 | the budget filter examines one database item at a time, in order |
| `Recommendations.BudgetEightyKeeps` | aiModel.js:71-80 | a budget from 80 up to 120 keeps the shirt, the pants and the dress, in that order |
| `Recommendations.ShirtStyleScores` | aiModel.js:92-105 | for style `['shirt']`, nothing detected and the same draw for the shirt, the pants and the dress, the shirt gets the bonus and the pants and dress the base score, already in ranking order |
| `Recommendations.BudgetEightyShirtStyleExample` | aiModel.js:70-106 | a budget from 80 up to 120, style `['shirt']`, nothing detected, the same draw for the three shortlisted items: shirt first with the bonus, then pants and dress with the base score, in id order |
| `Recommendations.AmpleBudgetNoStyleExample` | aiModel.js:70-105 | nothing detected, no style, budget at least 150: all five items, each scored with its own base score only |

## Left out

- Model loading (`initializeModels`, the module-level `cocoModel`/`poseModel`): these are foreign asynchronous library calls. Their failure is folded into the `None` input of each stage.
- `loadImage`, `cocoModel.detect` and `poseModel.estimatePoses`: these are foreign calls. Their results, or their failure, are inputs.
- `analyzeColors`: it returns a constant and makes no decision.
- The HTTP server (`server.js`): it is routing, upload storage and status mapping, and its helpers are constant stubs.
- Logging through `console.log` and `console.error` is not modelled.
- `Math.random()` is replaced by explicit draws in [0, 1). IEEE-754 rounding of the score arithmetic is not modelled.
- `Detection.MapClothingType`: the lookup covers the table's own keys only. A label naming an inherited object property (such as `constructor`) is not modelled. No such label passes the clothing filter.
- `BodyShape.GetBodyShapeRecommendations`: the lookup covers the table's own keys only. Inherited object properties are not modelled. The classifier only ever asks for `'fit'`.
- `Recommendations.GenerateRecommendations`: a string `userStyle` is not modelled. On a string, `includes` is a substring test.
- `Recommendations.GenerateRecommendations`: an infinite budget is not modelled. It behaves like any budget of at least 150.
- A keypoint argument that is present but not an array is not modelled.
- The typed inputs exclude the inputs on which the code throws a TypeError. These are a `null` or `undefined` `detectedClothing`, and a truthy `userStyle` without `includes` (such as `{}`). Both throw only once some item is within budget. Any other `detectedClothing` without a `length` (such as `{}` or `42`) acts as nothing detected, which `[]` models. They also include a prediction whose `class` is not a string, on which `detectClothing` returns `[]`.
- Pose: the estimator's `box` and `id` are carried as inputs only; the projection drops them.
