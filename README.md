# Account table component — a Dafny model

This project models the Lightning Web Component `CustomComponent`. The component shows a
sortable, inline-editable table of account records and fetches rows by a search text. It
saves edited drafts through the platform's record-update call. The model covers:

- the comparator builder `sortBy(field, reverse, primer)`;
- the sort handler `onHandleSort`, which sorts a copy of `data` in place;
- the row shaper `mapFields`, which adds `AccountOwner` and `NameUrl` to every row;
- how the wire callback, the filter handler and the save handler change the component's
  fields.

Modules, one concern each:

- `JsValues` (`js_values.dfy`): the JavaScript values in a row, property reads, string
  conversion for `"/" + id`, and the relational operator `>` with its order lemmas.
- `Comparator` (`comparator.dfy`): the key function and comparator built by `sortBy`.
- `Sorting` (`sorting.dfy`): an in-place insertion sort on an `array`. It stands in for the
  host's `Array.prototype.sort(cmp)`. This module also says what the resulting order means
  for the keys.
- `RowShaper` (`row_shaper.dfy`): the row transformation of `mapFields`.
- `SaveWorkflow` (`save_workflow.dfy`): how drafts are wrapped as `{ fields }`, and the
  outcome rule of the save, written as a log of platform calls.
- `Component` (`component.dfy`): the class `CustomComponent`, with the fields `data`,
  `error`, `searchText`, `fldsItemValues`, `sortDirection`, `sortedBy` and
  `defaultSortDirection`, and one method per handler.

Platform calls are not made. Their results are parameters of the handler, and the calls the
component makes are appended to the field `effects`:

- the Apex fetch: its argument is logged, and how it settled is a parameter;
- `updateRecord`: one call per record input is logged, and one success flag per draft is a
  parameter;
- `refreshApex`: a logged refresh, whose success is a parameter;
- `ShowToastEvent`: a logged toast with its title, message and variant.

Behaviour taken from the code (`customComponent.js`):

- The wire adapter gets the constant search text `""` (line 26). Only the filter handler
  fetches with the typed search text.
- `mapFields` throws a `TypeError` when a row has no `Owner`. The wire callback lets the
  exception escape. The filter handler's `.catch` swallows it, and `data` stays as it was.
- When the updates all succeed but the refresh fails, the same `.catch` runs too. The log
  then holds a success toast followed by an error toast.
- `onHandleSort` on an undefined `data` throws while spreading it, before any field is
  assigned.
- An empty list of drafts counts as full success: `Promise.all([])` resolves, so the
  component shows a success toast and refreshes.

## Model

| member | source | states |
|---|---|---|
| `JsValues.Member` | codingChallenge/force-app/main/default/lwc/customComponent/customComponent.js:42 | reading `Owner.Name` throws exactly when `Owner` is undefined; on an object it reads that object's `Name` |
| `JsValues.StrLessIrreflexive` | codingChallenge/force-app/main/default/lwc/customComponent/customComponent.js:60 | no string is `<` itself under the model's character-by-character order |
| `JsValues.StrLessAsymmetric` | codingChallenge/force-app/main/default/lwc/customComponent/customComponent.js:60 | two strings are never each `<` the other |
| `JsValues.StrLessTransitive` | codingChallenge/force-app/main/default/lwc/customComponent/customComponent.js:60 | string `<` is transitive |
| `JsValues.StrLessTotal` | codingChallenge/force-app/main/default/lwc/customComponent/customComponent.js:60 | any two strings are equal or one is `<` the other |
| `JsValues.GreaterIrreflexive` | codingChallenge/force-app/main/default/lwc/customComponent/customComponent.js:60 | `v > v` is false for every value, `undefined` included |
| `JsValues.GreaterAsymmetric` | codingChallenge/force-app/main/default/lwc/customComponent/customComponent.js:60 | `a > b` and `b > a` never both hold |
| `JsValues.NotGreaterTransitive` | codingChallenge/force-app/main/default/lwc/customComponent/customComponent.js:60 | among numbers, or among string-like values, "not greater" is transitive |
| `JsValues.NeitherGreaterMeansEqual` | codingChallenge/force-app/main/default/lwc/customComponent/customComponent.js:60 | among values of one kind, when neither is greater they are equal as primitives |
| `Comparator.Compare` | codingChallenge/force-app/main/default/lwc/customComponent/customComponent.js:48-61 | the comparator returns 0, `reverse` or `-reverse`, so it lies in {-1, 0, 1} when `reverse` is 1 or -1 |
| `Comparator.CompareZeroIff` | codingChallenge/force-app/main/default/lwc/customComponent/customComponent.js:57-61 | for a non-zero `reverse`, the result is 0 exactly when neither key is greater than the other |
| `Comparator.CompareSign` | codingChallenge/force-app/main/default/lwc/customComponent/customComponent.js:60 | with direction 1, negative iff b's key is greater and positive iff a's is; direction -1 swaps these |
| `Comparator.CompareSelf` | codingChallenge/force-app/main/default/lwc/customComponent/customComponent.js:57-61 | a row compared with itself gives 0, with any direction and primer |
| `Comparator.CompareEqualKeys` | codingChallenge/force-app/main/default/lwc/customComponent/customComponent.js:57-61 | rows with equal keys compare as 0 |
| `Comparator.CompareAntisymmetric` | codingChallenge/force-app/main/default/lwc/customComponent/customComponent.js:60 | `cmp(a, b) == -cmp(b, a)` |
| `Comparator.CompareReverse` | codingChallenge/force-app/main/default/lwc/customComponent/customComponent.js:60 | negating `reverse` negates every result |
| `Comparator.ComparePrimer` | codingChallenge/force-app/main/default/lwc/customComponent/customComponent.js:49-55 | with a primer, comparing two rows is the same as comparing, without a primer, rows whose field holds `primer(x[field])` |
| `Comparator.CompareOnlyKey` | codingChallenge/force-app/main/default/lwc/customComponent/customComponent.js:49-59 | only `x[field]` matters: a row can be replaced by another with the same field value, on either side |
| `Sorting.OrderedMeansMonotoneKeys` | codingChallenge/force-app/main/default/lwc/customComponent/customComponent.js:80 | a comparator-ordered sequence has non-decreasing keys for direction 1 and non-increasing keys for -1, and conversely |
| `Sorting.CompareNotAfterTransitive` | codingChallenge/force-app/main/default/lwc/customComponent/customComponent.js:60 | on keys of one kind, "sorts no later than" is transitive |
| `Sorting.OrderedPairwise` | codingChallenge/force-app/main/default/lwc/customComponent/customComponent.js:80 | when all keys are of one kind, ordered neighbours imply that every earlier row sorts no later than every later one |
| `Sorting.SortByAntisymmetric` | codingChallenge/force-app/main/default/lwc/customComponent/customComponent.js:57-61 | the comparator value handed to the sort is antisymmetric |
| `Sorting.OrderedBySortBy` | codingChallenge/force-app/main/default/lwc/customComponent/customComponent.js:80 | being ordered by the comparator value is being ordered by `Compare` |
| `Sorting.Insert` | codingChallenge/force-app/main/default/lwc/customComponent/customComponent.js:80 | one insertion step extends the ordered prefix by one element and permutes the array |
| `Sorting.Sort` | codingChallenge/force-app/main/default/lwc/customComponent/customComponent.js:80 | `a.sort(cmp)` leaves a permutation of the array's contents with every element sorting no later than the next |
| `RowShaper.ShapeRow` | codingChallenge/force-app/main/default/lwc/customComponent/customComponent.js:42 | throws iff the row has no `Owner`; otherwise keeps every other field, adds exactly `AccountOwner` = `Owner.Name` and `NameUrl` = `"/"` + id |
| `RowShaper.ShapeAll` | codingChallenge/force-app/main/default/lwc/customComponent/customComponent.js:41-43 | throws iff some row has no owner; otherwise same length, and the i-th output is the i-th row shaped |
| `RowShaper.ShapeRowIdempotent` | codingChallenge/force-app/main/default/lwc/customComponent/customComponent.js:42 | shaping a shaped row gives it back unchanged |
| `RowShaper.ShapeAllIdempotent` | codingChallenge/force-app/main/default/lwc/customComponent/customComponent.js:41-43 | shaping shaped rows again gives them back unchanged |
| `SaveWorkflow.RecordInput` | codingChallenge/force-app/main/default/lwc/customComponent/customComponent.js:90-91 | a record input has the single key `fields`, which carries the draft back unchanged |
| `SaveWorkflow.RecordInputs` | codingChallenge/force-app/main/default/lwc/customComponent/customComponent.js:89-92 | one record input per draft, in draft order, each carrying its draft |
| `SaveWorkflow.SaveLog` | codingChallenge/force-app/main/default/lwc/customComponent/customComponent.js:94-117 | a save's log starts with one update per draft, in draft order, each carrying its draft as `fields`, and holds no other update |
| `SaveWorkflow.CountSaveLog` | codingChallenge/force-app/main/default/lwc/customComponent/customComponent.js:94-117 | the update calls contribute no toast and no refresh to a save's log |
| `SaveWorkflow.SaveRefreshesOnceIff` | codingChallenge/force-app/main/default/lwc/customComponent/customComponent.js:97-108 | exactly one refresh when every update succeeds, none otherwise |
| `SaveWorkflow.SaveSuccessToastIff` | codingChallenge/force-app/main/default/lwc/customComponent/customComponent.js:97-105 | exactly one success toast when every update succeeds, none otherwise |
| `SaveWorkflow.SaveErrorToastIff` | codingChallenge/force-app/main/default/lwc/customComponent/customComponent.js:97-117 | exactly one error toast when an update or the refresh fails, none otherwise |
| `SaveWorkflow.SaveFailureIsOneErrorToast` | codingChallenge/force-app/main/default/lwc/customComponent/customComponent.js:109-117 | after a failed update, the updates are followed by one error toast and nothing else |
| `SaveWorkflow.ScenarioThreeSucceed` | codingChallenge/force-app/main/default/lwc/customComponent/customComponent.js:88-120 | three successful updates: one success toast, one refresh, no error toast |
| `SaveWorkflow.ScenarioOneOfThreeFails` | codingChallenge/force-app/main/default/lwc/customComponent/customComponent.js:88-120 | one of three updates fails: one error toast, no refresh, no success toast |
| `Component.TwoRowsOrder` | codingChallenge/force-app/main/default/lwc/customComponent/customComponent.js:80 | of two distinct rows where the first sorts after the second, the only ordered permutation puts the second first |
| `Component.ScenarioSortByNameAscending` | codingChallenge/force-app/main/default/lwc/customComponent/customComponent.js:76-83 | rows B and A sorted by `Name` ascending can only come out as A, B |
| `Component.ScenarioSortByRevenueDescending` | codingChallenge/force-app/main/default/lwc/customComponent/customComponent.js:76-83 | rows (B, 50) and (A, 100) sorted by `AnnualRevenue` descending can only come out as A, B |
| `Component.CustomComponent.constructor` | codingChallenge/force-app/main/default/lwc/customComponent/customComponent.js:22-38 | initial fields: empty `data`, empty drafts, search text `""`, direction "asc", no sorted field, no error |
| `Component.CustomComponent.MapFields` | codingChallenge/force-app/main/default/lwc/customComponent/customComponent.js:40-46 | stores the shaped rows and clears `error`, or throws with both fields unchanged; touches nothing else |
| `Component.CustomComponent.WiredAccounts` | codingChallenge/force-app/main/default/lwc/customComponent/customComponent.js:27-34 | no data: `data` becomes undefined and `error` holds the error; data: the `MapFields` outcome |
| `Component.CustomComponent.HandleFilterChange` | codingChallenge/force-app/main/default/lwc/customComponent/customComponent.js:64-74 | `searchText` always updated and one fetch logged with it; `data` and `error` change only for a truthy result that shapes without throwing |
| `Component.CustomComponent.OnHandleSort` | codingChallenge/force-app/main/default/lwc/customComponent/customComponent.js:76-84 | new `data` is a permutation of the old; for "asc" no key is greater than the next one's, for any other direction no key is greater than the previous one's; stores the event's direction and field; no other field changes; throws with no change when `data` is undefined |
| `Component.CustomComponent.SaveHandleAction` | codingChallenge/force-app/main/default/lwc/customComponent/customComponent.js:87-121 | logs one update per draft and then the settle outcome; drafts are empty afterwards in every case; no other field changes |

## Left out

- `Greater`: a comparison between a number and a string is modelled as false. JavaScript
  would convert the string to a number. `null`, booleans, `NaN` and fractional numbers are
  not modelled either. Numbers are integers.
- `Sorting.Sort`: the host's sort algorithm and its stability are not modelled. An insertion
  sort stands in for it. Its contract states neighbour order and a permutation for any
  antisymmetric comparator. Order of every pair (`OrderedPairwise`) holds only when all keys
  are of one kind, because JavaScript's `>` is not a total order across kinds. The neighbour
  order `OnHandleSort` ensures comes from this insertion sort. For keys of mixed kinds (say
  numeric rows plus a row with no `AnnualRevenue`) the comparator is inconsistent, and the
  host sort's order is then implementation-defined: the program promises only a permutation
  there.
- `Member`: `null` is outside the value domain. JavaScript's `row.Owner.Name` throws for
  `Owner: null` as it does for a missing `Owner`; the model has no `null` to pass.
- `StrLess`: it compares Unicode scalar values. JavaScript compares UTF-16 code units. The
  two differ only for characters outside the Basic Multilingual Plane.
- `ToJsString`: integers are always written in decimal. JavaScript switches to exponent
  notation from 1e21.
- Property order of objects is not modelled, because rows are maps. The spread in
  `mapFields` is therefore captured up to key order.
- The Apex fetch, `updateRecord`, `refreshApex`, `ShowToastEvent` and `dispatchEvent` are
  foreign platform calls. They appear only as parameters and logged effects.
- The decorators `@wire` and `@track`, and the framework's reactive re-invocation, are
  framework behaviour. They are not modelled.
- The asynchrony of `Promise.all`, `then`, `catch` and `finally`: a save is one step over
  known outcomes. While a save is pending, `fldsItemValues` holds the drafts; the model does
  not show that intermediate state. Overlapping or out-of-order fetch responses are not
  modelled.
- The static `columns` configuration and the empty `handleChange` carry no behaviour.
- `refresh()` passes `data` to `refreshApex`. The model logs a refresh without its argument.
