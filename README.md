# Plant catalogue service, modelled and verified in Dafny

This project models the in-memory plant catalogue of `src/lib/plantService.ts`.
It is the data layer of a plant-species web application. The catalogue has four parts:

- a registry of dynamic filter options (locations, climates, uses), each mirrored to the browser's key-value store;
- the filter vocabularies, which merge the base values, the values the built-in plants carry and the dynamic values into one sorted list without repeats;
- the plant repository: filtered listing, lookup by id, creation, partial update and deletion with its cascade to comments;
- the comment repository: listing one plant's comments newest first, and adding a comment.

Layout:

- `types.dfy` (module `Types`): the records `Plant`, `PlantDraft`, `PlantUpdate`, `Comment` and `FilterValues`, plus `Option` and `Result`.
- `seqs.dfy` (module `Seqs`): `Filter`, which is `Array.prototype.filter`, and the order-preserving subsequence relation.
- `text.dfy` (module `Text`): lower-casing, substring search, and the default string sort order.
- `catalogue.dfy` (module `Catalogue`): every computation of the service as a function on values, with the lemmas about them.
- `plant_service.dfy` (module `Service`): class `PlantService`. Its fields are the module-level state of the source: the plant list, the comment list, the three dynamic lists and the store. There is one method per exported operation.

The three copies of add/delete/list for locations, climates and uses differ only in the list and the key. They are modelled once, with a `Category` parameter.

The class predicate `Valid` says each dynamic list equals what the store holds for it, whenever a store exists. The constructor establishes it, and every method preserves it. Under `Valid`, the lazy reload in `getAll*ForFilters` never changes anything. It is still modelled as written, and its method states both facts.

The vocabulary builders read the built-in plant list (`INITIAL_PLANTS`), not the current plants. The model follows that code. Consequently, a plant added at run time does not contribute its locations, climate or uses to the vocabularies.

## Model

| member | source | states |
|---|---|---|
| Seqs.Filter | src/lib/plantService.ts:124-141 | the result holds exactly the elements that pass the predicate and is no longer than the input |
| Seqs.FilterCount | src/lib/plantService.ts:124-141 | every copy of a passing element is kept and every copy of a failing one dropped |
| Seqs.FilterIsSubsequence | src/lib/plantService.ts:124-141 | a filter result keeps the input's order (it is a subsequence) |
| Seqs.FilterThen | src/lib/plantService.ts:121-142 | filtering by one predicate and then another equals filtering once by both |
| Seqs.FilterKeepsAll | src/lib/plantService.ts:198-199 | a filter no element fails returns its input unchanged |
| Text.IncludesIffOccurs | src/lib/plantService.ts:125-128 | `includes` holds exactly when the term occurs at some position |
| Text.InsertUnique | src/lib/plantService.ts:84 | inserting into an ascending repeat-free list keeps it so and adds exactly that element |
| Text.SortedUnique | src/lib/plantService.ts:84 | deduplicate-and-sort gives an ascending list with exactly the input's elements |
| Text.StrictlySortedUnique | src/lib/plantService.ts:84 | two ascending repeat-free lists with the same elements are equal (the result does not depend on merge order) |
| Catalogue.ListPlantsExact | src/lib/plantService.ts:117-145 | the stepwise listing equals one filter by the conjunction of the active filters: an order-preserving subsequence holding exactly the matching plants |
| Catalogue.AllListsEverything | src/lib/plantService.ts:121-142 | a descriptor with an empty search term and every other field "all" or empty lists every plant |
| Catalogue.FindIndex | src/lib/plantService.ts:167 | the first index holding the id, or none when no plant has it |
| Catalogue.FindPlant | src/lib/plantService.ts:147-150 | the first plant with the id; none exactly when no plant has it |
| Catalogue.NewPlant | src/lib/plantService.ts:152-163 | the new record carries the supplied fields, the id made from the clock, the default image, and both timestamps equal to the clock |
| Catalogue.ProcessedTagsAsWritten | src/lib/plantService.ts:173-183 | the coercion as written: a non-empty string `s` becomes the list `[s]`, a list is kept, and any other value (absent, or the empty string) is copied unchanged |
| Catalogue.AsWrittenKeepsEmptyScalar | src/lib/plantService.ts:173-183 | as written, a supplied value stays a plain string exactly when it is the empty string |
| Catalogue.NormalizeTags | src/lib/plantService.ts:173-183 | any supplied string becomes a one-element list, a supplied list is kept, and an absent field stays absent |
| Catalogue.ApplyUpdate | src/lib/plantService.ts:185-190 | for each of the seven editable fields the supplied value wins and an absent one keeps the current value; id, image and creation time are kept; the update time is the clock; a string `uses`/`location` is stored as a one-element list and a list as given |
| Catalogue.ApplyUpdateIdempotent | src/lib/plantService.ts:185-192 | applying the same update twice at the same instant equals applying it once |
| Catalogue.WithoutPlant | src/lib/plantService.ts:198 | keeps exactly the plants with another id, in order; changes nothing when the id is absent |
| Catalogue.WithoutCommentsOf | src/lib/plantService.ts:199 | keeps exactly the comments on other plants, in order; changes nothing when none is on that plant |
| Catalogue.WithoutPlantCount | src/lib/plantService.ts:198 | every copy of a plant with another id is kept, and no plant with that id |
| Catalogue.WithoutCommentsOfCount | src/lib/plantService.ts:199 | every copy of a comment on another plant is kept, and no comment on that plant |
| Catalogue.DeletedPlantIsGone | src/lib/plantService.ts:196-200 | after the delete, lookup by that id finds nothing and its comment listing is empty |
| Catalogue.DeleteKeepsOtherComments | src/lib/plantService.ts:199 | the cascade leaves every other plant's comment listing as it was |
| Catalogue.InsertNewestFirst | src/lib/plantService.ts:206 | inserting into a newest-first list keeps it newest first and adds exactly that comment |
| Catalogue.SortNewestFirst | src/lib/plantService.ts:206 | the sort is a permutation ordered by creation time, newest first |
| Catalogue.SortNewestFirstStable | src/lib/plantService.ts:206 | comments with equal creation times keep their relative order |
| Catalogue.CommentsNewestFirst | src/lib/plantService.ts:204-207 | a newest-first permutation of exactly the comments on that plant |
| Catalogue.NewComment | src/lib/plantService.ts:209-218 | the comment carries the given plant, user and text, id "c" followed by the clock, and the clock as creation time |
| Catalogue.NewestCommentListedFirst | src/lib/plantService.ts:204-221 | a comment newer than all others on its plant is listed first once added |
| Catalogue.Without | src/lib/plantService.ts:45-49 | the value no longer occurs, every other element keeps its order, and an absent value changes nothing |
| Catalogue.WithoutCount | src/lib/plantService.ts:45-49 | every copy of every other value is kept, including repeats loaded from the store |
| Catalogue.PlantLocations | src/lib/plantService.ts:84 | holds exactly the locations some plant lists |
| Catalogue.PlantClimates | src/lib/plantService.ts:92 | holds exactly the climates of the plants |
| Catalogue.PlantUses | src/lib/plantService.ts:100 | holds exactly the uses some plant lists |
| Catalogue.Vocabulary | src/lib/plantService.ts:79-102 | ascending, repeat-free, exactly the union of base, plant and dynamic values, and the only such list |
| Service.PlantService.StoredItems | src/lib/plantService.ts:17-23 | the stored list when a store exists and holds the key, otherwise empty |
| Service.PlantService.SetStoredItems | src/lib/plantService.ts:26-30 | a later read of the key gives the written list (when a store exists); no other key changes |
| Service.PlantService.constructor | src/lib/plantService.ts:33-35 | the dynamic lists are read from the store, the plants start as the built-in ones and the comments as the two seed comments |
| Service.PlantService.Publish | src/lib/plantService.ts:40-41 | replaces one dynamic list and writes it under its key, keeping the mirror invariant; the other lists are untouched |
| Service.PlantService.AddDynamic | src/lib/plantService.ts:37-43 | a present value changes nothing; otherwise it is appended and the list is written under its key; other lists untouched; no duplicates introduced |
| Service.PlantService.DeleteDynamic | src/lib/plantService.ts:45-49 | the value is removed and the order of the rest kept; the list is always written to the store; other lists untouched |
| Service.PlantService.GetAllForFilters | src/lib/plantService.ts:79-102 | the reload rule, that under the mirror invariant it changes nothing, and the sorted repeat-free union of base, built-in plant and dynamic values |
| Service.PlantService.GetAllSeasonsForFilters | src/lib/plantService.ts:104-107 | the fixed season list |
| Service.PlantService.GetPlants | src/lib/plantService.ts:117-145 | an order-preserving subsequence of the current plants holding exactly those that match; no state changes |
| Service.PlantService.GetPlantById | src/lib/plantService.ts:147-150 | the first current plant with the id, none exactly when no plant has it |
| Service.PlantService.AddPlant | src/lib/plantService.ts:152-163 | the new record is appended and every earlier plant kept; when its id was unused, lookup finds exactly it; the mirror invariant is kept |
| Service.PlantService.UpdatePlant | src/lib/plantService.ts:165-194 | an unknown id fails with not-found and changes nothing; otherwise only the first matching index is replaced by the merged record, which lookup then finds; the mirror invariant is kept |
| Service.PlantService.DeletePlant | src/lib/plantService.ts:196-200 | removes exactly the plants with the id and the comments on it, keeping the rest in order; a no-op when the id is absent; the mirror invariant is kept |
| Service.PlantService.GetCommentsByPlantId | src/lib/plantService.ts:204-207 | a newest-first permutation of exactly that plant's comments |
| Service.PlantService.AddComment | src/lib/plantService.ts:209-221 | appends the new comment without checking that the plant exists; the mirror invariant is kept |
| Service.FindIndexAt | src/lib/plantService.ts:167 | a matching index with no earlier match is the one lookup returns |
| Service.AddTwiceThenList | src/lib/plantService.ts:37-85 | adding a value twice leaves it once in the vocabulary, and the second listing equals the first |

## Left out

- The simulated latency (`delay`, `async`/`await`): every operation is one atomic step, and interleavings of concurrent calls are not modelled.
- `localStorage`, the `typeof window` tests and JSON encoding: the store is a map from key to an already-decoded list, and `storageAvailable` says whether it exists. Malformed stored JSON, and other code editing the store, are not modelled.
- The clock: each operation takes one clock reading `now` as a parameter. The source reads the clock separately for the id and each timestamp; the model takes those readings as equal. Ids made from the clock are not claimed to be unique.
- Catalogue.SearchHit: lower-casing covers ASCII letters only, not the full Unicode `toLowerCase`.
- Text.Below: strings are compared by Unicode code point, while JavaScript's default sort compares UTF-16 code units; the two orders differ only for characters outside the Basic Multilingual Plane.
- The contents of `./constants` and `./types` are not part of this model: the built-in plants, base lists and season list are constructor parameters.
- Catalogue.ApplyUpdate: an update field explicitly set to `undefined`, and fields other than the seven editable ones, are not representable; an update is a record of optional fields.
- Catalogue.ApplyUpdate: the service applies the corrected coercion `NormalizeTags`, so `updatePlant(id, { uses: "" })` stores `[""]`. As written, the source stores the string `""`; a later `getPlants` with an active search term that the plant's name does not contain then throws a `TypeError` at line 126, because a string has no `some`. That failure is not modelled (see "## Findings").
- Records and lists are values, but the source hands out references: `getPlantById`, `addPlant` and `updatePlant` return the stored object, `getAllSeasonsForFilters` returns the season array itself, and the current plant list shares the built-in plants' objects. A caller that mutates a returned object, and so changes the stored plants or the vocabularies, is not modelled.
- A `localStorage.setItem` that throws (for example when the quota is exhausted) after the `push` in `addDynamic*` would leave the list and the store out of step; the model's store write always succeeds.
- `src/components/plants/PlantCard.tsx` is view code and is not part of this model.

## Findings

| source | as written | input that shows it | evidently intended | confidence | as-written member | corrected member |
|---|---|---|---|---|---|---|
| src/lib/plantService.ts:173-183 | the `uses`/`location` coercion only applies to truthy values, so an empty string is copied into the record as a string | `updatePlant(id, { uses: "" })` stores `uses: ""` instead of a list | any supplied string becomes a one-element list, so `uses` and `location` are always lists | low-medium, not executed | Catalogue.AsWrittenKeepsEmptyScalar | Catalogue.NormalizeTags |
