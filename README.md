# Collaborative filtering by matrix factorisation, modelled in Dafny

This project models a small C++ recommender. It learns a latent row `U[i]` for every user and `V[j]` for every item from a sparse map of observed ratings `(user, item) -> rating`, and predicts a rating as the dot product `U[i] . V[j]`. The model has three parts.

- **The engine**, the `CollaborativeFiltering` class (`engine.dfy`, specified by `gauss_seidel.dfy`).
  - The constructor allocates `U` (`m x latent_dim`) and `V` (`n x latent_dim`) filled with zeros.
  - `fit` works in three steps:
    1. it indexes the training ratings both ways (user to items and item to users);
    2. it overwrites every factor entry with a uniform draw;
    3. it runs `num_iterations` sweeps.
  - Each sweep multiplies `eta` by `decay`, then updates the user rows and then the item rows in place, one rating at a time. This is Gauss-Seidel order: later updates read the rows that earlier updates wrote. Users are visited from 1 upwards, so user 0 is never touched.
  - `predict` is the dot product.
  - The class keeps its fields; `fit` and its loops are methods with `modifies` clauses, each proved equal to a pure specification function (`Initialize`, `Sweep`, `Sweeps`, `Fitted`).
- **The script-style trainer** (`collaborative_filtering.cpp`, modelled in `script.dfy` and specified by `jacobi.dfy`).
  - It reads records into a training map, a test map, both adjacency indexes, and the sets of every user and item id read.
  - Each sweep is double-buffered (Jacobi order): `U_new` and `V_new` are computed from the old `U` and `V` and swapped in together.
  - Its update has no factor 2 and sums the residuals of all of a row's ratings.
  - Rows of ids that were never read are reset to zero.
  - Its error report adds the raw, unclipped error.
- **The two experiments.**
  - `main.cpp` (`regression.dfy`): `emplace` reading, a shuffled exact-ratio train/test split, and the clipped mean absolute error.
  - `main_classification.cpp` (`classification.dfy`): 0/1 labelling, a per-record coin-flip split, and the accuracy.
  - The arithmetic they share is in `evaluation.dfy`.

Representation:
- `double` is modelled as `real` and `std::vector<std::vector<double>>` as `seq<seq<real>>`.
- `std::map<std::pair<int,int>, double>` is a `map<(int, int), real>` and `std::set<int>` a `set<int>`.
- Ascending iteration over a `std::set` / `std::map` is a sorted sequence (`Ordered.Ascending`, `Ordered.AscendingKeys`).
- Every random draw is an input:
  - the stream of uniform draws;
  - the coin flips;
  - the record fates of the script;
  - the permutation applied by `std::shuffle`.

## Model

| member | source | states |
|---|---|---|
| Ordered.Ascending | CollaborativeFiltering.cpp:78 | the visiting sequence of a `std::set<int>` lists exactly its elements, as many as the set has |
| Ordered.AscendingIncreasing | CollaborativeFiltering.cpp:78 | that sequence is strictly increasing, as `std::set` iteration is |
| Ordered.AscendingKeys | CollaborativeFiltering.cpp:52 | the visiting sequence of a ratings map lists exactly its keys, as many as there are keys |
| Ordered.AscendingKeysIncreasing | CollaborativeFiltering.cpp:52 | the keys come in strictly increasing lexicographic `(user, item)` order, as `std::map` iteration does |
| Ordered.AscendingKeysDistinct | main.cpp:26-29 | the key vector built from a map has no repeated key |
| Ratings.RatedItems | CollaborativeFiltering.cpp:56 | item `j` is in the set of user `u` iff `(u, j)` is a rated pair |
| Ratings.Raters | CollaborativeFiltering.cpp:57 | user `u` is in the set of item `j` iff `(u, j)` is a rated pair |
| Ratings.UsersOf | CollaborativeFiltering.cpp:56 | a user id gets an entry in `users_items` iff it rated at least one item |
| Ratings.ItemsOf | CollaborativeFiltering.cpp:57 | an item id gets an entry in `items_users` iff it was rated at least once |
| Ratings.Emplace | main.cpp:73 | `emplace` adds the key, never changes a value already present, and stores the value only for a new key |
| Ratings.Assign | collaborative_filtering.cpp:84 | definition: `operator[]` followed by assignment stores the value under the key, replacing any earlier one (also collaborative_filtering.cpp:89, main.cpp:36 and main.cpp:38); `Script.AssignedLast` states the last-write-wins consequence |
| Ratings.IndexUser | CollaborativeFiltering.cpp:56 | `users_items[user].insert(item)` keeps the user index exact when the key set gains `(user, item)` |
| Ratings.IndexItem | CollaborativeFiltering.cpp:57 | `items_users[item].insert(user)` keeps the item index exact when the key set gains `(user, item)` |
| Ratings.IndexAssigned | collaborative_filtering.cpp:84-86 | assigning a training rating and inserting into both adjacency sets keeps both indexes exact for the new key set |
| Ratings.IndexedAll | CollaborativeFiltering.cpp:52-58 | once every key is indexed, each index has an entry exactly for the ids that occur, and each entry (or the empty set that `operator[]` would create) is exactly that id's partners |
| Ratings.IndexesAll | collaborative_filtering.cpp:85-86 | the same conclusion from exact indexes of the final training map |
| Ratings.Copied | main.cpp:34-40 | definition: the keys `ks[lo..hi]` assigned in order into `m` with the values of `full`; `Ratings.CopiedContents` states its contents |
| Ratings.CopiedContents | main.cpp:34-40 | copying a stretch of keys with `operator[]` adds exactly those keys; each copied key takes the full map's value, every other key keeps its old value |
| Ratings.CopiedFresh | main.cpp:34-40 | copied into an empty map, the stretch yields exactly its keys with the full map's values |
| Ratings.ListedDistinct | main.cpp:32-39 | a key sequence without repeats has as many distinct keys as entries (the split sizes count keys) |
| LinearAlgebra.Dot | CollaborativeFiltering.cpp:37-43 | definition: the left-to-right sum of `v1[k] * v2[k]` over `k` below the length of `v1`, defined only when `v2` is at least as long; `DotProduct` proves the loop computes it |
| LinearAlgebra.DotProduct | CollaborativeFiltering.cpp:37-43 | the accumulator loop returns the sum of `v1[i] * v2[i]` over `i` below the length of `v1` (`Dot`); `v2` must be at least as long; collaborative_filtering.cpp:33-39 is the same loop |
| LinearAlgebra.DotPrefix | CollaborativeFiltering.cpp:39-40 | only the entries of `v2` below the length of `v1` affect the dot product |
| LinearAlgebra.DotSymmetric | CollaborativeFiltering.cpp:37-43 | for rows of equal length the dot product is symmetric |
| LinearAlgebra.DotZero | CollaborativeFiltering.cpp:101-104 | an all-zero user row predicts 0 (so a prediction before `fit` is 0) |
| LinearAlgebra.Zeros | CollaborativeFiltering.cpp:27-28 | the allocated table has the requested rows and columns, every entry 0.0 |
| LinearAlgebra.Refill | collaborative_filtering.cpp:25-31 | overwriting a table from a stream keeps its number of rows and every row's length |
| LinearAlgebra.RefillFromStream | CollaborativeFiltering.cpp:61-71 | with every draw in `[lo, hi)`, every overwritten entry is in `[lo, hi)` |
| LinearAlgebra.FillRow | collaborative_filtering.cpp:27-29 | the inner loop of `init_matrix` replaces a row by as many next draws as the row is long |
| LinearAlgebra.InitMatrix | collaborative_filtering.cpp:25-31 | `init_matrix` yields exactly `Refill` of the table: row by row, each row from the next draws |
| LinearAlgebra.Abs | main.cpp:121 | the absolute value is non-negative and equals `x` or `-x` |
| Evaluation.Clip | main.cpp:116-119 | a prediction below 0.5 becomes 1, one above 5 becomes 5, and one in `[0.5, 5]` is kept; so the result always lies in `[0.5, 5]` |
| Evaluation.ClipIdempotent | main.cpp:116-119 | clipping twice equals clipping once |
| Evaluation.ClipNeverWorse | main.cpp:116-121 | against a rating in `[1, 5]` the clipped error never exceeds the raw error |
| Evaluation.ClippedErrorSum | main.cpp:112-123 | the sum of clipped absolute errors is non-negative |
| Evaluation.RawErrorSum | collaborative_filtering.cpp:152-164 | the sum of raw absolute errors is non-negative |
| Evaluation.GuessThreeSum | main.cpp:122 | the sum of `abs(3 - r)` is non-negative |
| Evaluation.ClippedAtMostRaw | main.cpp:116-121 | with ratings in `[1, 5]` the clipped error sum is at most the raw error sum |
| Evaluation.ClippedErrorBounded | main.cpp:116-121 | with ratings in `[1, 5]` the clipped error sum is at most 4.5 per key, whatever the factors |
| Evaluation.RawErrorUnbounded | collaborative_filtering.cpp:154-162 | one rating of 5 with a dot product of `5 + c` gives raw error `c` but clipped error 0, for any `c >= 0` |
| Evaluation.Mean | main.cpp:125-126 | the mean of a non-negative sum is non-negative |
| Evaluation.MeanTimesSize | main.cpp:125-126 | the mean times the test-set size gives back the sum |
| Evaluation.Correct | main_classification.cpp:113 | definition: a hit is a prediction below 0.5 on a label 0 or above 0.5 on a label 1; `CorrectMeansSide` states it as an if-and-only-if |
| Evaluation.CorrectMeansSide | main_classification.cpp:113 | for a 0/1 label, a hit means the prediction is not 0.5 and lies above 0.5 iff the label is 1 |
| Evaluation.HitCount | main_classification.cpp:109-116 | the number of hits is at most the number of keys |
| Evaluation.AccuracyInRange | main_classification.cpp:118 | hits divided by a non-empty test-set size lie in `[0, 1]` |
| Engine.CollaborativeFiltering.constructor | CollaborativeFiltering.cpp:8-29 | every field takes its argument, `verbose` defaults to false (CollaborativeFiltering.h:29), and `U`, `V` are zero tables of `m` and `n` rows of `latent_dim` entries |
| Engine.CollaborativeFiltering.BuildAdjacency | CollaborativeFiltering.cpp:52-58 | after the loop, `users_items` has a key exactly for each user with a rating and `j` is in `users_items[u]` iff `(u, j)` is rated; symmetrically for `items_users` |
| Engine.CollaborativeFiltering.UpdateUser | CollaborativeFiltering.cpp:79-82 | `eij` is computed once from the current rows, then every entry `k` of `U[i]` becomes `U[i][k] - eta * (2 * eij * V[j][k] + lambda * U[i][k])`; no other row changes |
| Engine.CollaborativeFiltering.UpdateItem | CollaborativeFiltering.cpp:88-91 | the same rule for `V[j]` with partner `U[i]`; no other row changes |
| Engine.CollaborativeFiltering.VisitUserRow | CollaborativeFiltering.cpp:78-83 | user `i`'s row ends as `VisitUser` of its old row over the given items in order; all other rows are unchanged |
| Engine.CollaborativeFiltering.VisitItemRow | CollaborativeFiltering.cpp:87-92 | item `j`'s row ends as `VisitItem` over the given users in order; all other rows are unchanged |
| Engine.CollaborativeFiltering.UpdateUsers | CollaborativeFiltering.cpp:77-84 | the user pass leaves `U` equal to `UserPass` from user 1 to `m - 1`, each user over its rated items in ascending order |
| Engine.CollaborativeFiltering.UpdateItems | CollaborativeFiltering.cpp:86-93 | the item pass leaves `V` equal to `ItemPass` from item 0, reading the user rows the user pass just wrote |
| Engine.CollaborativeFiltering.InitializeFactors | CollaborativeFiltering.cpp:61-71 | the state becomes `Initialize`: `U` from the first `m * latent_dim` draws, then `V` from the next `n * latent_dim` |
| Engine.CollaborativeFiltering.Iterate | CollaborativeFiltering.cpp:74-93 | one iteration takes the state to `Sweep`: decay `eta`, then the user pass, then the item pass |
| Engine.CollaborativeFiltering.Fit | CollaborativeFiltering.cpp:45-99 | `fit` takes the state to `Fitted(Config, old state, draws, max(num_iterations, 0))`; the shapes stay valid |
| Engine.CollaborativeFiltering.Predict | CollaborativeFiltering.cpp:101-104 | returns `Dot(U[user], V[item])` and changes nothing |
| Engine.CollaborativeFiltering.GetU | CollaborativeFiltering.cpp:106-108 | returns `U` and changes nothing |
| Engine.CollaborativeFiltering.GetV | CollaborativeFiltering.cpp:110-112 | returns `V` and changes nothing |
| GaussSeidel.Problem.InRange | CollaborativeFiltering.cpp:77-92 | definition: every rated pair visited by the passes names an existing row: a pair whose user the user pass visits (`1 <= i < m`) has `0 <= j < n`, and a pair whose item the item pass visits (`0 <= j < n`) has `0 <= i < m`, so no `U[i]` or `V[j]` is read out of range |
| GaussSeidel.Initialize | CollaborativeFiltering.cpp:61-71 | initialisation keeps both shapes and leaves `eta` untouched |
| GaussSeidel.InitializeWithin | CollaborativeFiltering.cpp:61-71 | with draws in `[0, 1)` every entry of `U` and `V` is in `[0, 1)` afterwards |
| GaussSeidel.RefillIgnoresOldValues | CollaborativeFiltering.cpp:61-71 | the initialised tables depend only on the shapes and the draws, not on the old entries |
| GaussSeidel.Step | CollaborativeFiltering.cpp:80-82 | one per-rating update keeps the row length |
| GaussSeidel.StepWithoutResidual | CollaborativeFiltering.cpp:81 | with `eij = 0` each entry is scaled by `1 - eta * lambda` |
| GaussSeidel.StepShrinks | CollaborativeFiltering.cpp:81 | for `0 < eta * lambda < 2` that scaling strictly shrinks every non-zero entry in magnitude |
| GaussSeidel.VisitUser | CollaborativeFiltering.cpp:78-83 | visiting items keeps the row length |
| GaussSeidel.UserTurn | CollaborativeFiltering.cpp:78 | a user without ratings keeps its row |
| GaussSeidel.UserPass | CollaborativeFiltering.cpp:77-84 | the user pass keeps `U` `m x latent_dim` |
| GaussSeidel.UserPassKeeps | CollaborativeFiltering.cpp:77-78 | the user pass leaves the rows before its first user (user 0) and every user without ratings unchanged |
| GaussSeidel.VisitItem | CollaborativeFiltering.cpp:87-92 | visiting users keeps the row length |
| GaussSeidel.ItemTurn | CollaborativeFiltering.cpp:87 | an item without raters keeps its row |
| GaussSeidel.ItemPass | CollaborativeFiltering.cpp:86-93 | the item pass keeps `V` `n x latent_dim` |
| GaussSeidel.ItemPassKeeps | CollaborativeFiltering.cpp:86-87 | the item pass leaves every item without raters unchanged |
| GaussSeidel.Sweep | CollaborativeFiltering.cpp:74-93 | an iteration keeps both shapes |
| GaussSeidel.Sweeps | CollaborativeFiltering.cpp:74 | any number of iterations keeps both shapes |
| GaussSeidel.Fitted | CollaborativeFiltering.cpp:45-99 | `fit` never changes the shapes of `U` or `V` |
| GaussSeidel.SweepsRate | CollaborativeFiltering.cpp:74-75 | after `count` iterations the rate is `eta0 * decay^count` |
| GaussSeidel.SweepRate | CollaborativeFiltering.cpp:74-75 | iteration `t` (from 0) runs on the state of the first `t` iterations with rate `eta0 * decay^(t+1)` |
| GaussSeidel.RateDecreases | CollaborativeFiltering.cpp:75 | with `0 < decay < 1` and `eta0 > 0`, each iteration's rate is positive and strictly below the previous one |
| GaussSeidel.FitRate | CollaborativeFiltering.cpp:74-75 | after `fit`, `eta = eta0 * decay^count`, so a second `fit` starts from the decayed rate |
| GaussSeidel.FitForgetsFactors | CollaborativeFiltering.cpp:61-71 | two `fit`s from different factors but the same rate and draws give the same result |
| GaussSeidel.SweepKeeps | CollaborativeFiltering.cpp:77-93 | one iteration leaves `U[0]`, users without ratings and items without raters unchanged |
| GaussSeidel.SweepsKeep | CollaborativeFiltering.cpp:74-98 | so does any number of iterations |
| GaussSeidel.FitKeeps | CollaborativeFiltering.cpp:61-98 | after `fit`, `U[0]`, users without ratings and items without raters hold their random initial rows |
| Regression.ReadRatings | main.cpp:56-74 | a key is present iff some sampled record has it, and it holds the rating of the FIRST sampled record with that key |
| Regression.Shuffled | main.cpp:31 | shuffling keeps the number of keys |
| Regression.SplitKeys | main.cpp:26-31 | the shuffled key vector has one entry per key of the full map, each a key of it |
| Regression.TrainSize | main.cpp:32 | definition: `static_cast<size_t>(keys.size() * trainSplitRatio)`, the floor of the exact product for a non-negative ratio |
| Regression.Cut | main.cpp:32-35 | the training part is `trainSize = floor(size * ratio)` whenever that is below the key count, and all the keys otherwise (the loop then sends every key to training) |
| Regression.CutIsFloor | main.cpp:32 | when `size * ratio` is below the size the cut lies within 1 below the product, so it is its floor; once the product reaches the size the cut is the whole size |
| Regression.SplitSet | main.cpp:21-41 | the outputs are the given maps with the first `cut` shuffled keys copied into `trainMap` and the rest into `testMap`; `fullMap` is a value and cannot change; the ratio defaults to 0.8 |
| Regression.Distribute | main.cpp:34-40 | the loop sends position `i` to the training map when `i < trainSize` and to the test map otherwise |
| Regression.SplitKeysExact | main.cpp:26-31 | the shuffled keys are exactly the map's keys, each once |
| Regression.StretchesDisjoint | main.cpp:34-40 | the two stretches of a key vector without repeats have disjoint keys and together have all of them |
| Regression.StretchesPartition | main.cpp:34-40 | copied into empty maps, the two stretches partition the full map, with its values and sizes `cut` and `size - cut` |
| Regression.SplitPartition | main.cpp:21-41 | from empty outputs: train and test are disjoint, their union is `fullMap`, values agree, the training map has `cut = floor(size * ratio)` keys and the test map the rest |
| Regression.EvaluateMae | main.cpp:109-126 | `mae` is the mean of `abs(r - clip(predict(i, j)))` over the test set in key order, and `mae_3` the mean of `abs(3 - r)` |
| Regression.ClippedErrors | main.cpp:112-123 | the loop accumulates exactly the clipped error sum and the guess-3 sum |
| Regression.MaeBounds | main.cpp:109-126 | `mae >= 0`; with ratings in `[1, 5]`, `mae <= 4.5` and `mae` is at most the mean raw error |
| Regression.MeanBounds | main.cpp:116-126 | for ratings in `[1, 5]`, the mean clipped error is at most 4.5 and at most the mean raw error, over any key list as long as the test set |
| Classification.Label | main_classification.cpp:68-72 | a label exists iff the rating is below 2.5 or above 3.5; it is 0 or 1, and it is 1 iff the rating is above 3.5 |
| Classification.ReadLabels | main_classification.cpp:51-73 | a key is present iff a sampled record with a labelled rating has it; it holds the label of the first such record; every value is 0 or 1 |
| Classification.Routed | main_classification.cpp:29-35 | definition: the keys `ks[..hi]` whose coin equals `side` emplaced in order into `m` with the full map's values; `RoutedContents` states its contents |
| Classification.RoutedContents | main_classification.cpp:29-35 | emplacing the keys whose coin names a side adds exactly those keys, and never overwrites a value already in the output map |
| Classification.SplitSet | main_classification.cpp:24-36 | the outputs are the given maps with each key emplaced into the training map when its coin is true and into the test map otherwise |
| Classification.Deal | main_classification.cpp:29-35 | the loop routes each key by its coin |
| Classification.SplitPartition | main_classification.cpp:24-36 | from empty outputs: a key is in train iff its coin is true, train and test are disjoint, their union is the full map, values agree, and the two sizes add up to the size of the full map |
| Classification.DealtSides | main_classification.cpp:29-35 | the keys with a true coin and those with a false coin are disjoint and together are all keys |
| Classification.DealtPartition | main_classification.cpp:29-35 | the partition for any key sequence without repeats that lists every key |
| Classification.EvaluateAccuracy | main_classification.cpp:107-118 | `accuracy` is the hit count over the test set divided by its size, and lies in `[0, 1]` |
| Classification.CountHits | main_classification.cpp:109-116 | the loop counts exactly the hits |
| Jacobi.Setup.InRange | collaborative_filtering.cpp:118-136 | definition: every id in `users` is below `m`, every id in `items` below `n`, and both ids of every rated pair are in range, so `U[i]`, `U_new[i]`, `V[j]` and `V_new[j]` are in range |
| Jacobi.NewUserRow | collaborative_filtering.cpp:119-126 | the new row of user `i` has `K` entries, entry `k` being `U[i][k] - eta * (sum + lambda * U[i][k])` with the sum of `eij * V[j][k]` over `i`'s items in ascending order |
| Jacobi.UsersBuffer | collaborative_filtering.cpp:115-127 | `U_new` after visiting the users `order` is `m x K`: zero rows, then the new row of each visited user; `UsersBufferRow` states which row is which |
| Jacobi.NewItemRow | collaborative_filtering.cpp:130-137 | the new row of item `j` has `K` entries, entry `k` being `V[j][k] - eta * (sum + lambda * V[j][k])` with the sum of `eij * U[i][k]` over `j`'s raters in ascending order, read from the OLD `U` |
| Jacobi.ItemsBuffer | collaborative_filtering.cpp:116-138 | `V_new` after visiting the items `order` is `n x K`: zero rows, then the new row of each visited item; `ItemsBufferRow` states which row is which |
| Jacobi.JacobiUsers | collaborative_filtering.cpp:115-127 | the user buffer `U_new` is `m x K` |
| Jacobi.JacobiItems | collaborative_filtering.cpp:116-138 | the item buffer `V_new` is `n x K` |
| Jacobi.JacobiSweep | collaborative_filtering.cpp:113-141 | an iteration keeps both shapes |
| Jacobi.JacobiSweeps | collaborative_filtering.cpp:113 | any number of iterations keeps both shapes |
| Jacobi.Trained | collaborative_filtering.cpp:106-144 | the whole training keeps `U` `m x K` and `V` `n x K` |
| Jacobi.UsersBufferRow | collaborative_filtering.cpp:115-127 | in `U_new`, a visited user's row is its new row and any other row is all zeros |
| Jacobi.ItemsBufferRow | collaborative_filtering.cpp:129-138 | in `V_new`, a visited item's row is its new row and any other row is all zeros |
| Jacobi.SweepUserRow | collaborative_filtering.cpp:115-141 | after an iteration, a user in `users` holds its new row computed from the previous factors, and any other user row is all zeros |
| Jacobi.SweepItemRow | collaborative_filtering.cpp:115-141 | the same for items: the new row is computed from the OLD `U`, not from `U_new` |
| Jacobi.IdleUserScaled | collaborative_filtering.cpp:119-125 | a user without training ratings gets no gradient: each entry is scaled by `1 - eta * lambda` |
| Jacobi.IdleItemScaled | collaborative_filtering.cpp:130-136 | likewise for an item without training raters |
| Jacobi.SweepIdleUser | collaborative_filtering.cpp:113-141 | across an iteration, a user in `users` without training ratings leaves with its old row scaled by `1 - eta * lambda` at that iteration's rate |
| Jacobi.SweepIdleItem | collaborative_filtering.cpp:113-141 | likewise for an item in `items` without training raters |
| Jacobi.SingleRatingUpdate | collaborative_filtering.cpp:119-125 | for a user with one rating, `U_new[i][k] = U[i][k] - eta * (eij * V[j][k] + lambda * U[i][k])`, with no factor 2 |
| Jacobi.JacobiRate | collaborative_filtering.cpp:113-114 | after `count` iterations the rate is `eta0 * decay^count` |
| Jacobi.TrainedRate | collaborative_filtering.cpp:106-114 | training for `count` iterations from rate `eta0` ends at `eta0 * decay^count` |
| Jacobi.JacobiSweepsNext | collaborative_filtering.cpp:113 | iteration `t + 1` applies one iteration to the state after `t` |
| Jacobi.UnreadRowsZero | collaborative_filtering.cpp:115-141 | after at least one iteration, the rows of ids never read are all zero, whatever their random initial values |
| Script.LoadRecords | collaborative_filtering.cpp:65-96 | reading yields the training map and the test map assigned in order, both exact adjacency indexes, and the id sets of every record not skipped; every id of either map is in `users`/`items` |
| Script.Assigned | collaborative_filtering.cpp:82-90 | definition: the map `operator[]` builds from the records of one fate, assigned in reading order; `AssignedKeys` and `AssignedLast` state its contents |
| Script.ReadUsers | collaborative_filtering.cpp:94 | definition: the user ids of the records that were not skipped; `ReadIdsContents` states it as an if-and-only-if |
| Script.ReadItems | collaborative_filtering.cpp:95 | definition: the item ids of the records that were not skipped; `ReadIdsContents` states it as an if-and-only-if |
| Script.AssignedKeys | collaborative_filtering.cpp:82-90 | a key is in the training (test) map iff some record with that fate has it |
| Script.AssignedLast | collaborative_filtering.cpp:82-90 | each key holds the rating of the LAST record with that key and fate: `operator[]` overwrites |
| Script.ReadIdsContents | collaborative_filtering.cpp:94-95 | `users`/`items` hold exactly the ids of records not skipped, including ids seen only in the test set |
| Script.LoadedIndexes | collaborative_filtering.cpp:85-86 | after reading, `users_items[u]` (or the empty set `operator[]` would create) is exactly the items `u` rated in training; symmetrically for items |
| Script.UserSum | collaborative_filtering.cpp:120-124 | the inner loop accumulates `sum eij * V[j][k]` over the user's items in ascending order |
| Script.ItemSum | collaborative_filtering.cpp:131-135 | the inner loop accumulates `sum eij * U[i][k]` over the item's raters |
| Script.UserRow | collaborative_filtering.cpp:119-126 | the row of `U_new` equals `NewUserRow`: `U[i][k] - eta * (sum + lambda * U[i][k])` for every `k` |
| Script.ItemRow | collaborative_filtering.cpp:130-137 | the row of `V_new` equals `NewItemRow` |
| Script.UsersPass | collaborative_filtering.cpp:115-127 | `U_new` after the loop over `users` equals `JacobiUsers` |
| Script.ItemsPass | collaborative_filtering.cpp:116-138 | `V_new` after the loop over `items` equals `JacobiItems` |
| Script.Iteration | collaborative_filtering.cpp:113-141 | one iteration of the loop produces `JacobiSweep` of the previous factors |
| Script.TrainFactors | collaborative_filtering.cpp:106-144 | `U`, `V` and `eta` after initialisation and the loop equal `Trained(setup, draws, eta0, count)` |
| Script.ScriptSetup | collaborative_filtering.cpp:52-60 | definition: the setup with the script's settings `K = 15`, `m = 7000`, `n = 300000`, `lambda = 1e-3` and `decay = 0.9` |
| Script.ScriptSchedule | collaborative_filtering.cpp:52-60 | with those settings, `eta = 1e-4` and 15 iterations, training ends at rate `1e-4 * 0.9^15`, positive and strictly below the initial rate |
| Script.ScriptMae | collaborative_filtering.cpp:149-167 | `mae` is the mean RAW error `abs(dot(U[i], V[j]) - r)` over the test set in key order, and `mae_3` the mean of `abs(3 - r)`; the clipped value is computed and not used |
| Script.RawErrors | collaborative_filtering.cpp:152-164 | the loop accumulates exactly the raw error sum and the guess-3 sum |

## Left out

- File reading and CSV parsing:
  - `read_ratings`, the header skip, `stoi`/`stol`/`stod`, and the "Unable to open file" paths are not modelled;
  - records arrive already parsed, as a sequence of `(user, item, rating)`.
- Random generation is not modelled; its results are inputs:
  - `default_random_engine`, `bernoulli_distribution`, `uniform_real_distribution` and `std::shuffle`;
  - in their place the model takes the draw stream, the sampling and split coins, the script's record fates and the shuffle permutation;
  - the probabilities passed to the coins are not modelled.
- IEEE-754 arithmetic:
  - doubles are exact `real`s, so rounding, NaN and infinity are not modelled;
  - nothing about convergence or a decreasing loss is claimed;
  - `static_cast<size_t>(keys.size() * ratio)` is the floor of the exact product.
- Engine.CollaborativeFiltering.constructor: takes `latentDim`, `numUsers` and `numItems` as `nat`, where the source takes `int` and a negative value makes the `vector` constructor throw; every call site passes positive constants.
- Integer widths: ids and counts are unbounded integers. `int` overflow in `stoi`/`stol` and signed/unsigned comparisons are not modelled.
- Console output, including `verbose` printing and iteration messages, is not modelled; `verbose` is only stored.
- The `main` functions as whole programs, and their constant settings, are not modelled as methods. Each of their loops is modelled on its own. The script's settings are constants that `Script.ScriptSetup` and `Script.ScriptSchedule` use; its coin probabilities (0.6 and 0.8) only describe where the fates come from.
- Division by an empty test set is not modelled; it gives NaN in C++, and here a non-empty test set is a precondition.
- Out-of-range ids are undefined behaviour in C++. Here they are preconditions:
  - in the engine, ids that `fit` visits must name existing rows;
  - `predict` requires `0 <= user < m` and `0 <= item < n`;
  - in the script, every id read must be below `m` / `n`.
- `users_items[i]` and `items_users[j]` inside the passes create an empty entry for an id without ratings. The model reads the empty set instead and does not add the entry. The maps are local and discarded, so nothing observable changes.
- `abs` in main.cpp:121-122 and collaborative_filtering.cpp:162-163 is read as the floating-point absolute value. Which overload the unqualified call resolves to depends on the standard library headers, and those are not part of this model.
- `U_new[i][k]` in the script is written entry by entry. The model builds the whole row and then stores it. Nothing reads `U_new` in between.
- Evaluation and split loops visit keys in ascending order, as the code does. That the mean absolute error does not depend on the visiting order is not proved.
- The clip follows main.cpp:
  - a prediction below 0.5 becomes 1;
  - a prediction above 5 becomes 5;
  - anything in `[0.5, 5]` is kept, so the clipped range is `[0.5, 5]`, not `[1, 5]`.

## Findings

| source | as written | input that shows it | evidently intended | confidence | as-written member | corrected member |
|---|---|---|---|---|---|---|
| collaborative_filtering.cpp:154-162 | the prediction is clipped into `prediction`, but `mae` adds `abs(dot_product(U[i], V[j]) - r)`, so the clip is dead and the reported error is unclipped | one test rating of 5 whose factor rows have dot product `5 + c`: the raw error is `c` (unbounded in `c`), the clipped error is 0 | add `abs(r - prediction)` with the clipped prediction, as main.cpp:121 does, which bounds `mae` by 4.5 for ratings in `[1, 5]` | not executed | Script.ScriptMae, Evaluation.RawErrorUnbounded | Evaluation.ClippedErrorBounded |
