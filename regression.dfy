/** The rating-prediction experiment (`main.cpp`): reading the ratings with
    `emplace`, the shuffled exact-ratio train/test split, and the clipped
    mean absolute error of the trained engine on the test set. */
module Regression {
  import opened Ordered
  import opened Ratings
  import opened LinearAlgebra
  import opened Evaluation
  import opened Engine

  // ------------------------------------------------------------------ reading

  /** Record `t` is sampled and no earlier sampled record has its key. */
  ghost predicate FirstSampled(records: seq<Record>, sampled: seq<bool>, t: int)
    requires |sampled| == |records|
  {
    && 0 <= t < |records| && sampled[t]
    && forall s :: 0 <= s < t && sampled[s] ==> records[s].Key() != records[t].Key()
  }

  /** The insertion loop of `read_ratings`: each record whose sampling coin
      came up true is inserted with `emplace`.  A key is present exactly
      when some sampled record has it, and it keeps the rating of the first
      such record. */
  method ReadRatings(records: seq<Record>, sampled: seq<bool>) returns (ratings: RatingMap)
    requires |sampled| == |records|
    ensures forall k :: k in ratings <==> exists t :: 0 <= t < |records| && sampled[t] && records[t].Key() == k
    ensures forall t :: FirstSampled(records, sampled, t) ==> ratings[records[t].Key()] == records[t].rating
  {
    ratings := map[];
    var i := 0;
    while i < |records|
      invariant 0 <= i <= |records|
      invariant forall k :: k in ratings <==> exists t :: 0 <= t < i && sampled[t] && records[t].Key() == k
      invariant forall t :: 0 <= t < i && FirstSampled(records, sampled, t) ==> ratings[records[t].Key()] == records[t].rating
    {
      if sampled[i] {
        ratings := Emplace(ratings, records[i].Key(), records[i].rating);
      }
      i := i + 1;
    }
  }

  // -------------------------------------------------------------- splitting

  /** `order` lists every index below `n` exactly once: the effect of
      `std::shuffle` on a vector of `n` keys is `keys[order[0]],
      keys[order[1]], ...`. */
  ghost predicate IsPermutation(order: seq<int>, n: nat)
  {
    && |order| == n
    && (forall i :: 0 <= i < n ==> 0 <= order[i] < n)
    && (forall i, j :: 0 <= i < j < n ==> order[i] != order[j])
    && (forall p :: 0 <= p < n ==> p in order)
  }

  /** `keys` rearranged by the permutation `order`. */
  function Shuffled(keys: seq<Key>, order: seq<int>): (r: seq<Key>)
    requires IsPermutation(order, |keys|)
    ensures |r| == |keys|
  {
    seq(|keys|, i requires 0 <= i < |keys| => keys[order[i]])
  }

  /** The keys of `fullMap` as `split_set` visits them: in ascending order,
      then rearranged by `order`.  Each is a key of `fullMap`. */
  function SplitKeys(fullMap: RatingMap, order: seq<int>): (keys: seq<Key>)
    requires IsPermutation(order, |fullMap.Keys|)
    ensures |keys| == |fullMap.Keys|
    ensures AllIn(keys, fullMap)
  {
    var sorted := AscendingKeys(fullMap.Keys);
    assert forall t :: 0 <= t < |sorted| ==> sorted[t] in fullMap;
    Shuffled(sorted, order)
  }

  /** `static_cast<size_t>(keys.size() * trainSplitRatio)`: the product
      truncated to a whole number (a floor, since neither factor is
      negative). */
  function TrainSize(size: nat, ratio: real): nat
    requires ratio >= 0.0
  {
    (size as real * ratio).Floor
  }

  /** Where the shuffled keys are cut: the first `Cut` go to training. */
  function Cut(size: nat, ratio: real): (r: nat)
    requires ratio >= 0.0
    ensures r <= size
    ensures TrainSize(size, ratio) < size ==> r == TrainSize(size, ratio)
    ensures TrainSize(size, ratio) >= size ==> r == size
  {
    var t := TrainSize(size, ratio);
    if t < size then t else size
  }

  /** The training part is `floor(size * ratio)` keys, or all of them when
      that is larger than the size. */
  lemma CutIsFloor(size: nat, ratio: real)
    requires ratio >= 0.0
    ensures var c := Cut(size, ratio);
            size as real * ratio < size as real ==> c as real <= size as real * ratio < c as real + 1.0
    ensures size as real * ratio >= size as real ==> Cut(size, ratio) == size
  {
    var x := size as real * ratio;
    var t := TrainSize(size, ratio);
    assert t as real <= x < t as real + 1.0;
    if x >= size as real {
      assert t + 1 > size;
    }
  }

  /** `split_set`: the keys of `fullMap` in ascending order, shuffled, then
      the first `trainSize` of them assigned into `trainMap` and the rest
      into `testMap` (both through `operator[]`, so whatever those maps held
      under the same keys is overwritten).  `fullMap` itself is a value and
      cannot change.  The shuffle is given as the permutation `order`; the
      ratio defaults to 0.8. */
  method SplitSet(fullMap: RatingMap, trainMap: RatingMap, testMap: RatingMap, order: seq<int>, ratio: real := 0.8)
      returns (train: RatingMap, test: RatingMap)
    requires ratio >= 0.0
    requires IsPermutation(order, |fullMap.Keys|)
    ensures var keys := SplitKeys(fullMap, order);
            var cut := Cut(|keys|, ratio);
            && train == Copied(trainMap, fullMap, keys, 0, cut)
            && test == Copied(testMap, fullMap, keys, cut, |keys|)
  {
    var keys := SplitKeys(fullMap, order);
    var trainSize := TrainSize(|keys|, ratio);
    train, test := Distribute(fullMap, trainMap, testMap, keys, trainSize);
  }

  /** The loop of `split_set` over the shuffled keys: position `i` goes to
      the training map when `i < trainSize` and to the test map otherwise. */
  method Distribute(fullMap: RatingMap, trainMap: RatingMap, testMap: RatingMap, keys: seq<Key>, trainSize: nat)
      returns (train: RatingMap, test: RatingMap)
    requires AllIn(keys, fullMap)
    ensures var cut := if trainSize < |keys| then trainSize else |keys|;
            && train == Copied(trainMap, fullMap, keys, 0, cut)
            && test == Copied(testMap, fullMap, keys, cut, |keys|)
  {
    ghost var cut := if trainSize < |keys| then trainSize else |keys|;
    train, test := trainMap, testMap;
    var i := 0;
    while i < |keys|
      invariant 0 <= i <= |keys|
      invariant i <= cut ==> train == Copied(trainMap, fullMap, keys, 0, i) && test == testMap
      invariant cut <= i ==> train == Copied(trainMap, fullMap, keys, 0, cut)
      invariant cut <= i ==> test == Copied(testMap, fullMap, keys, cut, i)
    {
      if i < trainSize {
        train := Assign(train, keys[i], fullMap[keys[i]]);
      } else {
        test := Assign(test, keys[i], fullMap[keys[i]]);
      }
      i := i + 1;
    }
  }

  /** The visiting order of `split_set` lists every key of `fullMap`
      exactly once. */
  lemma SplitKeysExact(fullMap: RatingMap, order: seq<int>)
    requires IsPermutation(order, |fullMap.Keys|)
    ensures Distinct(SplitKeys(fullMap, order))
    ensures Listed(SplitKeys(fullMap, order)) == fullMap.Keys
  {
    var sorted := AscendingKeys(fullMap.Keys);
    var keys := SplitKeys(fullMap, order);
    AscendingKeysDistinct(fullMap.Keys);
    forall p, q | 0 <= p < |keys| && 0 <= q < |keys| && p != q ensures keys[p] != keys[q] {
      assert keys[p] == sorted[order[p]] && keys[q] == sorted[order[q]];
    }
    forall x | x in fullMap.Keys ensures x in Listed(keys) {
      assert x in sorted;
      var p :| 0 <= p < |sorted| && sorted[p] == x;
      assert p in order;
      var i :| 0 <= i < |order| && order[i] == p;
      assert keys[i] == x;
    }
  }

  /** Two stretches of a sequence without repetitions that do not overlap
      list disjoint sets of keys, and together list the whole sequence. */
  lemma StretchesDisjoint(ks: seq<Key>, cut: nat)
    requires Distinct(ks) && cut <= |ks|
    ensures Listed(ks[0..cut]) !! Listed(ks[cut..|ks|])
    ensures Listed(ks[0..cut]) + Listed(ks[cut..|ks|]) == Listed(ks)
    ensures Distinct(ks[0..cut]) && Distinct(ks[cut..|ks|])
  {
    forall x | x in Listed(ks[0..cut]) ensures x !in ks[cut..|ks|] {
      var p :| 0 <= p < cut && ks[0..cut][p] == x;
      forall q | 0 <= q < |ks| - cut ensures ks[cut..|ks|][q] != x {
        assert ks[cut..|ks|][q] == ks[cut + q];
      }
    }
    assert ks == ks[0..cut] + ks[cut..|ks|];
  }

  /** Copying into empty maps the two stretches of a sequence that lists
      every key of `fullMap` exactly once partitions `fullMap`. */
  lemma StretchesPartition(fullMap: RatingMap, keys: seq<Key>, cut: nat)
    requires cut <= |keys| && AllIn(keys, fullMap)
    requires Distinct(keys) && Listed(keys) == fullMap.Keys
    ensures var train := Copied(map[], fullMap, keys, 0, cut);
            var test := Copied(map[], fullMap, keys, cut, |keys|);
            && train.Keys !! test.Keys
            && train.Keys + test.Keys == fullMap.Keys
            && (forall k :: k in train ==> train[k] == fullMap[k])
            && (forall k :: k in test ==> test[k] == fullMap[k])
            && |train| == cut && |test| == |fullMap| - cut
  {
    StretchesDisjoint(keys, cut);
    CopiedFresh(fullMap, keys, 0, cut);
    CopiedFresh(fullMap, keys, cut, |keys|);
    ListedDistinct(keys[0..cut]);
    ListedDistinct(keys[cut..|keys|]);
    ListedDistinct(keys);
    assert |Copied(map[], fullMap, keys, 0, cut)| == |Copied(map[], fullMap, keys, 0, cut).Keys|;
    assert |Copied(map[], fullMap, keys, cut, |keys|)| == |Copied(map[], fullMap, keys, cut, |keys|).Keys|;
    assert |fullMap| == |fullMap.Keys|;
  }

  /** With both output maps empty beforehand, `split_set` partitions
      `fullMap`: the two maps have no key in common, together they hold
      every key, each with its value in `fullMap`, and the training map gets
      exactly `floor(|fullMap| * ratio)` keys (all of them when that exceeds
      the size) while the test map gets the rest. */
  lemma SplitPartition(fullMap: RatingMap, ratio: real, order: seq<int>)
    requires ratio >= 0.0
    requires IsPermutation(order, |fullMap.Keys|)
    ensures var keys := SplitKeys(fullMap, order);
            var cut := Cut(|keys|, ratio);
            var train := Copied(map[], fullMap, keys, 0, cut);
            var test := Copied(map[], fullMap, keys, cut, |keys|);
            && train.Keys !! test.Keys
            && train.Keys + test.Keys == fullMap.Keys
            && (forall k :: k in train ==> train[k] == fullMap[k])
            && (forall k :: k in test ==> test[k] == fullMap[k])
            && |train| == cut && |test| == |fullMap| - cut
  {
    SplitKeysExact(fullMap, order);
    StretchesPartition(fullMap, SplitKeys(fullMap, order), Cut(|fullMap.Keys|, ratio));
  }

  // ------------------------------------------------------------- evaluation

  /** The evaluation loop of `main`: over the test set in key order, the
      engine's prediction is clipped and `|r - clipped|` is added to `mae`,
      `|3 - r|` to `mae_3`; both are then divided by the test-set size. */
  method EvaluateMae(cf: CollaborativeFiltering, test: RatingMap) returns (mae: real, mae3: real)
    requires cf.Valid() && |test| > 0
    requires forall k :: k in test ==> 0 <= k.0 < cf.m && 0 <= k.1 < cf.n
    ensures Predictable(cf.U, cf.V, test)
    ensures mae == Mean(ClippedErrorSum(test, cf.U, cf.V, AscendingKeys(test.Keys)), |test|)
    ensures mae3 == Mean(GuessThreeSum(test, AscendingKeys(test.Keys)), |test|)
  {
    var ks := AscendingKeys(test.Keys);
    var sum, sum3 := ClippedErrors(cf, test, ks);
    assert |ks| == |test|;
    mae := sum / |test| as real;
    mae3 := sum3 / |test| as real;
  }

  /** The loop of the evaluation over the keys `ks`: the clipped error and
      the error of guessing 3 are added key by key. */
  method ClippedErrors(cf: CollaborativeFiltering, test: RatingMap, ks: seq<Key>) returns (sum: real, sum3: real)
    requires cf.Valid() && Predictable(cf.U, cf.V, test) && KeysOf(ks, test)
    requires forall k :: k in test ==> 0 <= k.0 < cf.m && 0 <= k.1 < cf.n
    ensures sum == ClippedErrorSum(test, cf.U, cf.V, ks)
    ensures sum3 == GuessThreeSum(test, ks)
  {
    sum, sum3 := 0.0, 0.0;
    var t := 0;
    while t < |ks|
      invariant 0 <= t <= |ks|
      invariant sum == ClippedErrorSum(test, cf.U, cf.V, ks[..t])
      invariant sum3 == GuessThreeSum(test, ks[..t])
    {
      var (i, j) := ks[t];
      var prediction := cf.Predict(i, j);
      prediction := Clip(prediction);
      assert ks[..t + 1][..t] == ks[..t];
      sum := sum + Abs(test[ks[t]] - prediction);
      sum3 := sum3 + Abs(3.0 - test[ks[t]]);
      t := t + 1;
    }
    assert ks[..t] == ks;
  }

  /** The reported `mae` is never negative, and with ratings on the 1..5
      scale it is at most 4.5 and never above the error of the unclipped
      predictions. */
  lemma MaeBounds(test: RatingMap, U: Matrix, V: Matrix)
    requires |test| > 0 && Predictable(U, V, test)
    ensures var ks := AscendingKeys(test.Keys);
            0.0 <= Mean(ClippedErrorSum(test, U, V, ks), |test|)
    ensures var ks := AscendingKeys(test.Keys);
            OnScale(test) ==>
              && Mean(ClippedErrorSum(test, U, V, ks), |test|) <= 4.5
              && Mean(ClippedErrorSum(test, U, V, ks), |test|) <= Mean(RawErrorSum(test, U, V, ks), |test|)
  {
    var ks := AscendingKeys(test.Keys);
    assert KeysOf(ks, test);
    assert |ks| == |test|;
    if OnScale(test) {
      MeanBounds(test, U, V, ks);
    }
  }

  /** The bounds of `MaeBounds` over any list of keys of `test` as long as
      the test set. */
  lemma MeanBounds(test: RatingMap, U: Matrix, V: Matrix, ks: seq<Key>)
    requires |ks| == |test| > 0 && Predictable(U, V, test) && KeysOf(ks, test) && OnScale(test)
    ensures Mean(ClippedErrorSum(test, U, V, ks), |test|) <= 4.5
    ensures Mean(ClippedErrorSum(test, U, V, ks), |test|) <= Mean(RawErrorSum(test, U, V, ks), |test|)
  {
    ClippedErrorBounded(test, U, V, ks);
    ClippedAtMostRaw(test, U, V, ks);
    MeanOrder(ClippedErrorSum(test, U, V, ks), RawErrorSum(test, U, V, ks), |ks|);
  }

  /** The arithmetic step of `MeanBounds`. */
  lemma MeanOrder(clipped: real, raw: real, size: nat)
    requires size > 0 && clipped <= 4.5 * size as real && clipped <= raw
    ensures Mean(clipped, size) <= 4.5
    ensures Mean(clipped, size) <= Mean(raw, size)
  {
    MeanAtMost(clipped, size, 4.5);
    MeanMonotone(clipped, raw, size);
  }
}
