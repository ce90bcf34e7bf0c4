/** The like/dislike experiment (`main_classification.cpp`): ratings below
    2.5 become label 0, ratings above 3.5 label 1, and the rest are dropped;
    each labelled key goes to training or testing by its own coin; the
    trained engine is scored by the share of test keys whose prediction lies
    on the side of 0.5 that the label names. */
module Classification {
  import opened Ordered
  import opened Ratings
  import opened LinearAlgebra
  import opened Evaluation
  import opened Engine

  datatype Option<T> = None | Some(value: T)

  // ----------------------------------------------------------------- labels

  /** The label of a rating: 0 below 2.5, 1 above 3.5, and none for the
      ratings from 2.5 to 3.5, which the experiment drops. */
  function Label(rating: real): (r: Option<real>)
    ensures r.Some? <==> rating < 2.5 || rating > 3.5
    ensures r.Some? ==> r.value == 0.0 || r.value == 1.0
    ensures r == Some(1.0) <==> rating > 3.5
  {
    if rating < 2.5 then Some(0.0)
    else if rating > 3.5 then Some(1.0)
    else None
  }

  /** Every value of `ratings` is a 0/1 label. */
  ghost predicate Binary(ratings: RatingMap)
  {
    forall k :: k in ratings ==> ratings[k] == 0.0 || ratings[k] == 1.0
  }

  /** Record `t` is sampled, has a label, and no earlier sampled and
      labelled record has its key. */
  ghost predicate FirstLabelled(records: seq<Record>, sampled: seq<bool>, t: int)
    requires |sampled| == |records|
  {
    && 0 <= t < |records| && sampled[t] && Label(records[t].rating).Some?
    && forall s :: 0 <= s < t && sampled[s] && Label(records[s].rating).Some? ==> records[s].Key() != records[t].Key()
  }

  /** The insertion loop of `read_ratings`: a record whose sampling coin
      came up true and whose rating has a label is inserted with `emplace`.
      A key is present exactly when some sampled, labelled record has it; it
      keeps the label of the first such record; and every value is 0 or 1. */
  method ReadLabels(records: seq<Record>, sampled: seq<bool>) returns (ratings: RatingMap)
    requires |sampled| == |records|
    ensures forall k :: k in ratings <==>
              exists t :: 0 <= t < |records| && sampled[t] && Label(records[t].rating).Some? && records[t].Key() == k
    ensures forall t :: FirstLabelled(records, sampled, t) ==>
              ratings[records[t].Key()] == Label(records[t].rating).value
    ensures Binary(ratings)
  {
    ratings := map[];
    var i := 0;
    while i < |records|
      invariant 0 <= i <= |records|
      invariant forall k :: k in ratings <==>
                  exists t :: 0 <= t < i && sampled[t] && Label(records[t].rating).Some? && records[t].Key() == k
      invariant forall t :: 0 <= t < i && FirstLabelled(records, sampled, t) ==>
                  ratings[records[t].Key()] == Label(records[t].rating).value
      invariant Binary(ratings)
    {
      if sampled[i] {
        var rating := records[i].rating;
        if rating < 2.5 {
          ratings := Emplace(ratings, records[i].Key(), 0.0);
        } else if rating > 3.5 {
          ratings := Emplace(ratings, records[i].Key(), 1.0);
        }
      }
      i := i + 1;
    }
  }

  // -------------------------------------------------------------- splitting

  /** `m` after `m.emplace(k, full.at(k))` for each `k = ks[t]` with
      `t < hi` whose coin `coins[t]` equals `side`, in order. */
  function Routed(m: RatingMap, full: RatingMap, ks: seq<Key>, coins: seq<bool>, side: bool, hi: nat): RatingMap
    requires hi <= |ks| == |coins| && AllIn(ks, full)
  {
    if hi == 0 then m
    else
      var rest := Routed(m, full, ks, coins, side, hi - 1);
      if coins[hi - 1] == side then Emplace(rest, ks[hi - 1], full[ks[hi - 1]]) else rest
  }

  /** The keys among the first `hi` of `ks` whose coin equals `side`. */
  ghost function Dealt(ks: seq<Key>, coins: seq<bool>, side: bool, hi: nat): set<Key>
    requires hi <= |ks| == |coins|
  {
    set t | 0 <= t < hi && coins[t] == side :: ks[t]
  }

  /** After routing, the keys are the old ones plus those dealt to `side`; a
      key already present keeps its value (`emplace` never overwrites) and
      a new key holds its value in `full`. */
  lemma {:induction false} RoutedContents(m: RatingMap, full: RatingMap, ks: seq<Key>, coins: seq<bool>, side: bool, hi: nat)
    requires hi <= |ks| == |coins| && AllIn(ks, full)
    ensures Routed(m, full, ks, coins, side, hi).Keys == m.Keys + Dealt(ks, coins, side, hi)
    ensures forall k :: k in Routed(m, full, ks, coins, side, hi) ==>
              Routed(m, full, ks, coins, side, hi)[k] == if k in m then m[k] else full[k]
  {
    if hi != 0 {
      RoutedContents(m, full, ks, coins, side, hi - 1);
      if coins[hi - 1] == side {
        assert Dealt(ks, coins, side, hi) == Dealt(ks, coins, side, hi - 1) + {ks[hi - 1]};
      } else {
        assert Dealt(ks, coins, side, hi) == Dealt(ks, coins, side, hi - 1);
      }
    }
  }

  /** `split_set`: the keys of `fullMap` in ascending order, each emplaced
      into `trainMap` when its coin came up true and into `testMap`
      otherwise. */
  method SplitSet(fullMap: RatingMap, trainMap: RatingMap, testMap: RatingMap, coins: seq<bool>)
      returns (train: RatingMap, test: RatingMap)
    requires |coins| == |fullMap.Keys|
    ensures var keys := AscendingKeys(fullMap.Keys);
            && train == Routed(trainMap, fullMap, keys, coins, true, |keys|)
            && test == Routed(testMap, fullMap, keys, coins, false, |keys|)
  {
    var keys := AscendingKeys(fullMap.Keys);
    assert AllIn(keys, fullMap);
    train, test := Deal(fullMap, trainMap, testMap, keys, coins);
  }

  /** The loop of `split_set` over the keys in order. */
  method Deal(fullMap: RatingMap, trainMap: RatingMap, testMap: RatingMap, keys: seq<Key>, coins: seq<bool>)
      returns (train: RatingMap, test: RatingMap)
    requires |keys| == |coins| && AllIn(keys, fullMap)
    ensures train == Routed(trainMap, fullMap, keys, coins, true, |keys|)
    ensures test == Routed(testMap, fullMap, keys, coins, false, |keys|)
  {
    train, test := trainMap, testMap;
    var i := 0;
    while i < |keys|
      invariant 0 <= i <= |keys|
      invariant train == Routed(trainMap, fullMap, keys, coins, true, i)
      invariant test == Routed(testMap, fullMap, keys, coins, false, i)
    {
      if coins[i] {
        train := Emplace(train, keys[i], fullMap[keys[i]]);
      } else {
        test := Emplace(test, keys[i], fullMap[keys[i]]);
      }
      i := i + 1;
    }
  }

  /** With both output maps empty beforehand, `split_set` partitions
      `fullMap`: a key is in the training map exactly when its coin came up
      true, the two maps share no key and together hold every key, each with
      its value in `fullMap`, and their sizes add up to the size of
      `fullMap`. */
  lemma SplitPartition(fullMap: RatingMap, coins: seq<bool>)
    requires |coins| == |fullMap.Keys|
    ensures var keys := AscendingKeys(fullMap.Keys);
            var train := Routed(map[], fullMap, keys, coins, true, |keys|);
            var test := Routed(map[], fullMap, keys, coins, false, |keys|);
            && (forall t :: 0 <= t < |keys| ==> (keys[t] in train <==> coins[t]))
            && train.Keys !! test.Keys
            && train.Keys + test.Keys == fullMap.Keys
            && (forall k :: k in train ==> train[k] == fullMap[k])
            && (forall k :: k in test ==> test[k] == fullMap[k])
            && |train| + |test| == |fullMap|
  {
    var keys := AscendingKeys(fullMap.Keys);
    assert AllIn(keys, fullMap);
    AscendingKeysDistinct(fullMap.Keys);
    assert Listed(keys) == fullMap.Keys;
    DealtPartition(fullMap, keys, coins);
  }

  /** In a sequence without repetitions, a key is dealt to the true side
      exactly when its coin is true; the two sides share no key and
      together list the whole sequence. */
  lemma DealtSides(keys: seq<Key>, coins: seq<bool>)
    requires |keys| == |coins| && Distinct(keys)
    ensures var yes := Dealt(keys, coins, true, |keys|);
            var no := Dealt(keys, coins, false, |keys|);
            && (forall t :: 0 <= t < |keys| ==> (keys[t] in yes <==> coins[t]))
            && yes !! no
            && yes + no == Listed(keys)
  {
    var n := |keys|;
    var yes := Dealt(keys, coins, true, n);
    var no := Dealt(keys, coins, false, n);
    forall t | 0 <= t < n ensures keys[t] in yes <==> coins[t] {
      if keys[t] in yes {
        var s :| 0 <= s < n && coins[s] && keys[s] == keys[t];
        assert s == t;
      }
    }
    forall k | k in yes ensures k !in no {
      var s :| 0 <= s < n && coins[s] && keys[s] == k;
      assert keys[s] in yes;
    }
    forall k | k in Listed(keys) ensures k in yes + no {
      var t :| 0 <= t < n && keys[t] == k;
      if coins[t] { assert k in yes; } else { assert k in no; }
    }
  }

  /** The keys dealt to the two sides of a sequence that lists every key of
      `fullMap` exactly once partition `fullMap`. */
  lemma DealtPartition(fullMap: RatingMap, keys: seq<Key>, coins: seq<bool>)
    requires |keys| == |coins| && AllIn(keys, fullMap) && Distinct(keys)
    requires Listed(keys) == fullMap.Keys
    ensures var train := Routed(map[], fullMap, keys, coins, true, |keys|);
            var test := Routed(map[], fullMap, keys, coins, false, |keys|);
            && (forall t :: 0 <= t < |keys| ==> (keys[t] in train <==> coins[t]))
            && train.Keys !! test.Keys
            && train.Keys + test.Keys == fullMap.Keys
            && (forall k :: k in train ==> train[k] == fullMap[k])
            && (forall k :: k in test ==> test[k] == fullMap[k])
            && |train| + |test| == |fullMap|
  {
    var n := |keys|;
    RoutedContents(map[], fullMap, keys, coins, true, n);
    RoutedContents(map[], fullMap, keys, coins, false, n);
    DealtSides(keys, coins);
    var yes := Dealt(keys, coins, true, n);
    var no := Dealt(keys, coins, false, n);
    assert Routed(map[], fullMap, keys, coins, true, n).Keys == yes;
    assert Routed(map[], fullMap, keys, coins, false, n).Keys == no;
    assert |yes + no| == |yes| + |no|;
    assert |fullMap| == |fullMap.Keys|;
  }

  // ------------------------------------------------------------- evaluation

  /** The accuracy loop of `main`: over the test set in key order, a hit is
      counted when the prediction is on the side of 0.5 that the label
      names; the count is then divided by the test-set size. */
  method EvaluateAccuracy(cf: CollaborativeFiltering, test: RatingMap) returns (accuracy: real)
    requires cf.Valid() && |test| > 0
    requires forall k :: k in test ==> 0 <= k.0 < cf.m && 0 <= k.1 < cf.n
    ensures Predictable(cf.U, cf.V, test)
    ensures accuracy == Mean(HitCount(test, cf.U, cf.V, AscendingKeys(test.Keys)) as real, |test|)
    ensures 0.0 <= accuracy <= 1.0
  {
    var ks := AscendingKeys(test.Keys);
    var hits := CountHits(cf, test, ks);
    assert |ks| == |test|;
    AccuracyInRange(HitCount(test, cf.U, cf.V, ks), |test|);
    accuracy := hits / |test| as real;
  }

  /** The loop of the accuracy over the keys `ks`: one hit per key whose
      prediction is on the side of 0.5 that its label names. */
  method CountHits(cf: CollaborativeFiltering, test: RatingMap, ks: seq<Key>) returns (hits: real)
    requires cf.Valid() && Predictable(cf.U, cf.V, test) && KeysOf(ks, test)
    requires forall k :: k in test ==> 0 <= k.0 < cf.m && 0 <= k.1 < cf.n
    ensures hits == HitCount(test, cf.U, cf.V, ks) as real
  {
    hits := 0.0;
    var t := 0;
    while t < |ks|
      invariant 0 <= t <= |ks|
      invariant hits == HitCount(test, cf.U, cf.V, ks[..t]) as real
    {
      var (i, j) := ks[t];
      var prediction := cf.Predict(i, j);
      assert ks[..t + 1][..t] == ks[..t];
      if (prediction < 0.5 && test[ks[t]] == 0.0) || (prediction > 0.5 && test[ks[t]] == 1.0) {
        hits := hits + 1.0;
      }
      t := t + 1;
    }
    assert ks[..t] == ks;
  }
}
