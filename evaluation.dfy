/** The evaluation arithmetic shared by the three programs: the clip applied
    to a predicted rating, the error sums behind the mean absolute errors,
    and the hit count behind the classification accuracy.  Every sum runs
    over a sequence of test keys, added in sequence order. */
module Evaluation {
  import opened Ordered
  import opened Ratings
  import opened LinearAlgebra

  // -------------------------------------------------------------------- clip

  /** The clip of `main`: a prediction below 0.5 becomes 1, one above 5
      becomes 5, and anything in between is kept. */
  function Clip(prediction: real): (r: real)
    ensures 0.5 <= r <= 5.0
    ensures prediction < 0.5 ==> r == 1.0
    ensures prediction > 5.0 ==> r == 5.0
    ensures 0.5 <= prediction <= 5.0 ==> r == prediction
  {
    if prediction < 0.5 then 1.0
    else if prediction > 5.0 then 5.0
    else prediction
  }

  /** Clipping twice is clipping once. */
  lemma ClipIdempotent(prediction: real)
    ensures Clip(Clip(prediction)) == Clip(prediction)
  {
  }

  /** Against a rating on the 1..5 scale, the clipped prediction is never
      further off than the raw one. */
  lemma ClipNeverWorse(prediction: real, rating: real)
    requires 1.0 <= rating <= 5.0
    ensures Abs(rating - Clip(prediction)) <= Abs(rating - prediction)
  {
  }

  // ------------------------------------------------------------- predictions

  /** Every key of `test` names a row of `U` and a row of `V`, and the user
      row is no longer than the item row, so `dot_product(U[i], V[j])` reads
      only existing entries. */
  ghost predicate Predictable(U: Matrix, V: Matrix, test: RatingMap)
  {
    forall k :: k in test ==> 0 <= k.0 < |U| && 0 <= k.1 < |V| && |U[k.0]| <= |V[k.1]|
  }

  /** Every element of `ks` is a key of `test`. */
  ghost predicate KeysOf(ks: seq<Key>, test: RatingMap)
  {
    forall t :: 0 <= t < |ks| ==> ks[t] in test
  }

  /** The score of key `k = (i, j)`: `dot_product(U[i], V[j])`. */
  function Score(U: Matrix, V: Matrix, test: RatingMap, k: Key): real
    requires Predictable(U, V, test) && k in test
  {
    Dot(U[k.0], V[k.1])
  }

  // -------------------------------------------------------------- error sums

  /** `sum |r - clip(prediction)|` over the keys `ks` (the `mae` of `main`
      before the division). */
  function ClippedErrorSum(test: RatingMap, U: Matrix, V: Matrix, ks: seq<Key>): (sum: real)
    requires Predictable(U, V, test) && KeysOf(ks, test)
    ensures sum >= 0.0
  {
    if ks == [] then 0.0
    else
      var k := ks[|ks| - 1];
      ClippedErrorSum(test, U, V, ks[..|ks| - 1]) + Abs(test[k] - Clip(Score(U, V, test, k)))
  }

  /** `sum |dot(U[i], V[j]) - r|` over the keys `ks` (the `mae` of the script
      trainer before the division: the raw, unclipped prediction). */
  function RawErrorSum(test: RatingMap, U: Matrix, V: Matrix, ks: seq<Key>): (sum: real)
    requires Predictable(U, V, test) && KeysOf(ks, test)
    ensures sum >= 0.0
  {
    if ks == [] then 0.0
    else
      var k := ks[|ks| - 1];
      RawErrorSum(test, U, V, ks[..|ks| - 1]) + Abs(Score(U, V, test, k) - test[k])
  }

  /** `sum |3 - r|` over the keys `ks` (the `mae_3` baseline that always
      guesses 3). */
  function GuessThreeSum(test: RatingMap, ks: seq<Key>): (sum: real)
    requires KeysOf(ks, test)
    ensures sum >= 0.0
  {
    if ks == [] then 0.0
    else GuessThreeSum(test, ks[..|ks| - 1]) + Abs(3.0 - test[ks[|ks| - 1]])
  }

  /** All ratings of `test` are on the 1..5 scale. */
  ghost predicate OnScale(test: RatingMap)
  {
    forall k :: k in test ==> 1.0 <= test[k] <= 5.0
  }

  /** With ratings on the 1..5 scale, the clipped error sum never exceeds
      the raw one: the clip can only help. */
  lemma {:induction false} ClippedAtMostRaw(test: RatingMap, U: Matrix, V: Matrix, ks: seq<Key>)
    requires Predictable(U, V, test) && KeysOf(ks, test) && OnScale(test)
    ensures ClippedErrorSum(test, U, V, ks) <= RawErrorSum(test, U, V, ks)
  {
    if ks != [] {
      var k := ks[|ks| - 1];
      ClippedAtMostRaw(test, U, V, ks[..|ks| - 1]);
      ClipNeverWorse(Score(U, V, test, k), test[k]);
      assert Abs(Score(U, V, test, k) - test[k]) == Abs(test[k] - Score(U, V, test, k));
    }
  }

  /** With ratings on the 1..5 scale, each clipped error is at most 4.5, so
      the clipped error sum is at most `4.5` per key whatever the factors. */
  lemma {:induction false} ClippedErrorBounded(test: RatingMap, U: Matrix, V: Matrix, ks: seq<Key>)
    requires Predictable(U, V, test) && KeysOf(ks, test) && OnScale(test)
    ensures ClippedErrorSum(test, U, V, ks) <= 4.5 * |ks| as real
  {
    if ks != [] {
      ClippedErrorBounded(test, U, V, ks[..|ks| - 1]);
    }
  }

  /** The raw error sum has no such bound: one test rating of 5 and factor
      rows whose dot product is 7 already give a raw error of 2 where the
      clipped error is 0; scaling the factors makes the raw error as large
      as one likes. */
  lemma RawErrorUnbounded(c: real)
    requires c >= 0.0
    ensures var test := map[(0, 0) := 5.0];
            var U := [[5.0 + c]];
            var V := [[1.0]];
            && Predictable(U, V, test) && KeysOf([(0, 0)], test)
            && RawErrorSum(test, U, V, [(0, 0)]) == c
            && ClippedErrorSum(test, U, V, [(0, 0)]) == 0.0
  {
    var test := map[(0, 0) := 5.0];
    var U := [[5.0 + c]];
    var V := [[1.0]];
    assert Dot(U[0], V[0]) == 5.0 + c by {
      assert U[0][..0] == [];
    }
    assert [(0, 0)][..0] == [];
  }

  // ------------------------------------------------------------------ means

  /** A sum divided by the size of a non-empty test set. */
  function Mean(sum: real, size: nat): (mean: real)
    requires size > 0
    ensures sum >= 0.0 ==> mean >= 0.0
  {
    sum / size as real
  }

  /** The mean times the size gives the sum back. */
  lemma MeanTimesSize(sum: real, size: nat)
    requires size > 0
    ensures Mean(sum, size) * size as real == sum
  {
  }

  /** Dividing by the same size keeps the order of two sums. */
  lemma MeanMonotone(a: real, b: real, size: nat)
    requires size > 0 && a <= b
    ensures Mean(a, size) <= Mean(b, size)
  {
    var s := size as real;
    assert (b - a) / s >= 0.0;
    assert b / s - a / s == (b - a) / s;
  }

  /** A sum of at most `bound` per element has a mean of at most `bound`. */
  lemma MeanAtMost(sum: real, size: nat, bound: real)
    requires size > 0 && sum <= bound * size as real
    ensures Mean(sum, size) <= bound
  {
    var s := size as real;
    MeanMonotone(sum, bound * s, size);
    assert (bound * s) / s == bound;
  }

  // ---------------------------------------------------------------- accuracy

  /** The hit test of the classification experiment: a prediction below 0.5
      for label 0, or above 0.5 for label 1.  A prediction of exactly 0.5 is
      never a hit. */
  predicate Correct(prediction: real, truth: real)
  {
    (prediction < 0.5 && truth == 0.0) || (prediction > 0.5 && truth == 1.0)
  }

  /** For a 0/1 label, a hit means the prediction lies strictly on the side
      of 0.5 that the label names. */
  lemma CorrectMeansSide(prediction: real, truth: real)
    requires truth == 0.0 || truth == 1.0
    ensures Correct(prediction, truth) <==> prediction != 0.5 && (prediction > 0.5 <==> truth == 1.0)
  {
  }

  /** The number of hits among the keys `ks`. */
  function HitCount(test: RatingMap, U: Matrix, V: Matrix, ks: seq<Key>): (hits: nat)
    requires Predictable(U, V, test) && KeysOf(ks, test)
    ensures hits <= |ks|
  {
    if ks == [] then 0
    else
      var k := ks[|ks| - 1];
      HitCount(test, U, V, ks[..|ks| - 1]) + if Correct(Score(U, V, test, k), test[k]) then 1 else 0
  }

  /** The accuracy of a non-empty test set lies in `[0, 1]`. */
  lemma AccuracyInRange(hits: nat, size: nat)
    requires hits <= size && size > 0
    ensures 0.0 <= Mean(hits as real, size) <= 1.0
  {
    MeanAtMost(hits as real, size, 1.0);
  }
}
