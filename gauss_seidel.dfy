/** What `CollaborativeFiltering::fit` computes, as functions of its inputs:
    random initialisation from a stream of draws, then `num_iterations`
    sweeps, each decaying the learning rate once and then updating the user
    rows and the item rows in place, one observed rating at a time
    (Gauss-Seidel order: later updates read the rows earlier updates wrote). */
module GaussSeidel {
  import opened Ordered
  import opened Ratings
  import opened LinearAlgebra

  /** Everything `fit` reads and never writes: the training ratings and the
      fixed hyperparameters (`lambda`, `decay`, the bounds `m` and `n`, and
      `latent_dim`, here `dim`). */
  datatype Problem = Problem(ratings: RatingMap, lambda: real, decay: real, m: nat, n: nat, dim: nat)
  {
    /** Every row `fit` touches exists: a user `1 <= u < m` only reaches
        item rows of the items it rated, and an item `0 <= j < n` only
        reaches user rows of the users who rated it.  (A rating outside both
        ranges is indexed but never visited.) */
    ghost predicate InRange()
    {
      forall p :: p in ratings ==>
        (1 <= p.0 < m ==> 0 <= p.1 < n) && (0 <= p.1 < n ==> 0 <= p.0 < m)
    }

    /** A user row the user pass never updates: user 0, whose row the loop
        starting at 1 skips, and every user without ratings. */
    ghost predicate IdleUser(u: int)
    {
      u == 0 || RatedItems(ratings, u) == {}
    }

    /** An item row the item pass never updates: an item without raters. */
    ghost predicate IdleItem(j: int)
    {
      Raters(ratings, j) == {}
    }
  }

  /** The mutable part of the engine: the factor tables `U`, `V` and the
      current learning rate `eta`. */
  datatype Snapshot = Snapshot(U: Matrix, V: Matrix, eta: real)

  /** `U` is `m x dim` and `V` is `n x dim`. */
  ghost predicate Fits(p: Problem, s: Snapshot)
  {
    Shaped(s.U, p.m, p.dim) && Shaped(s.V, p.n, p.dim)
  }

  // ---------------------------------------------------------- initialisation

  /** The first half of `fit`: `U` takes the first `m * dim` draws row by row,
      then `V` the next `n * dim`; the learning rate is untouched. */
  function Initialize(p: Problem, s: Snapshot, draws: seq<real>): (r: Snapshot)
    requires Fits(p, s)
    requires p.m * p.dim + p.n * p.dim <= |draws|
    ensures Fits(p, r) && r.eta == s.eta
  {
    SizeShaped(s.U, p.m, p.dim);
    SizeShaped(s.V, p.n, p.dim);
    Snapshot(Refill(s.U, draws), Refill(s.V, draws[p.m * p.dim..]), s.eta)
  }

  /** Given draws in `[0, 1)`, as `uniform_real_distribution(0.0, 1.0)`
      produces, every factor entry is in `[0, 1)` after initialisation. */
  lemma InitializeWithin(p: Problem, s: Snapshot, draws: seq<real>)
    requires Fits(p, s)
    requires p.m * p.dim + p.n * p.dim <= |draws|
    requires forall t :: 0 <= t < |draws| ==> 0.0 <= draws[t] < 1.0
    ensures forall i, k :: 0 <= i < p.m && 0 <= k < p.dim ==> 0.0 <= Initialize(p, s, draws).U[i][k] < 1.0
    ensures forall j, k :: 0 <= j < p.n && 0 <= k < p.dim ==> 0.0 <= Initialize(p, s, draws).V[j][k] < 1.0
  {
    SizeShaped(s.U, p.m, p.dim);
    SizeShaped(s.V, p.n, p.dim);
    RefillFromStream(s.U, draws, 0.0, 1.0);
    RefillFromStream(s.V, draws[p.m * p.dim..], 0.0, 1.0);
  }

  /** Initialisation forgets the old factor values: only the shapes matter. */
  lemma {:induction false} RefillIgnoresOldValues(M1: Matrix, M2: Matrix, s: seq<real>)
    requires |M1| == |M2| && forall i :: 0 <= i < |M1| ==> |M1[i]| == |M2[i]|
    requires Size(M1) <= |s|
    ensures Size(M2) == Size(M1) && Refill(M1, s) == Refill(M2, s)
  {
    if M1 != [] {
      var last := |M1| - 1;
      RefillIgnoresOldValues(M1[..last], M2[..last], s);
    }
  }

  // ------------------------------------------------------ per-rating update

  /** One per-rating update of `row`, whose partner row is `other` and whose
      residual is `e`: entry `k` becomes
      `row[k] - eta * (2 * e * other[k] + lambda * row[k])`. */
  function Step(row: Vector, other: Vector, e: real, eta: real, lam: real): (r: Vector)
    requires |row| <= |other|
    ensures |r| == |row|
  {
    seq(|row|, k requires 0 <= k < |row| => row[k] - eta * (2.0 * e * other[k] + lam * row[k]))
  }

  /** With a zero residual the update is pure weight decay: every entry is
      scaled by `1 - eta * lam`. */
  lemma StepWithoutResidual(row: Vector, other: Vector, eta: real, lam: real, k: nat)
    requires |row| <= |other| && k < |row|
    ensures Step(row, other, 0.0, eta, lam)[k] == (1.0 - eta * lam) * row[k]
  {
    var x := row[k];
    assert Step(row, other, 0.0, eta, lam)[k] == x - eta * (2.0 * 0.0 * other[k] + lam * x);
    assert x - eta * (2.0 * 0.0 * other[k] + lam * x) == (1.0 - eta * lam) * x;
  }

  /** For `0 < eta * lam < 2` that decay strictly shrinks every non-zero
      entry in magnitude. */
  lemma StepShrinks(row: Vector, other: Vector, eta: real, lam: real, k: nat)
    requires |row| <= |other| && k < |row|
    requires 0.0 < eta * lam < 2.0 && row[k] != 0.0
    ensures Abs(Step(row, other, 0.0, eta, lam)[k]) < Abs(row[k])
  {
    StepWithoutResidual(row, other, eta, lam, k);
    ShrinkFactor(1.0 - eta * lam, row[k]);
  }

  lemma ShrinkFactor(c: real, x: real)
    requires -1.0 < c < 1.0 && x != 0.0
    ensures Abs(c * x) < Abs(x)
  {
    if x > 0.0 {
      assert (1.0 - c) * x > 0.0;
      assert (1.0 + c) * x > 0.0;
    } else {
      assert (1.0 - c) * (-x) > 0.0;
      assert (1.0 + c) * (-x) > 0.0;
    }
  }

  // ---------------------------------------------------------------- user pass

  /** User `i`'s row `row` after visiting the items `js` in order; each visit
      computes the residual `dot(row, V[j]) - rating(i, j)` from the current
      row and applies `Step`.  No other row of `U` is touched. */
  function VisitUser(p: Problem, row: Vector, V: Matrix, i: int, js: seq<int>, eta: real): (r: Vector)
    requires p.InRange() && Shaped(V, p.n, p.dim) && |row| == p.dim
    requires 1 <= i < p.m
    requires forall j :: j in js ==> (i, j) in p.ratings
    ensures |r| == p.dim
    decreases |js|
  {
    if js == [] then row
    else
      var j := js[0];
      assert (i, j) in p.ratings;
      var e := Dot(row, V[j]) - p.ratings[(i, j)];
      VisitUser(p, Step(row, V[j], e, eta, p.lambda), V, i, js[1..], eta)
  }

  /** Visiting `js[t..]` is the visit of `js[t]` followed by visiting
      `js[t+1..]` from the row that visit produced. */
  lemma VisitUserAdvance(p: Problem, row: Vector, next: Vector, V: Matrix, i: int, js: seq<int>, t: nat, eta: real)
    requires p.InRange() && Shaped(V, p.n, p.dim) && |row| == p.dim
    requires 1 <= i < p.m && t < |js|
    requires forall j :: j in js ==> (i, j) in p.ratings
    requires (i, js[t]) in p.ratings && 0 <= js[t] < p.n
    requires next == Step(row, V[js[t]], Dot(row, V[js[t]]) - p.ratings[(i, js[t])], eta, p.lambda)
    ensures VisitUser(p, row, V, i, js[t..], eta) == VisitUser(p, next, V, i, js[t + 1..], eta)
  {
    assert js[t..][0] == js[t];
    assert js[t..][1..] == js[t + 1..];
  }

  /** User `i`'s turn in the user pass: its row after visiting its rated
      items in ascending order.  A user without ratings keeps its row. */
  function UserTurn(p: Problem, row: Vector, V: Matrix, i: int, eta: real): (r: Vector)
    requires p.InRange() && Shaped(V, p.n, p.dim) && |row| == p.dim
    requires 1 <= i < p.m
    ensures |r| == p.dim
    ensures RatedItems(p.ratings, i) == {} ==> r == row
  {
    VisitUser(p, row, V, i, Ascending(RatedItems(p.ratings, i)), eta)
  }

  /** Users `i, i+1, ..., m-1` in turn, each over its rated items in
      ascending order. */
  function UserPass(p: Problem, U: Matrix, V: Matrix, i: nat, eta: real): (R: Matrix)
    requires p.InRange() && Shaped(U, p.m, p.dim) && Shaped(V, p.n, p.dim)
    requires 1 <= i
    ensures Shaped(R, p.m, p.dim)
    decreases p.m - i
  {
    if i >= p.m then U
    else UserPass(p, U[i := UserTurn(p, U[i], V, i, eta)], V, i + 1, eta)
  }

  /** Taking user `i`'s turn and then the pass from `i + 1` is the pass
      from `i`. */
  lemma UserPassAdvance(p: Problem, U: Matrix, next: Matrix, V: Matrix, i: nat, eta: real)
    requires p.InRange() && Shaped(U, p.m, p.dim) && Shaped(V, p.n, p.dim)
    requires 1 <= i < p.m
    requires next == U[i := UserTurn(p, U[i], V, i, eta)]
    ensures UserPass(p, next, V, i + 1, eta) == UserPass(p, U, V, i, eta)
  {
  }

  /** The user pass leaves alone every row before its starting user and
      every row of a user without ratings. */
  lemma {:induction false} UserPassKeeps(p: Problem, U: Matrix, V: Matrix, i: nat, eta: real, u: int)
    requires p.InRange() && Shaped(U, p.m, p.dim) && Shaped(V, p.n, p.dim)
    requires 1 <= i && 0 <= u < p.m
    requires u < i || RatedItems(p.ratings, u) == {}
    ensures UserPass(p, U, V, i, eta)[u] == U[u]
    decreases p.m - i
  {
    if i < p.m {
      UserPassKeeps(p, U[i := UserTurn(p, U[i], V, i, eta)], V, i + 1, eta, u);
    }
  }

  // ---------------------------------------------------------------- item pass

  /** Item `j`'s row `row` after visiting the users `us` in order; each
      visit computes the residual from the current rows and applies `Step`
      with the (already updated) user row as partner. */
  function VisitItem(p: Problem, U: Matrix, row: Vector, j: int, us: seq<int>, eta: real): (r: Vector)
    requires p.InRange() && Shaped(U, p.m, p.dim) && |row| == p.dim
    requires 0 <= j < p.n
    requires forall i :: i in us ==> (i, j) in p.ratings
    ensures |r| == p.dim
    decreases |us|
  {
    if us == [] then row
    else
      var i := us[0];
      assert (i, j) in p.ratings;
      var e := Dot(U[i], row) - p.ratings[(i, j)];
      VisitItem(p, U, Step(row, U[i], e, eta, p.lambda), j, us[1..], eta)
  }

  /** Visiting `us[t..]` is the visit of `us[t]` followed by visiting
      `us[t+1..]` from the row that visit produced. */
  lemma VisitItemAdvance(p: Problem, U: Matrix, row: Vector, next: Vector, j: int, us: seq<int>, t: nat, eta: real)
    requires p.InRange() && Shaped(U, p.m, p.dim) && |row| == p.dim
    requires 0 <= j < p.n && t < |us|
    requires forall i :: i in us ==> (i, j) in p.ratings
    requires (us[t], j) in p.ratings && 0 <= us[t] < p.m
    requires next == Step(row, U[us[t]], Dot(U[us[t]], row) - p.ratings[(us[t], j)], eta, p.lambda)
    ensures VisitItem(p, U, row, j, us[t..], eta) == VisitItem(p, U, next, j, us[t + 1..], eta)
  {
    assert us[t..][0] == us[t];
    assert us[t..][1..] == us[t + 1..];
  }

  /** Item `j`'s turn in the item pass: its row after visiting its raters
      in ascending order.  An item without raters keeps its row. */
  function ItemTurn(p: Problem, U: Matrix, row: Vector, j: int, eta: real): (r: Vector)
    requires p.InRange() && Shaped(U, p.m, p.dim) && |row| == p.dim
    requires 0 <= j < p.n
    ensures |r| == p.dim
    ensures Raters(p.ratings, j) == {} ==> r == row
  {
    VisitItem(p, U, row, j, Ascending(Raters(p.ratings, j)), eta)
  }

  /** Items `j, j+1, ..., n-1` in turn, each over its raters in ascending
      order. */
  function ItemPass(p: Problem, U: Matrix, V: Matrix, j: nat, eta: real): (R: Matrix)
    requires p.InRange() && Shaped(U, p.m, p.dim) && Shaped(V, p.n, p.dim)
    ensures Shaped(R, p.n, p.dim)
    decreases p.n - j
  {
    if j >= p.n then V
    else ItemPass(p, U, V[j := ItemTurn(p, U, V[j], j, eta)], j + 1, eta)
  }

  /** Taking item `j`'s turn and then the pass from `j + 1` is the pass
      from `j`. */
  lemma ItemPassAdvance(p: Problem, U: Matrix, V: Matrix, next: Matrix, j: nat, eta: real)
    requires p.InRange() && Shaped(U, p.m, p.dim) && Shaped(V, p.n, p.dim)
    requires j < p.n
    requires next == V[j := ItemTurn(p, U, V[j], j, eta)]
    ensures ItemPass(p, U, next, j + 1, eta) == ItemPass(p, U, V, j, eta)
  {
  }

  /** The item pass leaves alone every row of an item without raters. */
  lemma {:induction false} ItemPassKeeps(p: Problem, U: Matrix, V: Matrix, j: nat, eta: real, v: int)
    requires p.InRange() && Shaped(U, p.m, p.dim) && Shaped(V, p.n, p.dim)
    requires 0 <= v < p.n
    requires v < j || Raters(p.ratings, v) == {}
    ensures ItemPass(p, U, V, j, eta)[v] == V[v]
    decreases p.n - j
  {
    if j < p.n {
      ItemPassKeeps(p, U, V[j := ItemTurn(p, U, V[j], j, eta)], j + 1, eta, v);
    }
  }

  // ------------------------------------------------------------------ sweeps

  /** One iteration of the gradient-descent loop: `eta *= decay`, then the
      user pass from user 1, then the item pass from item 0 reading the user
      rows the user pass just wrote. */
  function Sweep(p: Problem, s: Snapshot): (r: Snapshot)
    requires p.InRange() && Fits(p, s)
    ensures Fits(p, r)
  {
    var eta := s.eta * p.decay;
    var U := UserPass(p, s.U, s.V, 1, eta);
    Snapshot(U, ItemPass(p, U, s.V, 0, eta), eta)
  }

  /** `count` sweeps in a row. */
  function Sweeps(p: Problem, s: Snapshot, count: nat): (r: Snapshot)
    requires p.InRange() && Fits(p, s)
    ensures Fits(p, r)
    decreases count
  {
    if count == 0 then s else Sweeps(p, Sweep(p, s), count - 1)
  }

  /** All of `fit`: initialisation, then `count` sweeps. */
  function Fitted(p: Problem, s: Snapshot, draws: seq<real>, count: nat): (r: Snapshot)
    requires p.InRange() && Fits(p, s)
    requires p.m * p.dim + p.n * p.dim <= |draws|
    ensures Fits(p, r)
  {
    Sweeps(p, Initialize(p, s, draws), count)
  }

  // ---------------------------------------------------------- learning rate

  /** After `count` sweeps the learning rate is `eta0 * decay^count`. */
  lemma {:induction false} SweepsRate(p: Problem, s: Snapshot, count: nat)
    requires p.InRange() && Fits(p, s)
    ensures Sweeps(p, s, count).eta == s.eta * Pow(p.decay, count)
    decreases count
  {
    if count > 0 {
      SweepsRate(p, Sweep(p, s), count - 1);
      assert Sweep(p, s).eta * Pow(p.decay, count - 1)
          == s.eta * (Pow(p.decay, count - 1) * p.decay);
    }
  }

  /** Sweep `t` (counting from 0) is applied to the state the first `t`
      sweeps produced, and runs with learning rate `eta0 * decay^(t+1)`. */
  lemma {:induction false} SweepRate(p: Problem, s: Snapshot, t: nat)
    requires p.InRange() && Fits(p, s)
    ensures Sweeps(p, s, t + 1) == Sweep(p, Sweeps(p, s, t))
    ensures Sweep(p, Sweeps(p, s, t)).eta == s.eta * Pow(p.decay, t + 1)
    decreases t
  {
    if t > 0 {
      SweepRate(p, Sweep(p, s), t - 1);
    }
    SweepsRate(p, s, t + 1);
  }

  /** With `0 < decay < 1` and a positive initial rate, each sweep runs with a
      strictly smaller, still positive rate than the one before. */
  lemma RateDecreases(p: Problem, s: Snapshot, t: nat)
    requires p.InRange() && Fits(p, s)
    requires 0.0 < p.decay < 1.0 && 0.0 < s.eta
    ensures 0.0 < Sweep(p, Sweeps(p, s, t + 1)).eta < Sweep(p, Sweeps(p, s, t)).eta
  {
    SweepRate(p, s, t);
    SweepRate(p, s, t + 1);
    PowDecreasing(p.decay, t + 1);
  }

  /** After `fit` the learning rate is `eta0 * decay^count`; since `fit`
      leaves it there, a second `fit` starts from the decayed rate. */
  lemma FitRate(p: Problem, s: Snapshot, draws: seq<real>, count: nat)
    requires p.InRange() && Fits(p, s)
    requires p.m * p.dim + p.n * p.dim <= |draws|
    ensures Fitted(p, s, draws, count).eta == s.eta * Pow(p.decay, count)
  {
    SweepsRate(p, Initialize(p, s, draws), count);
  }

  /** A second `fit` re-randomises and retrains from scratch: its factor
      tables depend only on the draws and the learning rate it starts from,
      not on the factors the first `fit` produced. */
  lemma FitForgetsFactors(p: Problem, s1: Snapshot, s2: Snapshot, draws: seq<real>, count: nat)
    requires p.InRange() && Fits(p, s1) && Fits(p, s2) && s1.eta == s2.eta
    requires p.m * p.dim + p.n * p.dim <= |draws|
    ensures Fitted(p, s1, draws, count) == Fitted(p, s2, draws, count)
  {
    SizeShaped(s1.U, p.m, p.dim);
    SizeShaped(s1.V, p.n, p.dim);
    RefillIgnoresOldValues(s1.U, s2.U, draws);
    RefillIgnoresOldValues(s1.V, s2.V, draws[p.m * p.dim..]);
  }

  // ------------------------------------------------------------ idle rows

  /** The three parts of a sweep. */
  lemma SweepParts(p: Problem, s: Snapshot)
    requires p.InRange() && Fits(p, s)
    ensures Sweep(p, s).eta == s.eta * p.decay
    ensures Sweep(p, s).U == UserPass(p, s.U, s.V, 1, s.eta * p.decay)
    ensures Sweep(p, s).V == ItemPass(p, Sweep(p, s).U, s.V, 0, s.eta * p.decay)
  {
  }

  /** A sweep leaves idle rows as they were. */
  lemma SweepKeeps(p: Problem, s: Snapshot)
    requires p.InRange() && Fits(p, s)
    ensures forall u :: 0 <= u < p.m && p.IdleUser(u) ==> Sweep(p, s).U[u] == s.U[u]
    ensures forall v :: 0 <= v < p.n && p.IdleItem(v) ==> Sweep(p, s).V[v] == s.V[v]
  {
    SweepParts(p, s);
    forall u | 0 <= u < p.m && p.IdleUser(u) ensures Sweep(p, s).U[u] == s.U[u] {
      UserPassKeeps(p, s.U, s.V, 1, s.eta * p.decay, u);
    }
    forall v | 0 <= v < p.n && p.IdleItem(v) ensures Sweep(p, s).V[v] == s.V[v] {
      ItemPassKeeps(p, Sweep(p, s).U, s.V, 0, s.eta * p.decay, v);
    }
  }

  /** Rows no sweep updates keep their values across any number of sweeps. */
  lemma {:induction false} SweepsKeep(p: Problem, s: Snapshot, count: nat)
    requires p.InRange() && Fits(p, s)
    ensures forall u :: 0 <= u < p.m && p.IdleUser(u) ==> Sweeps(p, s, count).U[u] == s.U[u]
    ensures forall v :: 0 <= v < p.n && p.IdleItem(v) ==> Sweeps(p, s, count).V[v] == s.V[v]
    decreases count
  {
    if count > 0 {
      SweepKeeps(p, s);
      SweepsKeep(p, Sweep(p, s), count - 1);
    }
  }

  /** After `fit`, user 0, every user without ratings and every item without
      raters still hold their random initial rows. */
  lemma FitKeeps(p: Problem, s: Snapshot, draws: seq<real>, count: nat)
    requires p.InRange() && Fits(p, s)
    requires p.m * p.dim + p.n * p.dim <= |draws|
    ensures forall u :: 0 <= u < p.m && p.IdleUser(u) ==> Fitted(p, s, draws, count).U[u] == Initialize(p, s, draws).U[u]
    ensures forall v :: 0 <= v < p.n && p.IdleItem(v) ==> Fitted(p, s, draws, count).V[v] == Initialize(p, s, draws).V[v]
  {
    SweepsKeep(p, Initialize(p, s, draws), count);
  }
}
