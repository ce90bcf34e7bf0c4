/** What the script-style trainer (`collaborative_filtering.cpp`) computes,
    as functions of its inputs.  Each sweep decays the learning rate once and
    then fills two fresh buffers `U_new` and `V_new` from the OLD `U` and `V`
    (Jacobi order: no update reads another update of the same sweep); the
    buffers start at zero, so the rows of ids that were never read stay
    zero.  Unlike the engine's rule, the gradient has no factor 2 and sums
    the residuals of all of a row's ratings before the row is updated. */
module Jacobi {
  import opened Ordered
  import opened Ratings
  import opened LinearAlgebra

  /** Everything the sweeps read and never write: the training ratings, the
      ids seen while reading (`users`, `items`, including ids that only
      occur in the test set), the hyperparameters, the table bounds `m`,
      `n` and the latent dimension `dim` (`K` in the script). */
  datatype Setup = Setup(ratings: RatingMap, users: set<int>, items: set<int>,
                         lambda: real, decay: real, m: nat, n: nat, dim: nat)
  {
    /** Every id the sweeps index with names an existing row. */
    ghost predicate InRange()
    {
      && (forall u :: u in users ==> 0 <= u < m)
      && (forall j :: j in items ==> 0 <= j < n)
      && (forall p :: p in ratings ==> 0 <= p.0 < m && 0 <= p.1 < n)
    }
  }

  /** The trainer's variables `U`, `V` and `eta`. */
  datatype Factors = Factors(U: Matrix, V: Matrix, eta: real)

  /** `U` is `m x dim` and `V` is `n x dim`. */
  ghost predicate Sized(s: Setup, f: Factors)
  {
    Shaped(f.U, s.m, s.dim) && Shaped(f.V, s.n, s.dim)
  }

  /** `eij = dot_product(U[i], V[j]) - ratings[(i, j)]`. */
  function Residual(s: Setup, U: Matrix, V: Matrix, i: int, j: int): real
    requires s.InRange() && Shaped(U, s.m, s.dim) && Shaped(V, s.n, s.dim)
    requires (i, j) in s.ratings
  {
    Dot(U[i], V[j]) - s.ratings[(i, j)]
  }

  // -------------------------------------------------------------- user rows

  /** `sum += eij * V[j][k]` over the items `js`, in order. */
  function UserGradient(s: Setup, U: Matrix, V: Matrix, i: int, k: nat, js: seq<int>): real
    requires s.InRange() && Shaped(U, s.m, s.dim) && Shaped(V, s.n, s.dim) && k < s.dim
    requires forall j :: j in js ==> (i, j) in s.ratings
  {
    if js == [] then 0.0
    else
      var j := js[|js| - 1];
      UserGradient(s, U, V, i, k, js[..|js| - 1]) + Residual(s, U, V, i, j) * V[j][k]
  }

  /** `U_new[i][k] = U[i][k] - eta * (sum + lambda * U[i][k])`, the sum
      running over the items user `i` rated, in ascending order. */
  function NewUserEntry(s: Setup, U: Matrix, V: Matrix, eta: real, i: int, k: nat): real
    requires s.InRange() && Shaped(U, s.m, s.dim) && Shaped(V, s.n, s.dim)
    requires 0 <= i < s.m && k < s.dim
  {
    var js := Ascending(RatedItems(s.ratings, i));
    U[i][k] - eta * (UserGradient(s, U, V, i, k, js) + s.lambda * U[i][k])
  }

  /** Row `i` of `U_new` for a user `i` of `users`. */
  function NewUserRow(s: Setup, U: Matrix, V: Matrix, eta: real, i: int): (row: Vector)
    requires s.InRange() && Shaped(U, s.m, s.dim) && Shaped(V, s.n, s.dim) && 0 <= i < s.m
    ensures |row| == s.dim
  {
    seq(s.dim, k requires 0 <= k < s.dim => NewUserEntry(s, U, V, eta, i, k))
  }

  /** `U_new` after the users `order` were visited: zero rows everywhere,
      then the new row of each visited user. */
  function UsersBuffer(s: Setup, U: Matrix, V: Matrix, eta: real, order: seq<int>): (R: Matrix)
    requires s.InRange() && Shaped(U, s.m, s.dim) && Shaped(V, s.n, s.dim)
    requires forall t :: 0 <= t < |order| ==> 0 <= order[t] < s.m
    ensures Shaped(R, s.m, s.dim)
  {
    if order == [] then Zeros(s.m, s.dim)
    else
      var i := order[|order| - 1];
      UsersBuffer(s, U, V, eta, order[..|order| - 1])[i := NewUserRow(s, U, V, eta, i)]
  }

  /** The user half of a sweep: every user of `users`, in ascending order. */
  function JacobiUsers(s: Setup, U: Matrix, V: Matrix, eta: real): (R: Matrix)
    requires s.InRange() && Shaped(U, s.m, s.dim) && Shaped(V, s.n, s.dim)
    ensures Shaped(R, s.m, s.dim)
  {
    var order := Ascending(s.users);
    assert forall t :: 0 <= t < |order| ==> order[t] in s.users;
    UsersBuffer(s, U, V, eta, order)
  }

  // -------------------------------------------------------------- item rows

  /** `sum += eij * U[i][k]` over the users `us`, in order. */
  function ItemGradient(s: Setup, U: Matrix, V: Matrix, j: int, k: nat, us: seq<int>): real
    requires s.InRange() && Shaped(U, s.m, s.dim) && Shaped(V, s.n, s.dim) && k < s.dim
    requires forall i :: i in us ==> (i, j) in s.ratings
  {
    if us == [] then 0.0
    else
      var i := us[|us| - 1];
      ItemGradient(s, U, V, j, k, us[..|us| - 1]) + Residual(s, U, V, i, j) * U[i][k]
  }

  /** `V_new[j][k] = V[j][k] - eta * (sum + lambda * V[j][k])`, the sum
      running over the users who rated item `j`, in ascending order. */
  function NewItemEntry(s: Setup, U: Matrix, V: Matrix, eta: real, j: int, k: nat): real
    requires s.InRange() && Shaped(U, s.m, s.dim) && Shaped(V, s.n, s.dim)
    requires 0 <= j < s.n && k < s.dim
  {
    var us := Ascending(Raters(s.ratings, j));
    V[j][k] - eta * (ItemGradient(s, U, V, j, k, us) + s.lambda * V[j][k])
  }

  /** Row `j` of `V_new` for an item `j` of `items`. */
  function NewItemRow(s: Setup, U: Matrix, V: Matrix, eta: real, j: int): (row: Vector)
    requires s.InRange() && Shaped(U, s.m, s.dim) && Shaped(V, s.n, s.dim) && 0 <= j < s.n
    ensures |row| == s.dim
  {
    seq(s.dim, k requires 0 <= k < s.dim => NewItemEntry(s, U, V, eta, j, k))
  }

  /** `V_new` after the items `order` were visited. */
  function ItemsBuffer(s: Setup, U: Matrix, V: Matrix, eta: real, order: seq<int>): (R: Matrix)
    requires s.InRange() && Shaped(U, s.m, s.dim) && Shaped(V, s.n, s.dim)
    requires forall t :: 0 <= t < |order| ==> 0 <= order[t] < s.n
    ensures Shaped(R, s.n, s.dim)
  {
    if order == [] then Zeros(s.n, s.dim)
    else
      var j := order[|order| - 1];
      ItemsBuffer(s, U, V, eta, order[..|order| - 1])[j := NewItemRow(s, U, V, eta, j)]
  }

  /** The item half of a sweep: every item of `items`, in ascending order. */
  function JacobiItems(s: Setup, U: Matrix, V: Matrix, eta: real): (R: Matrix)
    requires s.InRange() && Shaped(U, s.m, s.dim) && Shaped(V, s.n, s.dim)
    ensures Shaped(R, s.n, s.dim)
  {
    var order := Ascending(s.items);
    assert forall t :: 0 <= t < |order| ==> order[t] in s.items;
    ItemsBuffer(s, U, V, eta, order)
  }

  // ------------------------------------------------------------------ sweeps

  /** One iteration of the script: `eta *= decay`, then both buffers from the
      old factors, then `U = U_new; V = V_new`. */
  function JacobiSweep(s: Setup, f: Factors): (r: Factors)
    requires s.InRange() && Sized(s, f)
    ensures Sized(s, r)
  {
    var eta := f.eta * s.decay;
    Factors(JacobiUsers(s, f.U, f.V, eta), JacobiItems(s, f.U, f.V, eta), eta)
  }

  /** The three parts of an iteration. */
  lemma JacobiSweepParts(s: Setup, f: Factors)
    requires s.InRange() && Sized(s, f)
    ensures JacobiSweep(s, f) ==
              Factors(JacobiUsers(s, f.U, f.V, f.eta * s.decay), JacobiItems(s, f.U, f.V, f.eta * s.decay), f.eta * s.decay)
  {
    var eta := f.eta * s.decay;
    assert JacobiSweep(s, f) == Factors(JacobiUsers(s, f.U, f.V, eta), JacobiItems(s, f.U, f.V, eta), eta);
  }

  /** `count` iterations in a row. */
  function JacobiSweeps(s: Setup, f: Factors, count: nat): (r: Factors)
    requires s.InRange() && Sized(s, f)
    ensures Sized(s, r)
    decreases count
  {
    if count == 0 then f else JacobiSweeps(s, JacobiSweep(s, f), count - 1)
  }

  /** The whole training phase: `U` (`m x dim` zeros) and `V` (`n x dim`
      zeros) refilled from the draws, `U` first, then `count` iterations
      starting from the rate `eta0`. */
  function Trained(s: Setup, draws: seq<real>, eta0: real, count: nat): (r: Factors)
    requires s.InRange() && s.m * s.dim + s.n * s.dim <= |draws|
    ensures Sized(s, r)
  {
    var U0 := Zeros(s.m, s.dim);
    var V0 := Zeros(s.n, s.dim);
    SizeShaped(U0, s.m, s.dim);
    SizeShaped(V0, s.n, s.dim);
    RefillShape(U0, draws);
    RefillShape(V0, draws[s.m * s.dim..]);
    JacobiSweeps(s, Factors(Refill(U0, draws), Refill(V0, draws[s.m * s.dim..]), eta0), count)
  }

  /** Refilling keeps the shape. */
  lemma RefillShape(M: Matrix, draws: seq<real>)
    requires Size(M) <= |draws|
    ensures forall rows, cols :: Shaped(M, rows, cols) ==> Shaped(Refill(M, draws), rows, cols)
  {
  }

  // ---------------------------------------------------------- row contents

  /** Row `i` of a user buffer is the new row of `i` when `i` was visited
      and all zeros otherwise. */
  lemma {:induction false} UsersBufferRow(s: Setup, U: Matrix, V: Matrix, eta: real, order: seq<int>, i: int)
    requires s.InRange() && Shaped(U, s.m, s.dim) && Shaped(V, s.n, s.dim)
    requires forall t :: 0 <= t < |order| ==> 0 <= order[t] < s.m
    requires 0 <= i < s.m
    ensures i in order ==> UsersBuffer(s, U, V, eta, order)[i] == NewUserRow(s, U, V, eta, i)
    ensures i !in order ==> forall k :: 0 <= k < s.dim ==> UsersBuffer(s, U, V, eta, order)[i][k] == 0.0
  {
    if order != [] {
      var init := order[..|order| - 1];
      UsersBufferRow(s, U, V, eta, init, i);
      assert order == init + [order[|order| - 1]];
    }
  }

  /** Row `j` of an item buffer is the new row of `j` when `j` was visited
      and all zeros otherwise. */
  lemma {:induction false} ItemsBufferRow(s: Setup, U: Matrix, V: Matrix, eta: real, order: seq<int>, j: int)
    requires s.InRange() && Shaped(U, s.m, s.dim) && Shaped(V, s.n, s.dim)
    requires forall t :: 0 <= t < |order| ==> 0 <= order[t] < s.n
    requires 0 <= j < s.n
    ensures j in order ==> ItemsBuffer(s, U, V, eta, order)[j] == NewItemRow(s, U, V, eta, j)
    ensures j !in order ==> forall k :: 0 <= k < s.dim ==> ItemsBuffer(s, U, V, eta, order)[j][k] == 0.0
  {
    if order != [] {
      var init := order[..|order| - 1];
      ItemsBufferRow(s, U, V, eta, init, j);
      assert order == init + [order[|order| - 1]];
    }
  }

  /** After a sweep, the row of a user in `users` is its new row computed
      from the factors BEFORE the sweep, and the row of any other user is
      all zeros, whatever it held before. */
  lemma SweepUserRow(s: Setup, f: Factors, i: int)
    requires s.InRange() && Sized(s, f) && 0 <= i < s.m
    ensures i in s.users ==> JacobiSweep(s, f).U[i] == NewUserRow(s, f.U, f.V, f.eta * s.decay, i)
    ensures i !in s.users ==> forall k :: 0 <= k < s.dim ==> JacobiSweep(s, f).U[i][k] == 0.0
  {
    var order := Ascending(s.users);
    assert forall t :: 0 <= t < |order| ==> order[t] in s.users;
    assert JacobiSweep(s, f).eta == f.eta * s.decay;
    assert JacobiSweep(s, f).U == JacobiUsers(s, f.U, f.V, f.eta * s.decay);
    assert JacobiUsers(s, f.U, f.V, f.eta * s.decay) == UsersBuffer(s, f.U, f.V, f.eta * s.decay, order);
    UsersBufferRow(s, f.U, f.V, f.eta * s.decay, order, i);
  }

  /** After a sweep, the row of an item in `items` is its new row computed
      from the factors BEFORE the sweep (the old `U`, not the `U_new` of the
      same sweep), and the row of any other item is all zeros. */
  lemma SweepItemRow(s: Setup, f: Factors, j: int)
    requires s.InRange() && Sized(s, f) && 0 <= j < s.n
    ensures j in s.items ==> JacobiSweep(s, f).V[j] == NewItemRow(s, f.U, f.V, f.eta * s.decay, j)
    ensures j !in s.items ==> forall k :: 0 <= k < s.dim ==> JacobiSweep(s, f).V[j][k] == 0.0
  {
    var order := Ascending(s.items);
    assert forall t :: 0 <= t < |order| ==> order[t] in s.items;
    assert JacobiSweep(s, f).eta == f.eta * s.decay;
    assert JacobiSweep(s, f).V == JacobiItems(s, f.U, f.V, f.eta * s.decay);
    assert JacobiItems(s, f.U, f.V, f.eta * s.decay) == ItemsBuffer(s, f.U, f.V, f.eta * s.decay, order);
    ItemsBufferRow(s, f.U, f.V, f.eta * s.decay, order, j);
  }

  /** A user the script read but who has no training rating (every one of
      their ratings went to the test set) gets no gradient: each entry is
      only scaled by `1 - eta * lambda`. */
  lemma IdleUserScaled(s: Setup, U: Matrix, V: Matrix, eta: real, i: int)
    requires s.InRange() && Shaped(U, s.m, s.dim) && Shaped(V, s.n, s.dim) && 0 <= i < s.m
    requires RatedItems(s.ratings, i) == {}
    ensures forall k :: 0 <= k < s.dim ==> NewUserRow(s, U, V, eta, i)[k] == (1.0 - eta * s.lambda) * U[i][k]
  {
    assert Ascending(RatedItems(s.ratings, i)) == [];
  }

  /** An item without training raters is likewise only scaled. */
  lemma IdleItemScaled(s: Setup, U: Matrix, V: Matrix, eta: real, j: int)
    requires s.InRange() && Shaped(U, s.m, s.dim) && Shaped(V, s.n, s.dim) && 0 <= j < s.n
    requires Raters(s.ratings, j) == {}
    ensures forall k :: 0 <= k < s.dim ==> NewItemRow(s, U, V, eta, j)[k] == (1.0 - eta * s.lambda) * V[j][k]
  {
    assert Ascending(Raters(s.ratings, j)) == [];
  }

  /** Across a whole sweep: a user in `users` without training ratings
      leaves the sweep with its old row scaled by `1 - eta * lambda`, where
      `eta` is the decayed rate of that sweep. */
  lemma SweepIdleUser(s: Setup, f: Factors, i: int)
    requires s.InRange() && Sized(s, f) && 0 <= i < s.m
    requires i in s.users && RatedItems(s.ratings, i) == {}
    ensures forall k :: 0 <= k < s.dim ==>
              JacobiSweep(s, f).U[i][k] == (1.0 - (f.eta * s.decay) * s.lambda) * f.U[i][k]
  {
    SweepUserRow(s, f, i);
    IdleUserScaled(s, f.U, f.V, f.eta * s.decay, i);
  }

  /** The same for an item in `items` without training raters. */
  lemma SweepIdleItem(s: Setup, f: Factors, j: int)
    requires s.InRange() && Sized(s, f) && 0 <= j < s.n
    requires j in s.items && Raters(s.ratings, j) == {}
    ensures forall k :: 0 <= k < s.dim ==>
              JacobiSweep(s, f).V[j][k] == (1.0 - (f.eta * s.decay) * s.lambda) * f.V[j][k]
  {
    SweepItemRow(s, f, j);
    IdleItemScaled(s, f.U, f.V, f.eta * s.decay, j);
  }

  /** For a user with a single training rating the update is
      `U[i][k] - eta * (eij * V[j][k] + lambda * U[i][k])`: the residual
      enters once, without the factor 2 of the engine's rule. */
  lemma SingleRatingUpdate(s: Setup, U: Matrix, V: Matrix, eta: real, i: int, j: int, k: nat)
    requires s.InRange() && Shaped(U, s.m, s.dim) && Shaped(V, s.n, s.dim) && 0 <= i < s.m && k < s.dim
    requires RatedItems(s.ratings, i) == {j}
    ensures (i, j) in s.ratings
    ensures NewUserRow(s, U, V, eta, i)[k]
         == U[i][k] - eta * (Residual(s, U, V, i, j) * V[j][k] + s.lambda * U[i][k])
  {
    var js := Ascending(RatedItems(s.ratings, i));
    assert js == [j] by {
      assert |js| == 1 && js[0] in {j};
    }
    assert js[..0] == [];
    assert UserGradient(s, U, V, i, k, js) == Residual(s, U, V, i, j) * V[j][k];
    assert NewUserRow(s, U, V, eta, i)[k] == NewUserEntry(s, U, V, eta, i, k);
  }

  // ---------------------------------------------------------- learning rate

  /** After `count` iterations the learning rate is `eta0 * decay^count`. */
  lemma {:induction false} JacobiRate(s: Setup, f: Factors, count: nat)
    requires s.InRange() && Sized(s, f)
    ensures JacobiSweeps(s, f, count).eta == f.eta * Pow(s.decay, count)
    decreases count
  {
    if count > 0 {
      JacobiRate(s, JacobiSweep(s, f), count - 1);
      assert JacobiSweep(s, f).eta * Pow(s.decay, count - 1)
          == f.eta * (Pow(s.decay, count - 1) * s.decay);
    }
  }

  /** Training ends with the learning rate `eta0 * decay^count`. */
  lemma TrainedRate(s: Setup, draws: seq<real>, eta0: real, count: nat)
    requires s.InRange() && s.m * s.dim + s.n * s.dim <= |draws|
    ensures Trained(s, draws, eta0, count).eta == eta0 * Pow(s.decay, count)
  {
    var U0 := Zeros(s.m, s.dim);
    var V0 := Zeros(s.n, s.dim);
    SizeShaped(U0, s.m, s.dim);
    SizeShaped(V0, s.n, s.dim);
    RefillShape(U0, draws);
    RefillShape(V0, draws[s.m * s.dim..]);
    JacobiRate(s, Factors(Refill(U0, draws), Refill(V0, draws[s.m * s.dim..]), eta0), count);
  }

  /** Iteration `t` (counting from 0) is applied to the factors the first
      `t` iterations produced. */
  lemma {:induction false} JacobiSweepsNext(s: Setup, f: Factors, t: nat)
    requires s.InRange() && Sized(s, f)
    ensures JacobiSweeps(s, f, t + 1) == JacobiSweep(s, JacobiSweeps(s, f, t))
    decreases t
  {
    if t > 0 {
      JacobiSweepsNext(s, JacobiSweep(s, f), t - 1);
    }
  }

  /** After at least one iteration, the rows of ids the script never read
      are all zeros: the first `U = U_new` wiped their random initial
      values, and every later buffer starts from zero again. */
  lemma UnreadRowsZero(s: Setup, f: Factors, count: nat, i: int, j: int)
    requires s.InRange() && Sized(s, f) && count > 0
    requires 0 <= i < s.m && i !in s.users
    requires 0 <= j < s.n && j !in s.items
    ensures forall k :: 0 <= k < s.dim ==> JacobiSweeps(s, f, count).U[i][k] == 0.0
    ensures forall k :: 0 <= k < s.dim ==> JacobiSweeps(s, f, count).V[j][k] == 0.0
  {
    JacobiSweepsNext(s, f, count - 1);
    SweepUserRow(s, JacobiSweeps(s, f, count - 1), i);
    SweepItemRow(s, JacobiSweeps(s, f, count - 1), j);
  }
}
