/** The `CollaborativeFiltering` class: the training ratings, the
    hyperparameters, and the two factor tables it updates in place. */
module Engine {
  import opened Ordered
  import opened Ratings
  import opened LinearAlgebra
  import opened GaussSeidel

  class CollaborativeFiltering {
    // Set by the constructor and never written again.
    const ratings: RatingMap
    const decay: real
    const lambda: real
    const verbose: bool
    const m: nat
    const n: nat
    const numIterations: int
    const latentDim: nat
    // Updated by `fit`.
    var eta: real
    var U: Matrix
    var V: Matrix

    /** `U` has a row per user index below `m`, `V` a row per item index
        below `n`, every row `latent_dim` long. */
    ghost predicate Valid()
      reads this`U, this`V
    {
      Shaped(U, m, latentDim) && Shaped(V, n, latentDim)
    }

    /** The fields `fit` reads and never writes. */
    function Config(): Problem
    {
      Problem(ratings, lambda, decay, m, n, latentDim)
    }

    /** The fields `fit` writes. */
    function State(): Snapshot
      reads this`U, this`V, this`eta
    {
      Snapshot(U, V, eta)
    }

    /** How many times the `for (iteration = 0; iteration < num_iterations; ...)`
        loop runs: none for a non-positive count. */
    function SweepCount(): nat
    {
      if numIterations > 0 then numIterations else 0
    }

    /** Stores a copy of the ratings and the hyperparameters and allocates
        both tables filled with zeros; `verbose` is false unless given. */
    constructor (ratings: RatingMap, latentDim: nat, lambda: real, numIterations: int,
                 eta: real, decay: real, numUsers: nat, numItems: nat, verbose: bool := false)
      ensures Valid()
      ensures this.ratings == ratings && this.latentDim == latentDim && this.lambda == lambda
      ensures this.numIterations == numIterations && this.eta == eta && this.decay == decay
      ensures m == numUsers && n == numItems && this.verbose == verbose
      ensures U == Zeros(numUsers, latentDim) && V == Zeros(numItems, latentDim)
    {
      this.ratings := ratings;
      this.latentDim := latentDim;
      this.lambda := lambda;
      this.numIterations := numIterations;
      this.eta := eta;
      this.m := numUsers;
      this.n := numItems;
      this.decay := decay;
      this.verbose := verbose;
      U := Zeros(numUsers, latentDim);
      V := Zeros(numItems, latentDim);
    }

    /** The adjacency build at the start of `fit`: walking the ratings in key
        order, `users_items[user]` gains `item` and `items_users[item]` gains
        `user`.  Afterwards a user is a key exactly when it rated something
        and its set is exactly what it rated; symmetrically for items. */
    method BuildAdjacency() returns (usersItems: map<int, set<int>>, itemsUsers: map<int, set<int>>)
      ensures usersItems.Keys == UsersOf(ratings)
      ensures forall u :: RatedItems(ratings, u) == if u in usersItems then usersItems[u] else {}
      ensures itemsUsers.Keys == ItemsOf(ratings)
      ensures forall j :: Raters(ratings, j) == if j in itemsUsers then itemsUsers[j] else {}
    {
      var keys := AscendingKeys(ratings.Keys);
      usersItems, itemsUsers := map[], map[];
      var t := 0;
      while t < |keys|
        invariant 0 <= t <= |keys|
        invariant IndexesUsers(usersItems, Listed(keys[..t]))
        invariant IndexesItems(itemsUsers, Listed(keys[..t]))
      {
        var (user, item) := keys[t];
        IndexNext(usersItems, itemsUsers, keys, t);
        usersItems := InsertUser(usersItems, user, item);
        itemsUsers := InsertItem(itemsUsers, user, item);
        t := t + 1;
      }
      assert keys[..t] == keys;
      IndexedAll(usersItems, itemsUsers, keys, ratings);
    }

    /** One visit of the user pass: the residual `eij` of rating `(i, j)` is
        computed from the current rows, then entry `k` of `U[i]` moves
        against the gradient, for every `k` below `latent_dim`.  Only row `i`
        changes. */
    method UpdateUser(i: nat, j: nat)
      requires Valid() && i < m && j < n && (i, j) in ratings
      modifies this`U
      ensures Valid()
      ensures U == old(U)[i := Step(old(U)[i], V[j], Dot(old(U)[i], V[j]) - ratings[(i, j)], eta, lambda)]
    {
      var dot := DotProduct(U[i], V[j]);
      var eij := dot - ratings[(i, j)];
      ghost var target := Step(U[i], V[j], eij, eta, lambda);
      var k := 0;
      while k < latentDim
        invariant 0 <= k <= latentDim && |U| == |old(U)| && |U[i]| == latentDim
        invariant forall r :: 0 <= r < |U| && r != i ==> U[r] == old(U)[r]
        invariant forall q :: 0 <= q < k ==> U[i][q] == target[q]
        invariant forall q :: k <= q < latentDim ==> U[i][q] == old(U)[i][q]
      {
        U := U[i := U[i][k := U[i][k] - eta * (2.0 * eij * V[j][k] + lambda * U[i][k])]];
        k := k + 1;
      }
      assert U[i] == target;
    }

    /** One visit of the item pass: the residual of rating `(i, j)` from the
        current rows, then `V[j]` moves against the gradient with the user
        row `U[i]` as partner. */
    method UpdateItem(i: nat, j: nat)
      requires Valid() && i < m && j < n && (i, j) in ratings
      modifies this`V
      ensures Valid()
      ensures V == old(V)[j := Step(old(V)[j], U[i], Dot(U[i], old(V)[j]) - ratings[(i, j)], eta, lambda)]
    {
      var dot := DotProduct(U[i], V[j]);
      var eij := dot - ratings[(i, j)];
      ghost var target := Step(V[j], U[i], eij, eta, lambda);
      var k := 0;
      while k < latentDim
        invariant 0 <= k <= latentDim && |V| == |old(V)| && |V[j]| == latentDim
        invariant forall r :: 0 <= r < |V| && r != j ==> V[r] == old(V)[r]
        invariant forall q :: 0 <= q < k ==> V[j][q] == target[q]
        invariant forall q :: k <= q < latentDim ==> V[j][q] == old(V)[j][q]
      {
        V := V[j := V[j][k := V[j][k] - eta * (2.0 * eij * U[i][k] + lambda * V[j][k])]];
        k := k + 1;
      }
      assert V[j] == target;
    }

    /** User `i` visits the items `js` in order, recomputing the residual
        from the current rows before each update; only `U[i]` changes. */
    method VisitUserRow(i: nat, js: seq<int>)
      requires Valid() && Config().InRange() && 1 <= i < m
      requires forall j :: j in js ==> (i, j) in ratings
      modifies this`U
      ensures Valid()
      ensures U == old(U)[i := VisitUser(Config(), old(U)[i], V, i, js, eta)]
    {
      var t := 0;
      while t < |js|
        invariant 0 <= t <= |js| && Valid()
        invariant forall r :: 0 <= r < m && r != i ==> U[r] == old(U)[r]
        invariant VisitUser(Config(), U[i], V, i, js[t..], eta) == VisitUser(Config(), old(U)[i], V, i, js, eta)
      {
        assert (i, js[t]) in ratings;
        ghost var before := U[i];
        UpdateUser(i, js[t]);
        VisitUserAdvance(Config(), before, U[i], V, i, js, t, eta);
        t := t + 1;
      }
      assert U == old(U)[i := U[i]];
    }

    /** Item `j` visits the users `us` in order; only `V[j]` changes. */
    method VisitItemRow(j: nat, us: seq<int>)
      requires Valid() && Config().InRange() && j < n
      requires forall i :: i in us ==> (i, j) in ratings
      modifies this`V
      ensures Valid()
      ensures V == old(V)[j := VisitItem(Config(), U, old(V)[j], j, us, eta)]
    {
      var t := 0;
      while t < |us|
        invariant 0 <= t <= |us| && Valid()
        invariant forall r :: 0 <= r < n && r != j ==> V[r] == old(V)[r]
        invariant VisitItem(Config(), U, V[j], j, us[t..], eta) == VisitItem(Config(), U, old(V)[j], j, us, eta)
      {
        assert (us[t], j) in ratings;
        ghost var before := V[j];
        UpdateItem(us[t], j);
        VisitItemAdvance(Config(), U, before, V[j], j, us, t, eta);
        t := t + 1;
      }
      assert V == old(V)[j := V[j]];
    }

    /** The user pass of one iteration: users `1 .. m-1`, each over
        `users_items[i]` in ascending order (`operator[]` yields the empty set
        for a user without ratings). */
    method UpdateUsers(usersItems: map<int, set<int>>)
      requires Valid() && Config().InRange()
      requires forall u :: RatedItems(ratings, u) == if u in usersItems then usersItems[u] else {}
      modifies this`U
      ensures Valid()
      ensures U == UserPass(Config(), old(U), V, 1, eta)
    {
      var i := 1;
      while i < m
        invariant 1 <= i && Valid()
        invariant UserPass(Config(), U, V, i, eta) == UserPass(Config(), old(U), V, 1, eta)
        decreases m - i
      {
        var items := if i in usersItems then usersItems[i] else {};
        assert items == RatedItems(ratings, i);
        ghost var before := U;
        VisitUserRow(i, Ascending(items));
        UserPassAdvance(Config(), before, U, V, i, eta);
        i := i + 1;
      }
    }

    /** The item pass of one iteration: items `0 .. n-1`, each over
        `items_users[j]` in ascending order. */
    method UpdateItems(itemsUsers: map<int, set<int>>)
      requires Valid() && Config().InRange()
      requires forall j :: Raters(ratings, j) == if j in itemsUsers then itemsUsers[j] else {}
      modifies this`V
      ensures Valid()
      ensures V == ItemPass(Config(), U, old(V), 0, eta)
    {
      var j := 0;
      while j < n
        invariant Valid()
        invariant ItemPass(Config(), U, V, j, eta) == ItemPass(Config(), U, old(V), 0, eta)
        decreases n - j
      {
        var users := if j in itemsUsers then itemsUsers[j] else {};
        assert users == Raters(ratings, j);
        ghost var before := V;
        VisitItemRow(j, Ascending(users));
        ItemPassAdvance(Config(), U, before, V, j, eta);
        j := j + 1;
      }
    }

    /** The random initialisation of `fit`: `U` row by row from the first
        `m * latent_dim` draws, then `V` from the next `n * latent_dim`. */
    method InitializeFactors(draws: seq<real>)
      requires Valid() && m * latentDim + n * latentDim <= |draws|
      modifies this`U, this`V
      ensures Valid()
      ensures State() == Initialize(Config(), old(State()), draws)
    {
      SizeShaped(U, m, latentDim);
      SizeShaped(V, n, latentDim);
      U := InitMatrix(U, draws);
      V := InitMatrix(V, draws[m * latentDim..]);
    }

    /** One iteration of the gradient-descent loop of `fit`: decay `eta`,
        then the user pass, then the item pass. */
    method Iterate(usersItems: map<int, set<int>>, itemsUsers: map<int, set<int>>)
      requires Valid() && Config().InRange()
      requires forall u :: RatedItems(ratings, u) == if u in usersItems then usersItems[u] else {}
      requires forall j :: Raters(ratings, j) == if j in itemsUsers then itemsUsers[j] else {}
      modifies this`U, this`V, this`eta
      ensures Valid()
      ensures State() == Sweep(Config(), old(State()))
    {
      ghost var s0 := State();
      eta := eta * decay;
      UpdateUsers(usersItems);
      assert U == UserPass(Config(), s0.U, s0.V, 1, eta);
      ghost var users := U;
      UpdateItems(itemsUsers);
      assert V == ItemPass(Config(), users, s0.V, 0, eta);
      assert Sweep(Config(), s0).eta == eta;
      assert Sweep(Config(), s0).U == users;
      assert Sweep(Config(), s0).V == V;
    }

    /** `fit()`: index the ratings, draw fresh factors, then run
        `num_iterations` sweeps, each decaying `eta` once and then updating
        the user rows and the item rows in place.  The resulting state is
        `Fitted`, whose learning rate and idle rows `FitRate` and `FitKeeps`
        describe. */
    method Fit(draws: seq<real>)
      requires Valid() && Config().InRange()
      requires m * latentDim + n * latentDim <= |draws|
      modifies this`U, this`V, this`eta
      ensures Valid()
      ensures State() == Fitted(Config(), old(State()), draws, SweepCount())
    {
      var usersItems, itemsUsers := BuildAdjacency();
      InitializeFactors(draws);
      ghost var start := State();
      assert start == Initialize(Config(), old(State()), draws);
      var iteration := 0;
      while iteration < numIterations
        invariant 0 <= iteration <= SweepCount() && Valid()
        invariant Sweeps(Config(), State(), SweepCount() - iteration) == Sweeps(Config(), start, SweepCount())
      {
        Iterate(usersItems, itemsUsers);
        iteration := iteration + 1;
      }
    }

    /** `predict(user, item)`: the dot product of the user's and the item's
        factor rows. */
    method Predict(user: int, item: int) returns (prediction: real)
      requires Valid() && 0 <= user < m && 0 <= item < n
      ensures prediction == Dot(U[user], V[item])
    {
      prediction := DotProduct(U[user], V[item]);
    }

    /** `get_U()`: a copy of the user factor table. */
    method GetU() returns (r: Matrix)
      ensures r == U
    {
      r := U;
    }

    /** `get_V()`: a copy of the item factor table. */
    method GetV() returns (r: Matrix)
      ensures r == V
    {
      r := V;
    }
  }
}
