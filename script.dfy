/** The script-style trainer (`collaborative_filtering.cpp`): reading the
    records into the training map, the test map, both adjacency indexes and
    the id sets; the double-buffered training loop; and its error report. */
module Script {
  import opened Ordered
  import opened Ratings
  import opened LinearAlgebra
  import opened Evaluation
  import opened Jacobi

  // ---------------------------------------------------------------- settings

  /** The script's fixed settings. */
  const LatentDim: nat := 15
  const MaxUsers: nat := 7000
  const MaxItems: nat := 300000
  const Lambda: real := 0.001
  const InitialEta: real := 0.0001
  const Decay: real := 0.9
  const Iterations: nat := 15

  /** The setup the script trains on: the ratings and id sets it read,
      with its settings. */
  function ScriptSetup(ratings: RatingMap, users: set<int>, items: set<int>): Setup
  {
    Setup(ratings, users, items, Lambda, Decay, MaxUsers, MaxItems, LatentDim)
  }

  /** With the script's settings, training ends with the learning rate
      `InitialEta * Decay^Iterations`, positive and below where it began. */
  lemma ScriptSchedule(ratings: RatingMap, users: set<int>, items: set<int>, draws: seq<real>)
    requires ScriptSetup(ratings, users, items).InRange()
    requires MaxUsers * LatentDim + MaxItems * LatentDim <= |draws|
    ensures var f := Trained(ScriptSetup(ratings, users, items), draws, InitialEta, Iterations);
            f.eta == InitialEta * Pow(Decay, Iterations) && 0.0 < f.eta < InitialEta
  {
    TrainedRate(ScriptSetup(ratings, users, items), draws, InitialEta, Iterations);
    PowBelowOne(Decay, Iterations);
  }

  // ------------------------------------------------------------------ reading

  /** What the two coins decided for one record: `Skip` when the first coin
      (probability 0.6) came up true, otherwise `Train` when the
      second coin (probability 0.8, one minus the test share 0.2) came up true, else `Test`. */
  datatype Fate = Skip | Train | Test

  /** The map `operator[]` builds from the records below `hi` whose fate is
      `fate`, assigned in order. */
  function Assigned(records: seq<Record>, fates: seq<Fate>, fate: Fate, hi: nat): RatingMap
    requires |fates| == |records| && hi <= |records|
  {
    if hi == 0 then map[]
    else
      var m := Assigned(records, fates, fate, hi - 1);
      if fates[hi - 1] == fate then Assign(m, records[hi - 1].Key(), records[hi - 1].rating) else m
  }

  /** The user ids of the records below `hi` that were not skipped. */
  function ReadUsers(records: seq<Record>, fates: seq<Fate>, hi: nat): set<int>
    requires |fates| == |records| && hi <= |records|
  {
    if hi == 0 then {}
    else ReadUsers(records, fates, hi - 1) + if fates[hi - 1] != Skip then {records[hi - 1].user} else {}
  }

  /** The item ids of the records below `hi` that were not skipped. */
  function ReadItems(records: seq<Record>, fates: seq<Fate>, hi: nat): set<int>
    requires |fates| == |records| && hi <= |records|
  {
    if hi == 0 then {}
    else ReadItems(records, fates, hi - 1) + if fates[hi - 1] != Skip then {records[hi - 1].item} else {}
  }

  /** The script's reading loop over already-parsed records.  A training
      record is assigned into `ratings` and indexed both ways; a test record
      is assigned into `testSet`; and the ids of every record that was not
      skipped, training or test, go into `users` and `items`.  Both indexes
      are exact for the training keys, and every id of either map is in the
      id sets. */
  method LoadRecords(records: seq<Record>, fates: seq<Fate>)
      returns (ratings: RatingMap, testSet: RatingMap,
               usersItems: map<int, set<int>>, itemsUsers: map<int, set<int>>,
               users: set<int>, items: set<int>)
    requires |fates| == |records|
    ensures ratings == Assigned(records, fates, Train, |records|)
    ensures testSet == Assigned(records, fates, Test, |records|)
    ensures users == ReadUsers(records, fates, |records|)
    ensures items == ReadItems(records, fates, |records|)
    ensures IndexesUsers(usersItems, ratings.Keys) && IndexesItems(itemsUsers, ratings.Keys)
    ensures forall k :: k in ratings || k in testSet ==> k.0 in users && k.1 in items
  {
    ratings, testSet, usersItems, itemsUsers, users, items := map[], map[], map[], map[], {}, {};
    var i := 0;
    while i < |records|
      invariant 0 <= i <= |records|
      invariant ratings == Assigned(records, fates, Train, i)
      invariant testSet == Assigned(records, fates, Test, i)
      invariant users == ReadUsers(records, fates, i)
      invariant items == ReadItems(records, fates, i)
      invariant IndexesUsers(usersItems, ratings.Keys) && IndexesItems(itemsUsers, ratings.Keys)
      invariant forall k :: k in ratings || k in testSet ==> k.0 in users && k.1 in items
    {
      var r := records[i];
      if fates[i] == Train {
        IndexAssigned(usersItems, itemsUsers, ratings, r.Key(), r.rating);
        ratings := Assign(ratings, r.Key(), r.rating);
        usersItems := InsertUser(usersItems, r.user, r.item);
        itemsUsers := InsertItem(itemsUsers, r.user, r.item);
      } else if fates[i] == Test {
        testSet := Assign(testSet, r.Key(), r.rating);
      }
      if fates[i] != Skip {
        users := users + {r.user};
        items := items + {r.item};
      }
      i := i + 1;
    }
  }

  /** Record `t` (below `hi`) has fate `fate` and no later record below `hi`
      with that fate has its key. */
  ghost predicate LastWith(records: seq<Record>, fates: seq<Fate>, fate: Fate, hi: nat, t: int)
    requires |fates| == |records| && hi <= |records|
  {
    && 0 <= t < hi && fates[t] == fate
    && forall s :: t < s < hi && fates[s] == fate ==> records[s].Key() != records[t].Key()
  }

  /** A key is in the map built from the records with fate `fate` exactly
      when one of them has it. */
  lemma {:induction false} AssignedKeys(records: seq<Record>, fates: seq<Fate>, fate: Fate, hi: nat)
    requires |fates| == |records| && hi <= |records|
    ensures forall k :: k in Assigned(records, fates, fate, hi) <==>
              exists t :: 0 <= t < hi && fates[t] == fate && records[t].Key() == k
  {
    if hi > 0 {
      AssignedKeys(records, fates, fate, hi - 1);
    }
  }

  /** Under each key the map holds the rating of the LAST record with that
      key and fate `fate`: `operator[]` overwrites, so a later duplicate
      wins. */
  lemma {:induction false} AssignedLast(records: seq<Record>, fates: seq<Fate>, fate: Fate, hi: nat)
    requires |fates| == |records| && hi <= |records|
    ensures forall t :: LastWith(records, fates, fate, hi, t) ==>
              records[t].Key() in Assigned(records, fates, fate, hi) &&
              Assigned(records, fates, fate, hi)[records[t].Key()] == records[t].rating
  {
    if hi > 0 {
      AssignedLast(records, fates, fate, hi - 1);
      forall t | LastWith(records, fates, fate, hi, t)
        ensures records[t].Key() in Assigned(records, fates, fate, hi)
        ensures Assigned(records, fates, fate, hi)[records[t].Key()] == records[t].rating
      {
        if t < hi - 1 {
          assert LastWith(records, fates, fate, hi - 1, t);
        }
      }
    }
  }

  /** The id sets hold exactly the ids of the records that were not
      skipped, whether they went to training or to testing. */
  lemma {:induction false} ReadIdsContents(records: seq<Record>, fates: seq<Fate>, hi: nat)
    requires |fates| == |records| && hi <= |records|
    ensures forall u :: u in ReadUsers(records, fates, hi) <==>
              exists t :: 0 <= t < hi && fates[t] != Skip && records[t].user == u
    ensures forall j :: j in ReadItems(records, fates, hi) <==>
              exists t :: 0 <= t < hi && fates[t] != Skip && records[t].item == j
  {
    if hi > 0 {
      ReadIdsContents(records, fates, hi - 1);
    }
  }

  /** Once reading is done, the adjacency indexes agree with the training
      map for every id, including ids they have no entry for (which
      `operator[]` would create empty). */
  lemma LoadedIndexes(ratings: RatingMap, usersItems: map<int, set<int>>, itemsUsers: map<int, set<int>>)
    requires IndexesUsers(usersItems, ratings.Keys) && IndexesItems(itemsUsers, ratings.Keys)
    ensures forall u :: RatedItems(ratings, u) == if u in usersItems then usersItems[u] else {}
    ensures forall j :: Raters(ratings, j) == if j in itemsUsers then itemsUsers[j] else {}
  {
    IndexesAll(usersItems, itemsUsers, ratings);
  }

  // ----------------------------------------------------------------- training

  /** The innermost loop for user `i` and dimension `k`: `sum += eij *
      V[j][k]` over the items of `users_items[i]` in ascending order. */
  method UserSum(s: Setup, U: Matrix, V: Matrix, i: int, k: nat, js: seq<int>) returns (sum: real)
    requires s.InRange() && Shaped(U, s.m, s.dim) && Shaped(V, s.n, s.dim) && k < s.dim
    requires forall j :: j in js ==> (i, j) in s.ratings
    ensures sum == UserGradient(s, U, V, i, k, js)
  {
    sum := 0.0;
    var t := 0;
    while t < |js|
      invariant 0 <= t <= |js|
      invariant sum == UserGradient(s, U, V, i, k, js[..t])
    {
      var j := js[t];
      assert (i, j) in s.ratings;
      var dot := DotProduct(U[i], V[j]);
      var eij := dot - s.ratings[(i, j)];
      assert js[..t + 1][..t] == js[..t];
      sum := sum + eij * V[j][k];
      t := t + 1;
    }
    assert js[..t] == js;
  }

  /** The innermost loop for item `j` and dimension `k`: `sum += eij *
      U[i][k]` over the users of `items_users[j]` in ascending order. */
  method ItemSum(s: Setup, U: Matrix, V: Matrix, j: int, k: nat, us: seq<int>) returns (sum: real)
    requires s.InRange() && Shaped(U, s.m, s.dim) && Shaped(V, s.n, s.dim) && k < s.dim
    requires forall i :: i in us ==> (i, j) in s.ratings
    ensures sum == ItemGradient(s, U, V, j, k, us)
  {
    sum := 0.0;
    var t := 0;
    while t < |us|
      invariant 0 <= t <= |us|
      invariant sum == ItemGradient(s, U, V, j, k, us[..t])
    {
      var i := us[t];
      assert (i, j) in s.ratings;
      var dot := DotProduct(U[i], V[j]);
      var eij := dot - s.ratings[(i, j)];
      assert us[..t + 1][..t] == us[..t];
      sum := sum + eij * U[i][k];
      t := t + 1;
    }
    assert us[..t] == us;
  }

  /** The loop over `k` for user `i`: row `i` of `U_new`. */
  method UserRow(s: Setup, U: Matrix, V: Matrix, eta: real, usersItems: map<int, set<int>>, i: int)
      returns (row: Vector)
    requires s.InRange() && Shaped(U, s.m, s.dim) && Shaped(V, s.n, s.dim) && 0 <= i < s.m
    requires RatedItems(s.ratings, i) == if i in usersItems then usersItems[i] else {}
    ensures row == NewUserRow(s, U, V, eta, i)
  {
    var js := Ascending(if i in usersItems then usersItems[i] else {});
    row := seq(s.dim, _ => 0.0);
    var k := 0;
    while k < s.dim
      invariant 0 <= k <= s.dim && |row| == s.dim
      invariant forall q :: 0 <= q < k ==> row[q] == NewUserEntry(s, U, V, eta, i, q)
    {
      var sum := UserSum(s, U, V, i, k, js);
      row := row[k := U[i][k] - eta * (sum + s.lambda * U[i][k])];
      k := k + 1;
    }
  }

  /** The loop over `k` for item `j`: row `j` of `V_new`. */
  method ItemRow(s: Setup, U: Matrix, V: Matrix, eta: real, itemsUsers: map<int, set<int>>, j: int)
      returns (row: Vector)
    requires s.InRange() && Shaped(U, s.m, s.dim) && Shaped(V, s.n, s.dim) && 0 <= j < s.n
    requires Raters(s.ratings, j) == if j in itemsUsers then itemsUsers[j] else {}
    ensures row == NewItemRow(s, U, V, eta, j)
  {
    var us := Ascending(if j in itemsUsers then itemsUsers[j] else {});
    row := seq(s.dim, _ => 0.0);
    var k := 0;
    while k < s.dim
      invariant 0 <= k <= s.dim && |row| == s.dim
      invariant forall q :: 0 <= q < k ==> row[q] == NewItemEntry(s, U, V, eta, j, q)
    {
      var sum := ItemSum(s, U, V, j, k, us);
      row := row[k := V[j][k] - eta * (sum + s.lambda * V[j][k])];
      k := k + 1;
    }
  }

  /** The loop over `users`: `U_new`, starting from zeros. */
  method UsersPass(s: Setup, U: Matrix, V: Matrix, eta: real, usersItems: map<int, set<int>>)
      returns (Unew: Matrix)
    requires s.InRange() && Shaped(U, s.m, s.dim) && Shaped(V, s.n, s.dim)
    requires forall u :: RatedItems(s.ratings, u) == if u in usersItems then usersItems[u] else {}
    ensures Unew == JacobiUsers(s, U, V, eta)
  {
    var order := Ascending(s.users);
    assert forall t :: 0 <= t < |order| ==> order[t] in s.users;
    Unew := Zeros(s.m, s.dim);
    var t := 0;
    while t < |order|
      invariant 0 <= t <= |order|
      invariant Unew == UsersBuffer(s, U, V, eta, order[..t])
    {
      var i := order[t];
      var row := UserRow(s, U, V, eta, usersItems, i);
      assert order[..t + 1][..t] == order[..t];
      Unew := Unew[i := row];
      t := t + 1;
    }
    assert order[..t] == order;
  }

  /** The loop over `items`: `V_new`, starting from zeros. */
  method ItemsPass(s: Setup, U: Matrix, V: Matrix, eta: real, itemsUsers: map<int, set<int>>)
      returns (Vnew: Matrix)
    requires s.InRange() && Shaped(U, s.m, s.dim) && Shaped(V, s.n, s.dim)
    requires forall j :: Raters(s.ratings, j) == if j in itemsUsers then itemsUsers[j] else {}
    ensures Vnew == JacobiItems(s, U, V, eta)
  {
    var order := Ascending(s.items);
    assert forall t :: 0 <= t < |order| ==> order[t] in s.items;
    Vnew := Zeros(s.n, s.dim);
    var t := 0;
    while t < |order|
      invariant 0 <= t <= |order|
      invariant Vnew == ItemsBuffer(s, U, V, eta, order[..t])
    {
      var j := order[t];
      var row := ItemRow(s, U, V, eta, itemsUsers, j);
      assert order[..t + 1][..t] == order[..t];
      Vnew := Vnew[j := row];
      t := t + 1;
    }
    assert order[..t] == order;
  }

  /** The script's training: `U` and `V` allocated as zeros and refilled from the
      draws, then `count` iterations, each decaying `eta` and replacing
      both tables by their buffers together. */
  method TrainFactors(s: Setup, usersItems: map<int, set<int>>, itemsUsers: map<int, set<int>>,
                      draws: seq<real>, eta0: real, count: nat)
      returns (U: Matrix, V: Matrix, eta: real)
    requires s.InRange() && s.m * s.dim + s.n * s.dim <= |draws|
    requires forall u :: RatedItems(s.ratings, u) == if u in usersItems then usersItems[u] else {}
    requires forall j :: Raters(s.ratings, j) == if j in itemsUsers then itemsUsers[j] else {}
    ensures Factors(U, V, eta) == Trained(s, draws, eta0, count)
  {
    U := Zeros(s.m, s.dim);
    V := Zeros(s.n, s.dim);
    SizeShaped(U, s.m, s.dim);
    SizeShaped(V, s.n, s.dim);
    RefillShape(U, draws);
    RefillShape(V, draws[s.m * s.dim..]);
    U := InitMatrix(U, draws);
    V := InitMatrix(V, draws[s.m * s.dim..]);
    eta := eta0;
    ghost var start := Factors(U, V, eta);
    var t := 0;
    while t < count
      invariant 0 <= t <= count
      invariant Sized(s, Factors(U, V, eta))
      invariant Factors(U, V, eta) == JacobiSweeps(s, start, t)
    {
      JacobiSweepsNext(s, start, t);
      U, V, eta := Iteration(s, usersItems, itemsUsers, U, V, eta);
      t := t + 1;
    }
  }

  /** One iteration of the training loop: the rate decays, then the user pass
      and the item pass both read the factors of the previous iteration. */
  method Iteration(s: Setup, usersItems: map<int, set<int>>, itemsUsers: map<int, set<int>>,
               U: Matrix, V: Matrix, eta: real)
      returns (Unew: Matrix, Vnew: Matrix, etaNew: real)
    requires s.InRange() && Sized(s, Factors(U, V, eta))
    requires forall u :: RatedItems(s.ratings, u) == if u in usersItems then usersItems[u] else {}
    requires forall j :: Raters(s.ratings, j) == if j in itemsUsers then itemsUsers[j] else {}
    ensures Factors(Unew, Vnew, etaNew) == JacobiSweep(s, Factors(U, V, eta))
  {
    JacobiSweepParts(s, Factors(U, V, eta));
    etaNew := eta * s.decay;
    Unew := UsersPass(s, U, V, etaNew, usersItems);
    Vnew := ItemsPass(s, U, V, etaNew, itemsUsers);
  }

  // --------------------------------------------------------------- reporting

  /** The script's evaluation: over the test set in key order, the prediction is
      clipped into a variable that is never read again; `mae` adds the
      error of the RAW dot product and `mae_3` the error of always guessing
      3; both are divided by the test-set size. */
  method ScriptMae(test: RatingMap, U: Matrix, V: Matrix) returns (mae: real, mae3: real)
    requires |test| > 0 && Predictable(U, V, test)
    ensures mae == Mean(RawErrorSum(test, U, V, AscendingKeys(test.Keys)), |test|)
    ensures mae3 == Mean(GuessThreeSum(test, AscendingKeys(test.Keys)), |test|)
  {
    var ks := AscendingKeys(test.Keys);
    var sum, sum3 := RawErrors(test, U, V, ks);
    assert |ks| == |test|;
    mae := sum / |test| as real;
    mae3 := sum3 / |test| as real;
  }

  /** The evaluation loop over the keys `ks`. */
  method RawErrors(test: RatingMap, U: Matrix, V: Matrix, ks: seq<Key>) returns (sum: real, sum3: real)
    requires Predictable(U, V, test) && KeysOf(ks, test)
    ensures sum == RawErrorSum(test, U, V, ks)
    ensures sum3 == GuessThreeSum(test, ks)
  {
    sum, sum3 := 0.0, 0.0;
    var t := 0;
    while t < |ks|
      invariant 0 <= t <= |ks|
      invariant sum == RawErrorSum(test, U, V, ks[..t])
      invariant sum3 == GuessThreeSum(test, ks[..t])
    {
      var (i, j) := ks[t];
      var r := test[ks[t]];
      var prediction := DotProduct(U[i], V[j]);
      prediction := Clip(prediction);
      var dot := DotProduct(U[i], V[j]);
      assert ks[..t + 1][..t] == ks[..t];
      sum := sum + Abs(dot - r);
      sum3 := sum3 + Abs(3.0 - r);
      t := t + 1;
    }
    assert ks[..t] == ks;
  }
}
