/** The sparse observation set `(user, item) -> rating` shared by every part
    of the program, the parsed record that feeds it, and the two map
    insertions the C++ code uses on it. */
module Ratings {
  import opened Ordered

  /** A `std::map<std::pair<int,int>, double>`. */
  type RatingMap = map<Key, real>

  /** One already-parsed line `user,item,rating` of the ratings file. */
  datatype Record = Record(user: int, item: int, rating: real)
  {
    function Key(): Key { (user, item) }
  }

  /** The items user `u` rated: what `users_items[u]` holds once every
      rating has been indexed. */
  function RatedItems(ratings: RatingMap, u: int): (items: set<int>)
    ensures forall j :: j in items <==> (u, j) in ratings
  {
    set j | j in ItemIds(ratings) && (u, j) in ratings
  }

  /** The users who rated item `j`: what `items_users[j]` holds once every
      rating has been indexed. */
  function Raters(ratings: RatingMap, j: int): (users: set<int>)
    ensures forall u :: u in users <==> (u, j) in ratings
  {
    set u | u in UserIds(ratings) && (u, j) in ratings
  }

  /** The first components of the keys. */
  function UserIds(ratings: RatingMap): set<int>
  {
    set p | p in ratings.Keys :: p.0
  }

  /** The second components of the keys. */
  function ItemIds(ratings: RatingMap): set<int>
  {
    set p | p in ratings.Keys :: p.1
  }

  /** The users that occur in some key. */
  function UsersOf(ratings: RatingMap): (users: set<int>)
    ensures forall u :: u in users <==> RatedItems(ratings, u) != {}
  {
    var users := set p | p in ratings.Keys :: p.0;
    forall u | RatedItems(ratings, u) != {} ensures u in users {
      if forall j :: j !in RatedItems(ratings, u) { assert false; }
      var j :| j in RatedItems(ratings, u);
      assert (u, j) in ratings.Keys;
    }
    users
  }

  /** The items that occur in some key. */
  function ItemsOf(ratings: RatingMap): (items: set<int>)
    ensures forall j :: j in items <==> Raters(ratings, j) != {}
  {
    var items := set p | p in ratings.Keys :: p.1;
    forall j | Raters(ratings, j) != {} ensures j in items {
      if forall u :: u !in Raters(ratings, j) { assert false; }
      var u :| u in Raters(ratings, j);
      assert (u, j) in ratings.Keys;
    }
    items
  }

  /** `std::map::emplace`: inserts only when the key is absent, so the entry
      already present always wins. */
  function Emplace(m: RatingMap, k: Key, v: real): (r: RatingMap)
    ensures r.Keys == m.Keys + {k}
    ensures forall k' :: k' in m ==> r[k'] == m[k']
    ensures k !in m ==> r[k] == v
  {
    if k in m then m else m[k := v]
  }

  /** `m[k] = v` through `operator[]`: the new value always wins. */
  function Assign(m: RatingMap, k: Key, v: real): RatingMap
  {
    m[k := v]
  }

  // ------------------------------------------------------- adjacency index

  /** `idx` is the user-to-items index of the keys `keys`: a user is a key
      of `idx` exactly when some key names it, and maps to the items those
      keys name. */
  ghost predicate IndexesUsers(idx: map<int, set<int>>, keys: set<Key>)
  {
    && idx.Keys == (set p | p in keys :: p.0)
    && forall u :: u in idx ==> idx[u] == (set p | p in keys && p.0 == u :: p.1)
  }

  /** `idx` is the item-to-users index of the keys `keys`. */
  ghost predicate IndexesItems(idx: map<int, set<int>>, keys: set<Key>)
  {
    && idx.Keys == (set p | p in keys :: p.1)
    && forall j :: j in idx ==> idx[j] == (set p | p in keys && p.1 == j :: p.0)
  }

  /** `users_items[user].insert(item)` through `operator[]`, which first
      creates an empty set for a new user. */
  function InsertUser(idx: map<int, set<int>>, user: int, item: int): map<int, set<int>>
  {
    idx[user := (if user in idx then idx[user] else {}) + {item}]
  }

  /** `items_users[item].insert(user)`. */
  function InsertItem(idx: map<int, set<int>>, user: int, item: int): map<int, set<int>>
  {
    idx[item := (if item in idx then idx[item] else {}) + {user}]
  }

  /** Indexing one more key keeps the user index exact. */
  lemma IndexUser(idx: map<int, set<int>>, keys: set<Key>, k: Key)
    requires IndexesUsers(idx, keys)
    ensures IndexesUsers(InsertUser(idx, k.0, k.1), keys + {k})
  {
    var idx' := InsertUser(idx, k.0, k.1);
    var keys' := keys + {k};
    assert idx'.Keys == (set p | p in keys' :: p.0);
    forall u | u in idx' ensures idx'[u] == (set p | p in keys' && p.0 == u :: p.1) {
      if u == k.0 {
        var before := if u in idx then idx[u] else {};
        assert before == (set p | p in keys && p.0 == u :: p.1);
        assert before + {k.1} == (set p | p in keys' && p.0 == u :: p.1);
      }
    }
  }

  /** Indexing one more key keeps the item index exact. */
  lemma IndexItem(idx: map<int, set<int>>, keys: set<Key>, k: Key)
    requires IndexesItems(idx, keys)
    ensures IndexesItems(InsertItem(idx, k.0, k.1), keys + {k})
  {
    var idx' := InsertItem(idx, k.0, k.1);
    var keys' := keys + {k};
    assert idx'.Keys == (set p | p in keys' :: p.1);
    forall j | j in idx' ensures idx'[j] == (set p | p in keys' && p.1 == j :: p.0) {
      if j == k.1 {
        var before := if j in idx then idx[j] else {};
        assert before == (set p | p in keys && p.1 == j :: p.0);
        assert before + {k.0} == (set p | p in keys' && p.1 == j :: p.0);
      }
    }
  }

  /** The keys listed in `ks`. */
  function Listed(ks: seq<Key>): set<Key>
  {
    set x | x in ks
  }

  /** Assigning a rating under key `k` and indexing `k` both ways keeps both
      indexes exact for the keys of the updated map. */
  lemma IndexAssigned(ui: map<int, set<int>>, iu: map<int, set<int>>, ratings: RatingMap, k: Key, v: real)
    requires IndexesUsers(ui, ratings.Keys) && IndexesItems(iu, ratings.Keys)
    ensures IndexesUsers(InsertUser(ui, k.0, k.1), Assign(ratings, k, v).Keys)
    ensures IndexesItems(InsertItem(iu, k.0, k.1), Assign(ratings, k, v).Keys)
  {
    assert Assign(ratings, k, v).Keys == ratings.Keys + {k};
    IndexUser(ui, ratings.Keys, k);
    IndexItem(iu, ratings.Keys, k);
  }

  /** Indexing the next key of a key sequence keeps both indexes exact. */
  lemma IndexNext(ui: map<int, set<int>>, iu: map<int, set<int>>, ks: seq<Key>, t: nat)
    requires t < |ks|
    requires IndexesUsers(ui, Listed(ks[..t])) && IndexesItems(iu, Listed(ks[..t]))
    ensures IndexesUsers(InsertUser(ui, ks[t].0, ks[t].1), Listed(ks[..t + 1]))
    ensures IndexesItems(InsertItem(iu, ks[t].0, ks[t].1), Listed(ks[..t + 1]))
  {
    assert ks[..t + 1] == ks[..t] + [ks[t]];
    assert Listed(ks[..t + 1]) == Listed(ks[..t]) + {ks[t]};
    IndexUser(ui, Listed(ks[..t]), ks[t]);
    IndexItem(iu, Listed(ks[..t]), ks[t]);
  }

  /** Indexing every key of a sequence that lists exactly the keys of
      `ratings` yields the exact index of `ratings`. */
  lemma IndexedAll(ui: map<int, set<int>>, iu: map<int, set<int>>, ks: seq<Key>, ratings: RatingMap)
    requires forall x :: x in ks <==> x in ratings
    requires IndexesUsers(ui, Listed(ks)) && IndexesItems(iu, Listed(ks))
    ensures ui.Keys == UsersOf(ratings) && iu.Keys == ItemsOf(ratings)
    ensures forall u :: RatedItems(ratings, u) == if u in ui then ui[u] else {}
    ensures forall j :: Raters(ratings, j) == if j in iu then iu[j] else {}
  {
    assert Listed(ks) == ratings.Keys;
    IndexesAll(ui, iu, ratings);
  }

  /** An exact index of all the keys of `ratings` agrees with `RatedItems`
      and `Raters`, including for the ids it has no entry for. */
  lemma IndexesAll(ui: map<int, set<int>>, iu: map<int, set<int>>, ratings: RatingMap)
    requires IndexesUsers(ui, ratings.Keys) && IndexesItems(iu, ratings.Keys)
    ensures ui.Keys == UsersOf(ratings) && iu.Keys == ItemsOf(ratings)
    ensures forall u :: RatedItems(ratings, u) == if u in ui then ui[u] else {}
    ensures forall j :: Raters(ratings, j) == if j in iu then iu[j] else {}
  {
    forall u ensures RatedItems(ratings, u) == if u in ui then ui[u] else {} {
      if u !in ui {
        forall j | j in RatedItems(ratings, u) ensures false {
        }
      }
    }
    forall j ensures Raters(ratings, j) == if j in iu then iu[j] else {} {
      if j !in iu {
        forall u | u in Raters(ratings, j) ensures false {
        }
      }
    }
  }

  // --------------------------------------------------------- bulk insertion

  /** Every key listed in `ks` is a key of `full`. */
  ghost predicate AllIn(ks: seq<Key>, full: RatingMap)
  {
    forall t :: 0 <= t < |ks| ==> ks[t] in full
  }

  /** `m` after `m[k] = full.at(k)` for each `k` of `ks[lo..hi]` in order. */
  function Copied(m: RatingMap, full: RatingMap, ks: seq<Key>, lo: nat, hi: nat): RatingMap
    requires lo <= hi <= |ks| && AllIn(ks, full)
    decreases hi - lo
  {
    if hi == lo then m
    else Assign(Copied(m, full, ks, lo, hi - 1), ks[hi - 1], full[ks[hi - 1]])
  }

  /** After copying, the keys are the old ones plus the copied ones; a
      copied key holds its value in `full` and every other key is as
      before. */
  lemma {:induction false} CopiedContents(m: RatingMap, full: RatingMap, ks: seq<Key>, lo: nat, hi: nat)
    requires lo <= hi <= |ks| && AllIn(ks, full)
    ensures Copied(m, full, ks, lo, hi).Keys == m.Keys + Listed(ks[lo..hi])
    ensures forall k :: k in Copied(m, full, ks, lo, hi) ==>
              Copied(m, full, ks, lo, hi)[k] == if k in ks[lo..hi] then full[k] else m[k]
    decreases hi - lo
  {
    if hi != lo {
      CopiedContents(m, full, ks, lo, hi - 1);
      assert ks[lo..hi] == ks[lo..hi - 1] + [ks[hi - 1]];
    }
  }

  /** Copying into an empty map gives exactly the copied keys, each with
      its value in `full`. */
  lemma CopiedFresh(full: RatingMap, ks: seq<Key>, lo: nat, hi: nat)
    requires lo <= hi <= |ks| && AllIn(ks, full)
    ensures Copied(map[], full, ks, lo, hi).Keys == Listed(ks[lo..hi])
    ensures forall k :: k in Copied(map[], full, ks, lo, hi) ==> Copied(map[], full, ks, lo, hi)[k] == full[k]
  {
    CopiedContents(map[], full, ks, lo, hi);
  }

  /** A sequence without repetitions lists exactly as many keys as it is
      long. */
  lemma {:induction false} ListedDistinct(ks: seq<Key>)
    requires Distinct(ks)
    ensures |Listed(ks)| == |ks|
  {
    if ks != [] {
      var init := ks[..|ks| - 1];
      assert ks == init + [ks[|ks| - 1]];
      assert Distinct(init);
      ListedDistinct(init);
      assert ks[|ks| - 1] !in init;
      assert Listed(ks) == Listed(init) + {ks[|ks| - 1]};
    }
  }
}
