/** Ascending iteration over `std::set<int>` and over the keys of a
    `std::map<std::pair<int,int>, _>`.  C++ visits both in increasing order
    (pairs lexicographically); every loop of the model that walks such a
    container walks the sequence produced here. */
module Ordered {

  /** A rating key `(user, item)`, ordered like `std::pair<int, int>`. */
  type Key = (int, int)

  // ---------------------------------------------------------------- integers

  predicate IsLeast(x: int, s: set<int>)
  {
    x in s && forall y :: y in s ==> x <= y
  }

  lemma {:induction false} LeastExists(s: set<int>)
    requires s != {}
    ensures exists x :: IsLeast(x, s)
    decreases |s|
  {
    if forall x :: x !in s {
      assert false;
    }
    var z :| z in s;
    var rest := s - {z};
    if rest == {} {
      assert s == {z};
      assert IsLeast(z, s);
    } else {
      LeastExists(rest);
      var w :| IsLeast(w, rest);
      assert forall y :: y in s ==> y == z || y in rest;
      if z < w { assert IsLeast(z, s); } else { assert IsLeast(w, s); }
    }
  }

  /** The elements of `s` in the order a range-for over a `std::set<int>`
      visits them: each exactly once (and strictly increasing, as
      `AscendingIncreasing` shows). */
  function Ascending(s: set<int>): (r: seq<int>)
    ensures |r| == |s|
    ensures forall x :: x in r <==> x in s
    decreases |s|
  {
    if s == {} then []
    else
      LeastExists(s);
      var x :| IsLeast(x, s);
      [x] + Ascending(s - {x})
  }

  /** `Ascending` lists the set in strictly increasing order. */
  lemma {:induction false} AscendingIncreasing(s: set<int>)
    ensures forall p, q :: 0 <= p < q < |Ascending(s)| ==> Ascending(s)[p] < Ascending(s)[q]
    decreases |s|
  {
    if s != {} {
      var r := Ascending(s);
      var x := r[0];
      assert IsLeast(x, s) && r[1..] == Ascending(s - {x});
      AscendingIncreasing(s - {x});
      forall p, q | 0 <= p < q < |r| ensures r[p] < r[q] {
        var rest := Ascending(s - {x});
        assert r[q] == rest[q - 1];
        if p == 0 {
          assert rest[q - 1] in rest;
          assert r[q] in s && r[q] != x;
        } else {
          assert r[p] == rest[p - 1];
        }
      }
    }
  }

  // -------------------------------------------------------------------- keys

  /** Lexicographic order of `std::pair<int, int>`. */
  predicate KeyLess(a: Key, b: Key)
  {
    a.0 < b.0 || (a.0 == b.0 && a.1 < b.1)
  }

  predicate IsLeastKey(x: Key, s: set<Key>)
  {
    x in s && forall y :: y in s && y != x ==> KeyLess(x, y)
  }

  lemma {:induction false} LeastKeyExists(s: set<Key>)
    requires s != {}
    ensures exists x :: IsLeastKey(x, s)
    decreases |s|
  {
    if forall x :: x !in s {
      assert false;
    }
    var z :| z in s;
    var rest := s - {z};
    if rest == {} {
      assert s == {z};
      assert IsLeastKey(z, s);
    } else {
      LeastKeyExists(rest);
      var w :| IsLeastKey(w, rest);
      assert forall y :: y in s ==> y == z || y in rest;
      if KeyLess(z, w) { assert IsLeastKey(z, s); } else { assert IsLeastKey(w, s); }
    }
  }

  /** The keys of a map in the order a range-for over a
      `std::map<std::pair<int,int>, _>` visits them: each exactly once (and
      strictly increasing in the lexicographic order, as
      `AscendingKeysIncreasing` shows). */
  function AscendingKeys(s: set<Key>): (r: seq<Key>)
    ensures |r| == |s|
    ensures forall x :: x in r <==> x in s
    decreases |s|
  {
    if s == {} then []
    else
      LeastKeyExists(s);
      var x :| IsLeastKey(x, s);
      [x] + AscendingKeys(s - {x})
  }

  /** `AscendingKeys` lists the keys in strictly increasing order. */
  lemma {:induction false} AscendingKeysIncreasing(s: set<Key>)
    ensures forall p, q :: 0 <= p < q < |AscendingKeys(s)| ==> KeyLess(AscendingKeys(s)[p], AscendingKeys(s)[q])
    decreases |s|
  {
    if s != {} {
      var r := AscendingKeys(s);
      var x := r[0];
      assert IsLeastKey(x, s) && r[1..] == AscendingKeys(s - {x});
      AscendingKeysIncreasing(s - {x});
      forall p, q | 0 <= p < q < |r| ensures KeyLess(r[p], r[q]) {
        var rest := AscendingKeys(s - {x});
        assert r[q] == rest[q - 1];
        if p == 0 {
          assert rest[q - 1] in rest;
          assert r[q] in s && r[q] != x;
        } else {
          assert r[p] == rest[p - 1];
        }
      }
    }
  }

  /** Strictly increasing key sequences never repeat a key. */
  lemma AscendingKeysDistinct(s: set<Key>)
    ensures Distinct(AscendingKeys(s))
  {
    var r := AscendingKeys(s);
    AscendingKeysIncreasing(s);
    forall p, q | 0 <= p < |r| && 0 <= q < |r| && p != q
      ensures r[p] != r[q]
    {
      if p < q { assert KeyLess(r[p], r[q]); } else { assert KeyLess(r[q], r[p]); }
    }
  }

  /** No element occurs twice. */
  ghost predicate Distinct<T>(s: seq<T>)
  {
    forall p, q :: 0 <= p < |s| && 0 <= q < |s| && p != q ==> s[p] != s[q]
  }
}
