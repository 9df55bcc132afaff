/** Facts about finite sets and maps that several ordered tables in the model rely on. */
module Collections {
  /** A set other than the empty set has a member. */
  lemma HasMember(s: set<int>)
    requires s != {}
    ensures exists x :: x in s
  {
    if forall x :: x !in s {
      assert false;
    }
  }

  /** A set of naturals other than the empty set has a member. */
  lemma HasNatMember(s: set<nat>)
    requires s != {}
    ensures exists x: nat :: x in s
  {
    if forall x: nat :: x !in s {
      assert false;
    }
  }

  /** Some member of a non-empty set of naturals, the order in which a hash table hands out its keys. */
  ghost function Pick(s: set<nat>): (x: nat)
    requires s != {}
    ensures x in s
  {
    HasNatMember(s);
    var x :| x in s;
    x
  }

  /** Every finite non-empty set of integers has a least element (`BTreeMap::first_key_value`, `keys().min()`). */
  lemma {:induction false} MinExists(s: set<int>)
    requires s != {}
    ensures exists m :: m in s && forall y :: y in s ==> m <= y
    decreases |s|
  {
    HasMember(s);
    var x :| x in s;
    if s != {x} {
      MinExists(s - {x});
      var m :| m in s - {x} && forall y :: y in s - {x} ==> m <= y;
      var least := if x < m then x else m;
      forall y | y in s ensures least <= y {
        if y != x {
          assert y in s - {x};
        }
      }
    } else {
      forall y | y in s ensures x <= y {
        assert y == x;
      }
    }
  }

  /** The least element of a finite non-empty set of integers. */
  ghost function Min(s: set<int>): (m: int)
    requires s != {}
    ensures m in s && forall y :: y in s ==> m <= y
  {
    MinExists(s);
    var m :| m in s && forall y :: y in s ==> m <= y;
    m
  }

  /** The indices 0 .. n-1. */
  function Range(n: nat): (r: set<nat>)
    ensures forall x: int :: x in r <==> 0 <= x < n
    ensures |r| == n
  {
    if n == 0 then {}
    else
      var prior := Range(n - 1);
      assert n - 1 !in prior;
      var r := prior + {n - 1};
      r
  }

  /** A set of indices below n that misses two of them has at most n - 2 members. */
  lemma {:induction false} SubsetOfRange(s: set<nat>, n: nat, missing: set<nat>)
    requires forall x :: x in s ==> x < n
    requires missing <= Range(n) && s !! missing
    ensures |s| + |missing| <= n
  {
    assert s + missing <= Range(n);
    SubsetCard(s + missing, Range(n));
  }

  /** A subset is no larger than its superset. */
  lemma SubsetCard<T>(a: set<T>, b: set<T>)
    requires a <= b
    ensures |a| <= |b|
  {
    assert b == a + (b - a);
  }
}
