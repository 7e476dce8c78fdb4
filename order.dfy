/** The order `Array.prototype.sort` puts strings in when no comparator is
    given: lexicographic, character by character, a proper prefix first. */
module Order {
  import opened Lists

  /** `a` sorts strictly before `b`. */
  predicate Below(a: string, b: string)
    decreases |a|
  {
    if a == [] then b != []
    else if b == [] then false
    else a[0] < b[0] || (a[0] == b[0] && Below(a[1..], b[1..]))
  }

  lemma {:induction false} BelowIrreflexive(a: string)
    ensures !Below(a, a)
    decreases |a|
  {
    if a != [] {
      BelowIrreflexive(a[1..]);
    }
  }

  lemma {:induction false} BelowTransitive(a: string, b: string, c: string)
    requires Below(a, b) && Below(b, c)
    ensures Below(a, c)
    decreases |a|
  {
    if a != [] && b != [] && c != [] && a[0] == b[0] && b[0] == c[0] {
      BelowTransitive(a[1..], b[1..], c[1..]);
    }
  }

  /** Two different strings are ordered one way or the other. */
  lemma {:induction false} BelowTotal(a: string, b: string)
    requires a != b
    ensures Below(a, b) || Below(b, a)
    decreases |a|
  {
    if a != [] && b != [] && a[0] == b[0] {
      assert a[1..] != b[1..];
      BelowTotal(a[1..], b[1..]);
    }
  }

  lemma BelowAsymmetric(a: string, b: string)
    ensures !(Below(a, b) && Below(b, a))
  {
    if Below(a, b) && Below(b, a) {
      BelowTransitive(a, b, a);
      BelowIrreflexive(a);
    }
  }

  /** Ascending with no string twice. */
  predicate StrictlySorted(s: seq<string>) {
    forall i, j :: 0 <= i < j < |s| ==> Below(s[i], s[j])
  }

  lemma StrictlySortedIsDistinct(s: seq<string>)
    requires StrictlySorted(s)
    ensures forall i, j :: 0 <= i < j < |s| ==> s[i] != s[j]
  {
    forall i, j | 0 <= i < j < |s| ensures s[i] != s[j] {
      BelowIrreflexive(s[i]);
    }
  }

  /** `x` put in its place in an ascending list that does not hold it. */
  function Insert(s: seq<string>, x: string): (r: seq<string>)
    requires StrictlySorted(s) && x !in s
    ensures StrictlySorted(r)
    ensures |r| == |s| + 1
    ensures forall y :: y in r <==> y in s || y == x
    decreases |s|
  {
    if s == [] then [x]
    else if Below(x, s[0]) then
      assert forall j :: 0 < j < |s| ==> Below(x, s[j]) by {
        forall j | 0 < j < |s| ensures Below(x, s[j]) {
          BelowTransitive(x, s[0], s[j]);
        }
      }
      [x] + s
    else
      BelowTotal(x, s[0]);
      var rest := Insert(s[1..], x);
      assert forall y :: y in s[1..] ==> Below(s[0], y) by {
        forall y | y in s[1..] ensures Below(s[0], y) {
          var j :| 0 <= j < |s[1..]| && s[1..][j] == y;
          assert s[j + 1] == y;
        }
      }
      assert forall j :: 0 <= j < |rest| ==> Below(s[0], rest[j]) by {
        forall j | 0 <= j < |rest| ensures Below(s[0], rest[j]) {
          assert rest[j] in rest;
        }
      }
      [s[0]] + rest
  }

  /** `Array.from(set).sort()`: the strings of the set, ascending. */
  method SortedList(tags: set<string>) returns (r: seq<string>)
    ensures StrictlySorted(r)
    ensures forall t :: t in r <==> t in tags
    ensures |r| == |tags|
  {
    r := [];
    var rest := tags;
    while rest != {}
      invariant rest <= tags
      invariant StrictlySorted(r)
      invariant forall t :: t in r <==> t in tags && t !in rest
      invariant |r| + |rest| == |tags|
      decreases |rest|
    {
      var x :| x in rest;
      r := Insert(r, x);
      rest := rest - {x};
    }
  }

  /** Ordered by non-increasing key: the order of
      `sort((a, b) => key(b) - key(a))`. */
  predicate NonIncreasing<T>(s: seq<T>, key: T -> int) {
    forall i, j :: 0 <= i < j < |s| ==> key(s[i]) >= key(s[j])
  }

  /** `x` put after the leading elements whose key is at least its own. */
  function InsertByKey<T(==)>(s: seq<T>, x: T, key: T -> int): (r: seq<T>)
    ensures multiset(r) == multiset(s) + multiset{x}
    decreases |s|
  {
    if s == [] then [x]
    else if key(s[0]) < key(x) then
      assert multiset([x] + s) == multiset(s) + multiset{x};
      [x] + s
    else
      var rest := InsertByKey(s[1..], x, key);
      assert s == [s[0]] + s[1..];
      assert multiset([s[0]] + rest) == multiset{s[0]} + multiset(rest);
      [s[0]] + rest
  }

  /** Every element of the insertion is an element of `s` or `x`. */
  lemma InsertByKeyFrom<T>(s: seq<T>, x: T, key: T -> int, j: nat)
    requires j < |InsertByKey(s, x, key)|
    ensures var y := InsertByKey(s, x, key)[j]; y == x || y in s
  {
    var r := InsertByKey(s, x, key);
    assert r[j] in multiset(r);
  }

  /** Insertion keeps a list ordered by non-increasing key. */
  lemma {:induction false} InsertByKeySorted<T>(s: seq<T>, x: T, key: T -> int)
    requires NonIncreasing(s, key)
    ensures NonIncreasing(InsertByKey(s, x, key), key)
    decreases |s|
  {
    if s != [] && key(s[0]) >= key(x) {
      var rest := InsertByKey(s[1..], x, key);
      InsertByKeySorted(s[1..], x, key);
      forall j | 0 <= j < |rest| ensures key(s[0]) >= key(rest[j]) {
        InsertByKeyFrom(s[1..], x, key, j);
        if rest[j] != x {
          var k :| 0 <= k < |s[1..]| && s[1..][k] == rest[j];
          assert s[k + 1] == rest[j];
        }
      }
      assert InsertByKey(s, x, key) == [s[0]] + rest;
    }
  }

  /** Inserting a new element into a list without repeats gives one. */
  lemma {:induction false} InsertByKeyDistinct<T>(s: seq<T>, x: T, key: T -> int)
    requires Distinct(s) && x !in s
    ensures Distinct(InsertByKey(s, x, key))
    decreases |s|
  {
    if s != [] && key(s[0]) >= key(x) {
      var rest := InsertByKey(s[1..], x, key);
      InsertByKeyDistinct(s[1..], x, key);
      forall j | 0 <= j < |rest| ensures rest[j] != s[0] {
        InsertByKeyFrom(s[1..], x, key, j);
      }
      assert InsertByKey(s, x, key) == [s[0]] + rest;
    }
  }

  /** A stable sort by non-increasing key, by insertion from the left. */
  function SortByKeyDesc<T(==)>(xs: seq<T>, key: T -> int): (r: seq<T>)
    ensures multiset(r) == multiset(xs)
    decreases |xs|
  {
    if xs == [] then []
    else
      assert xs == xs[..|xs| - 1] + [xs[|xs| - 1]];
      InsertByKey(SortByKeyDesc(xs[..|xs| - 1], key), xs[|xs| - 1], key)
  }

  /** The sort is ordered by non-increasing key, is a permutation of its
      input of the same length, and keeps a list without repeats so. */
  lemma {:induction false} SortByKeyDescSpec<T>(xs: seq<T>, key: T -> int)
    ensures NonIncreasing(SortByKeyDesc(xs, key), key)
    ensures |SortByKeyDesc(xs, key)| == |xs|
    ensures Distinct(xs) ==> Distinct(SortByKeyDesc(xs, key))
    decreases |xs|
  {
    var r := SortByKeyDesc(xs, key);
    assert |r| == |multiset(r)| == |multiset(xs)| == |xs|;
    if xs != [] {
      var init := xs[..|xs| - 1];
      var last := xs[|xs| - 1];
      var sorted := SortByKeyDesc(init, key);
      SortByKeyDescSpec(init, key);
      InsertByKeySorted(sorted, last, key);
      if Distinct(xs) {
        assert Distinct(init);
        assert last in sorted ==> last in multiset(sorted);
        InsertByKeyDistinct(sorted, last, key);
      }
    }
  }
}
