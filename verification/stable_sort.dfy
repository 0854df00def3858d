/**
 * Python's `sorted(xs, key=f)` for string keys: a stable ascending sort. The key function is a
 * parameter, so the proofs here know nothing about how keys are computed.
 */
module StableSort {
  import opened Text

  ghost predicate SortedBy<T>(s: seq<T>, key: T -> string) {
    forall i, j :: 0 <= i < j < |s| ==> LexLe(key(s[i]), key(s[j]))
  }

  /** The elements of `s` whose key is `k`, in their order in `s`. A sort is stable exactly when
      it leaves every such subsequence as it was. */
  function WithKey<T>(s: seq<T>, key: T -> string, k: string): seq<T> {
    if |s| == 0 then []
    else (if key(s[0]) == k then [s[0]] else []) + WithKey(s[1..], key, k)
  }

  lemma {:induction false} WithKeyAppend<T>(a: seq<T>, b: seq<T>, key: T -> string, k: string)
    ensures WithKey(a + b, key, k) == WithKey(a, key, k) + WithKey(b, key, k)
    decreases |a|
  {
    if |a| > 0 {
      assert (a + b)[1..] == a[1..] + b;
      WithKeyAppend(a[1..], b, key, k);
    } else {
      assert a + b == b;
    }
  }

  lemma {:induction false} WithKeyMembers<T>(s: seq<T>, key: T -> string, k: string, x: T)
    requires x in WithKey(s, key, k)
    ensures x in s && key(x) == k
    decreases |s|
  {
    if x != s[0] || key(s[0]) != k {
      WithKeyMembers(s[1..], key, k, x);
    }
  }

  lemma WithKeyHead<T>(s: seq<T>, key: T -> string)
    requires |s| > 0
    ensures WithKey(s, key, key(s[0])) == [s[0]] + WithKey(s[1..], key, key(s[0]))
  {
  }

  lemma SortedCons<T>(x: T, s: seq<T>, key: T -> string)
    requires SortedBy(s, key)
    requires forall y :: y in s ==> LexLe(key(x), key(y))
    ensures SortedBy([x] + s, key)
  {
    forall i, j | 0 <= i < j < |[x] + s| ensures LexLe(key(([x] + s)[i]), key(([x] + s)[j])) {
      assert ([x] + s)[j] == s[j - 1];
      if i > 0 { assert ([x] + s)[i] == s[i - 1]; }
    }
  }

  lemma InsertFront<T>(x: T, s: seq<T>, key: T -> string)
    requires SortedBy(s, key) && |s| > 0 && LexLe(key(x), key(s[0]))
    ensures SortedBy([x] + s, key)
    ensures forall k :: WithKey([x] + s, key, k) == (if key(x) == k then [x] else []) + WithKey(s, key, k)
  {
    forall y | y in s ensures LexLe(key(x), key(y)) {
      var j :| 0 <= j < |s| && s[j] == y;
      if j > 0 { LexLeTransitive(key(x), key(s[0]), key(y)); }
    }
    SortedCons(x, s, key);
    assert ([x] + s)[1..] == s;
  }

  lemma InsertBehindSorted<T>(x: T, s: seq<T>, rest: seq<T>, key: T -> string)
    requires SortedBy(s, key) && |s| > 0 && !LexLe(key(x), key(s[0]))
    requires SortedBy(rest, key)
    requires multiset(rest) == multiset(s[1..]) + multiset{x}
    ensures SortedBy([s[0]] + rest, key)
    ensures multiset([s[0]] + rest) == multiset(s) + multiset{x}
  {
    LexLeTotal(key(x), key(s[0]));
    forall y | y in rest ensures LexLe(key(s[0]), key(y)) {
      assert y in multiset(rest);
      if y != x {
        assert y in multiset(s[1..]);
        var j :| 0 <= j < |s[1..]| && s[1..][j] == y;
        assert s[j + 1] == y;
      }
    }
    SortedCons(s[0], rest, key);
    assert s == [s[0]] + s[1..];
  }

  lemma InsertBehindKeys<T>(x: T, s: seq<T>, rest: seq<T>, key: T -> string, k: string)
    requires |s| > 0 && !LexLe(key(x), key(s[0]))
    requires WithKey(rest, key, k) == (if key(x) == k then [x] else []) + WithKey(s[1..], key, k)
    ensures WithKey([s[0]] + rest, key, k) == (if key(x) == k then [x] else []) + WithKey(s, key, k)
  {
    var tail := WithKey(s[1..], key, k);
    assert ([s[0]] + rest)[1..] == rest;
    assert WithKey([s[0]] + rest, key, k)
        == (if key(s[0]) == k then [s[0]] else []) + WithKey(rest, key, k);
    assert WithKey(s, key, k) == (if key(s[0]) == k then [s[0]] else []) + tail;
    if key(x) == k {
      // `x` sorts after `s[0]`, so their keys differ
      if key(s[0]) == k { LexLeReflexive(k); assert false; }
      assert WithKey([s[0]] + rest, key, k) == [x] + tail;
    }
  }

  /** Places `x` before the first element whose key is not smaller, so that among equal keys
      the element inserted last comes first. */
  function Insert<T>(x: T, s: seq<T>, key: T -> string): (r: seq<T>)
    requires SortedBy(s, key)
    ensures SortedBy(r, key)
    ensures multiset(r) == multiset(s) + multiset{x}
    ensures forall k :: WithKey(r, key, k) == (if key(x) == k then [x] else []) + WithKey(s, key, k)
    decreases |s|
  {
    if |s| == 0 then [x]
    else if LexLe(key(x), key(s[0])) then
      InsertFront(x, s, key);
      [x] + s
    else
      var rest := Insert(x, s[1..], key);
      InsertBehindSorted(x, s, rest, key);
      forall k: string
        ensures WithKey([s[0]] + rest, key, k) == (if key(x) == k then [x] else []) + WithKey(s, key, k)
      {
        InsertBehindKeys(x, s, rest, key, k);
      }
      [s[0]] + rest
  }

  /** `sorted(s, key=key)`: ascending by key, a permutation of `s`, and stable. */
  function SortBy<T>(s: seq<T>, key: T -> string): (r: seq<T>)
    ensures SortedBy(r, key)
    ensures multiset(r) == multiset(s)
    ensures forall k :: WithKey(r, key, k) == WithKey(s, key, k)
    decreases |s|
  {
    if |s| == 0 then []
    else
      assert s == [s[0]] + s[1..];
      Insert(s[0], SortBy(s[1..], key), key)
  }

  /**
   * Stability pins the result down: two sequences sorted by the same key, with the same
   * elements in the same order within every key, are equal. So every stable ascending sort of
   * a listing yields the same sequence.
   */
  lemma {:induction false} StableOrderIsUnique<T>(s: seq<T>, t: seq<T>, key: T -> string)
    requires SortedBy(s, key) && SortedBy(t, key)
    requires forall k :: WithKey(s, key, k) == WithKey(t, key, k)
    ensures s == t
    decreases |s|
  {
    if |s| == 0 || |t| == 0 {
      // an element of one would show up in its key's subsequence of the other
      if |s| > 0 {
        WithKeyHead(s, key);
      } else if |t| > 0 {
        WithKeyHead(t, key);
      }
    } else {
      SameHead(s, t, key);
      forall k: string ensures WithKey(s[1..], key, k) == WithKey(t[1..], key, k) {
        DropSameHead(s, t, key, k);
      }
      StableOrderIsUnique(s[1..], t[1..], key);
      assert s == [s[0]] + s[1..] && t == [t[0]] + t[1..];
    }
  }

  /** Two such sequences start with the same element: each one's smallest key is the other's. */
  lemma SameHead<T>(s: seq<T>, t: seq<T>, key: T -> string)
    requires SortedBy(s, key) && SortedBy(t, key) && |s| > 0 && |t| > 0
    requires forall k :: WithKey(s, key, k) == WithKey(t, key, k)
    ensures s[0] == t[0]
  {
    var ks, kt := key(s[0]), key(t[0]);
    WithKeyHead(s, key);
    WithKeyHead(t, key);
    var y := WithKey(t, key, ks)[0];
    WithKeyMembers(t, key, ks, y);
    var j :| 0 <= j < |t| && t[j] == y;
    assert LexLe(kt, ks) by { if j > 0 { assert LexLe(key(t[0]), key(t[j])); } else { LexLeReflexive(kt); } }
    var z := WithKey(s, key, kt)[0];
    WithKeyMembers(s, key, kt, z);
    var i :| 0 <= i < |s| && s[i] == z;
    assert LexLe(ks, kt) by { if i > 0 { assert LexLe(key(s[0]), key(s[i])); } else { LexLeReflexive(ks); } }
    LexLeAntisymmetric(ks, kt);
  }

  lemma DropSameHead<T>(s: seq<T>, t: seq<T>, key: T -> string, k: string)
    requires |s| > 0 && |t| > 0 && s[0] == t[0]
    requires WithKey(s, key, k) == WithKey(t, key, k)
    ensures WithKey(s[1..], key, k) == WithKey(t[1..], key, k)
  {
    var head := if key(s[0]) == k then [s[0]] else [];
    var restS, restT := WithKey(s[1..], key, k), WithKey(t[1..], key, k);
    assert head + restS == WithKey(s, key, k) == WithKey(t, key, k) == head + restT;
    assert restS == (head + restS)[|head|..];
    assert restT == (head + restT)[|head|..];
  }

  /** Any stable ascending sort of `s` is `SortBy(s, key)`. */
  lemma StableSortIsUnique<T>(s: seq<T>, t: seq<T>, key: T -> string)
    requires SortedBy(t, key)
    requires forall k :: WithKey(t, key, k) == WithKey(s, key, k)
    ensures t == SortBy(s, key)
  {
    StableOrderIsUnique(SortBy(s, key), t, key);
  }

  /** Sorting keeps the length. */
  lemma SortLength<T>(s: seq<T>, key: T -> string)
    ensures |SortBy(s, key)| == |s|
  {
    assert |multiset(SortBy(s, key))| == |multiset(s)|;
  }

  /** An element whose key is strictly below every other element's key comes first. */
  lemma StrictMinimumComesFirst<T>(s: seq<T>, key: T -> string, m: T)
    requires m in s
    requires forall y :: y in s && y != m ==> !LexLe(key(y), key(m))
    ensures |SortBy(s, key)| > 0 && SortBy(s, key)[0] == m
  {
    var sorted := SortBy(s, key);
    assert m in multiset(sorted);
    var j :| 0 <= j < |sorted| && sorted[j] == m;
    assert sorted[0] in multiset(s);
    if j > 0 {
      assert LexLe(key(sorted[0]), key(sorted[j]));
    }
  }

  /** Of three elements in any order, one whose key is strictly below the other two sorts first. */
  lemma {:induction false} StrictMinimumOfThree<T>(s: seq<T>, a: T, m: T, c: T, key: T -> string)
    requires multiset(s) == multiset{a, m, c}
    requires LexLe(key(m), key(a)) && key(m) != key(a)
    requires LexLe(key(m), key(c)) && key(m) != key(c)
    ensures |SortBy(s, key)| == 3 && SortBy(s, key)[..1] == [m]
  {
    assert m in multiset(s);
    forall y | y in s && y != m ensures !LexLe(key(y), key(m)) {
      assert y in multiset(s);
      assert y == a || y == m || y == c;
      if y == a {
        LexLeStrict(key(m), key(a));
      } else {
        assert y == c;
        LexLeStrict(key(m), key(c));
      }
    }
    StrictMinimumComesFirst(s, key, m);
    SortLength(s, key);
    assert |s| == |multiset(s)| == 3;
    var sorted := SortBy(s, key);
    assert sorted[..1] == [sorted[0]];
  }

  /** The part of the stable sort before a cut is itself sorted, comes no later by key than
      what is left over, and keeps the input order among equal keys. */
  lemma {:induction false} SortFront<T>(s: seq<T>, key: T -> string, cut: nat)
    requires cut <= |s|
    ensures SortedBy(SortBy(s, key)[..cut], key)
    ensures forall x, y :: x in SortBy(s, key)[..cut] && y in multiset(s) - multiset(SortBy(s, key)[..cut]) ==>
              LexLe(key(x), key(y))
    ensures forall k :: WithKey(SortBy(s, key)[..cut], key, k) <= WithKey(s, key, k)
  {
    var sorted := SortBy(s, key);
    SortLength(s, key);
    SortedPrefix(s, sorted, cut, key);
    forall x, y | x in sorted[..cut] && y in multiset(s) - multiset(sorted[..cut])
      ensures LexLe(key(x), key(y))
    {
      assert y in multiset(sorted[cut..]);
    }
  }

  /** One instance of the ordering between the front of the sort and what is left over. */
  lemma {:induction false} FrontNoLaterThanRest<T>(s: seq<T>, key: T -> string, cut: nat, x: T, y: T)
    requires cut <= |SortBy(s, key)|
    requires x in SortBy(s, key)[..cut] && y in multiset(s) - multiset(SortBy(s, key)[..cut])
    ensures LexLe(key(x), key(y))
  {
    SortFront(s, key, cut);
  }

  /** The first `cut` elements of a stable sort of `s`: a sub-multiset of `s`, still sorted,
      no key above any key left behind, and a prefix of every key's subsequence. */
  lemma SortedPrefix<T>(s: seq<T>, sorted: seq<T>, cut: nat, key: T -> string)
    requires SortedBy(sorted, key) && multiset(sorted) == multiset(s)
    requires forall k :: WithKey(sorted, key, k) == WithKey(s, key, k)
    requires cut <= |sorted|
    ensures multiset(sorted[..cut]) <= multiset(s)
    ensures multiset(s) - multiset(sorted[..cut]) == multiset(sorted[cut..])
    ensures SortedBy(sorted[..cut], key)
    ensures forall x, y :: x in sorted[..cut] && y in sorted[cut..] ==> LexLe(key(x), key(y))
    ensures forall k :: WithKey(sorted[..cut], key, k) <= WithKey(s, key, k)
  {
    var front, back := sorted[..cut], sorted[cut..];
    assert sorted == front + back;
    assert multiset(sorted) == multiset(front) + multiset(back);
    forall x, y | x in front && y in back ensures LexLe(key(x), key(y)) {
      var i :| 0 <= i < cut && front[i] == x;
      var j :| 0 <= j < |back| && back[j] == y;
      assert sorted[i] == x && sorted[cut + j] == y;
    }
    forall k: string ensures WithKey(front, key, k) <= WithKey(s, key, k) {
      WithKeyAppend(front, back, key, k);
    }
  }
}
