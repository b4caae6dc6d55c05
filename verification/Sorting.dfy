/** Sorting by a tuple key, as Python does it: lexicographically, and leaving equal keys in the order read. */
module Sorting {
  type Key = seq<int>

  /** Tuple comparison. */
  predicate Less(a: Key, b: Key) {
    b != [] && (a == [] || a[0] < b[0] || (a[0] == b[0] && Less(a[1..], b[1..])))
  }

  lemma {:induction false} LessIsTotal(a: Key, b: Key)
    ensures a != b <==> Less(a, b) || Less(b, a)
    ensures !(Less(a, b) && Less(b, a))
  {
    if a != [] && b != [] {
      LessIsTotal(a[1..], b[1..]);
      assert a == [a[0]] + a[1..] && b == [b[0]] + b[1..];
    }
  }

  lemma {:induction false} LessIsTransitive(a: Key, b: Key, c: Key)
    requires !Less(b, a) && !Less(c, b)
    ensures !Less(c, a)
    ensures Less(a, b) || Less(b, c) ==> Less(a, c)
  {
    if a != [] && b != [] && c != [] && a[0] == b[0] == c[0] {
      LessIsTransitive(a[1..], b[1..], c[1..]);
    }
  }

  /** Keys that begin with tuples of one length compare by those first. */
  lemma {:induction false} LessByParts(a: Key, b: Key, x: Key, y: Key)
    requires |a| == |b|
    ensures Less(a + x, b + y) <==> Less(a, b) || (a == b && Less(x, y))
  {
    if a == [] {
      assert a + x == x && b + y == y;
    } else {
      assert (a + x)[1..] == a[1..] + x && (b + y)[1..] == b[1..] + y;
      assert a == [a[0]] + a[1..] && b == [b[0]] + b[1..];
      LessByParts(a[1..], b[1..], x, y);
    }
  }

  // ----- sorting --------------------------------------------------------------------------------------

  ghost predicate Sorted<T(!new)>(key: T -> Key, s: seq<T>) {
    forall i, j :: 0 <= i < j < |s| ==> !Less(key(s[j]), key(s[i]))
  }

  /** Put `x` after everything that is not greater. */
  function Insert<T>(key: T -> Key, s: seq<T>, x: T): (r: seq<T>)
    ensures |r| == |s| + 1
    ensures multiset(r) == multiset(s) + multiset{x}
    ensures r[|s|] == x || (s != [] && r[|s|] == s[|s| - 1])
  {
    var n := |s| - 1;
    if s != [] && Less(key(x), key(s[n])) then
      assert s == s[..n] + [s[n]];
      Insert(key, s[..n], x) + [s[n]]
    else s + [x]
  }

  function SortBy<T>(key: T -> Key, s: seq<T>): (r: seq<T>)
    ensures |r| == |s|
    ensures multiset(r) == multiset(s)
  {
    if s == [] then []
    else
      var n := |s| - 1;
      assert s == s[..n] + [s[n]];
      Insert(key, SortBy(key, s[..n]), s[n])
  }

  lemma {:induction false} InsertSorts<T(!new)>(key: T -> Key, s: seq<T>, x: T)
    requires Sorted(key, s)
    ensures Sorted(key, Insert(key, s, x))
  {
    var n := |s| - 1;
    if s != [] && Less(key(x), key(s[n])) {
      InsertSorts(key, s[..n], x);
      var front := Insert(key, s[..n], x);
      forall i | 0 <= i < |front|
        ensures !Less(key(s[n]), key(front[i]))
      {
        LessIsTotal(key(x), key(s[n]));
        assert front[i] in multiset(front);
        if front[i] != x {
          assert front[i] in s[..n];
        }
      }
    } else if s != [] {
      forall i | 0 <= i < |s|
        ensures !Less(key(x), key(s[i]))
      {
        if i < n {
          LessIsTransitive(key(s[i]), key(s[n]), key(x));
        }
      }
    }
  }

  lemma {:induction false} SortBySorts<T(!new)>(key: T -> Key, s: seq<T>)
    ensures Sorted(key, SortBy(key, s))
  {
    if s != [] {
      var n := |s| - 1;
      var front := SortBy(key, s[..n]);
      assert SortBy(key, s) == Insert(key, front, s[n]);
      hide SortBy;
      hide Insert;
      hide Less;
      SortBySorts(key, s[..n]);
      InsertSorts(key, front, s[n]);
    }
  }

  // ----- what the order read decides ---------------------------------------------------------------------

  /** The elements with one key, in order. */
  function WithKey<T>(key: T -> Key, s: seq<T>, k: Key): seq<T> {
    if s == [] then []
    else
      var n := |s| - 1;
      WithKey(key, s[..n], k) + if key(s[n]) == k then [s[n]] else []
  }

  lemma WithKeyPush<T>(key: T -> Key, s: seq<T>, x: T, k: Key)
    ensures WithKey(key, s + [x], k) == WithKey(key, s, k) + if key(x) == k then [x] else []
  {
    assert (s + [x])[..|s|] == s;
  }

  lemma {:induction false} InsertIsStable<T(!new)>(key: T -> Key, s: seq<T>, x: T, k: Key)
    requires Sorted(key, s)
    ensures WithKey(key, Insert(key, s, x), k) == WithKey(key, s, k) + if key(x) == k then [x] else []
  {
    var n := |s| - 1;
    if s != [] && Less(key(x), key(s[n])) {
      InsertIsStable(key, s[..n], x, k);
      WithKeyPush(key, Insert(key, s[..n], x), s[n], k);
      LessIsTotal(key(x), key(s[n]));
    } else {
      WithKeyPush(key, s, x, k);
    }
  }

  /** Equal keys stay in the order they were read. */
  lemma {:induction false} SortByIsStable<T(!new)>(key: T -> Key, s: seq<T>, k: Key)
    ensures WithKey(key, SortBy(key, s), k) == WithKey(key, s, k)
  {
    if s != [] {
      var n := |s| - 1;
      SortByIsStable(key, s[..n], k);
      SortBySorts(key, s[..n]);
      InsertIsStable(key, SortBy(key, s[..n]), s[n], k);
    }
  }

  lemma {:induction false} HasKey<T(!new)>(key: T -> Key, s: seq<T>, k: Key)
    ensures WithKey(key, s, k) != [] <==> exists i :: 0 <= i < |s| && key(s[i]) == k
  {
    if s != [] {
      var n := |s| - 1;
      HasKey(key, s[..n], k);
      if i :| 0 <= i < |s| && key(s[i]) == k {
        assert i < n ==> key(s[..n][i]) == k;
      }
    }
  }

  ghost predicate SameByKey<T(!new)>(key: T -> Key, s: seq<T>, t: seq<T>) {
    forall k :: WithKey(key, s, k) == WithKey(key, t, k)
  }

  lemma LastKeysAgree<T(!new)>(key: T -> Key, s: seq<T>, t: seq<T>)
    requires Sorted(key, s) && s != [] && t != [] && SameByKey(key, s, t)
    ensures !Less(key(s[|s| - 1]), key(t[|t| - 1]))
  {
    var k := key(t[|t| - 1]);
    HasKey(key, t, k);
    HasKey(key, s, k);
    var i :| 0 <= i < |s| && key(s[i]) == k;
    LessIsTotal(k, k);
  }

  lemma WithOtherKey<T>(key: T -> Key, s: seq<T>, k: Key)
    requires s != [] && key(s[|s| - 1]) != k
    ensures WithKey(key, s[..|s| - 1], k) == WithKey(key, s, k)
  {
  }

  lemma SameEnds<T>(s: seq<T>, x: T, t: seq<T>, y: T)
    requires s + [x] == t + [y]
    ensures s == t && x == y
  {
    assert (s + [x])[..|s|] == s && (t + [y])[..|t|] == t;
    assert (s + [x])[|s|] == x && (t + [y])[|t|] == y;
  }

  lemma BothEmpty<T(!new)>(key: T -> Key, s: seq<T>, t: seq<T>)
    requires s == [] && SameByKey(key, s, t)
    ensures t == []
  {
    if t != [] {
      assert WithKey(key, s, key(t[0])) == [];
      HasKey(key, t, key(t[0]));
    }
  }

  lemma {:induction false} SortedIsDetermined<T(!new)>(key: T -> Key, s: seq<T>, t: seq<T>)
    requires Sorted(key, s) && Sorted(key, t) && SameByKey(key, s, t)
    ensures s == t
  {
    if s == [] {
      BothEmpty(key, s, t);
    } else if t == [] {
      BothEmpty(key, t, s);
    } else {
      var m, n := |s| - 1, |t| - 1;
      LastKeysAgree(key, s, t);
      LastKeysAgree(key, t, s);
      LessIsTotal(key(s[m]), key(t[n]));
      var k := key(s[m]);
      assert WithKey(key, s, k) == WithKey(key, t, k);
      SameEnds(WithKey(key, s[..m], k), s[m], WithKey(key, t[..n], k), t[n]);
      forall k'
        ensures WithKey(key, s[..m], k') == WithKey(key, t[..n], k')
      {
        assert WithKey(key, s, k') == WithKey(key, t, k');
        if k' == k {
          SameEnds(WithKey(key, s[..m], k), s[m], WithKey(key, t[..n], k), t[n]);
        } else {
          WithOtherKey(key, s, k');
          WithOtherKey(key, t, k');
        }
      }
      SortedIsDetermined(key, s[..m], t[..n]);
      assert s == s[..m] + [s[m]] && t == t[..n] + [t[n]];
    }
  }

  /** Two lists sort alike exactly when, key by key, they hold the same elements in the same order. */
  lemma SortAlikeIff<T(!new)>(key: T -> Key, s: seq<T>, t: seq<T>)
    ensures SortBy(key, s) == SortBy(key, t) <==> SameByKey(key, s, t)
  {
    SortBySorts(key, s);
    SortBySorts(key, t);
    forall k
      ensures WithKey(key, SortBy(key, s), k) == WithKey(key, s, k)
      ensures WithKey(key, SortBy(key, t), k) == WithKey(key, t, k)
    {
      SortByIsStable(key, s, k);
      SortByIsStable(key, t, k);
    }
    if SortBy(key, s) == SortBy(key, t) {
      forall k
        ensures WithKey(key, s, k) == WithKey(key, t, k)
      {
        assert WithKey(key, SortBy(key, s), k) == WithKey(key, SortBy(key, t), k);
      }
    }
    if SameByKey(key, s, t) {
      forall k
        ensures WithKey(key, SortBy(key, s), k) == WithKey(key, SortBy(key, t), k)
      {
        assert WithKey(key, s, k) == WithKey(key, t, k);
      }
      SortedIsDetermined(key, SortBy(key, s), SortBy(key, t));
    }
  }

  // ----- the same elements in another order ---------------------------------------------------------------

  lemma SameBagSameElements<T>(s: seq<T>, t: seq<T>)
    requires multiset(s) == multiset(t)
    ensures forall x :: x in s <==> x in t
  {
    forall x
      ensures x in s <==> x in t
    {
      assert x in s <==> x in multiset(s);
      assert x in t <==> x in multiset(t);
    }
  }

  lemma WithoutOne<T>(s: seq<T>, t: seq<T>, k: nat)
    requires s != [] && k < |t| && t[k] == s[|s| - 1] && multiset(s) == multiset(t)
    ensures multiset(s[..|s| - 1]) == multiset(t[..k] + t[k + 1..])
  {
    var n := |s| - 1;
    assert s == s[..n] + [s[n]] && t == t[..k] + [t[k]] + t[k + 1..];
    var a, b, one := multiset(s[..n]), multiset(t[..k] + t[k + 1..]), multiset{s[n]};
    assert a + one == multiset(s) == multiset(t) == b + one;
    forall x
      ensures a[x] == b[x]
    {
      assert (a + one)[x] == (b + one)[x];
    }
  }

  ghost function Mapped<T, U>(f: T -> U, s: seq<T>): (t: seq<U>)
    ensures |t| == |s|
    ensures forall i :: 0 <= i < |s| ==> t[i] == f(s[i])
  {
    seq(|s|, i requires 0 <= i < |s| => f(s[i]))
  }

  lemma MappedParts<T, U>(f: T -> U, a: seq<T>, x: T, b: seq<T>)
    ensures multiset(Mapped(f, a + [x] + b)) == multiset(Mapped(f, a + b)) + multiset{f(x)}
  {
    assert Mapped(f, a + [x] + b) == Mapped(f, a) + [f(x)] + Mapped(f, b);
    assert Mapped(f, a + b) == Mapped(f, a) + Mapped(f, b);
  }

  /** The images come in another order too. */
  lemma {:induction false} MappedBag<T, U>(f: T -> U, s: seq<T>, t: seq<T>)
    requires multiset(s) == multiset(t)
    ensures multiset(Mapped(f, s)) == multiset(Mapped(f, t))
    decreases |s|
  {
    if s == [] {
      assert |multiset(t)| == |t|;
    } else {
      var n := |s| - 1;
      SameBagSameElements(s, t);
      assert s[n] in s;
      var k :| 0 <= k < |t| && t[k] == s[n];
      WithoutOne(s, t, k);
      MappedBag(f, s[..n], t[..k] + t[k + 1..]);
      MappedParts(f, s[..n], s[n], []);
      MappedParts(f, t[..k], s[n], t[k + 1..]);
      assert s == s[..n] + [s[n]] + [] && s[..n] + [] == s[..n];
      assert t == t[..k] + [s[n]] + t[k + 1..];
    }
  }

  // ----- when the order read does not matter --------------------------------------------------------------

  ghost predicate DistinctKeys<T(!new)>(key: T -> Key, s: seq<T>) {
    forall i, j :: 0 <= i < j < |s| ==> key(s[i]) != key(s[j])
  }

  lemma {:induction false} WithDistinctKey<T(!new)>(key: T -> Key, s: seq<T>, i: nat)
    requires DistinctKeys(key, s) && i < |s|
    ensures WithKey(key, s, key(s[i])) == [s[i]]
  {
    var n := |s| - 1;
    if i == n {
      HasKey(key, s[..n], key(s[n]));
    } else {
      WithDistinctKey(key, s[..n], i);
    }
  }

  lemma DistinctKeyAgrees<T(!new)>(key: T -> Key, s: seq<T>, t: seq<T>, i: nat)
    requires multiset(s) == multiset(t) && DistinctKeys(key, s) && DistinctKeys(key, t) && i < |s|
    ensures WithKey(key, s, key(s[i])) == WithKey(key, t, key(s[i]))
  {
    assert s[i] in multiset(t);
    var j :| 0 <= j < |t| && t[j] == s[i];
    WithDistinctKey(key, s, i);
    WithDistinctKey(key, t, j);
  }

  lemma DistinctSameByKey<T(!new)>(key: T -> Key, s: seq<T>, t: seq<T>)
    requires multiset(s) == multiset(t) && DistinctKeys(key, s) && DistinctKeys(key, t)
    ensures SameByKey(key, s, t)
  {
    hide WithKey;
    forall k
      ensures WithKey(key, s, k) == WithKey(key, t, k)
    {
      HasKey(key, s, k);
      HasKey(key, t, k);
      if i :| 0 <= i < |s| && key(s[i]) == k {
        DistinctKeyAgrees(key, s, t, i);
      }
      if j :| 0 <= j < |t| && key(t[j]) == k {
        DistinctKeyAgrees(key, t, s, j);
      }
    }
  }

  /** Read in another order, with no two keys the same. */
  lemma AnyOrderSortsAlike<T(!new)>(key: T -> Key, s: seq<T>, t: seq<T>)
    requires multiset(s) == multiset(t) && DistinctKeys(key, s) && DistinctKeys(key, t)
    ensures SortBy(key, s) == SortBy(key, t)
  {
    DistinctSameByKey(key, s, t);
    SortAlikeIff(key, s, t);
  }

  lemma {:induction false} CountedOnce<T>(s: seq<T>, x: T)
    requires forall i, j :: 0 <= i < j < |s| ==> s[i] != s[j]
    ensures multiset(s)[x] <= 1
  {
    if s != [] {
      var n := |s| - 1;
      assert s == s[..n] + [s[n]];
      CountedOnce(s[..n], x);
      if x == s[n] {
        assert x !in s[..n];
        assert x !in multiset(s[..n]);
      }
    }
  }

  lemma CountedTwice<T>(s: seq<T>, i: nat, j: nat)
    requires i < j < |s| && s[i] == s[j]
    ensures multiset(s)[s[i]] >= 2
  {
    assert s == s[..j] + s[j..];
    assert s[i] in s[..j] && s[i] in s[j..] by {
      assert s[..j][i] == s[i] && s[j..][0] == s[j];
    }
    assert multiset(s) == multiset(s[..j]) + multiset(s[j..]);
  }

  lemma DistinctInAnyOrder<T(!new)>(key: T -> Key, s: seq<T>, t: seq<T>)
    requires multiset(s) == multiset(t) && DistinctKeys(key, s)
    ensures DistinctKeys(key, t)
  {
    assert forall i, j :: 0 <= i < j < |s| ==> key(s[i]) != key(s[j]);
    forall i, j | 0 <= i < j < |t|
      ensures key(t[i]) != key(t[j])
    {
      assert t[i] in multiset(s) && t[j] in multiset(s);
      if t[i] == t[j] {
        CountedOnce(s, t[i]);
        CountedTwice(t, i, j);
      } else {
        var a :| 0 <= a < |s| && s[a] == t[i];
        var b :| 0 <= b < |s| && s[b] == t[j];
      }
    }
  }

  lemma {:induction false} FirstWithKey<T(!new)>(key: T -> Key, s: seq<T>, i: nat)
    requires i < |s| && forall j :: 0 <= j < i ==> key(s[j]) != key(s[i])
    ensures WithKey(key, s, key(s[i])) != [] && WithKey(key, s, key(s[i]))[0] == s[i]
  {
    var n := |s| - 1;
    if i == n {
      HasKey(key, s[..n], key(s[n]));
    } else {
      FirstWithKey(key, s[..n], i);
    }
  }

  lemma {:induction false} FirstOfKey<T(!new)>(key: T -> Key, s: seq<T>, i: nat) returns (first: nat)
    requires i < |s|
    ensures first <= i && key(s[first]) == key(s[i])
    ensures forall j :: 0 <= j < first ==> key(s[j]) != key(s[i])
  {
    if h :| 0 <= h < i && key(s[h]) == key(s[i]) {
      first := FirstOfKey(key, s, h);
    } else {
      first := i;
    }
  }

  /** The first element read comes out ahead of every other with its key. */
  lemma FirstStaysFirst<T(!new)>(key: T -> Key, s: seq<T>, t: seq<T>, x: nat, y: nat)
    requires s != [] && t == SortBy(key, s) && x < |t| && y < |t|
    requires forall a, b :: 0 <= a < b < |t| ==> t[a] != t[b]
    requires t[x] == s[0] != t[y] && key(t[y]) == key(s[0])
    ensures x < y
  {
    hide SortBy;
    var k := key(s[0]);
    SortByIsStable(key, s, k);
    FirstWithKey(key, s, 0);
    var first := FirstOfKey(key, t, y);
    FirstWithKey(key, t, first);
    assert WithKey(key, t, k)[0] == t[first] == s[0];
    hide WithKey;
  }

  /** Two elements with one key come out in the order they were read: swap them, and the result differs. */
  lemma TiedElementsShowTheOrder<T(!new)>(key: T -> Key, s: seq<T>, i: nat, j: nat) returns (t: seq<T>)
    requires i < j < |s| && key(s[i]) == key(s[j]) && forall a, b :: 0 <= a < b < |s| ==> s[a] != s[b]
    ensures multiset(t) == multiset(s) && SortBy(key, t) != SortBy(key, s)
  {
    var first := FirstOfKey(key, s, i);
    t := s[first := s[j]][j := s[first]];
    FirstWithKey(key, s, first);
    FirstWithKey(key, t, first);
    assert WithKey(key, s, key(s[i]))[0] != WithKey(key, t, key(s[i]))[0];
    assert !SameByKey(key, s, t);
    hide WithKey;
    hide SameByKey;
    SortAlikeIff(key, s, t);
  }
}
