/**
 * The stable sort that every ranking step uses.  The source sorts with
 * `Array.prototype.sort` and a numeric comparator (`b.points - a.points`,
 * `b.wins - a.wins || a.losses - b.losses`, ...), which is stable.  Each such
 * comparator is a lexicographic comparison of at most two integers, so it is
 * modelled by a key of two integers where a HIGHER key sorts FIRST.
 */
module Sorting {

  /** `primary` decides; `secondary` breaks ties; higher sorts earlier. */
  datatype SortKey = SortKey(primary: int, secondary: int)

  /** The comparator puts `a` strictly before `b`. */
  predicate Precedes(a: SortKey, b: SortKey) {
    a.primary > b.primary || (a.primary == b.primary && a.secondary > b.secondary)
  }

  /** No element is strictly better than one that comes before it. */
  predicate SortedBy<T>(s: seq<T>, key: T -> SortKey) {
    forall i, j :: 0 <= i < j < |s| ==> !Precedes(key(s[j]), key(s[i]))
  }

  /** The elements of `s` whose key is `k`, in their order in `s`. */
  function WithKey<T>(s: seq<T>, key: T -> SortKey, k: SortKey): (r: seq<T>)
    ensures |r| <= |s|
  {
    if s == [] then [] else (if key(s[0]) == k then [s[0]] else []) + WithKey(s[1..], key, k)
  }

  /** Stability: for every key, the elements carrying it keep their relative order. */
  ghost predicate StableFor<T>(r: seq<T>, s: seq<T>, key: T -> SortKey) {
    forall k :: WithKey(r, key, k) == WithKey(s, key, k)
  }

  /** Insert `x` before the first element that does not strictly precede it. */
  function Insert<T>(x: T, s: seq<T>, key: T -> SortKey): (r: seq<T>)
    ensures |r| == |s| + 1
    ensures multiset(r) == multiset(s) + multiset{x}
  {
    if s == [] || !Precedes(key(s[0]), key(x)) then
      [x] + s
    else
      assert s == [s[0]] + s[1..];
      [s[0]] + Insert(x, s[1..], key)
  }

  lemma {:induction false} InsertSorted<T>(x: T, s: seq<T>, key: T -> SortKey)
    requires SortedBy(s, key)
    ensures SortedBy(Insert(x, s, key), key)
  {
    if s == [] || !Precedes(key(s[0]), key(x)) {
      InsertFront(x, s, key, [x] + s);
    } else {
      var u := s[1..];
      var t := Insert(x, u, key);
      SortedTail(s, key, u);
      InsertSorted(x, u, key);
      InsertBehind(x, s, key, u, t, [s[0]] + t);
    }
  }

  lemma {:induction false} SortedTail<T>(s: seq<T>, key: T -> SortKey, u: seq<T>)
    requires SortedBy(s, key) && s != [] && u == s[1..]
    ensures SortedBy(u, key)
  {
    assert forall i :: 0 <= i < |u| ==> u[i] == s[i + 1];
  }

  /** `x` placed in front of a sorted list it does not fall behind keeps it sorted. */
  lemma {:induction false} InsertFront<T>(x: T, s: seq<T>, key: T -> SortKey, r: seq<T>)
    requires SortedBy(s, key) && (s == [] || !Precedes(key(s[0]), key(x))) && r == [x] + s
    ensures SortedBy(r, key)
  {
    forall i, j | 0 <= i < j < |r| ensures !Precedes(key(r[j]), key(r[i])) {
      if i == 0 {
        assert r[j] == s[j - 1];
        if j > 1 { assert !Precedes(key(s[j - 1]), key(s[0])); }
      } else {
        assert r[i] == s[i - 1] && r[j] == s[j - 1];
      }
    }
  }

  /** The head that strictly precedes `x` stays in front of the sorted insertion into the tail. */
  lemma {:induction false} InsertBehind<T>(x: T, s: seq<T>, key: T -> SortKey, u: seq<T>, t: seq<T>, r: seq<T>)
    requires SortedBy(s, key) && s != [] && Precedes(key(s[0]), key(x)) && u == s[1..]
    requires SortedBy(t, key) && multiset(t) == multiset(u) + multiset{x} && r == [s[0]] + t
    ensures SortedBy(r, key)
  {
    forall i, j | 0 <= i < j < |r| ensures !Precedes(key(r[j]), key(r[i])) {
      if i == 0 {
        assert r[j] == t[j - 1];
        assert t[j - 1] in multiset(t);
        if t[j - 1] != x {
          assert t[j - 1] in u;
          var m :| 0 <= m < |u| && u[m] == t[j - 1];
          assert s[m + 1] == t[j - 1];
        }
      } else {
        assert r[i] == t[i - 1] && r[j] == t[j - 1];
      }
    }
  }

  /** The stable sort of `s`: best key first, equal keys in input order. */
  function SortBy<T>(s: seq<T>, key: T -> SortKey): (r: seq<T>)
    ensures |r| == |s|
    ensures multiset(r) == multiset(s)
    ensures SortedBy(r, key)
  {
    if s == [] then [] else
      assert s == [s[0]] + s[1..];
      var t := SortBy(s[1..], key);
      InsertSorted(s[0], t, key);
      Insert(s[0], t, key)
  }

  lemma {:induction false} WithKeyInsert<T>(x: T, s: seq<T>, key: T -> SortKey, k: SortKey)
    ensures WithKey(Insert(x, s, key), key, k) == (if key(x) == k then [x] else []) + WithKey(s, key, k)
  {
    if s == [] || !Precedes(key(s[0]), key(x)) {
      assert ([x] + s)[1..] == s;
    } else {
      WithKeyInsert(x, s[1..], key, k);
      var t := Insert(x, s[1..], key);
      assert ([s[0]] + t)[1..] == t;
    }
  }

  /** SortBy is stable: each group of equal keys comes out in input order. */
  lemma {:induction false} SortByStable<T>(s: seq<T>, key: T -> SortKey, k: SortKey)
    ensures WithKey(SortBy(s, key), key, k) == WithKey(s, key, k)
  {
    if s != [] {
      SortByStable(s[1..], key, k);
      WithKeyInsert(s[0], SortBy(s[1..], key), key, k);
    }
  }

  lemma {:induction false} SortByIsStable<T>(s: seq<T>, key: T -> SortKey)
    ensures StableFor(SortBy(s, key), s, key)
  {
    forall k ensures WithKey(SortBy(s, key), key, k) == WithKey(s, key, k) {
      SortByStable(s, key, k);
    }
  }

  lemma {:induction false} WithKeyMember<T>(s: seq<T>, key: T -> SortKey, k: SortKey)
    requires WithKey(s, key, k) != []
    ensures exists i :: 0 <= i < |s| && key(s[i]) == k
  {
    if key(s[0]) != k {
      WithKeyMember(s[1..], key, k);
      var i :| 0 <= i < |s[1..]| && key(s[1..][i]) == k;
      assert s[i + 1] == s[1..][i];
    }
  }

  lemma {:induction false} StableSameEmptiness<T>(r1: seq<T>, r2: seq<T>, key: T -> SortKey)
    requires StableFor(r1, r2, key)
    ensures r1 == [] <==> r2 == []
  {
    if r1 != [] { assert WithKey(r1, key, key(r1[0])) != []; }
    if r2 != [] { assert WithKey(r2, key, key(r2[0])) != []; }
  }

  // In a sorted sequence no key occurring anywhere is strictly better than the head's.
  lemma {:induction false} HeadIsBest<T>(s: seq<T>, key: T -> SortKey, k: SortKey)
    requires SortedBy(s, key) && WithKey(s, key, k) != []
    ensures !Precedes(k, key(s[0]))
  {
    WithKeyMember(s, key, k);
  }

  /**
   * A sorted, stable arrangement of `s` is unique: any two agree, so SortBy
   * is THE stable sort, whatever algorithm the host's `Array.prototype.sort` uses.
   */
  lemma {:induction false} StableSortUnique<T>(r1: seq<T>, r2: seq<T>, key: T -> SortKey)
    requires SortedBy(r1, key) && SortedBy(r2, key)
    requires StableFor(r1, r2, key)
    ensures r1 == r2
    decreases |r1|
  {
    StableSameEmptiness(r1, r2, key);
    if r1 != [] {
      var k1, k2 := key(r1[0]), key(r2[0]);
      assert WithKey(r1, key, k1) == WithKey(r2, key, k1);
      assert WithKey(r1, key, k2) == WithKey(r2, key, k2);
      HeadIsBest(r2, key, k1);
      HeadIsBest(r1, key, k2);
      assert k1 == k2;
      var w1, w2 := WithKey(r1[1..], key, k1), WithKey(r2[1..], key, k1);
      assert [r1[0]] + w1 == [r2[0]] + w2;
      assert r1[0] == ([r1[0]] + w1)[0];
      assert r1[0] == r2[0];
      forall k ensures WithKey(r1[1..], key, k) == WithKey(r2[1..], key, k) {
        assert WithKey(r1, key, k) == WithKey(r2, key, k);
        if k == k1 {
          assert ([r1[0]] + w1)[1..] == w1 && ([r2[0]] + w2)[1..] == w2;
        } else {
          assert WithKey(r1, key, k) == [] + WithKey(r1[1..], key, k);
          assert WithKey(r2, key, k) == [] + WithKey(r2[1..], key, k);
          assert [] + WithKey(r1[1..], key, k) == WithKey(r1[1..], key, k);
          assert [] + WithKey(r2[1..], key, k) == WithKey(r2[1..], key, k);
        }
      }
      assert SortedBy(r1[1..], key) && SortedBy(r2[1..], key) by {
        assert forall i :: 0 <= i < |r1| - 1 ==> r1[1..][i] == r1[i + 1];
        assert forall i :: 0 <= i < |r2| - 1 ==> r2[1..][i] == r2[i + 1];
      }
      StableSortUnique(r1[1..], r2[1..], key);
      assert r1 == [r1[0]] + r1[1..] && r2 == [r2[0]] + r2[1..];
    }
  }

  /** When every element carries the key `k`, filtering by `k` keeps everything. */
  lemma {:induction false} WithKeyAll<T>(s: seq<T>, key: T -> SortKey, k: SortKey)
    requires forall i :: 0 <= i < |s| ==> key(s[i]) == k
    ensures WithKey(s, key, k) == s
    decreases |s|
  {
    if s != [] {
      WithKeyAll(s[1..], key, k);
      assert s == [s[0]] + s[1..];
    }
  }

  /** Sorting elements that all compare equal leaves them where they are. */
  lemma {:induction false} SortByConstant<T>(s: seq<T>, key: T -> SortKey, k: SortKey)
    requires forall i :: 0 <= i < |s| ==> key(s[i]) == k
    ensures SortBy(s, key) == s
  {
    var r := SortBy(s, key);
    forall i | 0 <= i < |r| ensures key(r[i]) == k {
      assert r[i] in multiset(s);
    }
    SortByStable(s, key, k);
    WithKeyAll(s, key, k);
    WithKeyAll(r, key, k);
  }

  /** An index at which a member of the multiset sits. */
  lemma {:induction false} Locate<T>(b: seq<T>, x: T) returns (j: int)
    requires x in multiset(b)
    ensures 0 <= j < |b| && b[j] == x
  {
    j :| 0 <= j < |b| && b[j] == x;
  }

  lemma {:induction false} MultisetJoin<T>(a: multiset<T>, a1: multiset<T>, b: multiset<T>, b1: multiset<T>, x: T)
    requires a == a1 + multiset{x} && b == b1 + multiset{x} && a1 == b1
    ensures a == b
  {
  }

  /** Matching the head of `a` with `b[j]` leaves two permutations of each other. */
  lemma {:induction false} RemoveBoth<T>(a: seq<T>, b: seq<T>, j: int, b': seq<T>)
    requires a != [] && multiset(a) == multiset(b) && 0 <= j < |b| && b[j] == a[0] && b' == b[..j] + b[j + 1..]
    ensures multiset(a[1..]) == multiset(b')
  {
    assert a == [a[0]] + a[1..];
    MultisetRemoveAt(b, j, b');
  }

  /** Removing the element at `j` removes one copy of it from the multiset. */
  lemma {:induction false} MultisetRemoveAt<T>(s: seq<T>, j: int, t: seq<T>)
    requires 0 <= j < |s| && t == s[..j] + s[j + 1..]
    ensures multiset(t) == multiset(s) - multiset{s[j]}
  {
    assert s == s[..j] + [s[j]] + s[j + 1..];
  }
}
