/** Generic sequence operations that the application uses through JavaScript's
    array methods: `filter`, `findIndex`, `find`, `some`, and the
    find-then-overwrite-or-push upsert of the local-storage gateway. */
module Collections {

  datatype Option<T> = None | Some(value: T)

  /** The predicate "has key k" over elements, for `findIndex(e => key(e) === k)`. */
  function KeyIs<T, K(==)>(key: T -> K, k: K): T -> bool
  {
    (y: T) => key(y) == k
  }

  /** The predicate "does not have key k", for `filter(e => key(e) !== k)`. */
  function KeyIsNot<T, K(==)>(key: T -> K, k: K): T -> bool
  {
    (y: T) => key(y) != k
  }

  /** `s.filter(p)`: the elements that satisfy p, in their original order. */
  function Filter<T>(s: seq<T>, p: T -> bool): (r: seq<T>)
    ensures |r| <= |s|
    ensures forall i :: 0 <= i < |r| ==> r[i] in s && p(r[i])
    ensures forall i :: 0 <= i < |s| && p(s[i]) ==> s[i] in r
  {
    if s == [] then []
    else if p(s[0]) then [s[0]] + Filter(s[1..], p)
    else Filter(s[1..], p)
  }

  /** `s.findIndex(p)`, with -1 written as None. */
  function FirstIndex<T>(s: seq<T>, p: T -> bool): (r: Option<nat>)
    ensures r.Some? ==> r.value < |s| && p(s[r.value])
    ensures r.Some? ==> forall j :: 0 <= j < r.value ==> !p(s[j])
    ensures r.None? <==> forall j :: 0 <= j < |s| ==> !p(s[j])
  {
    if s == [] then None
    else if p(s[0]) then Some(0)
    else match FirstIndex(s[1..], p)
      case None => None
      case Some(i) => Some(i + 1)
  }

  /** `s.find(p)`, with undefined written as None. */
  function Find<T>(s: seq<T>, p: T -> bool): (r: Option<T>)
    ensures r.Some? ==> r.value in s && p(r.value)
    ensures r.None? <==> forall i :: 0 <= i < |s| ==> !p(s[i])
    ensures r.Some? ==> exists i :: 0 <= i < |s| && s[i] == r.value && forall j :: 0 <= j < i ==> !p(s[j])
  {
    match FirstIndex(s, p)
    case None => None
    case Some(i) => Some(s[i])
  }

  /** `s.some(p)`. */
  predicate Any<T>(s: seq<T>, p: T -> bool)
  {
    exists i :: 0 <= i < |s| && p(s[i])
  }

  /** No two elements share a key. */
  predicate UniqueKeys<T, K(==)>(s: seq<T>, key: T -> K)
  {
    forall i, j :: 0 <= i < j < |s| ==> key(s[i]) != key(s[j])
  }

  /** The elements whose key differs from k, in order. */
  function WithoutKey<T, K(==)>(s: seq<T>, key: T -> K, k: K): (r: seq<T>)
    ensures forall i :: 0 <= i < |r| ==> r[i] in s && key(r[i]) != k
    ensures forall i :: 0 <= i < |s| && key(s[i]) != k ==> s[i] in r
  {
    Filter(s, KeyIsNot(key, k))
  }

  /** Find the first element with x's key and overwrite that slot with x, or
      push x at the end when there is none. */
  function Upsert<T, K(==)>(s: seq<T>, x: T, key: T -> K): (r: seq<T>)
    ensures (exists j :: 0 <= j < |s| && key(s[j]) == key(x)) <==> |r| == |s|
    ensures (forall j :: 0 <= j < |s| ==> key(s[j]) != key(x)) ==> r == s + [x]
    ensures (exists j :: 0 <= j < |s| && key(s[j]) == key(x)) ==>
      exists i :: 0 <= i < |s| && key(s[i]) == key(x)
        && (forall j :: 0 <= j < i ==> key(s[j]) != key(x))
        && r == s[i := x]
  {
    match FirstIndex(s, KeyIs(key, key(x)))
    case Some(i) => s[i := x]
    case None => s + [x]
  }

  lemma {:induction false} FilterConcat<T>(a: seq<T>, b: seq<T>, p: T -> bool)
    ensures Filter(a + b, p) == Filter(a, p) + Filter(b, p)
  {
    if a == [] {
      assert a + b == b;
    } else {
      assert (a + b)[1..] == a[1..] + b;
      FilterConcat(a[1..], b, p);
    }
  }

  /** Filtering by p and by its negation splits s into two parts that together
      hold every element exactly once. */
  lemma {:induction false} FilterPartition<T>(s: seq<T>, p: T -> bool, q: T -> bool)
    requires forall x :: q(x) == !p(x)
    ensures multiset(Filter(s, p)) + multiset(Filter(s, q)) == multiset(s)
    ensures |Filter(s, p)| + |Filter(s, q)| == |s|
  {
    if s != [] {
      FilterPartition(s[1..], p, q);
      assert s == [s[0]] + s[1..];
    }
  }

  lemma {:induction false} FilterAll<T>(s: seq<T>, p: T -> bool)
    requires forall x :: x in s ==> p(x)
    ensures Filter(s, p) == s
  {
    if s != [] {
      FilterAll(s[1..], p);
    }
  }

  /** Filtering twice is filtering by the conjunction. */
  lemma {:induction false} FilterFilter<T>(s: seq<T>, p: T -> bool, q: T -> bool, pq: T -> bool)
    requires forall x :: pq(x) == (p(x) && q(x))
    ensures Filter(Filter(s, p), q) == Filter(s, pq)
  {
    if s != [] {
      FilterFilter(s[1..], p, q, pq);
    }
  }

  /** A filter keeps keys unique. */
  lemma {:induction false} FilterKeepsUniqueKeys<T, K>(s: seq<T>, p: T -> bool, key: T -> K)
    requires UniqueKeys(s, key)
    ensures UniqueKeys(Filter(s, p), key)
  {
    if s != [] {
      assert UniqueKeys(s[1..], key);
      FilterKeepsUniqueKeys(s[1..], p, key);
      var r := Filter(s[1..], p);
      forall k | 0 <= k < |r| ensures key(r[k]) != key(s[0]) {
        var j :| 0 <= j < |s[1..]| && s[1..][j] == r[k];
        assert s[j + 1] == r[k];
      }
    }
  }

  /** Upserting never introduces a second element with the same key. */
  lemma UpsertKeepsUniqueKeys<T, K>(s: seq<T>, x: T, key: T -> K)
    requires UniqueKeys(s, key)
    ensures UniqueKeys(Upsert(s, x, key), key)
  {
    var r := Upsert(s, x, key);
    if exists j :: 0 <= j < |s| && key(s[j]) == key(x) {
      var i :| 0 <= i < |s| && key(s[i]) == key(x) && r == s[i := x];
      forall a, b | 0 <= a < b < |r| ensures key(r[a]) != key(r[b]) {
        if a == i {
          assert key(s[b]) != key(s[i]);
        } else if b == i {
          assert key(s[a]) != key(s[i]);
        } else {
          assert r[a] == s[a] && r[b] == s[b];
        }
      }
    } else {
      assert r == s + [x];
      forall a, b | 0 <= a < b < |r| ensures key(r[a]) != key(r[b]) {
        if b == |s| {
          assert key(s[a]) != key(x);
        } else {
          assert r[a] == s[a] && r[b] == s[b];
        }
      }
    }
  }

  /** Saving the same element twice is the same as saving it once. */
  lemma UpsertIdempotent<T, K>(s: seq<T>, x: T, key: T -> K)
    ensures Upsert(Upsert(s, x, key), x, key) == Upsert(s, x, key)
  {
    var p := KeyIs(key, key(x));
    var r := Upsert(s, x, key);
    match FirstIndex(s, p)
    case Some(i) =>
      assert r == s[i := x];
      FirstIndexIs(r, p, i);
      assert r[i := x] == r;
    case None =>
      assert r == s + [x];
      FirstIndexIs(r, p, |s|);
      assert r[|s| := x] == r;
  }

  /** The first index satisfying p is the index i that satisfies p with none
      before it. */
  lemma {:induction false} FirstIndexIs<T>(s: seq<T>, p: T -> bool, i: nat)
    requires i < |s| && p(s[i]) && forall j :: 0 <= j < i ==> !p(s[j])
    ensures FirstIndex(s, p) == Some(i)
  {
    if i > 0 {
      FirstIndexIs(s[1..], p, i - 1);
    }
  }

  /** No key of a occurs in b. */
  predicate KeysDisjoint<T, K(==)>(a: seq<T>, b: seq<T>, key: T -> K)
  {
    forall i, j :: 0 <= i < |a| && 0 <= j < |b| ==> key(a[i]) != key(b[j])
  }

  /** Two parts with unique keys and no shared key concatenate to a sequence
      with unique keys. */
  lemma UniqueKeysConcat<T, K>(a: seq<T>, b: seq<T>, key: T -> K)
    requires UniqueKeys(a, key) && UniqueKeys(b, key) && KeysDisjoint(a, b, key)
    ensures UniqueKeys(a + b, key)
  {
    var r := a + b;
    forall i, j | 0 <= i < j < |r| ensures key(r[i]) != key(r[j]) {
      if j < |a| {
        assert r[i] == a[i] && r[j] == a[j];
      } else if i < |a| {
        assert r[i] == a[i] && r[j] == b[j - |a|];
      } else {
        assert r[i] == b[i - |a|] && r[j] == b[j - |a|];
      }
    }
  }

  lemma UniqueKeysConcat4<T, K>(a: seq<T>, b: seq<T>, c: seq<T>, d: seq<T>, key: T -> K)
    requires UniqueKeys(a, key) && UniqueKeys(b, key) && UniqueKeys(c, key) && UniqueKeys(d, key)
    requires KeysDisjoint(c, d, key) && KeysDisjoint(b, c + d, key) && KeysDisjoint(a, b + c + d, key)
    ensures UniqueKeys(a + b + c + d, key)
  {
    UniqueKeysConcat(c, d, key);
    assert b + c + d == b + (c + d);
    UniqueKeysConcat(b, c + d, key);
    assert a + b + c + d == a + (b + c + d);
    UniqueKeysConcat(a, b + c + d, key);
  }

  lemma KeysDisjointConcat<T, K>(a: seq<T>, b: seq<T>, c: seq<T>, key: T -> K)
    requires KeysDisjoint(a, b, key) && KeysDisjoint(a, c, key)
    ensures KeysDisjoint(a, b + c, key)
  {
    forall i, j | 0 <= i < |a| && 0 <= j < |b + c| ensures key(a[i]) != key((b + c)[j]) {
      if j < |b| {
        assert (b + c)[j] == b[j];
      } else {
        assert (b + c)[j] == c[j - |b|];
      }
    }
  }

  /** Filters by predicates that agree on every element are equal. */
  lemma {:induction false} FilterCongruent<T>(s: seq<T>, p: T -> bool, q: T -> bool)
    requires forall i :: 0 <= i < |s| ==> p(s[i]) == q(s[i])
    ensures Filter(s, p) == Filter(s, q)
  {
    if s != [] {
      assert forall i :: 0 <= i < |s[1..]| ==> s[1..][i] == s[i + 1];
      FilterCongruent(s[1..], p, q);
    }
  }

  /** With unique keys, the elements with key k are the single one at i. */
  lemma {:induction false} FilterSingleKey<T, K>(s: seq<T>, key: T -> K, i: nat)
    requires UniqueKeys(s, key) && i < |s|
    ensures Filter(s, KeyIs(key, key(s[i]))) == [s[i]]
  {
    var p := KeyIs(key, key(s[i]));
    if i == 0 {
      assert p(s[0]);
      NoKeyFilter(s[1..], key, key(s[0]));
    } else {
      assert !p(s[0]) by {
        assert key(s[0]) != key(s[i]);
      }
      assert UniqueKeys(s[1..], key);
      assert s[1..][i - 1] == s[i];
      FilterSingleKey(s[1..], key, i - 1);
    }
  }

  /** No element has key k, so filtering by k leaves nothing. */
  lemma {:induction false} NoKeyFilter<T, K>(s: seq<T>, key: T -> K, k: K)
    requires forall j :: 0 <= j < |s| ==> key(s[j]) != k
    ensures Filter(s, KeyIs(key, k)) == []
  {
    if s != [] {
      assert forall j :: 0 <= j < |s[1..]| ==> s[1..][j] == s[j + 1];
      NoKeyFilter(s[1..], key, k);
    }
  }
  /** Overwriting one slot trades its old element for the new one. */
  lemma ReplaceMultiset<T>(s: seq<T>, i: nat, x: T)
    requires i < |s|
    ensures multiset(s[i := x]) + multiset{s[i]} == multiset(s) + multiset{x}
  {
    assert s == s[..i] + [s[i]] + s[i + 1..];
    assert s[i := x] == s[..i] + [x] + s[i + 1..];
  }

  /** With unique keys, dropping x's key and appending x holds the same
      elements as the upsert of x; only the position of a replaced element
      differs. */
  lemma UpsertAsFilterAppend<T, K>(s: seq<T>, x: T, key: T -> K)
    requires UniqueKeys(s, key)
    ensures multiset(WithoutKey(s, key, key(x)) + [x]) == multiset(Upsert(s, x, key))
  {
    var w := WithoutKey(s, key, key(x));
    FilterPartition(s, KeyIsNot(key, key(x)), KeyIs(key, key(x)));
    assert multiset(w + [x]) == multiset(w) + multiset{x};
    match FirstIndex(s, KeyIs(key, key(x)))
    case None =>
      NoKeyFilter(s, key, key(x));
    case Some(i) =>
      FilterSingleKey(s, key, i);
      assert KeyIs(key, key(s[i])) == KeyIs(key, key(x));
      ReplaceMultiset(s, i, x);
  }
}
