/** `Array.prototype.sort` with a comparator `(a, b) => key(b) - key(a)`:
    a stable sort into non-increasing key order (ECMAScript 2019 and later
    require the sort to be stable). */
module StableSort {

  /** `s` is in non-increasing order of `key`. */
  ghost predicate SortedDesc<T>(s: seq<T>, key: T -> real)
  {
    forall i, j | 0 <= i < j < |s| :: key(s[i]) >= key(s[j])
  }

  /** The elements of `s` whose key is `v`, in their order in `s`. A sort is
      stable exactly when it leaves each of these runs as it found them. */
  function WithKey<T>(s: seq<T>, key: T -> real, v: real): seq<T>
  {
    if s == [] then []
    else (if key(s[0]) == v then [s[0]] else []) + WithKey(s[1..], key, v)
  }

  /** Places `x` in front of the first element whose key is not greater than
      its own, so that `x` precedes every element of `s` with an equal key. */
  function Insert<T>(x: T, s: seq<T>, key: T -> real): seq<T>
  {
    if s == [] || key(s[0]) <= key(x) then [x] + s
    else [s[0]] + Insert(x, s[1..], key)
  }

  /** The stable descending sort of `s` (insertion sort). */
  function Sort<T>(s: seq<T>, key: T -> real): (r: seq<T>)
    ensures |r| == |s| && multiset(r) == multiset(s)
  {
    if s == [] then []
    else
      var rest := Sort(s[1..], key);
      InsertPermutes(s[0], rest, key);
      assert s == [s[0]] + s[1..];
      assert |Insert(s[0], rest, key)| == |multiset(Insert(s[0], rest, key))|;
      Insert(s[0], rest, key)
  }

  /** Inserting adds `x` and nothing else. */
  lemma {:induction false} InsertPermutes<T>(x: T, s: seq<T>, key: T -> real)
    ensures multiset(Insert(x, s, key)) == multiset(s) + multiset{x}
  {
    if s != [] && key(s[0]) > key(x) {
      InsertPermutes(x, s[1..], key);
      assert s == [s[0]] + s[1..];
    }
  }

  /** Inserting into a sorted sequence keeps it sorted. */
  lemma {:induction false} InsertSorted<T>(x: T, s: seq<T>, key: T -> real)
    requires SortedDesc(s, key)
    ensures SortedDesc(Insert(x, s, key), key)
    ensures Insert(x, s, key) != [] && (Insert(x, s, key)[0] == x || (s != [] && Insert(x, s, key)[0] == s[0]))
  {
    if s != [] && key(s[0]) > key(x) {
      InsertSorted(x, s[1..], key);
      var t := Insert(x, s[1..], key);
      assert Insert(x, s, key) == [s[0]] + t;
      InsertPermutes(x, s[1..], key);
      forall j | 0 <= j < |t| ensures key(s[0]) >= key(t[j]) {
        assert t[j] in multiset(t);
        assert t[j] == x || t[j] in multiset(s[1..]);
      }
    }
  }

  /** Inserting `x` puts it ahead of every element with the same key. */
  lemma {:induction false} InsertWithKey<T>(x: T, s: seq<T>, key: T -> real, v: real)
    ensures WithKey(Insert(x, s, key), key, v) == (if key(x) == v then [x] else []) + WithKey(s, key, v)
  {
    var xs: seq<T> := if key(x) == v then [x] else [];
    if s == [] || key(s[0]) <= key(x) {
      var r := [x] + s;
      assert r[0] == x && r[1..] == s;
      assert WithKey(r, key, v) == xs + WithKey(s, key, v);
    } else {
      var t := Insert(x, s[1..], key);
      var r := [s[0]] + t;
      assert r[0] == s[0] && r[1..] == t;
      var heads: seq<T> := if key(s[0]) == v then [s[0]] else [];
      calc {
        WithKey(r, key, v);
        heads + WithKey(t, key, v);
        { InsertWithKey(x, s[1..], key, v); }
        heads + (xs + WithKey(s[1..], key, v));
        { assert heads == [] || xs == []; }
        xs + (heads + WithKey(s[1..], key, v));
        xs + WithKey(s, key, v);
      }
    }
  }

  /** The sort returns a permutation of its input, in non-increasing key
      order, in which elements with equal keys keep their input order. */
  lemma {:induction false} SortCorrect<T>(s: seq<T>, key: T -> real)
    ensures |Sort(s, key)| == |s|
    ensures multiset(Sort(s, key)) == multiset(s)
    ensures SortedDesc(Sort(s, key), key)
    ensures forall v :: WithKey(Sort(s, key), key, v) == WithKey(s, key, v)
  {
    if s != [] {
      var rest := Sort(s[1..], key);
      SortCorrect(s[1..], key);
      InsertSorted(s[0], rest, key);
      forall v ensures WithKey(Sort(s, key), key, v) == WithKey(s, key, v) {
        InsertWithKey(s[0], rest, key, v);
      }
    }
  }
}
