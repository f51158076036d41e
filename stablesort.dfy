/**
 * Stable sorting by a real-valued key: the behaviour `slice::sort_by`
 * gives when its comparator compares keys (ascending, ties kept in input
 * order). The algorithm here is insertion sort; `SortByUnique` shows that
 * every stable sort returns the same sequence.
 */
module StableSort {

  /** Keys never decrease from left to right. */
  predicate SortedBy<T>(s: seq<T>, key: T -> real)
  {
    forall i, j :: 0 <= i < j < |s| ==> key(s[i]) <= key(s[j])
  }

  /** The elements of `s` whose key is `m`, in the order of `s`. */
  function KeyClass<T>(s: seq<T>, key: T -> real, m: real): seq<T>
  {
    if s == [] then []
    else (if key(s[0]) == m then [s[0]] else []) + KeyClass(s[1..], key, m)
  }

  /** Insert `x` before the first element whose key is not smaller than its own. */
  function Insert<T>(x: T, s: seq<T>, key: T -> real): (r: seq<T>)
    ensures multiset(r) == multiset(s) + multiset{x}
    ensures SortedBy(s, key) ==> SortedBy(r, key)
  {
    if s == [] || key(x) <= key(s[0]) then [x] + s
    else
      var rest := Insert(x, s[1..], key);
      assert s == [s[0]] + s[1..];
      assert SortedBy(s, key) ==> forall j :: 0 <= j < |rest| ==> key(s[0]) <= key(rest[j]) by {
        if SortedBy(s, key) {
          forall j | 0 <= j < |rest| ensures key(s[0]) <= key(rest[j]) {
            assert rest[j] in multiset(rest);
            if rest[j] != x {
              assert rest[j] in multiset(s[1..]);
              var k :| 0 <= k < |s[1..]| && s[1..][k] == rest[j];
              assert s[k + 1] == rest[j];
            }
          }
        }
      }
      [s[0]] + rest
  }

  /** `s` sorted by `key`, stably. */
  function SortBy<T>(s: seq<T>, key: T -> real): (r: seq<T>)
    ensures multiset(r) == multiset(s)
    ensures |r| == |s|
    ensures SortedBy(r, key)
  {
    if s == [] then []
    else
      assert s == [s[0]] + s[1..];
      Insert(s[0], SortBy(s[1..], key), key)
  }

  /** Inserting into a sorted sequence puts `x` in front of the elements sharing its key. */
  lemma {:induction false} InsertKeyClass<T>(x: T, s: seq<T>, key: T -> real, m: real)
    requires SortedBy(s, key)
    ensures KeyClass(Insert(x, s, key), key, m) ==
      (if key(x) == m then [x] else []) + KeyClass(s, key, m)
  {
    if s == [] || key(x) <= key(s[0]) {
      assert ([x] + s)[1..] == s;
    } else {
      var rest := Insert(x, s[1..], key);
      assert ([s[0]] + rest)[1..] == rest;
      SortedTail(s, key);
      InsertKeyClass(x, s[1..], key, m);
      var px := if key(x) == m then [x] else [];
      var p0 := if key(s[0]) == m then [s[0]] else [];
      calc {
        KeyClass(Insert(x, s, key), key, m);
        KeyClass([s[0]] + rest, key, m);
        p0 + KeyClass(rest, key, m);
        p0 + (px + KeyClass(s[1..], key, m));
        { assert px == [] || p0 == []; }
        px + (p0 + KeyClass(s[1..], key, m));
        px + KeyClass(s, key, m);
      }
    }
  }

  /** Stability: for every key, the elements with that key keep their relative order. */
  lemma {:induction false} SortByStable<T>(s: seq<T>, key: T -> real, m: real)
    ensures KeyClass(SortBy(s, key), key, m) == KeyClass(s, key, m)
  {
    if s != [] {
      SortByStable(s[1..], key, m);
      InsertKeyClass(s[0], SortBy(s[1..], key), key, m);
    }
  }

  /** Every element of a key class is an element of the sequence with that key. */
  lemma {:induction false} KeyClassMember<T>(s: seq<T>, key: T -> real, m: real, x: T)
    requires x in KeyClass(s, key, m)
    ensures x in s && key(x) == m
  {
    if s != [] && !(key(s[0]) == m && x == s[0]) {
      assert x in KeyClass(s[1..], key, m);
      KeyClassMember(s[1..], key, m, x);
    }
  }

  /** A non-empty sequence has a non-empty key class for its first key. */
  lemma KeyClassOfHead<T>(s: seq<T>, key: T -> real)
    requires s != []
    ensures KeyClass(s, key, key(s[0])) == [s[0]] + KeyClass(s[1..], key, key(s[0]))
  {
  }

  /** Sequences with the same key classes are both empty or both non-empty. */
  lemma SameClassesEmpty<T>(a: seq<T>, b: seq<T>, key: T -> real)
    requires forall m :: KeyClass(a, key, m) == KeyClass(b, key, m)
    ensures a == [] <==> b == []
  {
    if a != [] {
      KeyClassOfHead(a, key);
      assert KeyClass(b, key, key(a[0])) != [];
    }
    if b != [] {
      KeyClassOfHead(b, key);
      assert KeyClass(a, key, key(b[0])) != [];
    }
  }

  /** Sorted sequences with the same key classes start with the same element. */
  lemma SameClassesHead<T>(a: seq<T>, b: seq<T>, key: T -> real)
    requires a != [] && b != []
    requires SortedBy(a, key) && SortedBy(b, key)
    requires forall m :: KeyClass(a, key, m) == KeyClass(b, key, m)
    ensures a[0] == b[0]
  {
    var ka, kb := key(a[0]), key(b[0]);
    KeyClassOfHead(a, key);
    KeyClassOfHead(b, key);
    assert KeyClass(b, key, ka) == KeyClass(a, key, ka);
    KeyClassMember(b, key, ka, a[0]);
    assert kb <= ka;
    assert KeyClass(a, key, kb) == KeyClass(b, key, kb);
    KeyClassMember(a, key, kb, b[0]);
    assert ka <= kb;
    assert KeyClass(a, key, ka)[0] == a[0];
  }

  /** Removing the same first element keeps the key classes equal. */
  lemma SameClassesTail<T>(a: seq<T>, b: seq<T>, key: T -> real)
    requires a != [] && b != [] && a[0] == b[0]
    requires forall m :: KeyClass(a, key, m) == KeyClass(b, key, m)
    ensures forall m :: KeyClass(a[1..], key, m) == KeyClass(b[1..], key, m)
  {
    forall m ensures KeyClass(a[1..], key, m) == KeyClass(b[1..], key, m) {
      var p := if key(a[0]) == m then [a[0]] else [];
      assert KeyClass(a, key, m) == p + KeyClass(a[1..], key, m);
      assert KeyClass(b, key, m) == p + KeyClass(b[1..], key, m);
      assert KeyClass(a[1..], key, m) == (p + KeyClass(a[1..], key, m))[|p|..];
      assert KeyClass(b[1..], key, m) == (p + KeyClass(b[1..], key, m))[|p|..];
    }
  }

  /** Two sorted sequences with the same key classes are equal. */
  lemma {:induction false} SortedStableUnique<T>(a: seq<T>, b: seq<T>, key: T -> real)
    requires SortedBy(a, key) && SortedBy(b, key)
    requires forall m :: KeyClass(a, key, m) == KeyClass(b, key, m)
    ensures a == b
    decreases |a|
  {
    SameClassesEmpty(a, b, key);
    if a != [] {
      SameClassesHead(a, b, key);
      SameClassesTail(a, b, key);
      SortedTail(a, key);
      SortedTail(b, key);
      SortedStableUnique(a[1..], b[1..], key);
      assert a == [a[0]] + a[1..] && b == [b[0]] + b[1..];
    }
  }

  lemma SortedTail<T>(s: seq<T>, key: T -> real)
    requires s != [] && SortedBy(s, key)
    ensures SortedBy(s[1..], key)
  {
    forall i, j | 0 <= i < j < |s[1..]| ensures key(s[1..][i]) <= key(s[1..][j]) {
      assert s[1..][i] == s[i + 1] && s[1..][j] == s[j + 1];
    }
  }

  /**
   * Any sequence that is sorted by `key` and keeps every key class of `s`
   * in order is `SortBy(s, key)`: the result of a stable sort does not
   * depend on the algorithm.
   */
  lemma SortByUnique<T>(s: seq<T>, t: seq<T>, key: T -> real)
    requires SortedBy(t, key)
    requires forall m :: KeyClass(t, key, m) == KeyClass(s, key, m)
    ensures t == SortBy(s, key)
  {
    forall m ensures KeyClass(t, key, m) == KeyClass(SortBy(s, key), key, m) {
      SortByStable(s, key, m);
    }
    SortedStableUnique(t, SortBy(s, key), key);
  }

  /** Keys that agree on every element of `s` sort `s` the same way. */
  lemma {:induction false} SortByCongruent<T>(s: seq<T>, key1: T -> real, key2: T -> real)
    requires forall x :: x in s ==> key1(x) == key2(x)
    ensures SortBy(s, key1) == SortBy(s, key2)
  {
    if s != [] {
      SortByCongruent(s[1..], key1, key2);
      var t := SortBy(s[1..], key1);
      forall x | x in t ensures key1(x) == key2(x) {
        assert x in multiset(s[1..]);
      }
      InsertCongruent(s[0], t, key1, key2);
    }
  }

  lemma {:induction false} InsertCongruent<T>(x: T, s: seq<T>, key1: T -> real, key2: T -> real)
    requires key1(x) == key2(x)
    requires forall y :: y in s ==> key1(y) == key2(y)
    ensures Insert(x, s, key1) == Insert(x, s, key2)
  {
    if s != [] && key1(x) > key1(s[0]) {
      InsertCongruent(x, s[1..], key1, key2);
    }
  }
}
