/** Python's `sorted(items, key=f)` on strings: a stable sort under the
    code-point order of the keys. The insights page sorts its category names
    with `key=lambda item: item[0].lower()`. */
module Sorting {
  import opened Common

  /** Python's `a <= b` on strings: lexicographic by code point, a proper
      prefix before the longer string. */
  predicate LexLe(a: string, b: string) {
    a == [] || (b != [] && (a[0] < b[0] || (a[0] == b[0] && LexLe(a[1..], b[1..]))))
  }

  lemma {:induction false} LexLeReflexive(a: string)
    ensures LexLe(a, a)
  {
    if a != [] {
      LexLeReflexive(a[1..]);
    }
  }

  lemma {:induction false} LexLeTotal(a: string, b: string)
    ensures LexLe(a, b) || LexLe(b, a)
  {
    if a != [] && b != [] && a[0] == b[0] {
      LexLeTotal(a[1..], b[1..]);
    }
  }

  lemma {:induction false} LexLeTransitive(a: string, b: string, c: string)
    requires LexLe(a, b) && LexLe(b, c)
    ensures LexLe(a, c)
  {
    if a != [] && b != [] && c != [] && a[0] == b[0] && b[0] == c[0] {
      LexLeTransitive(a[1..], b[1..], c[1..]);
    }
  }

  /** The keys of `s` are in non-decreasing order. */
  ghost predicate SortedBy(s: seq<string>, key: string -> string) {
    forall i, j :: 0 <= i < j < |s| ==> LexLe(key(s[i]), key(s[j]))
  }

  /** The elements of `s` whose key is `k`, in the order of `s`. */
  function WithKey(s: seq<string>, key: string -> string, k: string): seq<string> {
    if s == [] then [] else (if key(s[0]) == k then [s[0]] else []) + WithKey(s[1..], key, k)
  }

  /** Puts `x` in front of the first element whose key is not smaller than
      its own, so that it stays ahead of every element with an equal key. */
  function Insert(x: string, s: seq<string>, key: string -> string): seq<string> {
    if s == [] || LexLe(key(x), key(s[0])) then [x] + s else [s[0]] + Insert(x, s[1..], key)
  }

  /** `sorted(s, key=key)`: insertion sort from the back. The result is in
      key order, is a rearrangement of `s`, and is stable: the elements with
      any one key come out in the order `s` has them. */
  function SortByKey(s: seq<string>, key: string -> string): (r: seq<string>)
    ensures SortedBy(r, key)
    ensures multiset(r) == multiset(s)
    ensures forall k :: WithKey(r, key, k) == WithKey(s, key, k)
  {
    if s == [] then []
    else
      var t := SortByKey(s[1..], key);
      InsertSorted(s[0], t, key);
      InsertPermutes(s[0], t, key);
      assert s == [s[0]] + s[1..];
      InsertWithKeyAll(s[0], t, key);
      Insert(s[0], t, key)
  }

  lemma {:induction false} InsertPermutes(x: string, s: seq<string>, key: string -> string)
    ensures multiset(Insert(x, s, key)) == multiset{x} + multiset(s)
  {
    if s != [] && !LexLe(key(x), key(s[0])) {
      InsertPermutes(x, s[1..], key);
      assert s == [s[0]] + s[1..];
    }
  }

  lemma SortedTail(s: seq<string>, key: string -> string)
    requires SortedBy(s, key) && s != []
    ensures SortedBy(s[1..], key)
  {
    var t := s[1..];
    forall i, j | 0 <= i < j < |t| ensures LexLe(key(t[i]), key(t[j])) {
      assert t[i] == s[i + 1] && t[j] == s[j + 1];
    }
  }

  /** A sorted sequence stays sorted behind an element whose key is below all of its keys. */
  lemma SortedCons(y: string, u: seq<string>, key: string -> string)
    requires SortedBy(u, key)
    requires forall j :: 0 <= j < |u| ==> LexLe(key(y), key(u[j]))
    ensures SortedBy([y] + u, key)
  {
    var r := [y] + u;
    forall i, j | 0 <= i < j < |r| ensures LexLe(key(r[i]), key(r[j])) {
      assert r[j] == u[j - 1];
      if i > 0 {
        assert r[i] == u[i - 1];
      }
    }
  }

  /** A lower bound of `x` and of every key of `t` bounds every key after the insertion. */
  lemma InsertLowerBound(y: string, x: string, t: seq<string>, key: string -> string)
    requires LexLe(key(y), key(x))
    requires forall k :: 0 <= k < |t| ==> LexLe(key(y), key(t[k]))
    ensures forall j :: 0 <= j < |Insert(x, t, key)| ==> LexLe(key(y), key(Insert(x, t, key)[j]))
  {
    var u := Insert(x, t, key);
    InsertPermutes(x, t, key);
    forall j | 0 <= j < |u| ensures LexLe(key(y), key(u[j])) {
      assert u[j] in multiset(u);
      if u[j] != x {
        assert u[j] in multiset(t);
        var k :| 0 <= k < |t| && t[k] == u[j];
      }
    }
  }

  lemma {:induction false} InsertSorted(x: string, s: seq<string>, key: string -> string)
    requires SortedBy(s, key)
    ensures SortedBy(Insert(x, s, key), key)
  {
    if s == [] {
    } else if LexLe(key(x), key(s[0])) {
      forall j | 0 <= j < |s| ensures LexLe(key(x), key(s[j])) {
        if j > 0 {
          LexLeTransitive(key(x), key(s[0]), key(s[j]));
        }
      }
      SortedCons(x, s, key);
    } else {
      var t := s[1..];
      SortedTail(s, key);
      InsertSorted(x, t, key);
      LexLeTotal(key(x), key(s[0]));
      forall k | 0 <= k < |t| ensures LexLe(key(s[0]), key(t[k])) {
        assert t[k] == s[k + 1];
      }
      InsertLowerBound(s[0], x, t, key);
      SortedCons(s[0], Insert(x, t, key), key);
    }
  }

  lemma {:induction false} InsertWithKey(x: string, s: seq<string>, key: string -> string, k: string)
    ensures WithKey(Insert(x, s, key), key, k) ==
      (if key(x) == k then [x] else []) + WithKey(s, key, k)
  {
    if s == [] || LexLe(key(x), key(s[0])) {
      assert ([x] + s)[1..] == s;
    } else {
      var t := Insert(x, s[1..], key);
      var hx: seq<string> := if key(x) == k then [x] else [];
      var hs: seq<string> := if key(s[0]) == k then [s[0]] else [];
      InsertWithKey(x, s[1..], key, k);
      assert WithKey(t, key, k) == hx + WithKey(s[1..], key, k);
      assert Insert(x, s, key) == [s[0]] + t;
      assert ([s[0]] + t)[1..] == t;
      assert WithKey(Insert(x, s, key), key, k) == hs + WithKey(t, key, k);
      assert WithKey(s, key, k) == hs + WithKey(s[1..], key, k);
      LexLeReflexive(key(x));
      assert key(s[0]) != key(x);
      assert hs == [] || hx == [];
    }
  }

  /** Inserting `x` adds it in front of the elements with its key. */
  lemma InsertWithKeyAll(x: string, s: seq<string>, key: string -> string)
    ensures forall k ::
      WithKey(Insert(x, s, key), key, k) == (if key(x) == k then [x] else []) + WithKey(s, key, k)
  {
    forall k ensures WithKey(Insert(x, s, key), key, k) == (if key(x) == k then [x] else []) + WithKey(s, key, k) {
      InsertWithKey(x, s, key, k);
    }
  }
}
