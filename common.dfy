/** Small value types and sequence operations shared by the models of the
    website and directory applications: the optional value a nullable column
    holds, queryset filtering and slicing, and the facts about them that the
    views' properties are built from. */
module Common {

  /** A nullable column or an absent request parameter. */
  datatype Option<+T> = None | Some(value: T)

  /** What a view hands back to the framework: a rendered template, a
      redirect to a named route, the 404 page of `get_object_or_404`, or the
      500 page of an exception the view does not catch. */
  datatype Response = Render(template: string) | Redirect(route: string) | NotFound | ServerError(reason: string)

  /** The outcome of an operation that can raise. */
  datatype Result<T> = Success(value: T) | Failure(error: string)

  /** A message handed to `send_mail`. */
  datatype Mail = Mail(subject: string, body: string, sender: string, recipients: seq<string>)

  /** `queryset.filter(...)`: the rows satisfying `p`, in queryset order. */
  function Filter<T>(s: seq<T>, p: T -> bool): (r: seq<T>)
    ensures |r| <= |s|
    ensures forall i :: 0 <= i < |r| ==> r[i] in s && p(r[i])
  {
    if s == [] then [] else (if p(s[0]) then [s[0]] else []) + Filter(s[1..], p)
  }

  /** `queryset[:n]`: the first `n` rows, or all of them when there are fewer. */
  function Take<T>(s: seq<T>, n: nat): (r: seq<T>)
    ensures |r| == if |s| < n then |s| else n
    ensures r == s[..|r|]
  {
    if |s| <= n then s else s[..n]
  }

  /** `r` keeps some of the elements of `s`, in the order `s` has them. */
  ghost predicate IsSubsequence<T>(r: seq<T>, s: seq<T>)
    decreases |s|
  {
    r == [] || (s != [] && ((r[0] == s[0] && IsSubsequence(r[1..], s[1..])) || IsSubsequence(r, s[1..])))
  }

  /** Every row of `s` stands in `rel` to every later row: a uniqueness
      constraint when `rel` says "different keys", an ordering when it says
      "not after". */
  ghost predicate Pairwise<T>(s: seq<T>, rel: (T, T) -> bool) {
    forall i, j :: 0 <= i < j < |s| ==> rel(s[i], s[j])
  }

  /** No element occurs twice in `s`. */
  ghost predicate NoDuplicates<T>(s: seq<T>) {
    forall i, j :: 0 <= i < j < |s| ==> s[i] != s[j]
  }

  /** A filter keeps the rows it keeps in their queryset order. */
  lemma {:induction false} FilterIsSubsequence<T>(s: seq<T>, p: T -> bool)
    ensures IsSubsequence(Filter(s, p), s)
  {
    if s != [] {
      FilterIsSubsequence(s[1..], p);
      var rest := Filter(s[1..], p);
      if p(s[0]) {
        assert Filter(s, p) == [s[0]] + rest;
        assert ([s[0]] + rest)[1..] == rest;
      } else {
        assert Filter(s, p) == rest;
        SubsequenceOfTail(rest, s);
      }
    }
  }

  /** A subsequence of the tail is a subsequence of the whole. */
  lemma SubsequenceOfTail<T>(r: seq<T>, s: seq<T>)
    requires s != [] && IsSubsequence(r, s[1..])
    ensures IsSubsequence(r, s)
  {
  }

  /** Every element of a subsequence occurs in the sequence it was taken from. */
  lemma {:induction false} SubsequenceMembers<T>(r: seq<T>, s: seq<T>)
    requires IsSubsequence(r, s)
    ensures forall x :: x in r ==> x in s
    decreases |s|
  {
    if r != [] {
      if r[0] == s[0] && IsSubsequence(r[1..], s[1..]) {
        SubsequenceMembers(r[1..], s[1..]);
        forall x | x in r ensures x in s {
          if x != r[0] {
            assert x in r[1..];
          }
        }
      } else {
        SubsequenceMembers(r, s[1..]);
      }
    }
  }

  /** A sequence is a subsequence of itself (a filter that was not applied). */
  lemma {:induction false} SubsequenceReflexive<T>(s: seq<T>)
    ensures IsSubsequence(s, s)
    decreases |s|
  {
    if s != [] {
      SubsequenceReflexive(s[1..]);
    }
  }

  /** Taking a subsequence twice gives a subsequence (filters compose). */
  lemma {:induction false} SubsequenceTransitive<T>(a: seq<T>, b: seq<T>, c: seq<T>)
    requires IsSubsequence(a, b) && IsSubsequence(b, c)
    ensures IsSubsequence(a, c)
    decreases |c|
  {
    if a == [] {
    } else if b[0] == c[0] && IsSubsequence(b[1..], c[1..]) {
      if a[0] == b[0] && IsSubsequence(a[1..], b[1..]) {
        SubsequenceTransitive(a[1..], b[1..], c[1..]);
      } else {
        SubsequenceTransitive(a, b[1..], c[1..]);
        SubsequenceOfTail(a, c);
      }
    } else {
      SubsequenceTransitive(a, b, c[1..]);
      SubsequenceOfTail(a, c);
    }
  }

  /** Filtering keeps a uniqueness constraint or an ordering. */
  lemma {:induction false} FilterPairwise<T>(s: seq<T>, p: T -> bool, rel: (T, T) -> bool)
    requires Pairwise(s, rel)
    ensures Pairwise(Filter(s, p), rel)
  {
    if s != [] {
      assert Pairwise(s[1..], rel) by {
        forall i, j | 0 <= i < j < |s[1..]| ensures rel(s[1..][i], s[1..][j]) {
          assert s[1..][i] == s[i + 1] && s[1..][j] == s[j + 1];
        }
      }
      FilterPairwise(s[1..], p, rel);
      var rest := Filter(s[1..], p);
      if p(s[0]) {
        var r := [s[0]] + rest;
        assert Filter(s, p) == r;
        forall i, j | 0 <= i < j < |r| ensures rel(r[i], r[j]) {
          if i == 0 {
            assert r[j] in s[1..];
            var k :| 0 <= k < |s[1..]| && s[1..][k] == r[j];
            assert s[k + 1] == r[j];
          } else {
            assert r[i] == rest[i - 1] && r[j] == rest[j - 1];
          }
        }
      }
    }
  }

  /** Applying `f` to every row of a queryset (an `update`/`set_null`). */
  function MapSeq<T, U>(s: seq<T>, f: T -> U): (r: seq<U>)
    ensures |r| == |s|
    ensures forall i :: 0 <= i < |s| ==> r[i] == f(s[i])
  {
    if s == [] then [] else [f(s[0])] + MapSeq(s[1..], f)
  }

  /** Mapping keeps a subsequence a subsequence: order survives an update. */
  lemma {:induction false} MapSubsequence<T, U>(r: seq<T>, s: seq<T>, f: T -> U)
    requires IsSubsequence(r, s)
    ensures IsSubsequence(MapSeq(r, f), MapSeq(s, f))
    decreases |s|
  {
    if r != [] {
      var fr, fs := MapSeq(r, f), MapSeq(s, f);
      assert fs[1..] == MapSeq(s[1..], f);
      if r[0] == s[0] && IsSubsequence(r[1..], s[1..]) {
        MapSubsequence(r[1..], s[1..], f);
        assert fr[1..] == MapSeq(r[1..], f);
      } else {
        MapSubsequence(r, s[1..], f);
      }
    }
  }

  /** Filtering a longer prefix adds the new row when it passes. */
  lemma {:induction false} FilterAppend<T>(s: seq<T>, x: T, p: T -> bool)
    ensures Filter(s + [x], p) == Filter(s, p) + (if p(x) then [x] else [])
  {
    if s == [] {
      assert [x][1..] == [];
    } else {
      assert (s + [x])[1..] == s[1..] + [x];
      FilterAppend(s[1..], x, p);
    }
  }

  lemma {:induction false} MapSeqAppend<T, U>(s: seq<T>, x: T, f: T -> U)
    ensures MapSeq(s + [x], f) == MapSeq(s, f) + [f(x)]
  {
    if s == [] {
      assert [x][1..] == [];
    } else {
      assert (s + [x])[1..] == s[1..] + [x];
      MapSeqAppend(s[1..], x, f);
    }
  }

  /** Mapping a split queryset: every mapped row comes out of exactly one side. */
  lemma {:induction false} MapFilterSplit<T, U>(s: seq<T>, p: T -> bool, notP: T -> bool, f: T -> U)
    requires forall x :: notP(x) == !p(x)
    ensures multiset(MapSeq(Filter(s, p), f)) + multiset(MapSeq(Filter(s, notP), f)) == multiset(MapSeq(s, f))
  {
    if s != [] {
      MapFilterSplit(s[1..], p, notP, f);
      if p(s[0]) {
        assert Filter(s, p) == [s[0]] + Filter(s[1..], p);
        assert MapSeq(Filter(s, p), f) == [f(s[0])] + MapSeq(Filter(s[1..], p), f);
        assert Filter(s, notP) == Filter(s[1..], notP);
      } else {
        assert Filter(s, notP) == [s[0]] + Filter(s[1..], notP);
        assert MapSeq(Filter(s, notP), f) == [f(s[0])] + MapSeq(Filter(s[1..], notP), f);
        assert Filter(s, p) == Filter(s[1..], p);
      }
      assert MapSeq(s, f) == [f(s[0])] + MapSeq(s[1..], f);
    }
  }

  /** A sequence has no duplicates exactly when no element occurs twice in its multiset. */
  lemma {:induction false} NoDuplicatesMultiset<T>(s: seq<T>)
    ensures NoDuplicates(s) <==> forall x :: multiset(s)[x] <= 1
  {
    if s != [] {
      var t := s[1..];
      NoDuplicatesMultiset(t);
      assert s == [s[0]] + t;
      assert multiset(s) == multiset{s[0]} + multiset(t);
      if NoDuplicates(s) {
        assert NoDuplicates(t) by {
          forall i, j | 0 <= i < j < |t| ensures t[i] != t[j] {
            assert t[i] == s[i + 1] && t[j] == s[j + 1];
          }
        }
        assert s[0] !in t by {
          forall k | 0 <= k < |t| ensures t[k] != s[0] {
            assert t[k] == s[k + 1];
          }
        }
      }
      if forall x :: multiset(s)[x] <= 1 {
        assert forall x :: multiset(t)[x] <= 1 by {
          forall x ensures multiset(t)[x] <= 1 {
            assert multiset(s)[x] <= 1;
          }
        }
        assert multiset(s)[s[0]] <= 1;
        assert s[0] !in t;
        forall i, j | 0 <= i < j < |s| ensures s[i] != s[j] {
          if i == 0 {
            assert s[j] == t[j - 1];
          } else {
            assert s[i] == t[i - 1] && s[j] == t[j - 1];
          }
        }
      }
    }
  }

  /** A row is in a filtered queryset exactly when it is in the queryset and passes. */
  lemma {:induction false} FilterMembers<T>(s: seq<T>, p: T -> bool)
    ensures forall x :: x in Filter(s, p) <==> x in s && p(x)
  {
    if s != [] {
      FilterMembers(s[1..], p);
      assert s == [s[0]] + s[1..];
    }
  }

  /** Mapping a filtered longer prefix adds the mapped new row when it passes. */
  lemma MapFilterAppend<T, U>(s: seq<T>, x: T, p: T -> bool, f: T -> U)
    ensures MapSeq(Filter(s + [x], p), f) == MapSeq(Filter(s, p), f) + (if p(x) then [f(x)] else [])
  {
    FilterAppend(s, x, p);
    if p(x) {
      MapSeqAppend(Filter(s, p), x, f);
    }
  }

  /** One step of a loop that sends each row, mapped, to one of two lists by `p`. */
  lemma MapPartitionStep<T, U>(s: seq<T>, x: T, p: T -> bool, notP: T -> bool, f: T -> U, yes: seq<U>, no: seq<U>)
    requires forall y :: notP(y) == !p(y)
    requires yes == MapSeq(Filter(s, p), f) && no == MapSeq(Filter(s, notP), f)
    ensures p(x) ==> yes + [f(x)] == MapSeq(Filter(s + [x], p), f) && no == MapSeq(Filter(s + [x], notP), f)
    ensures !p(x) ==> yes == MapSeq(Filter(s + [x], p), f) && no + [f(x)] == MapSeq(Filter(s + [x], notP), f)
  {
    MapFilterAppend(s, x, p, f);
    MapFilterAppend(s, x, notP, f);
  }

  /** The same step stated on the prefixes of one sequence, as a loop over it uses it. */
  lemma MapPartitionPrefix<T, U>(s: seq<T>, i: nat, p: T -> bool, notP: T -> bool, f: T -> U, yes: seq<U>, no: seq<U>)
    requires i < |s|
    requires forall y :: notP(y) == !p(y)
    requires yes == MapSeq(Filter(s[..i], p), f) && no == MapSeq(Filter(s[..i], notP), f)
    ensures p(s[i]) ==> yes + [f(s[i])] == MapSeq(Filter(s[..i + 1], p), f) && no == MapSeq(Filter(s[..i + 1], notP), f)
    ensures !p(s[i]) ==> yes == MapSeq(Filter(s[..i + 1], p), f) && no + [f(s[i])] == MapSeq(Filter(s[..i + 1], notP), f)
  {
    assert s[..i + 1] == s[..i] + [s[i]];
    MapPartitionStep(s[..i], s[i], p, notP, f, yes, no);
  }

  /** Putting a row in front keeps a relation that holds between it and every row. */
  lemma PairwisePrepend<T>(x: T, s: seq<T>, rel: (T, T) -> bool)
    requires Pairwise(s, rel)
    requires forall y :: y in s ==> rel(x, y)
    ensures Pairwise([x] + s, rel)
  {
    var r := [x] + s;
    forall i, j | 0 <= i < j < |r| ensures rel(r[i], r[j]) {
      assert r[j] == s[j - 1];
      if i > 0 {
        assert r[i] == s[i - 1];
      }
    }
  }

  /** Mapping by a function that carries a relation over keeps it between all rows. */
  lemma MapPairwise<T, U>(s: seq<T>, f: T -> U, relT: (T, T) -> bool, relU: (U, U) -> bool)
    requires Pairwise(s, relT)
    requires forall x, y :: relT(x, y) ==> relU(f(x), f(y))
    ensures Pairwise(MapSeq(s, f), relU)
  {
  }

  /** A sequence with no members is empty. */
  lemma NoMembersEmpty<T>(s: seq<T>)
    ensures (forall x :: x !in s) ==> s == []
  {
    if s != [] {
      assert s[0] in s;
    }
  }

  /** Filtering by two predicates that agree on every row gives the same rows. */
  lemma {:induction false} FilterSame<T>(s: seq<T>, p: T -> bool, q: T -> bool)
    requires forall x :: p(x) == q(x)
    ensures Filter(s, p) == Filter(s, q)
  {
    if s != [] {
      FilterSame(s[1..], p, q);
    }
  }
}
