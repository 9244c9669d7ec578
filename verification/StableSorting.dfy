/**
 * JavaScript's `Array.prototype.sort`, which is stable. `IsStableSort` is the language's promise,
 * `StableSort` one arrangement that meets it, and `SortIsDetermined` says there is no other.
 */
module StableSorting {
  ghost predicate TotalPreorder<T(!new)>(leq: (T, T) -> bool) {
    && (forall x, y :: leq(x, y) || leq(y, x))
    && (forall x, y, z :: leq(x, y) && leq(y, z) ==> leq(x, z))
  }

  ghost predicate Ascending<T>(leq: (T, T) -> bool, s: seq<T>) {
    forall i, j :: 0 <= i < j < |s| ==> leq(s[i], s[j])
  }

  /** The elements of `s` that the order does not tell from `x`, in sequence. */
  function Ties<T>(leq: (T, T) -> bool, s: seq<T>, x: T): seq<T> {
    if s == [] then []
    else (if leq(s[0], x) && leq(x, s[0]) then [s[0]] else []) + Ties(leq, s[1..], x)
  }

  /** `r` holds the elements of `s` in order, and equal elements keep their sequence. */
  ghost predicate IsStableSort<T(!new)>(leq: (T, T) -> bool, s: seq<T>, r: seq<T>) {
    && Ascending(leq, r)
    && forall x :: Ties(leq, r, x) == Ties(leq, s, x)
  }

  function Insert<T>(leq: (T, T) -> bool, x: T, r: seq<T>): seq<T> {
    if r == [] || leq(x, r[0]) then [x] + r else [r[0]] + Insert(leq, x, r[1..])
  }

  function StableSort<T>(leq: (T, T) -> bool, s: seq<T>): seq<T> {
    if s == [] then [] else Insert(leq, s[0], StableSort(leq, s[1..]))
  }

  // ----- `StableSort` is a stable sort -----

  lemma {:induction false} InsertKeepsElements<T>(leq: (T, T) -> bool, x: T, r: seq<T>)
    ensures multiset(Insert(leq, x, r)) == multiset{x} + multiset(r)
  {
    if r != [] {
      assert r == [r[0]] + r[1..];
      InsertKeepsElements(leq, x, r[1..]);
    }
  }

  lemma {:induction false} InsertAscends<T(!new)>(leq: (T, T) -> bool, x: T, r: seq<T>)
    requires TotalPreorder(leq) && Ascending(leq, r)
    ensures Ascending(leq, Insert(leq, x, r))
  {
    if r != [] && !leq(x, r[0]) {
      InsertAscends(leq, x, r[1..]);
      var rest := Insert(leq, x, r[1..]);
      InsertKeepsElements(leq, x, r[1..]);
      forall j | 0 <= j < |rest| ensures leq(r[0], rest[j]) {
        assert rest[j] in multiset(rest);
      }
    }
  }

  lemma {:induction false} InsertKeepsTies<T(!new)>(leq: (T, T) -> bool, x: T, r: seq<T>, z: T)
    requires TotalPreorder(leq)
    ensures Ties(leq, Insert(leq, x, r), z) == Ties(leq, [x] + r, z)
  {
    if r != [] && !leq(x, r[0]) {
      InsertKeepsTies(leq, x, r[1..], z);
      assert ([x] + r)[1..] == r && ([x] + r[1..])[1..] == r[1..];
      assert Insert(leq, x, r)[1..] == Insert(leq, x, r[1..]);
    }
  }

  lemma {:induction false} SortIsStable<T(!new)>(leq: (T, T) -> bool, s: seq<T>)
    requires TotalPreorder(leq)
    ensures IsStableSort(leq, s, StableSort(leq, s))
    ensures multiset(StableSort(leq, s)) == multiset(s)
  {
    if s != [] {
      SortIsStable(leq, s[1..]);
      var rest := StableSort(leq, s[1..]);
      InsertAscends(leq, s[0], rest);
      InsertKeepsElements(leq, s[0], rest);
      assert s == [s[0]] + s[1..];
      forall z ensures Ties(leq, StableSort(leq, s), z) == Ties(leq, s, z) {
        InsertKeepsTies(leq, s[0], rest, z);
        assert ([s[0]] + rest)[1..] == rest;
      }
    }
  }

  // ----- and the only one -----

  lemma {:induction false} TiesAreMembers<T(!new)>(leq: (T, T) -> bool, s: seq<T>, x: T)
    requires TotalPreorder(leq)
    ensures forall y :: y in Ties(leq, s, x) <==> y in s && leq(x, y) && leq(y, x)
  {
    if s != [] {
      TiesAreMembers(leq, s[1..], x);
    }
  }

  lemma StableHead<T(!new)>(leq: (T, T) -> bool, r: seq<T>, q: seq<T>)
    requires TotalPreorder(leq) && Ascending(leq, r) && IsStableSort(leq, r, q) && r != []
    ensures q != [] && q[0] == r[0]
  {
    assert Ties(leq, q, r[0]) == Ties(leq, r, r[0]);
    FirstTie(leq, r, r[0], 0);
    TiesAreMembers(leq, q, r[0]);
    assert r[0] in q;
    assert Ties(leq, q, q[0]) == Ties(leq, r, q[0]);
    FirstTie(leq, q, q[0], 0);
    TiesAreMembers(leq, r, q[0]);
    assert q[0] in r;
    FirstTie(leq, q, r[0], 0);
  }

  lemma ElementsHaveTies<T(!new)>(leq: (T, T) -> bool, q: seq<T>)
    requires TotalPreorder(leq)
    ensures q != [] ==> exists x :: Ties(leq, q, x) != []
  {
    if q != [] {
      FirstTie(leq, q, q[0], 0);
    }
  }

  /** A stable sort leaves an ascending sequence alone. Hence two stable sorts of one sequence are equal. */
  lemma {:induction false} SortKeepsAscending<T(!new)>(leq: (T, T) -> bool, r: seq<T>, q: seq<T>)
    requires TotalPreorder(leq) && Ascending(leq, r) && IsStableSort(leq, r, q)
    ensures r == q
  {
    if r == [] {
      ElementsHaveTies(leq, q);
    } else {
      StableHead(leq, r, q);
      forall x ensures Ties(leq, q[1..], x) == Ties(leq, r[1..], x) {
        assert Ties(leq, q, x) == Ties(leq, r, x);
        var n := if leq(r[0], x) && leq(x, r[0]) then 1 else 0;
        assert Ties(leq, q[1..], x) == Ties(leq, q, x)[n..];
        assert Ties(leq, r[1..], x) == Ties(leq, r, x)[n..];
      }
      SortKeepsAscending(leq, r[1..], q[1..]);
    }
  }

  /** The language's promise determines the result: whatever sorts `s` stably returns `StableSort`. */
  lemma SortIsDetermined<T(!new)>(leq: (T, T) -> bool, s: seq<T>, r: seq<T>)
    requires TotalPreorder(leq) && IsStableSort(leq, s, r)
    ensures r == StableSort(leq, s)
  {
    SortIsStable(leq, s);
    forall x ensures Ties(leq, StableSort(leq, s), x) == Ties(leq, r, x) {
      assert Ties(leq, StableSort(leq, s), x) == Ties(leq, s, x);
      assert Ties(leq, r, x) == Ties(leq, s, x);
    }
    SortKeepsAscending(leq, r, StableSort(leq, s));
  }

  /** The head of a stable sort is the first of the least elements. */
  lemma HeadIsFirstLeast<T(!new)>(leq: (T, T) -> bool, s: seq<T>, r: seq<T>, i: nat)
    requires TotalPreorder(leq) && IsStableSort(leq, s, r) && i < |s|
    requires forall j :: 0 <= j < |s| ==> leq(s[i], s[j])
    requires forall j :: 0 <= j < i ==> !leq(s[j], s[i])
    ensures r != [] && r[0] == s[i]
  {
    var x := s[i];
    TiesAreMembers(leq, s, x);
    TiesAreMembers(leq, r, x);
    assert Ties(leq, r, x) == Ties(leq, s, x);
    assert x in r;
    TiesAreMembers(leq, r, r[0]);
    TiesAreMembers(leq, s, r[0]);
    assert Ties(leq, r, r[0]) == Ties(leq, s, r[0]);
    assert r[0] in s;
    FirstTie(leq, s, x, i);
    FirstTie(leq, r, x, 0);
  }

  lemma {:induction false} FirstTie<T>(leq: (T, T) -> bool, s: seq<T>, x: T, i: nat)
    requires i < |s| && leq(s[i], x) && leq(x, s[i])
    requires forall j :: 0 <= j < i ==> !(leq(s[j], x) && leq(x, s[j]))
    ensures Ties(leq, s, x) != [] && Ties(leq, s, x)[0] == s[i]
  {
    if i > 0 {
      FirstTie(leq, s[1..], x, i - 1);
    }
  }

  // ----- ties keep their sequence -----

  ghost predicate Pairwise<T>(p: (T, T) -> bool, s: seq<T>) {
    forall i, j :: 0 <= i < j < |s| ==> p(s[i], s[j])
  }

  lemma {:induction false} TiesInherit<T>(leq: (T, T) -> bool, p: (T, T) -> bool, s: seq<T>, x: T)
    requires Pairwise(p, s)
    ensures Pairwise(p, Ties(leq, s, x))
    ensures forall y :: y in Ties(leq, s, x) ==> y in s
  {
    if s != [] {
      TiesInherit(leq, p, s[1..], x);
      var rest := Ties(leq, s[1..], x);
      forall j | 0 <= j < |rest| ensures p(s[0], rest[j]) {
        assert rest[j] in s[1..];
      }
    }
  }

  lemma {:induction false} TiesReflect<T>(leq: (T, T) -> bool, p: (T, T) -> bool, s: seq<T>, x: T, j: nat, k: nat)
    requires Pairwise(p, Ties(leq, s, x)) && j < k < |s|
    requires leq(s[j], x) && leq(x, s[j]) && leq(s[k], x) && leq(x, s[k])
    ensures p(s[j], s[k])
  {
    var ties, rest := Ties(leq, s, x), Ties(leq, s[1..], x);
    if j == 0 {
      assert ties == [s[0]] + rest;
      TieIsListed(leq, s[1..], x, k - 1);
      var m :| 0 <= m < |rest| && rest[m] == s[k];
      assert p(ties[0], ties[m + 1]) && ties[m + 1] == s[k];
    } else {
      assert Pairwise(p, rest) by {
        var n := |ties| - |rest|;
        assert forall i :: 0 <= i < |rest| ==> rest[i] == ties[i + n];
      }
      TiesReflect(leq, p, s[1..], x, j - 1, k - 1);
    }
  }

  lemma {:induction false} TieIsListed<T>(leq: (T, T) -> bool, s: seq<T>, x: T, k: nat)
    requires k < |s| && leq(s[k], x) && leq(x, s[k])
    ensures s[k] in Ties(leq, s, x)
  {
    if k > 0 {
      TieIsListed(leq, s[1..], x, k - 1);
    }
  }

  /** Whatever holds between earlier and later elements of `s` holds between ties in a stable sort of it. */
  lemma StableSortKeepsTies<T(!new)>(leq: (T, T) -> bool, p: (T, T) -> bool, s: seq<T>, r: seq<T>, j: nat, k: nat)
    requires TotalPreorder(leq) && IsStableSort(leq, s, r) && Pairwise(p, s)
    requires j < k < |r| && leq(r[k], r[j])
    ensures p(r[j], r[k])
  {
    TiesInherit(leq, p, s, r[j]);
    assert Ties(leq, r, r[j]) == Ties(leq, s, r[j]);
    TiesReflect(leq, p, r, r[j], j, k);
  }

  // ----- permutations -----

  ghost predicate NoRepeats<T>(s: seq<T>) {
    forall i, j :: 0 <= i < j < |s| ==> s[i] != s[j]
  }

  lemma {:induction false} CountsAtMostOnce<T>(s: seq<T>, x: T)
    requires NoRepeats(s)
    ensures multiset(s)[x] <= 1
  {
    if s != [] {
      assert s == [s[0]] + s[1..];
      CountsAtMostOnce(s[1..], x);
    }
  }

  lemma RepeatCountsTwice<T>(r: seq<T>, i: nat, j: nat)
    requires i < j < |r| && r[i] == r[j]
    ensures multiset(r)[r[i]] >= 2
  {
    assert r == r[..j] + r[j..];
    assert r[..j][i] == r[i] && r[j..][0] == r[i];
    assert multiset(r) == multiset(r[..j]) + multiset(r[j..]);
  }

  /** A permutation has the same members, and repeats none if the original repeats none. */
  lemma PermutationKeepsMembers<T>(s: seq<T>, r: seq<T>)
    requires multiset(r) == multiset(s)
    ensures forall x :: x in r <==> x in s
    ensures NoRepeats(s) ==> NoRepeats(r)
  {
    forall x ensures x in r <==> x in s {
      assert x in multiset(r) <==> x in multiset(s);
    }
    if NoRepeats(s) {
      forall i, j | 0 <= i < j < |r| ensures r[i] != r[j] {
        CountsAtMostOnce(s, r[i]);
        if r[i] == r[j] {
          RepeatCountsTwice(r, i, j);
        }
      }
    }
  }
}
