/** The list idioms the engine uses on import lists:
    `arr.filter(x => x)` and `arr.filter((x, i, a) => a.indexOf(x) === i)`. */
module Lists {
  import opened Js

  predicate NoDups<T(==)>(s: seq<T>) {
    forall i, j :: 0 <= i < j < |s| ==> s[i] != s[j]
  }

  /** An element that is not yet in a list without repetitions can be
      appended without creating one. */
  lemma NoDupsSnoc<T>(s: seq<T>, x: T)
    requires NoDups(s) && x !in s
    ensures NoDups(s + [x])
  {
  }

  /** `s.map(f)`: the projection the engine's name lists are. */
  function Map<A, B>(f: A -> B, s: seq<A>): (r: seq<B>)
    ensures |r| == |s| && forall i :: 0 <= i < |s| ==> r[i] == f(s[i])
  {
    seq(|s|, i requires 0 <= i < |s| => f(s[i]))
  }

  /** `a.indexOf(x)`, with -1 for an absent element. */
  function IndexOf<T(==)>(s: seq<T>, x: T): (k: int)
    ensures -1 <= k < |s|
    ensures k == -1 <==> x !in s
    ensures k >= 0 ==> s[k] == x && x !in s[..k]
  {
    if s == [] then -1
    else if s[0] == x then 0
    else
      var k := IndexOf(s[1..], x);
      assert s[1..][..k + 1] == s[..k + 2][1..] by { }
      if k == -1 then -1 else k + 1
  }

  /** `s.filter((x, i, a) => a.indexOf(x) === i)` read from the index `from` on. */
  function KeepFirstFrom<T(==)>(s: seq<T>, from: nat): seq<T>
    requires from <= |s|
    decreases |s| - from
  {
    if from == |s| then []
    else (if IndexOf(s, s[from]) == from then [s[from]] else []) + KeepFirstFrom(s, from + 1)
  }

  /** The first occurrence of every element, in order of first occurrence.
      An element is kept exactly when it does not occur earlier. */
  function Distinct<T(==)>(s: seq<T>): seq<T> {
    if s == [] then []
    else
      var front := s[..|s| - 1];
      if s[|s| - 1] in front then Distinct(front) else Distinct(front) + [s[|s| - 1]]
  }

  /** `s.filter(x => x)` on optional strings: the defined, non-empty ones. */
  function Present(s: seq<Option<string>>): seq<string> {
    if s == [] then []
    else (if Truthy(s[0]) then [s[0].value] else []) + Present(s[1..])
  }

  lemma {:induction false} PresentMembers(s: seq<Option<string>>)
    ensures forall x :: x in Present(s) <==> x != "" && Some(x) in s
  {
    if s != [] {
      PresentMembers(s[1..]);
      assert s == [s[0]] + s[1..];
    }
  }

  lemma {:induction false} PresentAppend(a: seq<Option<string>>, b: seq<Option<string>>)
    ensures Present(a + b) == Present(a) + Present(b)
  {
    if a != [] {
      PresentAppend(a[1..], b);
      assert (a + b)[1..] == a[1..] + b;
    } else {
      assert a + b == b;
    }
  }

  /** The de-duplicated list has the same elements and no repetitions. */
  lemma {:induction false} DistinctMembers<T>(s: seq<T>)
    ensures forall x :: x in Distinct(s) <==> x in s
    ensures NoDups(Distinct(s))
  {
    if s != [] {
      var front := s[..|s| - 1];
      DistinctMembers(front);
      assert s == front + [s[|s| - 1]];
    }
  }

  /** On a list without repetitions de-duplication changes nothing. */
  lemma {:induction false} DistinctOfNoDups<T>(s: seq<T>)
    requires NoDups(s)
    ensures Distinct(s) == s
  {
    if s != [] {
      var front := s[..|s| - 1];
      assert NoDups(front);
      DistinctOfNoDups(front);
      assert s == front + [s[|s| - 1]];
    }
  }

  lemma DistinctSnoc<T>(s: seq<T>, x: T)
    ensures Distinct(s + [x]) == if x in s then Distinct(s) else Distinct(s) + [x]
  {
    assert (s + [x])[..|s|] == s;
  }

  /** Appending never disturbs what was already kept: the de-duplicated
      prefix is a prefix of the de-duplicated whole. */
  lemma {:induction false} DistinctAppend<T>(a: seq<T>, b: seq<T>)
    ensures Distinct(a) <= Distinct(a + b)
  {
    if b == [] {
      assert a + b == a;
    } else {
      var b' := b[..|b| - 1];
      DistinctAppend(a, b');
      assert a + b == (a + b') + [b[|b| - 1]];
      DistinctSnoc(a + b', b[|b| - 1]);
    }
  }

  /** Re-de-duplicating is the same as de-duplicating the whole history:
      `Distinct(Distinct(a) + b) == Distinct(a + b)`. */
  lemma {:induction false} DistinctIdempotentPrefix<T>(a: seq<T>, b: seq<T>)
    ensures Distinct(Distinct(a) + b) == Distinct(a + b)
  {
    if b == [] {
      assert Distinct(a) + b == Distinct(a);
      assert a + b == a;
      DistinctMembers(a);
      DistinctOfNoDups(Distinct(a));
    } else {
      var b' := b[..|b| - 1];
      var x := b[|b| - 1];
      DistinctIdempotentPrefix(a, b');
      assert Distinct(a) + b == (Distinct(a) + b') + [x];
      assert a + b == (a + b') + [x];
      DistinctSnoc(Distinct(a) + b', x);
      DistinctSnoc(a + b', x);
      DistinctMembers(a);
    }
  }

  /** Removing repetitions after one more element, then after the rest,
      is removing them once from the whole. */
  lemma DistinctThrough<T>(a: seq<T>, x: T, rest: seq<T>)
    ensures Distinct(Distinct(a + [x]) + rest) == Distinct(a + ([x] + rest))
  {
    assert (a + [x]) + rest == a + ([x] + rest);
    DistinctIdempotentPrefix(a + [x], rest);
  }

  /** The recursive definition agrees with the source's `indexOf` filter. */
  lemma DistinctIsIndexOfFilter<T>(s: seq<T>)
    ensures Distinct(s) == KeepFirstFrom(s, 0)
  {
    KeepFirstSplit(s, |s|);
    assert s[..|s|] == s;
  }

  /** The element at index `n` is kept by the `indexOf` filter exactly when it
      does not occur before `n`. */
  lemma KeptAt<T>(s: seq<T>, n: nat)
    requires n < |s|
    ensures IndexOf(s, s[n]) == n <==> s[n] !in s[..n]
  {
    var x := s[n];
    var k := IndexOf(s, x);
    assert forall i :: 0 <= i < k ==> s[i] != x by {
      forall i | 0 <= i < k ensures s[i] != x { assert s[..k][i] == s[i]; }
    }
    assert x in s[..n] <==> exists i :: 0 <= i < n && s[i] == x by {
      if x in s[..n] {
        var i :| 0 <= i < n && s[..n][i] == x;
        assert s[i] == x;
      }
      if exists i :: 0 <= i < n && s[i] == x {
        var i :| 0 <= i < n && s[i] == x;
        assert s[..n][i] == x;
      }
    }
  }

  lemma {:induction false} KeepFirstSplit<T>(s: seq<T>, n: nat)
    requires n <= |s|
    ensures KeepFirstFrom(s, 0) == Distinct(s[..n]) + KeepFirstFrom(s, n)
    decreases n
  {
    if n > 0 {
      KeepFirstSplit(s, n - 1);
      var x := s[n - 1];
      assert s[..n] == s[..n - 1] + [x];
      DistinctSnoc(s[..n - 1], x);
      KeptAt(s, n - 1);
      var kept := if IndexOf(s, x) == n - 1 then [x] else [];
      assert KeepFirstFrom(s, n - 1) == kept + KeepFirstFrom(s, n);
      assert Distinct(s[..n]) == Distinct(s[..n - 1]) + kept;
      assert Distinct(s[..n - 1]) + (kept + KeepFirstFrom(s, n)) == (Distinct(s[..n - 1]) + kept) + KeepFirstFrom(s, n);
    } else {
      assert s[..0] == [];
    }
  }
}
