/** Small shared vocabulary: optional values, clock readings, listings of finite sets, and subsequences. */
module Common {
  datatype Option<+T> = None | Some(value: T)

  datatype Result<+T> = Ok(value: T) | Failed

  /** A clock reading in nanoseconds since 1970; Go's zero time is `None` where it can occur. */
  type Time = int

  const SECOND: int := 1_000_000_000

  /** time.Time.Unix: whole seconds, rounded down. */
  function Unix(t: Time): int { t / SECOND }

  ghost predicate NoDup<T>(s: seq<T>) {
    forall i, j :: 0 <= i < j < |s| ==> s[i] != s[j]
  }

  /** `s` visits every element of `xs` exactly once, in some order. */
  ghost predicate Lists<T>(s: seq<T>, xs: set<T>) {
    NoDup(s) && (forall x | x in s :: x in xs) && (forall x | x in xs :: x in s)
  }

  lemma SomeElement<T>(xs: set<T>) returns (x: T)
    requires xs != {}
    ensures x in xs
  {
    x :| x in xs;
  }

  /** `a` is `b` with some elements left out. */
  ghost predicate Subsequence<T>(a: seq<T>, b: seq<T>) {
    a == [] || (b != [] && (Subsequence(a, b[..|b| - 1])
      || (a[|a| - 1] == b[|b| - 1] && Subsequence(a[..|a| - 1], b[..|b| - 1]))))
  }

  lemma {:induction false} SubsequenceFront<T>(a: seq<T>, b: seq<T>)
    requires a != [] && Subsequence(a, b)
    ensures Subsequence(a[..|a| - 1], b)
  {
    if Subsequence(a, b[..|b| - 1]) {
      SubsequenceFront(a, b[..|b| - 1]);
    } else {
      SubsequenceMore(a[..|a| - 1], b[..|b| - 1], b[|b| - 1]);
      assert b == b[..|b| - 1] + [b[|b| - 1]];
    }
  }

  lemma SubsequenceMore<T>(a: seq<T>, b: seq<T>, x: T)
    requires Subsequence(a, b)
    ensures Subsequence(a, b + [x])
  {
    assert (b + [x])[..|b|] == b;
  }

  lemma SubsequenceBoth<T>(a: seq<T>, b: seq<T>, x: T)
    requires Subsequence(a, b)
    ensures Subsequence(a + [x], b + [x])
  {
    assert (a + [x])[..|a|] == a && (b + [x])[..|b|] == b;
  }

  lemma {:induction false} SubsequenceStart<T>(a: seq<T>, more: seq<T>, b: seq<T>)
    requires Subsequence(a + more, b)
    ensures Subsequence(a, b)
    decreases |more|
  {
    if more == [] {
      assert a + more == a;
    } else {
      SubsequenceFront(a + more, b);
      assert (a + more)[..|a + more| - 1] == a + more[..|more| - 1];
      SubsequenceStart(a, more[..|more| - 1], b);
    }
  }

  lemma {:induction false} ElementOfSubsequence<T>(a: seq<T>, b: seq<T>, x: T)
    requires Subsequence(a, b) && x in a
    ensures x in b
  {
    var front := b[..|b| - 1];
    if Subsequence(a, front) {
      ElementOfSubsequence(a, front, x);
    } else if x != b[|b| - 1] {
      assert x in a[..|a| - 1];
      ElementOfSubsequence(a[..|a| - 1], front, x);
    }
  }

  lemma {:induction false} SubsequenceOfSameLength<T>(a: seq<T>, b: seq<T>)
    requires Subsequence(a, b)
    ensures |a| <= |b| && (|a| == |b| ==> a == b)
  {
    if a != [] {
      if Subsequence(a, b[..|b| - 1]) {
        SubsequenceOfSameLength(a, b[..|b| - 1]);
      } else {
        SubsequenceOfSameLength(a[..|a| - 1], b[..|b| - 1]);
        assert a == a[..|a| - 1] + [a[|a| - 1]] && b == b[..|b| - 1] + [b[|b| - 1]];
      }
    }
  }

  lemma Regroup<T>(a: seq<T>, b: seq<T>, c: seq<T>)
    ensures (a + b) + c == a + (b + c)
  {}

  lemma SplitLast<T>(s: seq<T>)
    requires s != []
    ensures s == s[..|s| - 1] + [s[|s| - 1]]
  {}
}
