/** The string functions of the Go library that the parsers are built from. */
module Text {
  /** strings.Index of one character, with |s| for "not there". */
  function Find(s: string, c: char): (i: nat)
    ensures i <= |s| && (i < |s| ==> s[i] == c)
  {
    if s == [] || s[0] == c then 0 else 1 + Find(s[1..], c)
  }

  /** strings.LastIndex of one character, with -1 for "not there". */
  function FindLast(s: string, c: char): (i: int)
    ensures -1 <= i < |s| && (i >= 0 ==> s[i] == c)
  {
    if s == [] then -1 else if s[|s| - 1] == c then |s| - 1 else FindLast(s[..|s| - 1], c)
  }

  function TrimPrefix(s: string, prefix: string): (r: string)
    ensures |r| == if prefix <= s then |s| - |prefix| else |s|
  {
    if prefix <= s then s[|prefix|..] else s
  }

  lemma {:induction false} FindFirst(s: string, c: char)
    ensures c !in s[..Find(s, c)]
  {
    if s != [] && s[0] != c {
      FindFirst(s[1..], c);
      assert s[..Find(s, c)] == [s[0]] + s[1..][..Find(s[1..], c)];
    }
  }

  lemma {:induction false} FindLastIsLast(s: string, c: char)
    ensures forall i | FindLast(s, c) < i < |s| :: s[i] != c
  {
    if s != [] && s[|s| - 1] != c {
      var front := s[..|s| - 1];
      FindLastIsLast(front, c);
      assert forall i | 0 <= i < |front| :: s[i] == front[i];
    }
  }

  lemma NotAfter(s: string, c: char, from: nat)
    requires from <= |s| && forall i | from <= i < |s| :: s[i] != c
    ensures c !in s[from..]
  {
  }

  lemma {:induction false} FindIn(a: string, c: char, b: string)
    requires c !in a
    ensures Find(a + [c] + b, c) == |a|
    ensures (a + [c] + b)[..|a|] == a && (a + [c] + b)[|a| + 1..] == b
  {
    if a != [] {
      FindIn(a[1..], c, b);
      assert (a + [c] + b)[1..] == a[1..] + [c] + b;
    }
  }

  lemma {:induction false} FindLastIn(a: string, c: char, b: string)
    requires c !in b
    ensures FindLast(a + [c] + b, c) == |a|
    ensures (a + [c] + b)[..|a|] == a && (a + [c] + b)[|a| + 1..] == b
  {
    if b != [] {
      FindLastIn(a, c, b[..|b| - 1]);
      assert (a + [c] + b)[..|a| + |b|] == a + [c] + b[..|b| - 1];
    }
  }

  lemma {:induction false} FindNone(s: string, c: char)
    ensures Find(s, c) == |s| <==> c !in s
  {
    FindFirst(s, c);
    assert s[..|s|] == s;
  }

  lemma FindLastNone(s: string, c: char)
    ensures FindLast(s, c) == -1 <==> c !in s
  {
    FindLastIsLast(s, c);
  }

  /** s cut at its first c, the separator left out. */
  lemma CutAt(s: string, c: char)
    requires c in s
    ensures Find(s, c) < |s| && c !in s[..Find(s, c)] && s == s[..Find(s, c)] + [c] + s[Find(s, c) + 1..]
  {
    FindNone(s, c);
    FindFirst(s, c);
  }

  lemma PrefixIsHead(s: string, c: char, head: string, first: string, rest: string)
    requires c !in head && c !in first && s == first + [c] + rest
    ensures head + [c] <= s <==> head == first
    ensures TrimPrefix(s, head + [c]) == if head == first then rest else s
  {
    FindIn(first, c, rest);
    if head + [c] <= s {
      assert s == head + [c] + s[|head| + 1..];
      FindIn(head, c, s[|head| + 1..]);
    }
  }

  lemma ShorterPrefix(a: string, b: string, s: string)
    ensures a + b <= s ==> a <= s
  {
    if a + b <= s { assert s[..|a|] == (a + b)[..|a|] == a; }
  }

  lemma LongerPrefix(a: string, b: string, s: string)
    ensures a + b <= a + s <==> b <= s
  {
    assert (a + s)[|a|..] == s;
    if a + b <= a + s { assert b == (a + b)[|a|..] == (a + s)[..|a| + |b|][|a|..]; }
  }

  // ---- Trimming ------------------------------------------------------------------------------------------

  /** unicode.IsSpace. */
  predicate IsSpace(c: char) {
    || '\t' <= c <= '\r' || c == ' ' || c == '\U{85}' || c == '\U{A0}' || c == '\U{1680}'
    || '\U{2000}' <= c <= '\U{200A}' || c == '\U{2028}' || c == '\U{2029}' || c == '\U{202F}'
    || c == '\U{205F}' || c == '\U{3000}'
  }

  function TrimLeft(s: string, cut: char -> bool): string {
    if s != [] && cut(s[0]) then TrimLeft(s[1..], cut) else s
  }

  function TrimRight(s: string, cut: char -> bool): string {
    if s != [] && cut(s[|s| - 1]) then TrimRight(s[..|s| - 1], cut) else s
  }

  function Trim(s: string, cut: char -> bool): string { TrimRight(TrimLeft(s, cut), cut) }

  function TrimSpace(s: string): string { Trim(s, IsSpace) }

  predicate All(s: string, p: char -> bool) { forall i | 0 <= i < |s| :: p(s[i]) }

  /** Nothing to trim at either end. */
  predicate Trimmed(s: string, cut: char -> bool) { s == [] || (!cut(s[0]) && !cut(s[|s| - 1])) }

  lemma {:induction false} TrimLeftPadded(pad: string, s: string, cut: char -> bool)
    requires All(pad, cut) && (s == [] || !cut(s[0]))
    ensures TrimLeft(pad + s, cut) == s
  {
    if pad == [] {
      assert pad + s == s;
    } else {
      assert (pad + s)[1..] == pad[1..] + s;
      TrimLeftPadded(pad[1..], s, cut);
    }
  }

  lemma {:induction false} TrimRightPadded(s: string, pad: string, cut: char -> bool)
    requires All(pad, cut) && (s == [] || !cut(s[|s| - 1]))
    ensures TrimRight(s + pad, cut) == s
  {
    if pad == [] {
      assert s + pad == s;
    } else {
      assert (s + pad)[..|s| + |pad| - 1] == s + pad[..|pad| - 1];
      TrimRightPadded(s, pad[..|pad| - 1], cut);
    }
  }

  lemma TrimPadded(before: string, s: string, after: string, cut: char -> bool)
    requires All(before, cut) && All(after, cut) && Trimmed(s, cut)
    ensures Trim(before + s + after, cut) == s
  {
    if s == [] {
      assert before + s + after == (before + after) + [];
      TrimLeftPadded(before + after, [], cut);
    } else {
      assert before + s + after == before + (s + after);
      TrimLeftPadded(before, s + after, cut);
      TrimRightPadded(s, after, cut);
    }
  }
}
