/** Bearer challenges: the WWW-Authenticate header split at its unquoted commas and read as a map
    (section 11.2 of RFC 9110, section 3 of RFC 6750). */
module Challenge {
  import opened Text

  /** The splitter's variables: finished parts, the part being built, and whether a quote is open. */
  datatype Scan = Scan(parts: seq<string>, cur: string, inQuote: bool)

  function Next(s: Scan, c: char): Scan {
    if c == '"' then Scan(s.parts, s.cur + [c], !s.inQuote)
    else if c == ',' && !s.inQuote then Scan(s.parts + [s.cur], "", false)
    else Scan(s.parts, s.cur + [c], s.inQuote)
  }

  function Read(from: Scan, s: string): Scan {
    if s == [] then from else Next(Read(from, s[..|s| - 1]), s[|s| - 1])
  }

  /** The part being built counts only if it is not empty. */
  function Finish(s: Scan): seq<string> { if |s.cur| > 0 then s.parts + [s.cur] else s.parts }

  const EMPTY := Scan([], "", false)

  function Split(s: string): seq<string> { Finish(Read(EMPTY, s)) }

  method SplitChallenge(s: string) returns (parts: seq<string>)
    ensures parts == Split(s)
  {
    parts := [];
    var cur := "";
    var inQuote := false;
    for i := 0 to |s|
      invariant Scan(parts, cur, inQuote) == Read(EMPTY, s[..i])
    {
      assert s[..i + 1][..i] == s[..i];
      var r := s[i];
      if r == '"' {
        inQuote := !inQuote;
        cur := cur + [r];
      } else if r == ',' && !inQuote {
        parts := parts + [cur];
        cur := "";
      } else {
        cur := cur + [r];
      }
    }
    assert s[..|s|] == s;
    if |cur| > 0 { parts := parts + [cur]; }
  }

  predicate IsQuote(c: char) { c == '"' }

  /** out[TrimSpace(key)] = Trim(TrimSpace(value), `"`); a part without "=" is skipped. */
  function Assign(out: map<string, string>, part: string): map<string, string> {
    var eq := Find(part, '=');
    if eq == |part| then out
    else out[TrimSpace(part[..eq]) := Trim(TrimSpace(part[eq + 1..]), IsQuote)]
  }

  function AssignAll(parts: seq<string>): map<string, string> {
    if parts == [] then map[] else Assign(AssignAll(parts[..|parts| - 1]), parts[|parts| - 1])
  }

  function Lower(c: char): char { if 'A' <= c <= 'Z' then (c as int + 32) as char else c }

  predicate HasScheme(header: string) {
    |header| >= 7 && forall i | 0 <= i < 7 :: Lower(header[i]) == "bearer "[i]
  }

  function Parsed(header: string): map<string, string> {
    var h := TrimSpace(header);
    if HasScheme(h) then AssignAll(Split(h[7..])) else map[]
  }

  method ParseChallenge(header: string) returns (out: map<string, string>)
    ensures out == Parsed(header)
  {
    hide TrimSpace, Trim, Find, Split;
    out := map[];
    var h := TrimSpace(header);
    if !HasScheme(h) { return; }
    var parts := SplitChallenge(h[7..]);
    for i := 0 to |parts|
      invariant out == AssignAll(parts[..i])
    {
      assert parts[..i + 1][..i] == parts[..i];
      var eq := Find(parts[i], '=');
      if eq == |parts[i]| { continue; }
      out := out[TrimSpace(parts[i][..eq]) := Trim(TrimSpace(parts[i][eq + 1..]), IsQuote)];
    }
    assert parts[..|parts|] == parts;
  }

  // ---- Splitting loses nothing ---------------------------------------------------------------------------

  /** s has an odd number of quotes: it leaves one open. */
  predicate Odd(s: string) {
    s != [] && Odd(s[..|s| - 1]) != (s[|s| - 1] == '"')
  }

  function Join(parts: seq<string>): string {
    if parts == [] then ""
    else if |parts| == 1 then parts[0]
    else Join(parts[..|parts| - 1]) + "," + parts[|parts| - 1]
  }

  predicate EndsInSeparator(s: string) {
    s != [] && s[|s| - 1] == ',' && !Odd(s[..|s| - 1])
  }

  lemma OddSnoc(s: string, c: char)
    ensures Odd(s + [c]) <==> Odd(s) != (c == '"')
  {
    assert (s + [c])[..|s|] == s;
  }

  /** What stands before the part being built. */
  function Head(parts: seq<string>): string { if parts == [] then "" else Join(parts) + "," }

  lemma JoinSnoc(parts: seq<string>, p: string)
    ensures Join(parts + [p]) == Head(parts) + p
  {
    assert (parts + [p])[..|parts|] == parts;
    assert "" + p == p;
  }

  /** While reading: what was read is the parts and the rest, joined. */
  ghost predicate Joins(st: Scan, s: string) { Join(st.parts + [st.cur]) == s }

  /** A quote is open exactly when the quotes so far are odd; those of the finished parts are in pairs. */
  ghost predicate CountsQuotes(st: Scan, s: string) {
    st.inQuote == Odd(s) == Odd(st.cur)
  }

  lemma NextJoins(st: Scan, c: char)
    ensures Join(Next(st, c).parts + [Next(st, c).cur]) == Join(st.parts + [st.cur]) + [c]
  {
    hide Join;
    JoinSnoc(st.parts, st.cur);
    if c == ',' && !st.inQuote {
      JoinSnoc(st.parts + [st.cur], "");
    } else {
      JoinSnoc(st.parts, st.cur + [c]);
      assert Head(st.parts) + (st.cur + [c]) == Head(st.parts) + st.cur + [c];
    }
  }

  lemma NextCountsQuotes(st: Scan, s: string, c: char)
    requires CountsQuotes(st, s)
    ensures CountsQuotes(Next(st, c), s + [c])
  {
    OddSnoc(s, c);
    OddSnoc(st.cur, c);
  }

  lemma {:induction false} ReadIsFaithful(s: string)
    ensures Joins(Read(EMPTY, s), s) && CountsQuotes(Read(EMPTY, s), s)
  {
    if s != [] {
      var front, c := s[..|s| - 1], s[|s| - 1];
      ReadIsFaithful(front);
      NextJoins(Read(EMPTY, front), c);
      NextCountsQuotes(Read(EMPTY, front), front, c);
      assert s == front + [c];
    }
  }

  /** Joining the parts with commas restores the string, but for one separator at its very end. */
  lemma JoinUndoesSplit(s: string)
    ensures Join(Split(s)) == if EndsInSeparator(s) then s[..|s| - 1] else s
  {
    var st := Read(EMPTY, s);
    ReadIsFaithful(s);
    if s == [] { return; }
    ReadIsFaithful(s[..|s| - 1]);
    if st.cur == "" {
      JoinSnoc(st.parts, "");
      assert Next(Read(EMPTY, s[..|s| - 1]), s[|s| - 1]) == st;
      assert Join(st.parts) + "," + "" == s;
      assert s[..|s| - 1] == Join(st.parts);
    }
  }

  /** Every comma in p stands after an odd number of quotes of p itself. */
  ghost predicate CommasQuoted(p: string) {
    forall i | 0 <= i < |p| && p[i] == ',' :: Odd(p[..i])
  }

  lemma CommasQuotedSnoc(p: string, c: char)
    requires CommasQuoted(p) && (c == ',' ==> Odd(p))
    ensures CommasQuoted(p + [c])
  {
    forall i | 0 <= i < |p| + 1 && (p + [c])[i] == ',' ensures Odd((p + [c])[..i]) {
      assert (p + [c])[..i] == p[..i];
      assert p[..|p|] == p;
    }
  }

  lemma {:induction false} ReadQuotesCommas(s: string)
    ensures var st := Read(EMPTY, s);
            CommasQuoted(st.cur) && forall k | 0 <= k < |st.parts| :: CommasQuoted(st.parts[k])
  {
    if s != [] {
      var st, c := Read(EMPTY, s[..|s| - 1]), s[|s| - 1];
      ReadQuotesCommas(s[..|s| - 1]);
      ReadIsFaithful(s[..|s| - 1]);
      if !(c == ',' && !st.inQuote) { CommasQuotedSnoc(st.cur, c); }
    }
  }

  /** No part has a comma outside its own quotes. */
  lemma PartsAreWhole(s: string, k: nat)
    requires k < |Split(s)|
    ensures CommasQuoted(Split(s)[k])
  {
    ReadQuotesCommas(s);
  }

  // ---- Printing and parsing ------------------------------------------------------------------------------

  /** One auth-param: bad whitespace may surround the name and the value, which is a token or quoted. */
  datatype Param = Param(key: string, value: string, quoted: bool, pads: (string, string, string, string))

  predicate KeyChar(c: char) { c != '=' && c != ',' && c != '"' }

  predicate NoQuote(c: char) { c != '"' }

  predicate Plain(c: char) { c != '"' && c != ',' }

  predicate Printable(p: Param) {
    && All(p.key, KeyChar) && Trimmed(p.key, IsSpace)
    && (if p.quoted then All(p.value, NoQuote) else All(p.value, Plain) && Trimmed(p.value, IsSpace))
    && All(p.pads.0, IsSpace) && All(p.pads.1, IsSpace) && All(p.pads.2, IsSpace) && All(p.pads.3, IsSpace)
  }

  function ValueText(p: Param): string { if p.quoted then "\"" + p.value + "\"" else p.value }

  function KeyText(p: Param): string { p.pads.0 + p.key + p.pads.1 }

  function Print(p: Param): string {
    KeyText(p) + "=" + (p.pads.2 + ValueText(p) + p.pads.3)
  }

  function PrintAll(ps: seq<Param>): seq<string> {
    seq(|ps|, i requires 0 <= i < |ps| => Print(ps[i]))
  }

  /** Later parameters replace earlier ones of the same name; distinct names all stay. */
  function MapOf(ps: seq<Param>): map<string, string> {
    if ps == [] then map[] else MapOf(ps[..|ps| - 1])[ps[|ps| - 1].key := ps[|ps| - 1].value]
  }

  lemma {:induction false} ReadMore(from: Scan, s: string, t: string)
    ensures Read(from, s + t) == Read(Read(from, s), t)
  {
    if t == [] {
      assert s + t == s;
    } else {
      ReadMore(from, s, t[..|t| - 1]);
      assert (s + t)[..|s| + |t| - 1] == s + t[..|t| - 1];
    }
  }

  /** Plain text, and inside quotes commas too, goes to the part being built. */
  lemma {:induction false} ReadText(from: Scan, s: string)
    requires All(s, if from.inQuote then NoQuote else Plain)
    ensures Read(from, s) == from.(cur := from.cur + s)
  {
    if s == [] {
      assert from.cur + s == from.cur;
    } else {
      ReadText(from, s[..|s| - 1]);
      assert from.cur + s[..|s| - 1] + [s[|s| - 1]] == from.cur + s;
    }
  }

  lemma ReadQuoted(from: Scan, v: string)
    requires !from.inQuote && All(v, NoQuote)
    ensures Read(from, "\"" + v + "\"") == from.(cur := from.cur + ("\"" + v + "\""))
  {
    hide Read;
    var inside := from.(cur := from.cur + "\"", inQuote := true);
    ReadMore(from, "\"" + v, "\"");
    ReadMore(from, "\"", v);
    ReadOne(from, '"');
    ReadText(inside, v);
    ReadOne(inside.(cur := inside.cur + v), '"');
    assert from.cur + "\"" + v + "\"" == from.cur + ("\"" + v + "\"");
  }

  lemma SpacesArePlain(s: string)
    requires All(s, IsSpace)
    ensures All(s, Plain)
  {
  }

  lemma ReadValue(from: Scan, p: Param)
    requires Printable(p) && !from.inQuote
    ensures Read(from, ValueText(p)) == from.(cur := from.cur + ValueText(p))
  {
    if p.quoted { ReadQuoted(from, p.value); } else { ReadText(from, p.value); }
  }

  lemma ReadPrinted(from: Scan, p: Param)
    requires Printable(p) && from.cur == "" && !from.inQuote
    ensures Read(from, Print(p)) == from.(cur := Print(p))
  {
    hide Read;
    var head, value, tail := KeyText(p) + "=" + p.pads.2, ValueText(p), p.pads.3;
    assert Print(p) == head + value + tail;
    assert Read(from, head) == from.(cur := head) by {
      assert All(head, Plain);
      ReadText(from, head);
      assert "" + head == head;
    }
    assert Read(from, head + value) == from.(cur := head + value) by {
      ReadMore(from, head, value);
      ReadValue(from.(cur := head), p);
    }
    ReadMore(from, head + value, tail);
    SpacesArePlain(tail);
    ReadText(from.(cur := head + value), tail);
  }

  lemma ReadOne(from: Scan, c: char)
    ensures Read(from, [c]) == Next(from, c)
  {
    assert [c][..0] == [];
  }

  lemma PrintAllSnoc(ps: seq<Param>)
    requires ps != []
    ensures PrintAll(ps) == PrintAll(ps[..|ps| - 1]) + [Print(ps[|ps| - 1])]
  {
  }

  /** A finished parameter, a comma, and the next parameter. */
  lemma ReadNextPrinted(parts: seq<string>, body: string, cur: string, p: Param)
    requires Printable(p) && Read(EMPTY, body) == Scan(parts, cur, false)
    ensures Read(EMPTY, body + "," + Print(p)) == Scan(parts + [cur], Print(p), false)
  {
    ReadMore(EMPTY, body + ",", Print(p));
    ReadMore(EMPTY, body, ",");
    ReadOne(Scan(parts, cur, false), ',');
    ReadPrinted(Scan(parts + [cur], "", false), p);
  }

  lemma {:induction false} ReadAllPrinted(ps: seq<Param>)
    requires ps != [] && forall p | p in ps :: Printable(p)
    ensures Read(EMPTY, Join(PrintAll(ps))) ==
            Scan(PrintAll(ps[..|ps| - 1]), Print(ps[|ps| - 1]), false)
  {
    var front, last := ps[..|ps| - 1], ps[|ps| - 1];
    PrintAllSnoc(ps);
    JoinSnoc(PrintAll(front), Print(last));
    if front == [] {
      assert "" + Print(last) == Print(last);
      ReadPrinted(EMPTY, last);
    } else {
      ReadAllPrinted(front);
      PrintAllSnoc(front);
      ReadNextPrinted(PrintAll(front[..|front| - 1]), Join(PrintAll(front)), Print(front[|front| - 1]), last);
    }
  }

  lemma ValueIsRead(p: Param)
    requires Printable(p)
    ensures Trim(TrimSpace(p.pads.2 + ValueText(p) + p.pads.3), IsQuote) == p.value
  {
    TrimPadded(p.pads.2, ValueText(p), p.pads.3, IsSpace);
    if p.quoted {
      TrimPadded("\"", p.value, "\"", IsQuote);
    } else {
      assert "" + p.value + "" == p.value;
      TrimPadded("", p.value, "", IsQuote);
    }
  }

  lemma AssignPrinted(out: map<string, string>, p: Param)
    requires Printable(p)
    ensures Assign(out, Print(p)) == out[p.key := p.value]
  {
    assert '=' !in KeyText(p);
    FindIn(KeyText(p), '=', p.pads.2 + ValueText(p) + p.pads.3);
    TrimPadded(p.pads.0, p.key, p.pads.1, IsSpace);
    ValueIsRead(p);
  }

  lemma {:induction false} AssignAllPrinted(ps: seq<Param>)
    requires forall p | p in ps :: Printable(p)
    ensures AssignAll(PrintAll(ps)) == MapOf(ps)
  {
    if ps != [] {
      var front, last := ps[..|ps| - 1], ps[|ps| - 1];
      AssignAllPrinted(front);
      AssignPrinted(MapOf(front), last);
      assert PrintAll(ps)[..|ps| - 1] == PrintAll(front);
    }
  }

  predicate IsScheme(scheme: string) {
    |scheme| == 6 && forall i | 0 <= i < 6 :: Lower(scheme[i]) == "bearer"[i]
  }

  /** White space at the very end of the header is not the last parameter's. */
  predicate EndsTight(p: Param) { p.pads.3 == "" && (ValueText(p) == "" ==> p.pads.2 == "") }

  lemma PrintEnds(p: Param)
    requires Printable(p) && EndsTight(p)
    ensures Print(p) != "" && !IsSpace(Print(p)[|Print(p)| - 1])
  {
    var v := ValueText(p);
    assert Print(p)[|Print(p)| - 1] == if v == "" then '=' else v[|v| - 1];
  }

  lemma SchemeIsRead(scheme: string, body: string)
    requires IsScheme(scheme)
    ensures HasScheme(scheme + " " + body) && (scheme + " " + body)[7..] == body && !IsSpace(scheme[0])
  {
    assert "bearer " == "bearer" + " ";
    assert Lower(scheme[0]) == 'b';
  }

  lemma BodyIsTrimmed(scheme: string, ps: seq<Param>)
    requires IsScheme(scheme) && ps != [] && Printable(ps[|ps| - 1]) && EndsTight(ps[|ps| - 1])
    ensures Trimmed(scheme + " " + Join(PrintAll(ps)), IsSpace)
  {
    hide Join, Print;
    var last, front := ps[|ps| - 1], PrintAll(ps[..|ps| - 1]);
    assert PrintAll(ps) == front + [Print(last)];
    JoinSnoc(front, Print(last));
    PrintEnds(last);
    SchemeIsRead(scheme, Join(PrintAll(ps)));
    var h := scheme + " " + Join(PrintAll(ps));
    assert h == scheme + " " + Head(front) + Print(last);
    assert h[|h| - 1] == Print(last)[|Print(last)| - 1];
  }

  lemma PrintedSplits(ps: seq<Param>)
    requires forall p | p in ps :: Printable(p)
    ensures ps != [] ==> Split(Join(PrintAll(ps))) == PrintAll(ps)
  {
    if ps != [] {
      ReadAllPrinted(ps);
      PrintAllSnoc(ps);
    }
  }

  lemma ParsedBody(before: string, h: string, after: string)
    requires All(before, IsSpace) && All(after, IsSpace) && Trimmed(h, IsSpace) && HasScheme(h)
    ensures Parsed(before + h + after) == AssignAll(Split(h[7..]))
  {
    TrimPadded(before, h, after, IsSpace);
  }

  /** Printing parameters in any spelling of the scheme, with any white space around, and parsing gives back
      the same map; a scheme with no parameters gives the empty one. */
  lemma {:induction false} ParsePrints(before: string, scheme: string, ps: seq<Param>, after: string)
    requires All(before, IsSpace) && All(after, IsSpace) && IsScheme(scheme)
    requires forall p | p in ps :: Printable(p)
    requires ps != [] ==> EndsTight(ps[|ps| - 1])
    ensures Parsed(before + (scheme + " " + Join(PrintAll(ps))) + after) == MapOf(ps)
  {
    var h := scheme + " " + Join(PrintAll(ps));
    if ps == [] {
      ParsePrintsNone(before, scheme, after);
      assert h == scheme + " ";
    } else {
      ParsePrintsSome(before, scheme, ps, after);
    }
  }

  lemma ParsePrintsNone(before: string, scheme: string, after: string)
    requires All(before, IsSpace) && All(after, IsSpace) && IsScheme(scheme)
    ensures Parsed(before + (scheme + " ") + after) == map[]
  {
    assert before + (scheme + " ") + after == before + scheme + (" " + after);
    assert Lower(scheme[0]) == 'b' && Lower(scheme[5]) == 'r';
    TrimPadded(before, scheme, " " + after, IsSpace);
  }

  lemma {:induction false} ParsePrintsSome(before: string, scheme: string, ps: seq<Param>, after: string)
    requires All(before, IsSpace) && All(after, IsSpace) && IsScheme(scheme)
    requires ps != [] && (forall p | p in ps :: Printable(p)) && EndsTight(ps[|ps| - 1])
    ensures Parsed(before + (scheme + " " + Join(PrintAll(ps))) + after) == MapOf(ps)
  {
    BodyIsTrimmed(scheme, ps);
    SchemeIsRead(scheme, Join(PrintAll(ps)));
    ParsedBody(before, scheme + " " + Join(PrintAll(ps)), after);
    PrintedSplits(ps);
    AssignAllPrinted(ps);
  }
}
