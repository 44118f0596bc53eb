/** Docker's multiplexed log stream: frames of an eight-byte header and a payload of lines. */
module LogStream {
  import opened Common

  type byte = x: int | 0 <= x < 256

  const NEWLINE: byte := 10
  const MAX_FRAME := 4 * 1024 * 1024

  datatype Stream = Stdout | Stderr

  /** One raw line, timestamp included, and where it was written. */
  datatype Line = Line(raw: seq<byte>, stream: Stream)

  datatype ReadError = EOF | UnexpectedEOF | Broken

  datatype LogError = Unread(error: ReadError) | TooLarge(size: nat)

  datatype Parsed = Parsed(lines: seq<Line>, error: Option<LogError>)

  /** What is left to read; a broken connection fails where another would end. */
  class Reader {
    var rest: seq<byte>
    const broken: bool

    constructor (bytes: seq<byte>, broken: bool)
      ensures rest == bytes && this.broken == broken
    {
      rest, this.broken := bytes, broken;
    }

    /** io.ReadFull with a buffer of n bytes. */
    method ReadFull(n: nat) returns (data: seq<byte>, error: Option<ReadError>)
      modifies this
      ensures if n <= |old(rest)| then data == old(rest)[..n] && rest == old(rest)[n..] && error == None
              else rest == [] && error == Some(ShortRead(|old(rest)|, broken))
    {
      if n <= |rest| {
        data, error := rest[..n], None;
        rest := rest[n..];
      } else {
        data, error := rest, Some(ShortRead(|rest|, broken));
        rest := [];
      }
    }
  }

  function ShortRead(got: nat, broken: bool): ReadError {
    if broken then Broken else if got == 0 then EOF else UnexpectedEOF
  }

  function StreamOf(first: byte): Stream { if first == 2 then Stderr else Stdout }

  /** binary.BigEndian.Uint32(header[4:8]). */
  function SizeOf(header: seq<byte>): nat
    requires |header| == 8
  {
    var (a: int, b: int, c: int, d: int) := (header[4], header[5], header[6], header[7]);
    ((a * 256 + b) * 256 + c) * 256 + d
  }

  /** strings.Split(s, "\n"): one more piece than there are newlines. */
  function Split(s: seq<byte>): (r: seq<seq<byte>>)
    ensures |r| > 0
  {
    if s == [] then [[]]
    else
      var front := Split(s[..|s| - 1]);
      if s[|s| - 1] == NEWLINE then front + [[]] else Grow(front, [s[|s| - 1]])
  }

  /** The last piece made longer. */
  function Grow(chunks: seq<seq<byte>>, l: seq<byte>): (r: seq<seq<byte>>)
    requires |chunks| > 0
    ensures |r| > 0
  {
    chunks[|chunks| - 1 := chunks[|chunks| - 1] + l]
  }

  function TrimNewlines(s: seq<byte>): seq<byte> {
    if s != [] && s[|s| - 1] == NEWLINE then TrimNewlines(s[..|s| - 1]) else s
  }

  function NonEmpty(chunks: seq<seq<byte>>, stream: Stream): seq<Line> {
    if chunks == [] then []
    else
      var front := NonEmpty(chunks[..|chunks| - 1], stream);
      if chunks[|chunks| - 1] == [] then front else front + [Line(chunks[|chunks| - 1], stream)]
  }

  function PayloadLines(payload: seq<byte>, stream: Stream): seq<Line> {
    NonEmpty(Split(TrimNewlines(payload)), stream)
  }

  /** What is parsed after some lines. */
  function After(lines: seq<Line>, p: Parsed): Parsed { Parsed(lines + p.lines, p.error) }

  lemma AfterBoth(a: seq<Line>, b: seq<Line>, p: Parsed)
    ensures After(a, After(b, p)) == After(a + b, p)
    ensures After([], p) == p && After(a, Parsed([], p.error)) == Parsed(a, p.error)
  {
    assert a + (b + p.lines) == a + b + p.lines;
    assert [] + p.lines == p.lines;
    assert a + [] == a;
  }

  /** The stream's meaning, frame by frame. */
  function Parse(bytes: seq<byte>, broken: bool): Parsed
    decreases |bytes|
  {
    if |bytes| < 8 then Parsed([], if broken then Some(Unread(Broken)) else None)
    else
      var size := SizeOf(bytes[..8]);
      if size > MAX_FRAME then Parsed([], Some(TooLarge(size)))
      else if |bytes| - 8 < size then Parsed([], Some(Unread(ShortRead(|bytes| - 8, broken))))
      else
        After(PayloadLines(bytes[8..8 + size], StreamOf(bytes[0])), Parse(bytes[8 + size..], broken))
  }

  method AppendLines(lines: seq<Line>, payload: seq<byte>, stream: Stream) returns (r: seq<Line>)
    ensures r == lines + PayloadLines(payload, stream)
  {
    r := lines;
    var chunks := Split(TrimNewlines(payload));
    for i := 0 to |chunks|
      invariant r == lines + NonEmpty(chunks[..i], stream)
    {
      assert chunks[..i + 1][..i] == chunks[..i];
      if chunks[i] == [] { continue; }
      r := r + [Line(chunks[i], stream)];
    }
    assert chunks[..|chunks|] == chunks;
  }

  /** One turn of the loop: a whole frame, or the end with its error. */
  datatype Turn = Frame(stream: Stream, payload: seq<byte>) | Stop(error: Option<LogError>)

  method ReadFrame(r: Reader) returns (turn: Turn)
    modifies r
    ensures turn.Stop? ==> Parse(old(r.rest), r.broken) == Parsed([], turn.error)
    ensures turn.Frame? ==> |r.rest| < |old(r.rest)|
    ensures turn.Frame? ==>
              Parse(old(r.rest), r.broken) == After(PayloadLines(turn.payload, turn.stream), Parse(r.rest, r.broken))
  {
    var header, failed := r.ReadFull(8);
    if failed.Some? {
      if failed.value == EOF || failed.value == UnexpectedEOF { return Stop(None); }
      return Stop(Some(Unread(failed.value)));
    }
    var size := SizeOf(header);
    if size > MAX_FRAME { return Stop(Some(TooLarge(size))); }
    var payload;
    payload, failed := r.ReadFull(size);
    if failed.Some? { return Stop(Some(Unread(failed.value))); }
    assert payload == old(r.rest)[8..8 + size] && r.rest == old(r.rest)[8 + size..];
    assert header[0] == old(r.rest)[0];
    return Turn.Frame(StreamOf(header[0]), payload);
  }

  method ParseMultiplexedLogs(r: Reader) returns (lines: seq<Line>, error: Option<LogError>)
    modifies r
    ensures Parsed(lines, error) == Parse(old(r.rest), r.broken)
  {
    lines := [];
    AfterBoth([], [], Parse(r.rest, r.broken));
    while true
      invariant Parse(old(r.rest), r.broken) == After(lines, Parse(r.rest, r.broken))
      decreases |r.rest|
    {
      var turn := ReadFrame(r);
      if turn.Stop? {
        AfterBoth(lines, [], Parsed([], turn.error));
        return lines, turn.error;
      }
      AfterBoth(lines, PayloadLines(turn.payload, turn.stream), Parse(r.rest, r.broken));
      lines := AppendLines(lines, turn.payload, turn.stream);
    }
  }

  // ---- Frames --------------------------------------------------------------------------------------------

  /** A frame as the daemon writes it; the three bytes after the first are not looked at. */
  datatype RawFrame = RawFrame(first: byte, spare: (byte, byte, byte), payload: seq<byte>)

  predicate Fits(f: RawFrame) { |f.payload| <= 4_194_304 }

  function BigEndian(n: nat): seq<byte>
    requires n < 0x1_0000_0000
  {
    [n / 0x100_0000, n / 0x1_0000 % 256, n / 256 % 256, n % 256]
  }

  function Header(first: byte, spare: (byte, byte, byte), size: nat): (h: seq<byte>)
    requires size < 0x1_0000_0000
    ensures |h| == 8
  {
    [first, spare.0, spare.1, spare.2] + BigEndian(size)
  }

  function Encode(f: RawFrame): seq<byte>
    requires Fits(f)
  {
    Header(f.first, f.spare, |f.payload|) + f.payload
  }

  predicate AllFit(fs: seq<RawFrame>) { forall i | 0 <= i < |fs| :: Fits(fs[i]) }

  function EncodeAll(fs: seq<RawFrame>): seq<byte>
    requires AllFit(fs)
  {
    if fs == [] then [] else Encode(fs[0]) + EncodeAll(fs[1..])
  }

  /** The lines of a frame: written to stderr if its first byte is 2, to stdout if it is any other. */
  function FrameLines(f: RawFrame): seq<Line> { PayloadLines(f.payload, if f.first == 2 then Stderr else Stdout) }

  function AllLines(fs: seq<RawFrame>): seq<Line> {
    if fs == [] then [] else FrameLines(fs[0]) + AllLines(fs[1..])
  }

  lemma Digits(n: nat)
    ensures n / 0x100_0000 * 0x100_0000 + n / 0x1_0000 % 256 * 0x1_0000 + n / 256 % 256 * 256 + n % 256 == n
  {
    var a := n / 256;
    var b := a / 256;
    assert n / 0x1_0000 == b && n / 0x100_0000 == b / 256;
  }

  lemma HeaderSize(first: byte, spare: (byte, byte, byte), size: nat)
    requires size < 0x1_0000_0000
    ensures SizeOf(Header(first, spare, size)) == size && Header(first, spare, size)[0] == first
  {
    Digits(size);
  }

  lemma {:induction false} ParseFrame(f: RawFrame, tail: seq<byte>, broken: bool)
    requires Fits(f)
    ensures Parse(Encode(f) + tail, broken) == After(FrameLines(f), Parse(tail, broken))
  {
    var bytes, n := Encode(f) + tail, |f.payload|;
    HeaderSize(f.first, f.spare, n);
    assert bytes[..8] == Header(f.first, f.spare, n);
    assert bytes[0] == bytes[..8][0];
    assert bytes[8..8 + n] == f.payload;
    assert bytes[8 + n..] == tail;
  }

  /** Whole frames contribute their lines whatever follows them, and what follows is parsed by itself. */
  lemma {:induction false} FramesThen(fs: seq<RawFrame>, tail: seq<byte>, broken: bool)
    requires AllFit(fs)
    ensures Parse(EncodeAll(fs) + tail, broken) == After(AllLines(fs), Parse(tail, broken))
  {
    var later := Parse(tail, broken);
    if fs == [] {
      assert EncodeAll(fs) + tail == tail;
      AfterBoth([], [], later);
    } else {
      FramesThen(fs[1..], tail, broken);
      ParseFrame(fs[0], EncodeAll(fs[1..]) + tail, broken);
      assert Encode(fs[0]) + (EncodeAll(fs[1..]) + tail) == EncodeAll(fs) + tail;
      AfterBoth(FrameLines(fs[0]), AllLines(fs[1..]), later);
    }
  }

  /** The stream of any frames gives exactly their lines, in order, and ends without an error. */
  lemma {:induction false} ParseUndoesEncode(fs: seq<RawFrame>)
    requires AllFit(fs)
    ensures Parse(EncodeAll(fs), false) == Parsed(AllLines(fs), None)
  {
    FramesThen(fs, [], false);
    assert EncodeAll(fs) + [] == EncodeAll(fs);
    assert AllLines(fs) + [] == AllLines(fs);
  }

  /** An oversized header ends the parse there, whatever comes after it. */
  lemma {:induction false} OversizedFrameStops(
    fs: seq<RawFrame>, first: byte, spare: (byte, byte, byte), size: nat, after: seq<byte>, broken: bool)
    requires AllFit(fs) && 4_194_304 < size < 0x1_0000_0000
    ensures Parse(EncodeAll(fs) + (Header(first, spare, size) + after), broken) ==
            Parsed(AllLines(fs), Some(TooLarge(size)))
  {
    var tail := Header(first, spare, size) + after;
    HeaderSize(first, spare, size);
    assert tail[..8] == Header(first, spare, size);
    FramesThen(fs, tail, broken);
    assert AllLines(fs) + [] == AllLines(fs);
  }

  /** The frames that lie wholly within the first k bytes. */
  function Whole(fs: seq<RawFrame>, k: nat): seq<RawFrame>
    requires AllFit(fs)
  {
    if fs == [] || |Encode(fs[0])| > k then [] else [fs[0]] + Whole(fs[1..], k - |Encode(fs[0])|)
  }

  /** What a cut after k bytes leaves of the frame it falls in. */
  function Remainder(fs: seq<RawFrame>, k: nat): nat
    requires AllFit(fs)
  {
    if fs == [] || |Encode(fs[0])| > k then k else Remainder(fs[1..], k - |Encode(fs[0])|)
  }

  /** The error of a stream that stops `got` bytes into a frame: the connection's if it broke; of a stream that ended
      none inside the header, EOF right after it and an unexpected one inside the payload. */
  function CutError(got: nat, broken: bool): Option<LogError> {
    if broken then Some(Unread(Broken))
    else if got < 8 then None
    else if got == 8 then Some(Unread(EOF)) else Some(Unread(UnexpectedEOF))
  }

  lemma {:induction false} CutFrame(f: RawFrame, k: nat, broken: bool)
    requires Fits(f) && k < |Encode(f)|
    ensures Parse(Encode(f)[..k], broken) == Parsed([], CutError(k, broken))
  {
    if k >= 8 {
      HeaderSize(f.first, f.spare, |f.payload|);
      assert Encode(f)[..k][..8] == Header(f.first, f.spare, |f.payload|);
    }
  }

  /** Cut anywhere: the lines are those of the frames wholly before the cut, and the parse fails exactly when
      the cut falls between a header's end and its payload's end, or the connection broke. */
  lemma {:induction false} TruncatedStream(fs: seq<RawFrame>, k: nat, broken: bool)
    requires AllFit(fs) && k <= |EncodeAll(fs)|
    ensures Parse(EncodeAll(fs)[..k], broken) == Parsed(AllLines(Whole(fs, k)), CutError(Remainder(fs, k), broken))
  {
    if fs == [] { return; }
    var f, later := fs[0], EncodeAll(fs[1..]);
    var n := |Encode(f)|;
    if n > k {
      CutFrame(f, k, broken);
      assert EncodeAll(fs)[..k] == Encode(f)[..k];
    } else {
      TruncatedStream(fs[1..], k - n, broken);
      ParseFrame(f, later[..k - n], broken);
      assert EncodeAll(fs)[..k] == Encode(f) + later[..k - n];
      assert Whole(fs, k)[1..] == Whole(fs[1..], k - n);
    }
  }

  /** The whole frames are a prefix of the frames, and the remainder stops short of the next one. */
  lemma {:induction false} WholeIsMaximal(fs: seq<RawFrame>, k: nat)
    requires AllFit(fs) && k <= |EncodeAll(fs)|
    ensures Whole(fs, k) <= fs && AllFit(Whole(fs, k))
    ensures |EncodeAll(Whole(fs, k))| + Remainder(fs, k) == k
    ensures |Whole(fs, k)| == |fs| ==> Remainder(fs, k) == 0
    ensures |Whole(fs, k)| < |fs| ==> Remainder(fs, k) < |Encode(fs[|Whole(fs, k)|])|
  {
    if fs != [] && |Encode(fs[0])| <= k {
      WholeIsMaximal(fs[1..], k - |Encode(fs[0])|);
      assert Whole(fs, k)[1..] == Whole(fs[1..], k - |Encode(fs[0])|);
      assert fs == [fs[0]] + fs[1..];
    }
  }

  // ---- Lines ---------------------------------------------------------------------------------------------

  lemma NonEmptySnoc(chunks: seq<seq<byte>>, c: seq<byte>, stream: Stream)
    ensures NonEmpty(chunks + [c], stream) ==
            if c == [] then NonEmpty(chunks, stream) else NonEmpty(chunks, stream) + [Line(c, stream)]
  {
    assert (chunks + [c])[..|chunks|] == chunks;
  }

  /** Trimming newlines off the end only drops empty pieces. */
  lemma {:induction false} TrimmingDropsNoLine(payload: seq<byte>, stream: Stream)
    ensures PayloadLines(payload, stream) == NonEmpty(Split(payload), stream)
  {
    if payload != [] && payload[|payload| - 1] == NEWLINE {
      TrimmingDropsNoLine(payload[..|payload| - 1], stream);
      NonEmptySnoc(Split(payload[..|payload| - 1]), [], stream);
    }
  }

  predicate IsLine(l: seq<byte>) { l != [] && NEWLINE !in l }

  /** Each line followed by a newline. */
  function Written(ls: seq<seq<byte>>): seq<byte> {
    if ls == [] then [] else Written(ls[..|ls| - 1]) + ls[|ls| - 1] + [NEWLINE]
  }

  function Tag(ls: seq<seq<byte>>, stream: Stream): seq<Line> {
    seq(|ls|, i requires 0 <= i < |ls| => Line(ls[i], stream))
  }

  lemma SplitSnoc(s: seq<byte>, c: byte)
    ensures Split(s + [c]) == if c == NEWLINE then Split(s) + [[]] else Grow(Split(s), [c])
  {
    assert (s + [c])[..|s|] == s;
  }

  lemma GrowTwice(chunks: seq<seq<byte>>, a: seq<byte>, b: seq<byte>)
    requires |chunks| > 0
    ensures Grow(Grow(chunks, a), b) == Grow(chunks, a + b) && Grow(chunks, []) == chunks
  {
    var last := chunks[|chunks| - 1];
    assert last + a + b == last + (a + b) && last + [] == last;
  }

  lemma {:induction false} SplitLonger(s: seq<byte>, l: seq<byte>)
    requires NEWLINE !in l
    ensures Split(s + l) == Grow(Split(s), l)
  {
    if l == [] {
      assert s + l == s;
      GrowTwice(Split(s), [], []);
    } else {
      hide Split, Grow;
      var front, c := l[..|l| - 1], l[|l| - 1];
      SplitLonger(s, front);
      SplitSnoc(s + front, c);
      GrowTwice(Split(s), front, [c]);
      SplitLast(l);
      Regroup(s, front, [c]);
    }
  }

  lemma {:induction false} SplitWritten(ls: seq<seq<byte>>)
    requires forall l | l in ls :: IsLine(l)
    ensures Split(Written(ls)) == ls + [[]]
  {
    if ls != [] {
      var front, l := ls[..|ls| - 1], ls[|ls| - 1];
      SplitWritten(front);
      assert l in ls && IsLine(l);
      SplitLonger(Written(front), l);
      SplitSnoc(Written(front) + l, NEWLINE);
      assert [] + l == l;
      assert Grow(front + [[]], l) == ls;
    }
  }

  lemma {:induction false} TaggedLines(ls: seq<seq<byte>>, stream: Stream)
    requires forall l | l in ls :: IsLine(l)
    ensures NonEmpty(ls, stream) == Tag(ls, stream)
  {
    if ls != [] {
      TaggedLines(ls[..|ls| - 1], stream);
      assert ls[|ls| - 1] in ls;
    }
  }

  /** A payload written line by line gives back exactly those lines, tagged with the frame's stream. */
  lemma WrittenLinesAreRead(ls: seq<seq<byte>>, stream: Stream)
    requires forall l | l in ls :: IsLine(l)
    ensures PayloadLines(Written(ls), stream) == Tag(ls, stream)
  {
    TrimmingDropsNoLine(Written(ls), stream);
    SplitWritten(ls);
    NonEmptySnoc(ls, [], stream);
    TaggedLines(ls, stream);
  }
}
