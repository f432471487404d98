/** Byte offsets to zero-based lines and UTF-16 columns. */
module LineCol {
  import opened Symbols
  import opened Bytes
  import opened Utf8
  import opened Lines

  datatype Position = Position(line: nat, col: nat)

  predicate Before(p: Position, q: Position) {
    p.line < q.line || (p.line == q.line && p.col < q.col)
  }

  /** The nearest boundary at or below `i`. */
  function Snap(s: seq<byte>, i: nat): (r: nat)
    requires i <= |s|
    ensures r <= i && IsBoundary(s, r)
    ensures forall j :: r < j <= i ==> !IsBoundary(s, j)
  {
    if IsBoundary(s, i) then i else Snap(s, i - 1)
  }

  /** The line text is cut at boundaries, so its UTF-16 length is defined. */
  lemma LineTextValid(s: seq<byte>, k: nat)
    requires Valid(s) && IsBoundary(s, k)
    ensures k <= |s| && IsBoundary(s, LineStart(s[..k])) && Valid(s[LineStart(s[..k])..k])
  {
    SplitAtBoundary(s, k);
    var start := LineStart(s[..k]);
    if start > 0 {
      AfterAscii(s, start - 1);
      AfterAscii(s[..k], start - 1);
    }
    SplitAtBoundary(s[..k], start);
    assert s[..k][start..] == s[start..k];
  }

  function PositionAt(s: seq<byte>, k: nat): Position
    requires Valid(s) && IsBoundary(s, k)
  {
    LineTextValid(s, k);
    Position(NewlineCount(s[..k]), Utf16Len(s[LineStart(s[..k])..k]))
  }

  function Resolved(s: seq<byte>, byteOffset: nat): Position
    requires Valid(s)
  {
    PositionAt(s, Snap(s, Clamped(s, byteOffset)))
  }

  method SnapDown(source: seq<byte>, start: nat) returns (offset: nat)
    requires start <= |source|
    ensures offset == Snap(source, start)
  {
    offset := start;
    while offset > 0 && !IsBoundary(source, offset)
      invariant offset <= |source| && Snap(source, offset) == Snap(source, start)
    {
      offset := offset - 1;
    }
  }

  /** Counts fit in 32 bits since they do not exceed the offset; snapping the line start never moves it. */
  method ResolveLineCol(source: seq<byte>, byteOffset: u32) returns (line: u32, col: u32)
    requires Valid(source)
    ensures Position(line, col) == Resolved(source, byteOffset)
  {
    var offset := SnapDown(source, Clamped(source, byteOffset));
    LineTextValid(source, offset);
    var prefix := source[..offset];
    line := NewlineCount(prefix);
    var lineStart := SnapDown(source, LineStart(prefix));
    UnitsAtMostBytes(source[lineStart..offset]);
    col := Utf16Len(source[lineStart..offset]);
  }

  lemma {:induction false} UnitsAtMostBytes(s: seq<byte>)
    requires Valid(s)
    ensures Utf16Len(s) <= |s|
  {
    if s != [] {
      CharBytes(s);
      UnitsAtMostBytes(s[CharLen(s)..]);
    }
  }

  lemma SnapMonotone(s: seq<byte>, i: nat, j: nat)
    requires i <= j <= |s|
    ensures Snap(s, i) <= Snap(s, j)
  {
  }

  /** Within a line the column grows by the width of what lies between. */
  lemma SameLine(s: seq<byte>, i: nat, j: nat)
    requires Valid(s) && IsBoundary(s, i) && IsBoundary(s, j) && i < j <= |s| && NEWLINE !in s[i..j]
    ensures PositionAt(s, i).line == PositionAt(s, j).line && PositionAt(s, i).col < PositionAt(s, j).col
  {
    hide Valid, Utf16Len, NewlineCount, LineStart, IsBoundary;
    var between, start := s[i..j], LineStart(s[..i]);
    LineTextValid(s, i);
    LineTextValid(s, j);
    BetweenValid(s, i, j);
    assert s[..j] == s[..i] + between;
    ReadOn(s[..i], between);
    assert s[start..j] == s[start..i] + between;
    Utf16Concat(s[start..i], between);
  }

  /** On boundaries the position grows strictly with the offset, so it determines the offset. */
  lemma StrictOnBoundaries(s: seq<byte>, i: nat, j: nat)
    requires Valid(s) && IsBoundary(s, i) && IsBoundary(s, j) && i < j
    ensures Before(PositionAt(s, i), PositionAt(s, j))
  {
    hide Valid, Utf16Len, NewlineCount, LineStart, IsBoundary;
    LineTextValid(s, j);
    var between := s[i..j];
    if NEWLINE in between {
      assert s[..j] == s[..i] + between;
      ReadOn(s[..i], between);
    } else {
      SameLine(s, i, j);
    }
  }

  lemma BetweenValid(s: seq<byte>, i: nat, j: nat)
    requires Valid(s) && IsBoundary(s, i) && IsBoundary(s, j) && i <= j
    ensures j <= |s| && Valid(s[i..j])
  {
    SplitAtBoundary(s, j);
    SplitAtBoundary(s[..j], i);
    assert s[..j][i..] == s[i..j];
  }

  /** For all offsets, even inside characters or past the end, a later offset has no earlier position. */
  lemma Monotone(s: seq<byte>, i: nat, j: nat)
    requires Valid(s) && i <= j
    ensures Resolved(s, i) == Resolved(s, j) || Before(Resolved(s, i), Resolved(s, j))
  {
    hide PositionAt, Valid;
    SnapMonotone(s, Clamped(s, i), Clamped(s, j));
    var a, b := Snap(s, Clamped(s, i)), Snap(s, Clamped(s, j));
    if a < b {
      StrictOnBoundaries(s, a, b);
    }
  }

  /** The line is the row of `ByteToPoint` and one less than `LineOfByte`, at every offset. */
  lemma LinesAgree(s: seq<byte>, byteOffset: nat)
    requires Valid(s)
    ensures Resolved(s, byteOffset).line == PointAt(s, byteOffset).row == NewlineCount(s[..Clamped(s, byteOffset)])
  {
    hide Valid, LineStart, Utf16Len;
    var i := Clamped(s, byteOffset);
    var k := Snap(s, i);
    var skipped := s[k..i];
    assert s[..i] == s[..k] + skipped;
    forall j | 0 <= j < |skipped| ensures skipped[j] != NEWLINE {
      SkippedIsTail(s, i, k + j);
    }
    ReadOn(s[..k], skipped);
  }

  /** A boundary below an offset inside a character starts that character. */
  lemma SkippedIsTail(s: seq<byte>, i: nat, j: nat)
    requires Valid(s) && i <= |s| && Snap(s, i) <= j < i
    ensures s[j] != NEWLINE
  {
    if s[j] == NEWLINE {
      AfterAscii(s, j);
    }
  }
}
