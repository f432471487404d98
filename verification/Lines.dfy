/** Lines of a text given as bytes. */
module Lines {
  import opened Bytes

  function NewlineCount(s: seq<byte>): (r: nat)
    ensures r <= |s|
  {
    if s == [] then 0 else NewlineCount(Init(s)) + if Last(s) == NEWLINE then 1 else 0
  }

  /** Where the last line of `s` starts: after its last newline. */
  function LineStart(s: seq<byte>): (r: nat)
    ensures r <= |s| && (r == 0 || s[r - 1] == NEWLINE)
    ensures NEWLINE !in s[r..]
  {
    if s == [] then 0
    else if Last(s) == NEWLINE then |s|
    else
      var r := LineStart(Init(s));
      assert s[r..] == Init(s)[r..] + [Last(s)];
      r
  }

  /** A zero-based row and a column in bytes. */
  datatype Point = Point(row: nat, column: nat)

  predicate NotAfter(p: Point, q: Point) {
    p.row < q.row || (p.row == q.row && p.column <= q.column)
  }

  function Clamped(s: seq<byte>, byteOffset: nat): (r: nat)
    ensures r <= |s|
  {
    if byteOffset < |s| then byteOffset else |s|
  }

  /** The position reached after reading `read`. */
  function PointAfter(read: seq<byte>): Point {
    Point(NewlineCount(read), |read| - LineStart(read))
  }

  function PointAt(s: seq<byte>, byteOffset: nat): Point {
    PointAfter(s[..Clamped(s, byteOffset)])
  }

  method ByteToPoint(source: seq<byte>, byteOffset: nat) returns (p: Point)
    ensures p == PointAt(source, byteOffset)
  {
    var upTo := source[..Clamped(source, byteOffset)];
    var line: nat, col: nat := 0, 0;
    for i := 0 to |upTo|
      invariant Point(line, col) == PointAfter(upTo[..i])
    {
      assert Init(upTo[..i + 1]) == upTo[..i];
      if upTo[i] == NEWLINE {
        line, col := line + 1, 0;
      } else {
        col := col + 1;
      }
    }
    assert upTo[..|upTo|] == upTo;
    return Point(line, col);
  }

  /** One-based line of a byte offset, clamped to the last line. */
  method LineOfByte(content: seq<byte>, byteOffset: nat) returns (line: nat)
    ensures line == NewlineCount(content[..Clamped(content, byteOffset)]) + 1
  {
    var end := Clamped(content, byteOffset);
    line := 1;
    for i := 0 to end
      invariant line == NewlineCount(content[..i]) + 1
    {
      assert Init(content[..i + 1]) == content[..i];
      if content[i] == NEWLINE {
        line := line + 1;
      }
    }
  }

  /** Reading on: each newline counts, and without one the line start stays. */
  lemma {:induction false} ReadOn(s: seq<byte>, more: seq<byte>)
    ensures NewlineCount(s + more) == NewlineCount(s) + NewlineCount(more)
    ensures NewlineCount(more) == 0 <==> NEWLINE !in more
    ensures NEWLINE !in more ==> LineStart(s + more) == LineStart(s)
  {
    if more == [] {
      assert s + more == s;
    } else {
      ReadOn(s, Init(more));
      assert Init(s + more) == s + Init(more);
      assert more == Init(more) + [Last(more)];
    }
  }

  /** Later offsets have later points. */
  lemma PointsOrdered(s: seq<byte>, i: nat, j: nat)
    requires i <= j
    ensures NotAfter(PointAt(s, i), PointAt(s, j))
  {
    var a, b := Clamped(s, i), Clamped(s, j);
    assert s[..b] == s[..a] + s[a..b];
    ReadOn(s[..a], s[a..b]);
  }

  /** And points determine offsets: strictly later offsets have strictly later points. */
  lemma PointsInjective(s: seq<byte>, i: nat, j: nat)
    requires i < j <= |s|
    ensures NotAfter(PointAt(s, i), PointAt(s, j)) && PointAt(s, i) != PointAt(s, j)
  {
    assert s[..j] == s[..i] + s[i..j];
    ReadOn(s[..i], s[i..j]);
  }
}
