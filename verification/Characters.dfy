/** UTF-8 characters by their bytes, and the positions after them. */
module Characters {
  import opened Bytes
  import opened Utf8
  import opened Lines
  import opened LineCol

  predicate Tail(b: byte) {
    128 <= b <= 191
  }

  /** One to four bytes that encode one character (the table of section 4 of RFC 3629). */
  predicate IsCharacter(c: seq<byte>) {
    match |c|
    case 1 => c[0] <= 127
    case 2 => 194 <= c[0] <= 223 && Tail(c[1])
    case 3 =>
      && Tail(c[1]) && Tail(c[2])
      && ((c[0] == 224 && c[1] >= 160) || 225 <= c[0] <= 236 || (c[0] == 237 && c[1] <= 159) || 238 <= c[0] <= 239)
    case 4 =>
      && Tail(c[1]) && Tail(c[2]) && Tail(c[3])
      && ((c[0] == 240 && c[1] >= 144) || 241 <= c[0] <= 243 || (c[0] == 244 && c[1] <= 143))
    case _ => false
  }

  /** A text is valid iff it is empty or a character followed by valid text. */
  lemma ValidByCharacters(c: seq<byte>, rest: seq<byte>)
    requires IsCharacter(c)
    ensures Valid(c + rest) <==> Valid(rest)
    ensures Valid(rest) ==> Utf16Len(c + rest) == (if |c| == 4 then 2 else 1) + Utf16Len(rest)
    ensures Valid([]) && Utf16Len([]) == 0
  {
    FirstCharacter(c, rest);
    assert (c + rest)[|c|..] == rest;
  }

  lemma FirstCharacter(c: seq<byte>, rest: seq<byte>)
    requires IsCharacter(c)
    ensures CharLen(c + rest) == |c|
  {
    var s := c + rest;
    assert forall i :: 0 <= i < |c| ==> s[i] == c[i];
  }

  /** Valid text starts with a character. */
  lemma ValidStarts(s: seq<byte>)
    requires Valid(s) && s != []
    ensures exists n :: 1 <= n <= 4 && n <= |s| && IsCharacter(s[..n]) && Valid(s[n..])
  {
    var n := CharLen(s);
    var c := s[..n];
    assert IsCharacter(c);
    assert Valid(s[n..]);
  }

  // ------------------------------------------------------------ positions

  lemma {:induction false} LinesBefore(before: seq<byte>, line: seq<byte>)
    requires before == [] || before[|before| - 1] == 10
    requires 10 !in line
    ensures NewlineCount(before + line) == NewlineCount(before) && LineStart(before + line) == |before|
  {
    ReadOn(before, line);
    if before != [] {
      assert Last(before) == NEWLINE;
    }
  }

  /** A newline adds a line. */
  lemma NewlineAddsLine(before: seq<byte>)
    ensures NewlineCount([]) == 0 && NewlineCount(before + [10]) == NewlineCount(before) + 1
  {
    assert Init(before + [10]) == before;
  }

  /**
    The position after the start of a line: the newlines before it, and the width of what was read, two
    units for each character of four bytes and one for each other.
   */
  lemma PositionInLine(before: seq<byte>, line: seq<byte>, rest: seq<byte>)
    requires before == [] || before[|before| - 1] == 10
    requires 10 !in line && Valid(before) && Valid(line) && Valid(rest)
    ensures Valid(before + line + rest)
    ensures Resolved(before + line + rest, |before + line|) == Position(NewlineCount(before), Utf16Len(line))
    ensures PointAt(before + line + rest, |before + line|) == Point(NewlineCount(before), |line|)
  {
    hide Valid, Utf16Len, NewlineCount, LineStart;
    Utf16Concat(before, line);
    Utf16Concat(before + line, rest);
    var s, k := before + line + rest, |before + line|;
    ValidBoundary(before + line, rest);
    assert s[..k] == before + line;
    LinesBefore(before, line);
    assert Snap(s, Clamped(s, k)) == k;
    LineTextValid(s, k);
    assert s[|before|..k] == line;
  }

  lemma ValidBoundary(a: seq<byte>, b: seq<byte>)
    requires Valid(b)
    ensures IsBoundary(a + b, |a|)
  {
    if b != [] {
      CharBytes(b);
      assert (a + b)[|a|] == b[0];
    }
  }
}
