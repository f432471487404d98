/** Well-formed UTF-8 (section 4 of RFC 3629) and character boundaries. */
module Utf8 {
  import opened Bytes

  predicate IsTail(b: byte) {
    0x80 <= b <= 0xBF
  }

  function TailAt(s: seq<byte>, i: nat): bool {
    i < |s| && IsTail(s[i])
  }

  /** Length of the well-formed character at the start of `s`, or zero. */
  function CharLen(s: seq<byte>): (n: nat)
    ensures n <= |s| && n <= 4
  {
    if s == [] then 0
    else if s[0] < 0x80 then 1
    else if 0xC2 <= s[0] <= 0xDF && TailAt(s, 1) then 2
    else if 0xE0 <= s[0] <= 0xEF && TailAt(s, 1) && TailAt(s, 2)
            && (s[0] == 0xE0 ==> s[1] >= 0xA0) && (s[0] == 0xED ==> s[1] <= 0x9F) then 3
    else if 0xF0 <= s[0] <= 0xF4 && TailAt(s, 1) && TailAt(s, 2) && TailAt(s, 3)
            && (s[0] == 0xF0 ==> s[1] >= 0x90) && (s[0] == 0xF4 ==> s[1] <= 0x8F) then 4
    else 0
  }

  predicate Valid(s: seq<byte>) {
    s == [] || (CharLen(s) > 0 && Valid(s[CharLen(s)..]))
  }

  /** A character is one ASCII byte, or a lead byte followed by tail bytes. */
  lemma CharBytes(s: seq<byte>)
    requires CharLen(s) > 0
    ensures CharLen(s) == 1 <==> s[0] < 0x80
    ensures !IsTail(s[0])
    ensures forall i :: 1 <= i < CharLen(s) ==> IsTail(s[i])
  {
  }

  /** Only the bytes of the character decide its length. */
  lemma CharLenLocal(s: seq<byte>, t: seq<byte>)
    requires CharLen(s) > 0 && |t| >= CharLen(s) && t[..CharLen(s)] == s[..CharLen(s)]
    ensures CharLen(t) == CharLen(s)
  {
    assert forall i :: 0 <= i < CharLen(s) ==> t[i] == s[..CharLen(s)][i];
  }

  /** Putting a valid character before valid text. */
  lemma CharKept(s: seq<byte>, t: seq<byte>)
    requires CharLen(s) > 0 && Valid(t)
    ensures CharLen(s[..CharLen(s)] + t) == CharLen(s) && Valid(s[..CharLen(s)] + t)
  {
    var n := CharLen(s);
    var all := s[..n] + t;
    assert all[..n] == s[..n] && all[n..] == t;
    CharLenLocal(s, all);
  }

  /** Offsets at which a string may be sliced: its ends, and everywhere but before a tail byte. */
  predicate IsBoundary(s: seq<byte>, i: nat) {
    i == 0 || i == |s| || (i < |s| && !IsTail(s[i]))
  }

  /** Cutting valid text at a boundary gives two valid texts. */
  lemma {:induction false} SplitAtBoundary(s: seq<byte>, i: nat)
    requires Valid(s) && IsBoundary(s, i)
    ensures i <= |s| && Valid(s[..i]) && Valid(s[i..])
    decreases |s|
  {
    hide CharLen;
    if i == 0 {
      assert s[0..] == s;
    } else {
      var n := CharLen(s);
      CharBytes(s);
      SplitAtBoundary(s[n..], i - n);
      assert s[n..][i - n..] == s[i..];
      assert s[..i] == s[..n] + s[n..][..i - n];
      CharKept(s, s[n..][..i - n]);
    }
  }

  /** UTF-16 code units of valid text: two for a four-byte character, one for any other. */
  function Utf16Len(s: seq<byte>): (r: nat)
    requires Valid(s)
    ensures s != [] ==> r > 0
  {
    if s == [] then 0
    else (if CharLen(s) == 4 then 2 else 1) + Utf16Len(s[CharLen(s)..])
  }

  lemma {:induction false} Utf16Concat(a: seq<byte>, b: seq<byte>)
    requires Valid(a) && Valid(b)
    ensures Valid(a + b) && Utf16Len(a + b) == Utf16Len(a) + Utf16Len(b)
    decreases |a|
  {
    hide CharLen;
    if a == [] {
      assert a + b == b;
    } else {
      var n := CharLen(a);
      CharBytes(a);
      Utf16Concat(a[n..], b);
      assert a + b == a[..n] + (a[n..] + b);
      CharKept(a, a[n..] + b);
      assert (a + b)[n..] == a[n..] + b;
    }
  }

  /** The offset after an ASCII byte is a boundary. */
  lemma AfterAscii(s: seq<byte>, i: nat)
    requires Valid(s) && i < |s| && s[i] < 0x80
    ensures IsBoundary(s, i + 1)
  {
    SplitAtBoundary(s, i);
    var rest := s[i..];
    assert CharLen(rest) == 1;
    if i + 1 < |s| {
      assert Valid(rest[1..]) && rest[1..][0] == s[i + 1];
      CharBytes(rest[1..]);
    }
  }
}
