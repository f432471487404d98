/** The alphabets of base64, digit by digit, and where the bits of a group go (sections 4 and 5 of RFC 4648). */
module Base64Layout {
  import opened Symbols
  import opened Bytes
  import opened Base64

  /** The ASCII code of digit `v` in the URL-safe alphabet: A to Z, a to z, 0 to 9, '-' and '_'. */
  function UrlSafeCode(v: nat): int {
    if v <= 25 then 65 + v
    else if v <= 51 then 97 + (v - 26)
    else if v <= 61 then 48 + (v - 52)
    else if v == 62 then 45
    else 95
  }

  /** The standard alphabet differs in the last two digits, '+' and '/'. */
  function StandardCode(v: nat): int {
    if v == 62 then 43 else if v == 63 then 47 else UrlSafeCode(v)
  }

  /** Digit `v` is written in the URL-safe alphabet and read in both; nothing else is read as `v`. */
  lemma Alphabets(v: nat, b: byte)
    requires v < 64
    ensures Digit(v) == UrlSafeCode(v)
    ensures Value(b) == Some(v) <==> b == UrlSafeCode(v) || b == StandardCode(v)
  {
  }

  /** Three bytes go to four digits, most significant bits first. */
  lemma GroupLayout(x: byte, y: byte, z: byte, rest: seq<byte>)
    ensures Encode([x, y, z] + rest) ==
            [Digit(x / 4), Digit(x % 4 * 16 + y / 16), Digit(y % 16 * 4 + z / 64), Digit(z % 64)] + Encode(rest)
  {
    hide Digit;
    var data := [x, y, z] + rest;
    assert data[3..] == rest;
    GroupBits(x, y, z);
    FourDigits(Group(x, y, z));
  }

  /** One or two last bytes are padded with zero bits only as far as their last digit. */
  lemma TailLayout(x: byte, y: byte)
    ensures Encode([x]) == [Digit(x / 4), Digit(x % 4 * 16)]
    ensures Encode([x, y]) == [Digit(x / 4), Digit(x % 4 * 16 + y / 16), Digit(y % 16 * 4)]
    ensures Encode([]) == []
  {
    hide Digit;
    GroupBits(x, 0, 0);
    GroupBits(x, y, 0);
    FourDigits(Group(x, 0, 0));
    FourDigits(Group(x, y, 0));
  }

  lemma GroupBits(x: byte, y: byte, z: byte)
    ensures var n := Group(x, y, z);
            && n < 16777216 && Sextet(n, 0) == x / 4 && Sextet(n, 1) == x % 4 * 16 + y / 16
            && Sextet(n, 2) == y % 16 * 4 + z / 64 && Sextet(n, 3) == z % 64
  {
    var n := Group(x, y, z);
    var a, b, c, d := x / 4, x % 4 * 16 + y / 16, y % 16 * 4 + z / 64, z % 64;
    assert n == a * 262144 + b * 4096 + c * 64 + d;
    SextetsOfWord(a, b, c, d);
  }

  /** '=' is skipped wherever it stands in the input; every other byte is read as a digit. */
  lemma PaddingIsSkipped(a: seq<byte>, b: seq<byte>)
    ensures Decode(a + ['=' as int] + b) == Decode(a + b)
    ensures '=' as int !in a ==> Decode(a) == DecodeDigits(a)
  {
    hide DecodeDigits, Unpadded;
    UnpaddedConcat(a + ['=' as int], b);
    UnpaddedConcat(a, ['=' as int]);
    UnpaddedConcat(a, b);
    OnePadding();
    assert Unpadded(a) + [] == Unpadded(a);
    if '=' as int !in a {
      NothingToStrip(a);
    }
  }

  lemma OnePadding()
    ensures Unpadded(['=' as int]) == []
  {
    assert ['=' as int][1..] == [];
  }

  lemma {:induction false} UnpaddedConcat(a: seq<byte>, b: seq<byte>)
    ensures Unpadded(a + b) == Unpadded(a) + Unpadded(b)
  {
    if a == [] {
      assert a + b == b;
    } else {
      assert (a + b)[0] == a[0] && (a + b)[1..] == a[1..] + b;
      UnpaddedConcat(a[1..], b);
    }
  }
}
