/**
  Unpadded base64url, as used for pagination cursors (alphabet of section 5 of RFC 4648).
  The three bytes of a group occupy disjoint bits of `n`, so `|` is addition and shifts are
  divisions by powers of two.
 */
module Base64 {
  import opened Symbols
  import opened Bytes

  const PAD: byte := '=' as int

  type sextet = n: nat | n < 64

  /** The 64 digits in order: upper case, lower case, decimal digits, '-' and '_'. */
  function Digit(v: sextet): byte {
    if v < 26 then 'A' as int + v
    else if v < 52 then 'a' as int + v - 26
    else if v < 62 then '0' as int + v - 52
    else if v == 62 then '-' as int
    else '_' as int
  }

  /** Both alphabets are read; everything else is rejected. */
  function Value(b: byte): Option<sextet> {
    if 'A' as int <= b <= 'Z' as int then Some(b - 'A' as int)
    else if 'a' as int <= b <= 'z' as int then Some(b - 'a' as int + 26)
    else if '0' as int <= b <= '9' as int then Some(b - '0' as int + 52)
    else if b == '-' as int || b == '+' as int then Some(62)
    else if b == '_' as int || b == '/' as int then Some(63)
    else None
  }

  predicate UrlSafe(b: byte) {
    Value(b).Some? && b != '+' as int && b != '/' as int
  }

  lemma DigitValue(v: sextet)
    ensures Value(Digit(v)) == Some(v) && UrlSafe(Digit(v)) && Digit(v) != PAD
  {
  }

  lemma ValueDigit(b: byte)
    requires Value(b).Some?
    ensures Digit(Value(b).value) == b <==> UrlSafe(b)
  {
  }

  // ------------------------------------------------------------ encoding

  function Group(x: byte, y: byte, z: byte): nat {
    x * 65536 + y * 256 + z
  }

  function Sextet(n: nat, k: nat): sextet
    requires n < 16777216 && k < 4
  {
    (if k == 0 then n / 262144 else if k == 1 then n / 4096 else if k == 2 then n / 64 else n) % 64
  }

  function Digits(n: nat, k: nat): seq<byte>
    requires n < 16777216 && k <= 4
  {
    if k == 0 then [] else Digits(n, k - 1) + [Digit(Sextet(n, k - 1))]
  }

  function Encode(data: seq<byte>): seq<byte> {
    if |data| == 0 then []
    else if |data| == 1 then Digits(Group(data[0], 0, 0), 2)
    else if |data| == 2 then Digits(Group(data[0], data[1], 0), 3)
    else Digits(Group(data[0], data[1], data[2]), 4) + Encode(data[3..])
  }

  method EncodeCursor(data: seq<byte>) returns (out: seq<byte>)
    ensures out == Encode(data)
  {
    hide Digit, Sextet;
    out := [];
    var i := 0;
    while i + 3 <= |data|
      invariant i <= |data| && out + Encode(data[i..]) == Encode(data)
    {
      var n := Group(data[i], data[i + 1], data[i + 2]);
      var four := [Digit(Sextet(n, 0)), Digit(Sextet(n, 1)), Digit(Sextet(n, 2)), Digit(Sextet(n, 3))];
      FourDigits(n);
      assert data[i..][3..] == data[i + 3..];
      assert Encode(data[i..]) == four + Encode(data[i + 3..]);
      out := out + four;
      i := i + 3;
    }
    match |data| - i {
      case 1 =>
        var n := Group(data[i], 0, 0);
        FourDigits(n);
        out := out + [Digit(Sextet(n, 0)), Digit(Sextet(n, 1))];
      case 2 =>
        var n := Group(data[i], data[i + 1], 0);
        FourDigits(n);
        out := out + [Digit(Sextet(n, 0)), Digit(Sextet(n, 1)), Digit(Sextet(n, 2))];
      case _ =>
    }
  }

  lemma FourDigits(n: nat)
    requires n < 16777216
    ensures Digits(n, 2) == [Digit(Sextet(n, 0)), Digit(Sextet(n, 1))]
    ensures Digits(n, 3) == [Digit(Sextet(n, 0)), Digit(Sextet(n, 1)), Digit(Sextet(n, 2))]
    ensures Digits(n, 4) == [Digit(Sextet(n, 0)), Digit(Sextet(n, 1)), Digit(Sextet(n, 2)), Digit(Sextet(n, 3))]
  {
    hide Digit, Sextet;
    assert Digits(n, 0) == [];
    assert Digits(n, 1) == [Digit(Sextet(n, 0))];
    assert Digits(n, 2) == [Digit(Sextet(n, 0)), Digit(Sextet(n, 1))];
  }

  // ------------------------------------------------------------ decoding

  function Unpadded(input: seq<byte>): seq<byte> {
    if input == [] then []
    else (if input[0] != PAD then [input[0]] else []) + Unpadded(input[1..])
  }

  function Word(a: sextet, b: sextet, c: sextet, d: sextet): nat {
    a * 262144 + b * 4096 + c * 64 + d
  }

  function ByteAt(n: nat, k: nat): byte
    requires k < 3
  {
    (if k == 0 then n / 65536 else if k == 1 then n / 256 else n) % 256
  }

  /** Fewer than two leftover digits are dropped unread. */
  function DecodeDigits(s: seq<byte>): Option<seq<byte>> {
    if |s| < 2 then Some([])
    else if Value(s[0]).None? || Value(s[1]).None? then None
    else if |s| == 2 then
      var n := Word(Value(s[0]).value, Value(s[1]).value, 0, 0);
      Some([ByteAt(n, 0)])
    else if Value(s[2]).None? then None
    else if |s| == 3 then
      var n := Word(Value(s[0]).value, Value(s[1]).value, Value(s[2]).value, 0);
      Some([ByteAt(n, 0), ByteAt(n, 1)])
    else if Value(s[3]).None? then None
    else
      var n := Word(Value(s[0]).value, Value(s[1]).value, Value(s[2]).value, Value(s[3]).value);
      match DecodeDigits(s[4..])
      case None => None
      case Some(rest) => Some([ByteAt(n, 0), ByteAt(n, 1), ByteAt(n, 2)] + rest)
  }

  function Decode(input: seq<byte>): Option<seq<byte>> {
    DecodeDigits(Unpadded(input))
  }

  lemma UnpaddedStep(input: seq<byte>, k: nat)
    requires k < |input|
    ensures Unpadded(input[k..]) == (if input[k] != PAD then [input[k]] else []) + Unpadded(input[k + 1..])
  {
    assert input[k..][1..] == input[k + 1..];
  }

  /** Drops the padding wherever it stands. */
  method StripPadding(input: seq<byte>) returns (s: seq<byte>)
    ensures s == Unpadded(input)
  {
    hide Unpadded;
    s := [];
    assert input[0..] == input;
    for k := 0 to |input|
      invariant Unpadded(input) == s + Unpadded(input[k..])
    {
      UnpaddedStep(input, k);
      if input[k] != PAD {
        assert s + ([input[k]] + Unpadded(input[k + 1..])) == s + [input[k]] + Unpadded(input[k + 1..]);
        s := s + [input[k]];
      } else {
        assert [] + Unpadded(input[k + 1..]) == Unpadded(input[k + 1..]);
      }
    }
    UnpaddedNothing();
    assert input[|input|..] == [] && s + [] == s;
  }

  lemma UnpaddedNothing()
    ensures Unpadded([]) == []
  {
  }

  method DecodeCursor(input: seq<byte>) returns (result: Option<seq<byte>>)
    ensures result == Decode(input)
  {
    hide Value, Word, ByteAt, Unpadded;
    var s := StripPadding(input);
    var out: seq<byte> := [];
    PrependNone(DecodeDigits(s));
    assert s[0..] == s;
    var i := 0;
    while i + 4 <= |s|
      invariant i <= |s|
      invariant DecodeDigits(s) == Prepended(out, DecodeDigits(s[i..]))
    {
      var a, b, c, d := Value(s[i]), Value(s[i + 1]), Value(s[i + 2]), Value(s[i + 3]);
      assert s[i..][4..] == s[i + 4..];
      if a.None? || b.None? || c.None? || d.None? {
        return None;
      }
      var n := Word(a.value, b.value, c.value, d.value);
      var three := [ByteAt(n, 0), ByteAt(n, 1), ByteAt(n, 2)];
      assert DecodeDigits(s[i..]) == Prepended(three, DecodeDigits(s[i + 4..]));
      PrependTwice(out, three, DecodeDigits(s[i + 4..]));
      out := out + three;
      i := i + 4;
    }
    match |s| - i {
      case 2 =>
        var a, b := Value(s[i]), Value(s[i + 1]);
        if a.None? || b.None? {
          return None;
        }
        out := out + [ByteAt(Word(a.value, b.value, 0, 0), 0)];
      case 3 =>
        var a, b, c := Value(s[i]), Value(s[i + 1]), Value(s[i + 2]);
        if a.None? || b.None? || c.None? {
          return None;
        }
        var n := Word(a.value, b.value, c.value, 0);
        out := out + [ByteAt(n, 0), ByteAt(n, 1)];
      case _ =>
        assert out + [] == out;
    }
    return Some(out);
  }

  function Prepended(out: seq<byte>, r: Option<seq<byte>>): Option<seq<byte>> {
    if r.None? then None else Some(out + r.value)
  }

  lemma PrependNone(r: Option<seq<byte>>)
    ensures Prepended([], r) == r
  {
    if r.Some? {
      assert [] + r.value == r.value;
    }
  }

  lemma PrependTwice(a: seq<byte>, b: seq<byte>, r: Option<seq<byte>>)
    ensures Prepended(a, Prepended(b, r)) == Prepended(a + b, r)
  {
    if r.Some? {
      assert a + (b + r.value) == a + b + r.value;
    }
  }

  // ------------------------------------------------------------ round trips

  lemma Div64(q: nat, r: nat)
    requires r < 64
    ensures (64 * q + r) / 64 == q && (64 * q + r) % 64 == r
  {
  }

  lemma Div256(q: nat, r: nat)
    requires r < 256
    ensures (256 * q + r) / 256 == q && (256 * q + r) % 256 == r
  {
  }

  lemma Div4096(q: nat, r: nat)
    requires r < 4096
    ensures (4096 * q + r) / 4096 == q && (4096 * q + r) % 4096 == r
  {
  }

  lemma Div65536(q: nat, r: nat)
    requires r < 65536
    ensures (65536 * q + r) / 65536 == q && (65536 * q + r) % 65536 == r
  {
  }

  lemma Div262144(q: nat, r: nat)
    requires r < 262144
    ensures (262144 * q + r) / 262144 == q
  {
  }

  lemma GroupBytes(x: byte, y: byte, z: byte)
    ensures Group(x, y, z) < 16777216
    ensures ByteAt(Group(x, y, z), 0) == x && ByteAt(Group(x, y, z), 1) == y && ByteAt(Group(x, y, z), 2) == z
  {
    var high: nat := 256 * x as nat + y;
    Div65536(x, 256 * y as nat + z);
    Div256(high, z);
    Div256(x, y);
    Div256(0, x);
  }

  lemma SextetsOfWord(a: sextet, b: sextet, c: sextet, d: sextet)
    ensures Word(a, b, c, d) < 16777216
    ensures Sextet(Word(a, b, c, d), 0) == a && Sextet(Word(a, b, c, d), 1) == b
    ensures Sextet(Word(a, b, c, d), 2) == c && Sextet(Word(a, b, c, d), 3) == d
  {
    var ab: nat := 64 * a as nat + b;
    var abc: nat := 64 * ab + c;
    Div262144(a, 4096 * b as nat + 64 * c as nat + d);
    Div4096(ab, 64 * c as nat + d);
    Div64(abc, d);
    Div64(ab, c);
    Div64(a, b);
    Div64(0, a);
  }

  lemma WordOfSextets(n: nat)
    requires n < 16777216
    ensures Word(Sextet(n, 0), Sextet(n, 1), Sextet(n, 2), Sextet(n, 3)) == n
    ensures n % 64 == 0 ==> Word(Sextet(n, 0), Sextet(n, 1), Sextet(n, 2), 0) == n
    ensures n % 4096 == 0 ==> Word(Sextet(n, 0), Sextet(n, 1), 0, 0) == n
  {
    var abc: nat, d: nat := n / 64, n % 64;
    var ab: nat, c: nat := abc / 64, abc % 64;
    var a: nat, b: nat := ab / 64, ab % 64;
    assert n == Word(a, b, c, d);
    Div4096(ab, 64 * c + d);
    hide Sextet;
    SextetsOfWord(a, b, c, d);
  }

  lemma BytesOfWord(n: nat)
    requires n < 16777216
    ensures Group(ByteAt(n, 0), ByteAt(n, 1), ByteAt(n, 2)) == n
    ensures Group(ByteAt(n, 0), ByteAt(n, 1), 0) == n <==> n % 256 == 0
    ensures Group(ByteAt(n, 0), 0, 0) == n <==> n % 65536 == 0
  {
    var high: nat, z: nat := n / 256, n % 256;
    var x: nat, y: nat := high / 256, high % 256;
    assert n == Group(x, y, z);
    Div65536(x, 256 * y + z);
    hide ByteAt;
    GroupBytes(x, y, z);
  }

  /** Output digits come from the URL-safe alphabet; `n` bytes give the ceiling of `4n / 3` digits. */
  lemma {:induction false} EncodedShape(data: seq<byte>)
    ensures forall b :: b in Encode(data) ==> UrlSafe(b)
    ensures |Encode(data)| == (4 * |data| + 2) / 3
  {
    hide UrlSafe, Digit, Sextet;
    forall v: sextet ensures UrlSafe(Digit(v)) {
      DigitValue(v);
    }
    if |data| == 1 {
      FourDigits(Group(data[0], 0, 0));
    } else if |data| == 2 {
      FourDigits(Group(data[0], data[1], 0));
    } else if |data| > 2 {
      FourDigits(Group(data[0], data[1], data[2]));
      EncodedShape(data[3..]);
    }
  }

  lemma {:induction false} NothingToStrip(s: seq<byte>)
    requires PAD !in s
    ensures Unpadded(s) == s
  {
    if s != [] {
      assert s == [s[0]] + s[1..];
      NothingToStrip(s[1..]);
    }
  }

  lemma {:induction false} DecodeAfterEncode(data: seq<byte>)
    ensures DecodeDigits(Encode(data)) == Some(data)
  {
    hide Digit, Value, Sextet, Word, ByteAt, Group;
    forall v: sextet ensures Value(Digit(v)) == Some(v) {
      DigitValue(v);
    }
    if |data| == 0 {
      assert data == [];
    } else if |data| == 1 {
      var n := Group(data[0], 0, 0);
      TailGroups(data[0], 0);
      FourDigits(n);
      WordOfSextets(n);
      assert data == [data[0]];
    } else if |data| == 2 {
      var n := Group(data[0], data[1], 0);
      TailGroups(data[0], data[1]);
      FourDigits(n);
      WordOfSextets(n);
      assert data == [data[0], data[1]];
    } else if |data| > 2 {
      var n := Group(data[0], data[1], data[2]);
      GroupBytes(data[0], data[1], data[2]);
      FourDigits(n);
      WordOfSextets(n);
      DecodeAfterEncode(data[3..]);
      assert Encode(data)[4..] == Encode(data[3..]);
      assert data == [data[0], data[1], data[2]] + data[3..];
    }
  }

  lemma TailGroups(x: byte, y: byte)
    ensures Group(x, y, 0) < 16777216 && Group(x, y, 0) % 64 == 0 && Group(x, 0, 0) % 4096 == 0
    ensures Group(x, y, 0) / 64 == 4 * (x as nat * 256 + y) && Group(x, 0, 0) / 4096 == 16 * (x as nat)
    ensures ByteAt(Group(x, y, 0), 0) == x && ByteAt(Group(x, y, 0), 1) == y && ByteAt(Group(x, 0, 0), 0) == x
  {
    Div64(1024 * x as nat + 4 * y as nat, 0);
    Div4096(16 * x as nat, 0);
    hide ByteAt;
    GroupBytes(x, y, 0);
    GroupBytes(x, 0, 0);
  }

  /** Every byte string survives a round trip. */
  lemma RoundTrip(data: seq<byte>)
    ensures Decode(Encode(data)) == Some(data)
  {
    EncodedShape(data);
    assert !UrlSafe(PAD);
    NothingToStrip(Encode(data));
    DecodeAfterEncode(data);
  }

  /** The strings the encoder produces: URL-safe digits, no lone last digit, zero bits after the last byte. */
  predicate Canonical(s: seq<byte>) {
    && (forall b :: b in s ==> UrlSafe(b))
    && |s| % 4 != 1
    && (|s| % 4 == 2 ==> Value(s[|s| - 1]).Some? && Value(s[|s| - 1]).value % 16 == 0)
    && (|s| % 4 == 3 ==> Value(s[|s| - 1]).Some? && Value(s[|s| - 1]).value % 4 == 0)
  }

  /** Decoding then encoding gives `s` back exactly for the canonical strings. */
  lemma EncodeAfterDecode(s: seq<byte>)
    ensures (Decode(s).Some? && Encode(Decode(s).value) == s) <==> Canonical(s)
  {
    if Decode(s).Some? && Encode(Decode(s).value) == s {
      EncodedIsCanonical(Decode(s).value);
    }
    if Canonical(s) {
      assert !UrlSafe(PAD);
      NothingToStrip(s);
      CanonicalReencodes(s);
    }
  }

  lemma CanonicalPrepend(four: seq<byte>, rest: seq<byte>)
    requires |four| == 4 && Canonical(rest) && forall b :: b in four ==> UrlSafe(b)
    ensures Canonical(four + rest)
  {
    hide UrlSafe, Value;
    var all := four + rest;
    assert rest != [] ==> all[|all| - 1] == rest[|rest| - 1];
  }

  lemma {:induction false} EncodedIsCanonical(data: seq<byte>)
    ensures Canonical(Encode(data))
  {
    hide Digit, Value, Sextet, UrlSafe, Group;
    EncodedShape(data);
    if |data| == 1 {
      var n := Group(data[0], 0, 0);
      ZeroLow(data[0], 0);
      FourDigits(n);
      DigitValue(Sextet(n, 1));
    } else if |data| == 2 {
      var n := Group(data[0], data[1], 0);
      ZeroLow(data[0], data[1]);
      FourDigits(n);
      DigitValue(Sextet(n, 2));
    } else if |data| > 2 {
      hide Canonical;
      var four := EncodedGroup(data);
      EncodedIsCanonical(data[3..]);
      CanonicalPrepend(four, Encode(data[3..]));
    }
  }

  lemma EncodedGroup(data: seq<byte>) returns (four: seq<byte>)
    requires |data| > 2
    ensures |four| == 4 && Encode(data) == four + Encode(data[3..]) && forall b :: b in four ==> UrlSafe(b)
  {
    hide Digit, Sextet, UrlSafe, Group;
    GroupBytes(data[0], data[1], data[2]);
    var n := Group(data[0], data[1], data[2]);
    FourDigits(n);
    four := Digits(n, 4);
    forall v: sextet ensures UrlSafe(Digit(v)) {
      DigitValue(v);
    }
  }

  lemma MultiplesStay(m: nat)
    ensures 4 * m % 64 % 4 == 0 && 16 * m % 64 % 16 == 0
  {
    Div64(m / 16, 4 * (m % 16));
    Div64(m / 4, 16 * (m % 4));
  }

  /** The unused low bits of the last digit are zero. */
  lemma ZeroLow(x: byte, y: byte)
    ensures Group(x, y, 0) < 16777216 && Group(x, 0, 0) < 16777216
    ensures Sextet(Group(x, y, 0), 2) % 4 == 0 && Sextet(Group(x, 0, 0), 1) % 16 == 0
  {
    hide Group, ByteAt;
    TailGroups(x, y);
    TailGroups(x, 0);
    MultiplesStay(x as nat * 256 + y);
    MultiplesStay(x);
  }

  lemma ShortWords(a: sextet, b: sextet, c: sextet)
    ensures Word(a, b, 0, 0) < 16777216 && Word(a, b, c, 0) < 16777216
    ensures b % 16 == 0 ==> Word(a, b, 0, 0) % 65536 == 0
    ensures c % 4 == 0 ==> Word(a, b, c, 0) % 256 == 0
  {
    Div65536(4 * a as nat + b / 16, 0);
    Div256(1024 * a as nat + 16 * b as nat + c / 4, 0);
  }

  lemma {:induction false} CanonicalReencodes(s: seq<byte>)
    requires Canonical(s)
    ensures DecodeDigits(s).Some? && Encode(DecodeDigits(s).value) == s
  {
    hide Digit, Value, Sextet, Word, ByteAt, Group;
    forall b | b in s ensures Value(b).Some? && Digit(Value(b).value) == b {
      ValueDigit(b);
    }
    if |s| == 2 {
      var a, b := Value(s[0]).value, Value(s[1]).value;
      ShortWords(a, b, 0);
      SextetsOfWord(a, b, 0, 0);
      BytesOfWord(Word(a, b, 0, 0));
      FourDigits(Word(a, b, 0, 0));
    } else if |s| == 3 {
      var a, b, c := Value(s[0]).value, Value(s[1]).value, Value(s[2]).value;
      ShortWords(a, b, c);
      SextetsOfWord(a, b, c, 0);
      BytesOfWord(Word(a, b, c, 0));
      FourDigits(Word(a, b, c, 0));
    } else if |s| > 3 {
      var a, b, c, d := Value(s[0]).value, Value(s[1]).value, Value(s[2]).value, Value(s[3]).value;
      var n := Word(a, b, c, d);
      SextetsOfWord(a, b, c, d);
      BytesOfWord(n);
      FourDigits(n);
      CanonicalReencodes(s[4..]);
      var rest := DecodeDigits(s[4..]).value;
      var data := [ByteAt(n, 0), ByteAt(n, 1), ByteAt(n, 2)] + rest;
      assert data[3..] == rest;
      assert s == [s[0], s[1], s[2], s[3]] + s[4..];
    }
  }

  /** Decoding fails exactly when a digit it reads is in neither alphabet; a lone last digit is not read. */
  lemma {:induction false} DecodeFailsIff(s: seq<byte>)
    ensures DecodeDigits(s).None? <==> exists i :: 0 <= i < |s| && Value(s[i]).None? && !(|s| % 4 == 1 && i == |s| - 1)
  {
    hide Value, Word, ByteAt;
    if |s| > 3 {
      DecodeFailsIff(s[4..]);
      assert forall i :: 4 <= i < |s| ==> s[i] == s[4..][i - 4];
    }
  }
}
