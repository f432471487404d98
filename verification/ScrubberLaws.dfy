/** Where comments and literals begin and end, as laws about concatenated sources. */
module ScrubberLaws {
  import opened Bytes
  import opened Scrubber

  const LF: byte := '\n' as int
  const BLANK: byte := ' ' as int
  const OPEN_LINE: seq<byte> := ['/' as int, '/' as int]
  const OPEN_BLOCK: seq<byte> := ['/' as int, '*' as int]
  const CLOSE_BLOCK: seq<byte> := ['*' as int, '/' as int]
  const STRING_QUOTE: byte := '"' as int
  const CHAR_QUOTE: byte := '\'' as int
  const ESCAPE: byte := '\\' as int
  const RAW_QUOTES: seq<byte> := ['"' as int, '"' as int, '"' as int]

  /** Spaces, except that newlines stay. */
  function Blanked(s: seq<byte>): (r: seq<byte>)
    ensures |r| == |s| && forall i :: 0 <= i < |s| ==> r[i] == if s[i] == LF then LF else BLANK
  {
    seq(|s|, i requires 0 <= i < |s| => if s[i] == LF then LF else BLANK)
  }

  lemma BlankedConcat(a: seq<byte>, b: seq<byte>)
    ensures Blanked(a + b) == Blanked(a) + Blanked(b)
  {
  }

  lemma BlankedFirst(s: seq<byte>)
    requires s != []
    ensures Blanked(s) == Blanked([s[0]]) + Blanked(s[1..])
  {
    assert s == [s[0]] + s[1..];
  }

  predicate Starts(s: seq<byte>, prefix: seq<byte>) {
    prefix <= s
  }

  predicate Has(s: seq<byte>, part: seq<byte>) {
    exists i :: 0 <= i <= |s| && Starts(s[i..], part)
  }

  lemma HasNotLater(s: seq<byte>, part: seq<byte>)
    requires s != [] && !Has(s, part)
    ensures !Has(s[1..], part) && !Starts(s, part)
  {
    assert s[0..] == s;
    forall i | 0 <= i <= |s[1..]| ensures !Starts(s[1..][i..], part) {
      assert s[1..][i..] == s[i + 1..];
    }
  }

  /** One turn of the scanner over `first` goes on with `rest`. */
  lemma Turns(st: State, first: seq<byte>, rest: seq<byte>, out: seq<byte>, next: State)
    requires first != [] && |out| == |first| && Step(st, first + rest) == Turn(out, next)
    ensures Scrub(st, first + rest) == out + Scrub(next, rest)
  {
    hide Step;
    assert (first + rest)[|first|..] == rest;
  }

  lemma Ended(st: State)
    ensures Scrub(st, []) == []
  {
  }

  // ------------------------------------------------------------ code

  /** Code that opens nothing is kept. */
  lemma CodeKept(b: byte, rest: seq<byte>)
    requires b != STRING_QUOTE && b != CHAR_QUOTE
    requires !Starts([b] + rest, OPEN_LINE) && !Starts([b] + rest, OPEN_BLOCK)
    ensures Scrub(Code, [b] + rest) == [b] + Scrub(Code, rest)
  {
    Turns(Code, [b], rest, [b], Code);
  }

  // ------------------------------------------------------------ line comments

  lemma {:induction false} InLine(body: seq<byte>, rest: seq<byte>)
    requires LF !in body
    ensures Scrub(Line, body + rest) == Blanked(body) + Scrub(Line, rest)
  {
    hide Scrub, Step;
    if body == [] {
      assert body + rest == rest && Blanked(body) == [];
      assert [] + Scrub(Line, rest) == Scrub(Line, rest);
    } else {
      LineGoesOn(body[0], body[1..] + rest);
      assert body + rest == [body[0]] + (body[1..] + rest);
      InLine(body[1..], rest);
      BlankedFirst(body);
      Regroup(Blanked([body[0]]), Blanked(body[1..]), Scrub(Line, rest));
    }
  }

  lemma Regroup(a: seq<byte>, b: seq<byte>, c: seq<byte>)
    ensures a + (b + c) == a + b + c
  {
  }

  lemma LineGoesOn(b: byte, rest: seq<byte>)
    requires b != LF
    ensures Scrub(Line, [b] + rest) == Blanked([b]) + Scrub(Line, rest)
  {
    Turns(Line, [b], rest, Blanked([b]), Line);
  }

  lemma LineEnds(rest: seq<byte>)
    ensures Scrub(Line, [LF] + rest) == [LF] + Scrub(Code, rest)
  {
    Turns(Line, [LF], rest, [LF], Code);
  }

  lemma LineOpens(rest: seq<byte>)
    ensures Scrub(Code, OPEN_LINE + rest) == [BLANK, BLANK] + Scrub(Line, rest)
  {
    Turns(Code, OPEN_LINE, rest, [BLANK, BLANK], Line);
  }

  /** A line comment ends at the first newline, which stays. */
  lemma LineComment(body: seq<byte>, rest: seq<byte>)
    requires LF !in body
    ensures Scrub(Code, OPEN_LINE + body + [LF] + rest) == [BLANK, BLANK] + Blanked(body) + [LF] + Scrub(Code, rest)
  {
    hide Scrub, Step, Blanked;
    LineOpens(body + ([LF] + rest));
    InLine(body, [LF] + rest);
    LineEnds(rest);
    assert OPEN_LINE + body + [LF] + rest == OPEN_LINE + (body + ([LF] + rest));
  }

  /** Without a newline it ends with the file. */
  lemma UnendedLineComment(body: seq<byte>)
    requires LF !in body
    ensures Scrub(Code, OPEN_LINE + body) == [BLANK, BLANK] + Blanked(body)
  {
    hide Scrub, Step, Blanked;
    LineOpens(body + []);
    InLine(body, []);
    Ended(Line);
    assert body + [] == body && Blanked(body) + [] == Blanked(body);
  }

  // ------------------------------------------------------------ raw strings

  lemma RawGoesOn(b: byte, rest: seq<byte>)
    requires !Starts([b] + rest, RAW_QUOTES)
    ensures Scrub(Raw, [b] + rest) == Blanked([b]) + Scrub(Raw, rest)
  {
    Turns(Raw, [b], rest, Blanked([b]), Raw);
  }

  lemma RawEnds(rest: seq<byte>)
    ensures Scrub(Raw, RAW_QUOTES + rest) == [BLANK, BLANK, BLANK] + Scrub(Code, rest)
  {
    Turns(Raw, RAW_QUOTES, rest, [BLANK, BLANK, BLANK], Code);
  }

  lemma RawOpens(rest: seq<byte>)
    ensures Scrub(Code, RAW_QUOTES + rest) == [BLANK, BLANK, BLANK] + Scrub(Raw, rest)
  {
    Turns(Code, RAW_QUOTES, rest, [BLANK, BLANK, BLANK], Raw);
  }

  /** Three quotes that start in `body` would be seen by looking two quotes beyond it. */
  lemma QuotesSeen(body: seq<byte>, tail: seq<byte>, rest: seq<byte>)
    requires body != [] && tail <= [STRING_QUOTE, STRING_QUOTE] && tail <= rest && (|tail| == 2 || rest == tail)
    requires Starts(body + rest, RAW_QUOTES)
    ensures Starts(body + tail, RAW_QUOTES)
  {
    assert forall i :: 0 <= i < 3 ==> (body + rest)[i] == STRING_QUOTE;
    assert forall i :: 0 <= i < 3 && i < |body + tail| ==> (body + tail)[i] == (body + rest)[i];
  }

  lemma {:induction false} InRaw(body: seq<byte>, tail: seq<byte>, rest: seq<byte>)
    requires !Has(body + tail, RAW_QUOTES)
    requires tail <= [STRING_QUOTE, STRING_QUOTE] && tail <= rest && (|tail| == 2 || rest == tail)
    ensures Scrub(Raw, body + rest) == Blanked(body) + Scrub(Raw, rest)
  {
    hide Scrub, Step, Has, Starts;
    if body == [] {
      assert body + rest == rest && Blanked(body) == [];
      assert [] + Scrub(Raw, rest) == Scrub(Raw, rest);
    } else {
      HasNotLater(body + tail, RAW_QUOTES);
      assert (body + tail)[1..] == body[1..] + tail;
      assert body + rest == [body[0]] + (body[1..] + rest);
      if Starts(body + rest, RAW_QUOTES) {
        QuotesSeen(body, tail, rest);
      }
      RawGoesOn(body[0], body[1..] + rest);
      InRaw(body[1..], tail, rest);
      BlankedFirst(body);
      Regroup(Blanked([body[0]]), Blanked(body[1..]), Scrub(Raw, rest));
    }
  }

  /** A raw string ends at the first three quotes; escapes mean nothing in it. */
  lemma RawString(body: seq<byte>, rest: seq<byte>)
    requires !Has(body + [STRING_QUOTE, STRING_QUOTE], RAW_QUOTES)
    ensures Scrub(Code, RAW_QUOTES + body + RAW_QUOTES + rest) ==
            [BLANK, BLANK, BLANK] + Blanked(body) + [BLANK, BLANK, BLANK] + Scrub(Code, rest)
  {
    hide Scrub, Step, Has, Blanked;
    RawOpens(body + (RAW_QUOTES + rest));
    InRaw(body, [STRING_QUOTE, STRING_QUOTE], RAW_QUOTES + rest);
    RawEnds(rest);
    assert RAW_QUOTES + body + RAW_QUOTES + rest == RAW_QUOTES + (body + (RAW_QUOTES + rest));
  }

  lemma UnendedRawString(body: seq<byte>)
    requires !Has(body, RAW_QUOTES)
    ensures Scrub(Code, RAW_QUOTES + body) == [BLANK, BLANK, BLANK] + Blanked(body)
  {
    hide Scrub, Step, Has, Blanked;
    assert body + [] == body;
    RawOpens(body + []);
    InRaw(body, [], []);
    Ended(Raw);
    assert Blanked(body) + [] == Blanked(body);
  }

  // ------------------------------------------------------------ strings and character literals

  /** The inside of a literal: bytes other than its quote, and escapes of two bytes each. */
  predicate Inside(body: seq<byte>, quote: byte) {
    body == [] ||
    (if body[0] == ESCAPE then |body| >= 2 && Inside(body[2..], quote)
     else body[0] != quote && Inside(body[1..], quote))
  }

  /** Spaces, except that newlines that are not escaped stay. */
  function BlankedInside(body: seq<byte>): (r: seq<byte>)
    ensures |r| == |body|
    ensures ESCAPE !in body ==> r == Blanked(body)
  {
    if body == [] then []
    else if body[0] == ESCAPE && |body| >= 2 then [BLANK, BLANK] + BlankedInside(body[2..])
    else Blanked([body[0]]) + BlankedInside(body[1..])
  }

  predicate IsLiteral(st: State, quote: byte) {
    (st == Str && quote == STRING_QUOTE) || (st == Char && quote == CHAR_QUOTE)
  }

  lemma EscapeGoesOn(st: State, quote: byte, b: byte, rest: seq<byte>)
    requires IsLiteral(st, quote)
    ensures Scrub(st, [ESCAPE, b] + rest) == [BLANK, BLANK] + Scrub(st, rest)
  {
    Turns(st, [ESCAPE, b], rest, [BLANK, BLANK], st);
  }

  lemma LiteralGoesOn(st: State, quote: byte, b: byte, rest: seq<byte>)
    requires IsLiteral(st, quote) && b != quote && (b == ESCAPE ==> rest == [])
    ensures Scrub(st, [b] + rest) == Blanked([b]) + Scrub(st, rest)
  {
    Turns(st, [b], rest, Blanked([b]), st);
  }

  lemma LiteralEnds(st: State, quote: byte, rest: seq<byte>)
    requires IsLiteral(st, quote)
    ensures Scrub(st, [quote] + rest) == [BLANK] + Scrub(Code, rest)
  {
    Turns(st, [quote], rest, [BLANK], Code);
  }

  lemma LiteralOpens(st: State, quote: byte, rest: seq<byte>)
    requires IsLiteral(st, quote) && !Starts([quote] + rest, RAW_QUOTES)
    ensures Scrub(Code, [quote] + rest) == [BLANK] + Scrub(st, rest)
  {
    Turns(Code, [quote], rest, [BLANK], st);
  }

  lemma {:induction false} InLiteral(st: State, quote: byte, body: seq<byte>, rest: seq<byte>)
    requires IsLiteral(st, quote) && Inside(body, quote)
    ensures Scrub(st, body + rest) == BlankedInside(body) + Scrub(st, rest)
    decreases |body|
  {
    hide Scrub, Step;
    if body == [] {
      assert body + rest == rest && [] + Scrub(st, rest) == Scrub(st, rest);
    } else if body[0] == ESCAPE {
      assert body + rest == [ESCAPE, body[1]] + (body[2..] + rest);
      EscapeGoesOn(st, quote, body[1], body[2..] + rest);
      InLiteral(st, quote, body[2..], rest);
      Regroup([BLANK, BLANK], BlankedInside(body[2..]), Scrub(st, rest));
    } else {
      assert body + rest == [body[0]] + (body[1..] + rest);
      LiteralGoesOn(st, quote, body[0], body[1..] + rest);
      InLiteral(st, quote, body[1..], rest);
      Regroup(Blanked([body[0]]), BlankedInside(body[1..]), Scrub(st, rest));
    }
  }

  /** A string ends at the first quote that is not escaped; `""` followed by a quote is a raw string instead. */
  lemma StringLiteral(body: seq<byte>, rest: seq<byte>)
    requires Inside(body, STRING_QUOTE) && !(body == [] && rest != [] && rest[0] == STRING_QUOTE)
    ensures Scrub(Code, [STRING_QUOTE] + body + [STRING_QUOTE] + rest) ==
            [BLANK] + BlankedInside(body) + [BLANK] + Scrub(Code, rest)
  {
    hide Scrub, Step, BlankedInside;
    var inside := body + ([STRING_QUOTE] + rest);
    assert [STRING_QUOTE] + body + [STRING_QUOTE] + rest == [STRING_QUOTE] + inside;
    NotRaw(body, rest);
    LiteralOpens(Str, STRING_QUOTE, inside);
    InLiteral(Str, STRING_QUOTE, body, [STRING_QUOTE] + rest);
    LiteralEnds(Str, STRING_QUOTE, rest);
  }

  lemma NotRaw(body: seq<byte>, rest: seq<byte>)
    requires Inside(body, STRING_QUOTE) && !(body == [] && rest != [] && rest[0] == STRING_QUOTE)
    ensures !Starts([STRING_QUOTE] + (body + ([STRING_QUOTE] + rest)), RAW_QUOTES)
  {
    var s := [STRING_QUOTE] + (body + ([STRING_QUOTE] + rest));
    if body == [] {
      assert |s| > 2 ==> s[2] == rest[0];
    } else {
      assert s[1] == body[0];
    }
  }

  lemma CharLiteral(body: seq<byte>, rest: seq<byte>)
    requires Inside(body, CHAR_QUOTE)
    ensures Scrub(Code, [CHAR_QUOTE] + body + [CHAR_QUOTE] + rest) ==
            [BLANK] + BlankedInside(body) + [BLANK] + Scrub(Code, rest)
  {
    hide Scrub, Step, BlankedInside;
    var inside := body + ([CHAR_QUOTE] + rest);
    assert [CHAR_QUOTE] + body + [CHAR_QUOTE] + rest == [CHAR_QUOTE] + inside;
    assert ([CHAR_QUOTE] + inside)[0] == CHAR_QUOTE;
    LiteralOpens(Char, CHAR_QUOTE, inside);
    InLiteral(Char, CHAR_QUOTE, body, [CHAR_QUOTE] + rest);
    LiteralEnds(Char, CHAR_QUOTE, rest);
  }

  /** A literal that nothing ends runs to the end of the file, a last lone backslash included. */
  lemma UnendedLiteral(st: State, quote: byte, body: seq<byte>, last: seq<byte>)
    requires IsLiteral(st, quote) && Inside(body, quote) && last <= [ESCAPE]
    requires !Starts([quote] + (body + last), RAW_QUOTES)
    ensures Scrub(Code, [quote] + (body + last)) == [BLANK] + BlankedInside(body) + Blanked(last)
  {
    hide Scrub, Step, BlankedInside;
    LiteralOpens(st, quote, body + last);
    InLiteral(st, quote, body, last);
    Ended(st);
    if last != [] {
      LiteralGoesOn(st, quote, ESCAPE, []);
      assert last == [ESCAPE] + [] && Blanked(last) + [] == Blanked(last);
    }
    Regroup([BLANK], BlankedInside(body), Blanked(last));
  }

  // ------------------------------------------------------------ block comments

  /** The text of a comment: prose around comments nested in it. */
  datatype Prose = Plain(text: seq<byte>) | Around(text: seq<byte>, inner: Prose, rest: Prose)

  function Written(p: Prose): seq<byte> {
    match p
    case Plain(text) => text
    case Around(text, inner, rest) => text + OPEN_BLOCK + Written(inner) + CLOSE_BLOCK + Written(rest)
  }

  predicate NoDelimiter(s: seq<byte>) {
    !Has(s, OPEN_BLOCK) && !Has(s, CLOSE_BLOCK)
  }

  /** No delimiter in the prose, not even together with the first byte of the delimiter after it. */
  predicate Proper(p: Prose) {
    match p
    case Plain(text) => NoDelimiter(text + [CLOSE_BLOCK[0]])
    case Around(text, inner, rest) => NoDelimiter(text + [OPEN_BLOCK[0]]) && Proper(inner) && Proper(rest)
  }

  lemma BlockGoesOn(depth: pos, b: byte, rest: seq<byte>)
    requires !Starts([b] + rest, OPEN_BLOCK) && !Starts([b] + rest, CLOSE_BLOCK)
    ensures Scrub(Block(depth), [b] + rest) == Blanked([b]) + Scrub(Block(depth), rest)
  {
    Turns(Block(depth), [b], rest, Blanked([b]), Block(depth));
  }

  lemma BlockOpens(rest: seq<byte>)
    ensures Scrub(Code, OPEN_BLOCK + rest) == [BLANK, BLANK] + Scrub(Block(1), rest)
  {
    Turns(Code, OPEN_BLOCK, rest, [BLANK, BLANK], Block(1));
  }

  lemma BlockNests(depth: pos, rest: seq<byte>)
    ensures Scrub(Block(depth), OPEN_BLOCK + rest) == [BLANK, BLANK] + Scrub(Block(depth + 1), rest)
  {
    Turns(Block(depth), OPEN_BLOCK, rest, [BLANK, BLANK], Block(depth + 1));
  }

  lemma BlockEnds(depth: pos, rest: seq<byte>)
    ensures Scrub(Block(depth), CLOSE_BLOCK + rest) ==
            [BLANK, BLANK] + Scrub(if depth == 1 then Code else Block(depth - 1), rest)
  {
    Turns(Block(depth), CLOSE_BLOCK, rest, [BLANK, BLANK], if depth == 1 then Code else Block(depth - 1));
  }

  /** Text without a delimiter, also not together with the first byte of what follows. */
  lemma {:induction false} InBlock(depth: pos, text: seq<byte>, ahead: seq<byte>, rest: seq<byte>)
    requires |ahead| <= 1 && ahead <= rest && (ahead == [] ==> rest == [])
    requires NoDelimiter(text + ahead)
    ensures Scrub(Block(depth), text + rest) == Blanked(text) + Scrub(Block(depth), rest)
  {
    hide Scrub, Step, Has, Starts;
    if text == [] {
      assert text + rest == rest && Blanked(text) == [] && [] + Scrub(Block(depth), rest) == Scrub(Block(depth), rest);
    } else {
      HasNotLater(text + ahead, OPEN_BLOCK);
      HasNotLater(text + ahead, CLOSE_BLOCK);
      assert (text + ahead)[1..] == text[1..] + ahead;
      assert text + rest == [text[0]] + (text[1..] + rest);
      PairSeen(text, ahead, rest, OPEN_BLOCK);
      PairSeen(text, ahead, rest, CLOSE_BLOCK);
      BlockGoesOn(depth, text[0], text[1..] + rest);
      InBlock(depth, text[1..], ahead, rest);
      BlankedFirst(text);
      Regroup(Blanked([text[0]]), Blanked(text[1..]), Scrub(Block(depth), rest));
    }
  }

  lemma PairSeen(text: seq<byte>, ahead: seq<byte>, rest: seq<byte>, pair: seq<byte>)
    requires text != [] && |ahead| <= 1 && ahead <= rest && (ahead == [] ==> rest == []) && |pair| == 2
    ensures Starts(text + rest, pair) ==> Starts(text + ahead, pair)
  {
    if Starts(text + rest, pair) {
      assert |text + ahead| >= 2;
      assert forall i :: 0 <= i < 2 ==> (text + ahead)[i] == (text + rest)[i];
    }
  }

  lemma NothingBlanked()
    ensures Blanked([]) == []
  {
  }

  lemma BlankedPair(a: byte, b: byte)
    requires a != LF && b != LF
    ensures Blanked([a, b]) == [BLANK, BLANK]
  {
  }

  lemma Assemble(a: seq<byte>, open: seq<byte>, b: seq<byte>, close: seq<byte>, c: seq<byte>, rest: seq<byte>)
    ensures a + open + b + close + c + close + rest == a + (open + (b + close + (c + close + rest)))
  {
  }

  /** What is written inside, at any depth, is blanked, and the delimiter after it ends that depth. */
  lemma {:induction false} InComment(depth: pos, p: Prose, rest: seq<byte>)
    requires Proper(p)
    ensures Scrub(Block(depth), Written(p) + CLOSE_BLOCK + rest) ==
            Blanked(Written(p)) + [BLANK, BLANK] + Scrub(if depth == 1 then Code else Block(depth - 1), rest)
    decreases p
  {
    hide Scrub, Step, NoDelimiter, Blanked;
    match p {
      case Plain(text) =>
        InBlock(depth, text, [CLOSE_BLOCK[0]], CLOSE_BLOCK + rest);
        BlockEnds(depth, rest);
        assert text + CLOSE_BLOCK + rest == text + (CLOSE_BLOCK + rest);
      case Around(text, inner, more) =>
        var afterInner := Written(more) + CLOSE_BLOCK + rest;
        var nested := Written(inner) + CLOSE_BLOCK + afterInner;
        InBlock(depth, text, [OPEN_BLOCK[0]], OPEN_BLOCK + nested);
        BlockNests(depth, nested);
        InComment(depth + 1, inner, afterInner);
        InComment(depth, more, rest);
        AroundBlanked(text, Written(inner), Written(more));
        Assemble(text, OPEN_BLOCK, Written(inner), CLOSE_BLOCK, Written(more), rest);
        Assemble(Blanked(text), [BLANK, BLANK], Blanked(Written(inner)), [BLANK, BLANK], Blanked(Written(more)),
                 Scrub(if depth == 1 then Code else Block(depth - 1), rest));
    }
  }

  lemma AroundBlanked(text: seq<byte>, inner: seq<byte>, more: seq<byte>)
    ensures Blanked(text + OPEN_BLOCK + inner + CLOSE_BLOCK + more) ==
            Blanked(text) + [BLANK, BLANK] + Blanked(inner) + [BLANK, BLANK] + Blanked(more)
  {
    hide Blanked;
    BlankedConcat(text + OPEN_BLOCK + inner + CLOSE_BLOCK, more);
    BlankedConcat(text + OPEN_BLOCK + inner, CLOSE_BLOCK);
    BlankedConcat(text + OPEN_BLOCK, inner);
    BlankedConcat(text, OPEN_BLOCK);
    BlankedPair('/' as int, '*' as int);
    BlankedPair('*' as int, '/' as int);
  }

  /** Block comments nest: one ends where the comments inside it have ended. */
  lemma BlockComment(p: Prose, rest: seq<byte>)
    requires Proper(p)
    ensures Scrub(Code, OPEN_BLOCK + Written(p) + CLOSE_BLOCK + rest) ==
            [BLANK, BLANK] + Blanked(Written(p)) + [BLANK, BLANK] + Scrub(Code, rest)
  {
    hide Scrub, Step, Blanked, Proper, Written;
    BlockOpens(Written(p) + CLOSE_BLOCK + rest);
    InComment(1, p, rest);
    assert OPEN_BLOCK + Written(p) + CLOSE_BLOCK + rest == OPEN_BLOCK + (Written(p) + CLOSE_BLOCK + rest);
  }

  lemma AfterPair(s: seq<byte>, pair: seq<byte>, part: seq<byte>)
    requires |pair| == 2 && Starts(s, pair) && !Has(s, part)
    ensures s == pair + s[2..] && !Has(s[2..], part)
  {
    hide Has;
    HasNotLater(s, part);
    HasNotLater(s[1..], part);
    assert s[1..][1..] == s[2..];
  }

  lemma {:induction false} NeverClosed(depth: pos, body: seq<byte>)
    requires !Has(body, CLOSE_BLOCK)
    ensures Scrub(Block(depth), body) == Blanked(body)
    decreases |body|
  {
    hide Scrub, Step, Has, Blanked, Starts;
    if body == [] {
      Ended(Block(depth));
      NothingBlanked();
    } else {
      HasNotLater(body, CLOSE_BLOCK);
      if Starts(body, OPEN_BLOCK) {
        AfterPair(body, OPEN_BLOCK, CLOSE_BLOCK);
        BlockNests(depth, body[2..]);
        NeverClosed(depth + 1, body[2..]);
        BlankedConcat(OPEN_BLOCK, body[2..]);
        BlankedPair('/' as int, '*' as int);
      } else {
        assert body == [body[0]] + body[1..];
        BlockGoesOn(depth, body[0], body[1..]);
        NeverClosed(depth, body[1..]);
        BlankedFirst(body);
      }
    }
  }

  /** A comment that is never closed, or closes only comments inside it, runs to the end of the file. */
  lemma UnendedBlockComment(body: seq<byte>)
    requires !Has(body, CLOSE_BLOCK)
    ensures Scrub(Code, OPEN_BLOCK + body) == [BLANK, BLANK] + Blanked(body)
  {
    hide Scrub, Step, Has;
    BlockOpens(body);
    NeverClosed(1, body);
  }

  lemma {:induction false} InOpenComment(depth: pos, p: Prose)
    requires Proper(p)
    ensures Scrub(Block(depth), Written(p)) == Blanked(Written(p))
    decreases p
  {
    hide Scrub, Step, NoDelimiter, Blanked;
    match p {
      case Plain(text) =>
        NoDelimiterShorter(text, CLOSE_BLOCK[0]);
        assert text + [] == text;
        InBlock(depth, text, [], []);
        Ended(Block(depth));
        assert Blanked(text) + [] == Blanked(text);
      case Around(text, inner, more) =>
        var nested := Written(inner) + CLOSE_BLOCK + Written(more);
        InBlock(depth, text, [OPEN_BLOCK[0]], OPEN_BLOCK + nested);
        BlockNests(depth, nested);
        InComment(depth + 1, inner, Written(more));
        InOpenComment(depth, more);
        AroundBlanked(text, Written(inner), Written(more));
        assert Written(p) == text + (OPEN_BLOCK + nested);
    }
  }

  lemma NoDelimiterShorter(text: seq<byte>, b: byte)
    requires NoDelimiter(text + [b])
    ensures NoDelimiter(text)
  {
    forall i | 0 <= i <= |text| ensures !Starts(text[i..], OPEN_BLOCK) && !Starts(text[i..], CLOSE_BLOCK) {
      assert (text + [b])[i..] == text[i..] + [b];
    }
  }

  lemma UnendedOuterComment(p: Prose)
    requires Proper(p)
    ensures Scrub(Code, OPEN_BLOCK + Written(p)) == [BLANK, BLANK] + Blanked(Written(p))
  {
    hide Scrub, Step, Blanked, Proper, Written;
    BlockOpens(Written(p));
    InOpenComment(1, p);
  }
}
