/** The scanner that blanks comments, strings and character literals of Kotlin sources. */
module Scrubber {
  import opened Symbols
  import opened Bytes
  import opened Utf8

  const SLASH: byte := '/' as int
  const STAR: byte := '*' as int
  const QUOTE: byte := '"' as int
  const APOSTROPHE: byte := '\'' as int
  const BACKSLASH: byte := '\\' as int

  type pos = n: int | n >= 1 witness 1

  datatype State = Code | Line | Block(depth: pos) | Str | Raw | Char

  /** What one turn of the loop writes, one byte per byte read, and the state it leaves. */
  datatype Turn = Turn(out: seq<byte>, next: State)

  function Blank(b: byte): byte {
    if b == NEWLINE then NEWLINE else SPACE
  }

  predicate At(s: seq<byte>, i: nat, b: byte) {
    i < |s| && s[i] == b
  }

  function Step(st: State, s: seq<byte>): (t: Turn)
    requires s != []
    ensures 1 <= |t.out| <= |s|
  {
    var b := s[0];
    match st
    case Code =>
      if b == SLASH && At(s, 1, SLASH) then Turn([SPACE, SPACE], Line)
      else if b == SLASH && At(s, 1, STAR) then Turn([SPACE, SPACE], Block(1))
      else if b == QUOTE && At(s, 2, QUOTE) && s[1] == QUOTE then Turn([SPACE, SPACE, SPACE], Raw)
      else if b == QUOTE then Turn([SPACE], Str)
      else if b == APOSTROPHE then Turn([SPACE], Char)
      else Turn([b], Code)
    case Line => Turn([Blank(b)], if b == NEWLINE then Code else Line)
    case Block(depth) =>
      if b == SLASH && At(s, 1, STAR) then Turn([SPACE, SPACE], Block(depth + 1))
      else if b == STAR && At(s, 1, SLASH) then Turn([SPACE, SPACE], if depth == 1 then Code else Block(depth - 1))
      else Turn([Blank(b)], st)
    case Raw =>
      if b == QUOTE && At(s, 2, QUOTE) && s[1] == QUOTE then Turn([SPACE, SPACE, SPACE], Code)
      else Turn([Blank(b)], Raw)
    case _ =>
      if b == BACKSLASH && |s| > 1 then Turn([SPACE, SPACE], st)
      else if b == (if st.Str? then QUOTE else APOSTROPHE) then Turn([SPACE], Code)
      else Turn([Blank(b)], st)
  }

  function Scrub(st: State, s: seq<byte>): (r: seq<byte>)
    ensures |r| == |s|
    decreases |s|
  {
    if s == [] then []
    else Step(st, s).out + Scrub(Step(st, s).next, s[|Step(st, s).out|..])
  }

  /** One turn of the scanner loop at index `i`. */
  method Scan(bytes: seq<byte>, i: nat, st: State) returns (more: seq<byte>, next: State)
    requires i < |bytes|
    ensures Turn(more, next) == Step(st, bytes[i..])
  {
    var b := bytes[i];
    more, next := [Blank(b)], st;
    if st == Code {
      if b == SLASH && i + 1 < |bytes| && bytes[i + 1] == SLASH {
        more, next := [SPACE, SPACE], Line;
      } else if b == SLASH && i + 1 < |bytes| && bytes[i + 1] == STAR {
        more, next := [SPACE, SPACE], Block(1);
      } else if b == QUOTE && i + 2 < |bytes| && bytes[i + 1] == QUOTE && bytes[i + 2] == QUOTE {
        more, next := [SPACE, SPACE, SPACE], Raw;
      } else if b == QUOTE {
        more, next := [SPACE], Str;
      } else if b == APOSTROPHE {
        more, next := [SPACE], Char;
      } else {
        more := [b];
      }
    } else if st == Line {
      if b == NEWLINE {
        next := Code;
      }
    } else if st.Block? {
      if b == SLASH && i + 1 < |bytes| && bytes[i + 1] == STAR {
        more, next := [SPACE, SPACE], Block(st.depth + 1);
      } else if b == STAR && i + 1 < |bytes| && bytes[i + 1] == SLASH {
        more, next := [SPACE, SPACE], if st.depth == 1 then Code else Block(st.depth - 1);
      }
    } else if st == Raw {
      if b == QUOTE && i + 2 < |bytes| && bytes[i + 1] == QUOTE && bytes[i + 2] == QUOTE {
        more, next := [SPACE, SPACE, SPACE], Code;
      }
    } else if b == BACKSLASH && i + 1 < |bytes| {
      more := [SPACE, SPACE];
    } else if b == (if st == Str then QUOTE else APOSTROPHE) {
      more, next := [SPACE], Code;
    }
  }

  /** The scanner; if its output were not UTF-8 the source would be returned instead. */
  method BlankCommentsAndStrings(source: seq<byte>) returns (result: seq<byte>)
    ensures result == if Valid(Scrub(Code, source)) then Scrub(Code, source) else source
  {
    hide Step;
    var out: seq<byte> := [];
    var st := Code;
    var i := 0;
    while i < |source|
      invariant i <= |source| && out + Scrub(st, source[i..]) == Scrub(Code, source)
    {
      var more, next := Scan(source, i, st);
      assert source[i..][|more|..] == source[i + |more|..];
      assert out + (more + Scrub(next, source[i + |more|..])) == out + more + Scrub(next, source[i + |more|..]);
      out, st, i := out + more, next, i + |more|;
    }
    assert out == Scrub(Code, source);
    return if Valid(out) then out else source;
  }

  // ------------------------------------------------------------ what each byte becomes

  /** The state in which the scanner meets byte `i`, or None when `i` is swallowed by an earlier turn. */
  function StateAt(st: State, s: seq<byte>, i: nat): Option<State>
    requires i < |s|
    decreases |s|
  {
    if i == 0 then Some(st)
    else
      var t := Step(st, s);
      if i < |t.out| then None else StateAt(t.next, s[|t.out|..], i - |t.out|)
  }

  /** In code, `s` starts a comment or a literal. */
  predicate Opens(s: seq<byte>) {
    s != [] && (s[0] == QUOTE || s[0] == APOSTROPHE || (s[0] == SLASH && (At(s, 1, SLASH) || At(s, 1, STAR))))
  }

  /**
    Bytes met in code and opening nothing are kept; bytes met elsewhere become a space, or stay a
    newline; bytes swallowed with an earlier one become a space.
   */
  lemma {:induction false} EachByte(st: State, s: seq<byte>, i: nat)
    requires i < |s|
    ensures Scrub(st, s)[i] ==
            match StateAt(st, s, i)
            case None => SPACE
            case Some(Code) => if Opens(s[i..]) then SPACE else s[i]
            case Some(_) => Blank(s[i])
    decreases |s|
  {
    var t := Step(st, s);
    if i < |t.out| {
      StepByte(st, s, i);
      assert Scrub(st, s)[i] == t.out[i];
      assert i == 0 ==> s[i..] == s;
    } else {
      EachByte(t.next, s[|t.out|..], i - |t.out|);
      assert s[|t.out|..][i - |t.out|..] == s[i..];
    }
  }

  lemma StepByte(st: State, s: seq<byte>, i: nat)
    requires s != [] && i < |Step(st, s).out|
    ensures i > 0 ==> Step(st, s).out[i] == SPACE
    ensures i == 0 && st.Code? ==> Step(st, s).out[0] == if Opens(s) then SPACE else s[0]
    ensures i == 0 && !st.Code? ==> Step(st, s).out[0] == Blank(s[0])
  {
  }

  /** Output bytes are input bytes or spaces; no newline is made up. */
  lemma OnlyBlanks(s: seq<byte>, i: nat)
    requires i < |s|
    ensures Scrub(Code, s)[i] == s[i] || Scrub(Code, s)[i] == SPACE
    ensures Scrub(Code, s)[i] == NEWLINE ==> s[i] == NEWLINE
  {
    hide Step, StateAt;
    EachByte(Code, s, i);
  }

  /** A newline is lost exactly when it is escaped: right after a backslash that the scanner meets inside a literal. */
  lemma NewlinesSurvive(s: seq<byte>, i: nat)
    requires i < |s| && s[i] == NEWLINE
    ensures Scrub(Code, s)[i] == NEWLINE <==>
            !(i > 0 && s[i - 1] == BACKSLASH &&
              (StateAt(Code, s, i - 1) == Some(Str) || StateAt(Code, s, i - 1) == Some(Char)))
  {
    hide Step, StateAt;
    EachByte(Code, s, i);
    SwallowedNewline(Code, s, i);
  }

  lemma {:induction false} SwallowedNewline(st: State, s: seq<byte>, i: nat)
    requires i < |s| && s[i] == NEWLINE
    ensures StateAt(st, s, i) == None <==>
            i > 0 && s[i - 1] == BACKSLASH &&
            (StateAt(st, s, i - 1) == Some(Str) || StateAt(st, s, i - 1) == Some(Char))
    decreases |s|
  {
    if i > 0 {
      var t := Step(st, s);
      if i < |t.out| {
        SwallowedHere(st, s, i);
      } else if i == |t.out| {
        NotSwallowed(st, s, i);
      } else {
        SwallowedNewline(t.next, s[|t.out|..], i - |t.out|);
      }
    }
  }

  lemma SwallowedHere(st: State, s: seq<byte>, i: nat)
    requires s != [] && 0 < i < |Step(st, s).out| && s[i] == NEWLINE
    ensures i == 1 && s[0] == BACKSLASH && (st == Str || st == Char)
  {
  }

  /** The byte after a turn: were it escaped by the turn's last byte, it would belong to the turn. */
  lemma NotSwallowed(st: State, s: seq<byte>, i: nat)
    requires s != [] && i == |Step(st, s).out| < |s|
    ensures StateAt(st, s, i) != None
    ensures !(s[i - 1] == BACKSLASH && (StateAt(st, s, i - 1) == Some(Str) || StateAt(st, s, i - 1) == Some(Char)))
  {
  }

  // ------------------------------------------------------------ UTF-8

  function Spaces(n: nat): (r: seq<byte>)
    ensures |r| == n && forall i :: 0 <= i < n ==> r[i] == SPACE
  {
    if n == 0 then [] else [SPACE] + Spaces(n - 1)
  }

  lemma {:induction false} SpacesValid(n: nat, t: seq<byte>)
    requires Valid(t)
    ensures Valid(Spaces(n) + t)
  {
    if n == 0 {
      assert Spaces(0) + t == t;
    } else {
      SpacesValid(n - 1, t);
      var all := Spaces(n) + t;
      assert CharLen(all) == 1 && all[1..] == Spaces(n - 1) + t;
    }
  }

  lemma HighStep(st: State, s: seq<byte>)
    requires s != [] && s[0] >= 0x80
    ensures Step(st, s) == Turn([if st.Code? then s[0] else SPACE], st)
  {
  }

  lemma ScrubHigh(st: State, s: seq<byte>)
    requires s != [] && s[0] >= 0x80
    ensures Scrub(st, s) == [if st.Code? then s[0] else SPACE] + Scrub(st, s[1..])
  {
    hide Step;
    HighStep(st, s);
  }

  lemma Regroup(a: seq<byte>, b: seq<byte>, c: seq<byte>)
    ensures a + (b + c) == (a + b) + c
  {
  }

  lemma OneMoreSpace(n: nat)
    requires n > 0
    ensures [SPACE] + Spaces(n - 1) == Spaces(n)
  {
  }

  /** Bytes of multi-byte characters never change the state: code keeps them, the rest blanks them. */
  lemma {:induction false} HighBytes(st: State, s: seq<byte>, n: nat)
    requires n <= |s| && forall i :: 0 <= i < n ==> s[i] >= 0x80
    ensures Scrub(st, s) == (if st.Code? then s[..n] else Spaces(n)) + Scrub(st, s[n..])
  {
    hide Step, Scrub, Spaces;
    if n == 0 {
      assert s[0..] == s;
      assert Spaces(0) == [];
    } else {
      var rest := Scrub(st, s[n..]);
      ScrubHigh(st, s);
      HighBytes(st, s[1..], n - 1);
      assert s[1..][n - 1..] == s[n..];
      if st.Code? {
        assert s[..n] == [s[0]] + s[1..][..n - 1];
        Regroup([s[0]], s[1..][..n - 1], rest);
      } else {
        OneMoreSpace(n);
        Regroup([SPACE], Spaces(n - 1), rest);
      }
    }
  }

  lemma {:induction false} AsciiPrefix(out: seq<byte>, t: seq<byte>)
    requires Valid(t) && forall i :: 0 <= i < |out| ==> out[i] < 0x80
    ensures Valid(out + t)
  {
    if out == [] {
      assert out + t == t;
    } else {
      AsciiPrefix(out[1..], t);
      var all := out + t;
      assert CharLen(all) == 1 && all[1..] == out[1..] + t;
    }
  }

  lemma {:induction false} DropAscii(s: seq<byte>, n: nat)
    requires Valid(s) && n <= |s| && forall i :: 0 <= i < n ==> s[i] < 0x80
    ensures Valid(s[n..])
  {
    if n == 0 {
      assert s[0..] == s;
    } else {
      DropAscii(s[1..], n - 1);
      assert s[1..][n - 1..] == s[n..];
    }
  }

  /** A turn that starts at an ASCII byte reads ASCII bytes only, or it is an escape in a literal. */
  lemma AsciiTurn(st: State, s: seq<byte>)
    requires s != [] && s[0] < 0x80
    ensures forall i :: 0 <= i < |Step(st, s).out| ==> Step(st, s).out[i] < 0x80
    ensures (forall i :: 0 <= i < |Step(st, s).out| ==> s[i] < 0x80)
            || (|Step(st, s).out| == 2 && Step(st, s).next == st && !st.Code?)
  {
  }

  lemma WholeChar(st: State, s: seq<byte>)
    requires s != [] && s[0] >= 0x80 && CharLen(s) > 0 && Valid(Scrub(st, s[CharLen(s)..]))
    ensures Valid(Scrub(st, s))
  {
    hide Step, CharLen, Valid;
    var n := CharLen(s);
    CharBytes(s);
    HighBytes(st, s, n);
    if st.Code? {
      CharKept(s, Scrub(st, s[n..]));
    } else {
      SpacesValid(n, Scrub(st, s[n..]));
    }
  }

  lemma WholeTurn(st: State, s: seq<byte>)
    requires s != [] && s[0] < 0x80 && Valid(Scrub(Step(st, s).next, s[|Step(st, s).out|..]))
    ensures Valid(Scrub(st, s))
  {
    hide Step, Valid;
    AsciiTurn(st, s);
    AsciiPrefix(Step(st, s).out, Scrub(Step(st, s).next, s[|Step(st, s).out|..]));
  }

  lemma AfterEscape(st: State, s: seq<byte>)
    requires Valid(s) && |s| >= 2 && s[0] < 0x80 && !st.Code? && Valid(Scrub(st, s[1 + CharLen(s[1..])..]))
    ensures Valid(Scrub(st, s[2..]))
  {
    hide Scrub, Step, Valid, CharLen;
    EscapedChar(st, s);
    SpacesValid(CharLen(s[1..]) - 1, Scrub(st, s[1 + CharLen(s[1..])..]));
  }

  /** Characters are kept whole in code and blanked whole elsewhere, even when an escape splits one. */
  lemma {:induction false} ScrubValid(st: State, s: seq<byte>)
    requires Valid(s)
    ensures Valid(Scrub(st, s))
    decreases |s|
  {
    hide Step, CharLen, Scrub;
    if s == [] {
      assert Scrub(st, s) == s;
    } else if s[0] >= 0x80 {
      ScrubValid(st, s[CharLen(s)..]);
      WholeChar(st, s);
    } else {
      var t := Step(st, s);
      AsciiTurn(st, s);
      if forall i :: 0 <= i < |t.out| ==> s[i] < 0x80 {
        DropAscii(s, |t.out|);
        ScrubValid(t.next, s[|t.out|..]);
      } else {
        EscapedChar(st, s);
        ScrubValid(st, s[1 + CharLen(s[1..])..]);
        AfterEscape(st, s);
      }
      WholeTurn(st, s);
    }
  }

  /** The rest of a character whose first byte was escaped is blanked. */
  lemma EscapedChar(st: State, s: seq<byte>)
    requires Valid(s) && |s| >= 2 && s[0] < 0x80 && !st.Code?
    ensures var m := CharLen(s[1..]);
            && 1 <= m <= |s| - 1 && Valid(s[1 + m..])
            && Scrub(st, s[2..]) == Spaces(m - 1) + Scrub(st, s[1 + m..])
  {
    hide Step;
    var rest := s[1..];
    var m := CharLen(rest);
    CharBytes(s);
    CharBytes(rest);
    assert rest[m..] == s[1 + m..];
    assert forall i :: 0 <= i < m - 1 ==> s[2..][i] == rest[i + 1];
    HighBytes(st, s[2..], m - 1);
    assert s[2..][m - 1..] == s[1 + m..];
  }

  /** Valid text stays valid, so the scanner never falls back to the source. */
  lemma FallbackUnreachable(source: seq<byte>)
    requires Valid(source)
    ensures Valid(Scrub(Code, source))
  {
    ScrubValid(Code, source);
  }

  // ------------------------------------------------------------ scrubbing twice

  /** Nothing in `s` opens a comment or a literal. */
  ghost predicate Clean(s: seq<byte>) {
    forall i :: 0 <= i < |s| ==>
      s[i] != QUOTE && s[i] != APOSTROPHE && (s[i] == SLASH ==> !At(s, i + 1, SLASH) && !At(s, i + 1, STAR))
  }

  /** What is kept was code that opened nothing, so the output opens nothing. */
  lemma OutputIsClean(s: seq<byte>)
    ensures Clean(Scrub(Code, s))
  {
    hide Step, StateAt;
    var r := Scrub(Code, s);
    forall i | 0 <= i < |s|
      ensures r[i] != QUOTE && r[i] != APOSTROPHE && (r[i] == SLASH ==> !At(r, i + 1, SLASH) && !At(r, i + 1, STAR))
    {
      EachByte(Code, s, i);
      OnlyBlanks(s, i);
      if i + 1 < |s| {
        OnlyBlanks(s, i + 1);
      }
      assert s[i..][0] == s[i] && (i + 1 < |s| ==> s[i..][1] == s[i + 1]);
    }
  }

  lemma {:induction false} CleanIsKept(s: seq<byte>)
    requires Clean(s)
    ensures Scrub(Code, s) == s
  {
    if s != [] {
      assert Step(Code, s) == Turn([s[0]], Code);
      assert forall i :: 0 <= i < |s| - 1 ==> s[1..][i] == s[i + 1];
      CleanTail(s);
      CleanIsKept(s[1..]);
    }
  }

  lemma CleanTail(s: seq<byte>)
    requires s != [] && Clean(s)
    ensures Clean(s[1..])
  {
    var r := s[1..];
    forall i | 0 <= i < |r|
      ensures r[i] != QUOTE && r[i] != APOSTROPHE && (r[i] == SLASH ==> !At(r, i + 1, SLASH) && !At(r, i + 1, STAR))
    {
      assert r[i] == s[i + 1];
      assert i + 1 < |r| ==> r[i + 1] == s[i + 2];
    }
  }

  lemma ScrubTwice(s: seq<byte>)
    ensures Scrub(Code, Scrub(Code, s)) == Scrub(Code, s)
  {
    OutputIsClean(s);
    CleanIsKept(Scrub(Code, s));
  }
}
