/** The symbol a reference at a byte offset is attributed to. */
module Enclosing {
  import opened Symbols
  import opened NodeQueries

  datatype Span = Span(start: u32, end: u32, id: SymbolId)

  function SpanOf(n: SymbolNode): Span {
    Span(n.spanStart, n.spanEnd, n.id)
  }

  function ToSpans(ns: seq<SymbolNode>): (r: seq<Span>)
    ensures |r| == |ns| && forall i :: 0 <= i < |ns| ==> r[i] == SpanOf(ns[i])
  {
    if ns == [] then [] else [SpanOf(ns[0])] + ToSpans(ns[1..])
  }

  /** Before the first span that starts no earlier, so that equal starts keep their order. */
  function InsertSpan(x: Span, s: seq<Span>): seq<Span> {
    if s == [] || x.start <= s[0].start then [x] + s else [s[0]] + InsertSpan(x, s[1..])
  }

  function SortByStart(s: seq<Span>): seq<Span> {
    if s == [] then [] else InsertSpan(s[0], SortByStart(s[1..]))
  }

  ghost predicate SortedByStart(s: seq<Span>) {
    forall i, j :: 0 <= i < j < |s| ==> s[i].start <= s[j].start
  }

  lemma {:induction false} InsertSpanContents(x: Span, s: seq<Span>)
    ensures multiset(InsertSpan(x, s)) == multiset{x} + multiset(s)
  {
    if s != [] && x.start > s[0].start {
      InsertSpanContents(x, s[1..]);
      assert s == [s[0]] + s[1..];
    }
  }

  lemma ConsSorted(x: Span, s: seq<Span>)
    requires SortedByStart(s) && forall y :: y in s ==> x.start <= y.start
    ensures SortedByStart([x] + s)
  {
    forall i, j | 0 <= i < j < |s| + 1 ensures ([x] + s)[i].start <= ([x] + s)[j].start {
      assert ([x] + s)[j] == s[j - 1];
    }
  }

  lemma {:induction false} InsertSpanSorted(x: Span, s: seq<Span>)
    requires SortedByStart(s)
    ensures SortedByStart(InsertSpan(x, s))
  {
    if s == [] || x.start <= s[0].start {
      ConsSorted(x, s);
    } else {
      var t := InsertSpan(x, s[1..]);
      InsertSpanSorted(x, s[1..]);
      InsertSpanContents(x, s[1..]);
      forall y | y in t ensures s[0].start <= y.start {
        assert y in multiset(t);
        assert y == x || y in s[1..];
      }
      ConsSorted(s[0], t);
    }
  }

  lemma {:induction false} SortByStartSorts(s: seq<Span>)
    ensures SortedByStart(SortByStart(s)) && multiset(SortByStart(s)) == multiset(s)
    ensures forall y :: y in SortByStart(s) <==> y in s
  {
    if s != [] {
      SortByStartSorts(s[1..]);
      InsertSpanSorted(s[0], SortByStart(s[1..]));
      InsertSpanContents(s[0], SortByStart(s[1..]));
      assert s == [s[0]] + s[1..];
      assert forall y :: y in SortByStart(s) <==> y in multiset(SortByStart(s));
      assert forall y :: y in s <==> y in multiset(s);
    }
  }

  predicate Covers(x: Span, offset: u32) {
    x.start <= offset <= x.end
  }

  /** The narrowest span that covers the offset, the first of equals. */
  function Narrowest(s: seq<Span>, offset: u32): Option<Span> {
    if s == [] then None
    else
      var rest := Narrowest(s[1..], offset);
      if Covers(s[0], offset) &&
         (rest.None? || s[0].end - s[0].start <= rest.value.end - rest.value.start)
      then Some(s[0])
      else rest
  }

  /** The last span that starts at or before the offset. */
  function LastStarting(s: seq<Span>, offset: u32): Option<Span> {
    if s == [] then None
    else if s[|s| - 1].start <= offset then Some(s[|s| - 1])
    else LastStarting(s[..|s| - 1], offset)
  }

  function EnclosingIn(s: seq<Span>, offset: u32): Option<SymbolId> {
    match Narrowest(s, offset)
    case Some(x) => Some(x.id)
    case None => match LastStarting(s, offset) case Some(x) => Some(x.id) case None => None
  }

  function SpansOf(ns: seq<SymbolNode>, file: Path): seq<Span> {
    SortByStart(ToSpans(Select(DefinedAt(file), ns)))
  }

  function EnclosingSymbol(ns: seq<SymbolNode>, file: Path, offset: u32): Option<SymbolId> {
    EnclosingIn(SpansOf(ns, file), offset)
  }

  lemma {:induction false} NarrowestIsNarrowest(s: seq<Span>, offset: u32)
    ensures Narrowest(s, offset).Some? <==> exists x :: x in s && Covers(x, offset)
    ensures Narrowest(s, offset).Some? ==>
              var x := Narrowest(s, offset).value;
              x in s && Covers(x, offset) &&
              forall y :: y in s && Covers(y, offset) ==> x.end - x.start <= y.end - y.start
  {
    if s != [] {
      NarrowestIsNarrowest(s[1..], offset);
      assert s == [s[0]] + s[1..];
    }
  }

  lemma {:induction false} LastStartingIsLatest(s: seq<Span>, offset: u32)
    requires SortedByStart(s)
    ensures LastStarting(s, offset).Some? <==> exists x :: x in s && x.start <= offset
    ensures LastStarting(s, offset).Some? ==>
              var x := LastStarting(s, offset).value;
              x in s && x.start <= offset && forall y :: y in s && y.start <= offset ==> y.start <= x.start
  {
    if s != [] {
      var t, last := s[..|s| - 1], s[|s| - 1];
      assert s == t + [last];
      if last.start <= offset {
        assert last in s;
        forall y | y in s ensures y.start <= last.start {
          var k :| 0 <= k < |s| && s[k] == y;
        }
      } else {
        LastStartingIsLatest(t, offset);
        assert forall y :: y in s <==> y in t || y == last;
      }
    }
  }

  lemma {:induction false} ToSpansMembers(ns: seq<SymbolNode>)
    ensures forall x :: x in ToSpans(ns) <==> exists n :: n in ns && SpanOf(n) == x
  {
    if ns != [] {
      ToSpansMembers(ns[1..]);
      assert ns == [ns[0]] + ns[1..];
    }
  }

  lemma SpansOfMembers(ns: seq<SymbolNode>, file: Path)
    ensures SortedByStart(SpansOf(ns, file))
    ensures forall x :: x in SpansOf(ns, file) <==> exists n :: n in ns && n.file == file && SpanOf(n) == x
  {
    hide Select, SortByStart, ToSpans;
    var here := Select(DefinedAt(file), ns);
    SelectMembers(DefinedAt(file), ns);
    SortByStartSorts(ToSpans(here));
    ToSpansMembers(here);
  }

  ghost predicate StartsBefore(n: SymbolNode, file: Path, offset: u32) {
    n.file == file && n.spanStart <= offset
  }

  /**
    A symbol is found exactly when some definition of the file starts at or before the offset.
    It is a narrowest definition covering the offset when one does, and otherwise one that starts
    latest before it.
   */
  lemma EnclosingSymbolMeaning(ns: seq<SymbolNode>, file: Path, offset: u32)
    ensures EnclosingSymbol(ns, file, offset).Some? <==> exists n :: n in ns && StartsBefore(n, file, offset)
    ensures EnclosingSymbol(ns, file, offset).Some? ==>
              exists n :: n in ns && n.id == EnclosingSymbol(ns, file, offset).value && StartsBefore(n, file, offset) &&
                if exists m :: m in ns && m.file == file && m.spanStart <= offset <= m.spanEnd
                then n.spanEnd >= offset &&
                     forall m :: m in ns && m.file == file && m.spanStart <= offset <= m.spanEnd ==>
                       n.spanEnd - n.spanStart <= m.spanEnd - m.spanStart
                else forall m :: m in ns && StartsBefore(m, file, offset) ==> m.spanStart <= n.spanStart
  {
    hide SpansOf, Narrowest, LastStarting;
    var s := SpansOf(ns, file);
    SpansOfMembers(ns, file);
    NarrowestIsNarrowest(s, offset);
    LastStartingIsLatest(s, offset);
    forall m | m in ns && m.file == file ensures SpanOf(m) in s {
    }
    if Narrowest(s, offset).Some? {
      var x := Narrowest(s, offset).value;
      var n :| n in ns && n.file == file && SpanOf(n) == x;
      assert StartsBefore(n, file, offset);
    } else if LastStarting(s, offset).Some? {
      var x := LastStarting(s, offset).value;
      var n :| n in ns && n.file == file && SpanOf(n) == x;
      assert StartsBefore(n, file, offset);
    } else {
      assert forall n :: n in ns && n.file == file ==> SpanOf(n) in s;
    }
  }

  lemma EnclosingSymbolLives(ns: seq<SymbolNode>, file: Path, offset: u32)
    requires EnclosingSymbol(ns, file, offset).Some?
    ensures EnclosingSymbol(ns, file, offset).value in Ids(ns)
  {
    hide EnclosingSymbol;
    EnclosingSymbolMeaning(ns, file, offset);
  }
}
