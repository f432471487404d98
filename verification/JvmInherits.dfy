/** Which files are Java or Kotlin, by the spelling of their names, and what that means for Inherits edges. */
module JvmInherits {
  import opened Symbols
  import opened SymbolGraphs
  import opened DeriveStages

  lemma {:induction false} LastDotOf(stem: string, ext: string)
    requires '.' !in ext
    ensures LastDot(stem + "." + ext) == Some(|stem|)
    decreases |ext|
  {
    var s := stem + "." + ext;
    if ext != [] {
      assert s[..|s| - 1] == stem + "." + ext[..|ext| - 1];
      LastDotOf(stem, ext[..|ext| - 1]);
    } else {
      assert s[|s| - 1] == '.';
    }
  }

  lemma {:induction false} NoDot(s: string)
    requires '.' !in s
    ensures LastDot(s) == None
  {
    if s != [] {
      NoDot(s[..|s| - 1]);
    }
  }

  /** What follows the last dot of a file name is its extension, what precedes it the stem. */
  lemma DottedName(dir: Path, stem: string, ext: string)
    requires '.' !in ext && stem != "" && stem + "." + ext != ".."
    ensures Extension(dir + [stem + "." + ext]) == ext && FileStem(dir + [stem + "." + ext]) == Some(stem)
  {
    var name := stem + "." + ext;
    LastDotOf(stem, ext);
    assert name[..|stem|] == stem && name[|stem| + 1..] == ext;
  }

  /** A name without a dot has no extension. */
  lemma UndottedName(dir: Path, name: string)
    requires '.' !in name
    ensures Extension(dir + [name]) == "" && FileStem(dir + [name]) == Some(name)
  {
    hide LastDot;
    NoDot(name);
  }

  /** A leading dot starts no extension. */
  lemma HiddenName(dir: Path, name: string)
    requires '.' !in name && name != ""
    ensures Extension(dir + ["." + name]) == "" && FileStem(dir + ["." + name]) == Some("." + name)
  {
    hide LastDot;
    LastDotOf("", name);
    assert "" + "." + name == "." + name;
    assert ("." + name)[1] == name[0];
  }

  /** `ext` is `word` in any mixture of lower and upper case. */
  predicate Spells(ext: string, lower: string, upper: string) {
    |lower| == |upper| == |ext| && forall i :: 0 <= i < |ext| ==> ext[i] == lower[i] || ext[i] == upper[i]
  }

  lemma LowerMeaning(ext: string)
    ensures Lower(ext) == "java" <==> Spells(ext, "java", "JAVA")
    ensures Lower(ext) == "kt" <==> Spells(ext, "kt", "KT")
  {
    LowerSpells(ext, "java", "JAVA");
    LowerSpells(ext, "kt", "KT");
  }

  lemma LowerSpells(ext: string, lower: string, upper: string)
    requires |lower| == |upper|
    requires forall i :: 0 <= i < |lower| ==> 'a' <= lower[i] <= 'z' && upper[i] as int + 32 == lower[i] as int
    ensures Lower(ext) == lower <==> Spells(ext, lower, upper)
  {
    if Lower(ext) == lower {
      assert forall i :: 0 <= i < |ext| ==> LowerChar(ext[i]) == lower[i];
    }
    if Spells(ext, lower, upper) {
      assert forall i :: 0 <= i < |ext| ==> Lower(ext)[i] == lower[i];
    }
  }

  /** The file is `<stem>.java` or `<stem>.kt`, whatever the case of the extension. */
  ghost predicate IsJvmSource(p: Path) {
    p != [] && exists stem: string, ext: string ::
      p[|p| - 1] == stem + "." + ext && stem != "" && (Spells(ext, "java", "JAVA") || Spells(ext, "kt", "KT"))
  }

  lemma JvmSpelled(dir: Path, stem: string, ext: string)
    requires stem != "" && (Spells(ext, "java", "JAVA") || Spells(ext, "kt", "KT"))
    ensures IsJvmFile(dir + [stem + "." + ext])
  {
    hide Extension, Lower;
    LowerMeaning(ext);
    assert stem + "." + ext != ".." by {
      assert |ext| >= 2;
    }
    DottedName(dir, stem, ext);
  }

  lemma JvmSplit(p: Path) returns (stem: string, ext: string)
    requires IsJvmFile(p)
    ensures p != [] && p[|p| - 1] == stem + "." + ext && stem != ""
    ensures Spells(ext, "java", "JAVA") || Spells(ext, "kt", "KT")
  {
    hide Lower, Spells;
    NotEmpty();
    LowerMeaning(Extension(p));
    var name := FileName(p).value;
    var i := LastDot(name).value;
    stem, ext := name[..i], name[i + 1..];
    assert name == stem + "." + ext;
  }

  lemma NotEmpty()
    ensures Lower("") == ""
  {
  }

  lemma JvmFileMeaning(p: Path)
    ensures IsJvmFile(p) <==> IsJvmSource(p)
  {
    hide IsJvmFile, Spells;
    if IsJvmSource(p) {
      var stem: string, ext: string :|
        p[|p| - 1] == stem + "." + ext && stem != "" && (Spells(ext, "java", "JAVA") || Spells(ext, "kt", "KT"));
      JvmSpelled(p[..|p| - 1], stem, ext);
      assert p == p[..|p| - 1] + [stem + "." + ext];
    }
    if IsJvmFile(p) {
      var stem, ext := JvmSplit(p);
    }
  }

  /** A subclass inherits exactly where it extends in a Java or Kotlin source, or inherited before. */
  lemma InheritsInJvmSources(g: Graph, g2: Graph, from: SymbolId, to: SymbolId)
    requires WellFormed(g) && Inherited(g, g2)
    ensures EdgeKey(from, to, Inherits) in g2.store.edges <==>
              EdgeKey(from, to, Inherits) in g.store.edges ||
              (EdgeKey(from, to, EdgeKind.Extends) in g.store.edges &&
               IsJvmSource(g.store.edges[EdgeKey(from, to, EdgeKind.Extends)].evidenceFile))
    ensures EdgeKey(from, to, Inherits) in g2.store.edges && EdgeKey(from, to, Inherits) !in g.store.edges ==>
              var e := g2.store.edges[EdgeKey(from, to, Inherits)];
              && e.evidenceFile == g.store.edges[EdgeKey(from, to, EdgeKind.Extends)].evidenceFile
              && e.origin == NameResolved && e.confidence == 0.855 && e.staleEvidenceCount == 0
  {
    hide IsJvmFile, IsJvmSource, WellFormed, Inherited;
    InheritsExactly(g, g2, from, to);
    if EdgeKey(from, to, EdgeKind.Extends) in g.store.edges {
      JvmFileMeaning(g.store.edges[EdgeKey(from, to, EdgeKind.Extends)].evidenceFile);
    }
    if EdgeKey(from, to, Inherits) in g2.store.edges && EdgeKey(from, to, Inherits) !in g.store.edges {
      NewInherits(g, g2, from, to);
    }
  }

  lemma NewInherits(g: Graph, g2: Graph, from: SymbolId, to: SymbolId)
    requires WellFormed(g) && Inherited(g, g2)
    requires EdgeKey(from, to, Inherits) in g2.store.edges && EdgeKey(from, to, Inherits) !in g.store.edges
    ensures EdgeKey(from, to, EdgeKind.Extends) in g.store.edges
    ensures var e := g2.store.edges[EdgeKey(from, to, Inherits)];
            && e.evidenceFile == g.store.edges[EdgeKey(from, to, EdgeKind.Extends)].evidenceFile
            && e.origin == NameResolved && e.confidence == 0.855 && e.staleEvidenceCount == 0
  {
    hide IsJvmFile, WellFormed, PutAll;
    var es: seq<DirectEdge> :| InheritedBy(g, es, g2);
    PutAllEffect(g.store, es);
    var e := g2.store.edges[EdgeKey(from, to, Inherits)];
    assert e in es && KeyOf(e) == EdgeKey(from, to, Inherits);
    KeysAsStored(g);
  }

  lemma KeysAsStored(g: Graph)
    requires WellFormed(g)
    ensures forall k :: k in g.store.edges ==> KeyOf(g.store.edges[k]) == k
  {
  }
}
