/**
  Filters over the node iteration order of a graph.  Every order-dependent lookup of the
  passes ("the first Module of that name", "the last File node of that path") is the first or
  last element of such a selection.
 */
module NodeQueries {
  import opened Symbols

  datatype NodeQuery =
    | Below(bound: nat)
    | WithId(id: SymbolId)
    | Except(id: SymbolId)
    | FileAt(path: Path)
    | ContainerAt(path: Path)
    | ModuleNamed(name: string)
    | ChildAt(path: Path)
    | Definition(name: string)
    | ExternalNamed(name: string)
    | PublicAt(path: Path)
    | DefinedAt(path: Path)
    | NewFileAt(bound: nat, path: Path)
    | OutsideOf(path: Path)
    | InDirectory(dir: Option<Path>)
    | Qualified
    | NotAmong(ids: set<SymbolId>)
    | Named(name: string)
    | QualifiedAs(name: string)

  /** A symbol that structural_pass puts under its file: not a container, not documentation, anchored in a file. */
  predicate IsChild(n: SymbolNode) {
    && !n.kind.File?
    && n.file != []
    && !IsContainer(n)
    && !n.kind.DocComment?
    && !n.kind.DocSection?
  }

  predicate IsContainer(n: SymbolNode) {
    n.kind.Module? || n.kind.Namespace?
  }

  /** A symbol that `export * from` re-exports. */
  predicate IsExported(n: SymbolNode) {
    && n.visibility.Public?
    && n.file != []
    && !n.kind.File? && !IsContainer(n) && !n.kind.ExternalPackage?
    && !n.kind.DocComment? && !n.kind.DocSection?
  }

  /** Only a qualified name that differs from the bare name is indexed. */
  predicate HasQualifiedKey(n: SymbolNode) {
    n.qualifiedName != "" && n.qualifiedName != n.name
  }

  predicate Matches(q: NodeQuery, n: SymbolNode) {
    match q
    case Below(bound) => n.id < bound
    case WithId(id) => n.id == id
    case Except(id) => n.id != id
    case FileAt(path) => n.kind.File? && n.file == path
    case ContainerAt(path) => IsContainer(n) && n.file == path && path != []
    case ModuleNamed(name) => n.kind.Module? && n.name == name
    case ChildAt(path) => IsChild(n) && n.file == path
    case Definition(name) => !n.kind.ExternalPackage? && n.name == name
    case ExternalNamed(name) => n.kind.ExternalPackage? && n.name == name
    case PublicAt(path) => IsExported(n) && n.file == path
    case DefinedAt(path) => n.file == path
    case NewFileAt(bound, path) => n.kind.File? && n.file == path && n.id >= bound
    case OutsideOf(path) => n.file != path
    case InDirectory(dir) => Parent(n.file) == dir
    case Qualified => n.qualifiedName != ""
    case NotAmong(ids) => n.id !in ids
    case Named(name) => n.name == name
    case QualifiedAs(name) => HasQualifiedKey(n) && n.qualifiedName == name
  }

  function Select(q: NodeQuery, ns: seq<SymbolNode>): seq<SymbolNode> {
    if ns == [] then []
    else (if Matches(q, ns[0]) then [ns[0]] else []) + Select(q, ns[1..])
  }

  ghost function Ids(ns: seq<SymbolNode>): set<SymbolId> {
    set n | n in ns :: n.id
  }

  ghost predicate UniqueIds(ns: seq<SymbolNode>) {
    forall i, j :: 0 <= i < j < |ns| ==> ns[i].id != ns[j].id
  }

  lemma {:induction false} SelectConcat(q: NodeQuery, a: seq<SymbolNode>, b: seq<SymbolNode>)
    ensures Select(q, a + b) == Select(q, a) + Select(q, b)
  {
    if a == [] {
      assert a + b == b;
    } else {
      assert (a + b)[0] == a[0] && (a + b)[1..] == a[1..] + b;
      SelectConcat(q, a[1..], b);
    }
  }

  lemma SelectSnoc(q: NodeQuery, ns: seq<SymbolNode>, n: SymbolNode)
    ensures Select(q, ns + [n]) == Select(q, ns) + (if Matches(q, n) then [n] else [])
  {
    SelectConcat(q, ns, [n]);
  }

  lemma SelectPrefix(q: NodeQuery, ns: seq<SymbolNode>, i: nat)
    requires i < |ns|
    ensures Select(q, ns[..i + 1]) == Select(q, ns[..i]) + (if Matches(q, ns[i]) then [ns[i]] else [])
  {
    assert ns[..i + 1] == ns[..i] + [ns[i]];
    SelectConcat(q, ns[..i], [ns[i]]);
  }

  lemma {:induction false} SelectMembers(q: NodeQuery, ns: seq<SymbolNode>)
    ensures forall n :: n in Select(q, ns) <==> n in ns && Matches(q, n)
  {
    if ns != [] {
      SelectMembers(q, ns[1..]);
      assert ns == [ns[0]] + ns[1..];
    }
  }

  /** Selecting from a selection that keeps every match loses nothing. */
  lemma {:induction false} SelectWithin(q: NodeQuery, r: NodeQuery, ns: seq<SymbolNode>)
    requires forall n :: n in ns && Matches(q, n) ==> Matches(r, n)
    ensures Select(q, Select(r, ns)) == Select(q, ns)
  {
    if ns != [] {
      SelectWithin(q, r, ns[1..]);
      var rest := Select(r, ns[1..]);
      if Matches(r, ns[0]) {
        assert Select(r, ns) == [ns[0]] + rest;
        assert ([ns[0]] + rest)[1..] == rest;
      } else {
        assert Select(r, ns) == rest;
      }
    }
  }

  lemma {:induction false} SelectAll(q: NodeQuery, ns: seq<SymbolNode>)
    requires forall n :: n in ns ==> Matches(q, n)
    ensures Select(q, ns) == ns
  {
    if ns != [] {
      SelectAll(q, ns[1..]);
    }
  }

  lemma {:induction false} SelectNone(q: NodeQuery, ns: seq<SymbolNode>)
    requires forall n :: n in ns ==> !Matches(q, n)
    ensures Select(q, ns) == []
  {
    if ns != [] {
      SelectNone(q, ns[1..]);
    }
  }

  lemma {:induction false} SelectLength(q: NodeQuery, ns: seq<SymbolNode>)
    ensures |Select(q, ns)| <= |ns|
    ensures |Select(q, ns)| == |ns| ==> Select(q, ns) == ns
  {
    if ns != [] {
      SelectLength(q, ns[1..]);
    }
  }

  lemma {:induction false} SelectUnique(q: NodeQuery, ns: seq<SymbolNode>)
    requires UniqueIds(ns)
    ensures UniqueIds(Select(q, ns))
  {
    if ns != [] {
      var rest := Select(q, ns[1..]);
      SelectUnique(q, ns[1..]);
      SelectMembers(q, ns[1..]);
      if Matches(q, ns[0]) {
        assert Select(q, ns) == [ns[0]] + rest;
        forall i | 0 <= i < |rest| ensures rest[i].id != ns[0].id {
          assert rest[i] in rest;
          var j :| 0 <= j < |ns[1..]| && ns[1..][j] == rest[i];
          assert ns[j + 1] == rest[i];
        }
      } else {
        assert Select(q, ns) == rest;
      }
    }
  }

  lemma UniqueIdsMeanSameNode(ns: seq<SymbolNode>, a: SymbolNode, b: SymbolNode)
    requires UniqueIds(ns) && a in ns && b in ns && a.id == b.id
    ensures a == b
  {
    var i :| 0 <= i < |ns| && ns[i] == a;
    var j :| 0 <= j < |ns| && ns[j] == b;
    assert i == j;
  }

  /** Inserting one node adds it to the selections it matches and leaves the others alone. */
  lemma SelectInserted(q: NodeQuery, ns: seq<SymbolNode>, n: SymbolNode, k: nat)
    requires k <= |ns|
    ensures Select(q, ns) == Select(q, ns[..k]) + Select(q, ns[k..])
    ensures Select(q, ns[..k] + [n] + ns[k..]) ==
            Select(q, ns[..k]) + (if Matches(q, n) then [n] else []) + Select(q, ns[k..])
  {
    assert ns[..k] + ns[k..] == ns;
    SelectConcat(q, ns[..k], ns[k..]);
    SelectConcat(q, ns[..k] + [n], ns[k..]);
    SelectConcat(q, ns[..k], [n]);
  }

  lemma SomeMember(ns: seq<SymbolNode>)
    requires ns != []
    ensures exists n :: n in ns
  {
    assert ns[0] in ns;
  }

  lemma NoMembers(ns: seq<SymbolNode>)
    requires forall n :: n !in ns
    ensures ns == []
  {
    if ns != [] {
      SomeMember(ns);
    }
  }

  function FirstId(ns: seq<SymbolNode>): Option<SymbolId> {
    if ns == [] then None else Some(ns[0].id)
  }

  function LastId(ns: seq<SymbolNode>): Option<SymbolId> {
    if ns == [] then None else Some(ns[|ns| - 1].id)
  }

  function IdsOf(ns: seq<SymbolNode>): (r: seq<SymbolId>)
    ensures |r| == |ns| && forall i :: 0 <= i < |ns| ==> r[i] == ns[i].id
  {
    if ns == [] then [] else [ns[0].id] + IdsOf(ns[1..])
  }

  function GetNode(ns: seq<SymbolNode>, id: SymbolId): Option<SymbolNode> {
    var hits := Select(WithId(id), ns);
    if hits == [] then None else Some(hits[0])
  }

  lemma GetNodeFinds(ns: seq<SymbolNode>, id: SymbolId)
    requires UniqueIds(ns)
    ensures GetNode(ns, id).Some? <==> id in Ids(ns)
    ensures GetNode(ns, id).Some? ==> GetNode(ns, id).value in ns && GetNode(ns, id).value.id == id
    ensures forall n :: n in ns && n.id == id ==> GetNode(ns, id) == Some(n)
  {
    var hits := Select(WithId(id), ns);
    SelectMembers(WithId(id), ns);
    if hits != [] { assert hits[0] in hits; }
    forall n | n in ns && n.id == id ensures GetNode(ns, id) == Some(n) {
      assert n in hits;
      UniqueIdsMeanSameNode(ns, n, hits[0]);
    }
  }

  lemma IdsOfSelected(q: NodeQuery, ns: seq<SymbolNode>)
    ensures forall id :: id in IdsOf(Select(q, ns)) <==> exists n :: n in ns && Matches(q, n) && n.id == id
  {
    hide Select;
    SelectMembers(q, ns);
    IdsOfMembers(Select(q, ns));
  }

  lemma {:induction false} IdsOfMembers(ns: seq<SymbolNode>)
    ensures forall id :: id in IdsOf(ns) <==> exists n :: n in ns && n.id == id
  {
    if ns != [] {
      IdsOfMembers(ns[1..]);
      assert ns == [ns[0]] + ns[1..];
    }
  }

  lemma {:induction false} SelectSame(q: NodeQuery, r: NodeQuery, ns: seq<SymbolNode>)
    requires forall n :: n in ns ==> Matches(q, n) == Matches(r, n)
    ensures Select(q, ns) == Select(r, ns)
  {
    if ns != [] {
      SelectSame(q, r, ns[1..]);
    }
  }
}
