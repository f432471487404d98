/** Symbols, edges and paths: the values stored in the symbol graph. */
module Symbols {

  datatype Option<+T> = None | Some(value: T)

  type SymbolId = nat

  /** A path is the list of its components; the empty list is the empty path. */
  type Path = seq<string>

  const U32_MAX: nat := 0xFFFF_FFFF
  const I32_LIMIT: nat := 0x8000_0000

  /** Unsigned 32-bit counters and offsets. */
  type u32 = n: nat | n <= 0xFFFF_FFFF

  datatype SymbolKind =
    | Function | Method | Class | Struct | Interface | Trait | Enum | EnumVariant
    | Constant | Variable | Field | TypeAlias | Module | Namespace | File
    | ConfigKey | StringLiteral | DocComment | DocSection | Package | ExternalPackage

  datatype EdgeKind =
    | Calls | References | Imports | Extends | Inherits | Implements | Overrides
    | TypeOf | GenericParam | Resolves | StringMatch | EnumValueMatch | ApiPathMatch
    | Configures | Contains | BelongsTo | DependsOn | Documents | Mentions | DescribedIn

  datatype AnalysisOrigin =
    CompilerDerived | NameResolved | SyntaxMatched | PatternMatched | ConventionInferred | Dynamic

  datatype Visibility = Public | Private | Unknown

  datatype SymbolNode = SymbolNode(
    id: SymbolId,
    kind: SymbolKind,
    name: string,
    qualifiedName: string,
    file: Path,
    spanStart: u32,
    spanEnd: u32,
    visibility: Visibility
  )

  datatype DirectEdge = DirectEdge(
    from: SymbolId,
    to: SymbolId,
    kind: EdgeKind,
    origin: AnalysisOrigin,
    confidence: real,
    evidenceFile: Path,
    createdAtEpoch: nat,
    staleEvidenceCount: u32
  )

  /** The triple on which the graph rejects duplicate edges. */
  datatype EdgeKey = EdgeKey(from: SymbolId, to: SymbolId, kind: EdgeKind)

  function KeyOf(e: DirectEdge): EdgeKey {
    EdgeKey(e.from, e.to, e.kind)
  }

  /** A node as its constructor makes it: the qualified name starts out as the name. */
  function NewNode(kind: SymbolKind, name: string, file: Path, start: u32, end: u32): SymbolNode {
    SymbolNode(0, kind, name, name, file, start, end, Unknown)
  }

  /** An edge as its constructor makes it: epoch zero and no stale evidence. */
  function NewEdge(from: SymbolId, to: SymbolId, kind: EdgeKind, origin: AnalysisOrigin,
                   confidence: real, evidence: Path): DirectEdge {
    DirectEdge(from, to, kind, origin, confidence, evidence, 0, 0)
  }

  function BaseScore(origin: AnalysisOrigin): real {
    match origin
    case CompilerDerived => 0.99
    case NameResolved => 0.95
    case SyntaxMatched => 0.85
    case PatternMatched => 0.60
    case ConventionInferred => 0.40
    case Dynamic => 0.20
  }

  function KindScore(kind: EdgeKind): real {
    match kind
    case Resolves => 1.0
    case Calls => 0.9
    case Implements => 0.9
    case Extends => 0.9
    case Inherits => 0.9
    case Overrides => 0.85
    case References => 0.8
    case Imports => 0.85
    case TypeOf => 0.85
    case GenericParam => 0.8
    case StringMatch => 0.7
    case EnumValueMatch => 0.75
    case ApiPathMatch => 0.75
    case Configures => 0.7
    case Contains => 1.0
    case BelongsTo => 1.0
    case DependsOn => 0.6
    case Documents => 1.0
    case Mentions => 1.0
    case DescribedIn => 1.0
  }

  function Clamp01(x: real): real {
    if x < 0.0 then 0.0 else if x > 1.0 then 1.0 else x
  }

  /** The confidence given to an edge of this kind and origin. */
  function Evaluate(kind: EdgeKind, origin: AnalysisOrigin): real {
    Clamp01(KindScore(kind) * BaseScore(origin))
  }

  // ---------------------------------------------------------------- paths

  function Parent(p: Path): Option<Path> {
    if p == [] then None else Some(p[..|p| - 1])
  }

  function FileName(p: Path): Option<string> {
    if p == [] || p[|p| - 1] == ".." then None else Some(p[|p| - 1])
  }

  function NameOr(name: Option<string>, default: string): string {
    if name.Some? then name.value else default
  }

  /** Index of the last '.', or None. */
  function LastDot(s: string): (r: Option<nat>)
    ensures r.Some? ==> r.value < |s| && s[r.value] == '.' && '.' !in s[r.value + 1..]
    ensures r.None? ==> '.' !in s
  {
    if s == [] then None
    else if s[|s| - 1] == '.' then Some(|s| - 1)
    else
      var r := LastDot(s[..|s| - 1]);
      assert s == s[..|s| - 1] + [s[|s| - 1]];
      assert r.Some? ==> s[r.value + 1..] == s[..|s| - 1][r.value + 1..] + [s[|s| - 1]];
      r
  }

  /** A leading dot does not start an extension (".bashrc" has none). */
  function Extension(p: Path): string {
    match FileName(p)
    case None => ""
    case Some(name) =>
      match LastDot(name)
      case None => ""
      case Some(i) => if i == 0 then "" else name[i + 1..]
  }

  /** The file name without its extension. */
  function FileStem(p: Path): Option<string> {
    match FileName(p)
    case None => None
    case Some(name) =>
      match LastDot(name)
      case None => Some(name)
      case Some(i) => if i == 0 then Some(name) else Some(name[..i])
  }

  function LowerChar(c: char): char {
    if 'A' <= c <= 'Z' then (c as int + 32) as char else c
  }

  function Lower(s: string): (r: string)
    ensures |r| == |s| && forall i :: 0 <= i < |s| ==> r[i] == LowerChar(s[i])
  {
    if s == [] then [] else [LowerChar(s[0])] + Lower(s[1..])
  }
}
