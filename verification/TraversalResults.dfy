/** What a query lists: both directions, ordered for display, for one centre or for several. */
module TraversalResults {
  import opened Symbols
  import opened Traversal

  function KindPriority(kind: EdgeKind): nat {
    match kind
    case Calls => 0
    case Implements => 1
    case Extends => 2
    case Inherits => 3
    case Overrides => 4
    case Imports => 5
    case References => 6
    case DependsOn => 7
    case TypeOf => 8
    case GenericParam => 9
    case Configures => 10
    case EnumValueMatch => 11
    case ApiPathMatch => 12
    case StringMatch => 13
    case Contains => 14
    case BelongsTo => 15
    case Documents => 16
    case Mentions => 17
    case DescribedIn => 18
    case Resolves => 19
  }

  predicate IsStructural(kind: EdgeKind) {
    kind.Contains? || kind.BelongsTo?
  }

  predicate IsDocumentation(kind: EdgeKind) {
    kind.Documents? || kind.Mentions? || kind.DescribedIn?
  }

  /** No two kinds tie: what code does, then containment, then documentation, then name resolution. */
  lemma KindOrder(a: EdgeKind, b: EdgeKind)
    ensures a != b ==> KindPriority(a) != KindPriority(b)
    ensures !IsStructural(a) && !IsDocumentation(a) && !a.Resolves? && IsStructural(b) ==>
              KindPriority(a) < KindPriority(b)
    ensures IsStructural(a) && IsDocumentation(b) ==> KindPriority(a) < KindPriority(b)
    ensures !a.Resolves? ==> KindPriority(a) < KindPriority(Resolves)
  {
  }

  // ------------------------------------------------------------ display order

  /** Shallower first; within a depth, by the priority of the kind. */
  predicate NotAfter(a: EdgeAtDepth, b: EdgeAtDepth) {
    a.depth < b.depth || (a.depth == b.depth && KindPriority(a.edge.kind) <= KindPriority(b.edge.kind))
  }

  ghost predicate Ordered(s: seq<EdgeAtDepth>) {
    forall i, j :: 0 <= i < j < |s| ==> NotAfter(s[i], s[j])
  }

  function Insert(x: EdgeAtDepth, s: seq<EdgeAtDepth>): seq<EdgeAtDepth> {
    if s == [] || NotAfter(x, s[0]) then [x] + s else [s[0]] + Insert(x, s[1..])
  }

  /** The order a stable sort gives. */
  function StableSort(s: seq<EdgeAtDepth>): seq<EdgeAtDepth> {
    if s == [] then [] else Insert(s[0], StableSort(s[1..]))
  }

  lemma {:induction false} InsertContents(x: EdgeAtDepth, s: seq<EdgeAtDepth>)
    ensures multiset(Insert(x, s)) == multiset(s) + multiset{x}
  {
    if s != [] && !NotAfter(x, s[0]) {
      InsertContents(x, s[1..]);
      assert s == [s[0]] + s[1..];
    }
  }

  lemma {:induction false} InsertOrdered(x: EdgeAtDepth, s: seq<EdgeAtDepth>)
    requires Ordered(s)
    ensures Ordered(Insert(x, s))
  {
    if s != [] && !NotAfter(x, s[0]) {
      var rest := Insert(x, s[1..]);
      InsertOrdered(x, s[1..]);
      InsertContents(x, s[1..]);
      forall y | y in rest ensures NotAfter(s[0], y) {
        assert y in multiset(rest);
        assert y == x || y in s[1..];
      }
    }
  }

  /** The elements that sort together with `k`, in their order. */
  function Peers(s: seq<EdgeAtDepth>, k: EdgeAtDepth): seq<EdgeAtDepth> {
    if s == [] then []
    else (if NotAfter(s[0], k) && NotAfter(k, s[0]) then [s[0]] else []) + Peers(s[1..], k)
  }

  lemma {:induction false} InsertKeepsPeers(x: EdgeAtDepth, s: seq<EdgeAtDepth>, k: EdgeAtDepth)
    ensures Peers(Insert(x, s), k) == Peers([x] + s, k)
  {
    if s != [] && !NotAfter(x, s[0]) {
      var rest := Insert(x, s[1..]);
      InsertKeepsPeers(x, s[1..], k);
      assert ([s[0]] + rest)[1..] == rest && ([x] + s)[1..] == s && ([x] + s[1..])[1..] == s[1..];
      assert Peers([s[0]] + rest, k) ==
               (if NotAfter(s[0], k) && NotAfter(k, s[0]) then [s[0]] else []) + Peers(rest, k);
    }
  }

  /** Sorting permutes, orders, and keeps elements of equal rank in their order. */
  lemma {:induction false} SortCorrect(s: seq<EdgeAtDepth>, k: EdgeAtDepth)
    ensures multiset(StableSort(s)) == multiset(s) && Ordered(StableSort(s))
    ensures Peers(StableSort(s), k) == Peers(s, k)
  {
    if s != [] {
      SortCorrect(s[1..], k);
      InsertContents(s[0], StableSort(s[1..]));
      InsertOrdered(s[0], StableSort(s[1..]));
      InsertKeepsPeers(s[0], StableSort(s[1..]), k);
      assert s == [s[0]] + s[1..];
      var sorted := StableSort(s[1..]);
      assert ([s[0]] + sorted)[1..] == sorted;
    }
  }

  lemma SortedListing(es: seq<DirectEdge>, f: Filter, d: Direction, c: SymbolId, hops: nat, out: seq<EdgeAtDepth>)
    requires ListsExactly(es, f, d, c, hops, out)
    ensures ListsExactly(es, f, d, c, hops, StableSort(out)) && Ordered(StableSort(out))
  {
    hide FoundBy, Ordered, StableSort;
    if out == [] {
      SortCorrect(out, EdgeAtDepth(NewEdge(0, 0, Calls, Dynamic, 0.0, []), 0));
    } else {
      SortCorrect(out, out[0]);
    }
  }

  // ------------------------------------------------------------ one centre

  /** The latest creation epoch of the graph, zero if it has no edges. */
  function LatestEpoch(es: seq<DirectEdge>): (r: nat)
    ensures forall e :: e in es ==> e.createdAtEpoch <= r
    ensures r == 0 || exists e :: e in es && e.createdAtEpoch == r
  {
    if es == [] then 0
    else
      var r := LatestEpoch(es[..|es| - 1]);
      var e := es[|es| - 1];
      assert es == es[..|es| - 1] + [e];
      assert e in es;
      if e.createdAtEpoch > r then e.createdAtEpoch else r
  }

  /** `cutoff` of a query: with epochs advanced, every edge older than the newest one is stale. */
  function QueryFilter(es: seq<DirectEdge>, minConfidence: real, includeStale: bool): Filter {
    Filter(minConfidence, includeStale, LatestEpoch(es))
  }

  /** Without stale edges only those of the latest epoch are followed; on a graph of one epoch that is every edge. */
  lemma OnlyLatestEpochIsFresh(es: seq<DirectEdge>, minConfidence: real, e: DirectEdge)
    requires e in es
    ensures Passes(QueryFilter(es, minConfidence, false), e) <==>
              e.confidence >= minConfidence && e.createdAtEpoch == LatestEpoch(es)
  {
    hide LatestEpoch;
  }

  ghost predicate Traversed(es: seq<DirectEdge>, f: Filter, d: Direction, c: SymbolId, maxDepth: nat,
                            out: seq<EdgeAtDepth>) {
    ListsExactly(es, f, d, c, Hops(maxDepth), out) && Ordered(out)
  }

  method BfsEdgesFiltered(es: seq<DirectEdge>, c: SymbolId, maxDepth: nat, minConfidence: real, includeStale: bool)
    returns (incoming: seq<EdgeAtDepth>, outgoing: seq<EdgeAtDepth>)
    ensures Traversed(es, QueryFilter(es, minConfidence, includeStale), Incoming, c, maxDepth, incoming)
    ensures Traversed(es, QueryFilter(es, minConfidence, includeStale), Outgoing, c, maxDepth, outgoing)
  {
    hide ListsExactly, LatestEpoch, Ordered, StableSort;
    var f := QueryFilter(es, minConfidence, includeStale);
    var found := BreadthFirst(es, f, Outgoing, c, maxDepth);
    SortedListing(es, f, Outgoing, c, Hops(maxDepth), found);
    outgoing := StableSort(found);
    found := BreadthFirst(es, f, Incoming, c, maxDepth);
    SortedListing(es, f, Incoming, c, Hops(maxDepth), found);
    incoming := StableSort(found);
  }

  /** Membership: an edge is listed at a depth iff it passes and its near end is one step closer to the centre. */
  lemma ListedIffFound(es: seq<DirectEdge>, f: Filter, d: Direction, c: SymbolId, maxDepth: nat,
                       out: seq<EdgeAtDepth>, x: EdgeAtDepth)
    requires Traversed(es, f, d, c, maxDepth, out)
    ensures x in out <==> FoundBy(es, f, d, c, Hops(maxDepth), x)
  {
    hide AtDistance, Passes, Ordered;
    assert x in out <==> multiset(out)[x] > 0;
  }

  /** No edge under two depths. */
  lemma OneDepthEach(es: seq<DirectEdge>, f: Filter, d: Direction, c: SymbolId, maxDepth: nat, out: seq<EdgeAtDepth>,
                     x: EdgeAtDepth, y: EdgeAtDepth)
    requires Traversed(es, f, d, c, maxDepth, out) && x in out && y in out && x.edge == y.edge
    ensures x == y
  {
    hide AtDistance, Passes, Ordered, ListsExactly;
    ListedIffFound(es, f, d, c, maxDepth, out, x);
    ListedIffFound(es, f, d, c, maxDepth, out, y);
    DistanceUnique(es, f, d, c, Near(d, x.edge), x.depth - 1, y.depth - 1);
  }

  /** A deeper query lists everything a shallower one does, and more only beyond its depth. */
  lemma DeeperListsMore(es: seq<DirectEdge>, f: Filter, d: Direction, c: SymbolId, m1: nat, m2: nat,
                        out1: seq<EdgeAtDepth>, out2: seq<EdgeAtDepth>)
    requires Traversed(es, f, d, c, m1, out1) && Traversed(es, f, d, c, m2, out2) && m1 <= m2
    ensures multiset(out1) <= multiset(out2)
    ensures forall x :: x in multiset(out2) - multiset(out1) ==> x.depth > Hops(m1)
  {
    hide AtDistance, Passes, Ordered;
    forall x ensures multiset(out1)[x] <= multiset(out2)[x]
             ensures x.depth <= Hops(m1) ==> multiset(out1)[x] == multiset(out2)[x]
    {
    }
  }

  lemma {:induction false} WeakerWalks(es: seq<DirectEdge>, f: Filter, g: Filter, d: Direction, c: SymbolId,
                                       v: SymbolId, k: nat)
    requires forall e :: Passes(f, e) ==> Passes(g, e)
    requires Walk(es, f, d, c, v, k)
    ensures Walk(es, g, d, c, v, k)
    decreases k
  {
    if k > 0 {
      var e :| e in es && Passes(f, e) && Far(d, e) == v && Walk(es, f, d, c, Near(d, e), k - 1);
      WeakerWalks(es, f, g, d, c, Near(d, e), k - 1);
      WalkStep(es, g, d, c, e, k - 1);
    }
  }

  /** Lowering the confidence floor or admitting stale edges never hides an edge and never puts it deeper. */
  lemma WeakerFilterListsMore(es: seq<DirectEdge>, low: real, high: real, stale1: bool, stale2: bool, d: Direction,
                              c: SymbolId,
                              maxDepth: nat, strict: seq<EdgeAtDepth>, loose: seq<EdgeAtDepth>, x: EdgeAtDepth)
    requires low <= high && (stale1 ==> stale2)
    requires Traversed(es, QueryFilter(es, high, stale1), d, c, maxDepth, strict)
    requires Traversed(es, QueryFilter(es, low, stale2), d, c, maxDepth, loose)
    requires x in strict
    ensures exists y :: y in loose && y.edge == x.edge && y.depth <= x.depth
  {
    hide Ordered, ListsExactly, AtDistance, LatestEpoch;
    var f, g := QueryFilter(es, high, stale1), QueryFilter(es, low, stale2);
    ListedIffFound(es, f, d, c, maxDepth, strict, x);
    DistanceIsWalk(es, f, d, c, Near(d, x.edge), x.depth - 1);
    WeakerWalks(es, f, g, d, c, Near(d, x.edge), x.depth - 1);
    var k := WalkHasDistance(es, g, d, c, Near(d, x.edge), x.depth - 1);
    var y := EdgeAtDepth(x.edge, k + 1);
    ListedIffFound(es, g, d, c, maxDepth, loose, y);
  }

  lemma DistanceIsWalk(es: seq<DirectEdge>, f: Filter, d: Direction, c: SymbolId, v: SymbolId, k: nat)
    requires AtDistance(es, f, d, c, v, k)
    ensures Walk(es, f, d, c, v, k)
  {
  }

  // ------------------------------------------------------------ incoming is outgoing on the reversed graph

  function Reversed(e: DirectEdge): DirectEdge {
    e.(from := e.to, to := e.from)
  }

  function ReversedAll(es: seq<DirectEdge>): (r: seq<DirectEdge>)
    ensures |r| == |es| && forall i :: 0 <= i < |es| ==> r[i] == Reversed(es[i])
  {
    seq(|es|, i requires 0 <= i < |es| => Reversed(es[i]))
  }

  function ReversedListing(out: seq<EdgeAtDepth>): (r: seq<EdgeAtDepth>)
    ensures |r| == |out| && forall i :: 0 <= i < |out| ==> r[i] == EdgeAtDepth(Reversed(out[i].edge), out[i].depth)
  {
    seq(|out|, i requires 0 <= i < |out| => EdgeAtDepth(Reversed(out[i].edge), out[i].depth))
  }

  lemma {:induction false} ReversedCount(es: seq<DirectEdge>, e: DirectEdge)
    ensures multiset(ReversedAll(es))[e] == multiset(es)[Reversed(e)]
  {
    if es != [] {
      var rest, last := es[..|es| - 1], es[|es| - 1];
      ReversedCount(rest, e);
      assert es == rest + [last];
      assert ReversedAll(es) == ReversedAll(rest) + [Reversed(last)];
    }
  }

  lemma {:induction false} ReversedListingCount(out: seq<EdgeAtDepth>, x: EdgeAtDepth)
    ensures multiset(ReversedListing(out))[x] == multiset(out)[EdgeAtDepth(Reversed(x.edge), x.depth)]
  {
    if out != [] {
      var rest, last := out[..|out| - 1], out[|out| - 1];
      ReversedListingCount(rest, x);
      assert out == rest + [last];
      assert ReversedListing(out) == ReversedListing(rest) + [EdgeAtDepth(Reversed(last.edge), last.depth)];
    }
  }

  lemma {:induction false} WalkReversed(es: seq<DirectEdge>, f: Filter, c: SymbolId, v: SymbolId, k: nat)
    requires Walk(es, f, Incoming, c, v, k)
    ensures Walk(ReversedAll(es), f, Outgoing, c, v, k)
    decreases k
  {
    hide ReversedAll;
    if k > 0 {
      var e :| e in es && Passes(f, e) && Far(Incoming, e) == v && Walk(es, f, Incoming, c, Near(Incoming, e), k - 1);
      WalkReversed(es, f, c, Near(Incoming, e), k - 1);
      InReversed(es, Reversed(e));
      WalkStep(ReversedAll(es), f, Outgoing, c, Reversed(e), k - 1);
    }
  }

  lemma {:induction false} WalkBack(es: seq<DirectEdge>, f: Filter, c: SymbolId, v: SymbolId, k: nat)
    requires Walk(ReversedAll(es), f, Outgoing, c, v, k)
    ensures Walk(es, f, Incoming, c, v, k)
    decreases k
  {
    hide ReversedAll;
    if k > 0 {
      var e :| e in ReversedAll(es) && Passes(f, e) && Far(Outgoing, e) == v &&
               Walk(ReversedAll(es), f, Outgoing, c, Near(Outgoing, e), k - 1);
      WalkBack(es, f, c, Near(Outgoing, e), k - 1);
      InReversed(es, e);
      WalkStep(es, f, Incoming, c, Reversed(e), k - 1);
    }
  }

  lemma ReversedWalk(es: seq<DirectEdge>, f: Filter, c: SymbolId, v: SymbolId, k: nat)
    ensures Walk(ReversedAll(es), f, Outgoing, c, v, k) <==> Walk(es, f, Incoming, c, v, k)
  {
    hide Walk, ReversedAll;
    if Walk(es, f, Incoming, c, v, k) {
      WalkReversed(es, f, c, v, k);
    }
    if Walk(ReversedAll(es), f, Outgoing, c, v, k) {
      WalkBack(es, f, c, v, k);
    }
  }

  lemma InReversed(es: seq<DirectEdge>, e: DirectEdge)
    ensures e in ReversedAll(es) <==> Reversed(e) in es
  {
    ReversedCount(es, e);
    assert e in ReversedAll(es) <==> multiset(ReversedAll(es))[e] > 0;
    assert Reversed(e) in es <==> multiset(es)[Reversed(e)] > 0;
  }

  /** The incoming list of a graph is the outgoing list of the graph with every edge turned around. */
  lemma IncomingIsReversedOutgoing(es: seq<DirectEdge>, f: Filter, c: SymbolId, maxDepth: nat, out: seq<EdgeAtDepth>)
    requires Traversed(es, f, Incoming, c, maxDepth, out)
    ensures Traversed(ReversedAll(es), f, Outgoing, c, maxDepth, ReversedListing(out))
  {
    hide Walk, ReversedAll, ReversedListing;
    var r := ReversedListing(out);
    ReversedOrder(out);
    forall x ensures multiset(r)[x] ==
      if FoundBy(ReversedAll(es), f, Outgoing, c, Hops(maxDepth), x) then multiset(ReversedAll(es))[x.edge] else 0
    {
      var y := EdgeAtDepth(Reversed(x.edge), x.depth);
      ReversedListingCount(out, x);
      ReversedCount(es, x.edge);
      InReversed(es, x.edge);
      forall j: nat
        ensures Walk(ReversedAll(es), f, Outgoing, c, x.edge.from, j) <==> Walk(es, f, Incoming, c, x.edge.from, j)
      {
        ReversedWalk(es, f, c, x.edge.from, j);
      }
      assert FoundBy(ReversedAll(es), f, Outgoing, c, Hops(maxDepth), x) <==>
               FoundBy(es, f, Incoming, c, Hops(maxDepth), y);
    }
  }

  lemma ReversedOrder(out: seq<EdgeAtDepth>)
    requires Ordered(out)
    ensures Ordered(ReversedListing(out))
  {
  }

  // ------------------------------------------------------------ several centres

  ghost predicate FindsKey(es: seq<DirectEdge>, f: Filter, d: Direction, c: SymbolId, hops: nat, key: EdgeKey) {
    exists x :: FoundBy(es, f, d, c, hops, x) && KeyOf(x.edge) == key
  }

  /** Centre number `i` lists `x` and no earlier centre lists an edge with its key. */
  ghost predicate FirstFinder(es: seq<DirectEdge>, f: Filter, d: Direction, centres: seq<SymbolId>, hops: nat,
                              i: nat, x: EdgeAtDepth) {
    && i < |centres| && FoundBy(es, f, d, centres[i], hops, x)
    && forall j :: 0 <= j < i ==> !FindsKey(es, f, d, centres[j], hops, KeyOf(x.edge))
  }

  ghost predicate OnePerKey(out: seq<EdgeAtDepth>) {
    && (forall x :: multiset(out)[x] <= 1)
    && forall x, y :: x in out && y in out && KeyOf(x.edge) == KeyOf(y.edge) ==> x == y
  }

  ghost predicate ListsKey(out: seq<EdgeAtDepth>, key: EdgeKey) {
    exists y :: y in out && KeyOf(y.edge) == key
  }

  /** One entry per key of the union over the centres, as its first finder lists it. */
  ghost predicate Collected(es: seq<DirectEdge>, f: Filter, d: Direction, centres: seq<SymbolId>, hops: nat,
                            out: seq<EdgeAtDepth>) {
    && OnePerKey(out)
    && (forall x :: x in out ==> exists i :: FirstFinder(es, f, d, centres, hops, i, x))
    && (forall i, x :: 0 <= i < |centres| && FoundBy(es, f, d, centres[i], hops, x) ==> ListsKey(out, KeyOf(x.edge)))
  }

  /** Appends the entries whose key is new. */
  method Merge(acc: seq<EdgeAtDepth>, seen: set<EdgeKey>, more: seq<EdgeAtDepth>)
    returns (acc': seq<EdgeAtDepth>, seen': set<EdgeKey>)
    requires OnePerKey(acc) && forall k :: k in seen <==> ListsKey(acc, k)
    ensures OnePerKey(acc') && forall k :: k in seen' <==> ListsKey(acc', k)
    ensures forall x :: x in acc ==> x in acc'
    ensures forall x :: x in acc' && x !in acc ==> x in more && !ListsKey(acc, KeyOf(x.edge))
    ensures forall x :: x in more ==> ListsKey(acc', KeyOf(x.edge))
  {
    hide OnePerKey, ListsKey, KeyOf;
    acc', seen' := acc, seen;
    for i := 0 to |more|
      invariant OnePerKey(acc') && forall k :: k in seen' <==> ListsKey(acc', k)
      invariant forall x :: x in acc ==> x in acc'
      invariant forall x :: x in acc' && x !in acc ==> x in more && !ListsKey(acc, KeyOf(x.edge))
      invariant forall x :: x in more[..i] ==> ListsKey(acc', KeyOf(x.edge))
    {
      assert more[..i + 1] == more[..i] + [more[i]];
      ListsMore(acc, acc');
      if KeyOf(more[i].edge) !in seen' {
        OneMoreKey(acc', more[i]);
        acc' := acc' + [more[i]];
        seen' := seen' + {KeyOf(more[i].edge)};
      }
    }
    assert more[..|more|] == more;
  }

  lemma ListsMore(acc: seq<EdgeAtDepth>, acc': seq<EdgeAtDepth>)
    requires forall x :: x in acc ==> x in acc'
    ensures forall k :: ListsKey(acc, k) ==> ListsKey(acc', k)
  {
  }

  lemma OneMoreKey(acc: seq<EdgeAtDepth>, x: EdgeAtDepth)
    requires OnePerKey(acc) && !ListsKey(acc, KeyOf(x.edge))
    ensures OnePerKey(acc + [x])
    ensures forall k :: ListsKey(acc + [x], k) <==> ListsKey(acc, k) || k == KeyOf(x.edge)
  {
    assert x !in acc;
    assert (acc + [x])[|acc|] == x;
    forall k | ListsKey(acc, k) ensures ListsKey(acc + [x], k) {
      var y :| y in acc && KeyOf(y.edge) == k;
      assert y in acc + [x];
    }
  }

  lemma CollectNext(es: seq<DirectEdge>, f: Filter, d: Direction, centres: seq<SymbolId>, i: nat, maxDepth: nat,
                    acc: seq<EdgeAtDepth>, found: seq<EdgeAtDepth>, acc': seq<EdgeAtDepth>)
    requires i < |centres| && Collected(es, f, d, centres[..i], Hops(maxDepth), acc)
    requires Traversed(es, f, d, centres[i], maxDepth, found)
    requires OnePerKey(acc') && forall x :: x in acc ==> x in acc'
    requires forall x :: x in acc' && x !in acc ==> x in found && !ListsKey(acc, KeyOf(x.edge))
    requires forall x :: x in found ==> ListsKey(acc', KeyOf(x.edge))
    ensures Collected(es, f, d, centres[..i + 1], Hops(maxDepth), acc')
  {
    hide FoundBy, OnePerKey, Traversed, KeyOf;
    var hops, upTo := Hops(maxDepth), centres[..i + 1];
    ListsMore(acc, acc');
    forall x | x in acc' ensures exists j :: FirstFinder(es, f, d, upTo, hops, j, x) {
      if x in acc {
        var j :| FirstFinder(es, f, d, centres[..i], hops, j, x);
        forall l | 0 <= l < j ensures !FindsKey(es, f, d, upTo[l], hops, KeyOf(x.edge)) {
          assert upTo[l] == centres[..i][l];
        }
        assert FirstFinder(es, f, d, upTo, hops, j, x);
      } else {
        ListedIffFound(es, f, d, centres[i], maxDepth, found, x);
        forall l | 0 <= l < i ensures !FindsKey(es, f, d, upTo[l], hops, KeyOf(x.edge)) {
          assert upTo[l] == centres[..i][l];
        }
        assert FirstFinder(es, f, d, upTo, hops, i, x);
      }
    }
    forall j, x | 0 <= j < |upTo| && FoundBy(es, f, d, upTo[j], hops, x)
      ensures ListsKey(acc', KeyOf(x.edge))
    {
      if j < i {
        assert upTo[j] == centres[..i][j];
      } else {
        ListedIffFound(es, f, d, centres[i], maxDepth, found, x);
      }
    }
  }

  lemma CollectedSorted(es: seq<DirectEdge>, f: Filter, d: Direction, centres: seq<SymbolId>, hops: nat,
                        out: seq<EdgeAtDepth>)
    requires Collected(es, f, d, centres, hops, out)
    ensures Collected(es, f, d, centres, hops, StableSort(out)) && Ordered(StableSort(out))
  {
    hide FirstFinder, FoundBy, KeyOf, Ordered, StableSort;
    SortCorrect(out, EdgeAtDepth(NewEdge(0, 0, Calls, Dynamic, 0.0, []), 0));
    var sorted := StableSort(out);
    assert forall x :: x in sorted <==> multiset(sorted)[x] > 0;
    assert forall x :: x in out <==> multiset(out)[x] > 0;
    ListsMore(out, sorted);
  }

  lemma NothingCollected(es: seq<DirectEdge>, f: Filter, d: Direction, hops: nat)
    ensures Collected(es, f, d, [], hops, []) && forall k :: !ListsKey([], k)
  {
  }

  method BfsEdgesAggregated(es: seq<DirectEdge>, centres: seq<SymbolId>, maxDepth: nat, minConfidence: real,
                            includeStale: bool)
    returns (incoming: seq<EdgeAtDepth>, outgoing: seq<EdgeAtDepth>)
    ensures Collected(es, QueryFilter(es, minConfidence, includeStale), Incoming, centres, Hops(maxDepth), incoming) &&
            Ordered(incoming)
    ensures Collected(es, QueryFilter(es, minConfidence, includeStale), Outgoing, centres, Hops(maxDepth), outgoing) &&
            Ordered(outgoing)
  {
    hide Traversed, Collected, OnePerKey, ListsKey, QueryFilter, Ordered, StableSort, KeyOf;
    ghost var f, hops := QueryFilter(es, minConfidence, includeStale), Hops(maxDepth);
    incoming, outgoing := [], [];
    var seenIn: set<EdgeKey>, seenOut: set<EdgeKey> := {}, {};
    NothingCollected(es, f, Incoming, hops);
    NothingCollected(es, f, Outgoing, hops);
    for i := 0 to |centres|
      invariant Collected(es, f, Incoming, centres[..i], hops, incoming)
      invariant forall k :: k in seenIn <==> ListsKey(incoming, k)
      invariant Collected(es, f, Outgoing, centres[..i], hops, outgoing)
      invariant forall k :: k in seenOut <==> ListsKey(outgoing, k)
    {
      ghost var in0, out0 := incoming, outgoing;
      CollectedKeys(es, f, Incoming, centres[..i], hops, incoming);
      CollectedKeys(es, f, Outgoing, centres[..i], hops, outgoing);
      var inc, out := BfsEdgesFiltered(es, centres[i], maxDepth, minConfidence, includeStale);
      incoming, seenIn := Merge(incoming, seenIn, inc);
      outgoing, seenOut := Merge(outgoing, seenOut, out);
      CollectNext(es, f, Incoming, centres, i, maxDepth, in0, inc, incoming);
      CollectNext(es, f, Outgoing, centres, i, maxDepth, out0, out, outgoing);
    }
    assert centres[..|centres|] == centres;
    CollectedSorted(es, f, Incoming, centres, hops, incoming);
    CollectedSorted(es, f, Outgoing, centres, hops, outgoing);
    incoming, outgoing := StableSort(incoming), StableSort(outgoing);
  }

  lemma CollectedKeys(es: seq<DirectEdge>, f: Filter, d: Direction, centres: seq<SymbolId>, hops: nat,
                      out: seq<EdgeAtDepth>)
    requires Collected(es, f, d, centres, hops, out)
    ensures OnePerKey(out)
  {
  }

  /** No centre lists an edge with the key of `x` under a smaller depth. */
  ghost predicate LeastDepth(es: seq<DirectEdge>, f: Filter, d: Direction, centres: seq<SymbolId>, hops: nat,
                             x: EdgeAtDepth) {
    forall j, y :: 0 <= j < |centres| && FoundBy(es, f, d, centres[j], hops, y) && KeyOf(y.edge) == KeyOf(x.edge) ==>
      x.depth <= y.depth
  }

  /** Centre `c` is strictly nearer than `x.depth` to a passing edge with the key of `x`. */
  ghost predicate Nearer(es: seq<DirectEdge>, f: Filter, d: Direction, c: SymbolId, x: EdgeAtDepth) {
    exists e: DirectEdge, k: nat ::
      e in es && Passes(f, e) && KeyOf(e) == KeyOf(x.edge) && AtDistance(es, f, d, c, Near(d, e), k) && k + 1 < x.depth
  }

  lemma NearerFinds(es: seq<DirectEdge>, f: Filter, d: Direction, c: SymbolId, hops: nat, x: EdgeAtDepth)
    requires x.depth <= hops
    ensures Nearer(es, f, d, c, x) <==>
              exists y :: FoundBy(es, f, d, c, hops, y) && KeyOf(y.edge) == KeyOf(x.edge) && y.depth < x.depth
  {
    hide AtDistance, Passes;
    if Nearer(es, f, d, c, x) {
      var e: DirectEdge, k: nat :| e in es && Passes(f, e) && KeyOf(e) == KeyOf(x.edge) &&
                                   AtDistance(es, f, d, c, Near(d, e), k) && k + 1 < x.depth;
      assert FoundBy(es, f, d, c, hops, EdgeAtDepth(e, k + 1));
    }
    if y :| FoundBy(es, f, d, c, hops, y) && KeyOf(y.edge) == KeyOf(x.edge) && y.depth < x.depth {
      assert AtDistance(es, f, d, c, Near(d, y.edge), y.depth - 1);
    }
  }

  /**
    An aggregated edge keeps the least depth over all centres if and only if no centre after the first
    that lists it is strictly nearer to it.
   */
  lemma AggregatedDepthIsLeastIff(es: seq<DirectEdge>, f: Filter, d: Direction, centres: seq<SymbolId>, hops: nat,
                                  out: seq<EdgeAtDepth>, x: EdgeAtDepth, i: nat)
    requires Collected(es, f, d, centres, hops, out) && x in out && FirstFinder(es, f, d, centres, hops, i, x)
    ensures LeastDepth(es, f, d, centres, hops, x) <==>
              forall j :: i < j < |centres| ==> !Nearer(es, f, d, centres[j], x)
  {
    hide Collected, AtDistance, Passes;
    forall j | 0 <= j < |centres|
      ensures j < i ==> !FindsKey(es, f, d, centres[j], hops, KeyOf(x.edge))
      ensures Nearer(es, f, d, centres[j], x) <==>
                exists y ::
                  FoundBy(es, f, d, centres[j], hops, y) && KeyOf(y.edge) == KeyOf(x.edge) && y.depth < x.depth
    {
      NearerFinds(es, f, d, centres[j], hops, x);
    }
    forall y | FoundBy(es, f, d, centres[i], hops, y) && KeyOf(y.edge) == KeyOf(x.edge) ensures x.depth == y.depth {
      DistanceUnique(es, f, d, centres[i], Near(d, x.edge), x.depth - 1, y.depth - 1);
    }
  }

  /** With one hop every depth is one, so it always is the least. */
  lemma OneHopIsAlwaysLeast(es: seq<DirectEdge>, f: Filter, d: Direction, centres: seq<SymbolId>, maxDepth: nat,
                            out: seq<EdgeAtDepth>, x: EdgeAtDepth)
    requires Hops(maxDepth) == 1 && Collected(es, f, d, centres, Hops(maxDepth), out) && x in out
    ensures x.depth == 1 && LeastDepth(es, f, d, centres, Hops(maxDepth), x)
  {
    hide AtDistance, Passes;
    var i :| FirstFinder(es, f, d, centres, Hops(maxDepth), i, x);
  }

  /**
    The depth of an aggregated edge is that of the first centre listing it, which need not be the
    least: with centres 1 and 2 on the chain 1 -> 2 -> 3, the edge out of centre 2 stays at depth 2.
   */
  lemma FirstCentreNotNearest(out: seq<EdgeAtDepth>)
    requires var es := [NewEdge(1, 2, Calls, NameResolved, 0.9, []), NewEdge(2, 3, Calls, NameResolved, 0.9, [])];
             Collected(es, QueryFilter(es, 0.0, false), Outgoing, [1, 2], 2, out)
    ensures var e := NewEdge(2, 3, Calls, NameResolved, 0.9, []);
            var es := [NewEdge(1, 2, Calls, NameResolved, 0.9, []), e];
            EdgeAtDepth(e, 2) in out && FoundBy(es, QueryFilter(es, 0.0, false), Outgoing, 2, 2, EdgeAtDepth(e, 1))
  {
    var e0, e := NewEdge(1, 2, Calls, NameResolved, 0.9, []), NewEdge(2, 3, Calls, NameResolved, 0.9, []);
    var es := [e0, e];
    var f := QueryFilter(es, 0.0, false);
    assert e0 in es && e in es && Passes(f, e0) && Passes(f, e);
    assert Walk(es, f, Outgoing, 1, 1, 0) && Walk(es, f, Outgoing, 2, 2, 0);
    WalkStep(es, f, Outgoing, 1, e0, 0);
    assert !Walk(es, f, Outgoing, 1, 2, 0);
    assert FoundBy(es, f, Outgoing, 1, 2, EdgeAtDepth(e, 2));
    assert [1, 2][0] == 1;
    assert ListsKey(out, KeyOf(e));
    var y :| y in out && KeyOf(y.edge) == KeyOf(e);
    var i :| FirstFinder(es, f, Outgoing, [1, 2], 2, i, y);
    assert FindsKey(es, f, Outgoing, 1, 2, KeyOf(e));
    assert i == 0;
    DistanceUnique(es, f, Outgoing, 1, 2, y.depth - 1, 1);
  }
}
