/** What a query lists, in terms of paths of edges, with the depth bound, the filter and the order written out. */
module TraversalMeaning {
  import opened Symbols
  import opened Traversal
  import opened TraversalResults

  /** Confident enough and, unless stale edges are wanted, no older than any edge of the graph. */
  ghost predicate Followed(es: seq<DirectEdge>, minConfidence: real, includeStale: bool, e: DirectEdge) {
    && e in es && e.confidence >= minConfidence
    && (includeStale || forall other :: other in es ==> other.createdAtEpoch <= e.createdAtEpoch)
  }

  /** The edges of `path` lead from `c` to `v`, head to tail. */
  ghost predicate LeadsTo(es: seq<DirectEdge>, minConfidence: real, includeStale: bool, path: seq<DirectEdge>,
                          c: SymbolId, v: SymbolId) {
    && (forall i :: 0 <= i < |path| ==> Followed(es, minConfidence, includeStale, path[i]))
    && (forall i :: 0 < i < |path| ==> path[i].from == path[i - 1].to)
    && (if path == [] then v == c else path[0].from == c && path[|path| - 1].to == v)
  }

  /** The same against the direction of the edges. */
  ghost predicate LeadsBack(es: seq<DirectEdge>, minConfidence: real, includeStale: bool, path: seq<DirectEdge>,
                            c: SymbolId, v: SymbolId) {
    && (forall i :: 0 <= i < |path| ==> Followed(es, minConfidence, includeStale, path[i]))
    && (forall i :: 0 < i < |path| ==> path[i].to == path[i - 1].from)
    && (if path == [] then v == c else path[0].to == c && path[|path| - 1].from == v)
  }

  lemma FollowedMeaning(es: seq<DirectEdge>, minConfidence: real, includeStale: bool, e: DirectEdge)
    ensures e in es && Passes(QueryFilter(es, minConfidence, includeStale), e) <==>
              Followed(es, minConfidence, includeStale, e)
  {
    hide LatestEpoch;
    LatestIsReached(es);
  }

  lemma {:induction false} LatestIsReached(es: seq<DirectEdge>)
    ensures forall e :: e in es ==> e.createdAtEpoch <= LatestEpoch(es)
    ensures es != [] ==> exists e :: e in es && e.createdAtEpoch == LatestEpoch(es)
  {
    if es != [] {
      var rest, last := es[..|es| - 1], es[|es| - 1];
      LatestIsReached(rest);
      assert es == rest + [last];
      assert last in es;
    }
  }

  lemma {:induction false} WalkIsPath(es: seq<DirectEdge>, minConfidence: real, includeStale: bool, d: Direction,
                                      c: SymbolId, v: SymbolId, k: nat) returns (path: seq<DirectEdge>)
    requires Walk(es, QueryFilter(es, minConfidence, includeStale), d, c, v, k)
    ensures |path| == k
    ensures d == Outgoing ==> LeadsTo(es, minConfidence, includeStale, path, c, v)
    ensures d == Incoming ==> LeadsBack(es, minConfidence, includeStale, path, c, v)
    decreases k
  {
    hide QueryFilter, Followed;
    var f := QueryFilter(es, minConfidence, includeStale);
    if k == 0 {
      path := [];
    } else {
      var e :| e in es && Passes(f, e) && Far(d, e) == v && Walk(es, f, d, c, Near(d, e), k - 1);
      FollowedMeaning(es, minConfidence, includeStale, e);
      var rest := WalkIsPath(es, minConfidence, includeStale, d, c, Near(d, e), k - 1);
      path := rest + [e];
    }
  }

  lemma {:induction false} PathIsWalk(es: seq<DirectEdge>, minConfidence: real, includeStale: bool, d: Direction,
                                      c: SymbolId, v: SymbolId, path: seq<DirectEdge>)
    requires d == Outgoing ==> LeadsTo(es, minConfidence, includeStale, path, c, v)
    requires d == Incoming ==> LeadsBack(es, minConfidence, includeStale, path, c, v)
    ensures Walk(es, QueryFilter(es, minConfidence, includeStale), d, c, v, |path|)
    decreases |path|
  {
    hide QueryFilter, Followed;
    if path != [] {
      var rest, e := path[..|path| - 1], path[|path| - 1];
      FollowedMeaning(es, minConfidence, includeStale, e);
      PathIsWalk(es, minConfidence, includeStale, d, c, Near(d, e), rest);
      WalkStep(es, QueryFilter(es, minConfidence, includeStale), d, c, e, |rest|);
    }
  }

  /** Shortest paths to the near end of `x` have `x.depth - 1` edges, and the depth is within the one asked for. */
  ghost predicate InReach(es: seq<DirectEdge>, minConfidence: real, includeStale: bool, d: Direction, c: SymbolId,
                          maxDepth: nat, x: EdgeAtDepth) {
    && Followed(es, minConfidence, includeStale, x.edge)
    && (x.depth == 1 || 1 < x.depth <= maxDepth)
    && match d
       case Outgoing =>
         && (exists path :: LeadsTo(es, minConfidence, includeStale, path, c, x.edge.from) && |path| == x.depth - 1)
         && (forall path :: LeadsTo(es, minConfidence, includeStale, path, c, x.edge.from) ==> |path| >= x.depth - 1)
       case Incoming =>
         && (exists path :: LeadsBack(es, minConfidence, includeStale, path, c, x.edge.to) && |path| == x.depth - 1)
         && (forall path :: LeadsBack(es, minConfidence, includeStale, path, c, x.edge.to) ==> |path| >= x.depth - 1)
  }

  lemma DistanceMeaning(es: seq<DirectEdge>, minConfidence: real, includeStale: bool, d: Direction, c: SymbolId,
                        v: SymbolId, k: nat)
    ensures d == Outgoing ==>
              (AtDistance(es, QueryFilter(es, minConfidence, includeStale), d, c, v, k) <==>
               (exists path :: LeadsTo(es, minConfidence, includeStale, path, c, v) && |path| == k) &&
                 forall path :: LeadsTo(es, minConfidence, includeStale, path, c, v) ==> |path| >= k)
    ensures d == Incoming ==>
              (AtDistance(es, QueryFilter(es, minConfidence, includeStale), d, c, v, k) <==>
               (exists path :: LeadsBack(es, minConfidence, includeStale, path, c, v) && |path| == k) &&
                 forall path :: LeadsBack(es, minConfidence, includeStale, path, c, v) ==> |path| >= k)
  {
    hide QueryFilter, Walk, LeadsTo, LeadsBack;
    var f := QueryFilter(es, minConfidence, includeStale);
    forall path
      ensures d == Outgoing && LeadsTo(es, minConfidence, includeStale, path, c, v) ==> Walk(es, f, d, c, v, |path|)
      ensures d == Incoming && LeadsBack(es, minConfidence, includeStale, path, c, v) ==> Walk(es, f, d, c, v, |path|)
    {
      if (d == Outgoing && LeadsTo(es, minConfidence, includeStale, path, c, v)) ||
         (d == Incoming && LeadsBack(es, minConfidence, includeStale, path, c, v)) {
        PathIsWalk(es, minConfidence, includeStale, d, c, v, path);
      }
    }
    forall j: nat | Walk(es, f, d, c, v, j)
      ensures d == Outgoing ==>
                exists path :: LeadsTo(es, minConfidence, includeStale, path, c, v) && |path| == j
      ensures d == Incoming ==>
                exists path :: LeadsBack(es, minConfidence, includeStale, path, c, v) && |path| == j
    {
      var path := WalkIsPath(es, minConfidence, includeStale, d, c, v, j);
    }
  }

  /** An edge is found under a depth exactly when it is in reach. */
  lemma FoundMeansInReach(es: seq<DirectEdge>, minConfidence: real, includeStale: bool, d: Direction, c: SymbolId,
                          maxDepth: nat, x: EdgeAtDepth)
    ensures FoundBy(es, QueryFilter(es, minConfidence, includeStale), d, c, Hops(maxDepth), x) <==>
              InReach(es, minConfidence, includeStale, d, c, maxDepth, x)
  {
    hide QueryFilter, Passes, Followed, AtDistance, LeadsTo, LeadsBack;
    FollowedMeaning(es, minConfidence, includeStale, x.edge);
    if x.depth >= 1 {
      DistanceMeaning(es, minConfidence, includeStale, d, c, Near(d, x.edge), x.depth - 1);
    }
  }

  /**
    The listing of a query around one centre: each edge of the graph as often as the graph has it, under
    the one depth at which it is in reach, and nothing else.
   */
  lemma ListedMeansInReach(es: seq<DirectEdge>, minConfidence: real, includeStale: bool, d: Direction, c: SymbolId,
                           maxDepth: nat, out: seq<EdgeAtDepth>, x: EdgeAtDepth)
    requires Traversed(es, QueryFilter(es, minConfidence, includeStale), d, c, maxDepth, out)
    ensures x in out <==> InReach(es, minConfidence, includeStale, d, c, maxDepth, x)
    ensures multiset(out)[x] ==
            if InReach(es, minConfidence, includeStale, d, c, maxDepth, x) then multiset(es)[x.edge] else 0
  {
    hide QueryFilter, FoundBy, InReach, Ordered;
    FoundMeansInReach(es, minConfidence, includeStale, d, c, maxDepth, x);
    ListedIffFound(es, QueryFilter(es, minConfidence, includeStale), d, c, maxDepth, out, x);
  }

  /** Depth 0 or 1 lists the edges at the centre and no others. */
  lemma OneHopTouchesCentre(es: seq<DirectEdge>, minConfidence: real, includeStale: bool, d: Direction, c: SymbolId,
                            maxDepth: nat, out: seq<EdgeAtDepth>, x: EdgeAtDepth)
    requires Traversed(es, QueryFilter(es, minConfidence, includeStale), d, c, maxDepth, out) && maxDepth <= 1
    ensures x in out <==>
              x.depth == 1 && Followed(es, minConfidence, includeStale, x.edge) &&
                (if d == Outgoing then x.edge.from == c else x.edge.to == c)
  {
    hide QueryFilter, Traversed, Followed;
    ListedMeansInReach(es, minConfidence, includeStale, d, c, maxDepth, out, x);
    if x.depth == 1 {
      assert LeadsTo(es, minConfidence, includeStale, [], c, c) && LeadsBack(es, minConfidence, includeStale, [], c, c);
    }
  }

  /** The kinds from the most to the least telling. */
  const DISPLAY: seq<EdgeKind> := [
    Calls, EdgeKind.Implements, EdgeKind.Extends, Inherits, Overrides, Imports, References, DependsOn, TypeOf,
    GenericParam, Configures, EnumValueMatch, ApiPathMatch, StringMatch, Contains, BelongsTo, Documents, Mentions,
    DescribedIn, Resolves
  ]

  /** In display order depth never decreases, and within a depth the kinds follow the list. */
  lemma DisplayOrder(s: seq<EdgeAtDepth>, i: nat, j: nat, a: nat, b: nat)
    requires Ordered(s) && i < j < |s| && a < |DISPLAY| && b < |DISPLAY|
    requires s[i].edge.kind == DISPLAY[a] && s[j].edge.kind == DISPLAY[b]
    ensures s[i].depth <= s[j].depth && (s[i].depth == s[j].depth ==> a <= b)
  {
    hide Ordered;
    assert NotAfter(s[i], s[j]) by {
      OrderedAt(s, i, j);
    }
    PriorityIsPlace(a);
    PriorityIsPlace(b);
  }

  lemma OrderedAt(s: seq<EdgeAtDepth>, i: nat, j: nat)
    requires Ordered(s) && i < j < |s|
    ensures NotAfter(s[i], s[j])
  {
  }

  lemma PriorityIsPlace(a: nat)
    requires a < |DISPLAY|
    ensures KindPriority(DISPLAY[a]) == a
  {
  }

  /**
    Several centres: what is listed is in reach of one of them, at the depth of the first that reaches
    an edge of its key, and every edge in reach of any centre has an entry of its key, one each.
   */
  lemma AggregatedMeansInReach(es: seq<DirectEdge>, minConfidence: real, includeStale: bool, d: Direction,
                               centres: seq<SymbolId>, maxDepth: nat, out: seq<EdgeAtDepth>, x: EdgeAtDepth)
    requires Collected(es, QueryFilter(es, minConfidence, includeStale), d, centres, Hops(maxDepth), out)
    ensures x in out ==>
              exists i :: 0 <= i < |centres| && InReach(es, minConfidence, includeStale, d, centres[i], maxDepth, x) &&
                forall j, y: EdgeAtDepth :: 0 <= j < i && KeyOf(y.edge) == KeyOf(x.edge) ==>
                  !InReach(es, minConfidence, includeStale, d, centres[j], maxDepth, y)
    ensures forall i :: 0 <= i < |centres| && InReach(es, minConfidence, includeStale, d, centres[i], maxDepth, x) ==>
              exists y :: y in out && KeyOf(y.edge) == KeyOf(x.edge)
    ensures forall a, b :: 0 <= a < b < |out| ==> KeyOf(out[a].edge) != KeyOf(out[b].edge)
  {
    hide QueryFilter, FoundBy, InReach, KeyOf;
    var f := QueryFilter(es, minConfidence, includeStale);
    forall i, y | 0 <= i < |centres|
      ensures FoundBy(es, f, d, centres[i], Hops(maxDepth), y) <==>
                InReach(es, minConfidence, includeStale, d, centres[i], maxDepth, y)
    {
      FoundMeansInReach(es, minConfidence, includeStale, d, centres[i], maxDepth, y);
    }
    forall a, b | 0 <= a < b < |out| ensures KeyOf(out[a].edge) != KeyOf(out[b].edge) {
      EntriesDiffer(out, a, b);
    }
  }

  lemma EntriesDiffer(out: seq<EdgeAtDepth>, a: nat, b: nat)
    requires OnePerKey(out) && a < b < |out|
    ensures KeyOf(out[a].edge) != KeyOf(out[b].edge)
  {
    hide KeyOf;
    TwiceListed(out, a, b);
  }

  lemma TwiceListed(s: seq<EdgeAtDepth>, a: nat, b: nat)
    requires a < b < |s|
    ensures s[a] == s[b] ==> multiset(s)[s[a]] >= 2
  {
    assert s == s[..b] + [s[b]] + s[b + 1..];
    assert s[..b][a] == s[a];
  }
}
