/** Depth-labelled breadth-first traversal of the edges around a symbol. */
module Traversal {
  import opened Symbols

  datatype EdgeAtDepth = EdgeAtDepth(edge: DirectEdge, depth: nat)

  datatype Direction = Outgoing | Incoming

  function Near(d: Direction, e: DirectEdge): SymbolId {
    if d.Outgoing? then e.from else e.to
  }

  function Far(d: Direction, e: DirectEdge): SymbolId {
    if d.Outgoing? then e.to else e.from
  }

  /** `cutoff` is the latest epoch of the graph; an edge created before it is stale once epochs have advanced. */
  datatype Filter = Filter(minConfidence: real, includeStale: bool, cutoff: nat)

  predicate Passes(f: Filter, e: DirectEdge) {
    e.confidence >= f.minConfidence && (f.includeStale || !(f.cutoff > 0 && e.createdAtEpoch < f.cutoff))
  }

  function Hops(maxDepth: nat): nat {
    if maxDepth < 1 then 1 else maxDepth
  }

  // ------------------------------------------------------------ shortest distance

  /** A walk of exactly `k` passing edges leads from `c` to `v`. */
  ghost predicate Walk(es: seq<DirectEdge>, f: Filter, d: Direction, c: SymbolId, v: SymbolId, k: nat)
    decreases k
  {
    if k == 0 then v == c
    else exists e :: e in es && Passes(f, e) && Far(d, e) == v && Walk(es, f, d, c, Near(d, e), k - 1)
  }

  ghost predicate Within(es: seq<DirectEdge>, f: Filter, d: Direction, c: SymbolId, v: SymbolId, k: nat) {
    exists j :: 0 <= j <= k && Walk(es, f, d, c, v, j)
  }

  /** The shortest walk from `c` to `v` has `k` edges. */
  ghost predicate AtDistance(es: seq<DirectEdge>, f: Filter, d: Direction, c: SymbolId, v: SymbolId, k: nat) {
    Walk(es, f, d, c, v, k) && forall j :: 0 <= j < k ==> !Walk(es, f, d, c, v, j)
  }

  lemma DistanceUnique(es: seq<DirectEdge>, f: Filter, d: Direction, c: SymbolId, v: SymbolId, j: nat, k: nat)
    requires AtDistance(es, f, d, c, v, j) && AtDistance(es, f, d, c, v, k)
    ensures j == k
  {
  }

  lemma WalkStep(es: seq<DirectEdge>, f: Filter, d: Direction, c: SymbolId, e: DirectEdge, k: nat)
    requires e in es && Passes(f, e) && Walk(es, f, d, c, Near(d, e), k)
    ensures Walk(es, f, d, c, Far(d, e), k + 1)
  {
  }

  /** Before the last edge of a shortest walk lies a shortest walk. */
  lemma Predecessor(es: seq<DirectEdge>, f: Filter, d: Direction, c: SymbolId, v: SymbolId,
                    k: nat) returns (e: DirectEdge)
    requires AtDistance(es, f, d, c, v, k + 1)
    ensures e in es && Passes(f, e) && Far(d, e) == v && AtDistance(es, f, d, c, Near(d, e), k)
  {
    e :| e in es && Passes(f, e) && Far(d, e) == v && Walk(es, f, d, c, Near(d, e), k);
    forall j | 0 <= j < k ensures !Walk(es, f, d, c, Near(d, e), j) {
      if Walk(es, f, d, c, Near(d, e), j) {
        WalkStep(es, f, d, c, e, j);
      }
    }
  }

  /** Distances have no gaps: beyond an empty layer every layer is empty. */
  lemma {:induction false} NothingBeyond(es: seq<DirectEdge>, f: Filter, d: Direction, c: SymbolId, k: nat,
                                         v: SymbolId, l: nat)
    requires forall u :: !AtDistance(es, f, d, c, u, k)
    requires l >= k
    ensures !AtDistance(es, f, d, c, v, l)
    decreases l
  {
    if l > k && AtDistance(es, f, d, c, v, l) {
      var e := Predecessor(es, f, d, c, v, l - 1);
      NothingBeyond(es, f, d, c, k, Near(d, e), l - 1);
    }
  }

  /** A vertex with a walk has a distance, no longer than the walk. */
  lemma {:induction false} WalkHasDistance(es: seq<DirectEdge>, f: Filter, d: Direction, c: SymbolId, v: SymbolId,
                                           k: nat) returns (j: nat)
    requires Walk(es, f, d, c, v, k)
    ensures j <= k && AtDistance(es, f, d, c, v, j)
    decreases k
  {
    if i :| 0 <= i < k && Walk(es, f, d, c, v, i) {
      j := WalkHasDistance(es, f, d, c, v, i);
    } else {
      j := k;
    }
  }

  // ------------------------------------------------------------ what a traversal must list

  /** `x` belongs in the result: its edge passes and leaves the centre's ball at distance `x.depth - 1`. */
  ghost predicate FoundBy(es: seq<DirectEdge>, f: Filter, d: Direction, c: SymbolId, hops: nat, x: EdgeAtDepth) {
    && x.edge in es && Passes(f, x.edge) && 1 <= x.depth <= hops
    && AtDistance(es, f, d, c, Near(d, x.edge), x.depth - 1)
  }

  /** Each occurrence of an edge in the graph is listed once, under its one depth, if it belongs; nothing else is. */
  ghost predicate ListsExactly(es: seq<DirectEdge>, f: Filter, d: Direction, c: SymbolId, hops: nat,
                               out: seq<EdgeAtDepth>) {
    forall x :: multiset(out)[x] == if FoundBy(es, f, d, c, hops, x) then multiset(es)[x.edge] else 0
  }

  // ------------------------------------------------------------ one hop

  /** The passing edges at `src`, in graph order. */
  function EdgesAt(es: seq<DirectEdge>, f: Filter, d: Direction, src: SymbolId): seq<DirectEdge> {
    if es == [] then []
    else
      var e := es[|es| - 1];
      EdgesAt(es[..|es| - 1], f, d, src) + if Near(d, e) == src && Passes(f, e) then [e] else []
  }

  lemma {:induction false} EdgesAtCount(es: seq<DirectEdge>, f: Filter, d: Direction, src: SymbolId, e: DirectEdge)
    ensures multiset(EdgesAt(es, f, d, src))[e] == if Near(d, e) == src && Passes(f, e) then multiset(es)[e] else 0
  {
    if es != [] {
      EdgesAtCount(es[..|es| - 1], f, d, src, e);
      assert es == es[..|es| - 1] + [es[|es| - 1]];
    }
  }

  function Labelled(es: seq<DirectEdge>, depth: nat): seq<EdgeAtDepth> {
    seq(|es|, i requires 0 <= i < |es| => EdgeAtDepth(es[i], depth))
  }

  lemma {:induction false} LabelledCount(es: seq<DirectEdge>, depth: nat, x: EdgeAtDepth)
    ensures multiset(Labelled(es, depth))[x] == if x.depth == depth then multiset(es)[x.edge] else 0
  {
    if es != [] {
      var rest := es[..|es| - 1];
      LabelledCount(rest, depth, x);
      assert es == rest + [es[|es| - 1]];
      assert Labelled(es, depth) == Labelled(rest, depth) + [EdgeAtDepth(es[|es| - 1], depth)];
    }
  }

  predicate Distinct<T(==)>(s: seq<T>) {
    forall i, j :: 0 <= i < j < |s| ==> s[i] != s[j]
  }

  /** Vertices one passing edge away from `src`. */
  ghost predicate OneHop(es: seq<DirectEdge>, f: Filter, d: Direction, src: SymbolId, v: SymbolId) {
    exists e :: e in es && Passes(f, e) && Near(d, e) == src && Far(d, e) == v
  }

  /** `next` lists, once each, what was added to `visited0` to make `visited`. */
  ghost predicate Discovered(visited0: set<SymbolId>, visited: set<SymbolId>, next: seq<SymbolId>) {
    visited0 <= visited && Distinct(next) && forall v :: v in next <==> v in visited && v !in visited0
  }

  lemma DiscoverOne(visited0: set<SymbolId>, visited: set<SymbolId>, next: seq<SymbolId>, v: SymbolId)
    requires Discovered(visited0, visited, next)
    ensures Discovered(visited0, visited + {v}, if v in visited then next else next + [v])
  {
    if v in visited {
      assert visited + {v} == visited;
    }
  }

  /** One vertex of the frontier: list its passing edges, remember the new ends. */
  method Expand(es: seq<DirectEdge>, f: Filter, d: Direction, src: SymbolId, depth: nat,
                visited: set<SymbolId>, next: seq<SymbolId>, out: seq<EdgeAtDepth>, ghost visited0: set<SymbolId>)
    returns (visited': set<SymbolId>, next': seq<SymbolId>, out': seq<EdgeAtDepth>)
    requires Discovered(visited0, visited, next)
    ensures out' == out + Labelled(EdgesAt(es, f, d, src), depth)
    ensures Discovered(visited0, visited', next')
    ensures forall v :: v in visited' <==> v in visited || OneHop(es, f, d, src, v)
  {
    hide Discovered;
    visited', next', out' := visited, next, out;
    for i := 0 to |es|
      invariant out' == out + Labelled(EdgesAt(es[..i], f, d, src), depth)
      invariant Discovered(visited0, visited', next')
      invariant forall v :: v in visited' <==> v in visited || OneHop(es[..i], f, d, src, v)
    {
      var e := es[i];
      HopGrows(es, f, d, src, i);
      assert es[..i + 1][..i] == es[..i];
      if Near(d, e) == src && Passes(f, e) {
        out' := out' + [EdgeAtDepth(e, depth)];
        DiscoverOne(visited0, visited', next', Far(d, e));
        if Far(d, e) !in visited' {
          next' := next' + [Far(d, e)];
        }
        visited' := visited' + {Far(d, e)};
      }
    }
    assert es[..|es|] == es;
  }

  lemma HopGrows(es: seq<DirectEdge>, f: Filter, d: Direction, src: SymbolId, i: nat)
    requires i < |es|
    ensures forall v :: OneHop(es[..i + 1], f, d, src, v) <==>
              OneHop(es[..i], f, d, src, v) || (Passes(f, es[i]) && Near(d, es[i]) == src && Far(d, es[i]) == v)
  {
    assert es[..i + 1] == es[..i] + [es[i]];
    if Passes(f, es[i]) && Near(d, es[i]) == src {
      assert es[i] in es[..i + 1];
      assert OneHop(es[..i + 1], f, d, src, Far(d, es[i]));
    }
  }

  // ------------------------------------------------------------ layer by layer

  ghost predicate IsLayer(es: seq<DirectEdge>, f: Filter, d: Direction, c: SymbolId, k: nat, frontier: seq<SymbolId>) {
    Distinct(frontier) && forall v :: v in frontier <==> AtDistance(es, f, d, c, v, k)
  }

  ghost predicate IsBall(es: seq<DirectEdge>, f: Filter, d: Direction, c: SymbolId, k: nat, visited: set<SymbolId>) {
    forall v :: v in visited <==> Within(es, f, d, c, v, k)
  }

  ghost predicate HopFrom(es: seq<DirectEdge>, f: Filter, d: Direction, us: seq<SymbolId>, v: SymbolId) {
    exists u :: u in us && OneHop(es, f, d, u, v)
  }

  /** `out` is `out0` plus the passing edges at `us`, all under `depth`. */
  ghost predicate ListedAt(es: seq<DirectEdge>, f: Filter, d: Direction, us: seq<SymbolId>, depth: nat,
                           out0: seq<EdgeAtDepth>, out: seq<EdgeAtDepth>) {
    forall x :: multiset(out)[x] ==
      multiset(out0)[x] +
      if x.depth == depth && Passes(f, x.edge) && Near(d, x.edge) in us then multiset(es)[x.edge] else 0
  }

  lemma ListOneMore(es: seq<DirectEdge>, f: Filter, d: Direction, us: seq<SymbolId>, u: SymbolId, depth: nat,
                    out0: seq<EdgeAtDepth>, out: seq<EdgeAtDepth>)
    requires ListedAt(es, f, d, us, depth, out0, out) && u !in us
    ensures ListedAt(es, f, d, us + [u], depth, out0, out + Labelled(EdgesAt(es, f, d, u), depth))
  {
    hide EdgesAt, Labelled, Passes, Near;
    var more := Labelled(EdgesAt(es, f, d, u), depth);
    forall x ensures multiset(out + more)[x] ==
      multiset(out0)[x] +
      if x.depth == depth && Passes(f, x.edge) && Near(d, x.edge) in us + [u] then multiset(es)[x.edge] else 0
    {
      LabelledCount(EdgesAt(es, f, d, u), depth, x);
      EdgesAtCount(es, f, d, u, x.edge);
    }
  }

  /** The vertices first met from a layer are the next layer. */
  lemma NextLayer(es: seq<DirectEdge>, f: Filter, d: Direction, c: SymbolId, k: nat, frontier: seq<SymbolId>,
                  visited: set<SymbolId>, visited': set<SymbolId>, next: seq<SymbolId>)
    requires IsLayer(es, f, d, c, k, frontier) && IsBall(es, f, d, c, k, visited)
    requires Discovered(visited, visited', next)
    requires forall v :: v in visited' <==> v in visited || HopFrom(es, f, d, frontier, v)
    ensures IsLayer(es, f, d, c, k + 1, next) && IsBall(es, f, d, c, k + 1, visited')
  {
    hide Walk, AtDistance, Within, Passes, Near, Far, Distinct, OneHop;
    forall v ensures v in next <==> AtDistance(es, f, d, c, v, k + 1) {
      if v in next {
        assert HopFrom(es, f, d, frontier, v);
        var u :| u in frontier && OneHop(es, f, d, u, v);
        NewVertex(es, f, d, c, k, u, v);
      }
      if AtDistance(es, f, d, c, v, k + 1) {
        var e := Predecessor(es, f, d, c, v, k);
        FarOfLayer(es, f, d, c, k, e);
        assert HopFrom(es, f, d, frontier, v);
      }
    }
    forall v ensures v in visited' <==> Within(es, f, d, c, v, k + 1) {
      WithinGrows(es, f, d, c, v, k);
    }
  }

  lemma NewVertex(es: seq<DirectEdge>, f: Filter, d: Direction, c: SymbolId, k: nat, u: SymbolId, v: SymbolId)
    requires AtDistance(es, f, d, c, u, k) && OneHop(es, f, d, u, v) && !Within(es, f, d, c, v, k)
    ensures AtDistance(es, f, d, c, v, k + 1)
  {
    var e :| e in es && Passes(f, e) && Near(d, e) == u && Far(d, e) == v;
    WalkStep(es, f, d, c, e, k);
  }

  lemma FarOfLayer(es: seq<DirectEdge>, f: Filter, d: Direction, c: SymbolId, k: nat, e: DirectEdge)
    requires e in es && Passes(f, e) && AtDistance(es, f, d, c, Far(d, e), k + 1)
    ensures OneHop(es, f, d, Near(d, e), Far(d, e)) && !Within(es, f, d, c, Far(d, e), k)
  {
  }

  lemma WithinGrows(es: seq<DirectEdge>, f: Filter, d: Direction, c: SymbolId, v: SymbolId, k: nat)
    ensures Within(es, f, d, c, v, k + 1) <==> Within(es, f, d, c, v, k) || AtDistance(es, f, d, c, v, k + 1)
  {
    hide Walk;
    if Within(es, f, d, c, v, k + 1) && !Within(es, f, d, c, v, k) {
      var j :| 0 <= j <= k + 1 && Walk(es, f, d, c, v, j);
      assert j == k + 1;
    }
  }

  lemma ListLayer(es: seq<DirectEdge>, f: Filter, d: Direction, c: SymbolId, hops: nat, frontier: seq<SymbolId>,
                  out0: seq<EdgeAtDepth>, out: seq<EdgeAtDepth>)
    requires ListsExactly(es, f, d, c, hops, out0) && IsLayer(es, f, d, c, hops, frontier)
    requires ListedAt(es, f, d, frontier, hops + 1, out0, out)
    ensures ListsExactly(es, f, d, c, hops + 1, out)
  {
    hide AtDistance, Distinct, Passes, Near;
  }

  lemma ListAll(es: seq<DirectEdge>, f: Filter, d: Direction, c: SymbolId, hops: nat, hops': nat, out: seq<EdgeAtDepth>)
    requires ListsExactly(es, f, d, c, hops, out) && IsLayer(es, f, d, c, hops, []) && hops <= hops'
    ensures ListsExactly(es, f, d, c, hops', out)
  {
    hide AtDistance, Passes, Near;
    forall x ensures FoundBy(es, f, d, c, hops', x) <==> FoundBy(es, f, d, c, hops, x) {
      if FoundBy(es, f, d, c, hops', x) && x.depth > hops {
        NothingBeyond(es, f, d, c, hops, Near(d, x.edge), x.depth - 1);
      }
    }
  }

  lemma FirstLayer(es: seq<DirectEdge>, f: Filter, d: Direction, c: SymbolId)
    ensures IsLayer(es, f, d, c, 0, [c]) && IsBall(es, f, d, c, 0, {c})
    ensures ListsExactly(es, f, d, c, 0, [])
  {
    forall v ensures v in {c} <==> Within(es, f, d, c, v, 0) {
      assert Walk(es, f, d, c, v, 0) <==> v == c;
    }
  }

  /** Breadth-first search in one direction: each edge that belongs, once, under its distance plus one. */
  method BreadthFirst(es: seq<DirectEdge>, f: Filter, d: Direction, c: SymbolId,
                      maxDepth: nat) returns (out: seq<EdgeAtDepth>)
    ensures ListsExactly(es, f, d, c, Hops(maxDepth), out)
  {
    hide IsLayer, IsBall, ListsExactly, ListedAt, EdgesAt, Labelled, HopFrom, OneHop, Discovered;
    FirstLayer(es, f, d, c);
    out := [];
    var visited := {c};
    var frontier := [c];
    for depth := 1 to Hops(maxDepth) + 1
      invariant IsLayer(es, f, d, c, depth - 1, frontier) && IsBall(es, f, d, c, depth - 1, visited)
      invariant ListsExactly(es, f, d, c, depth - 1, out)
    {
      ghost var visited0, out0 := visited, out;
      var next: seq<SymbolId> := [];
      StartLayer(es, f, d, depth, visited, out);
      for i := 0 to |frontier|
        invariant Discovered(visited0, visited, next)
        invariant forall v :: v in visited <==> v in visited0 || HopFrom(es, f, d, frontier[..i], v)
        invariant ListedAt(es, f, d, frontier[..i], depth, out0, out)
      {
        ghost var before := out;
        visited, next, out := Expand(es, f, d, frontier[i], depth, visited, next, out, visited0);
        FrontierStep(es, f, d, c, depth - 1, frontier, i);
        ListOneMore(es, f, d, frontier[..i], frontier[i], depth, out0, before);
      }
      assert frontier[..|frontier|] == frontier;
      NextLayer(es, f, d, c, depth - 1, frontier, visited0, visited, next);
      ListLayer(es, f, d, c, depth - 1, frontier, out0, out);
      if |next| == 0 {
        assert next == [];
        ListAll(es, f, d, c, depth, Hops(maxDepth), out);
        return;
      }
      frontier := next;
    }
  }

  lemma StartLayer(es: seq<DirectEdge>, f: Filter, d: Direction, depth: nat, visited: set<SymbolId>,
                   out: seq<EdgeAtDepth>)
    ensures Discovered(visited, visited, []) && ListedAt(es, f, d, [], depth, out, out)
    ensures forall v :: !HopFrom(es, f, d, [], v)
  {
  }

  lemma FrontierStep(es: seq<DirectEdge>, f: Filter, d: Direction, c: SymbolId, k: nat, frontier: seq<SymbolId>, i: nat)
    requires IsLayer(es, f, d, c, k, frontier) && i < |frontier|
    ensures frontier[..i + 1] == frontier[..i] + [frontier[i]] && frontier[i] !in frontier[..i]
    ensures forall v :: HopFrom(es, f, d, frontier[..i + 1], v) <==>
              HopFrom(es, f, d, frontier[..i], v) || OneHop(es, f, d, frontier[i], v)
  {
    hide OneHop, AtDistance;
    var us := frontier[..i + 1];
    assert us == frontier[..i] + [frontier[i]];
    assert us[i] in us;
  }
}
