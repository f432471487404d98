/** Removing every node of one file, and looking names up after new nodes took their place. */
module FileRemoval {
  import opened Symbols
  import opened NodeQueries
  import opened SymbolGraphs

  function RemoveAll(g: Graph, ids: seq<SymbolId>): Graph
    decreases ids
  {
    if ids == [] then g else RemoveAll(WithoutNode(g, ids[0]), ids[1..])
  }

  ghost predicate TouchesAny(k: EdgeKey, ids: set<SymbolId>) {
    k.from in ids || k.to in ids
  }

  /** The list an index holds for a key. */
  function View(index: map<string, seq<SymbolId>>, key: string): seq<SymbolId> {
    if key in index then index[key] else []
  }

  function WithoutAll(list: seq<SymbolId>, ids: set<SymbolId>): seq<SymbolId> {
    if list == [] then []
    else (if list[0] in ids then [] else [list[0]]) + WithoutAll(list[1..], ids)
  }

  lemma {:induction false} WithoutAbsent(list: seq<SymbolId>, id: SymbolId)
    requires id !in list
    ensures Without(list, id) == list
  {
    if list != [] {
      assert list == [list[0]] + list[1..];
      WithoutAbsent(list[1..], id);
    }
  }

  lemma {:induction false} WithoutAllOne(list: seq<SymbolId>, id: SymbolId, rest: set<SymbolId>)
    ensures WithoutAll(Without(list, id), rest) == WithoutAll(list, {id} + rest)
  {
    if list != [] {
      WithoutAllOne(list[1..], id, rest);
      var w := Without(list[1..], id);
      if list[0] == id {
        assert Without(list, id) == w;
      } else {
        assert Without(list, id) == [list[0]] + w;
        assert ([list[0]] + w)[1..] == w;
      }
    }
  }

  lemma {:induction false} WithoutAllNone(list: seq<SymbolId>, ids: set<SymbolId>)
    requires forall id :: id in list ==> id !in ids
    ensures WithoutAll(list, ids) == list
  {
    if list != [] {
      assert list == [list[0]] + list[1..];
      WithoutAllNone(list[1..], ids);
    }
  }

  lemma {:induction false} WithoutAllMembers(list: seq<SymbolId>, ids: set<SymbolId>)
    ensures forall id :: id in WithoutAll(list, ids) <==> id in list && id !in ids
  {
    if list != [] {
      assert list == [list[0]] + list[1..];
      WithoutAllMembers(list[1..], ids);
    }
  }

  lemma {:induction false} WithoutAllConcat(a: seq<SymbolId>, b: seq<SymbolId>, ids: set<SymbolId>)
    ensures WithoutAll(a + b, ids) == WithoutAll(a, ids) + WithoutAll(b, ids)
  {
    if a == [] {
      assert a + b == b;
    } else {
      assert (a + b)[0] == a[0] && (a + b)[1..] == a[1..] + b;
      WithoutAllConcat(a[1..], b, ids);
    }
  }

  lemma {:induction false} WithoutAllGone(list: seq<SymbolId>, ids: set<SymbolId>)
    requires forall id :: id in list ==> id in ids
    ensures WithoutAll(list, ids) == []
  {
    if list != [] {
      assert list == [list[0]] + list[1..];
      WithoutAllGone(list[1..], ids);
    }
  }

  lemma DroppedView(index: map<string, seq<SymbolId>>, key: string, id: SymbolId, other: string)
    requires other != key ==> id !in View(index, other)
    ensures View(Dropped(index, key, id), other) == Without(View(index, other), id)
  {
    if other != key {
      WithoutAbsent(View(index, other), id);
    }
  }

  /** An index lists a node only under its own name. */
  lemma OwnNameOnly(g: Graph, n: SymbolNode, key: string)
    requires WellFormed(g) && n in g.nodes
    ensures key != n.name ==> n.id !in View(g.nameIndex, key)
    ensures !(HasQualifiedKey(n) && n.qualifiedName == key) ==> n.id !in View(g.qualifiedIndex, key)
  {
    if n.id in View(g.nameIndex, key) {
      var m :| m in g.nodes && m.id == n.id && m.name == key;
      UniqueIdsMeanSameNode(g.nodes, m, n);
    }
    if n.id in View(g.qualifiedIndex, key) {
      var m :| m in g.nodes && m.id == n.id && HasQualifiedKey(m) && m.qualifiedName == key;
      UniqueIdsMeanSameNode(g.nodes, m, n);
    }
  }

  lemma WithoutNodeViews(g: Graph, id: SymbolId, key: string)
    requires WellFormed(g) && id in Ids(g.nodes)
    ensures View(WithoutNode(g, id).nameIndex, key) == Without(View(g.nameIndex, key), id)
    ensures View(WithoutNode(g, id).qualifiedIndex, key) == Without(View(g.qualifiedIndex, key), id)
  {
    hide WellFormed, GetNode, Without, Dropped, View;
    WellFormedNodesOk(g);
    GetNodeFinds(g.nodes, id);
    var n := GetNode(g.nodes, id).value;
    OwnNameOnly(g, n, key);
    DroppedView(g.nameIndex, n.name, id, key);
    if HasQualifiedKey(n) {
      DroppedView(g.qualifiedIndex, n.qualifiedName, id, key);
    } else {
      WithoutAbsent(View(g.qualifiedIndex, key), id);
    }
  }

  lemma WellFormedNodesOk(g: Graph)
    requires WellFormed(g)
    ensures NodesOk(g.nodes, g.nextId) && UniqueIds(g.nodes)
  {
  }

  ghost function Members(ids: seq<SymbolId>): set<SymbolId> {
    set id | id in ids
  }

  /** The whole effect of removing a list of live nodes. */
  lemma {:induction false} RemoveAllEffect(g: Graph, ids: seq<SymbolId>)
    requires WellFormed(g)
    requires forall id :: id in ids ==> id in Ids(g.nodes)
    requires forall i, j :: 0 <= i < j < |ids| ==> ids[i] != ids[j]
    ensures WellFormed(RemoveAll(g, ids))
    ensures RemoveAll(g, ids).nodes == Select(NotAmong(Members(ids)), g.nodes)
    ensures RemoveAll(g, ids).nextId == g.nextId
    ensures forall k :: k in RemoveAll(g, ids).store.seen <==> k in g.store.seen && !TouchesAny(k, Members(ids))
    ensures forall k :: k in RemoveAll(g, ids).store.edges <==> k in g.store.edges && !TouchesAny(k, Members(ids))
    ensures forall k :: k in RemoveAll(g, ids).store.edges ==> RemoveAll(g, ids).store.edges[k] == g.store.edges[k]
    ensures forall key :: View(RemoveAll(g, ids).nameIndex, key) == WithoutAll(View(g.nameIndex, key), Members(ids))
    ensures forall key ::
              View(RemoveAll(g, ids).qualifiedIndex, key) == WithoutAll(View(g.qualifiedIndex, key), Members(ids))
    decreases ids
  {
    hide WellFormed, Select, View, Without, WithoutAll, Ids;
    if ids == [] {
      SelectAll(NotAmong({}), g.nodes);
      assert Members(ids) == {};
      forall key ensures WithoutAll(View(g.nameIndex, key), {}) == View(g.nameIndex, key)
                 ensures WithoutAll(View(g.qualifiedIndex, key), {}) == View(g.qualifiedIndex, key) {
        WithoutAllNone(View(g.nameIndex, key), {});
        WithoutAllNone(View(g.qualifiedIndex, key), {});
      }
    } else {
      var id, rest := ids[0], ids[1..];
      assert id in ids;
      var g1 := WithoutNode(g, id);
      WithoutNodeWellFormed(g, id);
      OneRemoved(g, id);
      assert forall x :: x in rest ==> x in ids && x != id;
      RemoveAllEffect(g1, rest);
      assert Members(ids) == {id} + Members(rest);
      SelectNotAmong(id, Members(rest), g.nodes);
      forall key ensures View(RemoveAll(g, ids).nameIndex, key) == WithoutAll(View(g.nameIndex, key), Members(ids))
                 ensures View(RemoveAll(g, ids).qualifiedIndex, key) ==
                           WithoutAll(View(g.qualifiedIndex, key), Members(ids)) {
        WithoutNodeViews(g, id, key);
        WithoutAllOne(View(g.nameIndex, key), id, Members(rest));
        WithoutAllOne(View(g.qualifiedIndex, key), id, Members(rest));
      }
    }
  }

  lemma OneRemoved(g: Graph, id: SymbolId)
    requires WellFormed(g) && id in Ids(g.nodes)
    ensures WithoutNode(g, id).nodes == Select(Except(id), g.nodes)
    ensures WithoutNode(g, id).nextId == g.nextId
    ensures WithoutNode(g, id).store == StoreWithout(g.store, id)
  {
    hide Select;
    GetNodeFinds(g.nodes, id);
  }

  lemma {:induction false} SelectNotAmong(id: SymbolId, rest: set<SymbolId>, ns: seq<SymbolNode>)
    ensures Select(NotAmong(rest), Select(Except(id), ns)) == Select(NotAmong({id} + rest), ns)
  {
    if ns != [] {
      SelectNotAmong(id, rest, ns[1..]);
      var w := Select(Except(id), ns[1..]);
      if ns[0].id == id {
        assert Select(Except(id), ns) == w;
      } else {
        assert Select(Except(id), ns) == [ns[0]] + w;
        assert ([ns[0]] + w)[1..] == w;
      }
    }
  }

  // ------------------------------------------------------------ inserting a batch

  /** What an index lists after a batch: the old list and then the batch's own nodes in order. */
  lemma {:induction false} IndexAllView(index: map<string, seq<SymbolId>>, ins: seq<SymbolNode>, key: string)
    ensures View(IndexAll(index, ins), key) == View(index, key) + IdsOf(Select(Named(key), ins))
    ensures View(IndexAllQualified(index, ins), key) == View(index, key) + IdsOf(Select(QualifiedAs(key), ins))
    decreases ins
  {
    hide Select, IdsOf, View, Pushed;
    if ins != [] {
      var rest, n := ins[..|ins| - 1], ins[|ins| - 1];
      IndexAllView(index, rest, key);
      assert ins == rest + [n];
      SelectSnoc(Named(key), rest, n);
      SelectSnoc(QualifiedAs(key), rest, n);
      PushedView(IndexAll(index, rest), n.name, n.id, key);
      PushedView(IndexAllQualified(index, rest), n.qualifiedName, n.id, key);
      IdsOfSnoc(Select(Named(key), rest), n);
      IdsOfSnoc(Select(QualifiedAs(key), rest), n);
    } else {
      SelectNone(Named(key), []);
      SelectNone(QualifiedAs(key), []);
      assert IdsOf([]) == [];
    }
  }

  lemma PushedView(index: map<string, seq<SymbolId>>, name: string, id: SymbolId, key: string)
    ensures View(Pushed(index, name, id), key) == View(index, key) + if name == key then [id] else []
  {
  }

  lemma IdsOfSnoc(ns: seq<SymbolNode>, n: SymbolNode)
    ensures IdsOf(ns + [n]) == IdsOf(ns) + [n.id]
  {
  }

  // ------------------------------------------------------------ capped lookups

  /** The first node of a lookup result that lies in `path`. */
  function FirstAt(ns: seq<SymbolNode>, path: Path): Option<SymbolId> {
    if ns == [] then None
    else if ns[0].file == path then Some(ns[0].id)
    else FirstAt(ns[1..], path)
  }

  ghost predicate Outside(ns: seq<SymbolNode>, ids: seq<SymbolId>, path: Path) {
    forall id :: id in ids ==> exists n :: n in ns && n.id == id && n.file != path
  }

  ghost predicate Inside(ns: seq<SymbolNode>, ids: seq<SymbolId>, path: Path) {
    forall id :: id in ids ==> exists n :: n in ns && n.id == id && n.file == path
  }

  lemma {:induction false} FirstAtNodes(ns: seq<SymbolNode>, outside: seq<SymbolId>, inside: seq<SymbolId>, path: Path)
    requires UniqueIds(ns)
    requires Outside(ns, outside, path) && Inside(ns, inside, path)
    ensures FirstAt(Nodes(ns, outside + inside), path) == if inside == [] then None else Some(inside[0])
    decreases |outside|
  {
    if outside != [] {
      assert outside[0] in outside;
      var n :| n in ns && n.id == outside[0] && n.file != path;
      GetNodeFinds(ns, outside[0]);
      assert (outside + inside)[0] == outside[0] && (outside + inside)[1..] == outside[1..] + inside;
      assert forall id :: id in outside[1..] ==> id in outside;
      FirstAtNodes(ns, outside[1..], inside, path);
      var tail := Nodes(ns, outside[1..] + inside);
      assert Nodes(ns, outside + inside) == [n] + tail;
      assert ([n] + tail)[1..] == tail;
    } else {
      assert outside + inside == inside;
      if inside != [] {
        assert inside[0] in inside;
        var n :| n in ns && n.id == inside[0] && n.file == path;
        GetNodeFinds(ns, inside[0]);
        assert Nodes(ns, inside)[0] == n;
      }
    }
  }

  /** A lookup capped at `limit` sees the file's own nodes only if fewer than `limit` outside nodes precede them. */
  lemma CappedLookup(ns: seq<SymbolNode>, index: map<string, seq<SymbolId>>, key: string, limit: nat,
                     outside: seq<SymbolId>, inside: seq<SymbolId>, path: Path)
    requires UniqueIds(ns) && View(index, key) == outside + inside
    requires Outside(ns, outside, path) && Inside(ns, inside, path)
    ensures FirstAt(Lookup(ns, index, key, limit), path) ==
            if |outside| < limit && inside != [] then Some(inside[0]) else None
  {
    var all := outside + inside;
    var taken := if |all| <= limit then all else all[..limit];
    if |outside| <= |taken| {
      var t := taken[|outside|..];
      assert taken == outside + t;
      assert forall id :: id in t ==> id in inside;
      FirstAtNodes(ns, outside, t, path);
    } else {
      assert taken == outside[..limit] + [];
      assert forall id :: id in outside[..limit] ==> id in outside;
      FirstAtNodes(ns, outside[..limit], [], path);
    }
    if key !in index {
      assert outside == [] && inside == [] by { assert |outside + inside| == 0; }
    }
  }
}
