/** Edit distance: the two-row loops, the recursive definition, edit scripts and the metric laws. */
module Levenshtein {
  import opened Symbols
  import opened Bytes

  function Min(x: nat, y: nat): nat {
    if y < x then y else x
  }

  function Max(x: nat, y: nat): nat {
    if x < y then y else x
  }

  /** Substituting a byte by itself is free. */
  function Cost(x: byte, y: byte): nat {
    if x != y then 1 else 0
  }

  function Lev(a: seq<byte>, b: seq<byte>): nat
    decreases |a| + |b|
  {
    if a == [] then |b|
    else if b == [] then |a|
    else Min(Min(Lev(Init(a), b) + 1, Lev(a, Init(b)) + 1), Lev(Init(a), Init(b)) + Cost(Last(a), Last(b)))
  }

  // ------------------------------------------------------------ the loops

  /** Row `i` of the table: distances from the first `i` bytes of `a` to the prefixes of `b`. */
  ghost predicate IsRow(row: seq<nat>, a: seq<byte>, b: seq<byte>, i: nat, upTo: nat)
    requires i <= |a| && upTo <= |b| + 1 && |row| == |b| + 1
  {
    forall j :: 0 <= j < upTo ==> row[j] == Lev(a[..i], b[..j])
  }

  lemma FirstRow(a: seq<byte>, b: seq<byte>, row: seq<nat>)
    requires |row| == |b| + 1 && forall j :: 0 <= j <= |b| ==> row[j] == j
    ensures IsRow(row, a, b, 0, |b| + 1)
  {
    assert a[..0] == [];
  }

  lemma Unfold(a: seq<byte>, b: seq<byte>)
    requires a != [] && b != []
    ensures Lev(a, b) ==
              Min(Min(Lev(Init(a), b) + 1, Lev(a, Init(b)) + 1), Lev(Init(a), Init(b)) + Cost(Last(a), Last(b)))
  {
    hide Min, Cost, Init, Last;
  }

  /** One cell from its three neighbours. */
  lemma Cell(a: seq<byte>, b: seq<byte>, i: nat, j: nat)
    requires 1 <= i <= |a| && 1 <= j <= |b|
    ensures Lev(a[..i], b[..j]) ==
            Min(Min(Lev(a[..i - 1], b[..j]) + 1, Lev(a[..i], b[..j - 1]) + 1),
                Lev(a[..i - 1], b[..j - 1]) + Cost(a[i - 1], b[j - 1]))
  {
    hide Lev, Min, Cost;
    Unfold(a[..i], b[..j]);
    assert Init(a[..i]) == a[..i - 1] && Init(b[..j]) == b[..j - 1];
  }

  lemma FirstCell(a: seq<byte>, b: seq<byte>, i: nat)
    requires i <= |a|
    ensures Lev(a[..i], b[..0]) == i
  {
  }

  lemma AtMost(x: nat, y: nat)
    ensures Min(x, y) <= x && Min(x, y) <= y
  {
  }

  /** The inner loop: fills `curr` from `prev` and finds its least entry. */
  method FillRow(a: seq<byte>, b: seq<byte>, i: nat, prev: array<nat>, curr: array<nat>) returns (rowMin: nat)
    requires 1 <= i <= |a| && prev.Length == curr.Length == |b| + 1 && prev != curr
    requires IsRow(prev[..], a, b, i - 1, |b| + 1)
    modifies curr
    ensures IsRow(curr[..], a, b, i, |b| + 1)
    ensures forall j :: 0 <= j <= |b| ==> rowMin <= Lev(a[..i], b[..j])
  {
    hide Lev, Cost, Min;
    FirstCell(a, b, i);
    curr[0] := i;
    rowMin := i;
    for j := 1 to |b| + 1
      invariant prev[..] == old(prev[..])
      invariant IsRow(curr[..], a, b, i, j)
      invariant forall k :: 0 <= k < j ==> rowMin <= Lev(a[..i], b[..k])
    {
      Cell(a, b, i, j);
      assert prev[..][j] == Lev(a[..i - 1], b[..j]) && prev[..][j - 1] == Lev(a[..i - 1], b[..j - 1]);
      assert curr[..][j - 1] == Lev(a[..i], b[..j - 1]);
      curr[j] := Min(Min(prev[j] + 1, curr[j - 1] + 1), prev[j - 1] + Cost(a[i - 1], b[j - 1]));
      AtMost(rowMin, curr[j]);
      rowMin := Min(rowMin, curr[j]);
    }
  }

  /** The two-row loop computes the recursive distance. */
  method Distance(a: seq<byte>, b: seq<byte>) returns (d: nat)
    ensures d == Lev(a, b)
  {
    var n, m := |a|, |b|;
    if n == 0 { return m; }
    if m == 0 { return n; }
    var prev := new nat[m + 1](j => j);
    var curr := new nat[m + 1](_ => 0);
    FirstRow(a, b, prev[..]);
    for i := 1 to n + 1
      invariant prev != curr && prev.Length == curr.Length == m + 1 && fresh(prev) && fresh(curr)
      invariant IsRow(prev[..], a, b, i - 1, m + 1)
    {
      var _ := FillRow(a, b, i, prev, curr);
      prev, curr := curr, prev;
    }
    assert a[..n] == a && b[..m] == b;
    assert prev[..][m] == Lev(a, b);
    return prev[m];
  }

  /** The early-exit variant decides `distance <= cutoff` and is exact below the cutoff. */
  method DistanceBounded(a: seq<byte>, b: seq<byte>, cutoff: nat) returns (d: nat)
    ensures d == Lev(a, b) || (d == cutoff + 1 && Lev(a, b) > cutoff)
  {
    hide Lev;
    var n, m := |a|, |b|;
    LengthBounds(a, b);
    if (if n < m then m - n else n - m) > cutoff { return cutoff + 1; }
    if n == 0 { return Min(m, cutoff + 1); }
    if m == 0 { return Min(n, cutoff + 1); }
    var prev := new nat[m + 1](j => j);
    var curr := new nat[m + 1](_ => 0);
    FirstRow(a, b, prev[..]);
    for i := 1 to n + 1
      invariant prev != curr && prev.Length == curr.Length == m + 1 && fresh(prev) && fresh(curr)
      invariant IsRow(prev[..], a, b, i - 1, m + 1)
    {
      var rowMin := FillRow(a, b, i, prev, curr);
      if rowMin > cutoff {
        var j := RowBelow(a, b, i);
        return cutoff + 1;
      }
      prev, curr := curr, prev;
    }
    assert a[..n] == a && b[..m] == b;
    assert prev[..][m] == Lev(a, b);
    return prev[m];
  }

  /** Every row holds an entry no larger than the final distance, so rows of large entries decide. */
  lemma {:induction false} RowBelow(a: seq<byte>, b: seq<byte>, i: nat) returns (j: nat)
    requires i <= |a|
    ensures j <= |b| && Lev(a[..i], b[..j]) <= Lev(a, b)
    decreases |a| + |b|
  {
    if i == |a| {
      j := |b|;
      assert a[..i] == a && b[..j] == b;
    } else if b == [] {
      j := 0;
      assert b[..0] == [];
    } else if Lev(a, b) == Lev(Init(a), b) + 1 {
      j := RowBelow(Init(a), b, i);
      assert Init(a)[..i] == a[..i];
    } else if Lev(a, b) == Lev(a, Init(b)) + 1 {
      j := RowBelow(a, Init(b), i);
      assert Init(b)[..j] == b[..j];
    } else {
      j := RowBelow(Init(a), Init(b), i);
      assert Init(a)[..i] == a[..i] && Init(b)[..j] == b[..j];
    }
  }

  // ------------------------------------------------------------ metric laws

  lemma {:induction false} LengthBounds(a: seq<byte>, b: seq<byte>)
    ensures |a| <= |b| + Lev(a, b) && |b| <= |a| + Lev(a, b)
    ensures Lev(a, b) <= Max(|a|, |b|)
    decreases |a| + |b|
  {
    if a != [] && b != [] {
      LengthBounds(Init(a), b);
      LengthBounds(a, Init(b));
      LengthBounds(Init(a), Init(b));
    }
  }

  lemma {:induction false} ZeroIffEqual(a: seq<byte>, b: seq<byte>)
    ensures Lev(a, b) == 0 <==> a == b
    decreases |a| + |b|
  {
    if a != [] && b != [] {
      ZeroIffEqual(Init(a), Init(b));
      assert a == Init(a) + [Last(a)] && b == Init(b) + [Last(b)];
    }
  }

  lemma {:induction false} Symmetric(a: seq<byte>, b: seq<byte>)
    ensures Lev(a, b) == Lev(b, a)
    decreases |a| + |b|
  {
    if a != [] && b != [] {
      Symmetric(Init(a), b);
      Symmetric(a, Init(b));
      Symmetric(Init(a), Init(b));
    }
  }

  lemma {:induction false} Triangle(a: seq<byte>, b: seq<byte>, c: seq<byte>)
    ensures Lev(a, c) <= Lev(a, b) + Lev(b, c)
    decreases |a| + |b| + |c|
  {
    if a == [] || b == [] || c == [] {
      LengthBounds(a, b);
      LengthBounds(b, c);
      LengthBounds(a, c);
    } else {
      Triangle(a, b, Init(c));
      Triangle(Init(a), b, c);
      Triangle(a, Init(b), Init(c));
      Triangle(Init(a), Init(b), c);
      Triangle(a, Init(b), c);
      Triangle(Init(a), Init(b), Init(c));
    }
  }

  // ------------------------------------------------------------ edit scripts

  /** One step of a script that reads `a` and writes `b`, both from left to right. */
  datatype Edit = Keep | Replace(to: byte) | Delete | Insert(what: byte)

  /** What a script writes when run on the whole of `a`, if it fits. */
  function Run(script: seq<Edit>, a: seq<byte>): Option<seq<byte>>
    decreases |script|
  {
    if script == [] then (if a == [] then Some([]) else None)
    else
      var rest, last := script[..|script| - 1], script[|script| - 1];
      if last.Insert? then Appended(Run(rest, a), [last.what])
      else if a == [] then None
      else Appended(Run(rest, Init(a)), match last case Keep => [Last(a)] case Replace(x) => [x] case _ => [])
  }

  function Appended(r: Option<seq<byte>>, more: seq<byte>): Option<seq<byte>> {
    if r.None? then None else Some(r.value + more)
  }

  function ScriptCost(script: seq<Edit>): nat {
    if script == [] then 0
    else ScriptCost(script[..|script| - 1]) + if script[|script| - 1].Keep? then 0 else 1
  }

  /** No script is cheaper than the distance. */
  lemma {:induction false} ScriptsCostAtLeast(script: seq<Edit>, a: seq<byte>, b: seq<byte>)
    requires Run(script, a) == Some(b)
    ensures Lev(a, b) <= ScriptCost(script)
    decreases |script|
  {
    if script != [] {
      var rest, last := script[..|script| - 1], script[|script| - 1];
      if last.Insert? {
        var b0 := Run(rest, a).value;
        assert b == b0 + [last.what] && Init(b) == b0;
        ScriptsCostAtLeast(rest, a, b0);
        OneEdit(a, b);
      } else {
        var b0 := Run(rest, Init(a)).value;
        ScriptsCostAtLeast(rest, Init(a), b0);
        if last.Delete? {
          assert b == b0;
        } else {
          assert b != [] && Init(b) == b0;
        }
        OneEdit(a, b);
      }
    }
  }

  /** The distance grows by at most one per byte read or written. */
  lemma OneEdit(a: seq<byte>, b: seq<byte>)
    ensures a != [] ==> Lev(a, b) <= Lev(Init(a), b) + 1
    ensures b != [] ==> Lev(a, b) <= Lev(a, Init(b)) + 1
    ensures a != [] && b != [] ==> Lev(a, b) <= Lev(Init(a), Init(b)) + Cost(Last(a), Last(b))
  {
    if a != [] && b == [] {
      assert Lev(Init(a), b) == |a| - 1;
    }
  }

  lemma ScriptSnoc(rest: seq<Edit>, last: Edit, a: seq<byte>)
    ensures ScriptCost(rest + [last]) == ScriptCost(rest) + if last.Keep? then 0 else 1
    ensures last.Insert? ==> Run(rest + [last], a) == Appended(Run(rest, a), [last.what])
    ensures !last.Insert? && a != [] ==>
              Run(rest + [last], a) ==
                Appended(Run(rest, Init(a)), match last case Keep => [Last(a)] case Replace(x) => [x] case _ => [])
  {
    var script := rest + [last];
    assert script[..|script| - 1] == rest;
  }

  /** And some script costs exactly the distance: it is the least cost over all scripts. */
  lemma {:induction false} CheapestScript(a: seq<byte>, b: seq<byte>) returns (script: seq<Edit>)
    ensures Run(script, a) == Some(b) && ScriptCost(script) == Lev(a, b)
    decreases |a| + |b|
  {
    hide Run, ScriptCost;
    if a == [] && b == [] {
      script := [];
      EmptyScript();
    } else if a == [] || (b != [] && Lev(a, b) == Lev(a, Init(b)) + 1) {
      var rest := CheapestScript(a, Init(b));
      script := rest + [Insert(Last(b))];
      ScriptSnoc(rest, Insert(Last(b)), a);
      assert b == Init(b) + [Last(b)];
    } else if b == [] || Lev(a, b) == Lev(Init(a), b) + 1 {
      var rest := CheapestScript(Init(a), b);
      script := rest + [Delete];
      ScriptSnoc(rest, Delete, a);
      assert b + [] == b;
    } else {
      var rest := CheapestScript(Init(a), Init(b));
      var last := if Last(a) == Last(b) then Keep else Replace(Last(b));
      script := rest + [last];
      ScriptSnoc(rest, last, a);
      assert b == Init(b) + [Last(b)];
    }
  }

  lemma EmptyScript()
    ensures Run([], []) == Some([]) && ScriptCost([]) == 0
  {
  }
}
