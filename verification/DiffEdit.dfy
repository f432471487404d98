/** The single edit that takes one revision of a file to the next. */
module DiffEdit {
  import opened Bytes
  import opened Lines

  datatype InputEdit = InputEdit(
    startByte: nat,
    oldEndByte: nat,
    newEndByte: nat,
    startPosition: Point,
    oldEndPosition: Point,
    newEndPosition: Point
  )

  /** Replacing `old[start..oldEnd]` by `new[start..newEnd]` turns `old` into `new`. */
  predicate Rebuilds(old_: seq<byte>, new_: seq<byte>, start: nat, oldEnd: nat, newEnd: nat) {
    && start <= oldEnd <= |old_| && start <= newEnd <= |new_|
    && new_ == old_[..start] + new_[start..newEnd] + old_[oldEnd..]
  }

  /** Bytes of `old` that an edit leaves alone. */
  function Untouched(old_: seq<byte>, start: nat, oldEnd: nat): int {
    start + |old_| - oldEnd
  }

  /** No single contiguous edit leaves more bytes alone. */
  ghost predicate Tightest(old_: seq<byte>, new_: seq<byte>, start: nat, oldEnd: nat) {
    forall s, oe, ne :: Rebuilds(old_, new_, s, oe, ne) ==> Untouched(old_, s, oe) <= Untouched(old_, start, oldEnd)
  }

  /** How far the loops run: the common prefix, then the common suffix of what is left. */
  ghost predicate GreedyEnvelope(old_: seq<byte>, new_: seq<byte>, prefix: nat, suffix: nat) {
    && prefix + suffix <= |old_| && prefix + suffix <= |new_|
    && old_[..prefix] == new_[..prefix]
    && (prefix == |old_| || prefix == |new_| || old_[prefix] != new_[prefix])
    && old_[|old_| - suffix..] == new_[|new_| - suffix..]
    && (prefix + suffix == |old_| || prefix + suffix == |new_| ||
        old_[|old_| - 1 - suffix] != new_[|new_| - 1 - suffix])
  }

  method DiffEdit(old_: seq<byte>, new_: seq<byte>) returns (edit: InputEdit)
    ensures Rebuilds(old_, new_, edit.startByte, edit.oldEndByte, edit.newEndByte)
    ensures Tightest(old_, new_, edit.startByte, edit.oldEndByte)
    ensures GreedyEnvelope(old_, new_, edit.startByte, |old_| - edit.oldEndByte)
    ensures edit.startPosition == PointAt(old_, edit.startByte) == PointAt(new_, edit.startByte)
    ensures edit.oldEndPosition == PointAt(old_, edit.oldEndByte) &&
            edit.newEndPosition == PointAt(new_, edit.newEndByte)
    ensures NotAfter(edit.startPosition, edit.oldEndPosition) && NotAfter(edit.startPosition, edit.newEndPosition)
  {
    hide Rebuilds, Tightest, NotAfter, PointAt;
    var prefix := 0;
    while prefix < |old_| && prefix < |new_| && old_[prefix] == new_[prefix]
      invariant prefix <= |old_| && prefix <= |new_| && old_[..prefix] == new_[..prefix]
    {
      assert old_[..prefix + 1] == old_[..prefix] + [old_[prefix]];
      assert new_[..prefix + 1] == new_[..prefix] + [new_[prefix]];
      prefix := prefix + 1;
    }
    var suffix := 0;
    while suffix < |old_| - prefix && suffix < |new_| - prefix && old_[|old_| - 1 - suffix] == new_[|new_| - 1 - suffix]
      invariant prefix + suffix <= |old_| && prefix + suffix <= |new_|
      invariant old_[|old_| - suffix..] == new_[|new_| - suffix..]
    {
      assert old_[|old_| - 1 - suffix..] == [old_[|old_| - 1 - suffix]] + old_[|old_| - suffix..];
      assert new_[|new_| - 1 - suffix..] == [new_[|new_| - 1 - suffix]] + new_[|new_| - suffix..];
      suffix := suffix + 1;
    }
    GreedyIsTightest(old_, new_, prefix, suffix);
    SamePoint(old_, new_, prefix);
    var oldEnd, newEnd := |old_| - suffix, |new_| - suffix;
    PointsOrdered(old_, prefix, oldEnd);
    PointsOrdered(new_, prefix, newEnd);
    var start := ByteToPoint(old_, prefix);
    var oldPoint := ByteToPoint(old_, oldEnd);
    var newPoint := ByteToPoint(new_, newEnd);
    return InputEdit(prefix, oldEnd, newEnd, start, oldPoint, newPoint);
  }

  /** The start of the edit is at the same point in both revisions. */
  lemma SamePoint(old_: seq<byte>, new_: seq<byte>, prefix: nat)
    requires prefix <= |old_| && prefix <= |new_| && old_[..prefix] == new_[..prefix]
    ensures PointAt(old_, prefix) == PointAt(new_, prefix)
  {
  }

  lemma GreedyIsTightest(old_: seq<byte>, new_: seq<byte>, prefix: nat, suffix: nat)
    requires GreedyEnvelope(old_, new_, prefix, suffix)
    ensures Rebuilds(old_, new_, prefix, |old_| - suffix, |new_| - suffix)
    ensures Tightest(old_, new_, prefix, |old_| - suffix)
  {
    forall s, oe, ne | Rebuilds(old_, new_, s, oe, ne)
      ensures Untouched(old_, s, oe) <= Untouched(old_, prefix, |old_| - suffix)
    {
      AnyEditFits(old_, new_, prefix, suffix, s, oe, ne);
    }
    var mid := new_[prefix..|new_| - suffix];
    assert new_ == new_[..prefix] + mid + new_[|new_| - suffix..];
  }

  /** An edit keeps at most the common prefix; a longer kept suffix would have been found by the loop. */
  lemma AnyEditFits(old_: seq<byte>, new_: seq<byte>, prefix: nat, suffix: nat, s: nat, oe: nat, ne: nat)
    requires GreedyEnvelope(old_, new_, prefix, suffix) && Rebuilds(old_, new_, s, oe, ne)
    ensures s + |old_| - oe <= prefix + suffix
  {
    var kept := |old_| - oe;
    assert |new_| == s + (ne - s) + kept;
    assert forall i :: 0 <= i < s ==> new_[i] == old_[i];
    assert forall i :: ne <= i < |new_| ==> new_[i] == old_[i - ne + oe];
    assert s <= prefix;
  }

  /** Equal revisions need no edit. */
  lemma UnchangedEdit(s: seq<byte>, prefix: nat, suffix: nat)
    requires GreedyEnvelope(s, s, prefix, suffix)
    ensures prefix == |s| && suffix == 0
  {
  }
}
