/** The removal loops of get_valid_moves: `for move in reversed(moves)` with
    `moves.remove(move)` on the list being walked. Moves are equal when their
    id tuples are; the tests look only at the moved piece and the end square. */
module Removal {
  import opened Pieces
  import opened Moves

  /** A removal test: keeps a move by its moved piece and end square. */
  type Keep = (PieceId, Coord) -> bool

  predicate Kept(keep: Keep, m: Move) {
    keep(m.pieceMoved, m.end)
  }

  /** The moves passing the test, in order. */
  function Filter(ms: seq<Move>, keep: Keep): (r: seq<Move>)
    ensures |r| <= |ms|
    ensures forall m :: m in r <==> m in ms && Kept(keep, m)
  {
    if ms == [] then []
    else Filter(ms[..|ms| - 1], keep) + (if Kept(keep, ms[|ms| - 1]) then [ms[|ms| - 1]] else [])
  }

  /** The index of the first element equal to m (same id), or |ms|. */
  function FirstSame(ms: seq<Move>, m: Move): (k: nat)
    ensures k <= |ms|
    ensures k < |ms| ==> ms[k].id == m.id
    ensures forall j :: 0 <= j < k ==> ms[j].id != m.id
  {
    if ms == [] then 0
    else if ms[0].id == m.id then 0
    else 1 + FirstSame(ms[1..], m)
  }

  /** list.remove(m): the first element equal to m is dropped. */
  function RemoveMove(ms: seq<Move>, m: Move): (r: seq<Move>)
    ensures forall x :: x in r ==> x in ms
    ensures FirstSame(ms, m) < |ms| ==> |r| == |ms| - 1
  {
    var k := FirstSame(ms, m);
    if k < |ms| then ms[..k] + ms[k + 1..] else ms
  }

  /** The reversed iterator at index i: it yields ms[i] while 0 <= i < |ms|,
      steps down, and the loop body removes a move that fails the test. */
  function RevRemoveFrom(ms: seq<Move>, keep: Keep, i: int): seq<Move>
    decreases if i < 0 then 0 else i + 1
  {
    if i < 0 || i >= |ms| then ms
    else if Kept(keep, ms[i]) then RevRemoveFrom(ms, keep, i - 1)
    else RevRemoveFrom(RemoveMove(ms, ms[i]), keep, i - 1)
  }

  /** The whole loop, started at the last element. */
  function RevRemove(ms: seq<Move>, keep: Keep): seq<Move> {
    RevRemoveFrom(ms, keep, |ms| - 1)
  }

  /** The loop itself: walking down from the last index, a move that fails
      the test is removed with list.remove; the walk stops once the index
      leaves the list. */
  method RemoveFailing(ms: seq<Move>, keep: Keep) returns (r: seq<Move>)
    ensures r == RevRemove(ms, keep)
  {
    r := ms;
    var i := |ms| - 1;
    while 0 <= i < |r|
      invariant -1 <= i
      invariant RevRemoveFrom(r, keep, i) == RevRemove(ms, keep)
      decreases i + 1
    {
      if !keep(r[i].pieceMoved, r[i].end) {
        r := RemoveMove(r, r[i]);
      }
      i := i - 1;
    }
  }

  /** Equal ids mean the same moved piece and end square, within ms. */
  ghost predicate IdsDetermine(ms: seq<Move>) {
    forall a, b :: a in ms && b in ms && a.id == b.id ==> a.pieceMoved == b.pieceMoved && a.end == b.end
  }

  lemma {:induction false} FilterAppend(a: seq<Move>, b: seq<Move>, keep: Keep)
    ensures Filter(a + b, keep) == Filter(a, keep) + Filter(b, keep)
    decreases |b|
  {
    if b == [] {
      assert a + b == a;
    } else {
      var b0 := b[..|b| - 1];
      assert (a + b)[..|a + b| - 1] == a + b0;
      FilterAppend(a, b0, keep);
    }
  }

  /** Removing an element that fails the test does not change the filter. */
  lemma FilterSkip(a: seq<Move>, x: Move, b: seq<Move>, keep: Keep)
    requires !Kept(keep, x)
    ensures Filter(a + [x] + b, keep) == Filter(a + b, keep)
  {
    assert Filter([x], keep) == [] by {
      assert [x][..0] == [];
    }
    calc {
      Filter(a + [x] + b, keep);
    == { FilterAppend(a + [x], b, keep); }
      Filter(a + [x], keep) + Filter(b, keep);
    == { FilterAppend(a, [x], keep); }
      Filter(a, keep) + Filter([x], keep) + Filter(b, keep);
    == { assert Filter(a, keep) + [] == Filter(a, keep); }
      Filter(a, keep) + Filter(b, keep);
    == { FilterAppend(a, b, keep); }
      Filter(a + b, keep);
    }
  }

  /** One removing step of the walk at index i keeps the loop's account:
      the list loses an element that fails, at or before i. */
  lemma RemoveStep(ms: seq<Move>, keep: Keep, i: int)
    requires 0 <= i < |ms| && IdsDetermine(ms) && !Kept(keep, ms[i])
    requires forall j :: i < j < |ms| ==> Kept(keep, ms[j])
    ensures var rest := RemoveMove(ms, ms[i]);
      |rest| == |ms| - 1 && IdsDetermine(rest) &&
      (forall j :: i - 1 < j < |rest| ==> Kept(keep, rest[j])) &&
      Filter(rest[..i], keep) + rest[i..] == Filter(ms[..i + 1], keep) + ms[i + 1..]
  {
    var m := ms[i];
    var k := FirstSame(ms, m);
    assert k <= i;
    assert RemoveMove(ms, m) == ms[..k] + ms[k + 1..];
    assert ms[k] in ms && m in ms;
    assert !Kept(keep, ms[k]);
    DropIds(ms, k);
    DropFilter(ms, keep, k, i);
  }

  /** Dropping one element keeps equal ids determining the moves. */
  lemma DropIds(ms: seq<Move>, k: nat)
    requires k < |ms| && IdsDetermine(ms)
    ensures IdsDetermine(ms[..k] + ms[k + 1..])
  {
    var rest := ms[..k] + ms[k + 1..];
    forall a, b | a in rest && b in rest && a.id == b.id
      ensures a.pieceMoved == b.pieceMoved && a.end == b.end
    {
      assert a in ms && b in ms;
    }
  }

  /** Dropping a failing element at k <= i, with every element after i
      passing: the rest after i - 1 still passes and the loop's account is
      kept. */
  lemma DropFilter(ms: seq<Move>, keep: Keep, k: nat, i: nat)
    requires k <= i < |ms| && !Kept(keep, ms[k])
    requires forall j :: i < j < |ms| ==> Kept(keep, ms[j])
    ensures var rest := ms[..k] + ms[k + 1..];
      (forall j :: i - 1 < j < |rest| ==> Kept(keep, rest[j])) &&
      Filter(rest[..i], keep) + rest[i..] == Filter(ms[..i + 1], keep) + ms[i + 1..]
  {
    var rest := ms[..k] + ms[k + 1..];
    forall j | i - 1 < j < |rest| ensures Kept(keep, rest[j]) {
      assert rest[j] == ms[j + 1];
    }
    assert rest[..i] == ms[..k] + ms[k + 1..i + 1];
    assert rest[i..] == ms[i + 1..];
    assert ms[..i + 1] == ms[..k] + [ms[k]] + ms[k + 1..i + 1];
    FilterSkip(ms[..k], ms[k], ms[k + 1..i + 1], keep);
  }

  /** A passing element at i joins the filtered prefix. */
  lemma KeepStep(ms: seq<Move>, keep: Keep, i: int)
    requires 0 <= i < |ms| && Kept(keep, ms[i])
    ensures Filter(ms[..i], keep) + ms[i..] == Filter(ms[..i + 1], keep) + ms[i + 1..]
  {
    assert ms[..i + 1][..i] == ms[..i];
    assert ms[i..] == [ms[i]] + ms[i + 1..];
  }

  /** The reverse walk with removal keeps exactly the moves that pass, when
      the test gives equal moves the same answer: list.remove may drop an
      earlier equal move than the one yielded, but that one fails too. */
  lemma {:induction false} RevRemoveIsFilter(ms: seq<Move>, keep: Keep, i: int)
    requires -1 <= i < |ms| && IdsDetermine(ms)
    requires forall j :: i < j < |ms| ==> Kept(keep, ms[j])
    ensures RevRemoveFrom(ms, keep, i) == Filter(ms[..i + 1], keep) + ms[i + 1..]
    decreases i + 1
  {
    if i == -1 {
      assert ms[..0] == [] && ms[0..] == ms;
    } else if Kept(keep, ms[i]) {
      RevRemoveIsFilter(ms, keep, i - 1);
      KeepStep(ms, keep, i);
    } else {
      RemoveStep(ms, keep, i);
      RevRemoveIsFilter(RemoveMove(ms, ms[i]), keep, i - 1);
    }
  }

  /** The loops of get_valid_moves keep exactly the moves that pass. */
  lemma RevRemoveKeeps(ms: seq<Move>, keep: Keep)
    requires IdsDetermine(ms)
    ensures RevRemove(ms, keep) == Filter(ms, keep)
    ensures forall m :: m in RevRemove(ms, keep) <==> m in ms && Kept(keep, m)
  {
    RevRemoveIsFilter(ms, keep, |ms| - 1);
    assert ms[..|ms|] == ms;
    assert ms[|ms|..] == [];
  }
}
