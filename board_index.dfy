/** Board.update_pieces of chess_board.py: the list of pieces on the board and
    the per-kind, per-colour lists of queens, rooks, knights and bishops. */
module BoardIndex {
  import opened Wrappers
  import opened Pieces
  import opened Lists
  import opened Occupancy

  /** A key of the piece_lists dictionary followed by a colour key. */
  type Key = (Kind, Color)

  /** The eight (kind, colour) lists the board keeps. */
  const TRACKED_KEYS: set<Key> := {
    (Queen, White), (Queen, Black), (Rook, White), (Rook, Black),
    (Knight, White), (Knight, Black), (Bishop, White), (Bishop, Black)}

  /** Board.pieces and Board.piece_lists. */
  datatype Index = Index(pieces: seq<PieceId>, lists: map<Key, seq<PieceId>>)

  /** How an update ends: normally, or with the ValueError that list.remove
      raises, carrying the lists as far as they were changed. */
  datatype Outcome = Done(ix: Index) | Failed(ix: Index)

  /** The index of a new board: no pieces, every tracked list empty. */
  const EMPTY_INDEX: Index := Index([], map k | k in TRACKED_KEYS :: [])

  predicate IdsIn(s: seq<PieceId>, t: seq<PieceRec>) {
    forall i :: 0 <= i < |s| ==> s[i] < |t|
  }

  lemma IdsInRemoveFirst(s: seq<PieceId>, t: seq<PieceRec>, q: PieceId)
    requires IdsIn(s, t) && q in s
    ensures IdsIn(RemoveFirst(s, q), t)
  {
    var r := RemoveFirst(s, q);
    forall i | 0 <= i < |r| ensures r[i] < |t| {
      assert r[i] in r;
    }
  }

  lemma IdsInConcat(a: seq<PieceId>, b: seq<PieceId>, t: seq<PieceRec>)
    requires IdsIn(a, t) && IdsIn(b, t)
    ensures IdsIn(a + b, t)
  {
    forall i | 0 <= i < |a + b| ensures (a + b)[i] < |t| {
      if i >= |a| {
        assert (a + b)[i] == b[i - |a|];
      }
    }
  }

  lemma IdsInDistinct(s: seq<PieceId>, t: seq<PieceRec>)
    requires IdsIn(s, t)
    ensures IdsIn(Distinct(s), t)
  {
    var r := Distinct(s);
    forall i | 0 <= i < |r| ensures r[i] < |t| {
      assert r[i] in Elems(r);
    }
  }

  function KeyOf(t: seq<PieceRec>, q: PieceId): Key
    requires q < |t|
  {
    (t[q].kind, t[q].color)
  }

  /** The pieces of X with the given kind and colour. */
  function OfKey(t: seq<PieceRec>, X: set<PieceId>, k: Key): set<PieceId> {
    set q | q in X && q < |t| && KeyOf(t, q) == k
  }

  /** The pieces of s with the given kind and colour, in order. */
  function Select(t: seq<PieceRec>, s: seq<PieceId>, k: Key): (r: seq<PieceId>)
    requires IdsIn(s, t)
    ensures forall i :: 0 <= i < |r| ==> r[i] < |t|
    ensures forall q :: q in r <==> q in s && q < |t| && KeyOf(t, q) == k
    ensures NoDup(s) ==> NoDup(r)
  {
    if s == [] then []
    else
      var init := s[..|s| - 1];
      var x := s[|s| - 1];
      assert s == init + [x];
      var r := Select(t, init, k);
      if KeyOf(t, x) == k then
        assert NoDup(s) ==> x !in init;
        r + [x]
      else r
  }

  /** One step of the full scan: append, with no de-duplication. */
  function ScanOne(ix: Index, t: seq<PieceRec>, q: PieceId): Index
    requires q < |t|
  {
    var k := KeyOf(t, q);
    if k in ix.lists then Index(ix.pieces + [q], ix.lists[k := ix.lists[k] + [q]])
    else Index(ix.pieces + [q], ix.lists)
  }

  /** The full scan over the occupants s, in order. */
  function ScanInto(ix: Index, t: seq<PieceRec>, s: seq<PieceId>): Index
    requires IdsIn(s, t)
  {
    if s == [] then ix
    else ScanOne(ScanInto(ix, t, s[..|s| - 1]), t, s[|s| - 1])
  }

  lemma ScanIntoSnoc(ix: Index, t: seq<PieceRec>, s: seq<PieceId>, x: PieceId)
    requires IdsIn(s + [x], t)
    ensures IdsIn(s, t)
    ensures ScanInto(ix, t, s + [x]) == ScanOne(ScanInto(ix, t, s), t, x)
  {
    assert (s + [x])[..|s|] == s;
    assert forall i :: 0 <= i < |s| ==> s[i] == (s + [x])[i];
  }

  lemma {:induction false} ScanIntoConcat(ix: Index, t: seq<PieceRec>, a: seq<PieceId>, b: seq<PieceId>)
    requires IdsIn(a, t) && IdsIn(b, t)
    ensures IdsIn(a + b, t)
    ensures ScanInto(ix, t, a + b) == ScanInto(ScanInto(ix, t, a), t, b)
    decreases |b|
  {
    IdsInConcat(a, b, t);
    if b == [] {
      assert a + b == a;
    } else {
      var init := b[..|b| - 1];
      var x := b[|b| - 1];
      assert b == init + [x];
      assert a + b == (a + init) + [x];
      assert IdsIn(init, t);
      ScanIntoConcat(ix, t, a, init);
      ScanIntoSnoc(ix, t, a + init, x);
      ScanIntoSnoc(ScanInto(ix, t, a), t, init, x);
    }
  }

  /** Adding one piece: appended to the pieces, and to its tracked list, which
      is then de-duplicated. */
  function AddOne(ix: Index, t: seq<PieceRec>, q: PieceId): Index
    requires q < |t|
  {
    var k := KeyOf(t, q);
    if k in ix.lists then Index(ix.pieces + [q], ix.lists[k := Distinct(ix.lists[k] + [q])])
    else Index(ix.pieces + [q], ix.lists)
  }

  /** Adding the pieces of ps, last to first. */
  function AddAll(ix: Index, t: seq<PieceRec>, ps: seq<PieceId>): Index
    requires IdsIn(ps, t)
  {
    if ps == [] then ix else AddOne(AddAll(ix, t, ps[1..]), t, ps[0])
  }

  /** Removing one piece: list.remove on the pieces and on its tracked list
      fails when the piece is not there. */
  function RemoveOne(ix: Index, t: seq<PieceRec>, q: PieceId): Outcome
    requires q < |t|
  {
    if q !in ix.pieces then Failed(ix)
    else
      var ps := RemoveFirst(ix.pieces, q);
      var k := KeyOf(t, q);
      if k !in ix.lists then Done(Index(ps, ix.lists))
      else if q !in ix.lists[k] then Failed(Index(ps, ix.lists))
      else Done(Index(ps, ix.lists[k := Distinct(RemoveFirst(ix.lists[k], q))]))
  }

  /** Removing the pieces of rs, last to first, stopping at the first failure. */
  function RemoveAll(ix: Index, t: seq<PieceRec>, rs: seq<PieceId>): Outcome
    requires IdsIn(rs, t)
  {
    if rs == [] then Done(ix)
    else
      match RemoveAll(ix, t, rs[1..])
      case Failed(j) => Failed(j)
      case Done(j) => RemoveOne(j, t, rs[0])
  }

  /** A failure part-way through the removals is the failure of the whole loop. */
  lemma {:induction false} RemoveAllFailureSpreads(ix: Index, t: seq<PieceRec>, rs: seq<PieceId>, k: nat)
    requires IdsIn(rs, t) && k <= |rs| && RemoveAll(ix, t, rs[k..]).Failed?
    ensures RemoveAll(ix, t, rs) == RemoveAll(ix, t, rs[k..])
    decreases k
  {
    if k > 0 {
      assert rs[k - 1..][1..] == rs[k..];
      RemoveAllFailureSpreads(ix, t, rs, k - 1);
    } else {
      assert rs[0..] == rs;
    }
  }

  /** update_pieces(added, removed) on position p: a board whose piece list is
      empty is scanned square by square and the arguments are ignored;
      otherwise the added pieces are appended and the removed ones taken out.
      The piece list is de-duplicated at the end. */
  function UpdateSpec(ix: Index, p: Position, added: seq<PieceId>, removed: seq<PieceId>): Outcome
    requires Closed(p) && IdsIn(added, p.table) && IdsIn(removed, p.table)
  {
    if ix.pieces == [] then
      ScanIds(p);
      var j := ScanInto(ix, p.table, Scan(p));
      Done(j.(pieces := Distinct(j.pieces)))
    else
      match RemoveAll(AddAll(ix, p.table, added), p.table, removed)
      case Failed(j) => Failed(j)
      case Done(j) => Done(j.(pieces := Distinct(j.pieces)))
  }

  /** update_pieces(added, removed) on index ix0 and position p left index ix
      and raised err: it succeeded exactly when nothing was raised, and what it
      raises is a ValueError. */
  ghost predicate UpdatedTo(ix0: Index, p: Position, added: seq<PieceId>, removed: seq<PieceId>,
                            ix: Index, err: Option<Error>)
  {
    Closed(p) && IdsIn(added, p.table) && IdsIn(removed, p.table) &&
    UpdateSpec(ix0, p, added, removed) == (if err.None? then Done(ix) else Failed(ix)) &&
    (err.Some? ==> err == Some(ValueError))
  }

  lemma ScanIds(p: Position)
    requires Closed(p)
    ensures IdsIn(Scan(p), p.table)
  {
    ScanClosed(p, p.files);
  }

  /** The index lists the set X once each, and each tracked list the pieces of
      X with its kind and colour, once each. */
  ghost predicate Consistent(ix: Index, t: seq<PieceRec>, X: set<PieceId>) {
    (forall q :: q in X ==> q < |t|) &&
    NoDup(ix.pieces) && Elems(ix.pieces) == X &&
    ix.lists.Keys == TRACKED_KEYS &&
    forall k :: k in TRACKED_KEYS ==> NoDup(ix.lists[k]) && Elems(ix.lists[k]) == OfKey(t, X, k)
  }

  /** The index agrees with the pieces on the board. */
  ghost predicate Synced(ix: Index, p: Position) {
    Consistent(ix, p.table, OnBoard(p))
  }

  lemma {:induction false} ScanIntoShape(ix: Index, t: seq<PieceRec>, s: seq<PieceId>)
    requires IdsIn(s, t)
    ensures ScanInto(ix, t, s).pieces == ix.pieces + s
    ensures ScanInto(ix, t, s).lists.Keys == ix.lists.Keys
    ensures forall k :: k in ix.lists ==> ScanInto(ix, t, s).lists[k] == ix.lists[k] + Select(t, s, k)
  {
    if s != [] {
      var init := s[..|s| - 1];
      assert IdsIn(init, t);
      ScanIntoShape(ix, t, init);
      assert s == init + [s[|s| - 1]];
    }
  }

  lemma SelectElems(t: seq<PieceRec>, s: seq<PieceId>, k: Key)
    requires IdsIn(s, t)
    ensures Elems(Select(t, s, k)) == OfKey(t, Elems(s), k)
  {
  }

  /** Scanning a list of distinct pieces into the empty index lists each once. */
  lemma ScanConsistent(t: seq<PieceRec>, s: seq<PieceId>)
    requires IdsIn(s, t) && NoDup(s)
    ensures Consistent(ScanInto(EMPTY_INDEX, t, s).(pieces := Distinct(ScanInto(EMPTY_INDEX, t, s).pieces)), t, Elems(s))
  {
    ScanIntoShape(EMPTY_INDEX, t, s);
    var j0 := ScanInto(EMPTY_INDEX, t, s);
    assert j0.pieces == s by {
      assert EMPTY_INDEX.pieces == [];
    }
    var j := j0.(pieces := Distinct(s));
    assert j.pieces == s;
    assert j.lists.Keys == TRACKED_KEYS;
    forall k | k in TRACKED_KEYS
      ensures NoDup(j.lists[k]) && Elems(j.lists[k]) == OfKey(t, Elems(s), k)
    {
      assert EMPTY_INDEX.lists[k] == [];
      assert j.lists[k] == Select(t, s, k);
      SelectElems(t, s, k);
    }
    assert forall q :: q in Elems(s) ==> q < |t|;
  }

  /** A board scanned from an empty index ends up with an index that agrees
      with its pieces, whatever the arguments. */
  lemma FullScanSynced(ix: Index, p: Position, added: seq<PieceId>, removed: seq<PieceId>)
    requires Valid(p) && IdsIn(added, p.table) && IdsIn(removed, p.table)
    requires ix == EMPTY_INDEX
    ensures UpdateSpec(ix, p, added, removed).Done?
    ensures Synced(UpdateSpec(ix, p, added, removed).ix, p)
  {
    ScanIsOnBoard(p);
    ScanIds(p);
    ScanConsistent(p.table, Scan(p));
  }

  lemma AddOneConsistent(ix: Index, t: seq<PieceRec>, X: set<PieceId>, q: PieceId)
    requires Consistent(ix, t, X) && q < |t| && q !in X
    ensures Consistent(AddOne(ix, t, q), t, X + {q})
  {
    var j := AddOne(ix, t, q);
    assert Elems(ix.pieces + [q]) == Elems(ix.pieces) + {q};
    assert NoDup(ix.pieces + [q]) by {
      var s := ix.pieces + [q];
      forall a, b | 0 <= a < b < |s| ensures s[a] != s[b] {
        if b == |s| - 1 {
          assert s[a] == ix.pieces[a] && ix.pieces[a] in ix.pieces;
        }
      }
    }
    forall k | k in TRACKED_KEYS
      ensures NoDup(j.lists[k]) && Elems(j.lists[k]) == OfKey(t, X + {q}, k)
    {
      if k == KeyOf(t, q) {
        assert Elems(ix.lists[k] + [q]) == Elems(ix.lists[k]) + {q};
      } else {
        assert OfKey(t, X + {q}, k) == OfKey(t, X, k);
      }
    }
  }

  /** Adding pieces that are not yet listed, each once, lists exactly them as well. */
  lemma {:induction false} AddAllConsistent(ix: Index, t: seq<PieceRec>, X: set<PieceId>, A: seq<PieceId>)
    requires Consistent(ix, t, X) && IdsIn(A, t) && NoDup(A) && X !! Elems(A)
    ensures Consistent(AddAll(ix, t, A), t, X + Elems(A))
  {
    if A != [] {
      assert A == [A[0]] + A[1..];
      assert Elems(A) == {A[0]} + Elems(A[1..]);
      assert A[0] !in A[1..];
      AddAllConsistent(ix, t, X, A[1..]);
      AddOneConsistent(AddAll(ix, t, A[1..]), t, X + Elems(A[1..]), A[0]);
      assert X + Elems(A[1..]) + {A[0]} == X + Elems(A);
    }
  }

  lemma RemoveOneConsistent(ix: Index, t: seq<PieceRec>, X: set<PieceId>, q: PieceId)
    requires Consistent(ix, t, X) && q < |t| && q in X
    ensures RemoveOne(ix, t, q).Done?
    ensures Consistent(RemoveOne(ix, t, q).ix, t, X - {q})
  {
    assert q in Elems(ix.pieces);
    RemoveFirstNoDup(ix.pieces, q);
    var k := KeyOf(t, q);
    if k in ix.lists {
      assert q in OfKey(t, X, k);
      assert q in Elems(ix.lists[k]);
      RemoveFirstNoDup(ix.lists[k], q);
    }
    var j := RemoveOne(ix, t, q).ix;
    forall k' | k' in TRACKED_KEYS
      ensures NoDup(j.lists[k']) && Elems(j.lists[k']) == OfKey(t, X - {q}, k')
    {
      if k' != k {
        assert OfKey(t, X - {q}, k') == OfKey(t, X, k');
      }
    }
  }

  /** Removing listed pieces, each once, succeeds and unlists exactly them. */
  lemma {:induction false} RemoveAllConsistent(ix: Index, t: seq<PieceRec>, X: set<PieceId>, R: seq<PieceId>)
    requires Consistent(ix, t, X) && IdsIn(R, t) && NoDup(R) && Elems(R) <= X
    ensures RemoveAll(ix, t, R).Done?
    ensures Consistent(RemoveAll(ix, t, R).ix, t, X - Elems(R))
  {
    if R != [] {
      assert R == [R[0]] + R[1..];
      assert Elems(R) == {R[0]} + Elems(R[1..]);
      assert R[0] !in R[1..];
      RemoveAllConsistent(ix, t, X, R[1..]);
      RemoveOneConsistent(RemoveAll(ix, t, R[1..]).ix, t, X - Elems(R[1..]), R[0]);
      assert X - Elems(R[1..]) - {R[0]} == X - Elems(R);
    }
  }

  /** An incremental update whose additions are new and whose removals are
      listed or added keeps the index in agreement with the new set of pieces. */
  lemma IncrementalSynced(ix: Index, p: Position, X: set<PieceId>, added: seq<PieceId>, removed: seq<PieceId>)
    requires Closed(p) && IdsIn(added, p.table) && IdsIn(removed, p.table)
    requires Consistent(ix, p.table, X) && ix.pieces != []
    requires NoDup(added) && X !! Elems(added)
    requires NoDup(removed) && Elems(removed) <= X + Elems(added)
    ensures UpdateSpec(ix, p, added, removed).Done?
    ensures Consistent(UpdateSpec(ix, p, added, removed).ix, p.table, X + Elems(added) - Elems(removed))
  {
    AddAllConsistent(ix, p.table, X, added);
    RemoveAllConsistent(AddAll(ix, p.table, added), p.table, X + Elems(added), removed);
  }

  lemma {:induction false} AddAllPieces(ix: Index, t: seq<PieceRec>, A: seq<PieceId>)
    requires IdsIn(A, t)
    ensures Elems(AddAll(ix, t, A).pieces) == Elems(ix.pieces) + Elems(A)
  {
    if A != [] {
      AddAllPieces(ix, t, A[1..]);
      assert A == [A[0]] + A[1..];
      var j := AddAll(ix, t, A[1..]);
      assert Elems(j.pieces + [A[0]]) == Elems(j.pieces) + {A[0]};
    }
  }

  lemma {:induction false} RemoveAllShrinks(ix: Index, t: seq<PieceRec>, R: seq<PieceId>)
    requires IdsIn(R, t)
    ensures RemoveAll(ix, t, R).Done? ==> Elems(RemoveAll(ix, t, R).ix.pieces) <= Elems(ix.pieces)
  {
    if R != [] {
      RemoveAllShrinks(ix, t, R[1..]);
    }
  }

  lemma {:induction false} RemoveAllAbsentFails(ix: Index, t: seq<PieceRec>, R: seq<PieceId>, q: PieceId)
    requires IdsIn(R, t) && q in R && q !in ix.pieces
    ensures RemoveAll(ix, t, R).Failed?
  {
    if q in R[1..] {
      RemoveAllAbsentFails(ix, t, R[1..], q);
    } else {
      assert q == R[0];
      RemoveAllShrinks(ix, t, R[1..]);
      assert q !in Elems(ix.pieces);
      match RemoveAll(ix, t, R[1..])
      case Failed(_) =>
      case Done(j) =>
        assert q !in Elems(j.pieces);
    }
  }

  /** Removing a piece that is neither listed nor being added raises the
      ValueError of list.remove. */
  lemma RemoveAbsentFails(ix: Index, p: Position, added: seq<PieceId>, removed: seq<PieceId>, q: PieceId)
    requires Closed(p) && IdsIn(added, p.table) && IdsIn(removed, p.table)
    requires ix.pieces != [] && q in removed && q !in ix.pieces && q !in added
    ensures UpdateSpec(ix, p, added, removed).Failed?
  {
    AddAllPieces(ix, p.table, added);
    assert q !in Elems(AddAll(ix, p.table, added).pieces);
    RemoveAllAbsentFails(AddAll(ix, p.table, added), p.table, removed, q);
  }

  /** With nothing to add or remove, a consistent index is left as it is. */
  lemma EmptyUpdateUnchanged(ix: Index, p: Position, X: set<PieceId>)
    requires Closed(p) && Consistent(ix, p.table, X) && ix.pieces != []
    ensures UpdateSpec(ix, p, [], []) == Done(ix)
  {
  }
}
