/** Which moves of make_move and undo_move in chess_engine.py keep the two
    agreements a board relies on: every Square's piece and every Piece's square
    refer to each other (Linked), and Board.pieces and Board.piece_lists list
    exactly the pieces on the board (Synced). Plain moves, captures,
    promotions and castles onto empty squares keep both. An en-passant
    capture leaves the captured pawn listed, and undoing a promotion leaves
    the pawn unlisted. */
module Invariants {
  import opened Wrappers
  import opened Pieces
  import opened Lists
  import opened Occupancy
  import opened BoardIndex
  import opened Moves
  import opened Play

  /** The captured piece of a move, as a set. */
  function Taken(m: Move): set<PieceId> {
    if m.pieceCaptured.Some? then {m.pieceCaptured.value} else {}
  }

  /** Two tables with the same pieces standing on the same squares; they may
      differ only in the first-move mark and the pin direction. */
  ghost predicate SameSquares(t: seq<PieceRec>, u: seq<PieceRec>) {
    |t| == |u| && forall k :: 0 <= k < |t| ==> t[k].square == u[k].square
  }

  /** Two tables whose pieces have the same kind and colour. */
  ghost predicate SameKeys(t: seq<PieceRec>, u: seq<PieceRec>) {
    |t| == |u| && forall k :: 0 <= k < |t| ==> t[k].kind == u[k].kind && t[k].color == u[k].color
  }

  /** Marks other than the square change neither the links nor the set of
      pieces on the board. */
  lemma MarksOnly(p: Position, u: seq<PieceRec>)
    requires SameSquares(p.table, u)
    ensures Linked(p.(table := u)) == Linked(p)
    ensures OnBoard(p.(table := u)) == OnBoard(p)
  {
  }

  /** make_move's first-move mark leaves the squares as its updates left them. */
  lemma MadeMarked(p: Position, m: Move)
    requires MoveFits(p, m)
    ensures Made(p, m).grid == MakeOcc(p, m).0.grid
    ensures forall c :: Occupant(Made(p, m), c) == Occupant(MakeOcc(p, m).0, c)
    ensures Linked(Made(p, m)) == Linked(MakeOcc(p, m).0)
    ensures OnBoard(Made(p, m)) == OnBoard(MakeOcc(p, m).0)
  {
    var r := MakeOcc(p, m).0;
    MarksOnly(r, MarkFirst(r.table, m));
  }

  /** The index only depends on the kind and colour of each piece. */
  lemma RekeyConsistent(ix: Index, t: seq<PieceRec>, u: seq<PieceRec>, X: set<PieceId>)
    requires SameKeys(t, u) && Consistent(ix, t, X)
    ensures Consistent(ix, u, X)
  {
    forall k | k in TRACKED_KEYS ensures OfKey(u, X, k) == OfKey(t, X, k) {
    }
  }

  /** Removing and placing pieces never changes a piece's kind or colour. */
  lemma StepKeys(p: Position, c: Coord, q: PieceId)
    ensures SameKeys(p.table, RemoveAt(p, c).table)
    ensures c in p.grid && q < |p.table| ==> SameKeys(p.table, PlaceAt(p, c, q).table)
  {
  }

  lemma SameKeysTrans(t: seq<PieceRec>, u: seq<PieceRec>, v: seq<PieceRec>)
    requires SameKeys(t, u) && SameKeys(u, v)
    ensures SameKeys(t, v)
  {
  }

  /** The position after make_move's removals, which every kind of move
      shares: the captured piece and then the moved piece leave their squares. */
  function Lifted(p: Position, m: Move): Position
    requires MoveFits(p, m)
  {
    var p1 := if m.enpassant.Some? then RemoveAt(p, m.enpassant.value)
              else if m.pieceCaptured.Some? then RemoveAt(p, m.end) else p;
    RemoveAt(p1, m.start)
  }

  /** make_move's square updates are its removals followed by its placements. */
  lemma MakeOccLifted(p: Position, m: Move)
    requires MoveFits(p, m)
    ensures Lifted(p, m).grid.Keys == p.grid.Keys && |Lifted(p, m).table| == |p.table|
    ensures m.promotion.Some? ==> MakeOcc(p, m).0 == PlaceAt(Lifted(p, m), m.end, m.promotion.value)
    ensures m.promotion.None? && m.castle.None? ==> MakeOcc(p, m).0 == PlaceAt(Lifted(p, m), m.end, m.pieceMoved)
    ensures m.promotion.None? && m.castle.Some? && m.castle.value.rookStart.Some? ==>
      var info := m.castle.value;
      MakeOcc(p, m).0 ==
        PlaceAt(PlaceAt(RemoveAt(Lifted(p, m), info.rookStart.value), info.rookEnd, info.rook), m.end, m.pieceMoved)
  {
  }

  lemma LiftedKeys(p: Position, m: Move)
    requires MoveFits(p, m)
    ensures SameKeys(p.table, Lifted(p, m).table)
  {
    var p1 := if m.enpassant.Some? then RemoveAt(p, m.enpassant.value)
              else if m.pieceCaptured.Some? then RemoveAt(p, m.end) else p;
    StepKeys(p, BackSquare(m), 0);
    StepKeys(p1, m.start, 0);
    SameKeysTrans(p.table, p1.table, Lifted(p, m).table);
  }

  /** make_move never changes a piece's kind or colour. */
  lemma MadeKeys(p: Position, m: Move)
    requires MoveFits(p, m)
    ensures SameKeys(p.table, Made(p, m).table)
  {
    var l := Lifted(p, m);
    LiftedKeys(p, m);
    MakeOccLifted(p, m);
    var r := MakeOcc(p, m).0;
    if m.promotion.Some? {
      StepKeys(l, m.end, m.promotion.value);
    } else if m.castle.None? {
      StepKeys(l, m.end, m.pieceMoved);
    } else if m.castle.value.rookStart.Some? {
      var info := m.castle.value;
      var p3 := RemoveAt(l, info.rookStart.value);
      StepKeys(l, info.rookStart.value, 0);
      var p4 := PlaceAt(p3, info.rookEnd, info.rook);
      StepKeys(p3, info.rookEnd, info.rook);
      SameKeysTrans(l.table, p3.table, p4.table);
      StepKeys(p4, m.end, m.pieceMoved);
      SameKeysTrans(l.table, p4.table, r.table);
    } else {
      assert r == l;
    }
    SameKeysTrans(p.table, l.table, r.table);
    assert SameKeys(r.table, MarkFirst(r.table, m));
    SameKeysTrans(p.table, r.table, Made(p, m).table);
  }

  /** undo_move's square updates are those of UndoBase, then the castling
      rook's return. */
  lemma UndoOccBase(mk: Position, m: Move)
    requires MoveFits(mk, m)
    ensures UndoBase(mk, m).grid.Keys == mk.grid.Keys && |UndoBase(mk, m).table| == |mk.table|
    ensures m.castle.None? ==> UndoOcc(mk, m).0 == UndoBase(mk, m)
    ensures m.castle.Some? && m.castle.value.rookStart.Some? ==>
      var info := m.castle.value;
      UndoOcc(mk, m).0 == PlaceAt(RemoveAt(UndoBase(mk, m), info.rookEnd), info.rookStart.value, info.rook)
    ensures m.castle.Some? && m.castle.value.rookStart.None? ==>
      UndoOcc(mk, m).0 == RemoveAt(UndoBase(mk, m), m.castle.value.rookEnd)
  {
  }

  lemma UndoBaseKeys(p: Position, m: Move)
    requires MoveFits(p, m)
    ensures SameKeys(p.table, UndoBase(p, m).table)
  {
    var p1 := RemoveAt(p, m.end);
    StepKeys(p, m.end, 0);
    var p2 := PlaceAt(p1, m.start, m.pieceMoved);
    StepKeys(p1, m.start, m.pieceMoved);
    SameKeysTrans(p.table, p1.table, p2.table);
    if m.pieceCaptured.Some? {
      StepKeys(p2, BackSquare(m), m.pieceCaptured.value);
      SameKeysTrans(p.table, p2.table, PlaceAt(p2, BackSquare(m), m.pieceCaptured.value).table);
    }
  }

  /** undo_move never changes a piece's kind or colour. */
  lemma UndoneKeys(p: Position, m: Move)
    requires MoveFits(p, m)
    ensures SameKeys(p.table, UndoOcc(p, m).0.table)
  {
    var u := UndoBase(p, m);
    UndoBaseKeys(p, m);
    UndoOccBase(p, m);
    if m.castle.Some? {
      var info := m.castle.value;
      StepKeys(u, info.rookEnd, 0);
      var u1 := RemoveAt(u, info.rookEnd);
      SameKeysTrans(p.table, u.table, u1.table);
      if info.rookStart.Some? {
        StepKeys(u1, info.rookStart.value, info.rook);
        SameKeysTrans(p.table, u1.table, UndoOcc(p, m).0.table);
      }
    }
  }

  /** make_move's removals keep the links: the captured piece and the moved
      piece are off the board, their squares are empty, and no other square
      changed. */
  lemma LiftedLinked(p: Position, m: Move)
    requires Linked(p) && Built(p, m)
    requires m.pieceCaptured == Occupant(p, BackSquare(m)) && BackSquare(m) != m.start
    ensures Linked(Lifted(p, m))
    ensures OnBoard(Lifted(p, m)) == OnBoard(p) - Taken(m) - {m.pieceMoved}
    ensures !IsOnBoard(Lifted(p, m).table[m.pieceMoved])
    ensures Occupant(Lifted(p, m), m.start).None? && Occupant(Lifted(p, m), BackSquare(m)).None?
    ensures forall d :: d != m.start && d != BackSquare(m) ==> Occupant(Lifted(p, m), d) == Occupant(p, d)
  {
    var p1 := if m.enpassant.Some? then RemoveAt(p, m.enpassant.value)
              else if m.pieceCaptured.Some? then RemoveAt(p, m.end) else p;
    RemoveAtLinked(p, BackSquare(m));
    assert p1 == RemoveAt(p, BackSquare(m));
    assert Occupant(p1, m.start) == Some(m.pieceMoved);
    RemoveAtLinked(p1, m.start);
  }

  /** The placing half of a move without castling: the lifted position takes
      the moved piece, or the promotion piece, on the end square. */
  lemma EndPlaced(p: Position, m: Move)
    requires MoveFits(p, m) && m.castle.None? && m.start != m.end
    requires Linked(Lifted(p, m)) && EndPiece(m) !in OnBoard(Lifted(p, m))
    requires Occupant(Lifted(p, m), m.start).None? && Occupant(Lifted(p, m), m.end).None?
    ensures Linked(Made(p, m))
    ensures Occupant(Made(p, m), m.start).None? && Occupant(Made(p, m), m.end) == Some(EndPiece(m))
    ensures OnBoard(Made(p, m)) == OnBoard(Lifted(p, m)) + {EndPiece(m)}
  {
    MakeOccLifted(p, m);
    PlaceAtLinked(Lifted(p, m), m.end, EndPiece(m));
    MadeMarked(p, m);
  }

  /** A move without promotion or castling, a capture or en passant included,
      keeps the links: the moved piece is on the end square, the start square
      is empty, and only the captured piece has left the board. */
  lemma MadeStepLinked(p: Position, m: Move)
    requires Linked(p) && Built(p, m) && m.promotion.None? && m.castle.None?
    requires m.pieceCaptured == Occupant(p, BackSquare(m))
    requires m.enpassant.Some? ==>
      m.enpassant.value != m.start && m.enpassant.value != m.end && Occupant(p, m.end).None?
    ensures Linked(Made(p, m))
    ensures Occupant(Made(p, m), m.start).None? && Occupant(Made(p, m), m.end) == Some(m.pieceMoved)
    ensures OnBoard(Made(p, m)) == OnBoard(p) - Taken(m)
  {
    LiftedLinked(p, m);
    EndPlaced(p, m);
    assert m.pieceMoved !in Taken(m);
  }

  /** A promotion keeps the links when its new piece is off the board: the new
      piece is on the end square, the start square is empty, and the pawn and
      the captured piece have left the board. */
  lemma MadePromotionLinked(p: Position, m: Move)
    requires Linked(p) && Built(p, m) && m.promotion.Some? && m.enpassant.None? && m.castle.None?
    requires !IsOnBoard(p.table[m.promotion.value]) && m.pieceCaptured == Occupant(p, m.end)
    ensures Linked(Made(p, m))
    ensures Occupant(Made(p, m), m.start).None? && Occupant(Made(p, m), m.end) == m.promotion
    ensures OnBoard(Made(p, m)) == OnBoard(p) - Taken(m) - {m.pieceMoved} + {m.promotion.value}
  {
    LiftedLinked(p, m);
    assert m.promotion.value !in OnBoard(p);
    EndPlaced(p, m);
  }

  /** Taking a piece off one square and setting it on a free one keeps the
      links and the set of pieces on the board, and changes no other square. */
  lemma ShiftLinked(p: Position, from: Coord, to: Coord, q: PieceId)
    requires Linked(p) && from != to && to in p.grid
    requires Occupant(p, from) == Some(q) && Occupant(p, to).None?
    ensures Linked(PlaceAt(RemoveAt(p, from), to, q))
    ensures OnBoard(PlaceAt(RemoveAt(p, from), to, q)) == OnBoard(p)
    ensures Occupant(PlaceAt(RemoveAt(p, from), to, q), from).None?
    ensures Occupant(PlaceAt(RemoveAt(p, from), to, q), to) == Some(q)
    ensures forall d :: d != from && d != to ==> Occupant(PlaceAt(RemoveAt(p, from), to, q), d) == Occupant(p, d)
  {
    RemoveAtLinked(p, from);
    PlaceAtLinked(RemoveAt(p, from), to, q);
  }

  /** The placing half of a castle: the lifted position has the rook moved
      across and the king set on its end square. */
  lemma CastlePlaced(p: Position, m: Move)
    requires MoveFits(p, m) && m.start != m.end
    requires m.promotion.None? && m.castle.Some? && m.castle.value.rookStart.Some?
    requires var info := m.castle.value; var rs := info.rookStart.value; var l := Lifted(p, m);
      Linked(l) && m.pieceMoved !in OnBoard(l) &&
      Occupant(l, rs) == Some(info.rook) && Occupant(l, m.start).None? &&
      Occupant(l, m.end).None? && Occupant(l, info.rookEnd).None? &&
      rs != m.start && rs != m.end && rs != info.rookEnd && info.rookEnd != m.start && info.rookEnd != m.end
    ensures Linked(Made(p, m))
    ensures var info := m.castle.value;
      Occupant(Made(p, m), m.start).None? && Occupant(Made(p, m), info.rookStart.value).None? &&
      Occupant(Made(p, m), m.end) == Some(m.pieceMoved) && Occupant(Made(p, m), info.rookEnd) == Some(info.rook)
    ensures OnBoard(Made(p, m)) == OnBoard(Lifted(p, m)) + {m.pieceMoved}
  {
    var info := m.castle.value;
    var rs, re, rook := info.rookStart.value, info.rookEnd, info.rook;
    var l := Lifted(p, m);
    MakeOccLifted(p, m);
    ShiftLinked(l, rs, re, rook);
    var l2 := PlaceAt(RemoveAt(l, rs), re, rook);
    assert m.pieceMoved !in OnBoard(l2);
    PlaceAtLinked(l2, m.end, m.pieceMoved);
    assert Occupant(l2, m.start).None? && Occupant(l2, rs).None? && Occupant(l2, re) == Some(rook);
    var r := PlaceAt(l2, m.end, m.pieceMoved);
    assert MakeOcc(p, m).0 == r;
    MadeMarked(p, m);
  }

  /** A castle whose king and rook squares are free keeps the links: king and
      rook stand on their new squares, their old squares are empty, and the
      same pieces are on the board. */
  lemma MadeCastleLinked(p: Position, m: Move)
    requires CastleBuilt(p, m)
    ensures Linked(Made(p, m))
    ensures var info := m.castle.value;
      Occupant(Made(p, m), m.start).None? && Occupant(Made(p, m), info.rookStart.value).None? &&
      Occupant(Made(p, m), m.end) == Some(m.pieceMoved) && Occupant(Made(p, m), info.rookEnd) == Some(info.rook)
    ensures OnBoard(Made(p, m)) == OnBoard(p)
  {
    LiftedLinked(p, m);
    CastlePlaced(p, m);
  }

  /** The piece undo_move finds on the end square: the promotion piece or the
      moved piece. */
  function EndPiece(m: Move): PieceId {
    if m.promotion.Some? then m.promotion.value else m.pieceMoved
  }

  /** The part of undo_move before the castling rook keeps the links, from
      any linked position where the end square holds the promotion piece or
      the moved piece, the moved piece is off the board otherwise, and the
      squares it restores are free: the moved piece is back on its start, the
      captured piece back on the board, and no other square changed. */
  lemma UndoBaseLinked(mk: Position, m: Move)
    requires Linked(mk) && MoveFits(mk, m) && m.start != m.end
    requires Occupant(mk, m.end) == Some(EndPiece(m)) && Occupant(mk, m.start).None?
    requires m.promotion.Some? ==> !IsOnBoard(mk.table[m.pieceMoved])
    requires m.pieceCaptured.Some? ==>
      !IsOnBoard(mk.table[m.pieceCaptured.value]) && m.pieceCaptured.value != m.pieceMoved
    requires m.enpassant.Some? ==>
      m.enpassant.value != m.start && m.enpassant.value != m.end && Occupant(mk, m.enpassant.value).None?
    ensures Linked(UndoBase(mk, m))
    ensures OnBoard(UndoBase(mk, m)) == OnBoard(mk) - {EndPiece(m)} + {m.pieceMoved} + Taken(m)
    ensures Occupant(UndoBase(mk, m), m.start) == Some(m.pieceMoved)
    ensures m.pieceCaptured.None? ==> Occupant(UndoBase(mk, m), m.end).None?
    ensures forall d :: d != m.start && d != m.end && d != BackSquare(m) ==>
      Occupant(UndoBase(mk, m), d) == Occupant(mk, d)
  {
    var q := m.pieceMoved;
    var u1 := RemoveAt(mk, m.end);
    RemoveAtLinked(mk, m.end);
    PlaceAtLinked(u1, m.start, q);
    var u2 := PlaceAt(u1, m.start, q);
    var u3 := u2;
    if m.pieceCaptured.Some? {
      PlaceAtLinked(u2, BackSquare(m), m.pieceCaptured.value);
      u3 := PlaceAt(u2, BackSquare(m), m.pieceCaptured.value);
    }
    var pc := u3.table[q];
    var u4 := if pc.firstMove == Some(m.id) then u3.(table := u3.table[q := pc.(firstMove := None)]) else u3;
    MarksOnly(u3, u4.table);
    assert UndoBase(mk, m) == u4;
  }

  /** undo_move of a move without promotion or castling, from any linked
      position where the moved piece is on the end square and the squares it
      restores are free, keeps the links and brings the captured piece back. */
  lemma UndoneStepLinked(mk: Position, m: Move)
    requires Linked(mk) && MoveFits(mk, m) && m.start != m.end && m.promotion.None? && m.castle.None?
    requires Occupant(mk, m.end) == Some(m.pieceMoved) && Occupant(mk, m.start).None?
    requires m.pieceCaptured.Some? ==> !IsOnBoard(mk.table[m.pieceCaptured.value])
    requires m.enpassant.Some? ==>
      m.enpassant.value != m.start && m.enpassant.value != m.end && Occupant(mk, m.enpassant.value).None?
    ensures Linked(UndoOcc(mk, m).0)
    ensures Occupant(UndoOcc(mk, m).0, m.start) == Some(m.pieceMoved)
    ensures OnBoard(UndoOcc(mk, m).0) == OnBoard(mk) + Taken(m)
  {
    assert mk.table[m.pieceMoved].square == Some(m.end);
    UndoBaseLinked(mk, m);
  }

  /** undo_move of a promotion, from any linked position where the new piece
      is on the end square and the pawn is off the board, keeps the links:
      the new piece leaves, the pawn and the captured piece come back. */
  lemma UndonePromotionLinked(mk: Position, m: Move)
    requires Linked(mk) && MoveFits(mk, m) && m.start != m.end
    requires m.promotion.Some? && m.enpassant.None? && m.castle.None?
    requires Occupant(mk, m.end) == m.promotion && Occupant(mk, m.start).None?
    requires !IsOnBoard(mk.table[m.pieceMoved])
    requires m.pieceCaptured.Some? ==>
      !IsOnBoard(mk.table[m.pieceCaptured.value]) && m.pieceCaptured.value != m.pieceMoved
    ensures Linked(UndoOcc(mk, m).0)
    ensures OnBoard(UndoOcc(mk, m).0) == OnBoard(mk) - {m.promotion.value} + {m.pieceMoved} + Taken(m)
  {
    UndoBaseLinked(mk, m);
  }

  /** undo_move of a castle, from any linked position where king and rook
      stand on their castled squares and their start squares are free, keeps
      the links and the set of pieces on the board. */
  lemma UndoneCastleLinked(mk: Position, m: Move)
    requires Linked(mk) && MoveFits(mk, m) && m.start != m.end
    requires m.promotion.None? && m.enpassant.None? && m.pieceCaptured.None?
    requires m.castle.Some? && m.castle.value.rookStart.Some?
    requires var info := m.castle.value; var rs := info.rookStart.value;
      Occupant(mk, m.end) == Some(m.pieceMoved) && Occupant(mk, info.rookEnd) == Some(info.rook) &&
      Occupant(mk, m.start).None? && Occupant(mk, rs).None? &&
      info.rookEnd != m.end && info.rookEnd != m.start && rs != m.start
    ensures Linked(UndoOcc(mk, m).0)
    ensures var info := m.castle.value;
      Occupant(UndoOcc(mk, m).0, m.start) == Some(m.pieceMoved) &&
      Occupant(UndoOcc(mk, m).0, info.rookStart.value) == Some(info.rook)
    ensures OnBoard(UndoOcc(mk, m).0) == OnBoard(mk)
  {
    var info := m.castle.value;
    UndoBaseCastle(mk, m);
    UndoOccBase(mk, m);
    ShiftLinked(UndoBase(mk, m), info.rookEnd, info.rookStart.value, info.rook);
  }

  /** The king's half of undoing a castle: the king is back on its start,
      the rook still on its castled square, its start square free. */
  lemma UndoBaseCastle(mk: Position, m: Move)
    requires Linked(mk) && MoveFits(mk, m) && m.start != m.end
    requires m.promotion.None? && m.enpassant.None? && m.pieceCaptured.None?
    requires m.castle.Some? && m.castle.value.rookStart.Some?
    requires var info := m.castle.value; var rs := info.rookStart.value;
      Occupant(mk, m.end) == Some(m.pieceMoved) && Occupant(mk, info.rookEnd) == Some(info.rook) &&
      Occupant(mk, m.start).None? && Occupant(mk, rs).None? &&
      info.rookEnd != m.end && info.rookEnd != m.start && rs != m.start
    ensures var info := m.castle.value; var u := UndoBase(mk, m);
      Linked(u) && OnBoard(u) == OnBoard(mk) && info.rookStart.value in u.grid &&
      Occupant(u, m.start) == Some(m.pieceMoved) && Occupant(u, info.rookEnd) == Some(info.rook) &&
      Occupant(u, info.rookStart.value).None? && info.rookStart.value != info.rookEnd
  {
    assert mk.table[m.pieceMoved].square == Some(m.end);
    UndoBaseLinked(mk, m);
    assert m.pieceMoved in OnBoard(mk);
  }

  /** The moves whose make keeps the index in agreement with the board:
      plain moves, captures other than en passant, and promotions to a piece
      not on the board. */
  ghost predicate IndexKeeping(p: Position, m: Move) {
    Linked(p) && Built(p, m) && m.enpassant.None? && m.castle.None? &&
    m.pieceCaptured == Occupant(p, m.end) &&
    (m.promotion.Some? ==> !IsOnBoard(p.table[m.promotion.value]))
  }

  /** Such a move keeps the links and changes the pieces on the board by
      exactly the lists make_move hands to update_pieces, which list new
      pieces and pieces on the board, once each. */
  lemma MadeOnBoard(p: Position, m: Move)
    requires IndexKeeping(p, m)
    ensures Linked(Made(p, m))
    ensures NoDup(MadeAdded(m)) && OnBoard(p) !! Elems(MadeAdded(m))
    ensures NoDup(MadeRemoved(m)) && Elems(MadeRemoved(m)) <= OnBoard(p)
    ensures OnBoard(Made(p, m)) == OnBoard(p) + Elems(MadeAdded(m)) - Elems(MadeRemoved(m))
  {
    var q := m.pieceMoved;
    assert q in OnBoard(p);
    if m.pieceCaptured.Some? {
      assert m.pieceCaptured.value in OnBoard(p) && m.pieceCaptured.value != q;
    }
    MadeLists(m);
    if m.promotion.Some? {
      MadePromotionLinked(p, m);
      assert m.promotion.value !in OnBoard(p);
    } else {
      MadeStepLinked(p, m);
    }
  }

  /** The pieces in make_move's lists, for a move other than en passant. */
  lemma MadeLists(m: Move)
    requires m.enpassant.None? && (m.pieceCaptured.Some? ==> m.pieceCaptured.value != m.pieceMoved)
    ensures NoDup(MadeAdded(m)) && NoDup(MadeRemoved(m))
    ensures Elems(MadeAdded(m)) == if m.promotion.Some? then {m.promotion.value} else {}
    ensures Elems(MadeRemoved(m)) == Taken(m) + if m.promotion.Some? then {m.pieceMoved} else {}
  {
    var a := if m.pieceCaptured.Some? then [m.pieceCaptured.value] else [];
    var b := if m.promotion.Some? then [m.pieceMoved] else [];
    assert MadeRemoved(m) == a + b;
    assert Elems(a + b) == Elems(a) + Elems(b);
  }

  /** make_move of such a move, followed by its update_pieces, keeps the
      board and its index in agreement. */
  lemma MadeKeepsSynced(ix: Index, p: Position, m: Move)
    requires Synced(ix, p) && IndexKeeping(p, m)
    ensures Linked(Made(p, m))
    ensures UpdateSpec(ix, Made(p, m), MadeAdded(m), MadeRemoved(m)).Done?
    ensures Synced(UpdateSpec(ix, Made(p, m), MadeAdded(m), MadeRemoved(m)).ix, Made(p, m))
  {
    var mk := Made(p, m);
    MadeOnBoard(p, m);
    MadeKeys(p, m);
    RekeyConsistent(ix, p.table, mk.table, OnBoard(p));
    assert ix.pieces != [] by {
      assert m.pieceMoved in OnBoard(p);
      assert m.pieceMoved in Elems(ix.pieces);
    }
    IncrementalSynced(ix, mk, OnBoard(p), MadeAdded(m), MadeRemoved(m));
  }

  /** make_move of a castle onto free squares hands update_pieces nothing and
      keeps the board and its index in agreement. */
  lemma MadeCastleKeepsSynced(ix: Index, p: Position, m: Move)
    requires Synced(ix, p) && CastleBuilt(p, m)
    ensures Linked(Made(p, m))
    ensures UpdateSpec(ix, Made(p, m), MadeAdded(m), MadeRemoved(m)) == Done(ix)
    ensures Synced(ix, Made(p, m))
  {
    MadeCastleLinked(p, m);
    MadeKeys(p, m);
    RekeyConsistent(ix, p.table, Made(p, m).table, OnBoard(p));
    assert m.pieceMoved in Elems(ix.pieces);
    EmptyUpdateUnchanged(ix, Made(p, m), OnBoard(p));
  }

  /** undo_move of a move without promotion or castling (en passant
      included), from any linked and indexed position where the moved piece is
      on the end square, keeps the board and its index in agreement: the
      captured piece comes back on the board and into the index. */
  lemma UndoneKeepsSynced(ix: Index, mk: Position, m: Move)
    requires Synced(ix, mk) && Linked(mk) && MoveFits(mk, m) && m.start != m.end
    requires m.promotion.None? && m.castle.None?
    requires Occupant(mk, m.end) == Some(m.pieceMoved) && Occupant(mk, m.start).None?
    requires m.pieceCaptured.Some? ==> !IsOnBoard(mk.table[m.pieceCaptured.value])
    requires m.enpassant.Some? ==>
      m.enpassant.value != m.start && m.enpassant.value != m.end && Occupant(mk, m.enpassant.value).None?
    ensures Linked(UndoOcc(mk, m).0)
    ensures UpdateSpec(ix, UndoOcc(mk, m).0, UndoneAdded(m), UndoneRemoved(m)).Done?
    ensures Synced(UpdateSpec(ix, UndoOcc(mk, m).0, UndoneAdded(m), UndoneRemoved(m)).ix, UndoOcc(mk, m).0)
  {
    var u := UndoOcc(mk, m).0;
    UndoneStepLinked(mk, m);
    UndoneKeys(mk, m);
    RekeyConsistent(ix, mk.table, u.table, OnBoard(mk));
    assert m.pieceMoved in Elems(ix.pieces);
    IncrementalSynced(ix, u, OnBoard(mk), UndoneAdded(m), UndoneRemoved(m));
    assert OnBoard(mk) + Elems(UndoneAdded(m)) - Elems(UndoneRemoved(m)) == OnBoard(u);
  }

  /** undo_move of a castle, from any linked and indexed position where king
      and rook are on their castled squares, keeps the board and its index in
      agreement. */
  lemma UndoneCastleKeepsSynced(ix: Index, mk: Position, m: Move)
    requires Synced(ix, mk) && Linked(mk) && MoveFits(mk, m) && m.start != m.end
    requires m.promotion.None? && m.enpassant.None? && m.pieceCaptured.None?
    requires m.castle.Some? && m.castle.value.rookStart.Some?
    requires var info := m.castle.value; var rs := info.rookStart.value;
      Occupant(mk, m.end) == Some(m.pieceMoved) && Occupant(mk, info.rookEnd) == Some(info.rook) &&
      Occupant(mk, m.start).None? && Occupant(mk, rs).None? &&
      info.rookEnd != m.end && info.rookEnd != m.start && rs != m.start
    ensures Linked(UndoOcc(mk, m).0)
    ensures UpdateSpec(ix, UndoOcc(mk, m).0, UndoneAdded(m), UndoneRemoved(m)) == Done(ix)
    ensures Synced(ix, UndoOcc(mk, m).0)
  {
    UndoneCastleLinked(mk, m);
    UndoneKeys(mk, m);
    RekeyConsistent(ix, mk.table, UndoOcc(mk, m).0.table, OnBoard(mk));
    assert m.pieceMoved in Elems(ix.pieces);
    EmptyUpdateUnchanged(ix, UndoOcc(mk, m).0, OnBoard(mk));
  }

  /** An en-passant capture keeps the links but not the index: update_pieces
      is handed nothing, so the captured pawn stays in Board.pieces although
      it is off the board. */
  lemma EnPassantBreaksSync(ix: Index, p: Position, m: Move)
    requires Synced(ix, p) && Linked(p) && Built(p, m)
    requires m.promotion.None? && m.castle.None? && m.enpassant.Some? && m.pieceCaptured.Some?
    requires m.enpassant.value != m.start && m.enpassant.value != m.end
    requires Occupant(p, m.end).None? && m.pieceCaptured == Occupant(p, m.enpassant.value)
    ensures Linked(Made(p, m))
    ensures UpdateSpec(ix, Made(p, m), MadeAdded(m), MadeRemoved(m)).Done?
    ensures var j := UpdateSpec(ix, Made(p, m), MadeAdded(m), MadeRemoved(m)).ix;
      m.pieceCaptured.value in j.pieces && !IsOnBoard(Made(p, m).table[m.pieceCaptured.value]) &&
      !Synced(j, Made(p, m))
  {
    var mk := Made(p, m);
    var c := m.pieceCaptured.value;
    MadeStepLinked(p, m);
    MadeKeys(p, m);
    RekeyConsistent(ix, p.table, mk.table, OnBoard(p));
    assert c in OnBoard(p) && c !in OnBoard(mk);
    assert c in Elems(ix.pieces);
    EmptyUpdateUnchanged(ix, mk, OnBoard(p));
    assert MadeAdded(m) == [] && MadeRemoved(m) == [];
  }

  /** Undoing a promotion keeps the links but not the index: update_pieces
      takes the new piece out and never puts the pawn back, so the pawn is
      on the board but not in Board.pieces. */
  lemma PromotionUndoBreaksSync(ix: Index, mk: Position, m: Move)
    requires Synced(ix, mk) && Linked(mk) && MoveFits(mk, m) && m.start != m.end
    requires m.promotion.Some? && m.enpassant.None? && m.castle.None?
    requires Occupant(mk, m.end) == m.promotion && Occupant(mk, m.start).None?
    requires !IsOnBoard(mk.table[m.pieceMoved])
    requires m.pieceCaptured.Some? ==>
      !IsOnBoard(mk.table[m.pieceCaptured.value]) && m.pieceCaptured.value != m.pieceMoved
    ensures Linked(UndoOcc(mk, m).0)
    ensures UpdateSpec(ix, UndoOcc(mk, m).0, UndoneAdded(m), UndoneRemoved(m)).Done?
    ensures var j := UpdateSpec(ix, UndoOcc(mk, m).0, UndoneAdded(m), UndoneRemoved(m)).ix;
      m.pieceMoved !in j.pieces && IsOnBoard(UndoOcc(mk, m).0.table[m.pieceMoved]) &&
      !Synced(j, UndoOcc(mk, m).0)
  {
    var u := UndoOcc(mk, m).0;
    var q, pr := m.pieceMoved, m.promotion.value;
    UndonePromotionLinked(mk, m);
    UndoneKeys(mk, m);
    RekeyConsistent(ix, mk.table, u.table, OnBoard(mk));
    assert pr in OnBoard(mk) && q !in OnBoard(mk);
    assert pr in Elems(ix.pieces);
    IncrementalSynced(ix, u, OnBoard(mk), UndoneAdded(m), UndoneRemoved(m));
    var X' := OnBoard(mk) + Elems(UndoneAdded(m)) - Elems(UndoneRemoved(m));
    assert q !in X';
    assert q in OnBoard(u);
  }
}
