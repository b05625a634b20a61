/** What make_move and undo_move of chess_engine.py do to the squares and
    pieces, as functions of the position: the square updates in the order the
    methods make them, the first-move mark, the en-passant target, and the
    lists handed to update_pieces. */
module Play {
  import opened Wrappers
  import opened Pieces
  import opened Occupancy
  import opened Moves

  /** The squares a move names are squares of the board and the pieces it
      names are pieces of the board. */
  ghost predicate MoveFits(p: Position, m: Move) {
    m.start in p.grid && m.end in p.grid && m.pieceMoved < |p.table| &&
    (m.pieceCaptured.Some? ==> m.pieceCaptured.value < |p.table|) &&
    (m.promotion.Some? ==> m.promotion.value < |p.table|) &&
    (m.enpassant.Some? ==> m.enpassant.value in p.grid) &&
    (m.castle.Some? ==>
       m.castle.value.rook < |p.table| && m.castle.value.rookEnd in p.grid &&
       (m.castle.value.rookStart.Some? ==> m.castle.value.rookStart.value in p.grid))
  }

  /** Removing and placing keep the squares and the number of pieces. */
  lemma SquaresKept(p: Position, c: Coord, q: PieceId)
    ensures RemoveAt(p, c).grid.Keys == p.grid.Keys && |RemoveAt(p, c).table| == |p.table|
    ensures c in p.grid && q < |p.table| ==>
      PlaceAt(p, c, q).grid.Keys == p.grid.Keys && |PlaceAt(p, c, q).table| == |p.table|
  {
  }

  /** The square updates of make_move: the piece taken en passant, or else
      the captured piece, leaves the board; the moved piece leaves its start;
      then the promotion piece, or the castling rook and the king, or the
      moved piece, is set on its square. A castle tuple without the rook's
      square raises an AttributeError after the first removals. */
  function MakeOcc(p: Position, m: Move): (r: (Position, Option<Error>))
    requires MoveFits(p, m)
    ensures r.0.grid.Keys == p.grid.Keys && |r.0.table| == |p.table|
    ensures r.1.Some? <==> m.promotion.None? && m.castle.Some? && m.castle.value.rookStart.None?
  {
    var p1 := if m.enpassant.Some? then RemoveAt(p, m.enpassant.value)
              else if m.pieceCaptured.Some? then RemoveAt(p, m.end) else p;
    var p2 := RemoveAt(p1, m.start);
    if m.promotion.Some? then (PlaceAt(p2, m.end, m.promotion.value), None)
    else if m.castle.Some? then
      var info := m.castle.value;
      match info.rookStart
      case None => (p2, Some(AttributeError))
      case Some(rs) =>
        var p3 := RemoveAt(p2, rs);
        var p4 := PlaceAt(p3, info.rookEnd, info.rook);
        (PlaceAt(p4, m.end, m.pieceMoved), None)
    else (PlaceAt(p2, m.end, m.pieceMoved), None)
  }

  /** The pieces make_move hands to update_pieces as set: the promotion piece. */
  function MadeAdded(m: Move): seq<PieceId> {
    if m.promotion.Some? then [m.promotion.value] else []
  }

  /** ... and as removed: the captured piece unless it was taken en passant,
      then the promoted pawn. */
  function MadeRemoved(m: Move): seq<PieceId> {
    (if m.enpassant.None? && m.pieceCaptured.Some? then [m.pieceCaptured.value] else []) +
    (if m.promotion.Some? then [m.pieceMoved] else [])
  }

  /** An unmoved piece records the move as its first move. */
  function MarkFirst(t: seq<PieceRec>, m: Move): (r: seq<PieceRec>)
    requires m.pieceMoved < |t|
    ensures |r| == |t| && HasMoved(r[m.pieceMoved])
    ensures !HasMoved(t[m.pieceMoved]) ==> r[m.pieceMoved].firstMove == Some(m.id)
    ensures forall k :: 0 <= k < |t| ==> r[k] == t[k].(firstMove := r[k].firstMove)
    ensures forall k :: 0 <= k < |t| && k != m.pieceMoved ==> r[k] == t[k]
    ensures HasMoved(t[m.pieceMoved]) ==> r == t
  {
    var pc := t[m.pieceMoved];
    if !HasMoved(pc) then t[m.pieceMoved := pc.(firstMove := Some(m.id))] else t
  }

  /** enpassant_coords after make_move, from the moved piece as it stands
      before the first-move mark: an unmoved pawn's two-rank step makes its
      coordinates the target; anything else clears it. */
  function EpAfterMake(pc: PieceRec, m: Move, ep: Option<Coord>): Option<Coord> {
    if !HasMoved(pc) then
      if pc.kind == Pawn && Abs(m.end.1 - m.start.1) == 2 then GetCoords(pc)
      else if ep.Some? || pc.kind != Pawn then None
      else ep
    else if ep.Some? then None
    else ep
  }

  /** After make_move the en-passant target is set only by an unmoved pawn's
      two-rank step, and it is then the pawn's own square. */
  lemma EpAfterMakeSpec(pc: PieceRec, m: Move, ep: Option<Coord>)
    ensures EpAfterMake(pc, m, ep).Some? <==>
      !HasMoved(pc) && pc.kind == Pawn && Abs(m.end.1 - m.start.1) == 2 && IsOnBoard(pc)
    ensures EpAfterMake(pc, m, ep).Some? ==> pc.square == EpAfterMake(pc, m, ep)
  {
  }

  /** The part of undo_move before the castling rook: the end square is
      emptied, the moved piece goes back to its start, the captured piece
      back to the en-passant square or the end square, and the first-move
      mark made by this move is cleared. */
  function UndoBase(p: Position, m: Move): (r: Position)
    requires MoveFits(p, m)
    ensures r.grid.Keys == p.grid.Keys && |r.table| == |p.table|
  {
    var p1 := RemoveAt(p, m.end);
    var p2 := PlaceAt(p1, m.start, m.pieceMoved);
    var p3 := match m.pieceCaptured
      case None => p2
      case Some(cap) => if m.enpassant.Some? then PlaceAt(p2, m.enpassant.value, cap) else PlaceAt(p2, m.end, cap);
    var pc := p3.table[m.pieceMoved];
    if pc.firstMove == Some(m.id) then p3.(table := p3.table[m.pieceMoved := pc.(firstMove := None)]) else p3
  }

  /** The square updates of undo_move: the end square is emptied, the moved
      piece goes back to its start, the captured piece back to the en-passant
      square or the end square, the first-move mark made by this move is
      cleared, and the castling rook leaves its end square and goes back to
      its start (an AttributeError when that square is missing). */
  function UndoOcc(p: Position, m: Move): (r: (Position, Option<Error>))
    requires MoveFits(p, m)
    ensures r.0.grid.Keys == p.grid.Keys && |r.0.table| == |p.table|
    ensures r.1.Some? <==> m.castle.Some? && m.castle.value.rookStart.None?
  {
    var p4 := UndoBase(p, m);
    if m.castle.Some? then
      var info := m.castle.value;
      match info.rookStart
      case None => (RemoveAt(p4, info.rookEnd), Some(AttributeError))
      case Some(rs) => (PlaceAt(RemoveAt(p4, info.rookEnd), rs, info.rook), None)
    else (p4, None)
  }

  /** The pieces undo_move hands to update_pieces as set: the captured piece. */
  function UndoneAdded(m: Move): seq<PieceId> {
    if m.pieceCaptured.Some? then [m.pieceCaptured.value] else []
  }

  /** ... and as removed: the promotion piece. */
  function UndoneRemoved(m: Move): seq<PieceId> {
    if m.promotion.Some? then [m.promotion.value] else []
  }

  /** make_move's effect on the board followed by the first-move mark. */
  function Made(p: Position, m: Move): Position
    requires MoveFits(p, m)
  {
    var q := MakeOcc(p, m).0;
    q.(table := MarkFirst(q.table, m))
  }

  /** A move's name plays no part in making it. */
  lemma Renamed(p: Position, m: Move, name: string)
    requires MoveFits(p, m)
    ensures MoveFits(p, m.(name := name))
    ensures MakeOcc(p, m.(name := name)) == MakeOcc(p, m)
    ensures Made(p, m.(name := name)) == Made(p, m)
  {
  }

  /** A move between two squares that moves the start square's piece, which
      does not already record this move as its first. */
  ghost predicate Built(p: Position, m: Move) {
    MoveFits(p, m) && m.start != m.end &&
    Occupant(p, m.start) == Some(m.pieceMoved) &&
    p.table[m.pieceMoved].firstMove != Some(m.id)
  }

  /** A move without promotion, castling or en passant, undone right after
      it was made, restores every square and every piece. */
  lemma PlainRoundTrip(p: Position, m: Move)
    requires Shaped(p) && Linked(p) && Built(p, m)
    requires m.promotion.None? && m.castle.None? && m.enpassant.None?
    requires m.pieceCaptured == Occupant(p, m.end)
    ensures MakeOcc(p, m).1.None? && UndoOcc(Made(p, m), m).1.None?
    ensures UndoOcc(Made(p, m), m).0 == p
  {
    PlainGrid(p, m);
    assert p.table[m.pieceMoved].square == Some(m.start);
    if m.pieceCaptured.Some? {
      assert p.table[m.pieceCaptured.value].square == Some(m.end);
    }
    PlainTable(p, m);
  }

  /** The squares part of the round trip: make and undo are each a chain of
      updates to the squares the move touches. */
  lemma PlainGrid(p: Position, m: Move)
    requires MoveFits(p, m) && m.start != m.end
    requires m.promotion.None? && m.castle.None? && m.enpassant.None?
    requires Occupant(p, m.start) == Some(m.pieceMoved) && m.pieceCaptured == Occupant(p, m.end)
    ensures UndoOcc(Made(p, m), m).0.grid == p.grid
  {
    var g, q := p.grid, m.pieceMoved;
    var mg := g[m.start := None][m.end := Some(q)];
    assert MakeOcc(p, m).0.grid == mg;
    var mk := Made(p, m);
    assert mk.grid == mg;
    assert Occupant(mk, m.end) == Some(q);
    var ug := mg[m.end := None][m.start := Some(q)];
    if m.pieceCaptured.Some? {
      assert UndoOcc(mk, m).0.grid == ug[m.end := m.pieceCaptured];
    } else {
      assert UndoOcc(mk, m).0.grid == ug;
    }
  }

  /** The pieces part of the round trip, from where the moved and the
      captured piece stand. */
  lemma PlainTable(p: Position, m: Move)
    requires Built(p, m) && m.promotion.None? && m.castle.None? && m.enpassant.None?
    requires m.pieceCaptured == Occupant(p, m.end) && p.table[m.pieceMoved].square == Some(m.start)
    requires m.pieceCaptured.Some? ==> p.table[m.pieceCaptured.value].square == Some(m.end)
    ensures UndoOcc(Made(p, m), m).0.table == p.table
  {
    StepMade(p, m);
    StepUndone(Made(p, m), m, p.table);
  }

  /** The square a captured piece stands on: beside the end square for an
      en-passant capture, the end square otherwise. */
  function BackSquare(m: Move): Coord {
    if m.enpassant.Some? then m.enpassant.value else m.end
  }

  /** A piece with the first-move mark of m taken off again. */
  function Unmarked(pc: PieceRec, m: Move): PieceRec {
    pc.(firstMove := if pc.firstMove == Some(m.id) then None else pc.firstMove)
  }

  /** After a move without promotion or castling, the moved piece stands on
      the end square (marked with the move when it had no first move), the
      captured piece is off the board, and no other piece changed. */
  lemma StepMade(p: Position, m: Move)
    requires Built(p, m) && m.promotion.None? && m.castle.None?
    requires m.pieceCaptured == Occupant(p, BackSquare(m))
    requires m.enpassant.Some? ==>
      m.enpassant.value != m.start && m.enpassant.value != m.end && Occupant(p, m.end).None?
    requires p.table[m.pieceMoved].square == Some(m.start)
    requires m.pieceCaptured.Some? ==> p.table[m.pieceCaptured.value].square == Some(BackSquare(m))
    ensures var mk := Made(p, m); var q := m.pieceMoved;
      Occupant(mk, m.end) == Some(q) && |mk.table| == |p.table| && mk.grid.Keys == p.grid.Keys &&
      Unmarked(mk.table[q], m) == p.table[q].(square := Some(m.end)) &&
      (m.pieceCaptured.Some? ==>
         m.pieceCaptured.value != q &&
         mk.table[m.pieceCaptured.value] == p.table[m.pieceCaptured.value].(square := None)) &&
      forall k :: 0 <= k < |p.table| && k != q && Some(k) != m.pieceCaptured ==> mk.table[k] == p.table[k]
  {
    var q := m.pieceMoved;
    var p1 := if m.enpassant.Some? || m.pieceCaptured.Some? then RemoveAt(p, BackSquare(m)) else p;
    var p2 := RemoveAt(p1, m.start);
    var p3 := PlaceAt(p2, m.end, q);
    assert MakeOcc(p, m).0 == p3;
    if m.pieceCaptured.Some? {
      assert m.pieceCaptured.value != q;
    }
  }

  /** Undoing a move without promotion or castling from the position it
      made gives back the table t of before: the moved piece returns to its
      start without this move's mark, the captured piece to its square. */
  lemma StepUndone(mk: Position, m: Move, t: seq<PieceRec>)
    requires MoveFits(mk, m) && m.start != m.end && m.promotion.None? && m.castle.None?
    requires |mk.table| == |t| && Occupant(mk, m.end) == Some(m.pieceMoved)
    requires m.enpassant.Some? ==> m.enpassant.value != m.start
    requires Unmarked(mk.table[m.pieceMoved], m) == t[m.pieceMoved].(square := Some(m.end))
    requires t[m.pieceMoved].square == Some(m.start)
    requires m.pieceCaptured.Some? ==>
      m.pieceCaptured.value != m.pieceMoved &&
      mk.table[m.pieceCaptured.value] == t[m.pieceCaptured.value].(square := None) &&
      t[m.pieceCaptured.value].square == Some(BackSquare(m))
    requires forall k :: 0 <= k < |t| && k != m.pieceMoved && Some(k) != m.pieceCaptured ==> mk.table[k] == t[k]
    ensures UndoOcc(mk, m).0.table == t
  {
    var q := m.pieceMoved;
    var u2 := PlaceAt(RemoveAt(mk, m.end), m.start, q);
    var u3 := if m.pieceCaptured.Some? then PlaceAt(u2, BackSquare(m), m.pieceCaptured.value) else u2;
    var pc := u3.table[q];
    var r := if pc.firstMove == Some(m.id) then u3.(table := u3.table[q := pc.(firstMove := None)]) else u3;
    assert UndoOcc(mk, m).0 == r;
    assert r.table[q] == t[q];
    forall k | 0 <= k < |t| ensures r.table[k] == t[k] {
    }
  }

  /** An en-passant capture, undone right after it was made, restores every
      square and every piece: the captured pawn returns to the square beside
      the end square. */
  lemma EnPassantRoundTrip(p: Position, m: Move)
    requires Shaped(p) && Linked(p) && Built(p, m)
    requires m.promotion.None? && m.castle.None? && m.enpassant.Some?
    requires m.enpassant.value != m.start && m.enpassant.value != m.end
    requires Occupant(p, m.end).None? && m.pieceCaptured == Occupant(p, m.enpassant.value)
    ensures MakeOcc(p, m).1.None? && UndoOcc(Made(p, m), m).1.None?
    ensures UndoOcc(Made(p, m), m).0 == p
  {
    EnPassantGrid(p, m);
    assert p.table[m.pieceMoved].square == Some(m.start);
    if m.pieceCaptured.Some? {
      assert p.table[m.pieceCaptured.value].square == Some(m.enpassant.value);
    }
    EnPassantTable(p, m);
  }

  /** The squares part of the round trip: make and undo are each a chain of
      updates to the squares the move touches. */
  lemma EnPassantGrid(p: Position, m: Move)
    requires MoveFits(p, m) && m.start != m.end
    requires m.promotion.None? && m.castle.None? && m.enpassant.Some?
    requires m.enpassant.value != m.start && m.enpassant.value != m.end
    requires Occupant(p, m.start) == Some(m.pieceMoved)
    requires Occupant(p, m.end).None? && m.pieceCaptured == Occupant(p, m.enpassant.value)
    ensures UndoOcc(Made(p, m), m).0.grid == p.grid
  {
    var g, q, e := p.grid, m.pieceMoved, m.enpassant.value;
    var mg := g[e := None][m.start := None][m.end := Some(q)];
    assert MakeOcc(p, m).0.grid == mg;
    var mk := Made(p, m);
    assert mk.grid == mg;
    assert Occupant(mk, m.end) == Some(q);
    var ug := mg[m.end := None][m.start := Some(q)];
    if m.pieceCaptured.Some? {
      assert UndoOcc(mk, m).0.grid == ug[e := m.pieceCaptured];
    } else {
      assert UndoOcc(mk, m).0.grid == ug;
    }
  }

  /** The pieces part of the round trip, from where the moved and the
      captured pawn stand. */
  lemma EnPassantTable(p: Position, m: Move)
    requires Built(p, m) && m.promotion.None? && m.castle.None? && m.enpassant.Some?
    requires m.enpassant.value != m.start && m.enpassant.value != m.end
    requires Occupant(p, m.end).None? && m.pieceCaptured == Occupant(p, m.enpassant.value)
    requires p.table[m.pieceMoved].square == Some(m.start)
    requires m.pieceCaptured.Some? ==> p.table[m.pieceCaptured.value].square == Some(m.enpassant.value)
    ensures UndoOcc(Made(p, m), m).0.table == p.table
  {
    StepMade(p, m);
    StepUndone(Made(p, m), m, p.table);
  }

  /** A castling move, undone right after it was made, restores every square
      and every piece: king and rook go back to their squares. */
  lemma CastleRoundTrip(p: Position, m: Move)
    requires Shaped(p) && Linked(p) && Built(p, m)
    requires m.promotion.None? && m.enpassant.None? && m.castle.Some? && m.castle.value.rookStart.Some?
    requires var info := m.castle.value; var rs := info.rookStart.value;
      Occupant(p, rs) == Some(info.rook) && Occupant(p, m.end).None? && Occupant(p, info.rookEnd).None? &&
      rs != m.start && rs != m.end && rs != info.rookEnd && info.rookEnd != m.start && info.rookEnd != m.end
    requires m.pieceCaptured.None?
    ensures MakeOcc(p, m).1.None? && UndoOcc(Made(p, m), m).1.None?
    ensures UndoOcc(Made(p, m), m).0 == p
  {
    CastleGrid(p, m);
    CastleTable(p, m);
  }

  /** The castling premises of CastleRoundTrip. */
  ghost predicate CastleBuilt(p: Position, m: Move) {
    Shaped(p) && Linked(p) && Built(p, m) &&
    m.promotion.None? && m.enpassant.None? && m.castle.Some? && m.castle.value.rookStart.Some? &&
    (var info := m.castle.value; var rs := info.rookStart.value;
     Occupant(p, rs) == Some(info.rook) && Occupant(p, m.end).None? && Occupant(p, info.rookEnd).None? &&
     rs != m.start && rs != m.end && rs != info.rookEnd && info.rookEnd != m.start && info.rookEnd != m.end) &&
    m.pieceCaptured.None?
  }

  /** The squares part of the round trip: make and undo are each a chain of
      updates to the squares the move touches. */
  lemma CastleGrid(p: Position, m: Move)
    requires MoveFits(p, m) && m.start != m.end
    requires m.promotion.None? && m.enpassant.None? && m.castle.Some? && m.castle.value.rookStart.Some?
    requires m.pieceCaptured.None?
    requires var info := m.castle.value; var rs := info.rookStart.value;
      Occupant(p, m.start) == Some(m.pieceMoved) && Occupant(p, rs) == Some(info.rook) &&
      Occupant(p, m.end).None? && Occupant(p, info.rookEnd).None? &&
      rs != m.start && rs != m.end && rs != info.rookEnd && info.rookEnd != m.start && info.rookEnd != m.end
    ensures UndoOcc(Made(p, m), m).0.grid == p.grid
  {
    var info := m.castle.value;
    var g, q, rs, re := p.grid, m.pieceMoved, info.rookStart.value, info.rookEnd;
    CastleGridMade(p, m);
    CastleGridUndone(Made(p, m), m);
    CastleGridBack(g, m.start, m.end, rs, re, q, info.rook);
  }

  /** Moving king and rook to their castled squares and back again restores
      the squares. */
  lemma CastleGridBack(g: Grid, start: Coord, end: Coord, rs: Coord, re: Coord, q: PieceId, rook: PieceId)
    requires start in g && end in g && rs in g && re in g
    requires g[start] == Some(q) && g[rs] == Some(rook) && g[end].None? && g[re].None?
    requires start != end && rs != start && rs != end && rs != re && re != start && re != end
    ensures g[start := None][rs := None][re := Some(rook)][end := Some(q)]
             [end := None][start := Some(q)][re := None][rs := Some(rook)] == g
  {
  }

  /** Undoing a castle empties the king's end square, puts the king back,
      empties the rook's castled square and puts the rook back. */
  lemma CastleGridUndone(mk: Position, m: Move)
    requires MoveFits(mk, m) && m.castle.Some? && m.castle.value.rookStart.Some? && m.pieceCaptured.None?
    requires m.end in mk.grid && m.castle.value.rookEnd in mk.grid
    ensures var info := m.castle.value;
      UndoOcc(mk, m).0.grid ==
        mk.grid[m.end := None][m.start := Some(m.pieceMoved)][info.rookEnd := None][info.rookStart.value := Some(info.rook)]
  {
    var info := m.castle.value;
    var g1 := mk.grid[m.end := None][m.start := Some(m.pieceMoved)];
    assert UndoBase(mk, m).grid == g1;
  }

  /** A castle empties the king's and the rook's squares and fills the
      rook's and the king's new ones. */
  lemma CastleGridMade(p: Position, m: Move)
    requires MoveFits(p, m) && m.start != m.end
    requires m.promotion.None? && m.enpassant.None? && m.castle.Some? && m.castle.value.rookStart.Some?
    requires m.pieceCaptured.None?
    ensures var info := m.castle.value;
      Made(p, m).grid ==
        p.grid[m.start := None][info.rookStart.value := None][info.rookEnd := Some(info.rook)][m.end := Some(m.pieceMoved)]
  {
    var info := m.castle.value;
    assert MakeOcc(p, m).0.grid ==
      p.grid[m.start := None][info.rookStart.value := None][info.rookEnd := Some(info.rook)][m.end := Some(m.pieceMoved)];
  }

  lemma CastleTable(p: Position, m: Move)
    requires CastleBuilt(p, m)
    ensures UndoOcc(Made(p, m), m).0.table == p.table
  {
    var info := m.castle.value;
    assert p.table[m.pieceMoved].square == Some(m.start);
    assert p.table[info.rook].square == Some(info.rookStart.value);
    assert info.rook != m.pieceMoved;
    CastleTableSteps(p, m);
  }

  /** CastleTable once king and rook are known to stand where the move
      says, without the rest of the board's shape. */
  lemma CastleTableSteps(p: Position, m: Move)
    requires MoveFits(p, m) && m.start != m.end
    requires m.promotion.None? && m.enpassant.None? && m.castle.Some? && m.castle.value.rookStart.Some?
    requires m.pieceCaptured.None? && p.table[m.pieceMoved].firstMove != Some(m.id)
    requires var info := m.castle.value; var rs := info.rookStart.value;
      info.rook != m.pieceMoved &&
      Occupant(p, m.start) == Some(m.pieceMoved) && Occupant(p, rs) == Some(info.rook) &&
      Occupant(p, m.end).None? && Occupant(p, info.rookEnd).None? &&
      rs != m.start && rs != m.end && rs != info.rookEnd && info.rookEnd != m.start && info.rookEnd != m.end &&
      p.table[m.pieceMoved].square == Some(m.start) && p.table[info.rook].square == Some(rs)
    ensures UndoOcc(Made(p, m), m).0.table == p.table
  {
    CastleMade(p, m);
    CastleUndone(Made(p, m), m, p.table);
  }

  /** After castling, king and rook stand on their end squares, the king
      carries the move's first-move mark when it had none, and no other
      piece changed. */
  lemma CastleMade(p: Position, m: Move)
    requires MoveFits(p, m) && m.start != m.end
    requires m.promotion.None? && m.enpassant.None? && m.castle.Some? && m.castle.value.rookStart.Some?
    requires m.pieceCaptured.None? && p.table[m.pieceMoved].firstMove != Some(m.id)
    requires var info := m.castle.value; var rs := info.rookStart.value;
      info.rook != m.pieceMoved &&
      Occupant(p, m.start) == Some(m.pieceMoved) && Occupant(p, rs) == Some(info.rook) &&
      rs != m.start && rs != m.end && rs != info.rookEnd && info.rookEnd != m.end
    ensures var mk := Made(p, m); var q := m.pieceMoved; var rook := m.castle.value.rook;
      Occupant(mk, m.end) == Some(q) && Occupant(mk, m.castle.value.rookEnd) == Some(rook) &&
      |mk.table| == |p.table| && mk.grid.Keys == p.grid.Keys &&
      Unmarked(mk.table[q], m) == p.table[q].(square := Some(m.end)) &&
      mk.table[rook] == p.table[rook].(square := Some(m.castle.value.rookEnd)) &&
      forall k :: 0 <= k < |p.table| && k != q && k != rook ==> mk.table[k] == p.table[k]
  {
    var info := m.castle.value;
    var rs := info.rookStart.value;
    var q, rook := m.pieceMoved, info.rook;
    var p2 := RemoveAt(p, m.start);
    assert Occupant(p2, rs) == Some(rook);
    var p3 := RemoveAt(p2, rs);
    var p4 := PlaceAt(p3, info.rookEnd, rook);
    var p5 := PlaceAt(p4, m.end, q);
    assert MakeOcc(p, m).0 == p5;
  }

  /** Undoing a castle from the position it made gives back the table t of
      before: king and rook return to their start squares and the king's
      first-move mark from this move is cleared. */
  lemma CastleUndone(mk: Position, m: Move, t: seq<PieceRec>)
    requires MoveFits(mk, m) && m.start != m.end
    requires m.promotion.None? && m.enpassant.None? && m.castle.Some? && m.castle.value.rookStart.Some?
    requires m.pieceCaptured.None? && |mk.table| == |t|
    requires var info := m.castle.value; var rs := info.rookStart.value; var q := m.pieceMoved; var rook := info.rook;
      Occupant(mk, m.end) == Some(q) && Occupant(mk, info.rookEnd) == Some(rook) && q != rook &&
      rs != m.start && rs != info.rookEnd && info.rookEnd != m.start && info.rookEnd != m.end &&
      Unmarked(mk.table[q], m) == t[q].(square := Some(m.end)) &&
      mk.table[rook] == t[rook].(square := Some(info.rookEnd)) &&
      t[q].square == Some(m.start) && t[rook].square == Some(rs) &&
      (forall k :: 0 <= k < |t| && k != q && k != rook ==> mk.table[k] == t[k])
    ensures UndoOcc(mk, m).0.table == t
  {
    var info := m.castle.value;
    var rs := info.rookStart.value;
    var q, rook := m.pieceMoved, info.rook;
    var u2 := PlaceAt(RemoveAt(mk, m.end), m.start, q);
    var pc := u2.table[q];
    var u4 := if pc.firstMove == Some(m.id) then u2.(table := u2.table[q := pc.(firstMove := None)]) else u2;
    assert Occupant(u4, info.rookEnd) == Some(rook);
    var r := PlaceAt(RemoveAt(u4, info.rookEnd), rs, rook);
    assert UndoOcc(mk, m).0 == r;
    assert r.table[q] == t[q];
    assert r.table[rook] == t[rook];
    forall k | 0 <= k < |t| ensures r.table[k] == t[k] {
    }
  }

  /** A promotion, undone right after it was made, restores every square and
      every piece: the pawn returns and the new piece is off the board again. */
  lemma PromotionRoundTrip(p: Position, m: Move)
    requires Shaped(p) && Linked(p) && Built(p, m)
    requires m.promotion.Some? && m.enpassant.None? && m.castle.None?
    requires !IsOnBoard(p.table[m.promotion.value]) && m.promotion.value != m.pieceMoved
    requires m.pieceCaptured == Occupant(p, m.end)
    ensures MakeOcc(p, m).1.None? && UndoOcc(Made(p, m), m).1.None?
    ensures UndoOcc(Made(p, m), m).0 == p
  {
    PromotionGrid(p, m);
    assert p.table[m.pieceMoved].square == Some(m.start);
    if m.pieceCaptured.Some? {
      assert p.table[m.pieceCaptured.value].square == Some(m.end);
    }
    PromotionTable(p, m);
  }

  /** The squares part of the round trip: make and undo are each a chain of
      updates to the squares the move touches. */
  lemma PromotionGrid(p: Position, m: Move)
    requires MoveFits(p, m) && m.start != m.end
    requires m.promotion.Some? && m.enpassant.None? && m.castle.None?
    requires Occupant(p, m.start) == Some(m.pieceMoved) && m.pieceCaptured == Occupant(p, m.end)
    ensures UndoOcc(Made(p, m), m).0.grid == p.grid
  {
    var g, q, pr := p.grid, m.pieceMoved, m.promotion.value;
    var mg := g[m.start := None][m.end := Some(pr)];
    PromotionGridMade(p, m);
    var mk := Made(p, m);
    assert Occupant(mk, m.end) == Some(pr);
    var ug := mg[m.end := None][m.start := Some(q)];
    if m.pieceCaptured.Some? {
      assert UndoOcc(mk, m).0.grid == ug[m.end := m.pieceCaptured];
    } else {
      assert UndoOcc(mk, m).0.grid == ug;
    }
  }

  /** A promotion leaves the start square empty and the new piece on the end
      square. */
  lemma PromotionGridMade(p: Position, m: Move)
    requires MoveFits(p, m) && m.start != m.end
    requires m.promotion.Some? && m.enpassant.None? && m.castle.None?
    ensures Made(p, m).grid == p.grid[m.start := None][m.end := Some(m.promotion.value)]
  {
    assert MakeOcc(p, m).0.grid == p.grid[m.start := None][m.end := Some(m.promotion.value)];
  }

  /** The pieces part of the round trip, from where the pawn and the
      captured piece stand. */
  lemma PromotionTable(p: Position, m: Move)
    requires Built(p, m) && m.promotion.Some? && m.enpassant.None? && m.castle.None?
    requires !IsOnBoard(p.table[m.promotion.value]) && m.promotion.value != m.pieceMoved
    requires m.pieceCaptured == Occupant(p, m.end) && p.table[m.pieceMoved].square == Some(m.start)
    requires m.pieceCaptured.Some? ==> p.table[m.pieceCaptured.value].square == Some(m.end)
    ensures UndoOcc(Made(p, m), m).0.table == p.table
  {
    PromotionMade(p, m);
    PromotionUndone(Made(p, m), m, p.table);
  }

  /** After a promotion the new piece stands on the end square, the pawn
      (marked with the move when it had no first move) and the captured
      piece are off the board, and no other piece changed. */
  lemma PromotionMade(p: Position, m: Move)
    requires Built(p, m) && m.promotion.Some? && m.enpassant.None? && m.castle.None?
    requires !IsOnBoard(p.table[m.promotion.value]) && m.promotion.value != m.pieceMoved
    requires m.pieceCaptured == Occupant(p, m.end) && p.table[m.pieceMoved].square == Some(m.start)
    requires m.pieceCaptured.Some? ==> p.table[m.pieceCaptured.value].square == Some(m.end)
    ensures var mk := Made(p, m); var q := m.pieceMoved; var pr := m.promotion.value;
      Occupant(mk, m.end) == Some(pr) && |mk.table| == |p.table| && mk.grid.Keys == p.grid.Keys &&
      Unmarked(mk.table[q], m) == p.table[q].(square := None) &&
      mk.table[pr] == p.table[pr].(square := Some(m.end)) &&
      (m.pieceCaptured.Some? ==>
         m.pieceCaptured.value != q && m.pieceCaptured.value != pr &&
         mk.table[m.pieceCaptured.value] == p.table[m.pieceCaptured.value].(square := None)) &&
      forall k :: 0 <= k < |p.table| && k != q && k != pr && Some(k) != m.pieceCaptured ==> mk.table[k] == p.table[k]
  {
    var q, pr := m.pieceMoved, m.promotion.value;
    var p1 := if m.pieceCaptured.Some? then RemoveAt(p, m.end) else p;
    var p2 := RemoveAt(p1, m.start);
    var p3 := PlaceAt(p2, m.end, pr);
    assert MakeOcc(p, m).0 == p3;
    if m.pieceCaptured.Some? {
      assert m.pieceCaptured.value != q && m.pieceCaptured.value != pr;
    }
  }

  /** Undoing a promotion from the position it made gives back the table t
      of before: the new piece leaves the board, the pawn returns to its
      start without this move's mark, the captured piece to the end square. */
  lemma PromotionUndone(mk: Position, m: Move, t: seq<PieceRec>)
    requires MoveFits(mk, m) && m.start != m.end && m.promotion.Some? && m.enpassant.None? && m.castle.None?
    requires |mk.table| == |t| && Occupant(mk, m.end) == m.promotion
    requires m.promotion.value != m.pieceMoved && t[m.promotion.value].square.None?
    requires Unmarked(mk.table[m.pieceMoved], m) == t[m.pieceMoved].(square := None)
    requires t[m.pieceMoved].square == Some(m.start)
    requires mk.table[m.promotion.value] == t[m.promotion.value].(square := Some(m.end))
    requires m.pieceCaptured.Some? ==>
      m.pieceCaptured.value != m.pieceMoved && m.pieceCaptured.value != m.promotion.value &&
      mk.table[m.pieceCaptured.value] == t[m.pieceCaptured.value].(square := None) &&
      t[m.pieceCaptured.value].square == Some(m.end)
    requires forall k :: 0 <= k < |t| && k != m.pieceMoved && k != m.promotion.value && Some(k) != m.pieceCaptured ==>
      mk.table[k] == t[k]
    ensures UndoOcc(mk, m).0.table == t
  {
    var q := m.pieceMoved;
    var u2 := PlaceAt(RemoveAt(mk, m.end), m.start, q);
    var u3 := if m.pieceCaptured.Some? then PlaceAt(u2, m.end, m.pieceCaptured.value) else u2;
    var pc := u3.table[q];
    var r := if pc.firstMove == Some(m.id) then u3.(table := u3.table[q := pc.(firstMove := None)]) else u3;
    assert UndoOcc(mk, m).0 == r;
    assert r.table[q] == t[q];
    forall k | 0 <= k < |t| ensures r.table[k] == t[k] {
    }
  }
}
