/** The GameState class of chess_engine.py: a standard board and the game's
    bookkeeping, changed in place by making, undoing and redoing moves, by
    generating the valid moves and by judging the end of the game. */
module Engine {
  import opened Wrappers
  import opened Pieces
  import opened Lists
  import opened Coordinates
  import opened Occupancy
  import opened BoardIndex
  import opened ChessBoard
  import opened Scenarios
  import opened Moves
  import opened Movegen
  import opened Checks
  import opened Castling
  import opened Removal
  import opened ValidMoves
  import opened Play
  import opened History

  /** Moves whose squares and pieces belong to position p. */
  ghost predicate AllFit(p: Position, log: seq<Logged>) {
    forall i :: 0 <= i < |log| ==> MoveFits(p, log[i].move)
  }

  /** A move that fits a position fits every position with the same squares
      and at least as many pieces. */
  lemma FitsGrow(p: Position, p2: Position, log: seq<Logged>)
    requires AllFit(p, log) && p2.grid.Keys == p.grid.Keys && |p.table| <= |p2.table|
    ensures AllFit(p2, log)
  {
  }

  lemma AllFitPrefix(p: Position, log: seq<Logged>)
    requires AllFit(p, log) && log != []
    ensures AllFit(p, Front(log)) && MoveFits(p, Last(log).move)
  {
  }

  /** A queen, rook, bishop or knight has a list in piece_lists. */
  lemma TrackedKey(k: Kind, c: Color)
    requires k != King && k != Pawn
    ensures (k, c) in TRACKED_KEYS
  {
  }

  /** The square updates of make_move, in its order. */
  method MakeSquares(b: Board, m: Move) returns (err: Option<Error>)
    requires b.Valid() && MoveFits(b.Pos(), m)
    modifies b
    ensures b.Valid() && b.Ix() == old(b.Ix())
    ensures b.whiteKing == old(b.whiteKing) && b.blackKing == old(b.blackKing)
    ensures (b.Pos(), err) == MakeOcc(old(b.Pos()), m)
  {
    LiftSquares(b, m);
    if m.promotion.Some? {
      b.SetPiece(m.end, m.promotion.value);
    } else if m.castle.Some? {
      var info := m.castle.value;
      if info.rookStart.None? {
        return Some(AttributeError);
      }
      PlaceCastle(b, m);
    } else {
      b.SetPiece(m.end, m.pieceMoved);
    }
    return None;
  }

  /** The first square updates of make_move: the captured piece leaves its
      square (the target square for en passant), then the moved piece
      leaves the start square. */
  method LiftSquares(b: Board, m: Move)
    requires b.Valid() && MoveFits(b.Pos(), m)
    modifies b
    ensures b.Valid() && b.Ix() == old(b.Ix())
    ensures b.whiteKing == old(b.whiteKing) && b.blackKing == old(b.blackKing)
    ensures var p := old(b.Pos());
      b.Pos() == RemoveAt(if m.enpassant.Some? then RemoveAt(p, m.enpassant.value)
                          else if m.pieceCaptured.Some? then RemoveAt(p, m.end) else p, m.start)
  {
    if m.enpassant.Some? {
      b.RemovePiece(m.enpassant.value);
    } else if m.pieceCaptured.Some? {
      b.RemovePiece(m.end);
    }
    b.RemovePiece(m.start);
  }

  /** The last square updates of a castle in make_move: the rook leaves its
      square for its castled square, and the king goes to the end square. */
  method PlaceCastle(b: Board, m: Move)
    requires b.Valid() && MoveFits(b.Pos(), m) && m.castle.Some? && m.castle.value.rookStart.Some?
    modifies b
    ensures b.Valid() && b.Ix() == old(b.Ix())
    ensures b.whiteKing == old(b.whiteKing) && b.blackKing == old(b.blackKing)
    ensures var info := m.castle.value;
      b.Pos() == PlaceAt(PlaceAt(RemoveAt(old(b.Pos()), info.rookStart.value), info.rookEnd, info.rook),
                         m.end, m.pieceMoved)
  {
    var info := m.castle.value;
    b.RemovePiece(info.rookStart.value);
    b.SetPiece(info.rookEnd, info.rook);
    b.SetPiece(m.end, m.pieceMoved);
  }

  /** The square updates of undo_move, in its order, with the first-move mark
      cleared when this move set it. */
  method UndoSquares(b: Board, m: Move) returns (err: Option<Error>)
    requires b.Valid() && MoveFits(b.Pos(), m)
    modifies b
    ensures b.Valid() && b.Ix() == old(b.Ix())
    ensures b.whiteKing == old(b.whiteKing) && b.blackKing == old(b.blackKing)
    ensures (b.Pos(), err) == UndoOcc(old(b.Pos()), m)
  {
    UndoBaseSquares(b, m);
    if m.castle.Some? {
      var info := m.castle.value;
      b.RemovePiece(info.rookEnd);
      if info.rookStart.None? {
        return Some(AttributeError);
      }
      b.SetPiece(info.rookStart.value, info.rook);
    }
    return None;
  }

  /** The updates of undo_move before the castling rook. */
  method UndoBaseSquares(b: Board, m: Move)
    requires b.Valid() && MoveFits(b.Pos(), m)
    modifies b
    ensures b.Valid() && b.Ix() == old(b.Ix())
    ensures b.whiteKing == old(b.whiteKing) && b.blackKing == old(b.blackKing)
    ensures b.Pos() == UndoBase(old(b.Pos()), m)
  {
    b.RemovePiece(m.end);
    b.SetPiece(m.start, m.pieceMoved);
    if m.pieceCaptured.Some? {
      if m.enpassant.Some? {
        b.SetPiece(m.enpassant.value, m.pieceCaptured.value);
      } else {
        b.SetPiece(m.end, m.pieceCaptured.value);
      }
    }
    if b.table[m.pieceMoved].firstMove == Some(m.id) {
      b.SetFirstMove(m.pieceMoved, None);
    }
  }

  /** The first-move mark of make_move: an unmoved piece records the move. */
  method MarkFirstMove(b: Board, m: Move)
    requires b.Valid() && m.pieceMoved < |b.table|
    modifies b
    ensures b.Valid() && b.Ix() == old(b.Ix()) && b.grid == old(b.grid)
    ensures b.whiteKing == old(b.whiteKing) && b.blackKing == old(b.blackKing)
    ensures b.table == MarkFirst(old(b.table), m)
  {
    if !HasMoved(b.table[m.pieceMoved]) {
      b.SetFirstMove(m.pieceMoved, Some(m.id));
    }
  }

  /** The inner loop of find_moves_on_path along direction d: steps 1 to
      pathRange - 1, squares off the board skipped, empty squares taken, a
      friendly piece ending the walk, an enemy taken and ending it. */
  method WalkPath(p: Position, start: Coord, color: Color, d: Direction, pathRange: nat, n: int,
                  ghost ends: seq<Coord>, moves: seq<Move>, acc: seq<Move>) returns (r: Result<seq<Move>>)
    requires Emit(p, start, ends, n, moves) == Ok(acc)
    ensures r == Emit(p, start, ends + RayFrom(p, start, d, color, 1, pathRange), n, moves)
  {
    var out := acc;
    ghost var walked: seq<Coord> := [];
    assert ends + walked == ends;
    var i := 1;
    while i < pathRange
      invariant 1 <= i
      invariant walked + RayFrom(p, start, d, color, i, pathRange) == RayFrom(p, start, d, color, 1, pathRange)
      invariant Emit(p, start, ends + walked, n, moves) == Ok(out)
      decreases pathRange - i
    {
      var stop;
      stop, r, walked := WalkSquare(p, start, color, d, i, pathRange, n, ends, moves, walked, out);
      if r.Err? {
        return;
      }
      out := r.value;
      if stop {
        return;
      }
      i := i + 1;
    }
    assert walked + [] == walked;
    return Ok(out);
  }

  /** The vertical moves of get_pawn_moves: one step onto an empty square
      and, for a pawn that has not moved, a second one. */
  method PushMoves(p: Position, pawn: PieceRec, start: Coord, n: int, moves: seq<Move>) returns (r: Result<seq<Move>>)
    ensures r == PawnPushes(p, pawn, start, n, moves)
  {
    var y := PawnDirection(pawn.color).1;
    if !IsPinned(pawn) || pawn.pinDirection == Some((0, y)) || pawn.pinDirection == Some((0, -y)) {
      if start.1 + y < p.ranks {
        var one := SquareOf(p, (start.0, start.1 + y));
        if one.Err? {
          return Err(one.error);
        }
        if !HasPiece(p, one.value) {
          var m := NewMove(p, start, one.value, n, None, None);
          if m.Err? {
            return Err(m.error);
          }
          var acc := moves + [m.value];
          if !HasMoved(pawn) {
            var two := SquareOf(p, (start.0, start.1 + 2 * y));
            if two.Err? {
              return Err(two.error);
            }
            if !HasPiece(p, two.value) {
              var m2 := NewMove(p, start, two.value, n, None, None).value;
              assert moves + [m.value, m2] == acc + [m2];
              acc := acc + [m2];
            }
          }
          return Ok(acc);
        }
      }
    }
    return Ok(moves);
  }

  /** The capture loop of get_pawn_moves: one file to each side, one rank
      forward, onto an enemy piece, unless a pin forbids that diagonal. */
  method CaptureMoves(p: Position, pawn: PieceRec, start: Coord, n: int, moves: seq<Move>) returns (r: Result<seq<Move>>)
    ensures r == PawnCaptures(p, pawn, start, HORIZONTAL, 0, n, moves)
  {
    var y := PawnDirection(pawn.color).1;
    var acc := moves;
    for k := 0 to |HORIZONTAL|
      invariant PawnCaptures(p, pawn, start, HORIZONTAL, k, n, acc) == PawnCaptures(p, pawn, start, HORIZONTAL, 0, n, moves)
    {
      var x := HORIZONTAL[k].0;
      if !IsPinned(pawn) || pawn.pinDirection == Some((x, y)) {
        var c := (start.0 + x, start.1 + y);
        if InBounds(p.files, p.ranks, c) && HasEnemyPiece(p, c, pawn.color) {
          var m := NewMove(p, start, c, n, None, None);
          if m.Err? {
            return Err(m.error);
          }
          acc := acc + [m.value];
        }
      }
    }
    return Ok(acc);
  }

  /** The en-passant capture of get_pawn_moves, onto the square beyond the
      target; the captured piece is whatever stands on the target. */
  method EnPassantMove(p: Position, pawn: PieceRec, start: Coord, ep: Option<Coord>, n: int, moves: seq<Move>)
    returns (r: Result<seq<Move>>)
    ensures r == PawnEnPassant(p, pawn, start, ep, n, moves)
  {
    var y := PawnDirection(pawn.color).1;
    if ep.Some? && Abs(start.0 - ep.value.0) == 1 && start.1 == ep.value.1 {
      var epSquare := SquareOf(p, ep.value);
      if epSquare.Err? {
        return Err(epSquare.error);
      }
      var end := SquareOf(p, (ep.value.0, start.1 + y));
      if end.Err? {
        return Err(end.error);
      }
      var m := NewMove(p, start, end.value, n, None, Some(epSquare.value));
      if m.Err? {
        return Err(m.error);
      }
      return Ok(moves + [m.value.(pieceCaptured := Occupant(p, epSquare.value))]);
    }
    return Ok(moves);
  }

  /** One square of the inner loop of find_moves_on_path, at step i: off the
      board it is skipped; a friendly piece stops the walk; otherwise the
      move there is added, and an enemy piece stops the walk after it. */
  method WalkSquare(p: Position, start: Coord, color: Color, d: Direction, i: nat, pathRange: nat, n: int,
                    ghost ends: seq<Coord>, moves: seq<Move>, ghost walked: seq<Coord>, out: seq<Move>)
    returns (stop: bool, r: Result<seq<Move>>, ghost walked': seq<Coord>)
    requires i < pathRange && Emit(p, start, ends + walked, n, moves) == Ok(out)
    ensures r.Err? ==> r == Emit(p, start, ends + (walked + RayFrom(p, start, d, color, i, pathRange)), n, moves)
    ensures r.Ok? ==> Emit(p, start, ends + walked', n, moves) == r
    ensures r.Ok? && stop ==> walked' == walked + RayFrom(p, start, d, color, i, pathRange)
    ensures r.Ok? && !stop ==>
      walked' + RayFrom(p, start, d, color, i + 1, pathRange) == walked + RayFrom(p, start, d, color, i, pathRange)
  {
    var c := Step(start, d, i);
    ghost var rest := RayFrom(p, start, d, color, i + 1, pathRange);
    walked' := walked;
    if !InBounds(p.files, p.ranks, c) {
      return false, Ok(out), walked';
    }
    if HasPiece(p, c) && HasFriendlyPiece(p, c, color) {
      assert walked + [] == walked;
      return true, Ok(out), walked';
    }
    stop, r, walked' := AddSquare(p, start, color, d, i, pathRange, n, ends, moves, walked, out);
  }

  /** The square at step i of find_moves_on_path when it exists and holds no
      friendly piece: the move there is added, and the walk stops after an
      enemy piece. */
  method AddSquare(p: Position, start: Coord, color: Color, d: Direction, i: nat, pathRange: nat, n: int,
                   ghost ends: seq<Coord>, moves: seq<Move>, ghost walked: seq<Coord>, out: seq<Move>)
    returns (stop: bool, r: Result<seq<Move>>, ghost walked': seq<Coord>)
    requires i < pathRange && Emit(p, start, ends + walked, n, moves) == Ok(out)
    requires InBounds(p.files, p.ranks, Step(start, d, i))
    requires !(HasPiece(p, Step(start, d, i)) && HasFriendlyPiece(p, Step(start, d, i), color))
    ensures r.Err? ==> r == Emit(p, start, ends + (walked + RayFrom(p, start, d, color, i, pathRange)), n, moves)
    ensures r.Ok? ==> Emit(p, start, ends + walked', n, moves) == r
    ensures r.Ok? && stop ==> walked' == walked + RayFrom(p, start, d, color, i, pathRange)
    ensures r.Ok? && !stop ==>
      walked' + RayFrom(p, start, d, color, i + 1, pathRange) == walked + RayFrom(p, start, d, color, i, pathRange)
  {
    var c := Step(start, d, i);
    ghost var rest := RayFrom(p, start, d, color, i + 1, pathRange);
    walked' := walked;
    var m := NewMove(p, start, c, n, None, None);
    if m.Err? {
      assert Emit(p, start, ends + (walked + RayFrom(p, start, d, color, i, pathRange)), n, moves) == Err(m.error) by {
        EmitSnoc(p, start, ends + walked, c, n, moves, out);
      }
      return true, Err(m.error), walked';
    }
    walked' := walked + [c];
    assert Emit(p, start, ends + walked', n, moves) == Ok(out + [m.value]) by {
      EmitSnoc(p, start, ends + walked, c, n, moves, out);
      assert (ends + walked) + [c] == ends + walked';
    }
    stop := HasPiece(p, c);
    if !stop {
      assert walked + ([c] + rest) == walked' + rest;
    }
    r := Ok(out + [m.value]);
  }

  /** The loop of find_moves_on_path over the piece's directions: each one
      it may move along, not pinned or pinned along that line either way,
      is walked by WalkPath. */
  method WalkPaths(p: Position, piece: PieceRec, start: Coord, dirs: seq<Direction>, pathRange: nat, n: int,
                   moves: seq<Move>) returns (r: Result<seq<Move>>)
    ensures r == Emit(p, start, PathEnds(p, start, piece, dirs, pathRange), n, moves)
  {
    var acc := moves;
    for k := 0 to |dirs|
      invariant Emit(p, start, PathEnds(p, start, piece, dirs[..k], pathRange), n, moves) == Ok(acc)
    {
      var d := dirs[k];
      ghost var before := PathEnds(p, start, piece, dirs[..k], pathRange);
      PathEndsStep(p, start, piece, dirs, k, pathRange);
      if !IsPinned(piece) || piece.pinDirection == Some(d) || piece.pinDirection == Some((-d.0, -d.1)) {
        var w := WalkPath(p, start, piece.color, d, pathRange, n, before, moves, acc);
        if w.Err? {
          PathEndsPrefix(p, start, piece, dirs, k + 1, pathRange);
          EmitPrefixErr(p, start, PathEnds(p, start, piece, dirs[..k + 1], pathRange),
                        PathEnds(p, start, piece, dirs, pathRange), n, moves);
          return w;
        }
        acc := w.value;
      } else {
        assert before + [] == before;
      }
    }
    assert dirs[..|dirs|] == dirs;
    return Ok(acc);
  }

  /** The inner loop of get_pins_and_checks along direction d, for steps 1 to
      limit - 1, reporting the check or pin it finds, if any. */
  method ScanLine(p: Position, king: PieceId, color: Color, kc: Coord, d: Direction, limit: nat) returns (h: Hit)
    ensures h == RayScan(p, king, color, kc, d, 1, limit, None)
  {
    var possiblePin: Option<Pin> := None;
    var i := 1;
    while i < limit
      invariant 1 <= i
      invariant RayScan(p, king, color, kc, d, i, limit, possiblePin) == RayScan(p, king, color, kc, d, 1, limit, None)
      decreases limit - i
    {
      var c := Step(kc, d, i);
      if !InBounds(p.files, p.ranks, c) {
        return NoHit;
      }
      if HasFriendlyPiece(p, c, color) {
        if Occupant(p, c) != Some(king) {
          if possiblePin.Some? {
            // a second friendly piece breaks the pin
            return NoHit;
          }
          possiblePin := Some((c, d));
        }
      } else if HasEnemyPiece(p, c, color) {
        var enemy := PieceAt(p, c).value;
        if !Attacks(enemy.kind, enemy.color, d, i) {
          return NoHit;
        }
        if possiblePin.None? {
          return CheckHit((c, d));
        }
        return PinHit(possiblePin.value);
      }
      i := i + 1;
    }
    return NoHit;
  }

  /** The squares a piece may move to when a piece other than a knight gives
      the single check: the line from the king's square (step 0) to the
      checking square, the squares off the board skipped. */
  method CheckLine(p: Position, kc: Coord, d: Direction, target: Coord) returns (vs: seq<Coord>)
    ensures vs == BlockSquares(p, kc, d, target, 0, ScanLimit(p))
  {
    var limit := if p.files <= p.ranks then p.files else p.ranks;
    vs := [];
    var i := 0;
    while i < limit
      invariant vs + BlockSquares(p, kc, d, target, i, limit) == BlockSquares(p, kc, d, target, 0, limit)
      decreases limit - i
    {
      var c := Step(kc, d, i);
      if InBounds(p.files, p.ranks, c) {
        assert BlockSquares(p, kc, d, target, i, limit) ==
          if c == target then [c] else [c] + BlockSquares(p, kc, d, target, i + 1, limit);
        vs := vs + [c];
        if c == target {
          break;
        }
      }
      i := i + 1;
    }
  }

  /** The walk of get_castle_moves toward the rook, for steps 3 to
      files - 1, collecting a castling move for every unmoved rook of the
      king's colour met before the edge, an enemy or a piece other than a
      rook. */
  method CastlePathMoves(p: Position, kc: Coord, color: Color, castleSq: Coord, rookSq: Coord, x: int, n: int)
    returns (r: Result<seq<Move>>)
    ensures r == CastlePath(p, kc, color, castleSq, rookSq, x, 3, n)
  {
    var found: seq<Move> := [];
    ghost var whole := CastlePath(p, kc, color, castleSq, rookSq, x, 3, n);
    assert whole.Ok? ==> found + whole.value == whole.value;
    var i := 3;
    while i < p.files
      invariant Prepend(found, CastlePath(p, kc, color, castleSq, rookSq, x, i, n)) ==
        CastlePath(p, kc, color, castleSq, rookSq, x, 3, n)
      decreases p.files - i
    {
      var stop;
      stop, r := CastlePathSquare(p, kc, color, castleSq, rookSq, x, i, n, found);
      if r.Err? || stop {
        return;
      }
      found := r.value;
      i := i + 1;
    }
    assert found + [] == found;
    return Ok(found);
  }

  /** Step i of the walk toward the rook, with the moves found so far: off
      the board, an enemy or a piece other than a rook stops the walk; an
      unmoved rook of the king's colour adds its castling move. */
  method CastlePathSquare(p: Position, kc: Coord, color: Color, castleSq: Coord, rookSq: Coord, x: int, i: nat,
                          n: int, found: seq<Move>) returns (stop: bool, r: Result<seq<Move>>)
    requires i < p.files
    ensures r.Err? || stop ==> r == Prepend(found, CastlePath(p, kc, color, castleSq, rookSq, x, i, n))
    ensures r.Ok? && !stop ==>
      Prepend(r.value, CastlePath(p, kc, color, castleSq, rookSq, x, i + 1, n)) ==
        Prepend(found, CastlePath(p, kc, color, castleSq, rookSq, x, i, n))
  {
    var newFile := kc.0 + x * i;
    if !(0 <= newFile < p.files) {
      assert found + [] == found;
      return true, Ok(found);
    }
    var pathSq := SquareOf(p, (newFile, kc.1));
    if pathSq.Err? {
      return true, Err(pathSq.error);
    }
    if HasPiece(p, pathSq.value) {
      var piece := PieceAt(p, pathSq.value).value;
      if HasEnemyPiece(p, pathSq.value, color) || piece.kind != Rook {
        assert found + [] == found;
        return true, Ok(found);
      }
      if !HasMoved(piece) {
        var info := CastleInfo(Occupant(p, pathSq.value).value, piece.square, rookSq);
        var m := NewMove(p, kc, castleSq, n, Some(info), None);
        if m.Err? {
          return true, Err(m.error);
        }
        ghost var rest := CastlePath(p, kc, color, castleSq, rookSq, x, i + 1, n);
        assert rest.Ok? ==> found + ([m.value] + rest.value) == (found + [m.value]) + rest.value;
        return false, Ok(found + [m.value]);
      }
    }
    return false, Ok(found);
  }

  /** One side x of one king move in get_castle_moves. */
  method CastleSideMoves(p: Position, king: PieceId, kc: Coord, n: int, m: Move, x: int) returns (r: Result<seq<Move>>)
    requires king < |p.table|
    ensures r == CastleSide(p, king, kc, n, m, x)
  {
    var rookSq := SquareOf(p, (kc.0 + x, kc.1));
    if rookSq.Err? {
      return Err(rookSq.error);
    }
    if rookSq.value != m.end {
      return Ok([]);
    }
    var castleSq := SquareOf(p, (kc.0 + x * 2, kc.1));
    if castleSq.Err? {
      return Err(castleSq.error);
    }
    if HasPiece(p, castleSq.value) {
      return Ok([]);
    }
    r := CastlePathMoves(p, kc, p.table[king].color, castleSq.value, rookSq.value, x, n);
  }

  class GameState {
    const board: Board
    var whiteToMove: bool
    var moveLog: seq<Logged>
    var undoLog: seq<Logged>
    var moveBranches: seq<seq<Logged>>
    var moveNumber: int
    var pins: seq<Pin>
    var checks: seq<Pin>
    var inCheck: bool
    var gameover: bool
    var checkmate: bool
    var stalemate: bool
    var stalemateCounter: int
    /** enpassant_coords; None stands for the empty tuple. */
    var enpassant: Option<Coord>
    /** valid_moves, which the caller assigns and the notation reads. */
    var validMoves: seq<Move>

    /** Every attribute but the board. */
    function State(): Game
      reads this
    {
      Game(whiteToMove, moveLog, undoLog, moveBranches, moveNumber, pins, checks, inCheck,
           gameover, checkmate, stalemate, stalemateCounter, enpassant, validMoves)
    }

    /** The board is a well-formed 8 x 8 board with both kings, every logged
        move belongs to it, and the en-passant target is one of its squares. */
    ghost predicate Valid()
      reads this, board
    {
      board.Valid() && board.files == 8 && board.ranks == 8 && board.labels == DEFAULT_LABELS &&
      board.whiteKing.Some? && board.blackKing.Some? &&
      AllFit(board.Pos(), moveLog) && AllFit(board.Pos(), undoLog) &&
      (enpassant.Some? ==> enpassant.value in board.grid) &&
      AllNamed(DEFAULT_LABELS, validMoves)
    }

    /** GameState.__init__: the standard board, white to move, nothing logged. */
    constructor ()
      ensures Valid() && fresh(board)
      ensures State() == INITIAL
      ensures board.table == StandardRecs() && Linked(board.Pos()) && Synced(board.Ix(), board.Pos())
      ensures forall c :: c in board.grid ==> board.grid[c] == StandardIdAt(c)
      ensures board.whiteKing == Some(30) && board.blackKing == Some(31)
    {
      var b := MakeStandardBoard();
      board := b;
      whiteToMove := true;
      moveLog := [];
      undoLog := [];
      moveBranches := [];
      moveNumber := 0;
      pins := [];
      checks := [];
      inCheck := false;
      gameover := false;
      checkmate := false;
      stalemate := false;
      stalemateCounter := 0;
      enpassant := None;
      validMoves := [];
    }

    /** make_move: the square updates of MakeOcc, then the log entry, the
        first-move mark, the en-passant target, the turn and the move number,
        and last update_pieces with the pieces set and removed. A castle tuple
        without the rook's square raises an AttributeError once the first
        squares are emptied; update_pieces may raise a ValueError at the end. */
    method MakeMove(m: Move) returns (err: Option<Error>)
      requires Valid() && MoveFits(board.Pos(), m)
      modifies this, board
      ensures Valid()
      ensures |board.table| == |old(board.table)|
      ensures board.whiteKing == old(board.whiteKing) && board.blackKing == old(board.blackKing)
      ensures MakeOcc(old(board.Pos()), m).1.Some? ==>
        err == MakeOcc(old(board.Pos()), m).1 &&
        board.Pos() == MakeOcc(old(board.Pos()), m).0 &&
        board.Ix() == old(board.Ix()) && State() == old(State())
      ensures MakeOcc(old(board.Pos()), m).1.None? ==>
        board.Pos() == Made(old(board.Pos()), m) &&
        State() == AfterMake(old(State()), MakeOcc(old(board.Pos()), m).0.table[m.pieceMoved], m) &&
        UpdatedTo(old(board.Ix()), board.Pos(), MadeAdded(m), MadeRemoved(m), board.Ix(), err)
    {
      ghost var p0 := board.Pos();
      err := MakeSquares(board, m);
      FitsGrow(p0, board.Pos(), moveLog);
      FitsGrow(p0, board.Pos(), undoLog);
      if err.Some? {
        return;
      }
      err := FinishMake(m);
    }

    /** make_move once the squares of m are updated: the bookkeeping, the
        first-move mark, then the piece index drops what m removed and
        takes what it added. */
    method FinishMake(m: Move) returns (err: Option<Error>)
      requires Valid() && MoveFits(board.Pos(), m)
      modifies this, board
      ensures Valid()
      ensures board.whiteKing == old(board.whiteKing) && board.blackKing == old(board.blackKing)
      ensures board.Pos() == old(board.Pos()).(table := MarkFirst(old(board.table), m))
      ensures State() == AfterMake(old(State()), old(board.table)[m.pieceMoved], m)
      ensures UpdatedTo(old(board.Ix()), board.Pos(), MadeAdded(m), MadeRemoved(m), board.Ix(), err)
    {
      ghost var p0 := board.Pos();
      var piece := board.table[m.pieceMoved];
      RecordMade(m, piece);
      MarkFirstMove(board, m);
      ghost var p1 := board.Pos();
      FitsGrow(p0, p1, moveLog);
      FitsGrow(p0, p1, undoLog);
      err := UpdateIndex(MadeAdded(m), MadeRemoved(m));
    }

    /** The bookkeeping of make_move once the squares are updated, where
        piece is the moved piece as it then stands. */
    method RecordMade(m: Move, piece: PieceRec)
      modifies this
      ensures State() == AfterMake(old(State()), piece, m)
      ensures enpassant.Some? ==> enpassant == piece.square
    {
      moveLog := moveLog + [Logged(m, stalemateCounter)];
      if !HasMoved(piece) {
        if piece.kind == Pawn && Abs(m.end.1 - m.start.1) == 2 {
          enpassant := GetCoords(piece);
        } else if enpassant.Some? || piece.kind != Pawn {
          enpassant := None;
        }
      } else if enpassant.Some? {
        enpassant := None;
      }
      whiteToMove := !whiteToMove;
      moveNumber := moveNumber + 1;
    }

    /** undo_move: nothing when the log is empty. Otherwise the last entry is
        popped, the squares are restored as UndoOcc says (a castle tuple
        without the rook's square raises an AttributeError there), the
        en-passant target is read off the entry now last, the mate flags are
        cleared, the turn and the move number go back, the entry goes to the
        undo log, and update_pieces gets the captured piece and the promotion
        piece. */
    method UndoMove() returns (err: Option<Error>)
      requires Valid()
      modifies this, board
      ensures Valid()
      ensures board.whiteKing == old(board.whiteKing) && board.blackKing == old(board.blackKing)
      ensures old(moveLog) == [] ==>
        err.None? && State() == old(State()) && board.Pos() == old(board.Pos()) && board.Ix() == old(board.Ix())
      ensures old(moveLog) != [] && UndoOcc(old(board.Pos()), Last(old(moveLog)).move).1.Some? ==>
        err == Some(AttributeError) &&
        board.Pos() == UndoOcc(old(board.Pos()), Last(old(moveLog)).move).0 &&
        board.Ix() == old(board.Ix()) && State() == old(State()).(moveLog := Front(old(moveLog)))
      ensures old(moveLog) != [] && UndoOcc(old(board.Pos()), Last(old(moveLog)).move).1.None? ==>
        var m := Last(old(moveLog)).move;
        board.Pos() == UndoOcc(old(board.Pos()), m).0 &&
        LogFits(board.table, old(moveLog)) &&
        State() == AfterUndo(old(State()), board.table) &&
        UpdatedTo(old(board.Ix()), board.Pos(), UndoneAdded(m), UndoneRemoved(m), board.Ix(), err)
    {
      if moveLog == [] {
        return None;
      }
      err := UndoLast();
    }

    /** undo_move once the log is known not to be empty. */
    method UndoLast() returns (err: Option<Error>)
      requires Valid() && moveLog != []
      modifies this, board
      ensures Valid()
      ensures board.whiteKing == old(board.whiteKing) && board.blackKing == old(board.blackKing)
      ensures UndoOcc(old(board.Pos()), Last(old(moveLog)).move).1.Some? ==>
        err == Some(AttributeError) &&
        board.Pos() == UndoOcc(old(board.Pos()), Last(old(moveLog)).move).0 &&
        board.Ix() == old(board.Ix()) && State() == old(State()).(moveLog := Front(old(moveLog)))
      ensures UndoOcc(old(board.Pos()), Last(old(moveLog)).move).1.None? ==>
        var m := Last(old(moveLog)).move;
        board.Pos() == UndoOcc(old(board.Pos()), m).0 &&
        LogFits(board.table, old(moveLog)) &&
        State() == AfterUndo(old(State()), board.table) &&
        UpdatedTo(old(board.Ix()), board.Pos(), UndoneAdded(m), UndoneRemoved(m), board.Ix(), err)
    {
      var m := Last(moveLog).move;
      err := RestoreSquares(m);
      if err.Some? {
        moveLog := Front(moveLog);
        return;
      }
      err := FinishUndo(m);
    }

    /** The squares of the last logged move m are restored, and the game
        stays well formed. */
    method RestoreSquares(m: Move) returns (err: Option<Error>)
      requires Valid() && moveLog != [] && m == Last(moveLog).move
      modifies board
      ensures Valid() && AllFit(board.Pos(), Front(moveLog)) && LogFits(board.table, moveLog)
      ensures board.whiteKing == old(board.whiteKing) && board.blackKing == old(board.blackKing)
      ensures board.Ix() == old(board.Ix())
      ensures (board.Pos(), err) == UndoOcc(old(board.Pos()), m)
    {
      ghost var p0 := board.Pos();
      AllFitPrefix(p0, moveLog);
      err := UndoSquares(board, m);
      ghost var p1 := board.Pos();
      FitsGrow(p0, p1, moveLog);
      FitsGrow(p0, p1, undoLog);
      AllFitPrefix(p1, moveLog);
    }

    /** undo_move once the squares of m, the last logged move, are restored:
        the logs, turn and move number are rolled back, then the piece
        index takes back what m removed and drops what it added. */
    method FinishUndo(m: Move) returns (err: Option<Error>)
      requires Valid() && moveLog != [] && m == Last(moveLog).move && LogFits(board.table, moveLog)
      modifies this, board
      ensures Valid()
      ensures board.whiteKing == old(board.whiteKing) && board.blackKing == old(board.blackKing)
      ensures board.Pos() == old(board.Pos())
      ensures State() == AfterUndo(old(State()), board.table)
      ensures UpdatedTo(old(board.Ix()), board.Pos(), UndoneAdded(m), UndoneRemoved(m), board.Ix(), err)
    {
      AllFitPrefix(board.Pos(), moveLog);
      ghost var g0 := State();
      RecordUndone(board.table);
      UndoTarget(g0, board.table);
      assert enpassant.Some? ==> enpassant.value in board.grid;
      err := UpdateIndex(UndoneAdded(m), UndoneRemoved(m));
    }

    /** board.update_pieces on a valid game: only the index changes, as
        UpdateSpec says; a failure is a ValueError. */
    method UpdateIndex(added: seq<PieceId>, removed: seq<PieceId>) returns (err: Option<Error>)
      requires Valid() && IdsIn(added, board.table) && IdsIn(removed, board.table)
      modifies board
      ensures Valid()
      ensures board.whiteKing == old(board.whiteKing) && board.blackKing == old(board.blackKing)
      ensures board.Pos() == old(board.Pos())
      ensures UpdatedTo(old(board.Ix()), board.Pos(), added, removed, board.Ix(), err)
    {
      var ok := board.UpdatePieces(added, removed);
      err := if ok then None else Some(ValueError);
    }

    /** The bookkeeping of undo_move once the squares are restored, where t
        is the piece table as it then stands. */
    method RecordUndone(t: seq<PieceRec>)
      requires moveLog != [] && LogFits(t, moveLog)
      modifies this
      ensures State() == AfterUndo(old(State()), t)
    {
      ghost var g := State();
      var entry := Last(moveLog);
      moveLog := Front(moveLog);
      RestoreTarget(t);
      TurnBack(entry);
      UndoSteps(g, t);
    }

    /** The target read off the entry now last in the log, when there is one:
        the end square of a pawn's two-rank move, otherwise none. */
    method RestoreTarget(t: seq<PieceRec>)
      requires LogFits(t, moveLog)
      modifies this
      ensures State() ==
        old(State()).(enpassant := if old(moveLog) == [] then old(enpassant) else EpOfLogged(t, Last(old(moveLog))))
    {
      if moveLog != [] {
        enpassant := EpOfLogged(t, Last(moveLog));
      }
    }

    /** The end of undo_move's bookkeeping: the mate flags are cleared, the
        turn and the move number go back, and the entry goes to the undo log. */
    method TurnBack(entry: Logged)
      modifies this
      ensures State() == old(State()).(checkmate := false, stalemate := false, whiteToMove := !old(whiteToMove),
                                       moveNumber := old(moveNumber) - 1, undoLog := old(undoLog) + [entry])
    {
      checkmate, stalemate := false, false;
      whiteToMove := !whiteToMove;
      moveNumber := moveNumber - 1;
      undoLog := undoLog + [entry];
    }

    /** redo_move: the last undone move is popped off the undo log and made
        again; nothing happens when the undo log is empty. */
    method RedoMove() returns (err: Option<Error>)
      requires Valid()
      modifies this, board
      ensures Valid()
      ensures old(undoLog) == [] ==>
        err.None? && State() == old(State()) && board.Pos() == old(board.Pos()) && board.Ix() == old(board.Ix())
      ensures old(undoLog) != [] && MakeOcc(old(board.Pos()), Last(old(undoLog)).move).1.None? ==>
        var m := Last(old(undoLog)).move;
        board.Pos() == Made(old(board.Pos()), m) &&
        State() == AfterRedo(old(State()), MakeOcc(old(board.Pos()), m).0.table[m.pieceMoved]) &&
        UpdatedTo(old(board.Ix()), board.Pos(), MadeAdded(m), MadeRemoved(m), board.Ix(), err)
    {
      if undoLog == [] {
        return None;
      }
      err := RedoLast();
    }

    /** redo_move once the undo log is known not to be empty. */
    method RedoLast() returns (err: Option<Error>)
      requires Valid() && undoLog != []
      modifies this, board
      ensures Valid()
      ensures MakeOcc(old(board.Pos()), Last(old(undoLog)).move).1.None? ==>
        var m := Last(old(undoLog)).move;
        board.Pos() == Made(old(board.Pos()), m) &&
        State() == AfterRedo(old(State()), MakeOcc(old(board.Pos()), m).0.table[m.pieceMoved]) &&
        UpdatedTo(old(board.Ix()), board.Pos(), MadeAdded(m), MadeRemoved(m), board.Ix(), err)
    {
      var entry := PopUndo();
      err := MakeMove(entry.move);
    }

    /** `move = self.undo_log.pop()`: the last undone move leaves the undo log. */
    method PopUndo() returns (entry: Logged)
      requires Valid() && undoLog != []
      modifies this
      ensures Valid() && entry == Last(old(undoLog)) && MoveFits(board.Pos(), entry.move)
      ensures State() == old(State()).(undoLog := Front(old(undoLog)))
    {
      AllFitPrefix(board.Pos(), undoLog);
      entry := undoLog[|undoLog| - 1];
      undoLog := undoLog[..|undoLog| - 1];
    }

    /** Move.get_chess_notation for a move of this game. */
    method Notation(m: Move) returns (r: string)
      requires Valid() && MoveFits(board.Pos(), m)
      requires m.castle.Some? ==> m.castle.value.rookStart.Some?
      ensures ContainsCastle(m) ==> r == CastleNotation(m)
      ensures !ContainsCastle(m) && board.table[m.pieceMoved].kind == Pawn ==>
        r == PawnNotation(DEFAULT_LABELS, board.table, m)
      ensures !ContainsCastle(m) && board.table[m.pieceMoved].kind == King ==>
        r == PieceNotation(DEFAULT_LABELS, board.table, m, Marks("", ""))
      ensures var key := (board.table[m.pieceMoved].kind, board.table[m.pieceMoved].color);
        !ContainsCastle(m) && key.0 !in {King, Pawn} && key in board.pieceLists ==>
        var list := board.pieceLists[key];
        r == PieceNotation(DEFAULT_LABELS, board.table, m,
          if |list| > 1 then DisambiguateFrom(DEFAULT_LABELS, m, list, validMoves, 0, Marks("", "")) else Marks("", ""))
    {
      assert Named(DEFAULT_LABELS, m.start) && Named(DEFAULT_LABELS, m.end);
      var pc := board.table[m.pieceMoved];
      if pc.kind != King && pc.kind != Pawn {
        TrackedKey(pc.kind, pc.color);
      }
      r := GetChessNotation(board.labels, board.table, board.pieceLists, m, validMoves);
    }

    /** make_new_move: a pending undo log is stored as a branch (empty, since
        the list stored is the one then cleared) and cleared; the stalemate
        counter restarts on a pawn move or a capture and grows otherwise; a
        move without a name gets its notation (which raises an AttributeError
        for a castle tuple without the rook's square); then the move is made. */
    method MakeNewMove(m: Move) returns (err: Option<Error>, made: Move)
      requires Valid() && MoveFits(board.Pos(), m)
      modifies this, board
      ensures Valid()
      ensures |board.table| == |old(board.table)|
      ensures m.name != "" ==> made == m
      ensures m.name == "" && !(m.castle.Some? && m.castle.value.rookStart.None?) ==>
        made == m.(name := made.name)
      ensures m.name == "" && m.castle.Some? && m.castle.value.rookStart.None? ==>
        made == m && err == Some(AttributeError) && board.Pos() == old(board.Pos()) &&
        board.Ix() == old(board.Ix()) &&
        State() == BeforeNewMove(old(State()), old(board.table)[m.pieceMoved], m)
      ensures MakeOcc(old(board.Pos()), m).1.Some? && m.name != "" ==>
        err == MakeOcc(old(board.Pos()), m).1 && board.Pos() == MakeOcc(old(board.Pos()), m).0 &&
        board.Ix() == old(board.Ix()) &&
        State() == BeforeNewMove(old(State()), old(board.table)[m.pieceMoved], m)
      ensures MakeOcc(old(board.Pos()), m).1.None? &&
              !(m.name == "" && m.castle.Some? && m.castle.value.rookStart.None?) ==>
        board.Pos() == Made(old(board.Pos()), made) &&
        State() == AfterMake(BeforeNewMove(old(State()), old(board.table)[m.pieceMoved], m),
                             MakeOcc(old(board.Pos()), m).0.table[m.pieceMoved], made) &&
        UpdatedTo(old(board.Ix()), board.Pos(), MadeAdded(made), MadeRemoved(made), board.Ix(), err)
    {
      RecordNewMove(board.table[m.pieceMoved], m);
      err, made := NameAndMake(m);
    }

    /** The rest of make_new_move: a move without a name gets its notation,
        then the move is made. */
    method NameAndMake(m: Move) returns (err: Option<Error>, made: Move)
      requires Valid() && MoveFits(board.Pos(), m)
      modifies this, board
      ensures Valid()
      ensures |board.table| == |old(board.table)|
      ensures m.name != "" ==> made == m
      ensures m.name == "" && !(m.castle.Some? && m.castle.value.rookStart.None?) ==>
        made == m.(name := made.name)
      ensures m.name == "" && m.castle.Some? && m.castle.value.rookStart.None? ==>
        made == m && err == Some(AttributeError) && board.Pos() == old(board.Pos()) &&
        board.Ix() == old(board.Ix()) && State() == old(State())
      ensures MakeOcc(old(board.Pos()), m).1.Some? && m.name != "" ==>
        err == MakeOcc(old(board.Pos()), m).1 && board.Pos() == MakeOcc(old(board.Pos()), m).0 &&
        board.Ix() == old(board.Ix()) && State() == old(State())
      ensures MakeOcc(old(board.Pos()), m).1.None? &&
              !(m.name == "" && m.castle.Some? && m.castle.value.rookStart.None?) ==>
        board.Pos() == Made(old(board.Pos()), made) &&
        State() == AfterMake(old(State()), MakeOcc(old(board.Pos()), m).0.table[m.pieceMoved], made) &&
        UpdatedTo(old(board.Ix()), board.Pos(), MadeAdded(made), MadeRemoved(made), board.Ix(), err)
    {
      if m.name == "" && m.castle.Some? && m.castle.value.rookStart.None? {
        return Some(AttributeError), m;
      }
      ghost var p0 := board.Pos();
      made := NameMove(m);
      assert MakeOcc(p0, made) == MakeOcc(p0, m) && Made(p0, made) == Made(p0, m);
      err := MakeMove(made);
    }

    /** A move without a name is given its chess notation; the name changes
        nothing about what making the move does. */
    method NameMove(m: Move) returns (made: Move)
      requires Valid() && MoveFits(board.Pos(), m)
      requires !(m.name == "" && m.castle.Some? && m.castle.value.rookStart.None?)
      ensures made == m.(name := made.name) && (m.name != "" ==> made == m)
      ensures MoveFits(board.Pos(), made)
      ensures MakeOcc(board.Pos(), made) == MakeOcc(board.Pos(), m) && Made(board.Pos(), made) == Made(board.Pos(), m)
    {
      made := m;
      if m.name == "" {
        var name := Notation(m);
        made := m.(name := name);
        Renamed(board.Pos(), m, name);
      }
    }

    /** The bookkeeping make_new_move does before naming the move, where pc
        is the piece to move. */
    method RecordNewMove(pc: PieceRec, m: Move)
      modifies this
      ensures State() == BeforeNewMove(old(State()), pc, m)
      ensures undoLog == [] || undoLog == old(undoLog)
    {
      if undoLog != [] {
        moveBranches := moveBranches + [[]];
        undoLog := [];
      }
      if pc.kind == Pawn || m.pieceCaptured.Some? {
        stalemateCounter := 0;
      } else {
        stalemateCounter := stalemateCounter + 1;
      }
    }

    /** promote: only a pawn's move can promote (a ValueError otherwise);
        "q", "k", "r" or "b" creates a new queen, knight, rook or bishop of
        the pawn's colour and makes it the move's promotion piece, and any
        other choice leaves the move as it is. */
    method Promote(choice: string, m: Move) returns (r: Result<Move>)
      requires Valid() && m.pieceMoved < |board.table|
      modifies board
      ensures Valid()
      ensures board.Pos().grid == old(board.Pos()).grid && board.Ix() == old(board.Ix())
      ensures r.Err? <==> old(board.table)[m.pieceMoved].kind != Pawn
      ensures r.Err? ==> r.error == ValueError && board.table == old(board.table)
      ensures r.Ok? && PromotionKind(choice).None? ==> r.value == m && board.table == old(board.table)
      ensures r.Ok? && PromotionKind(choice).Some? ==>
        r.value == m.(promotion := Some(|old(board.table)|)) &&
        board.table == old(board.table) +
          [PieceRec(PromotionKind(choice).value, old(board.table)[m.pieceMoved].color, None, None, None)]
    {
      var pawn := board.table[m.pieceMoved];
      if pawn.kind != Pawn {
        return Err(ValueError);
      }
      var kind := PromotionKind(choice);
      if kind.None? {
        return Ok(m);
      }
      ColorNameRoundTrip(pawn.color);
      var rec := NewPiece(kind.value, ColorName(pawn.color));
      var q := board.AddPiece(rec.value);
      FitsGrow(old(board.Pos()), board.Pos(), moveLog);
      FitsGrow(old(board.Pos()), board.Pos(), undoLog);
      return Ok(m.(promotion := Some(q)));
    }

    /** The king of the side to move. */
    function KingToMove(): (q: PieceId)
      requires Valid()
      reads this, board
      ensures q < |board.table|
      ensures whiteToMove ==> Some(q) == board.whiteKing
      ensures !whiteToMove ==> Some(q) == board.blackKing
    {
      if whiteToMove then board.whiteKing.value else board.blackKing.value
    }

    /** get_valid_moves: nothing when the king of the side to move is off the
        board; otherwise the pins and checks on the king are stored, the moves
        are generated as the number of checks allows, king moves into check
        are dropped, and an unmoved king not in check adds its castles, with
        king moves into check dropped once more. The whole effect is the one
        ValidTurn describes. */
    method GetValidMoves() returns (r: Result<seq<Move>>)
      requires Valid()
      modifies this, board
      ensures Valid()
      ensures board.grid == old(board.grid) && board.Ix() == old(board.Ix())
      ensures board.whiteKing == old(board.whiteKing) && board.blackKing == old(board.blackKing)
      ensures var t := ValidTurn(old(board.Pos()), old(board.pieces), old(KingToMove()), old(whiteToMove),
                                 old(moveNumber), old(enpassant));
        (t.KingOff? ==> r == Ok([]) && board.table == old(board.table) && State() == old(State())) &&
        (t.Scanned? ==> r == t.moves && board.table == t.table &&
                        State() == old(State()).(pins := t.pins, checks := t.checks, inCheck := t.inCheck))
    {
      var king := KingToMove();
      var sq := board.table[king].square;
      if sq.None? {
        return Ok([]);
      }
      ghost var g0 := State();
      r := ScanMoves(king, sq.value);
      KeepsState(g0);
    }

    /** get_valid_moves once the king of the side to move is known to stand
        on kc. */
    method ScanMoves(king: PieceId, kc: Coord) returns (r: Result<seq<Move>>)
      requires Valid() && king < |board.table|
      modifies this, board
      ensures Valid()
      ensures board.grid == old(board.grid) && board.Ix() == old(board.Ix())
      ensures board.whiteKing == old(board.whiteKing) && board.blackKing == old(board.blackKing)
      ensures var t := ScanTurn(old(board.Pos()), old(board.pieces), king, kc, old(whiteToMove),
                                old(moveNumber), old(enpassant));
        r == t.moves && board.table == t.table && pins == t.pins && checks == t.checks && inCheck == t.inCheck
      ensures Keeps(old(State()))
    {
      var f := GetPinsAndChecks(king, kc);
      pins, checks := f.pins, f.checks;
      if |checks| > 1 {
        r := KingOnlyMoves(king, kc);
      } else {
        r := RestMoves(king, kc);
      }
    }

    /** get_valid_moves in double check: only the king's own moves, then the
        last phase. */
    method KingOnlyMoves(king: PieceId, kc: Coord) returns (r: Result<seq<Move>>)
      requires king < |board.table|
      modifies this
      ensures inCheck && unchanged(board)
      ensures var t := match KingKnightMoves(board.Pos(), king, moveNumber, [])
                       case Err(e) => Scanned(board.table, pins, checks, true, Err(e))
                       case Ok(ms) => ValidMoves.Finish(board.Pos(), king, kc, moveNumber, pins, checks, true, ms);
        Scanned(board.table, pins, checks, inCheck, r) == t
      ensures State() == old(State()).(inCheck := true)
    {
      inCheck := true;
      r := GetKingAndKnightMoves(king, []);
      if r.Err? {
        return;
      }
      r := FinishMoves(king, kc, r.value);
    }

    /** get_valid_moves with its pins and checks found and at most one
        check: get_all_moves, then the filter for a single check. */
    method RestMoves(king: PieceId, kc: Coord) returns (r: Result<seq<Move>>)
      requires Valid() && king < |board.table| && |checks| <= 1
      modifies this, board
      ensures Valid()
      ensures board.grid == old(board.grid) && board.Ix() == old(board.Ix())
      ensures board.whiteKing == old(board.whiteKing) && board.blackKing == old(board.blackKing)
      ensures var t := ScanRest(old(board.Pos()), old(board.pieces), king, kc, old(whiteToMove),
                                old(moveNumber), old(enpassant), old(pins), old(checks));
        r == t.moves && board.table == t.table && pins == t.pins && checks == t.checks && inCheck == t.inCheck
      ensures Keeps(old(State()))
    {
      inCheck := checks != [];
      r := GetAllMoves();
      if r.Err? {
        return;
      }
      if checks != [] {
        r := SingleCheckMoves(king, kc, r.value);
      } else {
        r := FinishMoves(king, kc, r.value);
      }
    }

    /** The single-check branch of get_valid_moves, on the moves of
        get_all_moves: the checking piece is read off the check's square;
        moves other than the king's must end on one of the squares that
        capture a knight or block the line, then Finish follows. */
    method SingleCheckMoves(king: PieceId, kc: Coord, ms: seq<Move>) returns (r: Result<seq<Move>>)
      requires king < |board.table| && |checks| == 1 && inCheck
      ensures Scanned(board.table, pins, checks, true, r) == SingleCheck(board.Pos(), king, kc, moveNumber, pins, checks, ms)
    {
      var checkSquare, checkDirection := checks[0].0, checks[0].1;
      var checking := PieceAt(board.Pos(), checkSquare);
      if checking.None? {
        return Err(AttributeError);
      }
      var validSquares := [checkSquare];
      if checking.value.kind != Knight {
        validSquares := CheckLine(board.Pos(), kc, checkDirection, checkSquare);
      }
      var moves := RemoveFailing(ms, Blocks(board.table, validSquares));
      r := FinishMoves(king, kc, moves);
    }

    /** The end of get_valid_moves: king moves into check are dropped; an
        unmoved king not in check then adds its castles, and king moves into
        check are dropped again. */
    method FinishMoves(king: PieceId, kc: Coord, ms: seq<Move>) returns (r: Result<seq<Move>>)
      requires king < |board.table|
      ensures Scanned(board.table, pins, checks, inCheck, r) ==
        ValidMoves.Finish(board.Pos(), king, kc, moveNumber, pins, checks, inCheck, ms)
    {
      var moves := RemoveFailing(ms, KingSafe(board.Pos(), king));
      if !HasMoved(board.table[king]) && !inCheck {
        r := GetCastleMoves(king, kc, moves);
        if r.Err? {
          return;
        }
        moves := RemoveFailing(r.value, KingSafe(board.Pos(), king));
      }
      r := Ok(moves);
    }

    /** get_king_and_knight_moves: a piece on the board and not pinned gets,
        direction by direction, a move to every square one step away that
        exists and holds no piece of its colour. */
    method GetKingAndKnightMoves(q: PieceId, moves: seq<Move>) returns (r: Result<seq<Move>>)
      requires q < |board.table|
      ensures r == KingKnightMoves(board.Pos(), q, moveNumber, moves)
    {
      var p := board.Pos();
      var piece := board.table[q];
      if !IsOnBoard(piece) || IsPinned(piece) {
        return Ok(moves);
      }
      var start := piece.square.value;
      var dirs := Directions(piece.kind, piece.color);
      var acc := moves;
      for i := 0 to |dirs|
        invariant Emit(p, start, LeaperEnds(p, start, piece.color, dirs[..i]), moveNumber, moves) == Ok(acc)
      {
        assert dirs[..i + 1][..i] == dirs[..i];
        var end := Step(start, dirs[i], 1);
        ghost var before := LeaperEnds(p, start, piece.color, dirs[..i]);
        assert LeaperEnds(p, start, piece.color, dirs[..i + 1]) ==
          before + if InBounds(p.files, p.ranks, end) && !HasFriendlyPiece(p, end, piece.color) then [end] else [];
        assert before + [] == before;
        if InBounds(p.files, p.ranks, end) && !HasFriendlyPiece(p, end, piece.color) {
          var m := NewMove(p, start, end, moveNumber, None, None);
          EmitSnoc(p, start, LeaperEnds(p, start, piece.color, dirs[..i]), end, moveNumber, moves, acc);
          if m.Err? {
            LeaperEndsExact(p, start, piece.color, dirs);
            assert dirs[i] in dirs && end in LeaperEnds(p, start, piece.color, dirs);
            return Err(m.error);
          }
          acc := acc + [m.value];
        }
      }
      assert dirs[..|dirs|] == dirs;
      return Ok(acc);
    }

    /** find_moves_on_path: for every direction of the piece it may move
        along, the walk of WalkPath, for steps up to the larger side of the
        board. */
    method FindMovesOnPath(q: PieceId, moves: seq<Move>) returns (r: Result<seq<Move>>)
      requires q < |board.table|
      ensures r == PathMoves(board.Pos(), q, moveNumber, moves)
    {
      var piece := board.table[q];
      if !IsOnBoard(piece) {
        return Ok(moves);
      }
      var pathRange := if board.files >= board.ranks then board.files else board.ranks;
      r := WalkPaths(board.Pos(), piece, piece.square.value, Directions(piece.kind, piece.color), pathRange,
                     moveNumber, moves);
    }

    /** get_pawn_moves: the pushes, the two diagonal captures, then the
        en-passant capture; a pawn off the board cannot give its
        coordinates. */
    method GetPawnMoves(q: PieceId, moves: seq<Move>) returns (r: Result<seq<Move>>)
      requires q < |board.table|
      ensures r == PawnMoves(board.Pos(), q, moveNumber, enpassant, moves)
    {
      var p := board.Pos();
      var pawn := board.table[q];
      var coords := GetCoords(pawn);
      if coords.None? {
        return Err(ValueError);
      }
      var start := coords.value;
      r := PushMoves(p, pawn, start, moveNumber, moves);
      if r.Err? {
        return r;
      }
      r := CaptureMoves(p, pawn, start, moveNumber, r.value);
      if r.Err? {
        return r;
      }
      r := EnPassantMove(p, pawn, start, enpassant, moveNumber, r.value);
    }

    /** The generator of a piece's kind, as get_all_moves chooses it. */
    method GeneratePieceMoves(q: PieceId, moves: seq<Move>) returns (r: Result<seq<Move>>)
      requires q < |board.table|
      ensures r == PieceMoves(board.Pos(), q, moveNumber, enpassant, moves)
    {
      var kind := board.table[q].kind;
      if kind == Pawn {
        r := GetPawnMoves(q, moves);
      } else if kind == King || kind == Knight {
        r := GetKingAndKnightMoves(q, moves);
      } else {
        r := FindMovesOnPath(q, moves);
      }
    }

    /** get_pins_and_checks for the king `king` standing (or imagined) on kc:
        the eight lines out from the square, then the knight's jumps. */
    method GetPinsAndChecks(king: PieceId, kc: Coord) returns (f: Found)
      requires king < |board.table|
      ensures f == PinsAndChecks(board.Pos(), king, kc)
    {
      var p := board.Pos();
      var color := board.table[king].color;
      var limit := if board.files <= board.ranks then board.files else board.ranks;
      var directions := HORIZONTAL + VERTICAL + DIAGONAL;
      var pinsFound: seq<Pin> := [];
      var checksFound: seq<Pin> := [];
      for k := 0 to |directions|
        invariant ScanAll(p, king, color, kc, directions[..k]) == Found(pinsFound, checksFound)
      {
        assert directions[..k + 1][..k] == directions[..k];
        var h := ScanLine(p, king, color, kc, directions[k], limit);
        match h
        case NoHit =>
        case CheckHit(c) => checksFound := checksFound + [c];
        case PinHit(c) => pinsFound := pinsFound + [c];
      }
      assert directions[..|directions|] == directions;
      ghost var lineChecks := checksFound;
      for k := 0 to |KNIGHT|
        invariant checksFound == lineChecks + KnightChecks(p, color, kc, KNIGHT[..k])
      {
        assert KNIGHT[..k + 1][..k] == KNIGHT[..k];
        var d := KNIGHT[k];
        var c := Step(kc, d, 1);
        if InBounds(p.files, p.ranks, c) && HasEnemyPiece(p, c, color) && PieceAt(p, c).value.kind == Knight {
          checksFound := checksFound + [(c, d)];
        }
      }
      assert KNIGHT[..|KNIGHT|] == KNIGHT;
      return Found(pinsFound, checksFound);
    }

    /** get_castle_moves: every move of the list that moves a king gives,
        side by side, the castling moves of CastleSideMoves, appended to the
        list. */
    method GetCastleMoves(king: PieceId, kc: Coord, moves: seq<Move>) returns (r: Result<seq<Move>>)
      requires king < |board.table|
      ensures r == CastleMoves(board.Pos(), king, kc, moveNumber, moves)
    {
      var p := board.Pos();
      var acc := moves;
      for i := 0 to |moves|
        invariant CastlesFrom(p, king, kc, moveNumber, moves, i, acc) == CastleMoves(p, king, kc, moveNumber, moves)
      {
        var m := moves[i];
        if IsKingMove(p, m) {
          var extra: seq<Move> := [];
          for s := 0 to |HORIZONTAL|
            invariant CastleSides(p, king, kc, moveNumber, m, HORIZONTAL, s, extra) ==
              CastleSides(p, king, kc, moveNumber, m, HORIZONTAL, 0, [])
          {
            var side := CastleSideMoves(p, king, kc, moveNumber, m, HORIZONTAL[s].0);
            if side.Err? {
              return Err(side.error);
            }
            extra := extra + side.value;
          }
          acc := acc + extra;
        } else {
          assert acc + [] == acc;
        }
      }
      return Ok(acc);
    }

    /** Every attribute that move generation leaves alone is as in g. */
    predicate Keeps(g: Game)
      reads this
    {
      whiteToMove == g.whiteToMove && moveLog == g.moveLog && undoLog == g.undoLog &&
      moveBranches == g.moveBranches && moveNumber == g.moveNumber &&
      gameover == g.gameover && checkmate == g.checkmate &&
      stalemate == g.stalemate && stalemateCounter == g.stalemateCounter &&
      enpassant == g.enpassant && validMoves == g.validMoves
    }

    /** ... which makes the state g with this object's pins, checks and
        in-check flag. */
    lemma KeepsState(g: Game)
      requires Keeps(g)
      ensures State() == g.(pins := pins, checks := checks, inCheck := inCheck)
    {
    }

    /** is_piece_pinned: a piece other than the king clears its pin flag,
        then takes the direction of the last pin on its square, which leaves
        the pins list. */
    method IsPiecePinned(q: PieceId)
      requires Valid() && q < |board.table|
      modifies this, board
      ensures Valid()
      ensures board.grid == old(board.grid) && board.Ix() == old(board.Ix())
      ensures board.whiteKing == old(board.whiteKing) && board.blackKing == old(board.blackKing)
      ensures |board.table| == |old(board.table)|
      ensures (board.table[q], pins) == PinUpdate(old(board.table)[q], old(pins))
      ensures board.table == old(board.table)[q := board.table[q]]
      ensures Keeps(old(State())) && checks == old(checks) && inCheck == old(inCheck)
    {
      var pc := board.table[q];
      if pc.kind == King {
        return;
      }
      ghost var p0 := board.Pos();
      // the flag is cleared, then set from the pin found, if any
      var j := LastPin(pc.square);
      var dir := if j.Some? then Some(pins[j.value].1) else None;
      assert PinUpdate(pc, pins).0 == pc.(pinDirection := dir);
      board.SetPinDirection(q, dir);
      if j.Some? {
        pins := RemoveFirst(pins, pins[j.value]);
      }
      FitsGrow(p0, board.Pos(), moveLog);
      FitsGrow(p0, board.Pos(), undoLog);
    }

    /** The search of is_piece_pinned: the pins list walked from its end
        until a pin on square sq turns up. */
    method LastPin(sq: Option<Coord>) returns (j: Option<nat>)
      ensures j == LastPinAt(pins, sq)
    {
      var i := |pins|;
      while i > 0 && sq != Some(pins[i - 1].0)
        invariant 0 <= i <= |pins|
        invariant LastPinAt(pins, sq) == LastPinAt(pins[..i], sq)
      {
        assert pins[..i - 1] == pins[..i][..i - 1];
        i := i - 1;
      }
      if i > 0 {
        assert pins[..i][..i - 1] == pins[..i - 1];
        j := Some(i - 1);
      } else {
        j := None;
      }
    }

    /** One turn of the loop of get_all_moves, for the piece q. */
    method AddPieceMoves(q: PieceId, moves: seq<Move>) returns (g: Result<seq<Move>>)
      requires Valid() && q < |board.table|
      modifies this, board
      ensures Valid()
      ensures board.grid == old(board.grid) && board.Ix() == old(board.Ix())
      ensures board.whiteKing == old(board.whiteKing) && board.blackKing == old(board.blackKing)
      ensures Gen(board.table, pins, g) ==
        MovesOfPiece(old(board.Pos()), q, whiteToMove, moveNumber, enpassant, old(pins), moves)
      ensures State() == old(State()).(pins := pins)
    {
      var pc := board.table[q];
      if !ToMove(pc, whiteToMove) {
        return Ok(moves);
      }
      FlagPin(q);
      assert board.Pos() == old(board.Pos()).(table := board.table);
      g := GeneratePieceMoves(q, moves);
    }

    /** The pin flag get_all_moves sets before generating: is_piece_pinned
        for every piece but the king. */
    method FlagPin(q: PieceId)
      requires Valid() && q < |board.table|
      modifies this, board
      ensures Valid()
      ensures board.grid == old(board.grid) && board.Ix() == old(board.Ix())
      ensures board.whiteKing == old(board.whiteKing) && board.blackKing == old(board.blackKing)
      ensures board.table == old(board.table)[q := PinUpdate(old(board.table)[q], old(pins)).0]
      ensures pins == PinUpdate(old(board.table)[q], old(pins)).1
      ensures State() == old(State()).(pins := pins)
    {
      if board.table[q].kind != King {
        ghost var g0 := State();
        IsPiecePinned(q);
        KeepsState(g0);
      } else {
        assert old(board.table)[q := board.table[q]] == old(board.table);
      }
    }

    /** get_all_moves: every piece of the board's list that stands on the
        board and belongs to the side to move has its pin flag set (the king
        excepted) and its moves added by the generator of its kind. */
    method GetAllMoves() returns (r: Result<seq<Move>>)
      requires Valid()
      modifies this, board
      ensures Valid()
      ensures board.grid == old(board.grid) && board.Ix() == old(board.Ix())
      ensures board.whiteKing == old(board.whiteKing) && board.blackKing == old(board.blackKing)
      ensures Gen(board.table, pins, r) ==
        AllMovesOf(old(board.Pos()), old(board.pieces), old(whiteToMove), old(moveNumber), old(enpassant), old(pins))
      ensures State() == old(State()).(pins := pins)
    {
      ghost var p0 := board.Pos();
      ghost var pins0 := pins;
      ghost var white, n, ep := whiteToMove, moveNumber, enpassant;
      var ps := board.pieces;
      var moves: seq<Move> := [];
      var i := 0;
      while i < |ps|
        invariant 0 <= i <= |ps| && ps == board.pieces
        invariant Valid()
        invariant board.grid == p0.grid && board.Ix() == old(board.Ix())
        invariant board.whiteKing == old(board.whiteKing) && board.blackKing == old(board.blackKing)
        invariant State() == old(State()).(pins := pins)
        invariant Gen(board.table, pins, Ok(moves)) == AllMovesOf(p0, ps[..i], white, n, ep, pins0)
      {
        var g := AllMovesTurn(ps, i, moves, p0, pins0);
        if g.Err? {
          return g;
        }
        moves := g.value;
        i := i + 1;
      }
      assert ps[..i] == ps;
      r := Ok(moves);
    }

    /** One turn of the loop of get_all_moves: the moves of piece ps[i] are
        added to those of the pieces before it; an error ends the loop with
        what get_all_moves over the whole list gives. */
    method AllMovesTurn(ps: seq<PieceId>, i: nat, moves: seq<Move>, ghost p0: Position, ghost pins0: seq<Pin>)
      returns (g: Result<seq<Move>>)
      requires Valid() && i < |ps| && ps == board.pieces && board.Pos() == p0.(table := board.table)
      requires forall j :: 0 <= j < |ps| ==> ps[j] < |p0.table|
      requires Gen(board.table, pins, Ok(moves)) == AllMovesOf(p0, ps[..i], whiteToMove, moveNumber, enpassant, pins0)
      modifies this, board
      ensures Valid()
      ensures board.grid == old(board.grid) && board.Ix() == old(board.Ix())
      ensures board.whiteKing == old(board.whiteKing) && board.blackKing == old(board.blackKing)
      ensures State() == old(State()).(pins := pins)
      ensures Gen(board.table, pins, g) == AllMovesOf(p0, ps[..i + 1], whiteToMove, moveNumber, enpassant, pins0)
      ensures g.Err? ==> Gen(board.table, pins, g) == AllMovesOf(p0, ps, whiteToMove, moveNumber, enpassant, pins0)
    {
      AllMovesStep(p0, ps, i, whiteToMove, moveNumber, enpassant, pins0, board.table, pins, moves);
      g := AddPieceMoves(ps[i], moves);
      if g.Err? {
        AllMovesErrStops(p0, ps, i + 1, whiteToMove, moveNumber, enpassant, pins0);
      }
    }

    /** find_mate on the valid moves found. */
    method FindMate(moves: seq<Move>)
      requires Valid()
      modifies this
      ensures Valid()
      ensures State() == AfterMate(old(State()), moves != [])
    {
      if moves == [] {
        if inCheck {
          checkmate := true;
        } else {
          stalemate := true;
        }
      } else if stalemateCounter > 100 {
        stalemate := true;
      }
      gameover := if checkmate || stalemate then true else false;
    }
  }

  /** The PROMOTION table of promote: the choice letters and the kinds they
      create. */
  function PromotionKind(choice: string): (r: Option<Kind>)
    ensures r.Some? <==> choice in {"q", "k", "r", "b"}
    ensures r.Some? ==> r.value in {Queen, Knight, Rook, Bishop}
    ensures choice == "q" ==> r == Some(Queen)
    ensures choice == "k" ==> r == Some(Knight)
    ensures choice == "r" ==> r == Some(Rook)
    ensures choice == "b" ==> r == Some(Bishop)
  {
    if choice == "q" then Some(Queen)
    else if choice == "k" then Some(Knight)
    else if choice == "r" then Some(Rook)
    else if choice == "b" then Some(Bishop)
    else None
  }
}
