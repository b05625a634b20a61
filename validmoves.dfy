/** get_all_moves and get_valid_moves of chess_engine.py as functions of the
    position: the moves of the side to move, narrowed by the checks on its
    king, with castling added when the king has not moved. */
module ValidMoves {
  import opened Wrappers
  import opened Pieces
  import opened Occupancy
  import opened Moves
  import opened Movegen
  import opened Checks
  import opened Castling
  import opened Removal

  /** The generator a piece's kind selects. */
  function PieceMoves(p: Position, q: PieceId, n: int, ep: Option<Coord>, moves: seq<Move>): Result<seq<Move>>
    requires q < |p.table|
  {
    match p.table[q].kind
    case Pawn => PawnMoves(p, q, n, ep, moves)
    case King => KingKnightMoves(p, q, n, moves)
    case Knight => KingKnightMoves(p, q, n, moves)
    case _ => PathMoves(p, q, n, moves)
  }

  /** Every generator keeps the list it is given, adds sound moves, and
      adds only moves from the piece's own square. */
  lemma PieceMovesSound(p: Position, q: PieceId, n: int, ep: Option<Coord>, moves: seq<Move>)
    requires Shaped(p) && Closed(p) && Placed(p) && q < |p.table| && AllSound(p, moves)
    requires ep.Some? ==> ep.value in p.grid
    ensures var r := PieceMoves(p, q, n, ep, moves);
      r.Ok? ==>
        AllSound(p, r.value) && |moves| <= |r.value| && r.value[..|moves|] == moves &&
        forall i :: |moves| <= i < |r.value| ==> p.table[q].square == Some(r.value[i].start)
  {
    match p.table[q].kind
    case Pawn =>
      PawnTargets(p, q, n, ep, moves);
      var r := PawnMoves(p, q, n, ep, moves);
      if r.Ok? {
        forall i | |moves| <= i < |r.value| ensures p.table[q].square == Some(r.value[i].start) {
          assert PawnStep(p, p.table[q], ep, r.value[i]);
        }
      }
    case King => KingKnightTargets(p, q, n, moves);
    case Knight => KingKnightTargets(p, q, n, moves);
    case _ => PathTargets(p, q, n, moves);
  }

  // ---- get_all_moves ----

  /** What get_all_moves leaves behind: the piece table with the pin flags
      it set, the pins list it consumed, and the moves or the error raised. */
  datatype Gen = Gen(table: seq<PieceRec>, pins: seq<Pin>, moves: Result<seq<Move>>)

  /** A piece on the board of the colour whose turn it is. */
  predicate ToMove(pc: PieceRec, white: bool) {
    IsOnBoard(pc) && (pc.color == White) == white
  }

  /** Two tables that differ at most in pin flags. */
  ghost predicate PinsOnly(t: seq<PieceRec>, u: seq<PieceRec>) {
    |t| == |u| && forall k :: 0 <= k < |t| ==> u[k] == t[k].(pinDirection := u[k].pinDirection)
  }

  /** One turn of the loop of get_all_moves: a piece of the side to move has
      its pin flag set (a king keeps its own) and then its moves added. */
  function MovesOfPiece(p: Position, q: PieceId, white: bool, n: int, ep: Option<Coord>,
                        pins: seq<Pin>, moves: seq<Move>): Gen
    requires q < |p.table|
  {
    var pc := p.table[q];
    if !ToMove(pc, white) then Gen(p.table, pins, Ok(moves))
    else
      var u := PinUpdate(pc, pins);
      var t := p.table[q := u.0];
      Gen(t, u.1, PieceMoves(p.(table := t), q, n, ep, moves))
  }

  /** get_all_moves over the pieces list, one piece at a time from the start;
      the first error raised ends the loop. */
  function AllMovesOf(p: Position, pieces: seq<PieceId>, white: bool, n: int, ep: Option<Coord>,
                      pins: seq<Pin>): (g: Gen)
    requires forall i :: 0 <= i < |pieces| ==> pieces[i] < |p.table|
    ensures |g.table| == |p.table|
    decreases |pieces|
  {
    if pieces == [] then Gen(p.table, pins, Ok([]))
    else
      var g := AllMovesOf(p, pieces[..|pieces| - 1], white, n, ep, pins);
      if g.moves.Err? then g
      else MovesOfPiece(p.(table := g.table), pieces[|pieces| - 1], white, n, ep, g.pins, g.moves.value)
  }

  /** get_all_moves over one more piece: the turn for that piece runs on
      what the earlier pieces left, unless they raised. */
  lemma AllMovesStep(p: Position, pieces: seq<PieceId>, i: nat, white: bool, n: int,
                     ep: Option<Coord>, pins: seq<Pin>, t: seq<PieceRec>, pins1: seq<Pin>, moves: seq<Move>)
    requires forall j :: 0 <= j < |pieces| ==> pieces[j] < |p.table|
    requires i < |pieces| && Gen(t, pins1, Ok(moves)) == AllMovesOf(p, pieces[..i], white, n, ep, pins)
    ensures AllMovesOf(p, pieces[..i + 1], white, n, ep, pins) ==
      MovesOfPiece(p.(table := t), pieces[i], white, n, ep, pins1, moves)
  {
    assert pieces[..i + 1][..i] == pieces[..i];
  }

  /** Once a piece's generator raises, get_all_moves ends with that error:
      the pieces after it change nothing. */
  lemma {:induction false} AllMovesErrStops(p: Position, pieces: seq<PieceId>, k: nat, white: bool, n: int,
                                            ep: Option<Coord>, pins: seq<Pin>)
    requires forall i :: 0 <= i < |pieces| ==> pieces[i] < |p.table|
    requires k <= |pieces| && AllMovesOf(p, pieces[..k], white, n, ep, pins).moves.Err?
    ensures AllMovesOf(p, pieces, white, n, ep, pins) == AllMovesOf(p, pieces[..k], white, n, ep, pins)
    decreases |pieces|
  {
    if k == |pieces| {
      assert pieces[..k] == pieces;
    } else {
      var front := pieces[..|pieces| - 1];
      assert front[..k] == pieces[..k];
      AllMovesErrStops(p, front, k, white, n, ep, pins);
    }
  }

  /** The predicates of a position that do not read pin flags. */
  lemma PinsOnlyKeeps(p: Position, t: seq<PieceRec>)
    requires PinsOnly(p.table, t)
    ensures Shaped(p) ==> Shaped(p.(table := t))
    ensures Closed(p) ==> Closed(p.(table := t))
    ensures Placed(p) ==> Placed(p.(table := t))
    ensures Linked(p) ==> Linked(p.(table := t))
    ensures forall c :: HasPiece(p, c) == HasPiece(p.(table := t), c)
  {
    var p2 := p.(table := t);
    assert forall q :: 0 <= q < |t| ==> t[q].square == p.table[q].square;
    forall c ensures HasPiece(p, c) == HasPiece(p2, c) {
      if Occupant(p, c).Some? && Occupant(p, c).value < |t| {
        assert PieceAt(p2, c) == Some(t[Occupant(p, c).value]);
      }
    }
  }

  /** Every move of ms leaves the square of one of the listed pieces of the
      side to move. */
  ghost predicate FromPieces(p: Position, pieces: seq<PieceId>, white: bool, ms: seq<Move>) {
    forall i :: 0 <= i < |ms| ==> FromPiece(p, pieces, white, ms[i].start)
  }

  /** Square c holds one of the listed pieces of the side to move. */
  ghost predicate FromPiece(p: Position, pieces: seq<PieceId>, white: bool, c: Coord) {
    exists x: PieceId :: x in pieces && x < |p.table| && ToMove(p.table[x], white) && p.table[x].square == Some(c)
  }

  /** What get_all_moves leaves of the table: only pin flags change, and only
      those of pieces of the side to move other than the king. */
  ghost predicate FlagsOnly(t: seq<PieceRec>, u: seq<PieceRec>, white: bool) {
    PinsOnly(t, u) &&
    forall k :: 0 <= k < |t| && !(ToMove(t[k], white) && t[k].kind != King) ==> u[k] == t[k]
  }

  /** get_all_moves changes nothing but the pin flags of the pieces of the
      side to move other than the king; every move it returns is sound and
      leaves the square of one of the listed pieces of the side to move. */
  lemma {:induction false} AllMovesSound(p: Position, pieces: seq<PieceId>, white: bool, n: int,
                                         ep: Option<Coord>, pins: seq<Pin>)
    requires Shaped(p) && Closed(p) && Placed(p)
    requires forall i :: 0 <= i < |pieces| ==> pieces[i] < |p.table|
    requires ep.Some? ==> ep.value in p.grid
    ensures var g := AllMovesOf(p, pieces, white, n, ep, pins);
      FlagsOnly(p.table, g.table, white) &&
      (g.moves.Ok? ==> AllSound(p, g.moves.value) && FromPieces(p, pieces, white, g.moves.value))
    decreases |pieces|
  {
    if pieces != [] {
      var front := pieces[..|pieces| - 1];
      AllMovesSound(p, front, white, n, ep, pins);
      AllMovesLast(p, front, pieces[|pieces| - 1], white, n, ep, pins);
      assert front + [pieces[|pieces| - 1]] == pieces;
    }
  }

  /** The step of AllMovesSound: what it promises for the first pieces
      carries over to one more. */
  lemma AllMovesLast(p: Position, front: seq<PieceId>, q: PieceId, white: bool, n: int,
                     ep: Option<Coord>, pins: seq<Pin>)
    requires Shaped(p) && Closed(p) && Placed(p) && q < |p.table|
    requires forall i :: 0 <= i < |front| ==> front[i] < |p.table|
    requires ep.Some? ==> ep.value in p.grid
    requires var g := AllMovesOf(p, front, white, n, ep, pins);
      FlagsOnly(p.table, g.table, white) &&
      (g.moves.Ok? ==> AllSound(p, g.moves.value) && FromPieces(p, front, white, g.moves.value))
    ensures var g := AllMovesOf(p, front + [q], white, n, ep, pins);
      FlagsOnly(p.table, g.table, white) &&
      (g.moves.Ok? ==> AllSound(p, g.moves.value) && FromPieces(p, front + [q], white, g.moves.value))
  {
    var pieces := front + [q];
    assert pieces[..|pieces| - 1] == front;
    var g := AllMovesOf(p, front, white, n, ep, pins);
    if g.moves.Ok? {
      assert AllMovesOf(p, pieces, white, n, ep, pins) ==
        MovesOfPiece(p.(table := g.table), q, white, n, ep, g.pins, g.moves.value);
      TurnSound(p, front, q, white, n, ep, g);
    } else {
      assert AllMovesOf(p, pieces, white, n, ep, pins) == g;
    }
  }

  /** One turn of get_all_moves keeps what AllMovesSound promises, with the
      turn's piece added to the list. */
  lemma TurnSound(p: Position, front: seq<PieceId>, q: PieceId, white: bool, n: int, ep: Option<Coord>, g: Gen)
    requires Shaped(p) && Closed(p) && Placed(p) && q < |p.table|
    requires ep.Some? ==> ep.value in p.grid
    requires FlagsOnly(p.table, g.table, white)
    requires g.moves.Ok? && AllSound(p, g.moves.value) && FromPieces(p, front, white, g.moves.value)
    ensures var h := MovesOfPiece(p.(table := g.table), q, white, n, ep, g.pins, g.moves.value);
      FlagsOnly(p.table, h.table, white) &&
      (h.moves.Ok? ==> AllSound(p, h.moves.value) && FromPieces(p, front + [q], white, h.moves.value))
  {
    var pieces := front + [q];
    var p1 := p.(table := g.table);
    PinsOnlyKeeps(p, g.table);
    FromPiecesWiden(p, front, q, white, g.moves.value);
    var pc := p1.table[q];
    assert pc == p.table[q].(pinDirection := pc.pinDirection);
    if ToMove(pc, white) {
      var u := PinUpdate(pc, g.pins);
      var t := p1.table[q := u.0];
      var p2 := p1.(table := t);
      PinsOnlyKeeps(p1, t);
      assert PinsOnly(p.table, t);
      assert AllSound(p2, g.moves.value);
      PieceMovesSound(p2, q, n, ep, g.moves.value);
      var r := PieceMoves(p2, q, n, ep, g.moves.value);
      if r.Ok? {
        FromPiecesExtend(p, pieces, q, white, g.moves.value, r.value);
        assert AllSound(p, r.value);
      }
    } else {
      assert MovesOfPiece(p1, q, white, n, ep, g.pins, g.moves.value) == Gen(g.table, g.pins, g.moves);
    }
  }

  lemma FromPiecesWiden(p: Position, front: seq<PieceId>, q: PieceId, white: bool, ms: seq<Move>)
    requires FromPieces(p, front, white, ms)
    ensures FromPieces(p, front + [q], white, ms)
  {
    forall i | 0 <= i < |ms|
      ensures FromPiece(p, front + [q], white, ms[i].start)
    {
      assert FromPiece(p, front, white, ms[i].start);
      var w: PieceId :| w in front && w < |p.table| && ToMove(p.table[w], white) && p.table[w].square == Some(ms[i].start);
      assert w in front + [q];
    }
  }

  /** Moves appended from the square of a listed piece of the side to move. */
  lemma FromPiecesExtend(p: Position, pieces: seq<PieceId>, q: PieceId, white: bool, a: seq<Move>, ms: seq<Move>)
    requires FromPieces(p, pieces, white, a)
    requires q in pieces && q < |p.table| && ToMove(p.table[q], white)
    requires |a| <= |ms| && ms[..|a|] == a
    requires forall i :: |a| <= i < |ms| ==> p.table[q].square == Some(ms[i].start)
    ensures FromPieces(p, pieces, white, ms)
  {
    forall i | 0 <= i < |ms|
      ensures FromPiece(p, pieces, white, ms[i].start)
    {
      if i < |a| {
        assert ms[i] == ms[..|a|][i] == a[i];
      }
    }
  }

  // ---- Blocking a single check ----

  /** The squares a move may end on to answer a check from `target` along d:
      the squares of the line from the king's own square (step 0) outward,
      those that exist, up to and including the checking square. */
  function BlockSquares(p: Position, kc: Coord, d: Direction, target: Coord, i: nat, limit: nat): seq<Coord>
    decreases limit - i
  {
    if i >= limit then []
    else
      var c := Step(kc, d, i);
      if !InBounds(p.files, p.ranks, c) then BlockSquares(p, kc, d, target, i + 1, limit)
      else if c == target then [c]
      else [c] + BlockSquares(p, kc, d, target, i + 1, limit)
  }

  /** The block squares lie on the line and exist, and they reach the
      checking square when it lies on the line within range. */
  lemma {:induction false} BlockSquaresOnLine(p: Position, kc: Coord, d: Direction, target: Coord,
                                              i: nat, limit: nat)
    ensures forall c :: c in BlockSquares(p, kc, d, target, i, limit) ==>
      InBounds(p.files, p.ranks, c) && exists k :: i <= k < limit && c == Step(kc, d, k)
    ensures forall k :: i <= k < limit && target == Step(kc, d, k) && InBounds(p.files, p.ranks, target) ==>
      target in BlockSquares(p, kc, d, target, i, limit)
    decreases limit - i
  {
    if i < limit {
      BlockSquaresOnLine(p, kc, d, target, i + 1, limit);
    }
  }

  // ---- get_valid_moves ----

  /** The piece table names a king for this id. */
  predicate IsKingPiece(t: seq<PieceRec>, q: PieceId) {
    q < |t| && t[q].kind == King
  }

  /** The test of the removal loops after the check handling: a king move
      stays when the king would find no check on its end square. */
  function KingSafe(p: Position, king: PieceId): Keep {
    (q: PieceId, e: Coord) =>
      !IsKingPiece(p.table, q) || (king < |p.table| && PinsAndChecks(p, king, e).checks == [])
  }

  /** The test of the removal loop under a single check: king moves stay,
      other moves must end on a block square. */
  function Blocks(t: seq<PieceRec>, vs: seq<Coord>): Keep {
    (q: PieceId, e: Coord) => IsKingPiece(t, q) || e in vs
  }

  /** The effect of get_valid_moves: nothing when the king is off the board;
      otherwise the piece table with its pin flags, the pins and checks
      found, whether the king is in check, and the moves or the error
      raised. */
  datatype Turn =
    | KingOff
    | Scanned(table: seq<PieceRec>, pins: seq<Pin>, checks: seq<Pin>, inCheck: bool, moves: Result<seq<Move>>)

  /** The last phase of get_valid_moves: drop king moves into check, then,
      for an unmoved king not in check, add castling and drop again. */
  function Finish(p: Position, king: PieceId, kc: Coord, n: int, pins: seq<Pin>, checks: seq<Pin>,
                  inCheck: bool, ms: seq<Move>): Turn
    requires king < |p.table|
  {
    var safe := RevRemove(ms, KingSafe(p, king));
    if !HasMoved(p.table[king]) && !inCheck then
      match CastleMoves(p, king, kc, n, safe)
      case Err(e) => Scanned(p.table, pins, checks, inCheck, Err(e))
      case Ok(all) => Scanned(p.table, pins, checks, inCheck, Ok(RevRemove(all, KingSafe(p, king))))
    else Scanned(p.table, pins, checks, inCheck, Ok(safe))
  }

  /** The single-check branch after get_all_moves: the checking piece is
      read from the first check's square (an AttributeError when it holds
      none); a knight can only be captured, any other checker blocked along
      its line. */
  function SingleCheck(p: Position, king: PieceId, kc: Coord, n: int, pins: seq<Pin>, checks: seq<Pin>,
                       ms: seq<Move>): Turn
    requires king < |p.table| && |checks| == 1
  {
    var cs := checks[0].0;
    var cd := checks[0].1;
    match PieceAt(p, cs)
    case None => Scanned(p.table, pins, checks, true, Err(AttributeError))
    case Some(checker) =>
      var vs := if checker.kind == Knight then [cs] else BlockSquares(p, kc, cd, cs, 0, ScanLimit(p));
      Finish(p, king, kc, n, pins, checks, true, RevRemove(ms, Blocks(p.table, vs)))
  }

  /** get_valid_moves for the side to move, whose king is `king`. */
  function ValidTurn(p: Position, pieces: seq<PieceId>, king: PieceId, white: bool, n: int,
                     ep: Option<Coord>): Turn
    requires king < |p.table|
    requires forall i :: 0 <= i < |pieces| ==> pieces[i] < |p.table|
  {
    match p.table[king].square
    case None => KingOff
    case Some(kc) => ScanTurn(p, pieces, king, kc, white, n, ep)
  }

  /** get_valid_moves once the king is known to stand on kc: the number of
      checks decides between the king's own moves and get_all_moves. */
  function ScanTurn(p: Position, pieces: seq<PieceId>, king: PieceId, kc: Coord, white: bool, n: int,
                    ep: Option<Coord>): Turn
    requires king < |p.table|
    requires forall i :: 0 <= i < |pieces| ==> pieces[i] < |p.table|
  {
    var f := PinsAndChecks(p, king, kc);
    if f.checks != [] && |f.checks| != 1 then
      match KingKnightMoves(p, king, n, [])
      case Err(e) => Scanned(p.table, f.pins, f.checks, true, Err(e))
      case Ok(ms) => Finish(p, king, kc, n, f.pins, f.checks, true, ms)
    else ScanRest(p, pieces, king, kc, white, n, ep, f.pins, f.checks)
  }

  /** get_valid_moves past the scan for pins and checks, with at most one
      check: get_all_moves, then the single-check filter when in check. */
  function ScanRest(p: Position, pieces: seq<PieceId>, king: PieceId, kc: Coord, white: bool, n: int,
                    ep: Option<Coord>, pins: seq<Pin>, checks: seq<Pin>): (t: Turn)
    requires king < |p.table| && |checks| <= 1
    requires forall i :: 0 <= i < |pieces| ==> pieces[i] < |p.table|
    ensures t.Scanned? && t.checks == checks && t.inCheck == (checks != [])
  {
    var g := AllMovesOf(p, pieces, white, n, ep, pins);
    match g.moves
    case Err(e) => Scanned(g.table, g.pins, checks, checks != [], Err(e))
    case Ok(ms) =>
      var p1 := p.(table := g.table);
      if checks == [] then Finish(p1, king, kc, n, g.pins, checks, false, ms)
      else SingleCheck(p1, king, kc, n, g.pins, checks, ms)
  }

  // ---- What the valid moves satisfy ----

  /** Sound moves on a board of at most ten files and ranks are equal
      exactly when they move the same piece between the same squares (and
      agree on number and capture), so the removal tests agree on them. */
  lemma SoundIdsDetermine(p: Position, ms: seq<Move>)
    requires Shaped(p) && p.files <= 10 && p.ranks <= 10 && AllSound(p, ms)
    ensures IdsDetermine(ms)
  {
    forall a, b | a in ms && b in ms && a.id == b.id
      ensures a.pieceMoved == b.pieceMoved && a.end == b.end
    {
      assert Sound(p, a) && Sound(p, b);
      SquareCodeInjective(a.start, a.end, b.start, b.end);
    }
  }

  /** The moves a finished turn returns: all sound, each from the list it
      was given or a castling move, and no king move ends where the king
      would be in check. */
  lemma {:induction false} FinishSafe(p: Position, king: PieceId, kc: Coord, n: int, pins: seq<Pin>,
                                      checks: seq<Pin>, inCheck: bool, ms: seq<Move>)
    requires Shaped(p) && Closed(p) && p.files <= 10 && p.ranks <= 10 && king < |p.table| && AllSound(p, ms)
    ensures var t := Finish(p, king, kc, n, pins, checks, inCheck, ms);
      t.Scanned? && t.table == p.table && t.pins == pins && t.checks == checks && t.inCheck == inCheck &&
      (t.moves.Ok? ==>
        AllSound(p, t.moves.value) &&
        (forall m :: m in t.moves.value ==>
           (m in ms || (CastleFound(p, king, kc, m) && CastleShaped(p, kc, m))) &&
           (IsKingPiece(p.table, m.pieceMoved) ==> PinsAndChecks(p, king, m.end).checks == [])) &&
        (HasMoved(p.table[king]) || inCheck ==>
           forall m :: m in t.moves.value <==> m in ms && Kept(KingSafe(p, king), m)))
  {
    SoundIdsDetermine(p, ms);
    var safe := RevRemove(ms, KingSafe(p, king));
    RevRemoveKeeps(ms, KingSafe(p, king));
    assert AllSound(p, safe) by {
      forall i | 0 <= i < |safe| ensures Sound(p, safe[i]) {
        assert safe[i] in safe;
        var j :| 0 <= j < |ms| && ms[j] == safe[i];
      }
    }
    if !HasMoved(p.table[king]) && !inCheck {
      CastlesSound(p, king, kc, n, safe, 0, safe);
      var r := CastleMoves(p, king, kc, n, safe);
      if r.Ok? {
        var all := r.value;
        SoundIdsDetermine(p, all);
        RevRemoveKeeps(all, KingSafe(p, king));
        var out := RevRemove(all, KingSafe(p, king));
        forall i | 0 <= i < |out| ensures Sound(p, out[i]) {
          assert out[i] in out;
          var j :| 0 <= j < |all| && all[j] == out[i];
        }
        forall m | m in out
          ensures m in ms || (CastleFound(p, king, kc, m) && CastleShaped(p, kc, m))
        {
          var j :| 0 <= j < |all| && all[j] == m;
          if j < |safe| {
            assert all[j] == all[..|safe|][j] == safe[j];
            assert safe[j] in safe;
          }
        }
      }
    }
  }

  /** The castling loop keeps the list it is given, and what it adds is
      sound castling: each added move castles toward one side of a king move
      of the list, its rook going to that move's end square. */
  lemma {:induction false} CastlesSound(p: Position, king: PieceId, kc: Coord, n: int, moves: seq<Move>,
                                        i: nat, acc: seq<Move>)
    requires Shaped(p) && Closed(p) && king < |p.table| && AllSound(p, acc)
    ensures var r := CastlesFrom(p, king, kc, n, moves, i, acc);
      r.Ok? ==>
        AllSound(p, r.value) && |acc| <= |r.value| && r.value[..|acc|] == acc &&
        forall j :: |acc| <= j < |r.value| ==>
          CastleFound(p, king, kc, r.value[j]) && CastleShaped(p, kc, r.value[j]) &&
          exists k :: 0 <= k < |moves| && IsKingMove(p, moves[k]) && SideCastle(p, king, kc, moves[k], r.value[j])
    decreases |moves| - i
  {
    if i < |moves| {
      CastleForFound(p, king, kc, n, moves[i]);
      var rf := CastleFor(p, king, kc, n, moves[i]);
      if rf.Ok? {
        var acc2 := acc + rf.value;
        forall j | 0 <= j < |acc2| ensures Sound(p, acc2[j]) {
          if j >= |acc| {
            assert acc2[j] == rf.value[j - |acc|];
            assert CastleFound(p, king, kc, acc2[j]);
          }
        }
        CastlesSound(p, king, kc, n, moves, i + 1, acc2);
        var r := CastlesFrom(p, king, kc, n, moves, i + 1, acc2);
        if r.Ok? {
          assert r.value[..|acc|] == r.value[..|acc2|][..|acc|];
          forall j | |acc| <= j < |r.value|
            ensures CastleFound(p, king, kc, r.value[j]) && CastleShaped(p, kc, r.value[j]) &&
              exists k :: 0 <= k < |moves| && IsKingMove(p, moves[k]) && SideCastle(p, king, kc, moves[k], r.value[j])
          {
            if j < |acc2| {
              assert r.value[j] == r.value[..|acc2|][j] == acc2[j] == rf.value[j - |acc|];
              assert SideCastle(p, king, kc, moves[i], r.value[j]);
            }
          }
        }
      }
    }
  }

  /** Soundness reads only the grid. */
  lemma SoundAnyTable(p: Position, t: seq<PieceRec>, ms: seq<Move>)
    requires AllSound(p, ms)
    ensures AllSound(p.(table := t), ms)
  {
    forall i | 0 <= i < |ms| ensures Sound(p.(table := t), ms[i]) {
      assert Sound(p, ms[i]);
    }
  }

  /** get_valid_moves returns at once exactly when the king is off the
      board. Otherwise it records the checks on the king's square and the
      in-check flag, changes only pin flags, and every move it returns is
      sound; no king move ends on a square where the king would be in check,
      and under a double check every move leaves the king's square. */
  lemma ValidTurnSound(p: Position, pieces: seq<PieceId>, king: PieceId, white: bool, n: int, ep: Option<Coord>)
    requires Shaped(p) && Closed(p) && Placed(p) && p.files <= 10 && p.ranks <= 10
    requires king < |p.table| && forall i :: 0 <= i < |pieces| ==> pieces[i] < |p.table|
    requires ep.Some? ==> ep.value in p.grid
    ensures var t := ValidTurn(p, pieces, king, white, n, ep);
      (t.KingOff? <==> p.table[king].square.None?) &&
      (t.Scanned? ==>
        var kc := p.table[king].square.value;
        PinsOnly(p.table, t.table) && t.checks == PinsAndChecks(p, king, kc).checks &&
        (t.inCheck <==> t.checks != []) &&
        (t.moves.Ok? ==>
          AllSound(p, t.moves.value) &&
          forall m :: m in t.moves.value ==>
            (IsKingPiece(t.table, m.pieceMoved) ==>
               PinsAndChecks(p.(table := t.table), king, m.end).checks == []) &&
            (|t.checks| >= 2 ==> m.start == kc)))
  {
    if p.table[king].square.Some? {
      var kc := p.table[king].square.value;
      var f := PinsAndChecks(p, king, kc);
      if f.checks != [] && |f.checks| != 1 {
        DoubleCheckSound(p, king, kc, n, f.pins, f.checks);
      } else {
        ScanRestSound(p, pieces, king, kc, white, n, ep, f.pins, f.checks);
      }
    }
  }

  /** The double-check branch of ValidTurnSound: only the king moves. */
  lemma DoubleCheckSound(p: Position, king: PieceId, kc: Coord, n: int, pins: seq<Pin>, checks: seq<Pin>)
    requires Shaped(p) && Closed(p) && Placed(p) && p.files <= 10 && p.ranks <= 10
    requires king < |p.table| && p.table[king].square == Some(kc) && |checks| >= 2
    ensures var t := match KingKnightMoves(p, king, n, [])
                     case Err(e) => Scanned(p.table, pins, checks, true, Err(e))
                     case Ok(ms) => Finish(p, king, kc, n, pins, checks, true, ms);
      t.Scanned? && t.table == p.table && t.checks == checks && t.inCheck &&
      (t.moves.Ok? ==>
        AllSound(p, t.moves.value) &&
        forall m :: m in t.moves.value ==>
          (IsKingPiece(t.table, m.pieceMoved) ==> PinsAndChecks(p, king, m.end).checks == []) &&
          m.start == kc)
  {
    KingKnightTargets(p, king, n, []);
    var r := KingKnightMoves(p, king, n, []);
    if r.Ok? {
      FinishSafe(p, king, kc, n, pins, checks, true, r.value);
      var t := Finish(p, king, kc, n, pins, checks, true, r.value);
      if t.moves.Ok? {
        forall m | m in t.moves.value ensures m.start == kc {
          var j :| 0 <= j < |r.value| && r.value[j] == m;
        }
      }
    }
  }

  /** The branch of ValidTurnSound with at most one check. */
  lemma ScanRestSound(p: Position, pieces: seq<PieceId>, king: PieceId, kc: Coord, white: bool, n: int,
                      ep: Option<Coord>, pins: seq<Pin>, checks: seq<Pin>)
    requires Shaped(p) && Closed(p) && Placed(p) && p.files <= 10 && p.ranks <= 10
    requires king < |p.table| && forall i :: 0 <= i < |pieces| ==> pieces[i] < |p.table|
    requires ep.Some? ==> ep.value in p.grid
    requires |checks| <= 1
    ensures var t := ScanRest(p, pieces, king, kc, white, n, ep, pins, checks);
      PinsOnly(p.table, t.table) &&
      (t.moves.Ok? ==>
        AllSound(p, t.moves.value) &&
        forall m :: m in t.moves.value ==>
          IsKingPiece(t.table, m.pieceMoved) ==> PinsAndChecks(p.(table := t.table), king, m.end).checks == [])
  {
    AllMovesSound(p, pieces, white, n, ep, pins);
    var g := AllMovesOf(p, pieces, white, n, ep, pins);
    if g.moves.Ok? {
      var p1 := p.(table := g.table);
      PinsOnlyKeeps(p, g.table);
      SoundAnyTable(p, g.table, g.moves.value);
      if checks == [] {
        FinishSafe(p1, king, kc, n, g.pins, checks, false, g.moves.value);
      } else {
        SingleCheckSound(p1, king, kc, n, g.pins, checks, g.moves.value);
      }
      var t := ScanRest(p, pieces, king, kc, white, n, ep, pins, checks);
      if t.moves.Ok? {
        SoundAnyTable(p1, p.table, t.moves.value);
      }
    }
  }

  /** Under a single check every non-king move that survives ends on the
      checking square or on the line between it and the king; king moves
      survive only onto squares free of check. */
  lemma SingleCheckSound(p: Position, king: PieceId, kc: Coord, n: int, pins: seq<Pin>, checks: seq<Pin>,
                         ms: seq<Move>)
    requires Shaped(p) && Closed(p) && p.files <= 10 && p.ranks <= 10 && king < |p.table| && AllSound(p, ms)
    requires |checks| == 1
    ensures var t := SingleCheck(p, king, kc, n, pins, checks, ms);
      t.Scanned? && t.table == p.table && t.pins == pins && t.checks == checks && t.inCheck &&
      (t.moves.Ok? ==>
        AllSound(p, t.moves.value) &&
        forall m :: m in t.moves.value ==>
          m in ms &&
          (IsKingPiece(p.table, m.pieceMoved) ==> PinsAndChecks(p, king, m.end).checks == []) &&
          (!IsKingPiece(p.table, m.pieceMoved) ==>
             m.end == checks[0].0 || exists k :: 0 <= k < ScanLimit(p) && m.end == Step(kc, checks[0].1, k)))
  {
    var cs := checks[0].0;
    var cd := checks[0].1;
    match PieceAt(p, cs)
    case None =>
    case Some(checker) =>
      var vs := if checker.kind == Knight then [cs] else BlockSquares(p, kc, cd, cs, 0, ScanLimit(p));
      BlockSquaresOnLine(p, kc, cd, cs, 0, ScanLimit(p));
      SoundIdsDetermine(p, ms);
      RevRemoveKeeps(ms, Blocks(p.table, vs));
      var blocked := RevRemove(ms, Blocks(p.table, vs));
      assert AllSound(p, blocked) by {
        forall i | 0 <= i < |blocked| ensures Sound(p, blocked[i]) {
          assert blocked[i] in blocked;
          var j :| 0 <= j < |ms| && ms[j] == blocked[i];
        }
      }
      FinishSafe(p, king, kc, n, pins, checks, true, blocked);
  }

  /** Out of check and with the king already moved, the valid moves are
      exactly the generated moves that do not walk the king into check. */
  lemma ValidTurnNoCheck(p: Position, pieces: seq<PieceId>, king: PieceId, white: bool, n: int, ep: Option<Coord>)
    requires Shaped(p) && Closed(p) && Placed(p) && p.files <= 10 && p.ranks <= 10
    requires king < |p.table| && forall i :: 0 <= i < |pieces| ==> pieces[i] < |p.table|
    requires ep.Some? ==> ep.value in p.grid
    requires p.table[king].square.Some? && HasMoved(p.table[king])
    requires PinsAndChecks(p, king, p.table[king].square.value).checks == []
    ensures var t := ValidTurn(p, pieces, king, white, n, ep);
      var g := AllMovesOf(p, pieces, white, n, ep, PinsAndChecks(p, king, p.table[king].square.value).pins);
      t.Scanned? && !t.inCheck && t.table == g.table && t.pins == g.pins &&
      (g.moves.Err? <==> t.moves.Err?) &&
      (t.moves.Ok? ==> forall m :: m in t.moves.value <==>
         m in g.moves.value && Kept(KingSafe(p.(table := g.table), king), m))
  {
    var kc := p.table[king].square.value;
    var f := PinsAndChecks(p, king, kc);
    AllMovesSound(p, pieces, white, n, ep, f.pins);
    var g := AllMovesOf(p, pieces, white, n, ep, f.pins);
    if g.moves.Ok? {
      var p1 := p.(table := g.table);
      PinsOnlyKeeps(p, g.table);
      SoundAnyTable(p, g.table, g.moves.value);
      assert p1.table[king] == p.table[king].(pinDirection := p1.table[king].pinDirection);
      FinishSafe(p1, king, kc, n, g.pins, f.checks, false, g.moves.value);
    }
  }

  /** Out of check with an unmoved king, every valid move is a generated
      move or a castling move, and castling moves are sound: the king's own
      square to an empty square two files over, with an unmoved rook of its
      colour. */
  lemma ValidTurnCastles(p: Position, pieces: seq<PieceId>, king: PieceId, white: bool, n: int, ep: Option<Coord>)
    requires Shaped(p) && Closed(p) && Placed(p) && p.files <= 10 && p.ranks <= 10
    requires king < |p.table| && forall i :: 0 <= i < |pieces| ==> pieces[i] < |p.table|
    requires ep.Some? ==> ep.value in p.grid
    requires p.table[king].square.Some?
    requires PinsAndChecks(p, king, p.table[king].square.value).checks == []
    ensures var t := ValidTurn(p, pieces, king, white, n, ep);
      var kc := p.table[king].square.value;
      var g := AllMovesOf(p, pieces, white, n, ep, PinsAndChecks(p, king, kc).pins);
      t.Scanned? && t.moves.Ok? ==>
        forall m :: m in t.moves.value ==>
          m in g.moves.value ||
          (CastleFound(p.(table := g.table), king, kc, m) && CastleShaped(p, kc, m) && !HasPiece(p, m.end))
  {
    var kc := p.table[king].square.value;
    var f := PinsAndChecks(p, king, kc);
    AllMovesSound(p, pieces, white, n, ep, f.pins);
    var g := AllMovesOf(p, pieces, white, n, ep, f.pins);
    if g.moves.Ok? {
      var p1 := p.(table := g.table);
      PinsOnlyKeeps(p, g.table);
      SoundAnyTable(p, g.table, g.moves.value);
      FinishSafe(p1, king, kc, n, g.pins, f.checks, false, g.moves.value);
    }
  }
}
