/** get_castle_moves of chess_engine.py as functions of the position: for
    every king move to the square beside the king, the castling moves toward
    the unmoved rooks of the king's colour on that side. */
module Castling {
  import opened Wrappers
  import opened Pieces
  import opened Occupancy
  import opened Moves
  import opened Movegen

  /** The moved piece's kind, when the id names a piece of the table. */
  predicate IsKingMove(p: Position, m: Move) {
    m.pieceMoved < |p.table| && p.table[m.pieceMoved].kind == King
  }

  /** The walk outward from the king for steps i to files - 1: the edge of the
      board, an enemy or a piece other than a rook ends it; every unmoved rook
      met gives a castling move, a moved rook is walked over. The king goes to
      castleSq and the rook to rookSq. */
  function CastlePath(p: Position, kc: Coord, color: Color, castleSq: Coord, rookSq: Coord,
                      x: int, i: nat, n: int): Result<seq<Move>>
    decreases p.files - i
  {
    if i >= p.files then Ok([])
    else
      var nf := kc.0 + x * i;
      if !(0 <= nf < p.files) then Ok([])
      else
        match SquareOf(p, (nf, kc.1))
        case Err(e) => Err(e)
        case Ok(c) =>
          if !HasPiece(p, c) then CastlePath(p, kc, color, castleSq, rookSq, x, i + 1, n)
          else
            var pc := PieceAt(p, c).value;
            if HasEnemyPiece(p, c, color) || pc.kind != Rook then Ok([])
            else if HasMoved(pc) then CastlePath(p, kc, color, castleSq, rookSq, x, i + 1, n)
            else
              var info := CastleInfo(Occupant(p, c).value, pc.square, rookSq);
              match NewMove(p, kc, castleSq, n, Some(info), None)
              case Err(e) => Err(e)
              case Ok(m) =>
                match CastlePath(p, kc, color, castleSq, rookSq, x, i + 1, n)
                case Err(e) => Err(e)
                case Ok(rest) => Ok([m] + rest)
  }

  /** One side x of one king move: only when the move ends on the square
      beside the king, and the square two files over is empty. */
  function CastleSide(p: Position, king: PieceId, kc: Coord, n: int, m: Move, x: int): Result<seq<Move>>
    requires king < |p.table|
  {
    match SquareOf(p, (kc.0 + x, kc.1))
    case Err(e) => Err(e)
    case Ok(rookSq) =>
      if rookSq != m.end then Ok([])
      else
        match SquareOf(p, (kc.0 + x * 2, kc.1))
        case Err(e) => Err(e)
        case Ok(castleSq) =>
          if HasPiece(p, castleSq) then Ok([])
          else CastlePath(p, kc, p.table[king].color, castleSq, rookSq, x, 3, n)
  }

  /** The castling moves one move of the list gives rise to: none unless it
      moves a king; then those of each side in HORIZONTAL, left before
      right. */
  function CastleFor(p: Position, king: PieceId, kc: Coord, n: int, m: Move): Result<seq<Move>>
    requires king < |p.table|
  {
    if !IsKingMove(p, m) then Ok([])
    else CastleSides(p, king, kc, n, m, HORIZONTAL, 0, [])
  }

  /** The sides xs[j..] of one king move, their moves appended to acc. */
  function CastleSides(p: Position, king: PieceId, kc: Coord, n: int, m: Move, xs: seq<Direction>, j: nat,
                       acc: seq<Move>): Result<seq<Move>>
    requires king < |p.table|
    decreases |xs| - j
  {
    if j >= |xs| then Ok(acc)
    else
      match CastleSide(p, king, kc, n, m, xs[j].0)
      case Err(e) => Err(e)
      case Ok(a) => CastleSides(p, king, kc, n, m, xs, j + 1, acc + a)
  }

  /** The moves ms put in front of the result of a walk. */
  function Prepend(ms: seq<Move>, r: Result<seq<Move>>): Result<seq<Move>> {
    match r
    case Err(e) => Err(e)
    case Ok(v) => Ok(ms + v)
  }

  /** The moves of the list from position i on, each followed by what it
      adds. */
  function CastlesFrom(p: Position, king: PieceId, kc: Coord, n: int, moves: seq<Move>, i: nat,
                       acc: seq<Move>): Result<seq<Move>>
    requires king < |p.table|
    decreases |moves| - i
  {
    if i >= |moves| then Ok(acc)
    else
      match CastleFor(p, king, kc, n, moves[i])
      case Err(e) => Err(e)
      case Ok(extra) => CastlesFrom(p, king, kc, n, moves, i + 1, acc + extra)
  }

  /** get_castle_moves: the list with the castling moves of its moves
      appended. */
  function CastleMoves(p: Position, king: PieceId, kc: Coord, n: int, moves: seq<Move>): Result<seq<Move>>
    requires king < |p.table|
  {
    CastlesFrom(p, king, kc, n, moves, 0, moves)
  }

  /** Both squares beside the king can be indexed. */
  predicate SidesIndexable(p: Position, kc: Coord) {
    SquareOf(p, (kc.0 - 1, kc.1)).Ok? && SquareOf(p, (kc.0 + 1, kc.1)).Ok?
  }

  /** A castling move: from the king's square to a square two files over,
      carrying its castle tuple. */
  ghost predicate CastleShaped(p: Position, kc: Coord, m: Move) {
    m.start == kc && m.castle.Some? &&
    (SquareOf(p, (kc.0 + -1 * 2, kc.1)) == Ok(m.end) || SquareOf(p, (kc.0 + 1 * 2, kc.1)) == Ok(m.end))
  }

  /** What a castling move promises: it moves the piece on the king's square
      to an empty square, and its rook is an unmoved rook of the king's
      colour whose recorded start is the rook's own square. */
  ghost predicate CastleFound(p: Position, king: PieceId, kc: Coord, m: Move)
    requires king < |p.table|
  {
    m.start == kc && Occupant(p, kc) == Some(m.pieceMoved) && m.castle.Some? &&
    m.id.pieceMoved == m.pieceMoved && m.id.squares == SquareCode(m.start, m.end) &&
    var info := m.castle.value;
    m.end in p.grid && !HasPiece(p, m.end) && info.rookEnd in p.grid &&
    info.rook < |p.table| && info.rookStart == p.table[info.rook].square &&
    p.table[info.rook].kind == Rook && p.table[info.rook].color == p.table[king].color &&
    !HasMoved(p.table[info.rook])
  }

  /** The square k files from the king toward side x, as the walk indexes it. */
  function PathSquare(p: Position, kc: Coord, x: int, k: int): Result<Coord> {
    SquareOf(p, (kc.0 + x * k, kc.1))
  }

  /** Steps a to i - 1 of the walk toward side x are on the board and hold
      nothing the walk stops at: each is empty or holds a rook of the king's
      colour. */
  ghost predicate PathClear(p: Position, kc: Coord, color: Color, x: int, a: int, i: int) {
    forall k :: a <= k < i ==>
      0 <= kc.0 + x * k < p.files && PathSquare(p, kc, x, k).Ok? &&
      (!HasPiece(p, PathSquare(p, kc, x, k).value) ||
       (HasFriendlyPiece(p, PathSquare(p, kc, x, k).value, color) &&
        PieceAt(p, PathSquare(p, kc, x, k).value).value.kind == Rook))
  }

  /** The walk toward side x reaches the piece `rook` at step i: every step
      from 3 before it is clear. */
  ghost predicate RookReached(p: Position, kc: Coord, color: Color, x: int, i: int, rook: PieceId) {
    3 <= i < p.files && PathClear(p, kc, color, x, 3, i) &&
    0 <= kc.0 + x * i < p.files && PathSquare(p, kc, x, i).Ok? &&
    Occupant(p, PathSquare(p, kc, x, i).value) == Some(rook)
  }

  /** A castling move toward side x: the king goes two files over, the rook
      to the square beside the king, and the rook is one the walk reaches. */
  ghost predicate CastleToward(p: Position, king: PieceId, kc: Coord, x: int, c: Move)
    requires king < |p.table|
  {
    c.castle.Some? && PathSquare(p, kc, x, 1) == Ok(c.castle.value.rookEnd) && PathSquare(p, kc, x, 2) == Ok(c.end) &&
    exists i :: RookReached(p, kc, p.table[king].color, x, i, c.castle.value.rook)
  }

  /** The castling move toward the unmoved rook on c. */
  lemma CastleStepFound(p: Position, king: PieceId, kc: Coord, c: Coord, castleSq: Coord, rookSq: Coord, n: int)
    requires Closed(p) && king < |p.table|
    requires castleSq in p.grid && !HasPiece(p, castleSq) && rookSq in p.grid
    requires HasFriendlyPiece(p, c, p.table[king].color)
    requires PieceAt(p, c).value.kind == Rook && !HasMoved(PieceAt(p, c).value)
    requires NewMove(p, kc, castleSq, n, Some(CastleInfo(Occupant(p, c).value, PieceAt(p, c).value.square, rookSq)), None).Ok?
    ensures var m := NewMove(p, kc, castleSq, n, Some(CastleInfo(Occupant(p, c).value, PieceAt(p, c).value.square, rookSq)), None).value;
      CastleFound(p, king, kc, m) && m.end == castleSq && m.castle.value.rookEnd == rookSq
  {
  }

  /** Every move of ms is a castling move to castleSq with its rook going to
      rookSq, and its rook is one the walk toward side x reaches. */
  ghost predicate AllFound(p: Position, king: PieceId, kc: Coord, castleSq: Coord, rookSq: Coord, x: int,
                           ms: seq<Move>)
    requires king < |p.table|
  {
    forall j :: 0 <= j < |ms| ==>
      CastleFound(p, king, kc, ms[j]) && ms[j].end == castleSq && ms[j].castle.value.rookEnd == rookSq &&
      exists i :: RookReached(p, kc, p.table[king].color, x, i, ms[j].castle.value.rook)
  }

  lemma ConsFound(p: Position, king: PieceId, kc: Coord, castleSq: Coord, rookSq: Coord, x: int,
                  m: Move, rest: seq<Move>, i: int)
    requires king < |p.table|
    requires CastleFound(p, king, kc, m) && m.end == castleSq && m.castle.value.rookEnd == rookSq
    requires RookReached(p, kc, p.table[king].color, x, i, m.castle.value.rook)
    requires AllFound(p, king, kc, castleSq, rookSq, x, rest)
    ensures AllFound(p, king, kc, castleSq, rookSq, x, [m] + rest)
  {
    var ms := [m] + rest;
    forall j | 0 < j < |ms| ensures ms[j] == rest[j - 1] {}
  }

  /** A square the walk passes over keeps the path clear one step further. */
  lemma PathClearStep(p: Position, kc: Coord, color: Color, x: int, a: int, i: int)
    requires PathClear(p, kc, color, x, a, i)
    requires 0 <= kc.0 + x * i < p.files && PathSquare(p, kc, x, i).Ok?
    requires !HasPiece(p, PathSquare(p, kc, x, i).value) ||
      (HasFriendlyPiece(p, PathSquare(p, kc, x, i).value, color) &&
       PieceAt(p, PathSquare(p, kc, x, i).value).value.kind == Rook)
    ensures PathClear(p, kc, color, x, a, i + 1)
  {
  }

  /** Every move the walk from step i yields castles toward an unmoved rook of
      the king's colour that the walk reaches over clear squares. */
  lemma {:induction false} CastlePathFound(p: Position, king: PieceId, kc: Coord, castleSq: Coord, rookSq: Coord,
                                           x: int, i: nat, n: int)
    requires Shaped(p) && Closed(p) && king < |p.table|
    requires castleSq in p.grid && !HasPiece(p, castleSq) && rookSq in p.grid
    requires 3 <= i && PathClear(p, kc, p.table[king].color, x, 3, i)
    ensures var r := CastlePath(p, kc, p.table[king].color, castleSq, rookSq, x, i, n);
      r.Ok? ==> AllFound(p, king, kc, castleSq, rookSq, x, r.value)
    decreases p.files - i
  {
    var color := p.table[king].color;
    if i < p.files {
      var nf := kc.0 + x * i;
      if 0 <= nf < p.files {
        match SquareOf(p, (nf, kc.1))
        case Err(e) =>
        case Ok(c) =>
          assert PathSquare(p, kc, x, i) == Ok(c);
          if !HasPiece(p, c) {
            PathClearStep(p, kc, color, x, 3, i);
            CastlePathFound(p, king, kc, castleSq, rookSq, x, i + 1, n);
          } else {
            var pc := PieceAt(p, c).value;
            if !(HasEnemyPiece(p, c, color) || pc.kind != Rook) {
              PathClearStep(p, kc, color, x, 3, i);
              CastlePathFound(p, king, kc, castleSq, rookSq, x, i + 1, n);
              if !HasMoved(pc) {
                var info := CastleInfo(Occupant(p, c).value, pc.square, rookSq);
                var rm := NewMove(p, kc, castleSq, n, Some(info), None);
                var rrest := CastlePath(p, kc, color, castleSq, rookSq, x, i + 1, n);
                if rm.Ok? && rrest.Ok? {
                  CastleStepFound(p, king, kc, c, castleSq, rookSq, n);
                  assert RookReached(p, kc, color, x, i, rm.value.castle.value.rook);
                  ConsFound(p, king, kc, castleSq, rookSq, x, rm.value, rrest.value, i);
                }
              }
            }
          }
      }
    }
  }

  /** Conversely an unmoved rook of the king's colour that the walk from step
      i0 reaches over clear squares gives a castling move. */
  lemma {:induction false} CastlePathComplete(p: Position, kc: Coord, color: Color, castleSq: Coord, rookSq: Coord,
                                              x: int, i0: nat, n: int, i: int, rook: PieceId)
    requires Closed(p) && 3 <= i0 <= i < p.files && PathClear(p, kc, color, x, i0, i)
    requires 0 <= kc.0 + x * i < p.files && PathSquare(p, kc, x, i).Ok?
    requires Occupant(p, PathSquare(p, kc, x, i).value) == Some(rook) && rook < |p.table|
    requires p.table[rook].kind == Rook && p.table[rook].color == color && !HasMoved(p.table[rook])
    ensures var r := CastlePath(p, kc, color, castleSq, rookSq, x, i0, n);
      r.Ok? ==>
        exists c :: c in r.value && c.start == kc && c.end == castleSq &&
                    c.castle == Some(CastleInfo(rook, p.table[rook].square, rookSq))
    decreases i - i0
  {
    var c := PathSquare(p, kc, x, i0).value;
    assert SquareOf(p, (kc.0 + x * i0, kc.1)) == Ok(c);
    if i0 < i {
      CastlePathComplete(p, kc, color, castleSq, rookSq, x, i0 + 1, n, i, rook);
      var r := CastlePath(p, kc, color, castleSq, rookSq, x, i0, n);
      var rest := CastlePath(p, kc, color, castleSq, rookSq, x, i0 + 1, n);
      if r.Ok? {
        if HasPiece(p, c) && !HasMoved(PieceAt(p, c).value) {
          var info := CastleInfo(Occupant(p, c).value, PieceAt(p, c).value.square, rookSq);
          var rm := NewMove(p, kc, castleSq, n, Some(info), None);
          assert rm.Ok? && rest.Ok? && r.value == [rm.value] + rest.value;
        } else {
          assert r == rest;
        }
      }
    } else {
      assert PieceAt(p, c) == Some(p.table[rook]);
    }
  }

  /** A castling move toward one side of the king move m: shaped and sound,
      its rook going to m's end square. */
  ghost predicate SideCastle(p: Position, king: PieceId, kc: Coord, m: Move, c: Move)
    requires king < |p.table|
  {
    CastleFound(p, king, kc, c) && CastleShaped(p, kc, c) &&
    (CastleToward(p, king, kc, -1, c) || CastleToward(p, king, kc, 1, c)) &&
    c.castle.value.rookEnd == m.end
  }

  /** Every castling move the generator adds for the king move m is well
      formed: an unmoved rook of the king's colour, reached over squares that
      are empty or hold rooks of that colour, going to m's end square beside
      the king, and the king's destination two files over and empty. */
  lemma CastleForFound(p: Position, king: PieceId, kc: Coord, n: int, m: Move)
    requires Shaped(p) && Closed(p) && king < |p.table|
    ensures var r := CastleFor(p, king, kc, n, m);
      r.Ok? ==> forall j :: 0 <= j < |r.value| ==> SideCastle(p, king, kc, m, r.value[j])
    ensures CastleFor(p, king, kc, n, m).Ok? && CastleFor(p, king, kc, n, m).value != [] ==>
      IsKingMove(p, m) && SidesIndexable(p, kc)
  {
    if IsKingMove(p, m) {
      SidesFound(p, king, kc, n, m, HORIZONTAL, 0, []);
      if CastleSides(p, king, kc, n, m, HORIZONTAL, 0, []).Ok? {
        assert CastleSide(p, king, kc, n, m, HORIZONTAL[0].0).Ok?;
        assert CastleSide(p, king, kc, n, m, HORIZONTAL[1].0).Ok?;
        assert (kc.0 + -1, kc.1) == (kc.0 - 1, kc.1);
      }
    }
  }

  /** Folding the sides keeps every move well formed, and succeeds only when
      every side does. */
  lemma {:induction false} SidesFound(p: Position, king: PieceId, kc: Coord, n: int, m: Move,
                                      xs: seq<Direction>, j: nat, acc: seq<Move>)
    requires Shaped(p) && Closed(p) && king < |p.table|
    requires forall i :: 0 <= i < |xs| ==> xs[i].0 == -1 || xs[i].0 == 1
    requires forall i :: 0 <= i < |acc| ==> SideCastle(p, king, kc, m, acc[i])
    ensures var r := CastleSides(p, king, kc, n, m, xs, j, acc);
      r.Ok? ==> forall i :: 0 <= i < |r.value| ==> SideCastle(p, king, kc, m, r.value[i])
    ensures CastleSides(p, king, kc, n, m, xs, j, acc).Ok? ==>
      forall i :: j <= i < |xs| ==> CastleSide(p, king, kc, n, m, xs[i].0).Ok?
    decreases |xs| - j
  {
    if j < |xs| {
      var r := CastleSide(p, king, kc, n, m, xs[j].0);
      if r.Ok? {
        SideFound(p, king, kc, n, m, xs[j].0);
        var acc' := acc + r.value;
        forall i | 0 <= i < |acc'| ensures SideCastle(p, king, kc, m, acc'[i]) {
          if i >= |acc| {
            assert acc'[i] == r.value[i - |acc|];
          }
        }
        SidesFound(p, king, kc, n, m, xs, j + 1, acc');
        assert CastleSides(p, king, kc, n, m, xs, j, acc) == CastleSides(p, king, kc, n, m, xs, j + 1, acc');
      }
    }
  }

  lemma SideFound(p: Position, king: PieceId, kc: Coord, n: int, m: Move, x: int)
    requires Shaped(p) && Closed(p) && king < |p.table|
    requires x == -1 || x == 1
    ensures var r := CastleSide(p, king, kc, n, m, x);
      r.Ok? ==> forall j :: 0 <= j < |r.value| ==> SideCastle(p, king, kc, m, r.value[j])
  {
    match SquareOf(p, (kc.0 + x, kc.1))
    case Err(e) =>
    case Ok(rookSq) =>
      if rookSq == m.end {
        match SquareOf(p, (kc.0 + x * 2, kc.1))
        case Err(e) =>
        case Ok(castleSq) =>
          if !HasPiece(p, castleSq) {
            CastlePathFound(p, king, kc, castleSq, rookSq, x, 3, n);
            var r := CastlePath(p, kc, p.table[king].color, castleSq, rookSq, x, 3, n);
            if r.Ok? {
              FoundSides(p, king, kc, m, x, castleSq, rookSq, r.value);
            }
          }
      }
  }

  /** Moves found on side x, whose rook goes to m's end square, are castling
      moves of that side. */
  lemma FoundSides(p: Position, king: PieceId, kc: Coord, m: Move, x: int, castleSq: Coord, rookSq: Coord,
                   ms: seq<Move>)
    requires king < |p.table| && (x == -1 || x == 1)
    requires SquareOf(p, (kc.0 + x, kc.1)) == Ok(rookSq) && SquareOf(p, (kc.0 + x * 2, kc.1)) == Ok(castleSq)
    requires rookSq == m.end
    requires AllFound(p, king, kc, castleSq, rookSq, x, ms)
    ensures forall j :: 0 <= j < |ms| ==> SideCastle(p, king, kc, m, ms[j])
  {
    assert PathSquare(p, kc, x, 1) == Ok(rookSq) && PathSquare(p, kc, x, 2) == Ok(castleSq);
    forall j | 0 <= j < |ms| ensures SideCastle(p, king, kc, m, ms[j]) {
      assert CastleToward(p, king, kc, x, ms[j]);
    }
  }

  /** The moves of every side that succeeds are in the folded result, after
      those already gathered. */
  lemma {:induction false} SidesKeep(p: Position, king: PieceId, kc: Coord, n: int, m: Move,
                                     xs: seq<Direction>, j: nat, acc: seq<Move>)
    requires king < |p.table|
    ensures var r := CastleSides(p, king, kc, n, m, xs, j, acc);
      r.Ok? ==>
        (forall c :: c in acc ==> c in r.value) &&
        (forall i, c :: (j <= i < |xs| && CastleSide(p, king, kc, n, m, xs[i].0).Ok? &&
                         c in CastleSide(p, king, kc, n, m, xs[i].0).value) ==> c in r.value)
    decreases |xs| - j
  {
    if j < |xs| {
      var s := CastleSide(p, king, kc, n, m, xs[j].0);
      if s.Ok? {
        SidesKeep(p, king, kc, n, m, xs, j + 1, acc + s.value);
        var r := CastleSides(p, king, kc, n, m, xs, j, acc);
        assert r == CastleSides(p, king, kc, n, m, xs, j + 1, acc + s.value);
        if r.Ok? {
          forall c | c in acc + s.value ensures c in r.value {
          }
        }
      }
    }
  }

  /** Conversely a king move onto the square beside the king, with the square
      two files over empty and an unmoved rook of the king's colour reached
      over clear squares on that side, gives a castling move toward that rook
      whose rook goes to the king move's end square. */
  lemma CastleComplete(p: Position, king: PieceId, kc: Coord, n: int, m: Move, x: int, i: int, rook: PieceId)
    requires Closed(p) && king < |p.table| && IsKingMove(p, m) && (x == -1 || x == 1)
    requires PathSquare(p, kc, x, 1) == Ok(m.end)
    requires PathSquare(p, kc, x, 2).Ok? && !HasPiece(p, PathSquare(p, kc, x, 2).value)
    requires RookReached(p, kc, p.table[king].color, x, i, rook) && rook < |p.table|
    requires p.table[rook].kind == Rook && p.table[rook].color == p.table[king].color && !HasMoved(p.table[rook])
    ensures var r := CastleFor(p, king, kc, n, m);
      r.Ok? ==>
        exists c :: c in r.value && c.start == kc && c.end == PathSquare(p, kc, x, 2).value &&
                    c.castle.Some? && c.castle.value.rook == rook && c.castle.value.rookEnd == m.end
  {
    SidesKeep(p, king, kc, n, m, HORIZONTAL, 0, []);
    var xi := if x == -1 then 0 else 1;
    assert HORIZONTAL[xi].0 == x;
    SideComplete(p, king, kc, n, m, x, i, rook);
  }

  /** The side x of such a king move gives the castling move toward the rook. */
  lemma SideComplete(p: Position, king: PieceId, kc: Coord, n: int, m: Move, x: int, i: int, rook: PieceId)
    requires Closed(p) && king < |p.table| && (x == -1 || x == 1)
    requires PathSquare(p, kc, x, 1) == Ok(m.end)
    requires PathSquare(p, kc, x, 2).Ok? && !HasPiece(p, PathSquare(p, kc, x, 2).value)
    requires RookReached(p, kc, p.table[king].color, x, i, rook) && rook < |p.table|
    requires p.table[rook].kind == Rook && p.table[rook].color == p.table[king].color && !HasMoved(p.table[rook])
    ensures var s := CastleSide(p, king, kc, n, m, x);
      s.Ok? ==>
        exists c :: c in s.value && c.start == kc && c.end == PathSquare(p, kc, x, 2).value &&
                    c.castle.Some? && c.castle.value.rook == rook && c.castle.value.rookEnd == m.end
  {
    var color := p.table[king].color;
    var castleSq := PathSquare(p, kc, x, 2).value;
    assert SquareOf(p, (kc.0 + x, kc.1)) == Ok(m.end);
    assert SquareOf(p, (kc.0 + x * 2, kc.1)) == Ok(castleSq);
    CastlePathComplete(p, kc, color, castleSq, m.end, x, 3, n, i, rook);
    assert CastleSide(p, king, kc, n, m, x) == CastlePath(p, kc, color, castleSq, m.end, x, 3, n);
  }

  /** Two wrapped file indices at most three apart differ on a board of at
      least four files. */
  lemma WrapApart(a: int, b: int, files: nat)
    requires files >= 4 && 0 < (if a < b then b - a else a - b) <= 3
    requires Wrap(a, files).Ok? && Wrap(b, files).Ok?
    ensures Wrap(a, files).value != Wrap(b, files).value
  {
    if files > 0 {
      assert Wrap(a, files).value == (if a < 0 then a + files else a);
      assert Wrap(b, files).value == (if b < 0 then b + files else b);
    }
  }

  /** The square beside the king is never the square two files over. */
  lemma SidesApart(p: Position, kc: Coord, x: int, y: int)
    requires p.files >= 4 && (x == -1 || x == 1) && (y == -1 || y == 1)
    requires SquareOf(p, (kc.0 + x, kc.1)).Ok? && SquareOf(p, (kc.0 + y * 2, kc.1)).Ok?
    ensures SquareOf(p, (kc.0 + x, kc.1)).value != SquareOf(p, (kc.0 + y * 2, kc.1)).value
  {
    WrapApart(kc.0 + x, kc.0 + y * 2, p.files);
  }

  /** A castling move appended to the list adds nothing when the loop reaches
      it: on a board of at least four files the square beside the king is
      never the square two files over. */
  lemma CastleMoveInert(p: Position, king: PieceId, kc: Coord, n: int, m: Move)
    requires king < |p.table| && p.files >= 4
    requires SidesIndexable(p, kc) && CastleShaped(p, kc, m)
    ensures CastleFor(p, king, kc, n, m) == Ok([])
  {
    if IsKingMove(p, m) {
      assert HORIZONTAL[0].0 == -1 && HORIZONTAL[1].0 == 1;
      assert (kc.0 + -1, kc.1) == (kc.0 - 1, kc.1);
      if SquareOf(p, (kc.0 + -1 * 2, kc.1)) == Ok(m.end) {
        SidesApart(p, kc, -1, -1);
        SidesApart(p, kc, 1, -1);
      } else {
        SidesApart(p, kc, -1, 1);
        SidesApart(p, kc, 1, 1);
      }
      assert CastleSide(p, king, kc, n, m, -1) == Ok([]);
      assert CastleSide(p, king, kc, n, m, 1) == Ok([]);
      assert CastleSide(p, king, kc, n, m, HORIZONTAL[0].0) == Ok([]);
      assert CastleSide(p, king, kc, n, m, HORIZONTAL[1].0) == Ok([]);
      var e: seq<Move> := [];
      assert e + e == [];
      assert CastleSides(p, king, kc, n, m, HORIZONTAL, 2, []) == Ok([]);
      assert CastleSides(p, king, kc, n, m, HORIZONTAL, 1, []) == Ok([]);
    }
  }
}
