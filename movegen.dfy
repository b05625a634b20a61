/** The move generators of chess_engine.py's GameState (pawn, king and knight,
    sliding pieces) as functions of the position: which end squares a piece
    reaches, and the moves built for them in the order the generators append
    them. */
module Movegen {
  import opened Wrappers
  import opened Pieces
  import opened Occupancy
  import opened Moves

  /** Indexing one axis of the numpy array of squares: a negative index
      counts from the end, anything outside [-n, n) is an IndexError. */
  function Wrap(i: int, n: nat): (r: Result<int>)
    ensures r.Ok? <==> -(n as int) <= i < n
    ensures r.Ok? ==> 0 <= r.value < n && (r.value == i || r.value == i + n)
    ensures 0 <= i < n ==> r == Ok(i)
    ensures r.Err? ==> r.error == IndexError
  {
    if 0 <= i < n then Ok(i) else if -(n as int) <= i < 0 then Ok(i + n) else Err(IndexError)
  }

  /** The square `s[c]` of the board, both coordinates wrapped. */
  function SquareOf(p: Position, c: Coord): (r: Result<Coord>)
    ensures r.Ok? ==> InBounds(p.files, p.ranks, r.value)
    ensures InBounds(p.files, p.ranks, c) ==> r == Ok(c)
    ensures r.Err? ==> r.error == IndexError
  {
    match Wrap(c.0, p.files)
    case Err(e) => Err(e)
    case Ok(f) =>
      match Wrap(c.1, p.ranks)
      case Err(e) => Err(e)
      case Ok(r) => Ok((f, r))
  }

  /** The square i steps from c in direction d. */
  function Step(c: Coord, d: Direction, i: int): Coord {
    (c.0 + d.0 * i, c.1 + d.1 * i)
  }

  /** What every generated move satisfies: both squares exist, the moved piece
      is the start square's occupant, and the id records that piece and the
      two squares. */
  ghost predicate Sound(p: Position, m: Move) {
    m.start in p.grid && m.end in p.grid && Occupant(p, m.start) == Some(m.pieceMoved) &&
    m.id.pieceMoved == m.pieceMoved && m.id.squares == SquareCode(m.start, m.end)
  }

  ghost predicate AllSound(p: Position, ms: seq<Move>) {
    forall i :: 0 <= i < |ms| ==> Sound(p, ms[i])
  }

  /** The moves Move(start, end, n) for each end square, in order. */
  function Plain(p: Position, start: Coord, ends: seq<Coord>, n: int): (r: seq<Move>)
    requires Occupant(p, start).Some?
    ensures |r| == |ends|
  {
    if ends == [] then []
    else Plain(p, start, ends[..|ends| - 1], n) + [NewMove(p, start, ends[|ends| - 1], n, None, None).value]
  }

  /** The i-th plain move is Move(start, ends[i], n). */
  lemma {:induction false} PlainMoves(p: Position, start: Coord, ends: seq<Coord>, n: int)
    requires Occupant(p, start).Some?
    ensures forall i :: 0 <= i < |ends| ==> NewMove(p, start, ends[i], n, None, None) == Ok(Plain(p, start, ends, n)[i])
    decreases |ends|
  {
    if ends != [] {
      var e0 := ends[..|ends| - 1];
      PlainMoves(p, start, e0, n);
      forall i | 0 <= i < |ends| - 1
        ensures NewMove(p, start, ends[i], n, None, None) == Ok(Plain(p, start, ends, n)[i])
      {
        assert ends[i] == e0[i];
      }
    }
  }

  /** Appending the moves from start to ends: the first Move raises a
      ValueError when start holds no piece. */
  function Emit(p: Position, start: Coord, ends: seq<Coord>, n: int, moves: seq<Move>): Result<seq<Move>> {
    if ends == [] then Ok(moves)
    else if Occupant(p, start).None? then Err(ValueError)
    else Ok(moves + Plain(p, start, ends, n))
  }

  lemma EmitSound(p: Position, start: Coord, ends: seq<Coord>, n: int, moves: seq<Move>)
    requires Shaped(p) && start in p.grid && AllSound(p, moves)
    requires forall i :: 0 <= i < |ends| ==> InBounds(p.files, p.ranks, ends[i])
    ensures Emit(p, start, ends, n, moves).Ok? ==> AllSound(p, Emit(p, start, ends, n, moves).value)
    ensures Emit(p, start, ends, n, moves).Ok? ==> |Emit(p, start, ends, n, moves).value| == |moves| + |ends|
    ensures Emit(p, start, ends, n, moves).Ok? ==> Emit(p, start, ends, n, moves).value[..|moves|] == moves
    ensures Emit(p, start, ends, n, moves).Ok? ==> forall i :: 0 <= i < |ends| ==>
      Emit(p, start, ends, n, moves).value[|moves| + i].start == start &&
      Emit(p, start, ends, n, moves).value[|moves| + i].end == ends[i]
    ensures Emit(p, start, ends, n, moves).Err? <==> ends != [] && Occupant(p, start).None?
  {
    if ends != [] && Occupant(p, start).Some? {
      var r := moves + Plain(p, start, ends, n);
      PlainMoves(p, start, ends, n);
      forall i | 0 <= i < |r| ensures Sound(p, r[i]) {
        if i >= |moves| {
          assert NewMove(p, start, ends[i - |moves|], n, None, None) == Ok(r[i]);
        }
      }
    }
  }

  /** Emit over one more end square: the move to it is appended, or the
      first Move raises and every non-empty emission does. */
  lemma EmitSnoc(p: Position, start: Coord, ends: seq<Coord>, c: Coord, n: int, moves: seq<Move>, acc: seq<Move>)
    requires Emit(p, start, ends, n, moves) == Ok(acc)
    ensures NewMove(p, start, c, n, None, None).Ok? ==>
      Emit(p, start, ends + [c], n, moves) == Ok(acc + [NewMove(p, start, c, n, None, None).value])
    ensures NewMove(p, start, c, n, None, None).Err? ==>
      NewMove(p, start, c, n, None, None).error == ValueError &&
      forall e :: e != [] ==> Emit(p, start, e, n, moves) == Err(ValueError)
  {
    if Occupant(p, start).Some? {
      var x := NewMove(p, start, c, n, None, None).value;
      var e := ends + [c];
      assert e[..|e| - 1] == ends;
      var a := Plain(p, start, ends, n);
      assert Plain(p, start, e, n) == a + [x];
      assert acc == moves + a;
      calc {
        Emit(p, start, e, n, moves);
        Ok(moves + (a + [x]));
        { assert moves + (a + [x]) == (moves + a) + [x]; }
        Ok(acc + [x]);
      }
    }
  }

  /** Once the moves to some end squares cannot be built, none can. */
  lemma EmitPrefixErr(p: Position, start: Coord, a: seq<Coord>, b: seq<Coord>, n: int, moves: seq<Move>)
    requires a <= b && Emit(p, start, a, n, moves).Err?
    ensures Emit(p, start, b, n, moves) == Emit(p, start, a, n, moves)
  {
    assert a[0] == b[0];
  }

  // ---- King and knight: one step in each stored direction ----

  /** The squares start + d, in the order of dirs, that exist and hold no piece
      of the mover's colour. */
  function LeaperEnds(p: Position, start: Coord, color: Color, dirs: seq<Direction>): seq<Coord> {
    if dirs == [] then []
    else
      var c := Step(start, dirs[|dirs| - 1], 1);
      LeaperEnds(p, start, color, dirs[..|dirs| - 1]) +
        (if InBounds(p.files, p.ranks, c) && !HasFriendlyPiece(p, c, color) then [c] else [])
  }

  /** A square is a leaper end exactly when it is one step along a stored
      direction, exists, and holds no friendly piece. */
  lemma {:induction false} LeaperEndsExact(p: Position, start: Coord, color: Color, dirs: seq<Direction>)
    ensures forall c :: c in LeaperEnds(p, start, color, dirs) <==>
      InBounds(p.files, p.ranks, c) && !HasFriendlyPiece(p, c, color) &&
      exists d :: d in dirs && c == Step(start, d, 1)
  {
    if dirs != [] {
      var init := dirs[..|dirs| - 1];
      var last := dirs[|dirs| - 1];
      LeaperEndsExact(p, start, color, init);
      assert dirs == init + [last];
      forall c ensures c in LeaperEnds(p, start, color, dirs) <==>
        InBounds(p.files, p.ranks, c) && !HasFriendlyPiece(p, c, color) &&
        exists d :: d in dirs && c == Step(start, d, 1)
      {
        if c in LeaperEnds(p, start, color, dirs) && c !in LeaperEnds(p, start, color, init) {
          assert last in dirs && c == Step(start, last, 1);
        }
        if InBounds(p.files, p.ranks, c) && !HasFriendlyPiece(p, c, color) &&
           exists d :: d in dirs && c == Step(start, d, 1) {
          var d :| d in dirs && c == Step(start, d, 1);
          if d != last {
            assert d in init;
          }
        }
      }
    }
  }

  lemma {:induction false} LeaperEndsInBounds(p: Position, start: Coord, color: Color, dirs: seq<Direction>)
    ensures forall i :: 0 <= i < |LeaperEnds(p, start, color, dirs)| ==>
      InBounds(p.files, p.ranks, LeaperEnds(p, start, color, dirs)[i])
  {
    LeaperEndsExact(p, start, color, dirs);
    forall i | 0 <= i < |LeaperEnds(p, start, color, dirs)|
      ensures InBounds(p.files, p.ranks, LeaperEnds(p, start, color, dirs)[i])
    {
      assert LeaperEnds(p, start, color, dirs)[i] in LeaperEnds(p, start, color, dirs);
    }
  }

  /** get_king_and_knight_moves: nothing for a piece off the board or pinned,
      otherwise one move per leaper end. */
  function KingKnightMoves(p: Position, q: PieceId, n: int, moves: seq<Move>): Result<seq<Move>>
    requires q < |p.table|
  {
    var pc := p.table[q];
    if !IsOnBoard(pc) || IsPinned(pc) then Ok(moves)
    else Emit(p, pc.square.value, LeaperEnds(p, pc.square.value, pc.color, Directions(pc.kind, pc.color)), n, moves)
  }

  /** A pinned king or knight adds nothing. Otherwise the added moves start on
      the piece's square and end exactly on the squares one stored step away
      that exist and hold no friendly piece. */
  lemma KingKnightTargets(p: Position, q: PieceId, n: int, moves: seq<Move>)
    requires Shaped(p) && Placed(p) && q < |p.table| && AllSound(p, moves)
    ensures IsPinned(p.table[q]) ==> KingKnightMoves(p, q, n, moves) == Ok(moves)
    ensures KingKnightMoves(p, q, n, moves).Ok? ==> AllSound(p, KingKnightMoves(p, q, n, moves).value)
    ensures KingKnightMoves(p, q, n, moves).Ok? ==>
      var r := KingKnightMoves(p, q, n, moves).value;
      var pc := p.table[q];
      |moves| <= |r| && r[..|moves|] == moves &&
      forall i :: |moves| <= i < |r| ==>
        pc.square == Some(r[i].start) &&
        InBounds(p.files, p.ranks, r[i].end) && !HasFriendlyPiece(p, r[i].end, pc.color) &&
        exists d :: d in Directions(pc.kind, pc.color) && r[i].end == Step(r[i].start, d, 1)
  {
    var pc := p.table[q];
    if IsOnBoard(pc) && !IsPinned(pc) {
      var start := pc.square.value;
      var ends := LeaperEnds(p, start, pc.color, Directions(pc.kind, pc.color));
      LeaperEndsExact(p, start, pc.color, Directions(pc.kind, pc.color));
      LeaperEndsInBounds(p, start, pc.color, Directions(pc.kind, pc.color));
      EmitSound(p, start, ends, n, moves);
      if Emit(p, start, ends, n, moves).Ok? {
        var r := Emit(p, start, ends, n, moves).value;
        forall i | |moves| <= i < |r|
          ensures pc.square == Some(r[i].start)
          ensures InBounds(p.files, p.ranks, r[i].end) && !HasFriendlyPiece(p, r[i].end, pc.color) &&
            exists d :: d in Directions(pc.kind, pc.color) && r[i].end == Step(r[i].start, d, 1)
        {
          var j := i - |moves|;
          assert r[|moves| + j] == r[i];
          assert r[i].end == ends[j] && ends[j] in ends;
        }
      }
    }
  }

  // ---- Sliding pieces ----

  /** No square existing strictly between steps i and k of the ray holds a piece. */
  ghost predicate RayClear(p: Position, start: Coord, d: Direction, i: int, k: int) {
    forall j :: i <= j < k && InBounds(p.files, p.ranks, Step(start, d, j)) ==> !HasPiece(p, Step(start, d, j))
  }

  /** The inner loop of find_moves_on_path for steps i to limit - 1: squares
      off the board are skipped, an empty square is taken and the walk goes
      on, a friendly piece stops it, an enemy piece is taken and stops it. */
  function RayFrom(p: Position, start: Coord, d: Direction, color: Color, i: nat, limit: nat): seq<Coord>
    decreases limit - i
  {
    if i >= limit then []
    else
      var c := Step(start, d, i);
      if !InBounds(p.files, p.ranks, c) then RayFrom(p, start, d, color, i + 1, limit)
      else if !HasPiece(p, c) then [c] + RayFrom(p, start, d, color, i + 1, limit)
      else if HasFriendlyPiece(p, c, color) then []
      else [c]
  }

  /** Every square exists and holds no friendly piece, and only the last can
      be occupied. */
  ghost predicate RayShaped(p: Position, color: Color, r: seq<Coord>) {
    (forall j :: 0 <= j < |r| ==> InBounds(p.files, p.ranks, r[j]) && !HasFriendlyPiece(p, r[j], color)) &&
    (forall j :: 0 <= j < |r| - 1 ==> !HasPiece(p, r[j]))
  }

  /** Every square of a ray exists and holds no friendly piece, and only its
      last square can be occupied: nothing beyond the first occupied square
      is generated. */
  lemma {:induction false} RayStops(p: Position, start: Coord, d: Direction, color: Color, i: nat, limit: nat)
    ensures RayShaped(p, color, RayFrom(p, start, d, color, i, limit))
    decreases limit - i
  {
    if i < limit {
      RayStops(p, start, d, color, i + 1, limit);
      var rest := RayFrom(p, start, d, color, i + 1, limit);
      var c := Step(start, d, i);
      if InBounds(p.files, p.ranks, c) && !HasPiece(p, c) {
        var r := [c] + rest;
        assert RayFrom(p, start, d, color, i, limit) == r;
        forall j | 0 < j < |r| ensures r[j] == rest[j - 1] {}
      }
    }
  }

  /** Every square of a ray is some step k of it, with nothing in between. */
  lemma {:induction false} RaySound(p: Position, start: Coord, d: Direction, color: Color, i: nat, limit: nat)
    ensures forall c :: c in RayFrom(p, start, d, color, i, limit) ==>
      exists k :: i <= k < limit && c == Step(start, d, k) && RayClear(p, start, d, i, k)
    decreases limit - i
  {
    if i < limit {
      RaySound(p, start, d, color, i + 1, limit);
      var c0 := Step(start, d, i);
      forall c | c in RayFrom(p, start, d, color, i, limit)
        ensures exists k :: i <= k < limit && c == Step(start, d, k) && RayClear(p, start, d, i, k)
      {
        if c == c0 && (!InBounds(p.files, p.ranks, c0) ==> false) {
          assert RayClear(p, start, d, i, i);
        } else {
          assert InBounds(p.files, p.ranks, c0) ==> !HasPiece(p, c0);
          assert c in RayFrom(p, start, d, color, i + 1, limit);
          var k :| i + 1 <= k < limit && c == Step(start, d, k) && RayClear(p, start, d, i + 1, k);
          assert RayClear(p, start, d, i, k);
        }
      }
    }
  }

  /** Every step that exists, holds no friendly piece and has nothing in
      front of it is generated; in particular an enemy on the first occupied
      square is. */
  lemma {:induction false} RayComplete(p: Position, start: Coord, d: Direction, color: Color, i: nat, limit: nat, k: int)
    requires i <= k < limit && RayClear(p, start, d, i, k)
    requires InBounds(p.files, p.ranks, Step(start, d, k)) && !HasFriendlyPiece(p, Step(start, d, k), color)
    ensures Step(start, d, k) in RayFrom(p, start, d, color, i, limit)
    decreases k - i
  {
    if i < k {
      assert InBounds(p.files, p.ranks, Step(start, d, i)) ==> !HasPiece(p, Step(start, d, i));
      RayComplete(p, start, d, color, i + 1, limit, k);
    }
  }

  /** find_moves_on_path walks a direction when the piece is not pinned or is
      pinned along that line, either way. */
  predicate PathAllowed(pin: Option<Direction>, d: Direction) {
    pin.None? || pin == Some(d) || pin == Some((-d.0, -d.1))
  }

  /** The end squares of find_moves_on_path, direction by direction. */
  function PathEnds(p: Position, start: Coord, pc: PieceRec, dirs: seq<Direction>, limit: nat): seq<Coord> {
    if dirs == [] then []
    else
      var d := dirs[|dirs| - 1];
      PathEnds(p, start, pc, dirs[..|dirs| - 1], limit) +
        (if PathAllowed(pc.pinDirection, d) then RayFrom(p, start, d, pc.color, 1, limit) else [])
  }

  /** A square is a path end exactly when it lies on the ray of an allowed
      direction. */
  lemma {:induction false} PathEndsExact(p: Position, start: Coord, pc: PieceRec, dirs: seq<Direction>, limit: nat)
    ensures forall c :: c in PathEnds(p, start, pc, dirs, limit) <==>
      exists d :: d in dirs && PathAllowed(pc.pinDirection, d) && c in RayFrom(p, start, d, pc.color, 1, limit)
  {
    if dirs != [] {
      var init := dirs[..|dirs| - 1];
      var last := dirs[|dirs| - 1];
      PathEndsExact(p, start, pc, init, limit);
      assert dirs == init + [last];
      forall c ensures c in PathEnds(p, start, pc, dirs, limit) <==>
        exists d :: d in dirs && PathAllowed(pc.pinDirection, d) && c in RayFrom(p, start, d, pc.color, 1, limit)
      {
        if exists d :: d in dirs && PathAllowed(pc.pinDirection, d) && c in RayFrom(p, start, d, pc.color, 1, limit) {
          var d :| d in dirs && PathAllowed(pc.pinDirection, d) && c in RayFrom(p, start, d, pc.color, 1, limit);
          if d != last {
            assert d in init;
          }
        }
      }
    }
  }

  lemma {:induction false} PathEndsInBounds(p: Position, start: Coord, pc: PieceRec, dirs: seq<Direction>, limit: nat)
    ensures forall i :: 0 <= i < |PathEnds(p, start, pc, dirs, limit)| ==>
      InBounds(p.files, p.ranks, PathEnds(p, start, pc, dirs, limit)[i]) &&
      !HasFriendlyPiece(p, PathEnds(p, start, pc, dirs, limit)[i], pc.color)
  {
    if dirs != [] {
      var a := PathEnds(p, start, pc, dirs[..|dirs| - 1], limit);
      var d := dirs[|dirs| - 1];
      var b := if PathAllowed(pc.pinDirection, d) then RayFrom(p, start, d, pc.color, 1, limit) else [];
      PathEndsInBounds(p, start, pc, dirs[..|dirs| - 1], limit);
      RayStops(p, start, d, pc.color, 1, limit);
      assert RayShaped(p, pc.color, b);
      assert PathEnds(p, start, pc, dirs, limit) == a + b;
      forall i | 0 <= i < |a + b|
        ensures InBounds(p.files, p.ranks, (a + b)[i]) && !HasFriendlyPiece(p, (a + b)[i], pc.color)
      {
        if i >= |a| {
          assert (a + b)[i] == b[i - |a|];
        }
      }
    }
  }

  /** One more direction adds its ray, when the piece may move along it. */
  lemma PathEndsStep(p: Position, start: Coord, pc: PieceRec, dirs: seq<Direction>, k: nat, limit: nat)
    requires k < |dirs|
    ensures PathEnds(p, start, pc, dirs[..k + 1], limit) == PathEnds(p, start, pc, dirs[..k], limit) +
      if PathAllowed(pc.pinDirection, dirs[k]) then RayFrom(p, start, dirs[k], pc.color, 1, limit) else []
  {
    assert dirs[..k + 1][..k] == dirs[..k];
  }

  /** The ends found along the first k directions come first among all. */
  lemma {:induction false} PathEndsPrefix(p: Position, start: Coord, pc: PieceRec, dirs: seq<Direction>, k: nat, limit: nat)
    requires k <= |dirs|
    ensures PathEnds(p, start, pc, dirs[..k], limit) <= PathEnds(p, start, pc, dirs, limit)
    decreases |dirs|
  {
    if k < |dirs| {
      var init := dirs[..|dirs| - 1];
      assert init[..k] == dirs[..k];
      PathEndsPrefix(p, start, pc, init, k, limit);
    } else {
      assert dirs[..k] == dirs;
    }
  }

  function PathRange(p: Position): nat {
    if p.files >= p.ranks then p.files else p.ranks
  }

  /** find_moves_on_path: the moves along every allowed direction, for steps
      1 to max(files, ranks) - 1. */
  function PathMoves(p: Position, q: PieceId, n: int, moves: seq<Move>): Result<seq<Move>>
    requires q < |p.table|
  {
    var pc := p.table[q];
    if !IsOnBoard(pc) then Ok(moves)
    else Emit(p, pc.square.value, PathEnds(p, pc.square.value, pc, Directions(pc.kind, pc.color), PathRange(p)), n, moves)
  }

  /** The added moves of a sliding piece start on its square and end exactly on
      the squares of the rays along its allowed directions; every such square
      exists and holds no friendly piece. */
  lemma PathTargets(p: Position, q: PieceId, n: int, moves: seq<Move>)
    requires Shaped(p) && Placed(p) && q < |p.table| && AllSound(p, moves)
    ensures PathMoves(p, q, n, moves).Ok? ==> AllSound(p, PathMoves(p, q, n, moves).value)
    ensures PathMoves(p, q, n, moves).Ok? ==>
      var r := PathMoves(p, q, n, moves).value;
      var pc := p.table[q];
      |moves| <= |r| && r[..|moves|] == moves &&
      (forall i :: |moves| <= i < |r| ==>
        pc.square == Some(r[i].start) &&
        InBounds(p.files, p.ranks, r[i].end) && !HasFriendlyPiece(p, r[i].end, pc.color) &&
        exists d :: d in Directions(pc.kind, pc.color) && PathAllowed(pc.pinDirection, d) &&
          r[i].end in RayFrom(p, r[i].start, d, pc.color, 1, PathRange(p))) &&
      (IsOnBoard(pc) ==> forall d, c ::
         (d in Directions(pc.kind, pc.color) && PathAllowed(pc.pinDirection, d) &&
          c in RayFrom(p, pc.square.value, d, pc.color, 1, PathRange(p))) ==>
         exists i :: |moves| <= i < |r| && r[i].end == c)
  {
    var pc := p.table[q];
    if IsOnBoard(pc) {
      var start := pc.square.value;
      var dirs := Directions(pc.kind, pc.color);
      var ends := PathEnds(p, start, pc, dirs, PathRange(p));
      PathEndsExact(p, start, pc, dirs, PathRange(p));
      PathEndsInBounds(p, start, pc, dirs, PathRange(p));
      EmitSound(p, start, ends, n, moves);
      if Emit(p, start, ends, n, moves).Ok? {
        var r := Emit(p, start, ends, n, moves).value;
        forall i | |moves| <= i < |r|
          ensures pc.square == Some(r[i].start)
          ensures InBounds(p.files, p.ranks, r[i].end) && !HasFriendlyPiece(p, r[i].end, pc.color)
          ensures exists d :: (d in dirs && PathAllowed(pc.pinDirection, d) &&
            r[i].end in RayFrom(p, r[i].start, d, pc.color, 1, PathRange(p)))
        {
          var j := i - |moves|;
          assert r[|moves| + j] == r[i];
          assert r[i].end == ends[j] && ends[j] in ends;
        }
        forall d, c | d in dirs && PathAllowed(pc.pinDirection, d) && c in RayFrom(p, start, d, pc.color, 1, PathRange(p))
          ensures exists i :: |moves| <= i < |r| && r[i].end == c
        {
          assert c in ends;
          var j :| 0 <= j < |ends| && ends[j] == c;
          assert r[|moves| + j].end == c;
        }
      }
    }
  }

  // ---- Pawns ----

  /** The forward steps of get_pawn_moves: allowed when unpinned or pinned
      along the file; one step onto an empty square, then, for an unmoved
      pawn, a second. Rank indices are not bounds-checked below 0 and wrap. */
  function PawnPushes(p: Position, pc: PieceRec, start: Coord, n: int, moves: seq<Move>): Result<seq<Move>> {
    var y := PawnDirection(pc.color).1;
    if !(pc.pinDirection.None? || pc.pinDirection == Some((0, y)) || pc.pinDirection == Some((0, -y))) then Ok(moves)
    else if !(start.1 + y < p.ranks) then Ok(moves)
    else
      match SquareOf(p, (start.0, start.1 + y))
      case Err(e) => Err(e)
      case Ok(one) =>
        if HasPiece(p, one) then Ok(moves)
        else
          match NewMove(p, start, one, n, None, None)
          case Err(e) => Err(e)
          case Ok(m1) =>
            if HasMoved(pc) then Ok(moves + [m1])
            else
              match SquareOf(p, (start.0, start.1 + 2 * y))
              case Err(e) => Err(e)
              case Ok(two) =>
                if HasPiece(p, two) then Ok(moves + [m1])
                else Ok(moves + [m1, NewMove(p, start, two, n, None, None).value])
  }

  /** The diagonal capture in file direction x: allowed when unpinned or
      pinned along (x, y); the square must exist and hold an enemy. */
  function PawnCapture(p: Position, pc: PieceRec, start: Coord, x: int, n: int, moves: seq<Move>): Result<seq<Move>> {
    var y := PawnDirection(pc.color).1;
    var c := (start.0 + x, start.1 + y);
    if !(pc.pinDirection.None? || pc.pinDirection == Some((x, y))) then Ok(moves)
    else if InBounds(p.files, p.ranks, c) && HasEnemyPiece(p, c, pc.color) then
      match NewMove(p, start, c, n, None, None)
      case Err(e) => Err(e)
      case Ok(m) => Ok(moves + [m])
    else Ok(moves)
  }

  /** The en-passant capture: when the target square is beside the pawn on its
      rank, the pawn moves diagonally behind it and the move records the
      target's piece as captured. Pins are not consulted. */
  function PawnEnPassant(p: Position, pc: PieceRec, start: Coord, ep: Option<Coord>, n: int, moves: seq<Move>): Result<seq<Move>> {
    var y := PawnDirection(pc.color).1;
    if ep.None? || Abs(start.0 - ep.value.0) != 1 || start.1 != ep.value.1 then Ok(moves)
    else
      match SquareOf(p, ep.value)
      case Err(e) => Err(e)
      case Ok(epSquare) =>
        match SquareOf(p, (ep.value.0, start.1 + y))
        case Err(e) => Err(e)
        case Ok(end) =>
          match NewMove(p, start, end, n, None, Some(epSquare))
          case Err(e) => Err(e)
          case Ok(m) => Ok(moves + [m.(pieceCaptured := Occupant(p, epSquare))])
  }

  /** get_pawn_moves: pushes, the two captures (file direction -1, then +1),
      then en passant. Unpacking the coordinates of a pawn off the board raises
      a ValueError. */
  function PawnMoves(p: Position, q: PieceId, n: int, ep: Option<Coord>, moves: seq<Move>): Result<seq<Move>>
    requires q < |p.table|
  {
    var pc := p.table[q];
    if !IsOnBoard(pc) then Err(ValueError)
    else
      var start := pc.square.value;
      match PawnPushes(p, pc, start, n, moves)
      case Err(e) => Err(e)
      case Ok(m1) =>
        match PawnCaptures(p, pc, start, HORIZONTAL, 0, n, m1)
        case Err(e) => Err(e)
        case Ok(m2) => PawnEnPassant(p, pc, start, ep, n, m2)
  }

  /** The capture loop of get_pawn_moves, over the file directions of xs
      from the j-th on. */
  function PawnCaptures(p: Position, pc: PieceRec, start: Coord, xs: seq<Direction>, j: nat, n: int,
                        moves: seq<Move>): Result<seq<Move>>
    decreases |xs| - j
  {
    if j >= |xs| then Ok(moves)
    else
      match PawnCapture(p, pc, start, xs[j].0, n, moves)
      case Err(e) => Err(e)
      case Ok(m) => PawnCaptures(p, pc, start, xs, j + 1, n, m)
  }

  /** The square k ranks ahead of the pawn on its file. */
  function Ahead(p: Position, pc: PieceRec, start: Coord, k: int): Result<Coord> {
    SquareOf(p, (start.0, start.1 + k * PawnDirection(pc.color).1))
  }

  /** The kinds of move a pawn generates, checked on one added move. */
  ghost predicate PawnStep(p: Position, pc: PieceRec, ep: Option<Coord>, m: Move) {
    var start := m.start;
    var y := PawnDirection(pc.color).1;
    pc.square == Some(start) && (
      // a push, unpinned or pinned along the file: one rank ahead onto an
      // empty square, or two ranks ahead for an unmoved pawn whose first
      // square ahead is empty too
      ((pc.pinDirection.None? || pc.pinDirection == Some((0, y)) || pc.pinDirection == Some((0, -y))) &&
       start.1 + y < p.ranks && !HasPiece(p, m.end) && m.enpassant.None? && m.pieceCaptured.None? &&
       (Ahead(p, pc, start, 1) == Ok(m.end) ||
        (!HasMoved(pc) && Ahead(p, pc, start, 1).Ok? && !HasPiece(p, Ahead(p, pc, start, 1).value) &&
         Ahead(p, pc, start, 2) == Ok(m.end)))) ||
      // a capture, unpinned or pinned along its diagonal: one file aside and
      // one rank forward, onto an enemy
      (Abs(m.end.0 - start.0) == 1 && m.end.1 == start.1 + y && HasEnemyPiece(p, m.end, pc.color) &&
       (pc.pinDirection.None? || pc.pinDirection == Some((m.end.0 - start.0, y))) &&
       m.enpassant.None? && m.pieceCaptured == Occupant(p, m.end)) ||
      // en passant: beside the target, capturing what stands on it
      (ep.Some? && m.enpassant == Some(ep.value) && Abs(start.0 - ep.value.0) == 1 && start.1 == ep.value.1 &&
       m.end.0 == ep.value.0 && m.pieceCaptured == Occupant(p, ep.value)))
  }

  /** The moves added by one phase of get_pawn_moves keep the list's prefix,
      are sound, and are pawn steps. */
  ghost predicate PawnPhase(p: Position, pc: PieceRec, ep: Option<Coord>, moves: seq<Move>, r: Result<seq<Move>>) {
    r.Ok? ==>
      |moves| <= |r.value| && r.value[..|moves|] == moves && AllSound(p, r.value) &&
      forall i :: |moves| <= i < |r.value| ==> PawnStep(p, pc, ep, r.value[i])
  }

  lemma PushesShape(p: Position, pc: PieceRec, start: Coord, ep: Option<Coord>, n: int, moves: seq<Move>)
    requires Shaped(p) && Closed(p) && start in p.grid && pc.square == Some(start) && AllSound(p, moves)
    ensures PawnPhase(p, pc, ep, moves, PawnPushes(p, pc, start, n, moves))
  {
    var y := PawnDirection(pc.color).1;
    assert Ahead(p, pc, start, 1) == SquareOf(p, (start.0, start.1 + y));
    assert Ahead(p, pc, start, 2) == SquareOf(p, (start.0, start.1 + 2 * y));
  }

  /** Conversely the pushes the pawn is allowed are generated: one rank ahead
      onto an empty square, and for an unmoved pawn two ranks ahead when both
      squares are empty. */
  lemma PushesComplete(p: Position, pc: PieceRec, start: Coord, n: int, moves: seq<Move>)
    ensures var y := PawnDirection(pc.color).1; var r := PawnPushes(p, pc, start, n, moves);
      r.Ok? && (pc.pinDirection.None? || pc.pinDirection == Some((0, y)) || pc.pinDirection == Some((0, -y))) &&
      start.1 + y < p.ranks && Ahead(p, pc, start, 1).Ok? && !HasPiece(p, Ahead(p, pc, start, 1).value) ==>
        (exists m :: m in r.value && m.start == start && m.end == Ahead(p, pc, start, 1).value) &&
        (!HasMoved(pc) && Ahead(p, pc, start, 2).Ok? && !HasPiece(p, Ahead(p, pc, start, 2).value) ==>
           exists m :: m in r.value && m.start == start && m.end == Ahead(p, pc, start, 2).value)
  {
    var y := PawnDirection(pc.color).1;
    assert Ahead(p, pc, start, 1) == SquareOf(p, (start.0, start.1 + y));
    assert Ahead(p, pc, start, 2) == SquareOf(p, (start.0, start.1 + 2 * y));
    var r := PawnPushes(p, pc, start, n, moves);
    if r.Ok? && (pc.pinDirection.None? || pc.pinDirection == Some((0, y)) || pc.pinDirection == Some((0, -y))) &&
       start.1 + y < p.ranks && Ahead(p, pc, start, 1).Ok? && !HasPiece(p, Ahead(p, pc, start, 1).value) {
      var one := Ahead(p, pc, start, 1).value;
      var m1 := NewMove(p, start, one, n, None, None).value;
      assert r.value[|moves|] == m1;
      if !HasMoved(pc) && Ahead(p, pc, start, 2).Ok? && !HasPiece(p, Ahead(p, pc, start, 2).value) {
        assert r.value[|moves| + 1].end == Ahead(p, pc, start, 2).value;
      }
    }
  }

  /** Conversely the capture in file direction x is generated when the pin
      allows it and the square one file aside and one rank ahead holds an
      enemy. */
  lemma CaptureComplete(p: Position, pc: PieceRec, start: Coord, x: int, n: int, moves: seq<Move>)
    ensures var y := PawnDirection(pc.color).1; var c := (start.0 + x, start.1 + y);
      var r := PawnCapture(p, pc, start, x, n, moves);
      r.Ok? && (pc.pinDirection.None? || pc.pinDirection == Some((x, y))) &&
      InBounds(p.files, p.ranks, c) && HasEnemyPiece(p, c, pc.color) ==>
        exists m :: m in r.value && m.start == start && m.end == c && m.pieceCaptured == Occupant(p, c)
  {
    var y := PawnDirection(pc.color).1;
    var c := (start.0 + x, start.1 + y);
    var r := PawnCapture(p, pc, start, x, n, moves);
    if r.Ok? && (pc.pinDirection.None? || pc.pinDirection == Some((x, y))) &&
       InBounds(p.files, p.ranks, c) && HasEnemyPiece(p, c, pc.color) {
      assert r.value[|moves|] == NewMove(p, start, c, n, None, None).value;
    }
  }

  lemma CaptureShape(p: Position, pc: PieceRec, start: Coord, x: int, ep: Option<Coord>, n: int, moves: seq<Move>)
    requires Shaped(p) && Closed(p) && start in p.grid && pc.square == Some(start) && AllSound(p, moves)
    requires x == -1 || x == 1
    ensures PawnPhase(p, pc, ep, moves, PawnCapture(p, pc, start, x, n, moves))
  {
  }

  lemma {:induction false} CapturesShape(p: Position, pc: PieceRec, start: Coord, xs: seq<Direction>, j: nat,
                                         ep: Option<Coord>, n: int, moves: seq<Move>)
    requires Shaped(p) && Closed(p) && start in p.grid && pc.square == Some(start) && AllSound(p, moves)
    requires forall i :: 0 <= i < |xs| ==> xs[i].0 == -1 || xs[i].0 == 1
    ensures PawnPhase(p, pc, ep, moves, PawnCaptures(p, pc, start, xs, j, n, moves))
    decreases |xs| - j
  {
    if j < |xs| {
      CaptureShape(p, pc, start, xs[j].0, ep, n, moves);
      var r := PawnCapture(p, pc, start, xs[j].0, n, moves);
      if r.Ok? {
        CapturesShape(p, pc, start, xs, j + 1, ep, n, r.value);
        PhaseChain(p, pc, ep, moves, r.value, PawnCaptures(p, pc, start, xs, j + 1, n, r.value));
      }
    } else {
      assert moves[..|moves|] == moves;
    }
  }

  lemma EnPassantShape(p: Position, pc: PieceRec, start: Coord, ep: Option<Coord>, n: int, moves: seq<Move>)
    requires Shaped(p) && Closed(p) && start in p.grid && pc.square == Some(start) && AllSound(p, moves)
    requires ep.Some? ==> ep.value in p.grid
    ensures PawnPhase(p, pc, ep, moves, PawnEnPassant(p, pc, start, ep, n, moves))
  {
  }

  lemma PhaseChain(p: Position, pc: PieceRec, ep: Option<Coord>, a: seq<Move>, b: seq<Move>, r: Result<seq<Move>>)
    requires PawnPhase(p, pc, ep, a, Ok(b)) && PawnPhase(p, pc, ep, b, r)
    ensures PawnPhase(p, pc, ep, a, r)
  {
    if r.Ok? {
      assert r.value[..|a|] == r.value[..|b|][..|a|];
      forall i | |a| <= i < |r.value| ensures PawnStep(p, pc, ep, r.value[i]) {
        if i < |b| {
          assert r.value[i] == b[i];
        }
      }
    }
  }

  /** Every move get_pawn_moves adds starts on the pawn's square and is a
      push onto an empty square of its file, a diagonal capture of an enemy
      one rank forward, or the en-passant capture beside the target square. */
  lemma PawnTargets(p: Position, q: PieceId, n: int, ep: Option<Coord>, moves: seq<Move>)
    requires Shaped(p) && Closed(p) && Placed(p) && q < |p.table| && AllSound(p, moves)
    requires ep.Some? ==> ep.value in p.grid
    ensures PawnPhase(p, p.table[q], ep, moves, PawnMoves(p, q, n, ep, moves))
  {
    var pc := p.table[q];
    if IsOnBoard(pc) {
      var start := pc.square.value;
      PushesShape(p, pc, start, ep, n, moves);
      var r1 := PawnPushes(p, pc, start, n, moves);
      if r1.Ok? {
        CapturesShape(p, pc, start, HORIZONTAL, 0, ep, n, r1.value);
        var r2 := PawnCaptures(p, pc, start, HORIZONTAL, 0, n, r1.value);
        if r2.Ok? {
          PhaseChain(p, pc, ep, moves, r1.value, r2);
          EnPassantShape(p, pc, start, ep, n, r2.value);
          PhaseChain(p, pc, ep, moves, r2.value, PawnEnPassant(p, pc, start, ep, n, r2.value));
        }
      }
    }
  }
}
