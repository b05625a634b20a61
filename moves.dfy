/** The Move class of chess_engine.py: a move's squares, pieces and identity
    tuple, its algebraic notation and its log line. */
module Moves {
  import opened Wrappers
  import opened Pieces
  import opened Coordinates
  import opened Occupancy

  /** The castle tuple (rook, rook's square when the move was generated, the
      square the rook goes to). The rook's square is None when the rook's own
      `square` attribute was None. */
  datatype CastleInfo = CastleInfo(rook: PieceId, rookStart: Option<Coord>, rookEnd: Coord)

  /** A Move object. Squares are their coordinates on the game's board; the
      promotion piece, when set, is a piece of the board's table. */
  datatype Move = Move(
    start: Coord,
    end: Coord,
    moveNumber: int,
    pieceMoved: PieceId,
    pieceCaptured: Option<PieceId>,
    enpassant: Option<Coord>,
    promotion: Option<PieceId>,
    castle: Option<CastleInfo>,
    id: MoveId,
    name: string)

  /** The third component of a move's id: file and rank of both squares as
      the digits of one number. */
  function SquareCode(start: Coord, end: Coord): int {
    start.0 * 1000 + start.1 * 100 + end.0 * 10 + end.1
  }

  /** Move.__init__: the moved piece is the start square's occupant (a
      ValueError when there is none) and the captured piece the end square's. */
  function NewMove(p: Position, start: Coord, end: Coord, n: int,
                   castle: Option<CastleInfo>, ep: Option<Coord>): (r: Result<Move>)
    ensures r.Err? <==> Occupant(p, start).None?
    ensures r.Err? ==> r.error == ValueError
    ensures r.Ok? ==> r.value.start == start && r.value.end == end && r.value.moveNumber == n
    ensures r.Ok? ==> Some(r.value.pieceMoved) == Occupant(p, start) && r.value.pieceCaptured == Occupant(p, end)
    ensures r.Ok? ==> r.value.enpassant == ep && r.value.castle == castle && r.value.promotion.None?
    ensures r.Ok? ==> r.value.name == ""
    ensures r.Ok? ==> r.value.id == MoveId(n, r.value.pieceMoved, SquareCode(start, end), Occupant(p, end))
  {
    match Occupant(p, start)
    case None => Err(ValueError)
    case Some(moved) =>
      var captured := Occupant(p, end);
      Ok(Move(start, end, n, moved, captured, ep, None, castle,
              MoveId(n, moved, SquareCode(start, end), captured), ""))
  }

  /** Move.__eq__: two moves are equal when their id tuples are. */
  predicate SameMove(a: Move, b: Move) {
    a.id == b.id
  }

  predicate Digit(x: int) {
    0 <= x < 10
  }

  /** On boards of at most ten files and ranks the code determines both squares. */
  lemma SquareCodeInjective(s1: Coord, e1: Coord, s2: Coord, e2: Coord)
    requires Digit(s1.0) && Digit(s1.1) && Digit(e1.0) && Digit(e1.1)
    requires Digit(s2.0) && Digit(s2.1) && Digit(e2.0) && Digit(e2.1)
    ensures SquareCode(s1, e1) == SquareCode(s2, e2) <==> s1 == s2 && e1 == e2
  {
    if SquareCode(s1, e1) == SquareCode(s2, e2) {
      assert s1.0 == s2.0;
      assert s1.1 == s2.1;
      assert e1.0 == e2.0;
    }
  }

  /** On boards of eleven ranks two different pairs of squares share a code. */
  lemma SquareCodeCollides()
    ensures SquareCode((0, 10), (0, 0)) == SquareCode((1, 0), (0, 0))
  {
  }

  /** Two moves built on boards of at most ten files and ranks are equal
      exactly when they have the same move number, moved piece, squares and
      captured piece (the captured piece as the end square held it when the
      move was built). */
  lemma SameMoveIff(p1: Position, p2: Position, a: Move, b: Move,
                    sa: Coord, ea: Coord, na: int, ca: Option<CastleInfo>, epa: Option<Coord>,
                    sb: Coord, eb: Coord, nb: int, cb: Option<CastleInfo>, epb: Option<Coord>)
    requires NewMove(p1, sa, ea, na, ca, epa) == Ok(a) && NewMove(p2, sb, eb, nb, cb, epb) == Ok(b)
    requires Digit(sa.0) && Digit(sa.1) && Digit(ea.0) && Digit(ea.1)
    requires Digit(sb.0) && Digit(sb.1) && Digit(eb.0) && Digit(eb.1)
    ensures SameMove(a, b) <==>
      a.moveNumber == b.moveNumber && a.pieceMoved == b.pieceMoved && a.start == b.start &&
      a.end == b.end && Occupant(p1, ea) == Occupant(p2, eb)
  {
    SquareCodeInjective(sa, ea, sb, eb);
  }

  predicate ContainsPromotion(m: Move) {
    m.promotion.Some?
  }

  predicate ContainsCastle(m: Move) {
    m.castle.Some?
  }

  predicate ContainsEnpassant(m: Move) {
    m.enpassant.Some?
  }

  // ---------------------------------------------------------------------
  // Notation

  /** Every label of the table is at least one character long, so that every
      square has a name of two characters or more. */
  predicate LabelsNonEmpty(labels: Labels) {
    (forall i :: 0 <= i < |labels.files| ==> |labels.files[i]| >= 1) &&
    (forall i :: 0 <= i < |labels.ranks| ==> |labels.ranks[i]| >= 1)
  }

  predicate Named(labels: Labels, c: Coord) {
    0 <= c.0 < |labels.files| && 0 <= c.1 < |labels.ranks|
  }

  /** Square.get_name. */
  function SquareName(labels: Labels, c: Coord): (r: string)
    requires LabelsNonEmpty(labels) && Named(labels, c)
    ensures |r| >= 2 && r[0] == labels.files[c.0][0]
  {
    ToAlgebraic(labels, c.0, c.1)
  }

  /** The file and rank characters written so far to tell the moved piece
      from another piece of its kind ("" while not needed). */
  datatype Marks = Marks(file: string, rank: string)

  /** One valid move looked at by the inner disambiguation loop: a move of
      `other` to the same end square marks the start file when the files
      differ and no file is marked yet, otherwise the start rank when the
      ranks differ and no rank is marked yet. */
  function MarkStep(labels: Labels, m: Move, other: PieceId, mv: Move, k: Marks): Marks
    requires LabelsNonEmpty(labels) && Named(labels, m.start) && Named(labels, mv.start)
  {
    if mv.end == m.end && mv.pieceMoved == other then
      var startFile, startRank := SquareName(labels, m.start)[0], SquareName(labels, m.start)[1];
      var otherFile, otherRank := SquareName(labels, mv.start)[0], SquareName(labels, mv.start)[1];
      if startFile != otherFile && k.file == "" then k.(file := [startFile])
      else if startRank != otherRank && k.rank == "" then k.(rank := [startRank])
      else k
    else k
  }

  predicate AllNamed(labels: Labels, ms: seq<Move>) {
    forall i :: 0 <= i < |ms| ==> Named(labels, ms[i].start)
  }

  /** The inner loop over the valid moves from the j-th on. */
  function MarkFrom(labels: Labels, m: Move, other: PieceId, ms: seq<Move>, j: nat, k: Marks): Marks
    requires LabelsNonEmpty(labels) && Named(labels, m.start) && AllNamed(labels, ms)
    requires j <= |ms|
    decreases |ms| - j
  {
    if j == |ms| then k else MarkFrom(labels, m, other, ms, j + 1, MarkStep(labels, m, other, ms[j], k))
  }

  /** The outer loop over the moved piece's kind list from the i-th piece on;
      it stops once both a file and a rank are marked. */
  function DisambiguateFrom(labels: Labels, m: Move, list: seq<PieceId>, ms: seq<Move>, i: nat, k: Marks): Marks
    requires LabelsNonEmpty(labels) && Named(labels, m.start) && AllNamed(labels, ms)
    requires i <= |list|
    decreases |list| - i
  {
    if i == |list| || (k.file != "" && k.rank != "") then k
    else if list[i] == m.pieceMoved then DisambiguateFrom(labels, m, list, ms, i + 1, k)
    else DisambiguateFrom(labels, m, list, ms, i + 1, MarkFrom(labels, m, list[i], ms, 0, k))
  }

  /** A mark is empty or the moved piece's own start file (or rank) character. */
  predicate MarksOfStart(labels: Labels, m: Move, k: Marks)
    requires LabelsNonEmpty(labels) && Named(labels, m.start)
  {
    (k.file == "" || k.file == [SquareName(labels, m.start)[0]]) &&
    (k.rank == "" || k.rank == [SquareName(labels, m.start)[1]])
  }

  lemma {:induction false} MarkFromOfStart(labels: Labels, m: Move, other: PieceId, ms: seq<Move>, j: nat, k: Marks)
    requires LabelsNonEmpty(labels) && Named(labels, m.start) && AllNamed(labels, ms)
    requires j <= |ms| && MarksOfStart(labels, m, k)
    ensures MarksOfStart(labels, m, MarkFrom(labels, m, other, ms, j, k))
    decreases |ms| - j
  {
    if j < |ms| {
      MarkFromOfStart(labels, m, other, ms, j + 1, MarkStep(labels, m, other, ms[j], k));
    }
  }

  /** The disambiguation only ever writes the moved piece's start file and
      start rank, each at most once. */
  lemma {:induction false} DisambiguateOfStart(labels: Labels, m: Move, list: seq<PieceId>, ms: seq<Move>, i: nat, k: Marks)
    requires LabelsNonEmpty(labels) && Named(labels, m.start) && AllNamed(labels, ms)
    requires i <= |list| && MarksOfStart(labels, m, k)
    ensures MarksOfStart(labels, m, DisambiguateFrom(labels, m, list, ms, i, k))
    decreases |list| - i
  {
    if i == |list| || (k.file != "" && k.rank != "") {
    } else if list[i] == m.pieceMoved {
      DisambiguateOfStart(labels, m, list, ms, i + 1, k);
    } else {
      MarkFromOfStart(labels, m, list[i], ms, 0, k);
      DisambiguateOfStart(labels, m, list, ms, i + 1, MarkFrom(labels, m, list[i], ms, 0, k));
    }
  }

  /** A move of another piece to the same end square counts only when it is
      in the valid moves: with none there, nothing is marked. */
  lemma {:induction false} MarkFromNoRival(labels: Labels, m: Move, other: PieceId, ms: seq<Move>, j: nat, k: Marks)
    requires LabelsNonEmpty(labels) && Named(labels, m.start) && AllNamed(labels, ms)
    requires j <= |ms|
    requires forall i :: 0 <= i < |ms| ==> !(ms[i].end == m.end && ms[i].pieceMoved == other)
    ensures MarkFrom(labels, m, other, ms, j, k) == k
    decreases |ms| - j
  {
    if j < |ms| {
      MarkFromNoRival(labels, m, other, ms, j + 1, k);
    }
  }

  /** The castle notation: long castling when the rook starts on a lower file
      than the king. */
  function CastleNotation(m: Move): (r: string)
    requires m.castle.Some? && m.castle.value.rookStart.Some?
    ensures r == "O-O-O" <==> m.castle.value.rookStart.value.0 < m.start.0
    ensures r == "O-O" <==> m.castle.value.rookStart.value.0 >= m.start.0
  {
    if m.castle.value.rookStart.value.0 < m.start.0 then "O-O-O" else "O-O"
  }

  /** The notation of a pawn move: the start file and "x" for a capture, the
      end square, "=" and the promotion symbol, and " e.p." for an en-passant
      capture. */
  function PawnNotation(labels: Labels, table: seq<PieceRec>, m: Move): (r: string)
    requires LabelsNonEmpty(labels) && Named(labels, m.start) && Named(labels, m.end)
    requires m.promotion.Some? ==> m.promotion.value < |table|
    ensures |r| >= 2
    ensures m.pieceCaptured.None? && m.promotion.None? ==> r == SquareName(labels, m.end)
    ensures m.pieceCaptured.Some? ==> r[..2] == [SquareName(labels, m.start)[0], 'x']
  {
    var startFile, spacer := if m.pieceCaptured.Some? then [SquareName(labels, m.start)[0]] else "",
                             if m.pieceCaptured.Some? then "x" else "";
    var ep := if m.pieceCaptured.Some? && ContainsEnpassant(m) then " e.p." else "";
    var promoSymbol := if ContainsPromotion(m) then "=" + Symbol(table[m.promotion.value].kind) else "";
    startFile + spacer + SquareName(labels, m.end) + promoSymbol + ep
  }

  /** The notation of any other piece: its symbol, the disambiguation marks,
      "x" for a capture and the end square. */
  function PieceNotation(labels: Labels, table: seq<PieceRec>, m: Move, k: Marks): (r: string)
    requires LabelsNonEmpty(labels) && Named(labels, m.end) && m.pieceMoved < |table|
    ensures |r| == 1 + |k.file| + |k.rank| + (if m.pieceCaptured.Some? then 1 else 0) + |SquareName(labels, m.end)|
    ensures r[..1] == Symbol(table[m.pieceMoved].kind)
    ensures r[|r| - |SquareName(labels, m.end)|..] == SquareName(labels, m.end)
  {
    Symbol(table[m.pieceMoved].kind) + k.file + k.rank +
      (if m.pieceCaptured.Some? then "x" else "") + SquareName(labels, m.end)
  }

  /** The disambiguation loops of Move.get_chess_notation: over the pieces of
      `list`, other than the moved one, and for each over the valid moves. */
  method Disambiguate(labels: Labels, m: Move, list: seq<PieceId>, validMoves: seq<Move>) returns (k: Marks)
    requires LabelsNonEmpty(labels) && Named(labels, m.start) && AllNamed(labels, validMoves)
    ensures k == DisambiguateFrom(labels, m, list, validMoves, 0, Marks("", ""))
    ensures MarksOfStart(labels, m, k)
  {
    k := Marks("", "");
    ghost var goal := DisambiguateFrom(labels, m, list, validMoves, 0, k);
    DisambiguateOfStart(labels, m, list, validMoves, 0, k);
    var i := 0;
    while i < |list|
      invariant i <= |list|
      invariant DisambiguateFrom(labels, m, list, validMoves, i, k) == goal
    {
      if k.file != "" && k.rank != "" {
        break;
      }
      var piece := list[i];
      if piece != m.pieceMoved {
        ghost var before := k;
        for j := 0 to |validMoves|
          invariant MarkFrom(labels, m, piece, validMoves, j, k) == MarkFrom(labels, m, piece, validMoves, 0, before)
        {
          var mv := validMoves[j];
          if mv.end == m.end && mv.pieceMoved == piece {
            var startName, otherName := SquareName(labels, m.start), SquareName(labels, mv.start);
            var startFile, startRank := startName[0], startName[1];
            var otherFile, otherRank := otherName[0], otherName[1];
            if startFile != otherFile && k.file == "" {
              k := k.(file := [startFile]);
            } else if startRank != otherRank && k.rank == "" {
              k := k.(rank := [startRank]);
            }
          }
        }
      }
      i := i + 1;
    }
  }

  /** What Move.get_chess_notation reads besides the move: the board's labels
      and piece records, its kind lists, and the game's valid moves. */
  predicate NotationReady(labels: Labels, table: seq<PieceRec>, m: Move, validMoves: seq<Move>)
  {
    LabelsNonEmpty(labels) && Named(labels, m.start) && Named(labels, m.end) &&
    m.pieceMoved < |table| && (m.promotion.Some? ==> m.promotion.value < |table|) &&
    AllNamed(labels, validMoves) &&
    (m.castle.Some? ==> m.castle.value.rookStart.Some?)
  }

  /** Move.get_chess_notation, where `lists` is Board.piece_lists. The kind
      list is read only for a queen, rook, bishop or knight with more than one
      piece of its kind. */
  method GetChessNotation(labels: Labels, table: seq<PieceRec>, lists: map<(Kind, Color), seq<PieceId>>,
                          m: Move, validMoves: seq<Move>) returns (r: string)
    requires NotationReady(labels, table, m, validMoves)
    requires table[m.pieceMoved].kind !in {King, Pawn} ==> (table[m.pieceMoved].kind, table[m.pieceMoved].color) in lists
    ensures ContainsCastle(m) ==> r == CastleNotation(m)
    ensures !ContainsCastle(m) && table[m.pieceMoved].kind == Pawn ==> r == PawnNotation(labels, table, m)
    ensures !ContainsCastle(m) && table[m.pieceMoved].kind == King ==> r == PieceNotation(labels, table, m, Marks("", ""))
    ensures !ContainsCastle(m) && table[m.pieceMoved].kind !in {King, Pawn} ==>
      var list := lists[(table[m.pieceMoved].kind, table[m.pieceMoved].color)];
      r == PieceNotation(labels, table, m,
        if |list| > 1 then DisambiguateFrom(labels, m, list, validMoves, 0, Marks("", "")) else Marks("", ""))
  {
    if ContainsCastle(m) {
      var rookFile := m.castle.value.rookStart.value.0;
      var kingFile := m.start.0;
      if rookFile < kingFile {
        return "O-O-O";
      } else {
        return "O-O";
      }
    }
    var piece := table[m.pieceMoved];
    if piece.kind == Pawn {
      return PawnNotation(labels, table, m);
    }
    var k := Marks("", "");
    if piece.kind != King {
      var list := lists[(piece.kind, piece.color)];
      if |list| > 1 {
        k := Disambiguate(labels, m, list, validMoves);
      }
    }
    r := PieceNotation(labels, table, m, k);
  }

  /** Python's str() of an int. */
  function IntToString(n: int): (s: string)
    ensures |s| >= 1
    ensures s[0] == '-' <==> n < 0
    ensures forall i :: (if n < 0 then 1 else 0) <= i < |s| ==> '0' <= s[i] <= '9'
    ensures n >= 0 ==> DigitsValue(s) == n
    ensures n < 0 ==> |s| >= 2 && DigitsValue(s[1..]) == -n
  {
    if n >= 0 then NatToStringValue(n); NatToString(n)
    else NatToStringValue(-n); assert ("-" + NatToString(-n))[1..] == NatToString(-n); "-" + NatToString(-n)
  }

  /** Move.__str__: the full-move number (move_number // 2 + 1), "..." after
      it for a black move and ". " for a white one, then the notation. */
  function MoveString(table: seq<PieceRec>, m: Move): (r: string)
    requires m.pieceMoved < |table|
    ensures |r| >= |m.name| + 3 && r[|r| - |m.name|..] == m.name
    ensures table[m.pieceMoved].color == Black ==> r[|r| - |m.name| - 3..|r| - |m.name|] == "..."
    ensures table[m.pieceMoved].color == White ==> r[|r| - |m.name| - 2..|r| - |m.name|] == ". "
    ensures r[..|r| - |m.name| - Spacer(table, m)] == IntToString(m.moveNumber / 2 + 1)
  {
    IntToString(m.moveNumber / 2 + 1) + (if table[m.pieceMoved].color == Black then "..." else ". ") + m.name
  }

  /** A white move and the black reply after it share one full-move number:
      Python's // by 2 floors, as Dafny's / does for a positive divisor. */
  /** Width of the separator MoveString puts between the number and the name. */
  function Spacer(table: seq<PieceRec>, m: Move): nat
    requires m.pieceMoved < |table|
  {
    if table[m.pieceMoved].color == Black then 3 else 2
  }

  /** The printed move number of m: what MoveString puts before the separator. */
  function NumberText(table: seq<PieceRec>, m: Move): string
    requires m.pieceMoved < |table|
  {
    var r := MoveString(table, m);
    r[..|r| - |m.name| - Spacer(table, m)]
  }

  /** Half-moves n and n + 1 (n even: a white move and the black reply) print
      the same full-move number, n / 2 + 1, and half-move n + 2 prints the next one. */
  lemma MoveNumberPairs(table: seq<PieceRec>, a: Move, b: Move, c: Move)
    requires a.pieceMoved < |table| && b.pieceMoved < |table| && c.pieceMoved < |table|
    requires a.moveNumber >= 0 && a.moveNumber % 2 == 0
    requires b.moveNumber == a.moveNumber + 1 && c.moveNumber == a.moveNumber + 2
    ensures NumberText(table, a) == NumberText(table, b)
    ensures DigitsValue(NumberText(table, a)) == a.moveNumber / 2 + 1
    ensures DigitsValue(NumberText(table, c)) == DigitsValue(NumberText(table, a)) + 1
  {
    assert b.moveNumber / 2 == a.moveNumber / 2;
    assert c.moveNumber / 2 == a.moveNumber / 2 + 1;
  }
}
