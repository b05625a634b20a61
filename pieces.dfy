/** The piece records of chess_pieces.py: kinds, colours, direction tables and
    the per-piece flags the engine reads and writes. */
module Pieces {
  import opened Wrappers

  /** A piece's identity: its index in the piece table of the board that owns it
      (the source compares pieces by object identity). */
  type PieceId = nat
  /** (file, rank), both counted from 0; rank 0 is the top row (Black's back rank). */
  type Coord = (int, int)
  /** A step (dx, dy) in files and ranks. */
  type Direction = (int, int)

  datatype Kind = King | Queen | Rook | Bishop | Knight | Pawn
  datatype Color = White | Black

  /** The identity tuple of a move: its move number, the moved piece, the four
      coordinates packed as decimal digits, and the captured piece. A piece keeps
      the identity of its first move; the engine compares moves by it. */
  datatype MoveId = MoveId(moveNumber: int, pieceMoved: PieceId, squares: int, pieceCaptured: Option<PieceId>)

  /** The fields of one piece object. `square` is None while the piece is off the
      board; `pinDirection` None stands for the empty tuple. */
  datatype PieceRec = PieceRec(
    kind: Kind,
    color: Color,
    square: Option<Coord>,
    firstMove: Option<MoveId>,
    pinDirection: Option<Direction>)

  const DIAGONAL: seq<Direction> := [(1, -1), (-1, -1), (-1, 1), (1, 1)]
  const HORIZONTAL: seq<Direction> := [(-1, 0), (1, 0)]
  const VERTICAL: seq<Direction> := [(0, -1), (0, 1)]
  const KNIGHT: seq<Direction> :=
    [(-1, -2), (1, -2), (-1, 2), (1, 2), (-2, -1), (-2, 1), (2, -1), (2, 1)]

  function Name(k: Kind): string {
    match k
    case King => "King"
    case Queen => "Queen"
    case Rook => "Rook"
    case Bishop => "Bishop"
    case Knight => "Knight"
    case Pawn => "Pawn"
  }

  /** The one-letter symbol of a kind in algebraic notation. */
  function Symbol(k: Kind): string {
    match k
    case King => "K"
    case Queen => "Q"
    case Rook => "R"
    case Bishop => "B"
    case Knight => "N"
    case Pawn => "P"
  }

  function ColorName(c: Color): string {
    if c == White then "white" else "black"
  }

  function Opponent(c: Color): Color {
    if c == White then Black else White
  }

  /** ASCII lower-casing of one character. */
  function LowerChar(ch: char): char {
    if 'A' <= ch <= 'Z' then (ch as int + 32) as char else ch
  }

  function Lower(s: string): (r: string)
    ensures |r| == |s|
    ensures forall i :: 0 <= i < |s| ==> r[i] == LowerChar(s[i])
  {
    if s == [] then [] else [LowerChar(s[0])] + Lower(s[1..])
  }

  predicate StartsWith(s: string, prefix: string) {
    |prefix| <= |s| && s[..|prefix|] == prefix
  }

  /** The colour a piece constructor accepts: any string whose lower-case form
      starts with "w" is white, with "b" black; anything else is a ValueError. */
  function NormalizeColor(s: string): (r: Result<Color>)
    ensures r.Ok? <==> |s| > 0 && s[0] in "wWbB"
    ensures r.Ok? ==> (r.value == White <==> s[0] in "wW")
    ensures r.Err? ==> r.error == ValueError
  {
    if StartsWith(Lower(s), "w") then Ok(White)
    else if StartsWith(Lower(s), "b") then Ok(Black)
    else Err(ValueError)
  }

  /** The moving directions each piece class stores; the pawn stores its single
      forward step. */
  function Directions(k: Kind, c: Color): seq<Direction> {
    match k
    case Rook => HORIZONTAL + VERTICAL
    case King => HORIZONTAL + VERTICAL + DIAGONAL
    case Queen => HORIZONTAL + VERTICAL + DIAGONAL
    case Knight => KNIGHT
    case Bishop => DIAGONAL
    case Pawn => [PawnDirection(c)]
  }

  function PawnDirection(c: Color): Direction {
    if c == White then VERTICAL[0] else VERTICAL[1]
  }

  function PromotionRank(c: Color): int {
    if c == White then 0 else 7
  }

  /** A freshly constructed piece of the given kind: off the board, unmoved and
      unpinned, or a ValueError when the colour string is not accepted. */
  function NewPiece(k: Kind, color: string): (r: Result<PieceRec>)
    ensures r.Ok? <==> NormalizeColor(color).Ok?
    ensures r.Ok? ==> r.value.kind == k && r.value.color == NormalizeColor(color).value
    ensures r.Ok? ==> r.value.square.None? && r.value.firstMove.None? && r.value.pinDirection.None?
  {
    match NormalizeColor(color)
    case Ok(c) => Ok(PieceRec(k, c, None, None, None))
    case Err(e) => Err(e)
  }

  /** The image file name: the colour's first letter followed by the symbol. */
  function ImageName(p: PieceRec): (r: string)
    ensures |r| == 2
    ensures r[0] == (if p.color == White then 'w' else 'b')
    ensures r[1..] == Symbol(p.kind)
  {
    [ColorName(p.color)[0]] + Symbol(p.kind)
  }

  predicate IsOnBoard(p: PieceRec) {
    p.square.Some?
  }

  /** The piece's coordinates, or None (the empty tuple) off the board. */
  function GetCoords(p: PieceRec): (r: Option<Coord>)
    ensures r.Some? <==> IsOnBoard(p)
    ensures r.Some? ==> p.square == Some(r.value)
  {
    if IsOnBoard(p) then Some(p.square.value) else None
  }

  predicate HasMoved(p: PieceRec) {
    p.firstMove.Some?
  }

  function GetFirstMove(p: PieceRec): (r: Option<MoveId>)
    ensures r.Some? <==> HasMoved(p)
    ensures r.Some? ==> r == p.firstMove
  {
    if HasMoved(p) then p.firstMove else None
  }

  predicate IsPinned(p: PieceRec) {
    p.pinDirection.Some?
  }

  /** A pawn on the board can promote when one step forward reaches its
      promotion rank. */
  predicate CanPromote(p: PieceRec)
    requires p.kind == Pawn && IsOnBoard(p)
  {
    GetCoords(p).value.1 + Directions(p.kind, p.color)[0].1 == PromotionRank(p.color)
  }

  lemma ColorNameRoundTrip(c: Color)
    ensures NormalizeColor(ColorName(c)) == Ok(c)
  {
  }

  /** A white pawn steps toward rank 0 and promotes from rank 1; a black pawn
      steps toward rank 7 and promotes from rank 6. */
  lemma PawnPromotionRanks(p: PieceRec)
    requires p.kind == Pawn && IsOnBoard(p)
    ensures p.color == White ==> PawnDirection(p.color) == (0, -1) && PromotionRank(p.color) == 0
    ensures p.color == Black ==> PawnDirection(p.color) == (0, 1) && PromotionRank(p.color) == 7
    ensures CanPromote(p) <==> p.square.value.1 == (if p.color == White then 1 else 6)
  {
  }

  function Abs(x: int): nat {
    if x < 0 then -x else x
  }

  /** The knight offsets are eight distinct (1, 2) or (2, 1) jumps. */
  lemma KnightOffsets()
    ensures |KNIGHT| == 8
    ensures forall i, j :: 0 <= i < j < |KNIGHT| ==> KNIGHT[i] != KNIGHT[j]
    ensures forall d :: d in KNIGHT ==>
      (Abs(d.0) == 1 && Abs(d.1) == 2) || (Abs(d.0) == 2 && Abs(d.1) == 1)
  {
  }

  /** Queen and King move in exactly the eight unit directions. */
  lemma RoyalDirections(k: Kind, c: Color)
    requires k == Queen || k == King
    ensures |Directions(k, c)| == 8
    ensures forall i, j :: 0 <= i < j < |Directions(k, c)| ==> Directions(k, c)[i] != Directions(k, c)[j]
    ensures forall d: Direction :: d in Directions(k, c) <==>
      (d != (0, 0) && -1 <= d.0 <= 1 && -1 <= d.1 <= 1)
  {
  }
}
