/** The board builders of chess_board.py: the standard starting position and
    the two king-and-two-pieces endgames. */
module Scenarios {
  import opened Wrappers
  import opened Pieces
  import opened Lists
  import opened Coordinates
  import opened Occupancy
  import opened BoardIndex
  import opened ChessBoard

  /** The back rank from file 0 to file 7. */
  const BACK_RANK: seq<Kind> := [Rook, Knight, Bishop, Queen, King, Bishop, Knight, Rook]

  /** The starting position of chess: White's pieces on ranks 7 and 6, Black's
      on ranks 0 and 1, nothing elsewhere. */
  function StandardLayout(c: Coord): Option<(Kind, Color)> {
    if !InBounds(8, 8, c) then None
    else if c.1 == 6 then Some((Pawn, White))
    else if c.1 == 1 then Some((Pawn, Black))
    else if c.1 == 7 then Some((BACK_RANK[c.0], White))
    else if c.1 == 0 then Some((BACK_RANK[c.0], Black))
    else None
  }

  /** The order in which makeStandardBoard creates its pieces: the pawns file
      by file white before black, then rooks, knights, bishops (each on two
      files), queens and kings, white before black each time. */
  function StandardKind(q: nat): Kind {
    if q < 16 then Pawn
    else if q < 20 then Rook
    else if q < 24 then Knight
    else if q < 28 then Bishop
    else if q < 30 then Queen
    else King
  }

  function StandardColor(q: nat): Color {
    if q % 2 == 0 then White else Black
  }

  /** The files the pieces after the pawns are set on. */
  const BACK_FILES: seq<int> := [0, 7, 1, 6, 2, 5, 3, 4]

  function StandardSquare(q: nat): Coord
    requires q < 32
  {
    var rank := if q % 2 == 0 then (if q < 16 then 6 else 7) else (if q < 16 then 1 else 0);
    var file := if q < 16 then q / 2 else BACK_FILES[(q - 16) / 2];
    (file, rank)
  }

  function StandardRec(q: nat): PieceRec
    requires q < 32
  {
    PieceRec(StandardKind(q), StandardColor(q), Some(StandardSquare(q)), None, None)
  }

  /** Where each back-rank file comes in BACK_FILES. */
  const BACK_ORDER: seq<nat> := [0, 2, 4, 6, 7, 5, 3, 1]

  /** The piece makeStandardBoard sets on c. */
  function StandardIdAt(c: Coord): Option<nat> {
    if !InBounds(8, 8, c) then None
    else if c.1 == 6 then Some(2 * c.0)
    else if c.1 == 1 then Some(2 * c.0 + 1)
    else if c.1 == 7 then Some(16 + 2 * BACK_ORDER[c.0])
    else if c.1 == 0 then Some(17 + 2 * BACK_ORDER[c.0])
    else None
  }

  lemma StandardIdOfSquare(q: nat)
    requires q < 32
    ensures StandardIdAt(StandardSquare(q)) == Some(q)
  {
    if q >= 16 {
      var i := (q - 16) / 2;
      assert i in {0, 1, 2, 3, 4, 5, 6, 7};
      assert BACK_ORDER[BACK_FILES[i]] == i;
    }
  }

  lemma StandardSquareOfId(c: Coord)
    requires StandardIdAt(c).Some?
    ensures StandardIdAt(c).value < 32 && StandardSquare(StandardIdAt(c).value) == c
  {
    if c.1 == 7 || c.1 == 0 {
      assert c.0 in {0, 1, 2, 3, 4, 5, 6, 7};
      assert BACK_FILES[BACK_ORDER[c.0]] == c.0;
    }
  }

  /** The pieces makeStandardBoard creates are exactly those of the starting
      position, one per occupied square. */
  lemma StandardLayoutAgrees(c: Coord)
    ensures StandardIdAt(c).Some? <==> StandardLayout(c).Some?
    ensures StandardIdAt(c).Some? ==>
      StandardIdAt(c).value < 32 &&
      StandardLayout(c) == Some((StandardKind(StandardIdAt(c).value), StandardColor(StandardIdAt(c).value)))
  {
    if InBounds(8, 8, c) && (c.1 == 7 || c.1 == 0) {
      assert c.0 in {0, 1, 2, 3, 4, 5, 6, 7};
    }
  }

  /** The records makeStandardBoard creates, in creation order. */
  function StandardRecs(): (r: seq<PieceRec>)
    ensures |r| == 32 && forall q :: 0 <= q < 32 ==> r[q] == StandardRec(q)
  {
    seq(32, q requires 0 <= q < 32 => StandardRec(q))
  }

  // ---------------------------------------------------------------------
  // A builder's target: the pieces it creates, in creation order with their
  // final squares, and the id it sets on each square.

  ghost predicate LayoutOk(recs: seq<PieceRec>, at: Coord -> Option<PieceId>) {
    (forall q :: 0 <= q < |recs| ==>
      recs[q].square.Some? && InBounds(8, 8, recs[q].square.value) &&
      at(recs[q].square.value) == Some(q)) &&
    (forall c :: at(c).Some? ==> at(c).value < |recs| && recs[at(c).value].square == Some(c))
  }

  /** The first k pieces of the target exist and stand on their squares; every
      other square of the 8 x 8 board is empty. */
  ghost predicate PlacedUpTo(p: Position, recs: seq<PieceRec>, at: Coord -> Option<PieceId>, k: nat) {
    k <= |recs| && p.files == 8 && p.ranks == 8 && Shaped(p) && p.table == recs[..k] &&
    (forall c :: c in p.grid ==> p.grid[c] == (if at(c).Some? && at(c).value < k then at(c) else None))
  }

  /** Creating the k-th piece and setting it on its square places one more. */
  lemma PlaceNext(p: Position, recs: seq<PieceRec>, at: Coord -> Option<PieceId>, k: nat)
    requires LayoutOk(recs, at) && PlacedUpTo(p, recs, at, k) && k < |recs|
    ensures recs[k].square.Some? && recs[k].square.value in p.grid
    ensures PlacedUpTo(PlaceAt(p.(table := p.table + [recs[k].(square := None)]), recs[k].square.value, k),
                       recs, at, k + 1)
  {
    var c := recs[k].square.value;
    var r := PlaceAt(p.(table := p.table + [recs[k].(square := None)]), c, k);
    assert r.table == recs[..k + 1];
    forall d | d in r.grid
      ensures r.grid[d] == (if at(d).Some? && at(d).value < k + 1 then at(d) else None)
    {
    }
  }

  /** Once every piece is placed, squares and pieces point at each other and
      the grid is the target. */
  lemma PlacedLinked(p: Position, recs: seq<PieceRec>, at: Coord -> Option<PieceId>)
    requires LayoutOk(recs, at) && PlacedUpTo(p, recs, at, |recs|)
    ensures Linked(p) && Closed(p)
    ensures forall c :: c in p.grid ==> p.grid[c] == at(c)
  {
    assert p.table == recs;
  }

  /** `board.squares[c].set_piece(K(color))`: a new piece of kind k is created
      and set on the square at c. */
  method Put(b: Board, k: Kind, color: string, c: Coord) returns (q: PieceId)
    requires b.Valid() && c in b.grid && NewPiece(k, color).Ok?
    modifies b
    ensures b.Valid()
    ensures q == |old(b.table)|
    ensures b.Pos() == PlaceAt(old(b.Pos()).(table := old(b.table) + [NewPiece(k, color).value]), c, q)
    ensures b.Ix() == old(b.Ix()) && b.whiteKing == old(b.whiteKing) && b.blackKing == old(b.blackKing)
  {
    q := b.AddPiece(NewPiece(k, color).value);
    b.SetPiece(c, q);
  }

  /** A board part-way through a builder: the first k target pieces placed and
      the index still empty. */
  ghost predicate Building(b: Board, recs: seq<PieceRec>, at: Coord -> Option<PieceId>, k: nat)
    reads b
  {
    b.Valid() && LayoutOk(recs, at) && PlacedUpTo(b.Pos(), recs, at, k) && b.Ix() == EMPTY_INDEX
  }

  /** The two colour names the set-ups pass to the piece constructors. */
  lemma NamedColors(k: Kind)
    ensures NewPiece(k, "white") == Ok(PieceRec(k, White, None, None, None))
    ensures NewPiece(k, "black") == Ok(PieceRec(k, Black, None, None, None))
  {
  }

  /** Put, when the piece is the n-th one of the target. */
  method PutNext(b: Board, k: Kind, color: string, c: Coord,
                 ghost recs: seq<PieceRec>, ghost at: Coord -> Option<PieceId>, ghost n: nat)
    returns (q: PieceId)
    requires Building(b, recs, at, n) && n < |recs|
    requires recs[n].square == Some(c) && NewPiece(k, color) == Ok(recs[n].(square := None))
    modifies b
    ensures Building(b, recs, at, n + 1) && q == n
    ensures b.whiteKing == old(b.whiteKing) && b.blackKing == old(b.blackKing)
  {
    PlaceNext(b.Pos(), recs, at, n);
    q := Put(b, k, color, c);
  }

  /** `board.white_king = King('white')` set on (4, 7), then the same for
      black on (4, 0); the kings are the n-th and (n + 1)-th pieces of the target. */
  method PutKings(b: Board, ghost recs: seq<PieceRec>, ghost at: Coord -> Option<PieceId>, ghost n: nat)
    requires Building(b, recs, at, n) && n + 2 == |recs|
    requires recs[n] == PieceRec(King, White, Some((4, 7)), None, None)
    requires recs[n + 1] == PieceRec(King, Black, Some((4, 0)), None, None)
    modifies b
    ensures Building(b, recs, at, n + 2)
    ensures b.whiteKing == Some(n) && b.blackKing == Some(n + 1)
  {
    PutKing(b, true, (4, 7), recs, at, n);
    PutKing(b, false, (4, 0), recs, at, n + 1);
  }

  /** One king created, recorded as the board's king of its colour, and put
      on square sq. */
  method PutKing(b: Board, white: bool, sq: Coord, ghost recs: seq<PieceRec>, ghost at: Coord -> Option<PieceId>,
                 ghost n: nat)
    requires Building(b, recs, at, n) && n < |recs|
    requires recs[n] == PieceRec(King, if white then White else Black, Some(sq), None, None)
    modifies b
    ensures Building(b, recs, at, n + 1)
    ensures white ==> b.whiteKing == Some(n) && b.blackKing == old(b.blackKing)
    ensures !white ==> b.blackKing == Some(n) && b.whiteKing == old(b.whiteKing)
  {
    NamedColors(King);
    var q := PutNext(b, King, if white then "white" else "black", sq, recs, at, n);
    b.SetKing(white, q);
  }

  /** Every square of the target with its piece, the kings recorded, and the
      index built by the full scan of update_pieces. */
  method Finish(b: Board, ghost recs: seq<PieceRec>, ghost at: Coord -> Option<PieceId>)
    requires Building(b, recs, at, |recs|)
    modifies b
    ensures b.Valid() && b.Pos() == old(b.Pos()) && b.table == recs
    ensures forall c :: c in b.grid ==> b.grid[c] == at(c)
    ensures Linked(b.Pos()) && Synced(b.Ix(), b.Pos())
    ensures b.whiteKing == old(b.whiteKing) && b.blackKing == old(b.blackKing)
  {
    ghost var placed := b.Pos();
    PlacedLinked(placed, recs, at);
    FullScanSynced(b.Ix(), placed, [], []);
    var ok := b.UpdatePieces([], []);
  }

  // ---------------------------------------------------------------------
  // makeStandardBoard

  lemma StandardLayoutOk()
    ensures LayoutOk(StandardRecs(), StandardIdAt)
  {
    forall q | 0 <= q < 32 {
      StandardIdOfSquare(q);
    }
    forall c | StandardIdAt(c).Some? {
      StandardSquareOfId(c);
    }
  }

  /** Creates two pieces of kind k, white then black, on file `file`. */
  method PutPair(b: Board, k: Kind, file: int, ghost n: nat)
    requires Building(b, StandardRecs(), StandardIdAt, n) && n + 2 <= 32
    requires StandardKind(n) == k && StandardKind(n + 1) == k && n % 2 == 0
    requires StandardSquare(n) == (file, if k == Pawn then 6 else 7)
    requires StandardSquare(n + 1) == (file, if k == Pawn then 1 else 0)
    modifies b
    ensures Building(b, StandardRecs(), StandardIdAt, n + 2)
    ensures b.whiteKing == old(b.whiteKing) && b.blackKing == old(b.blackKing)
  {
    var whiteRank, blackRank := if k == Pawn then 6 else 7, if k == Pawn then 1 else 0;
    PutStandard(b, k, "white", (file, whiteRank), n);
    PutStandard(b, k, "black", (file, blackRank), n + 1);
  }

  /** Creates the n-th piece of the standard position. */
  method PutStandard(b: Board, k: Kind, color: string, c: Coord, ghost n: nat)
    requires Building(b, StandardRecs(), StandardIdAt, n) && n < 32
    requires StandardKind(n) == k && StandardSquare(n) == c
    requires color == if n % 2 == 0 then "white" else "black"
    modifies b
    ensures Building(b, StandardRecs(), StandardIdAt, n + 1)
    ensures b.whiteKing == old(b.whiteKing) && b.blackKing == old(b.blackKing)
  {
    ghost var recs := StandardRecs();
    NamedColors(k);
    assert recs[n] == PieceRec(k, StandardColor(n), Some(c), None, None);
    var q := PutNext(b, k, color, c, recs, StandardIdAt, n);
  }

  /** The standard pieces n, n + 1, n + 2, ... are white and black pairs of
      kind k on the files listed, in order. */
  ghost predicate PairsAt(k: Kind, files: seq<int>, n: nat) {
    n + 2 * |files| <= 32 &&
    forall i :: 0 <= i < |files| ==>
      StandardKind(n + 2 * i) == k && StandardKind(n + 2 * i + 1) == k &&
      StandardSquare(n + 2 * i) == (files[i], if k == Pawn then 6 else 7) &&
      StandardSquare(n + 2 * i + 1) == (files[i], if k == Pawn then 1 else 0)
  }

  lemma RookPairs()
    ensures PairsAt(Rook, [0, 7], 16)
  {
    assert StandardSquare(16) == (0, 7) && StandardSquare(17) == (0, 0);
    assert StandardSquare(18) == (7, 7) && StandardSquare(19) == (7, 0);
  }

  lemma KnightPairs()
    ensures PairsAt(Knight, [1, 6], 20)
  {
    assert StandardSquare(20) == (1, 7) && StandardSquare(21) == (1, 0);
    assert StandardSquare(22) == (6, 7) && StandardSquare(23) == (6, 0);
  }

  lemma BishopPairs()
    ensures PairsAt(Bishop, [2, 5], 24)
  {
    assert StandardSquare(24) == (2, 7) && StandardSquare(25) == (2, 0);
    assert StandardSquare(26) == (5, 7) && StandardSquare(27) == (5, 0);
  }

  /** One `for file in files` loop of makeStandardBoard for the pieces of kind
      k, the first of which is the n-th piece created. */
  method PutPairs(b: Board, k: Kind, files: seq<int>, ghost n: nat)
    requires Building(b, StandardRecs(), StandardIdAt, n) && n + 2 * |files| <= 32
    requires n % 2 == 0 && PairsAt(k, files, n)
    modifies b
    ensures Building(b, StandardRecs(), StandardIdAt, n + 2 * |files|)
    ensures b.whiteKing == old(b.whiteKing) && b.blackKing == old(b.blackKing)
  {
    for i := 0 to |files|
      invariant Building(b, StandardRecs(), StandardIdAt, n + 2 * i)
      invariant b.whiteKing == old(b.whiteKing) && b.blackKing == old(b.blackKing)
    {
      PutPair(b, k, files[i], n + 2 * i);
    }
  }

  /** `for file in range(8)`: a white and a black pawn on every file. */
  method PutPawns(b: Board)
    requires Building(b, StandardRecs(), StandardIdAt, 0)
    modifies b
    ensures Building(b, StandardRecs(), StandardIdAt, 16)
    ensures b.whiteKing == old(b.whiteKing) && b.blackKing == old(b.blackKing)
  {
    for file := 0 to 8
      invariant Building(b, StandardRecs(), StandardIdAt, 2 * file)
      invariant b.whiteKing == old(b.whiteKing) && b.blackKing == old(b.blackKing)
    {
      PutPair(b, Pawn, file, 2 * file);
    }
  }

  /** The loops of makeStandardBoard that create and set the pieces. */
  method PutPieces(b: Board)
    requires Building(b, StandardRecs(), StandardIdAt, 0)
    modifies b
    ensures Building(b, StandardRecs(), StandardIdAt, 32)
    ensures b.whiteKing == Some(30) && b.blackKing == Some(31)
  {
    PutPawns(b);
    PutMinorPairs(b);
    PutRoyals(b);
  }

  /** The rooks, knights and bishops: `for file in (0, 7)`, `(1, 6)`, `(2, 5)`. */
  method PutMinorPairs(b: Board)
    requires Building(b, StandardRecs(), StandardIdAt, 16)
    modifies b
    ensures Building(b, StandardRecs(), StandardIdAt, 28)
    ensures b.whiteKing == old(b.whiteKing) && b.blackKing == old(b.blackKing)
  {
    RookPairs();
    PutPairs(b, Rook, [0, 7], 16);
    KnightPairs();
    PutPairs(b, Knight, [1, 6], 20);
    BishopPairs();
    PutPairs(b, Bishop, [2, 5], 24);
  }

  /** The queens on file 3, then the kings on file 4, stored as the board's kings. */
  method PutRoyals(b: Board)
    requires Building(b, StandardRecs(), StandardIdAt, 28)
    modifies b
    ensures Building(b, StandardRecs(), StandardIdAt, 32)
    ensures b.whiteKing == Some(30) && b.blackKing == Some(31)
  {
    PutPair(b, Queen, 3, 28);
    PutKings(b, StandardRecs(), StandardIdAt, 30);
  }

  /** makeStandardBoard: the starting position on a new 8 x 8 board, with the
      index built by a full scan. */
  method MakeStandardBoard() returns (b: Board)
    ensures fresh(b) && b.Valid() && b.files == 8 && b.ranks == 8 && b.labels == DEFAULT_LABELS
    ensures b.table == StandardRecs()
    ensures forall c :: c in b.grid ==> b.grid[c] == StandardIdAt(c)
    ensures Linked(b.Pos()) && Synced(b.Ix(), b.Pos())
    ensures b.whiteKing == Some(30) && b.blackKing == Some(31)
  {
    var r := NewBoard(8, 8);
    b := r.value;
    StandardLayoutOk();
    assert PlacedUpTo(b.Pos(), StandardRecs(), StandardIdAt, 0);
    PutPieces(b);
    Finish(b, StandardRecs(), StandardIdAt);
  }

  // ---------------------------------------------------------------------
  // makeTwoRooksEndgameBoard and makeQueenEndgameBoard

  /** The back rank of the side that gets the two pieces. */
  function EndgameRank(c: Color): int {
    if c == White then 7 else 0
  }

  /** Two pieces of kind k and colour c on files 0 and 7 of c's back rank,
      then the white king on (4, 7) and the black king on (4, 0). */
  function EndgameRecs(k: Kind, c: Color): seq<PieceRec> {
    [PieceRec(k, c, Some((0, EndgameRank(c))), None, None),
     PieceRec(k, c, Some((7, EndgameRank(c))), None, None),
     PieceRec(King, White, Some((4, 7)), None, None),
     PieceRec(King, Black, Some((4, 0)), None, None)]
  }

  function EndgameIdAt(c: Color, sq: Coord): Option<PieceId> {
    if sq == (0, EndgameRank(c)) then Some(0)
    else if sq == (7, EndgameRank(c)) then Some(1)
    else if sq == (4, 7) then Some(2)
    else if sq == (4, 0) then Some(3)
    else None
  }

  function EndgameAt(c: Color): Coord -> Option<PieceId> {
    sq => EndgameIdAt(c, sq)
  }

  lemma EndgameLayoutOk(k: Kind, c: Color)
    ensures LayoutOk(EndgameRecs(k, c), EndgameAt(c))
  {
  }

  /** What an endgame builder returns for a selector: nothing unless the
      selector names a colour, and otherwise a board holding exactly the
      endgame target, linked, with its index in step and both kings stored. */
  ghost predicate EndgameBuilt(r: Option<Board>, k: Kind, selector: string)
    reads if r.Some? then {r.value} else {}
  {
    (r.Some? <==> NormalizeColor(selector).Ok?) &&
    (r.Some? ==>
      var b, c := r.value, NormalizeColor(selector).value;
      b.Valid() && b.files == 8 && b.ranks == 8 && b.labels == DEFAULT_LABELS &&
      b.table == EndgameRecs(k, c) &&
      (forall sq :: sq in b.grid ==> b.grid[sq] == EndgameIdAt(c, sq)) &&
      Linked(b.Pos()) && Synced(b.Ix(), b.Pos()) &&
      b.whiteKing == Some(2) && b.blackKing == Some(3))
  }

  /** The shared body of the two endgame builders, for pieces of kind k. */
  method EndgameBoard(k: Kind, selector: string) returns (r: Option<Board>)
    ensures r.Some? ==> fresh(r.value)
    ensures EndgameBuilt(r, k, selector)
  {
    var res := NewBoard(8, 8);
    var b := res.value;
    var color: string;
    var rank: int;
    if StartsWith(Lower(selector), "w") {
      color, rank := "white", 7;
    } else if StartsWith(Lower(selector), "b") {
      color, rank := "black", 0;
    } else {
      return None;
    }
    ghost var c := NormalizeColor(selector).value;
    BuildEndgame(b, k, color, rank, c);
    return Some(b);
  }

  /** The endgame pieces set on a new 8 by 8 board, and the index filled. */
  method BuildEndgame(b: Board, k: Kind, color: string, rank: int, ghost c: Color)
    requires b.Valid() && b.files == 8 && b.ranks == 8 && b.labels == DEFAULT_LABELS && Linked(b.Pos())
    requires b.table == [] && b.Ix() == EMPTY_INDEX && forall sq :: sq in b.grid ==> b.grid[sq].None?
    requires NormalizeColor(color) == Ok(c) && rank == EndgameRank(c)
    modifies b
    ensures b.Valid() && b.files == 8 && b.ranks == 8 && b.labels == DEFAULT_LABELS
    ensures b.table == EndgameRecs(k, c) && forall sq :: sq in b.grid ==> b.grid[sq] == EndgameIdAt(c, sq)
    ensures Linked(b.Pos()) && Synced(b.Ix(), b.Pos())
    ensures b.whiteKing == Some(2) && b.blackKing == Some(3)
  {
    EndgameLayoutOk(k, c);
    assert PlacedUpTo(b.Pos(), EndgameRecs(k, c), EndgameAt(c), 0);
    PutEndgamePieces(b, k, color, rank, c);
    Finish(b, EndgameRecs(k, c), EndgameAt(c));
  }

  /** The `for file in (0, 7)` loop and the two kings of an endgame builder. */
  method PutEndgamePieces(b: Board, k: Kind, color: string, rank: int, ghost c: Color)
    requires Building(b, EndgameRecs(k, c), EndgameAt(c), 0)
    requires NormalizeColor(color) == Ok(c) && rank == EndgameRank(c)
    modifies b
    ensures Building(b, EndgameRecs(k, c), EndgameAt(c), 4)
    ensures b.whiteKing == Some(2) && b.blackKing == Some(3)
  {
    var files := [0, 7];
    for i := 0 to 2
      invariant Building(b, EndgameRecs(k, c), EndgameAt(c), i)
    {
      PutEndgamePiece(b, k, color, files[i], rank, c, i);
    }
    PutKings(b, EndgameRecs(k, c), EndgameAt(c), 2);
  }

  /** One turn of the loop over the files 0 and 7. */
  method PutEndgamePiece(b: Board, k: Kind, color: string, file: int, rank: int, ghost c: Color, ghost i: nat)
    requires Building(b, EndgameRecs(k, c), EndgameAt(c), i) && i < 2 && file == (if i == 0 then 0 else 7)
    requires NormalizeColor(color) == Ok(c) && rank == EndgameRank(c)
    modifies b
    ensures Building(b, EndgameRecs(k, c), EndgameAt(c), i + 1)
  {
    ghost var recs := EndgameRecs(k, c);
    assert recs[i] == PieceRec(k, c, Some((file, rank)), None, None);
    var q := PutNext(b, k, color, (file, rank), recs, EndgameAt(c), i);
  }

  /** makeTwoRooksEndgameBoard: two rooks and a king against the other king. */
  method MakeTwoRooksEndgameBoard(rookColor: string) returns (r: Option<Board>)
    ensures r.Some? ==> fresh(r.value)
    ensures EndgameBuilt(r, Rook, rookColor)
  {
    r := EndgameBoard(Rook, rookColor);
  }

  /** makeQueenEndgameBoard: two queens and a king against the other king. */
  method MakeQueenEndgameBoard(queenColor: string) returns (r: Option<Board>)
    ensures r.Some? ==> fresh(r.value)
    ensures EndgameBuilt(r, Queen, queenColor)
  {
    r := EndgameBoard(Queen, queenColor);
  }

  /** The index of an endgame board: four pieces, and the two pieces of the
      chosen colour under their key (rooks and queens are both tracked). */
  lemma EndgameCounts(ix: Index, p: Position, k: Kind, c: Color)
    requires k == Rook || k == Queen
    requires p.table == EndgameRecs(k, c) && Synced(ix, p)
    ensures |ix.pieces| == 4
    ensures |ix.lists[(k, c)]| == 2 && ix.lists[(k, Opponent(c))] == []
  {
    EndgameKeys(p, k, c);
    NoDupCard(ix.pieces);
    NoDupCard(ix.lists[(k, c)]);
    NoDupCard(ix.lists[(k, Opponent(c))]);
  }

  /** On an endgame board all four pieces are on the board, the chosen
      colour has pieces 0 and 1 of kind k and the other colour none. */
  lemma EndgameKeys(p: Position, k: Kind, c: Color)
    requires k == Rook || k == Queen
    requires p.table == EndgameRecs(k, c)
    ensures OnBoard(p) == {0, 1, 2, 3}
    ensures OfKey(p.table, OnBoard(p), (k, c)) == {0, 1} && OfKey(p.table, OnBoard(p), (k, Opponent(c))) == {}
  {
    forall q ensures q in OnBoard(p) <==> q in {0, 1, 2, 3} {
    }
    assert OnBoard(p) == {0, 1, 2, 3};
  }

  /** On the standard board every one of the 32 pieces is on the board. */
  lemma StandardOnBoard(p: Position)
    requires p.table == StandardRecs()
    ensures OnBoard(p) == Elems(Iota(32))
    ensures |OnBoard(p)| == 32
  {
    var s := Iota(32);
    forall q ensures q in OnBoard(p) <==> q in Elems(s) {
      if 0 <= q < 32 {
        assert s[q] == q;
      }
    }
    NoDupCard(s);
  }

  /** The index of the standard board: 32 pieces, and per colour two rooks,
      two knights, two bishops and one queen. */
  lemma StandardCounts(ix: Index, p: Position)
    requires p.table == StandardRecs()
    requires Synced(ix, p)
    ensures |ix.pieces| == 32
    ensures |ix.lists[(Rook, White)]| == 2 && |ix.lists[(Rook, Black)]| == 2
    ensures |ix.lists[(Knight, White)]| == 2 && |ix.lists[(Knight, Black)]| == 2
    ensures |ix.lists[(Bishop, White)]| == 2 && |ix.lists[(Bishop, Black)]| == 2
    ensures |ix.lists[(Queen, White)]| == 1 && |ix.lists[(Queen, Black)]| == 1
  {
    StandardOnBoard(p);
    NoDupCard(ix.pieces);
    CountKey(ix, p, Rook, White, 16, 20);
    CountKey(ix, p, Rook, Black, 16, 20);
    CountKey(ix, p, Knight, White, 20, 24);
    CountKey(ix, p, Knight, Black, 20, 24);
    CountKey(ix, p, Bishop, White, 24, 28);
    CountKey(ix, p, Bishop, Black, 24, 28);
    CountKey(ix, p, Queen, White, 28, 30);
    CountKey(ix, p, Queen, Black, 28, 30);
  }

  /** The pieces of one tracked key are those of its colour among ids lo to
      hi - 1, every other id of that range. */
  lemma CountKey(ix: Index, p: Position, kind: Kind, color: Color, lo: nat, hi: nat)
    requires p.table == StandardRecs()
    requires Synced(ix, p) && (kind, color) in TRACKED_KEYS
    requires lo % 2 == 0 && (hi == lo + 2 || hi == lo + 4) && hi <= 32
    requires forall q: nat :: q < 32 ==> (StandardKind(q) == kind <==> lo <= q < hi)
    ensures |ix.lists[(kind, color)]| == (hi - lo) / 2
  {
    var k := (kind, color);
    forall q: nat ensures q in OnBoard(p) <==> q < 32 {
      if q < 32 {
        assert p.table[q] == StandardRec(q);
      }
    }
    StandardOfKey(p.table, OnBoard(p), kind, color, lo, hi);
    assert NoDup(ix.lists[k]) && Elems(ix.lists[k]) == OfKey(p.table, OnBoard(p), k);
    NoDupCard(ix.lists[k]);
  }

  /** Among the 32 standard pieces, those of one kind in ids lo to hi - 1
      and one colour are every other id from lo or lo + 1. */
  lemma StandardOfKey(t: seq<PieceRec>, X: set<PieceId>, kind: Kind, color: Color, lo: nat, hi: nat)
    requires t == StandardRecs()
    requires forall q: nat :: q in X <==> q < 32
    requires lo % 2 == 0 && (hi == lo + 2 || hi == lo + 4) && hi <= 32
    requires forall q: nat :: q < 32 ==> (StandardKind(q) == kind <==> lo <= q < hi)
    ensures var par := if color == White then 0 else 1;
      OfKey(t, X, (kind, color)) == if hi == lo + 2 then {lo + par} else {lo + par, lo + 2 + par}
  {
    var par := if color == White then 0 else 1;
    var expected: set<nat> := if hi == lo + 2 then {lo + par} else {lo + par, lo + 2 + par};
    forall q: nat ensures q in OfKey(t, X, (kind, color)) <==> q in expected {
      StandardKeyMember(t, X, kind, color, lo, hi, q);
    }
  }

  /** One id of StandardOfKey. */
  lemma StandardKeyMember(t: seq<PieceRec>, X: set<PieceId>, kind: Kind, color: Color, lo: nat, hi: nat, q: nat)
    requires t == StandardRecs()
    requires forall q: nat :: q in X <==> q < 32
    requires lo % 2 == 0 && (hi == lo + 2 || hi == lo + 4) && hi <= 32
    requires forall q: nat :: q < 32 ==> (StandardKind(q) == kind <==> lo <= q < hi)
    ensures var par := if color == White then 0 else 1;
      q in OfKey(t, X, (kind, color)) <==> (q == lo + par || (hi == lo + 4 && q == lo + 2 + par))
  {
    if q < 32 {
      assert t[q] == StandardRec(q);
      if lo <= q < hi {
        assert q == lo || q == lo + 1 || q == lo + 2 || q == lo + 3;
      }
    }
  }
}
