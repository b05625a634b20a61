/** The occupancy of a board in chess_board.py: every Square's `piece` and every
    Piece's `square`, the two references that Square.set_piece and
    Square.remove_piece keep in step, and the file-major scan of the squares. */
module Occupancy {
  import opened Wrappers
  import opened Pieces
  import opened Lists

  /** Square.piece for every square of the board, keyed by (file, rank). */
  type Grid = map<Coord, Option<PieceId>>

  /** A board's size, its squares' occupants and the piece table that
      PieceId indexes. */
  datatype Position = Position(files: nat, ranks: nat, grid: Grid, table: seq<PieceRec>)

  predicate InBounds(files: int, ranks: int, c: Coord) {
    0 <= c.0 < files && 0 <= c.1 < ranks
  }

  /** Exactly the squares of a files x ranks board exist. */
  ghost predicate Shaped(p: Position) {
    forall c: Coord :: c in p.grid <==> InBounds(p.files, p.ranks, c)
  }

  /** Every occupant named by the grid is in the piece table. */
  ghost predicate Closed(p: Position) {
    forall c :: c in p.grid && p.grid[c].Some? ==> p.grid[c].value < |p.table|
  }

  /** A square's piece sits on that square, and a piece's square holds that piece. */
  ghost predicate Linked(p: Position) {
    (forall c :: c in p.grid && p.grid[c].Some? ==>
       p.grid[c].value < |p.table| && p.table[p.grid[c].value].square == Some(c)) &&
    (forall q :: 0 <= q < |p.table| && p.table[q].square.Some? ==>
       p.table[q].square.value in p.grid && p.grid[p.table[q].square.value] == Some(q))
  }

  /** Every piece on the board stands on one of its squares. */
  ghost predicate Placed(p: Position) {
    forall q :: 0 <= q < |p.table| && p.table[q].square.Some? ==> p.table[q].square.value in p.grid
  }

  ghost predicate Valid(p: Position) {
    Shaped(p) && Linked(p)
  }

  /** Square.get_piece for the square at c (None also for a square that does not exist). */
  function Occupant(p: Position, c: Coord): Option<PieceId> {
    if c in p.grid then p.grid[c] else None
  }

  /** The record of the piece on c. */
  function PieceAt(p: Position, c: Coord): (r: Option<PieceRec>)
    ensures r.Some? ==> Occupant(p, c).Some? && Occupant(p, c).value < |p.table|
    ensures r.Some? ==> r.value == p.table[Occupant(p, c).value]
  {
    match Occupant(p, c)
    case Some(q) => if q < |p.table| then Some(p.table[q]) else None
    case None => None
  }

  /** Square.has_piece. */
  predicate HasPiece(p: Position, c: Coord) {
    PieceAt(p, c).Some?
  }

  /** Square.has_friendly_piece: occupied by a piece of the same colour. */
  predicate HasFriendlyPiece(p: Position, c: Coord, color: Color) {
    HasPiece(p, c) && PieceAt(p, c).value.color == color
  }

  /** Square.has_enemy_piece: occupied by a piece of the other colour. */
  predicate HasEnemyPiece(p: Position, c: Coord, color: Color) {
    HasPiece(p, c) && PieceAt(p, c).value.color != color
  }

  /** The pieces whose square is set. */
  function OnBoard(p: Position): set<PieceId> {
    set q | 0 <= q < |p.table| && p.table[q].square.Some?
  }

  /** Square.remove_piece: an occupied square forgets its piece and the piece
      its square; an empty square is left alone. */
  function RemoveAt(p: Position, c: Coord): (r: Position)
    ensures r.grid.Keys == p.grid.Keys && |r.table| == |p.table|
    ensures c in p.grid ==> r.grid == p.grid[c := None]
  {
    match Occupant(p, c)
    case None => p
    case Some(q) =>
      var t := if q < |p.table| then p.table[q := p.table[q].(square := None)] else p.table;
      p.(grid := p.grid[c := None], table := t)
  }

  /** Square.set_piece: the square takes the piece and the piece the square.
      Neither the square's previous piece nor the piece's previous square is
      touched. */
  function PlaceAt(p: Position, c: Coord, q: PieceId): (r: Position)
    requires c in p.grid && q < |p.table|
    ensures r.grid.Keys == p.grid.Keys && |r.table| == |p.table|
  {
    p.(grid := p.grid[c := Some(q)], table := p.table[q := p.table[q].(square := Some(c))])
  }

  /** Removing a piece keeps the references in step and takes exactly that
      piece off the board. */
  lemma RemoveAtLinked(p: Position, c: Coord)
    requires Linked(p)
    ensures Linked(RemoveAt(p, c))
    ensures Occupant(RemoveAt(p, c), c).None?
    ensures Occupant(p, c).Some? ==> OnBoard(RemoveAt(p, c)) == OnBoard(p) - {Occupant(p, c).value}
    ensures Occupant(p, c).None? ==> RemoveAt(p, c) == p
    ensures RemoveAt(p, c).grid.Keys == p.grid.Keys
    ensures forall d :: d != c ==> Occupant(RemoveAt(p, c), d) == Occupant(p, d)
  {
    var r := RemoveAt(p, c);
    if Occupant(p, c).Some? {
      var q := Occupant(p, c).value;
      forall d | d in r.grid && r.grid[d].Some?
        ensures r.grid[d].value < |r.table| && r.table[r.grid[d].value].square == Some(d)
      {
        assert d != c;
        assert r.grid[d] == p.grid[d];
        assert p.grid[d].value != q;
      }
    }
  }

  /** Placing an off-board piece on an empty square keeps the references in
      step and puts exactly that piece on the board. */
  lemma PlaceAtLinked(p: Position, c: Coord, q: PieceId)
    requires Linked(p) && c in p.grid && q < |p.table|
    requires Occupant(p, c).None? && !IsOnBoard(p.table[q])
    ensures Linked(PlaceAt(p, c, q))
    ensures OnBoard(PlaceAt(p, c, q)) == OnBoard(p) + {q}
  {
    var r := PlaceAt(p, c, q);
    forall d | d in r.grid && r.grid[d].Some?
      ensures r.grid[d].value < |r.table| && r.table[r.grid[d].value].square == Some(d)
    {
      if d != c {
        assert p.grid[d].value != q;
      }
    }
    forall k | 0 <= k < |r.table| && r.table[k].square.Some?
      ensures r.table[k].square.value in r.grid && r.grid[r.table[k].square.value] == Some(k)
    {
      if k != q {
        assert p.table[k].square.value != c;
      }
    }
  }

  /** Setting a piece on an occupied square leaves the displaced piece
      pointing at a square that no longer holds it. */
  lemma PlaceOnOccupiedBreaksLink(p: Position, c: Coord, q: PieceId)
    requires Linked(p) && c in p.grid && q < |p.table|
    requires Occupant(p, c).Some? && Occupant(p, c).value != q
    ensures !Linked(PlaceAt(p, c, q))
  {
    var q0 := Occupant(p, c).value;
    var r := PlaceAt(p, c, q);
    assert r.table[q0].square == Some(c);
    assert r.grid[c] == Some(q);
  }

  /** The occupant of one square as a list of zero or one pieces. */
  function Cell(p: Position, c: Coord): seq<PieceId> {
    match Occupant(p, c)
    case None => []
    case Some(q) => [q]
  }

  /** The pieces on file f, ranks 0 to n - 1, in rank order. */
  function FileScan(p: Position, f: int, n: nat): seq<PieceId> {
    if n == 0 then [] else FileScan(p, f, n - 1) + Cell(p, (f, n - 1))
  }

  /** The pieces on files 0 to nf - 1, file by file: the order of the
      squares array's `flat` iterator, whose first axis is the file. */
  function FlatScan(p: Position, nf: nat): seq<PieceId> {
    if nf == 0 then [] else FlatScan(p, nf - 1) + FileScan(p, nf - 1, p.ranks)
  }

  function Scan(p: Position): seq<PieceId> {
    FlatScan(p, p.files)
  }

  lemma {:induction false} FileScanSound(p: Position, f: int, n: nat)
    requires Linked(p)
    ensures forall q :: q in FileScan(p, f, n) ==>
      q < |p.table| && p.table[q].square.Some? &&
      p.table[q].square.value.0 == f && 0 <= p.table[q].square.value.1 < n
    ensures NoDup(FileScan(p, f, n))
  {
    if n > 0 {
      FileScanSound(p, f, n - 1);
      var a := FileScan(p, f, n - 1);
      var b := Cell(p, (f, n - 1));
      forall i, j | 0 <= i < j < |a + b| ensures (a + b)[i] != (a + b)[j] {
        if j >= |a| {
          assert (a + b)[j] == b[0];
          assert (a + b)[i] == a[i];
          assert a[i] in a;
        }
      }
    }
  }

  lemma {:induction false} FlatScanSound(p: Position, nf: nat)
    requires Linked(p)
    ensures forall q :: q in FlatScan(p, nf) ==>
      q < |p.table| && p.table[q].square.Some? &&
      0 <= p.table[q].square.value.0 < nf && 0 <= p.table[q].square.value.1 < p.ranks
    ensures NoDup(FlatScan(p, nf))
  {
    if nf > 0 {
      FlatScanSound(p, nf - 1);
      FileScanSound(p, nf - 1, p.ranks);
      var a := FlatScan(p, nf - 1);
      var b := FileScan(p, nf - 1, p.ranks);
      forall i, j | 0 <= i < j < |a + b| ensures (a + b)[i] != (a + b)[j] {
        if i < |a| && j >= |a| {
          assert (a + b)[i] == a[i] && a[i] in a;
          assert (a + b)[j] == b[j - |a|] && b[j - |a|] in b;
        } else if j < |a| {
          assert (a + b)[i] == a[i] && (a + b)[j] == a[j];
        } else {
          assert (a + b)[i] == b[i - |a|] && (a + b)[j] == b[j - |a|];
        }
      }
    }
  }

  lemma {:induction false} FileScanComplete(p: Position, f: int, n: nat, rank: int)
    requires 0 <= rank < n && Occupant(p, (f, rank)).Some?
    ensures Occupant(p, (f, rank)).value in FileScan(p, f, n)
  {
    if rank < n - 1 {
      FileScanComplete(p, f, n - 1, rank);
    }
  }

  lemma {:induction false} FlatScanComplete(p: Position, nf: nat, c: Coord)
    requires 0 <= c.0 < nf && 0 <= c.1 < p.ranks && Occupant(p, c).Some?
    ensures Occupant(p, c).value in FlatScan(p, nf)
  {
    if c.0 < nf - 1 {
      FlatScanComplete(p, nf - 1, c);
    } else {
      FileScanComplete(p, c.0, p.ranks, c.1);
    }
  }

  lemma {:induction false} ScanClosed(p: Position, nf: nat)
    requires Closed(p)
    ensures forall i :: 0 <= i < |FlatScan(p, nf)| ==> FlatScan(p, nf)[i] < |p.table|
  {
    if nf > 0 {
      ScanClosed(p, nf - 1);
      FileScanClosed(p, nf - 1, p.ranks);
    }
  }

  lemma {:induction false} FileScanClosed(p: Position, f: int, n: nat)
    requires Closed(p)
    ensures forall i :: 0 <= i < |FileScan(p, f, n)| ==> FileScan(p, f, n)[i] < |p.table|
  {
    if n > 0 {
      FileScanClosed(p, f, n - 1);
    }
  }

  /** The scan lists every piece on the board exactly once. */
  lemma ScanIsOnBoard(p: Position)
    requires Valid(p)
    ensures Elems(Scan(p)) == OnBoard(p)
    ensures NoDup(Scan(p))
  {
    FlatScanSound(p, p.files);
    forall q | q in OnBoard(p) ensures q in Scan(p) {
      var c := p.table[q].square.value;
      FlatScanComplete(p, p.files, c);
    }
  }
}
