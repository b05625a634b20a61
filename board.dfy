/** The Board class of chess_board.py: the squares of a files x ranks board,
    the pieces created for it, the piece index and the two king references.
    Square objects are identified by (board, file, rank), so a square is a key
    of the board's grid and its `piece` attribute the grid's entry. */
module ChessBoard {
  import opened Wrappers
  import opened Pieces
  import opened Lists
  import opened Coordinates
  import opened Occupancy
  import opened BoardIndex

  class Board {
    const files: nat
    const ranks: nat
    /** The names of the files and ranks used for this board's squares. */
    const labels: Labels
    /** Square.piece of every square. */
    var grid: Grid
    /** The fields of every Piece object placed on this board; PieceId indexes it. */
    var table: seq<PieceRec>
    /** Board.pieces. */
    var pieces: seq<PieceId>
    /** Board.piece_lists[name][color] for the queens, rooks, knights and bishops. */
    var pieceLists: map<Key, seq<PieceId>>
    var whiteKing: Option<PieceId>
    var blackKing: Option<PieceId>

    function Pos(): Position
      reads this
    {
      Position(files, ranks, grid, table)
    }

    function Ix(): Index
      reads this
    {
      Index(pieces, pieceLists)
    }

    /** All squares of the board exist, and every stored id names a piece of
        the table. */
    ghost predicate Valid()
      reads this
    {
      Shaped(Pos()) && Closed(Pos()) && Placed(Pos()) &&
      IdsIn(pieces, table) &&
      pieceLists.Keys == TRACKED_KEYS &&
      (whiteKing.Some? ==> whiteKing.value < |table|) &&
      (blackKing.Some? ==> blackKing.value < |table|)
    }

    /** Board.__init__ once the label table is known: one empty square per
        (file, rank), no pieces, no kings. */
    constructor (numFiles: nat, numRanks: nat, names: Labels)
      ensures files == numFiles && ranks == numRanks && labels == names
      ensures Valid() && Linked(Pos())
      ensures forall c :: c in grid ==> grid[c].None?
      ensures table == [] && Ix() == EMPTY_INDEX
      ensures whiteKing.None? && blackKing.None?
    {
      files := numFiles;
      ranks := numRanks;
      labels := names;
      var g: Grid := map[];
      for file := 0 to numFiles
        invariant forall c: Coord :: c in g <==> InBounds(file, numRanks, c)
        invariant forall c :: c in g ==> g[c].None?
      {
        for rank := 0 to numRanks
          invariant forall c: Coord :: c in g <==>
            InBounds(file, numRanks, c) || (c.0 == file && 0 <= c.1 < rank)
          invariant forall c :: c in g ==> g[c].None?
        {
          g := g[(file, rank) := None];
        }
      }
      grid := g;
      table := [];
      pieces := EMPTY_INDEX.pieces;
      pieceLists := EMPTY_INDEX.lists;
      whiteKing := None;
      blackKing := None;
    }

    /** `board.white_king = ...` or `board.black_king = ...`: only the king
        reference changes. */
    method SetKing(white: bool, q: PieceId)
      requires Valid() && q < |table|
      modifies this
      ensures Valid() && Pos() == old(Pos()) && Ix() == old(Ix())
      ensures white ==> whiteKing == Some(q) && blackKing == old(blackKing)
      ensures !white ==> blackKing == Some(q) && whiteKing == old(whiteKing)
    {
      if white {
        whiteKing := Some(q);
      } else {
        blackKing := Some(q);
      }
    }

    /** Square.set_piece (and Piece.set_square, which does the same) for the
        square at c. */
    method SetPiece(c: Coord, q: PieceId)
      requires Valid() && c in grid && q < |table|
      modifies this
      ensures Valid()
      ensures Pos() == PlaceAt(old(Pos()), c, q)
      ensures grid.Keys == old(grid.Keys) && |table| == |old(table)|
      ensures Ix() == old(Ix()) && whiteKing == old(whiteKing) && blackKing == old(blackKing)
    {
      grid := grid[c := Some(q)];
      table := table[q := table[q].(square := Some(c))];
    }

    /** Square.remove_piece for the square at c. */
    method RemovePiece(c: Coord)
      requires Valid() && c in grid
      modifies this
      ensures Valid()
      ensures Pos() == RemoveAt(old(Pos()), c)
      ensures grid.Keys == old(grid.Keys) && |table| == |old(table)|
      ensures Ix() == old(Ix()) && whiteKing == old(whiteKing) && blackKing == old(blackKing)
    {
      match grid[c]
      case None =>
      case Some(q) =>
        table := table[q := table[q].(square := None)];
        grid := grid[c := None];
    }

    /** A new Piece object for this board: an off-board record appended to the table. */
    method AddPiece(rec: PieceRec) returns (q: PieceId)
      requires Valid() && rec.square.None?
      modifies this
      ensures Valid()
      ensures q == |old(table)| && table == old(table) + [rec]
      ensures grid == old(grid) && Ix() == old(Ix())
      ensures whiteKing == old(whiteKing) && blackKing == old(blackKing)
      ensures old(Linked(Pos())) ==> Linked(Pos())
      ensures OnBoard(Pos()) == old(OnBoard(Pos()))
    {
      q := |table|;
      table := table + [rec];
    }

    /** Piece.first_move := v for the piece q. */
    method SetFirstMove(q: PieceId, v: Option<MoveId>)
      requires Valid() && q < |table|
      modifies this
      ensures Valid()
      ensures table == old(table)[q := old(table)[q].(firstMove := v)]
      ensures grid == old(grid) && Ix() == old(Ix()) && whiteKing == old(whiteKing) && blackKing == old(blackKing)
    {
      table := table[q := table[q].(firstMove := v)];
    }

    /** Piece.pin_direction := v for the piece q. */
    method SetPinDirection(q: PieceId, v: Option<Direction>)
      requires Valid() && q < |table|
      modifies this
      ensures Valid()
      ensures table == old(table)[q := old(table)[q].(pinDirection := v)]
      ensures grid == old(grid) && Ix() == old(Ix()) && whiteKing == old(whiteKing) && blackKing == old(blackKing)
    {
      table := table[q := table[q].(pinDirection := v)];
    }

    /** Board.update_pieces(added, removed). On a board whose piece list is
        empty, every square is scanned and the arguments are ignored; otherwise
        the added pieces are appended and the removed ones taken out, each list
        from its end. `ok` is false when list.remove raised a ValueError, in
        which case the index is left as far as it got. */
    method UpdatePieces(added: seq<PieceId>, removed: seq<PieceId>) returns (ok: bool)
      requires Valid() && IdsIn(added, table) && IdsIn(removed, table)
      modifies this
      ensures Valid()
      ensures Pos() == old(Pos())
      ensures UpdateSpec(old(Ix()), Pos(), added, removed) == (if ok then Done(Ix()) else Failed(Ix()))
      ensures whiteKing == old(whiteKing) && blackKing == old(blackKing)
    {
      if |pieces| == 0 {
        ScanSquares();
        ok := true;
      } else {
        AddEach(added);
        ok := RemoveEach(removed);
      }
      if ok {
        IdsInDistinct(pieces, table);
        pieces := Distinct(pieces);
      }
    }

    /** The full scan of update_pieces, square by square in file-major order. */
    method ScanSquares()
      requires Valid()
      modifies this
      ensures grid == old(grid) && table == old(table) && IdsIn(pieces, table) && pieceLists.Keys == TRACKED_KEYS
      ensures IdsIn(Scan(Pos()), table)
      ensures Ix() == ScanInto(old(Ix()), table, Scan(Pos()))
      ensures whiteKing == old(whiteKing) && blackKing == old(blackKing)
    {
      var p := Pos();
      var ix0 := Ix();
      ScanIds(p);
      for file := 0 to files
        invariant grid == old(grid) && table == old(table) && IdsIn(pieces, table) && pieceLists.Keys == TRACKED_KEYS
        invariant whiteKing == old(whiteKing) && blackKing == old(blackKing)
        invariant IdsIn(FlatScan(p, file), table)
        invariant Ix() == ScanInto(ix0, table, FlatScan(p, file))
      {
        ScanClosed(p, file + 1);
        FileScanClosed(p, file, ranks);
        ghost var ixf := Ix();
        ScanFile(file);
        ScanIntoConcat(ix0, table, FlatScan(p, file), FileScan(p, file, ranks));
      }
    }

    /** The squares of one file, rank by rank. */
    method ScanFile(file: int)
      requires Shaped(Pos()) && Closed(Pos()) && IdsIn(pieces, table) && pieceLists.Keys == TRACKED_KEYS
      requires 0 <= file < files
      modifies this
      ensures grid == old(grid) && table == old(table) && IdsIn(pieces, table) && pieceLists.Keys == TRACKED_KEYS
      ensures IdsIn(FileScan(Pos(), file, ranks), table)
      ensures Ix() == ScanInto(old(Ix()), table, FileScan(Pos(), file, ranks))
      ensures whiteKing == old(whiteKing) && blackKing == old(blackKing)
    {
      var p := Pos();
      var ix0 := Ix();
      FileScanClosed(p, file, ranks);
      for rank := 0 to ranks
        invariant grid == old(grid) && table == old(table) && IdsIn(pieces, table) && pieceLists.Keys == TRACKED_KEYS
        invariant whiteKing == old(whiteKing) && blackKing == old(blackKing)
        invariant IdsIn(FileScan(p, file, rank), table)
        invariant Ix() == ScanInto(ix0, table, FileScan(p, file, rank))
      {
        FileScanClosed(p, file, rank + 1);
        ghost var before := FileScan(p, file, rank);
        assert FileScan(p, file, rank + 1) == before + Cell(p, (file, rank));
        ScanSquare((file, rank));
        ScanIntoConcat(ix0, table, before, Cell(p, (file, rank)));
      }
    }

    /** One square of the scan: its occupant, if any, is appended. */
    method ScanSquare(c: Coord)
      requires Shaped(Pos()) && Closed(Pos()) && IdsIn(pieces, table) && pieceLists.Keys == TRACKED_KEYS
      requires InBounds(files, ranks, c)
      modifies this
      ensures grid == old(grid) && table == old(table) && IdsIn(pieces, table) && pieceLists.Keys == TRACKED_KEYS
      ensures whiteKing == old(whiteKing) && blackKing == old(blackKing)
      ensures IdsIn(Cell(Pos(), c), table)
      ensures Ix() == ScanInto(old(Ix()), table, Cell(Pos(), c))
    {
      match grid[c]
      case None =>
      case Some(q) =>
        assert [q][..0] == [];
        var k := KeyOf(table, q);
        pieces := pieces + [q];
        if k in pieceLists {
          pieceLists := pieceLists[k := pieceLists[k] + [q]];
        }
    }

    /** The adding loop of update_pieces, over `added` from its end. */
    method AddEach(added: seq<PieceId>)
      requires Valid() && IdsIn(added, table)
      modifies this
      ensures grid == old(grid) && table == old(table) && IdsIn(pieces, table) && pieceLists.Keys == TRACKED_KEYS
      ensures Ix() == AddAll(old(Ix()), table, added)
      ensures whiteKing == old(whiteKing) && blackKing == old(blackKing)
    {
      var k := |added|;
      while k > 0
        invariant 0 <= k <= |added|
        invariant grid == old(grid) && table == old(table) && IdsIn(pieces, table) && pieceLists.Keys == TRACKED_KEYS
        invariant whiteKing == old(whiteKing) && blackKing == old(blackKing)
        invariant Ix() == AddAll(old(Ix()), table, added[k..])
      {
        k := k - 1;
        assert added[k..][1..] == added[k + 1..];
        IndexPiece(added[k]);
      }
    }

    /** One turn of the adding loop: the piece goes on the list of all
        pieces and, when its kind is tracked, on its kind's list. */
    method IndexPiece(q: PieceId)
      requires IdsIn(pieces, table) && q < |table| && pieceLists.Keys == TRACKED_KEYS
      modifies this
      ensures grid == old(grid) && table == old(table) && IdsIn(pieces, table) && pieceLists.Keys == TRACKED_KEYS
      ensures whiteKing == old(whiteKing) && blackKing == old(blackKing)
      ensures Ix() == AddOne(old(Ix()), table, q)
    {
      var key := KeyOf(table, q);
      pieces := pieces + [q];
      if key in pieceLists {
        pieceLists := pieceLists[key := Distinct(pieceLists[key] + [q])];
      }
    }

    /** The removing loop of update_pieces, over `removed` from its end;
        false when a list.remove raised. */
    method RemoveEach(removed: seq<PieceId>) returns (ok: bool)
      requires Valid() && IdsIn(removed, table)
      modifies this
      ensures grid == old(grid) && table == old(table) && IdsIn(pieces, table) && pieceLists.Keys == TRACKED_KEYS
      ensures RemoveAll(old(Ix()), table, removed) == (if ok then Done(Ix()) else Failed(Ix()))
      ensures whiteKing == old(whiteKing) && blackKing == old(blackKing)
    {
      var k := |removed|;
      while k > 0
        invariant 0 <= k <= |removed|
        invariant grid == old(grid) && table == old(table) && IdsIn(pieces, table) && pieceLists.Keys == TRACKED_KEYS
        invariant whiteKing == old(whiteKing) && blackKing == old(blackKing)
        invariant RemoveAll(old(Ix()), table, removed[k..]) == Done(Ix())
      {
        k := k - 1;
        assert removed[k..][1..] == removed[k + 1..];
        assert RemoveAll(old(Ix()), table, removed[k..]) == RemoveOne(Ix(), table, removed[k]);
        var done := UnindexPiece(removed[k]);
        if !done {
          RemoveAllFailureSpreads(old(Ix()), table, removed, k);
          return false;
        }
      }
      assert removed[0..] == removed;
      return true;
    }

    /** One turn of the removing loop: the piece leaves the list of all
        pieces and, when its kind is tracked, its kind's list; false when
        either list.remove raised. */
    method UnindexPiece(q: PieceId) returns (ok: bool)
      requires IdsIn(pieces, table) && q < |table| && pieceLists.Keys == TRACKED_KEYS
      modifies this
      ensures grid == old(grid) && table == old(table) && IdsIn(pieces, table) && pieceLists.Keys == TRACKED_KEYS
      ensures whiteKing == old(whiteKing) && blackKing == old(blackKing)
      ensures RemoveOne(old(Ix()), table, q) == (if ok then Done(Ix()) else Failed(Ix()))
    {
      if q !in pieces {
        return false;
      }
      IdsInRemoveFirst(pieces, table, q);
      pieces := RemoveFirst(pieces, q);
      var key := KeyOf(table, q);
      if key in pieceLists {
        if q !in pieceLists[key] {
          return false;
        }
        pieceLists := pieceLists[key := Distinct(RemoveFirst(pieceLists[key], q))];
      }
      return true;
    }
  }

  /** Board(numFiles, numRanks): the default labels for 8 x 8, otherwise the
      table of DefineFileAndRank, whose IndexError past 26 files is passed on. */
  method NewBoard(numFiles: nat, numRanks: nat) returns (r: Result<Board>)
    ensures r.Err? <==> (numFiles, numRanks) != (8, 8) && numFiles > |ALPHA|
    ensures r.Ok? ==> fresh(r.value) && r.value.Valid() && Linked(r.value.Pos())
    ensures r.Ok? ==> r.value.files == numFiles && r.value.ranks == numRanks
    ensures r.Ok? && (numFiles, numRanks) == (8, 8) ==> r.value.labels == DEFAULT_LABELS
    ensures r.Ok? && (numFiles, numRanks) != (8, 8) ==>
      |r.value.labels.files| == numFiles && |r.value.labels.ranks| == numRanks &&
      (forall i :: 0 <= i < numFiles ==> r.value.labels.files[i] == [ALPHA[i]]) &&
      (forall i :: 0 <= i < numRanks ==> r.value.labels.ranks[i] == NatToString(numRanks - 1 - i))
    ensures r.Ok? ==> r.value.table == [] && r.value.Ix() == EMPTY_INDEX
    ensures r.Ok? ==> forall c :: c in r.value.grid ==> r.value.grid[c].None?
    ensures r.Ok? ==> r.value.whiteKing.None? && r.value.blackKing.None?
  {
    var names := DEFAULT_LABELS;
    if (numFiles, numRanks) != (8, 8) {
      var defined := DefineFileAndRank(numFiles, numRanks);
      if defined.Err? {
        return Err(defined.error);
      }
      names := defined.value;
    }
    var b := new Board(numFiles, numRanks, names);
    return Ok(b);
  }
}
