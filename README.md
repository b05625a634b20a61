# Chess engine core in Dafny

This project models the deterministic core of a small Python chess program and
proves properties of that model:

- **the board** (`chess_board.py`): square names in algebraic notation, square
  colours, the two references between a `Square` and the `Piece` on it,
  `Board.__init__`, `Board.update_pieces` with its `pieces` list and its
  `piece_lists` index, and the three board builders;
- **the pieces** (`chess_pieces.py`): colour normalisation, the direction
  tables, image names, the first-move and pin fields, pawn direction and
  promotion rank;
- **the game** (`chess_engine.py`): the `GameState` class (`make_move`,
  `undo_move`, `redo_move`, `make_new_move`, the move generators, pin and check
  detection, `get_valid_moves`, castling, `promote`, `find_mate`) and the
  `Move` class (construction, identity, notation, `__str__`);
- **the evaluation** (`chess_ai.py`): `PIECE_SCORE`, `CHECKMATE`, `STALEMATE`,
  `scoreMaterial` and `scoreBoard`.

## How the program is represented

- Every `Piece` object belongs to one board. It is identified by its index in
  the board's piece table (`PieceId`), which replaces `id()`.
  - A `PieceRec` holds the fields the program changes: `square`, `first_move`
    and `pin_direction`.
  - It also holds the kind and colour set by the subclass constructor.
- A `Square` is identified by `(board, file, rank)`, as its `__eq__` and
  `__hash__` say. Its `piece` attribute is the entry of the board's `grid` map
  at `(file, rank)`.
  - `Square.set_piece` is `PlaceAt`.
  - `Square.remove_piece` is `RemoveAt`.
  - `Linked` states that the two references agree.
- `Board` (module `ChessBoard`) and `GameState` (module `Engine`) are classes.
  Their fields are reassigned by methods with `modifies` clauses.
  - Each method is specified by a function on values. `Board.Pos()` and
    `Board.Ix()` give the board's position and index. `GameState.State()` gives
    every attribute but the board.
  - The functions live in modules `Occupancy`, `BoardIndex`, `Play` and
    `History`.
- The move generators and the pin/check scan are written as loops
  (`GameState.FindMovesOnPath`, `GetKingAndKnightMoves`, `GetPawnMoves`,
  `GetPinsAndChecks`, `GetCastleMoves`, `GetAllMoves`). The removal loops of
  `get_valid_moves` are written as loops too (`Removal.RemoveFailing`). Each
  loop is proved equal to a recursive definition in `Movegen`, `Checks`,
  `Castling` or `ValidMoves`. What the program promises is proved about those
  definitions.
- Python exceptions become `Result`/`Option` values with a `ValueError`,
  `IndexError` or `AttributeError`. Example: a `list.remove` of a missing
  element becomes `ValueError`.
- numpy's negative indices wrap around (`Movegen.Wrap`, `Movegen.SquareOf`).
  This is modelled where the program indexes without a bounds check: the
  pawn's forward and double step, the en-passant end square, and the castling
  squares.
- `list(set(x))` keeps each element once. Python leaves the order to the hash
  set; the model keeps first occurrences (`Lists.Distinct`). The scores are
  proved independent of that order (`Scoring.SumPermutation`).

### Behaviour of the code as written

The model follows the code, including these effects:

- `make_move` never takes the pawn captured en passant out of `pieces`
  (chess_engine.py:62-65). The board and its index then disagree
  (`Invariants.EnPassantBreaksSync`).
- Undoing a promotion never puts the pawn back into `pieces`
  (chess_engine.py:116-117). The board and its index then disagree
  (`Invariants.PromotionUndoBreaksSync`).
- `undo_move` does not restore `stalemate_counter` from the log. It carries the logged value to `undo_log`, and `redo_move` ignores it (chess_engine.py:101, 135, 141).
  `History.UndoThenRedo` therefore gives the move log back only when the
  counter still equals the logged one.
- After undoing the first move, `enpassant_coords` keeps the value that move
  gave it (chess_engine.py:118).
- A castle that generated its move with a rook whose `square` was None
  (`castle[1]` is None) raises AttributeError when it is made, undone or named.
  The model returns that error.
- Castling places the rook on its end square with `set_piece`. If an enemy piece
  stood there, that piece keeps a stale `square`
  (`Occupancy.PlaceOnOccupiedBreaksLink`). So neither agreement is a
  `GameState` invariant. The module `Invariants` proves, for `make_move` and
  `undo_move`, when each one is kept:
  - `Linked` (square and piece refer to each other) is kept by a plain move, a
    capture, en passant, a promotion whose new piece is off the board, and a
    castle onto empty squares. The same holds for undoing each of them.
  - `Synced` (`pieces` and `piece_lists` list exactly the pieces on the board)
    is kept by the same moves, except en passant. It is also kept by undoing
    them, en passant included, except for promotions.
  `redo_move` is `make_move` of the undone move, so it inherits these results.
- `make_new_move` appends `undo_log` to `move_branches` and then clears the same
  list, so the branch it records is empty (`History.BeforeNewMove`).
- `defineFILEandRANK` labels the ranks `ranks-1` down to `0`. The default 8 x 8
  table labels them `8` down to `1`.
- A move's id packs both squares into one number with digits 1000/100/10/1. On
  boards larger than 10 x 10, different moves can share an id
  (`Moves.SquareCodeCollides`).

## Model

| member | source | states |
|---|---|---|
| Pieces.NormalizeColor | chess_pieces.py:55-60 | a colour string is accepted exactly when it starts with w/W or b/B; it is white exactly for w/W; anything else is a ValueError |
| Pieces.Lower | chess_pieces.py:55-57 | str.lower keeps the length and lowers each capital letter, leaving other characters alone |
| Pieces.NewPiece | chess_pieces.py:47-66 | a new piece has the requested kind and the normalised colour, and no square, first move or pin; it fails exactly when the colour is rejected |
| Pieces.ImageName | chess_pieces.py:65 | the image name is two characters: the colour's initial, then the kind's symbol |
| Pieces.GetCoords | chess_pieces.py:101-116 | coordinates exist exactly when the piece is on the board, and they are its square |
| Pieces.GetFirstMove | chess_pieces.py:217-222 | a first move is returned exactly when the piece has moved, and it is the recorded one |
| Pieces.ColorNameRoundTrip | chess_pieces.py:55-58 | normalising 'white' or 'black' gives back that colour |
| Pieces.PawnPromotionRanks | chess_pieces.py:352-367 | a white pawn steps (0,-1) and promotes at rank 0, a black pawn (0,1) at rank 7; can_promote holds exactly on rank 1 (white) or 6 (black) |
| Pieces.KnightOffsets | chess_pieces.py:25-34 | the eight knight offsets are distinct and each moves 1 and 2 squares in the two axes |
| Pieces.RoyalDirections | chess_pieces.py:270-301 | king and queen directions are exactly the eight distinct unit steps |
| Lists.RemoveFirst | chess_board.py:298 | list.remove takes out one occurrence of the element and nothing else |
| Lists.Distinct | chess_board.py:304 | list(set(x)) keeps the same elements without duplicates, and a list without duplicates is unchanged |
| Lists.RemoveFirstNoDup | chess_board.py:298-302 | removing from a list without duplicates removes exactly that element and keeps the list duplicate-free |
| Coordinates.DefineFileAndRank | chess_board.py:14-29 | files are labelled a, b, c, ... and ranks ranks-1 down to 0; more than 26 files is an IndexError |
| Coordinates.NatToString | chess_board.py:27 | str(rank) is a non-empty string of decimal digits with a leading zero only for 0 |
| Coordinates.NatToStringValue | chess_board.py:27 | reading the digits of str(n) back gives n |
| Coordinates.Find | chess_board.py:41-42 | str.index: the first position holding the label, or none when no position holds it |
| Coordinates.AlgebraicRoundTrip | chess_board.py:32-59 | algebraicToComputer(computerToAlgebraic(f, r)) == (f, r) for every square when labels are single distinct characters |
| Coordinates.ComputerRoundTrip | chess_board.py:32-59 | a two-character name that parses is the name of the square it parses to |
| Coordinates.DefaultLabelsSingleChar | chess_board.py:10-11 | the 8 x 8 labels are single distinct characters, (0, 0) is "a8" and (7, 7) is "h1" |
| Coordinates.DefinedLabelsSingleChar | chess_board.py:14-29 | the generated labels of a board of at most 26 files and 10 ranks are single distinct characters, so names round-trip there too |
| Coordinates.NeighbourColors | chess_board.py:62-69 | squares one step apart along a file or rank differ in colour, diagonal neighbours agree, a8 and h1 are light |
| Occupancy.PieceAt | chess_board.py:142-147 | the piece on a square is the table entry of the square's occupant |
| Occupancy.RemoveAt | chess_board.py:171-175 | removing empties exactly that square and keeps the set of squares and the piece table's size |
| Occupancy.PlaceAt | chess_board.py:163-169 | placing keeps the set of squares and the piece table's size (what it links is in PlaceAtLinked) |
| Occupancy.RemoveAtLinked | chess_board.py:171-175 | remove_piece keeps square and piece references in step, takes exactly the occupant off the board, changes no other square and does nothing on an empty square |
| Occupancy.PlaceAtLinked | chess_board.py:163-169 | set_piece of an off-board piece on an empty square keeps the references in step and puts exactly that piece on the board |
| Occupancy.PlaceOnOccupiedBreaksLink | chess_board.py:163-169 | set_piece on a square held by another piece leaves that piece's square stale |
| Occupancy.FlatScanSound | chess_board.py:273-278 | the file-major scan of squares.flat yields pieces standing on the board, each once |
| Occupancy.FlatScanComplete | chess_board.py:273-278 | every occupant of a square is found by the scan |
| Occupancy.ScanIsOnBoard | chess_board.py:273-278 | the scan of a linked board yields exactly the pieces on the board, without duplicates |
| BoardIndex.Select | chess_board.py:279-280 | the scan adds to piece_lists[name][color] exactly the scanned pieces of that kind and colour |
| BoardIndex.ScanIntoShape | chess_board.py:273-280 | the scan appends every occupant to pieces and each tracked occupant to its own list |
| BoardIndex.ScanConsistent | chess_board.py:270-280 | scanning into an empty index gives an index that lists exactly the scanned pieces, each once, with every list holding its kind and colour |
| BoardIndex.FullScanSynced | chess_board.py:270-280 | update_pieces on an empty pieces list ignores its arguments and indexes exactly the pieces on the board |
| BoardIndex.AddOneConsistent | chess_board.py:287-293 | adding a piece not yet indexed keeps the index consistent with one more piece |
| BoardIndex.AddAllConsistent | chess_board.py:285-293 | adding a list of new distinct pieces keeps the index consistent with those pieces added |
| BoardIndex.RemoveOneConsistent | chess_board.py:296-302 | removing an indexed piece succeeds and keeps the index consistent with one piece fewer |
| BoardIndex.RemoveAllConsistent | chess_board.py:294-302 | removing distinct indexed pieces succeeds and keeps the index consistent without them |
| BoardIndex.IncrementalSynced | chess_board.py:282-304 | update_pieces with new pieces set and indexed pieces removed succeeds and indexes the old set plus the added minus the removed |
| BoardIndex.AddAllPieces | chess_board.py:285-291 | after adding, pieces holds the old elements and the added ones |
| BoardIndex.RemoveAllShrinks | chess_board.py:294-302 | a successful removal never adds a piece |
| BoardIndex.RemoveAllAbsentFails | chess_board.py:294-298 | removing a piece that is not in pieces raises ValueError |
| BoardIndex.RemoveAbsentFails | chess_board.py:264-304 | update_pieces raises when asked to remove a piece neither indexed nor being added |
| BoardIndex.EmptyUpdateUnchanged | chess_board.py:282-304 | update_pieces with nothing to set or remove leaves a duplicate-free index as it is |
| ChessBoard.Board.constructor | chess_board.py:219-252 | a new board has every square of the given size, all empty, no pieces, an empty index and no kings |
| ChessBoard.NewBoard | chess_board.py:219-252 | Board(nf, nr) uses the default labels for 8 x 8; otherwise file i is labelled by the i-th letter and rank i by the number nr - 1 - i, and more than 26 files fail; the board is empty and well formed |
| ChessBoard.Board.SetPiece | chess_board.py:163-169 | set_piece on a board updates its position as PlaceAt does and nothing else |
| ChessBoard.Board.RemovePiece | chess_board.py:171-175 | remove_piece on a board updates its position as RemoveAt does and nothing else |
| ChessBoard.Board.AddPiece | chess_pieces.py:61-64 | a newly constructed piece joins the table off the board; the squares, index and kings are unchanged |
| ChessBoard.Board.SetKing | chess_board.py:338-341 | the builder records the chosen king and leaves the other king and the position alone |
| ChessBoard.Board.SetFirstMove | chess_engine.py:81-82 | only the piece's first_move field changes |
| ChessBoard.Board.SetPinDirection | chess_engine.py:317-320 | only the piece's pin_direction field changes |
| ChessBoard.Board.UpdatePieces | chess_board.py:264-304 | update_pieces leaves the squares alone and leaves the index as the update specification gives it, failing exactly when that raises |
| ChessBoard.Board.ScanSquares | chess_board.py:273-280 | the loop over squares.flat indexes the occupants in scan order |
| ChessBoard.Board.ScanFile | chess_board.py:273-280 | one file of the scan indexes that file's occupants in rank order |
| ChessBoard.Board.ScanSquare | chess_board.py:274-280 | one square of the scan indexes its occupant, if any |
| ChessBoard.Board.AddEach | chess_board.py:285-293 | the loop over reversed(pieces_set) indexes each added piece |
| ChessBoard.Board.IndexPiece | chess_board.py:287-293 | one added piece is appended to pieces and, when tracked, to its list, which is then deduplicated |
| ChessBoard.Board.RemoveEach | chess_board.py:294-302 | the loop over reversed(pieces_removed) removes each piece, stopping at the first that is missing |
| ChessBoard.Board.UnindexPiece | chess_board.py:296-302 | one removed piece leaves pieces and its list, failing when it is not in them |
| Scenarios.StandardRecs | chess_board.py:317-341 | the standard set is 32 pieces in creation order: white/black pawns, rooks, knights, bishops, queens, kings |
| Scenarios.StandardIdOfSquare | chess_board.py:317-341 | each of the 32 standard pieces is found on its starting square |
| Scenarios.StandardSquareOfId | chess_board.py:317-341 | each occupied starting square holds the standard piece whose square it is |
| Scenarios.StandardLayoutAgrees | chess_board.py:317-341 | the occupied starting squares are exactly those of the standard layout, with the right kind and colour |
| Scenarios.StandardLayoutOk | chess_board.py:317-341 | the standard layout puts distinct pieces on distinct squares of an 8 x 8 board |
| Scenarios.PlaceNext | chess_board.py:320 | placing the next new piece of a layout on its square extends the placed prefix by one |
| Scenarios.PlacedLinked | chess_board.py:317-341 | a fully placed layout is linked and its grid is the layout's occupancy |
| Scenarios.Put | chess_board.py:320 | squares[f, r].set_piece(Kind(color)) adds a new piece to the table and places it there |
| Scenarios.NamedColors | chess_pieces.py:55-58 | 'white' and 'black' build white and black pieces |
| Scenarios.PutNext | chess_board.py:320-321 | placing the next piece of a layout keeps the builder's invariant one step further |
| Scenarios.PutStandard | chess_board.py:320-336 | one set_piece of makeStandardBoard places the next standard piece |
| Scenarios.PutPair | chess_board.py:319-333 | one loop iteration places the white piece and then the black piece of a file |
| Scenarios.RookPairs | chess_board.py:323-325 | the rooks are placed on files 0 and 7 |
| Scenarios.KnightPairs | chess_board.py:327-329 | the knights are placed on files 1 and 6 |
| Scenarios.BishopPairs | chess_board.py:331-333 | the bishops are placed on files 2 and 5 |
| Scenarios.PutPairs | chess_board.py:322-333 | a `for file in (...)` loop places both colours on each listed file |
| Scenarios.PutPawns | chess_board.py:318-321 | the pawn loop places the sixteen pawns on ranks 6 and 1 |
| Scenarios.PutMinorPairs | chess_board.py:322-333 | rooks, knights and bishops are placed on the back ranks |
| Scenarios.PutRoyals | chess_board.py:334-341 | the queens and kings are placed and the king references set |
| Scenarios.PutKing | chess_board.py:338-341 | a king is created, placed and recorded as its colour's king |
| Scenarios.PutKings | chess_board.py:337-341 | the white king goes to (4, 7) and the black king to (4, 0), and both are recorded |
| Scenarios.PutPieces | chess_board.py:317-341 | all 32 pieces are placed and the kings recorded |
| Scenarios.Finish | chess_board.py:343 | the final update_pieces indexes exactly the pieces on the board |
| Scenarios.MakeStandardBoard | chess_board.py:311-345 | makeStandardBoard yields the 8 x 8 start position, linked and indexed, with the kings at (4, 7) and (4, 0) |
| Scenarios.StandardOnBoard | chess_board.py:317-341 | all 32 standard pieces are on the board |
| Scenarios.StandardCounts | chess_board.py:311-345 | the index holds 32 pieces, two rooks, knights and bishops and one queen of each colour |
| Scenarios.CountKey | chess_board.py:343 | a tracked list of the standard board has one entry per standard piece of its kind and colour |
| Scenarios.StandardOfKey | chess_board.py:343 | the standard pieces of a kind and colour are the ids of that colour in the kind's id range |
| Scenarios.StandardKeyMember | chess_board.py:343 | membership form of StandardOfKey for one id |
| Scenarios.EndgameLayoutOk | chess_board.py:367-374 | the endgame layout puts distinct pieces on distinct squares of an 8 x 8 board |
| Scenarios.PutEndgamePiece | chess_board.py:368-369 | one loop iteration places a piece of the chosen colour on file 0 or 7 of its back rank |
| Scenarios.PutEndgamePieces | chess_board.py:367-374 | two pieces of the chosen colour go to files 0 and 7 of its back rank, then the kings to (4, 7) and (4, 0) |
| Scenarios.BuildEndgame | chess_board.py:366-376 | the endgame position is built, linked and indexed, with both kings recorded |
| Scenarios.EndgameBoard | chess_board.py:356-378 | the builder returns None unless the selector's lower-case form starts with w or b, and otherwise the endgame board of that colour |
| Scenarios.MakeTwoRooksEndgameBoard | chess_board.py:348-378 | makeTwoRooksEndgameBoard: two rooks of the chosen colour and both kings, or None for a bad selector |
| Scenarios.MakeQueenEndgameBoard | chess_board.py:380-410 | makeQueenEndgameBoard: two queens of the chosen colour and both kings, or None for a bad selector |
| Scenarios.EndgameKeys | chess_board.py:367-374 | the four endgame pieces are on the board, and the chosen colour has exactly the two pieces of the kind |
| Scenarios.EndgameCounts | chess_board.py:376 | the endgame index holds four pieces and two of the kind for the chosen colour, none for the other |
| Moves.NewMove | chess_engine.py:577-605 | Move() raises ValueError exactly when the start square is empty; otherwise the moved piece is the start occupant, the captured piece the end occupant, the name empty, and the id the identity tuple |
| Moves.SquareCodeInjective | chess_engine.py:592-603 | on boards of at most 10 x 10 the square code identifies both squares |
| Moves.SquareCodeCollides | chess_engine.py:597-600 | on larger boards two different square pairs share a code |
| Moves.SameMoveIff | chess_engine.py:607-611 | two constructed moves are equal exactly when move number, moved piece, both squares and captured piece agree |
| Moves.SquareName | chess_board.py:89 | a square's name starts with its file label and is at least two characters long |
| Moves.CastleNotation | chess_engine.py:620-626 | 'O-O-O' exactly when the rook's file is left of the king's, otherwise 'O-O' |
| Moves.PawnNotation | chess_engine.py:635-652 | a quiet pawn move is named by its end square; a capture starts with the start file and 'x' |
| Moves.PieceNotation | chess_engine.py:654-695 | a piece move is the symbol, the disambiguation, 'x' for a capture, then the end square |
| Moves.MarkFromOfStart | chess_engine.py:666-682 | the disambiguation only ever uses the moved piece's own file and rank |
| Moves.DisambiguateOfStart | chess_engine.py:662-682 | the same over every other piece of the list |
| Moves.MarkFromNoRival | chess_engine.py:666-682 | a piece with no valid move to the same end square adds nothing |
| Moves.Disambiguate | chess_engine.py:659-684 | the disambiguation loop computes the file and rank marks, which come from the start square |
| Moves.GetChessNotation | chess_engine.py:616-695 | notation is the castle form, the pawn form, or the piece form with disambiguation when more than one piece of the kind and colour is listed |
| Moves.IntToString | chess_engine.py:698 | str() of an integer starts with '-' exactly for a negative number, the rest are decimal digits, and they read back as its absolute value |
| Moves.MoveString | chess_engine.py:697-704 | str(move) is the full-move number move_number // 2 + 1, then '...' for black or '. ' for white, then the name |
| Moves.MoveNumberPairs | chess_engine.py:697-704 | in the printed moves, half-moves n and n + 1 (n even) carry the same number prefix, whose digits read n / 2 + 1, and half-move n + 2 carries the next number |
| Movegen.Wrap | chess_engine.py:348 | numpy indexing: indices in [-n, n) select a square, negative ones from the far end; others are IndexError |
| Movegen.SquareOf | chess_engine.py:348-370 | the square an unchecked index selects is on the board and is the coordinate itself when that is in bounds |
| Movegen.Plain | chess_engine.py:405-408 | one plain move per end square |
| Movegen.PlainMoves | chess_engine.py:405-408 | each plain move is the Move constructed from the start to that end square |
| Movegen.EmitSound | chess_engine.py:436-445 | appending moves to the list keeps the earlier moves and adds one sound move per end square, failing exactly when the start is empty |
| Movegen.EmitPrefixErr | chess_engine.py:580-582 | once a move construction raises, the rest of the generation is not reached |
| Movegen.LeaperEndsExact | chess_engine.py:395-401 | king and knight targets are exactly the in-bounds start+offset squares without a friendly piece |
| Movegen.LeaperEndsInBounds | chess_engine.py:397-400 | every king or knight target is on the board |
| Movegen.KingKnightTargets | chess_engine.py:378-408 | a pinned piece adds nothing; otherwise every added move starts at the piece, ends on the board at start + offset, and does not land on a friendly piece |
| Movegen.RayStops | chess_engine.py:427-440 | a ray ends at the first occupied square, included only when it holds an enemy |
| Movegen.RaySound | chess_engine.py:427-445 | every square on a ray is start + i x direction with the squares between empty |
| Movegen.RayComplete | chess_engine.py:427-445 | every reachable empty or enemy square before the first blocker is on the ray |
| Movegen.PathEndsExact | chess_engine.py:422-426 | the path targets are the rays of the directions the pin allows |
| Movegen.PathEndsInBounds | chess_engine.py:427-435 | path targets are on the board and hold no friendly piece |
| Movegen.PathTargets | chess_engine.py:410-445 | find_moves_on_path adds exactly one move per square on each allowed ray, and no others |
| Movegen.PushesShape | chess_engine.py:337-351 | every pawn push is a sound move from the pawn, allowed by its pin, onto the empty square one rank ahead, or two ranks ahead for an unmoved pawn whose first square ahead is empty |
| Movegen.PushesComplete | chess_engine.py:337-351 | conversely, when the pin allows it, the empty square one rank ahead is pushed to, and for an unmoved pawn so is the empty square two ranks ahead |
| Movegen.CaptureShape | chess_engine.py:353-363 | every pawn capture is a sound move from the pawn, allowed by its pin, onto an enemy one file aside and one rank ahead |
| Movegen.CaptureComplete | chess_engine.py:353-363 | conversely an enemy one file aside and one rank ahead is captured when the pin allows it |
| Movegen.CapturesShape | chess_engine.py:354-363 | both capture directions add only sound moves from the pawn |
| Movegen.EnPassantShape | chess_engine.py:365-376 | the en-passant move starts at the pawn and is a sound move |
| Movegen.PawnTargets | chess_engine.py:324-376 | get_pawn_moves keeps the earlier moves and adds only sound moves from the pawn: a push one or (unmoved, over an empty square) two ranks ahead, a diagonal capture of an enemy, or the en-passant capture beside the target, each allowed by the pin where the source checks it |
| Checks.RayScanSound | chess_engine.py:462-519 | a check found on a ray comes from an enemy that attacks along it with nothing between; a pin found is the first piece on that ray, friendly and not the king, with an enemy attacker behind it and nothing between the two |
| Checks.RayScanComplete | chess_engine.py:462-519 | an attacking enemy with nothing in front of it ends the walk: as a check when no friendly piece was met, as a pin of that piece otherwise |
| Checks.RayScanPinComplete | chess_engine.py:462-519 | a friendly piece first on the ray with an attacker behind it is reported as a pin |
| Checks.ScanAllMembers | chess_engine.py:456-519 | the checks and pins of all eight directions are exactly those found on some ray |
| Checks.KnightChecksExact | chess_engine.py:521-534 | knight checks are exactly the enemy knights a knight's jump away |
| Checks.ChecksSound | chess_engine.py:447-536 | every reported check is an enemy knight a jump away or an attacker on an open line |
| Checks.PinsSound | chess_engine.py:447-536 | every reported pin is the first piece on one of the eight lines, friendly and not the king, with an enemy attacker behind it on that line and nothing between |
| Checks.ChecksComplete | chess_engine.py:447-536 | every enemy knight a jump away and every attacker on an open line is reported |
| Checks.PinsComplete | chess_engine.py:447-536 | every friendly piece first on one of the eight lines with an enemy attacker behind it is reported as a pin |
| Checks.LastPinAt | chess_engine.py:318-322 | the pin found by the reversed scan is the last pin on the piece's square |
| Checks.PinUpdate | chess_engine.py:314-322 | is_piece_pinned sets the pin direction exactly when a pin names the piece's square, and drops that pin; kings are untouched |
| Castling.CastleStepFound | chess_engine.py:276-284 | an unmoved friendly rook on the path yields a castle move to the castle square with the rook's squares |
| Castling.CastlePathFound | chess_engine.py:266-286 | every castle move the walk yields goes to the castle square toward an unmoved rook of the king's colour, reached over squares that are on the board and empty or hold rooks of that colour |
| Castling.CastlePathComplete | chess_engine.py:266-286 | conversely an unmoved rook of the king's colour reached over such squares yields a castle move toward it |
| Castling.CastleForFound | chess_engine.py:252-286 | castle moves come only from a king move to the square beside the king; each sends the king two files over onto an empty square and the rook onto that king move's end square, toward an unmoved rook of the king's colour reached over clear squares |
| Castling.SidesKeep | chess_engine.py:256-286 | the moves of each side end up in the result |
| Castling.CastleComplete | chess_engine.py:252-286 | a king move onto the square beside the king, with the square two files over empty and an unmoved rook of the king's colour reached over clear squares, yields a castle move toward that rook with its rook going to the king move's end |
| Castling.SideComplete | chess_engine.py:258-286 | the same for the one side x: the moves of that side contain the castle toward the reached rook |
| Castling.SidesFound | chess_engine.py:256-286 | both sides yield only castle moves toward a reached rook, with the rook going to the king move's end |
| Castling.SideFound | chess_engine.py:256-286 | one side yields only castle moves toward a reached rook on that side, with the rook going to the king move's end |
| Castling.WrapApart | chess_engine.py:257-262 | squares one to three files apart stay distinct after numpy wrap-around |
| Castling.SidesApart | chess_engine.py:257-262 | the square beside the king and the castle square are distinct |
| Castling.CastleMoveInert | chess_engine.py:252-260 | a castle move itself never leads to further castle moves |
| Removal.Filter | chess_engine.py:204-209 | the reference: keep exactly the moves passing the test |
| Removal.FirstSame | chess_engine.py:209 | list.remove finds the first move equal (same id) to the given one |
| Removal.RemoveMove | chess_engine.py:209 | list.remove of a present move drops one element and adds none |
| Removal.RemoveFailing | chess_engine.py:221-229 | the loop over reversed(moves) with moves.remove computes RevRemove |
| Removal.RemoveStep | chess_engine.py:204-209 | one removal step keeps the list equal to the filtered prefix plus the untouched suffix |
| Removal.RevRemoveIsFilter | chess_engine.py:204-209 | removing in a reversed loop filters the visited prefix when ids determine moves |
| Removal.RevRemoveKeeps | chess_engine.py:221-229 | the reversed removal equals the filter: a move remains exactly when it was present and passes the test |
| ValidMoves.PieceMovesSound | chess_engine.py:304-310 | each piece's generator keeps earlier moves and adds sound moves starting at the piece |
| ValidMoves.AllMovesOf | chess_engine.py:288-312 | get_all_moves as a recursive definition; it keeps the piece table's size |
| ValidMoves.AllMovesStep | chess_engine.py:291-310 | one more piece runs that piece's generator on the state the earlier ones left |
| ValidMoves.AllMovesErrStops | chess_engine.py:291-310 | an exception stops the loop with the state it left |
| ValidMoves.PinsOnlyKeeps | chess_engine.py:314-322 | changing only pin directions keeps the board's shape, links and occupancy |
| ValidMoves.AllMovesSound | chess_engine.py:288-312 | get_all_moves changes only pin directions of the side to move and returns sound moves, each from a piece of that side |
| ValidMoves.AllMovesLast | chess_engine.py:291-310 | that property survives one more piece of the loop |
| ValidMoves.TurnSound | chess_engine.py:295-310 | a piece of the side to move adds sound moves; others add none |
| ValidMoves.BlockSquaresOnLine | chess_engine.py:189-202 | the blocking squares lie on the check's line, on the board, and include the checking square |
| ValidMoves.ScanRest | chess_engine.py:178-216 | with at most one check the result keeps the checks and sets in_check exactly when there is one |
| ValidMoves.SoundIdsDetermine | chess_engine.py:592-603 | on boards of at most 10 x 10, sound moves with equal ids are equal |
| ValidMoves.FinishSafe | chess_engine.py:218-241 | after the final filters every king move avoids check, every move is generated or a found castle, and without castling the result is exactly the safe moves |
| ValidMoves.CastlesSound | chess_engine.py:252-286 | get_castle_moves keeps the list and appends only castle moves toward a reached rook, each with its rook going to the end of a king move of the list |
| ValidMoves.ValidTurnSound | chess_engine.py:144-245 | get_valid_moves returns [] when the king is off the board; otherwise in_check reflects the checks, king moves never end in check, and under double check only the king moves |
| ValidMoves.DoubleCheckSound | chess_engine.py:211-212 | under double check only king moves remain, none into check |
| ValidMoves.ScanRestSound | chess_engine.py:178-216 | with at most one check every king move returned avoids check |
| ValidMoves.SingleCheckSound | chess_engine.py:180-209 | under a single check every non-king move captures the checker or blocks its line |
| ValidMoves.ValidTurnNoCheck | chess_engine.py:214-231 | with no check and a moved king the valid moves are exactly the generated moves whose king moves avoid check |
| ValidMoves.ValidTurnCastles | chess_engine.py:232-241 | with no check every valid move is generated or a found castle to an empty square |
| Play.MakeOcc | chess_engine.py:61-78 | make_move's square updates keep the squares and the table size; they raise exactly for a castle tuple without the rook's square |
| Play.MarkFirst | chess_engine.py:81-82 | the moved piece's first move is recorded when it had none, and nothing else changes |
| Play.EpAfterMakeSpec | chess_engine.py:81-91 | a target is set exactly after an unmoved pawn's two-rank move, and it is that pawn's new square |
| Play.UndoBase | chess_engine.py:102-111 | undo_move's square updates before the castle step keep the squares and the table size |
| Play.UndoOcc | chess_engine.py:102-115 | undo_move's square updates raise exactly for a castle tuple without the rook's square |
| Play.Renamed | chess_engine.py:52-53 | giving a move its name changes nothing about making it |
| Play.PlainRoundTrip | chess_engine.py:57-115 | a plain move made and undone restores squares and pieces exactly |
| Play.PlainGrid | chess_engine.py:61-109 | the plain round trip restores the squares |
| Play.PlainTable | chess_engine.py:61-111 | the plain round trip restores every piece's fields |
| Play.StepMade | chess_engine.py:61-82 | after a plain or en-passant move the piece is on its end square, the captured piece off the board, and no other piece changes |
| Play.StepUndone | chess_engine.py:102-111 | undoing such a move restores every piece's fields |
| Play.EnPassantRoundTrip | chess_engine.py:62-107 | an en-passant capture made and undone restores squares and pieces exactly |
| Play.EnPassantGrid | chess_engine.py:62-107 | the en-passant round trip restores the squares |
| Play.EnPassantTable | chess_engine.py:62-111 | the en-passant round trip restores every piece's fields |
| Play.CastleRoundTrip | chess_engine.py:72-115 | a castle onto empty squares made and undone restores squares and pieces exactly |
| Play.CastleGrid | chess_engine.py:72-115 | the castle round trip restores the squares |
| Play.CastleGridBack | chess_engine.py:72-115 | the four square updates of castling and their four undos cancel |
| Play.CastleGridUndone | chess_engine.py:102-115 | undoing a castle empties the end squares and refills the start squares |
| Play.CastleGridMade | chess_engine.py:67-76 | making a castle empties the king's and rook's squares and fills their end squares |
| Play.CastleTable | chess_engine.py:72-115 | the castle round trip restores every piece's fields |
| Play.CastleTableSteps | chess_engine.py:72-115 | the same, from the make and undo halves |
| Play.CastleMade | chess_engine.py:67-82 | after a castle the king and rook stand on their end squares and no other piece changes |
| Play.CastleUndone | chess_engine.py:102-115 | undoing a castle restores king and rook and every other piece |
| Play.PromotionRoundTrip | chess_engine.py:64-117 | a promotion made and undone restores squares and pieces exactly |
| Play.PromotionGrid | chess_engine.py:64-109 | the promotion round trip restores the squares |
| Play.PromotionGridMade | chess_engine.py:67-69 | a promotion empties the start square and puts the new piece on the end square |
| Play.PromotionTable | chess_engine.py:64-111 | the promotion round trip restores every piece's fields |
| Play.PromotionMade | chess_engine.py:64-82 | after a promotion the new piece is on the end square, the pawn and any captured piece are off the board, and nothing else changes |
| Play.PromotionUndone | chess_engine.py:102-111 | undoing a promotion restores every piece's fields |
| Invariants.MadeMarked | chess_engine.py:81-82 | recording the first move changes no square, no link and no piece on the board |
| Invariants.RekeyConsistent | chess_board.py:264-300 | the index depends only on each piece's kind and colour, so a table with the same kinds and colours agrees with it alike |
| Invariants.MakeOccLifted | chess_engine.py:61-78 | make_move's square updates are its removals followed by the placements for a promotion, a plain move or a castle |
| Invariants.MadeKeys | chess_engine.py:57-95 | make_move changes no piece's kind or colour |
| Invariants.UndoOccBase | chess_engine.py:102-115 | undo_move's square updates are its first part followed by the rook's move back |
| Invariants.UndoneKeys | chess_engine.py:97-136 | undo_move changes no piece's kind or colour |
| Invariants.LiftedLinked | chess_engine.py:62-67 | the removals keep the links, take exactly the captured and the moved piece off the board, empty their squares and change no other square |
| Invariants.EndPlaced | chess_engine.py:68-78 | setting the moved or promotion piece on the free end square keeps the links and adds exactly that piece to the board |
| Invariants.MadeStepLinked | chess_engine.py:61-82 | a plain move, capture or en passant keeps the links, empties the start square, puts the moved piece on the end square and takes exactly the captured piece off the board |
| Invariants.MadePromotionLinked | chess_engine.py:61-82 | a promotion keeps the links, puts the new piece on the end square, and swaps the pawn and the captured piece for the new piece on the board |
| Invariants.ShiftLinked | chess_board.py:163-175 | moving a piece to a free square keeps the links and the pieces on the board, empties its old square and changes no other |
| Invariants.CastlePlaced | chess_engine.py:72-76 | moving the rook across and setting the king on its free end square keeps the links and puts the king back on the board |
| Invariants.MadeCastleLinked | chess_engine.py:61-82 | a castle onto free squares keeps the links and the pieces on the board, with king and rook on their end squares and their start squares empty |
| Invariants.UndoBaseLinked | chess_engine.py:102-111 | undo_move's first part keeps the links, puts the moved piece back on its start square and the captured piece back on the board, and changes no other square |
| Invariants.UndoneStepLinked | chess_engine.py:97-136 | undoing a plain move, capture or en passant keeps the links, puts the moved piece back and the captured piece back on the board |
| Invariants.UndonePromotionLinked | chess_engine.py:97-136 | undoing a promotion keeps the links and swaps the new piece for the pawn and the captured piece on the board |
| Invariants.UndoneCastleLinked | chess_engine.py:97-136 | undoing a castle keeps the links and the pieces on the board, with king and rook back on their start squares |
| Invariants.UndoBaseCastle | chess_engine.py:102-111 | undoing the king's half of a castle keeps the links, with the king back on its start and the rook still across |
| Invariants.MadeLists | chess_engine.py:61-71 | make_move hands update_pieces the promotion piece as added and the captured piece and the pawn as removed, each once |
| Invariants.MadeOnBoard | chess_engine.py:57-95 | for a move other than en passant or castling, the pieces on the board change by exactly the lists make_move hands update_pieces |
| Invariants.MadeKeepsSynced | chess_engine.py:57-95 | make_move of a plain move, capture or promotion, with its update_pieces, keeps the board and its index in agreement |
| Invariants.MadeCastleKeepsSynced | chess_engine.py:57-95 | make_move of a castle onto free squares leaves the index as it was, and it still agrees with the board |
| Invariants.UndoneKeepsSynced | chess_engine.py:97-136 | undo_move of a plain move, a capture or an en-passant capture, with its update_pieces, keeps the board and its index in agreement |
| Invariants.UndoneCastleKeepsSynced | chess_engine.py:97-136 | undo_move of a castle leaves the index as it was, and it still agrees with the board |
| Invariants.EnPassantBreaksSync | chess_engine.py:62-65 | after an en-passant capture the captured pawn is off the board but still in pieces, so board and index disagree |
| Invariants.PromotionUndoBreaksSync | chess_engine.py:116-117 | after undoing a promotion the pawn is on the board but not in pieces, so board and index disagree |
| History.UndoSteps | chess_engine.py:99-135 | undo_move's bookkeeping is its three steps in order |
| History.UndoTarget | chess_engine.py:118-127 | after an undo the target is unchanged, cleared, or the end square of the move now last |
| History.MakeThenUndo | chess_engine.py:57-136 | make then undo restores turn, move number, move log and counter, pushes the move on the undo log, clears the mate flags, and restores a target that agreed with the log |
| History.UndoThenRedo | chess_engine.py:138-142 | undo then redo restores turn, move number and undo log, and the move log when the counter still equals the logged one |
| History.MakeTracksEp | chess_engine.py:80-91 | after a move the target agrees with the last logged move |
| History.NewMoveCounter | chess_engine.py:42-50 | make_new_move resets the counter on a pawn move or capture and otherwise adds one, clears the undo log, and records an empty branch |
| History.MateFlags | chess_engine.py:554-567 | no moves in check is mate, no moves out of check is stalemate, more than 100 quiet moves is stalemate, and gameover is mate or stalemate |
| Engine.MakeSquares | chess_engine.py:61-78 | the board's squares change as MakeOcc says, and the index and kings do not |
| Engine.LiftSquares | chess_engine.py:62-67 | the captured piece and then the moved piece leave their squares |
| Engine.PlaceCastle | chess_engine.py:72-76 | the rook moves from its start square to its end square and the king to its end square |
| Engine.UndoSquares | chess_engine.py:102-115 | the board's squares change as UndoOcc says |
| Engine.UndoBaseSquares | chess_engine.py:102-111 | the squares before the castle step change as UndoBase says |
| Engine.MarkFirstMove | chess_engine.py:81-82 | the piece table changes as MarkFirst says and nothing else |
| Engine.PushMoves | chess_engine.py:337-351 | the vertical moves, as PawnPushes defines them |
| Engine.CaptureMoves | chess_engine.py:353-363 | the loop over both horizontal directions computes the diagonal captures |
| Engine.EnPassantMove | chess_engine.py:365-376 | the en-passant move, as PawnEnPassant defines it |
| Engine.WalkPath | chess_engine.py:427-445 | the loop along one direction appends exactly that ray's moves |
| Engine.WalkSquare | chess_engine.py:428-445 | one square of the loop: stop on the board's edge or a friendly piece, otherwise add the square and stop after an enemy |
| Engine.AddSquare | chess_engine.py:436-445 | adding an empty or enemy square, and stopping after the enemy |
| Engine.WalkPaths | chess_engine.py:422-445 | the loop over directions appends a move for each square of each allowed ray |
| Engine.ScanLine | chess_engine.py:462-519 | the loop along one line finds the check or pin RayScan defines |
| Engine.CheckLine | chess_engine.py:193-202 | the zip loop collects the squares from the king to the checking piece |
| Engine.CastlePathMoves | chess_engine.py:266-286 | the loop over files from 3 on computes CastlePath |
| Engine.CastlePathSquare | chess_engine.py:267-286 | one file of that loop |
| Engine.CastleSideMoves | chess_engine.py:256-286 | one horizontal side of the castle search |
| Engine.GameState.constructor | chess_engine.py:16-32 | a new game has the standard board, white to move, empty logs and no flags |
| Engine.GameState.MakeMove | chess_engine.py:57-95 | make_move: squares as MakeOcc, first move marked, move logged with the counter, target recomputed, turn flipped, move number up, pieces updated; an update that raises is a ValueError |
| Engine.GameState.FinishMake | chess_engine.py:80-95 | the steps of make_move after the squares |
| Engine.GameState.RecordMade | chess_engine.py:80-94 | make_move's bookkeeping, with the target only ever the moved pawn's square |
| Engine.GameState.UndoMove | chess_engine.py:97-136 | undo_move does nothing on an empty log; otherwise it restores the squares as UndoOcc says, rolls the bookkeeping back as AfterUndo says and updates the pieces |
| Engine.GameState.UndoLast | chess_engine.py:99-136 | the body of undo_move for a non-empty log |
| Engine.GameState.RestoreSquares | chess_engine.py:101-115 | the squares of the last logged move are restored as UndoOcc says, with the same error; the log, the index and the kings are left alone |
| Engine.GameState.FinishUndo | chess_engine.py:116-136 | the steps of undo_move after the squares |
| Engine.GameState.UpdateIndex | chess_engine.py:95 | board.update_pieces from the game, failing with ValueError exactly as the specification does |
| Engine.GameState.RecordUndone | chess_engine.py:118-135 | undo_move's bookkeeping, as AfterUndo |
| Engine.GameState.RestoreTarget | chess_engine.py:118-127 | the target is read off the move now last in the log, or kept when the log is empty |
| Engine.GameState.TurnBack | chess_engine.py:129-135 | mate flags cleared, turn flipped back, move number down, move pushed on the undo log |
| Engine.GameState.RedoMove | chess_engine.py:138-142 | redo_move does nothing on an empty undo log; otherwise it makes the last undone move again |
| Engine.GameState.RedoLast | chess_engine.py:140-142 | the body of redo_move for a non-empty undo log |
| Engine.GameState.PopUndo | chess_engine.py:141 | the last undo-log entry is popped and belongs to the board |
| Engine.GameState.Notation | chess_engine.py:52-53 | the name make_new_move gives a move is its chess notation on this board |
| Engine.GameState.MakeNewMove | chess_engine.py:34-55 | make_new_move: bookkeeping as BeforeNewMove, an unnamed move gets its notation, then the move is made; the squares, the state, the piece index after update_pieces and the error are as make_move gives them, including the AttributeError of a castle tuple without the rook's square, named or not |
| Engine.GameState.NameAndMake | chess_engine.py:52-55 | naming and making; a nameless castle without the rook's square raises AttributeError before anything moves, a named one raises it from make_move after the first squares are emptied; otherwise the squares, the state and the piece index are make_move's, failing only with a ValueError |
| Engine.GameState.NameMove | chess_engine.py:52-53 | naming changes only the name, and making the named move does what making the unnamed one does |
| Engine.GameState.RecordNewMove | chess_engine.py:42-50 | the counter and undo-log bookkeeping of make_new_move |
| Engine.GameState.Promote | chess_engine.py:538-552 | a non-pawn is a ValueError; q/k/r/b create a new piece of the pawn's colour and make it the move's promotion piece; any other choice changes nothing |
| Engine.PromotionKind | chess_engine.py:541-549 | q maps to queen, k to knight, r to rook, b to bishop, and nothing else maps |
| Engine.GameState.KingToMove | chess_engine.py:156-159 | the king of the side to move |
| Engine.GameState.GetValidMoves | chess_engine.py:144-245 | get_valid_moves returns and records what ValidTurn defines; it changes only pin fields, pins, checks and in_check |
| Engine.GameState.ScanMoves | chess_engine.py:162-245 | the part of get_valid_moves after the king is found |
| Engine.GameState.KingOnlyMoves | chess_engine.py:211-212 | the double-check branch: only the king's moves, then the final filters |
| Engine.GameState.RestMoves | chess_engine.py:178-245 | the branches with at most one check |
| Engine.GameState.SingleCheckMoves | chess_engine.py:180-209 | the single-check branch, as SingleCheck defines it |
| Engine.GameState.FinishMoves | chess_engine.py:218-241 | the final king-safety filter and castling, as Finish defines them |
| Engine.GameState.GetKingAndKnightMoves | chess_engine.py:378-408 | the loop over the piece's offsets computes KingKnightMoves |
| Engine.GameState.FindMovesOnPath | chess_engine.py:410-445 | the nested loop computes PathMoves |
| Engine.GameState.GetPawnMoves | chess_engine.py:324-376 | pushes, captures and the en-passant move in that order, as PawnMoves defines them |
| Engine.GameState.GeneratePieceMoves | chess_engine.py:304-310 | the generator chosen by the piece's kind |
| Engine.GameState.GetPinsAndChecks | chess_engine.py:447-536 | the scan of eight lines and the knight jumps computes PinsAndChecks |
| Engine.GameState.GetCastleMoves | chess_engine.py:247-286 | the loop over the generated moves computes CastleMoves |
| Engine.GameState.IsPiecePinned | chess_engine.py:314-322 | only the piece's pin direction and the pins list change, as PinUpdate says |
| Engine.GameState.LastPin | chess_engine.py:318-322 | the reversed loop finds the last pin on the square |
| Engine.GameState.AddPieceMoves | chess_engine.py:295-310 | one iteration of get_all_moves' loop, as MovesOfPiece defines it |
| Engine.GameState.FlagPin | chess_engine.py:302-303 | non-kings of the side to move get their pin flag |
| Engine.GameState.GetAllMoves | chess_engine.py:288-312 | the loop over board.pieces computes AllMovesOf |
| Engine.GameState.AllMovesTurn | chess_engine.py:291-310 | one iteration of that loop, and an exception ends it |
| Engine.GameState.FindMate | chess_engine.py:554-567 | find_mate updates the flags as AfterMate says |
| Scoring.PieceScore | chess_ai.py:7-16 | every score is at least 1 and at most 9 except the king's, which outweighs fifteen queens and eight promotion bonuses |
| Scoring.ScoreMaterial | chess_ai.py:199-210 | the loop computes the signed material sum over the pieces list |
| Scoring.ScoreBoard | chess_ai.py:169-196 | the loop computes BoardScore |
| Scoring.MaterialBySide | chess_ai.py:199-210 | scoreMaterial is white material on the board minus black material on the board |
| Scoring.BonusBySide | chess_ai.py:185-196 | the bonus sum is material plus 8 x (white pawns that can promote minus black ones) |
| Scoring.BoardScoreCases | chess_ai.py:169-196 | -9001 for white mated, 9001 for black mated, 0 for stalemate without mate, otherwise material plus the promotion bonus |
| Scoring.Swapped | chess_ai.py:206-209 | every piece with the other colour |
| Scoring.SwapNegates | chess_ai.py:206-209 | swapping every piece's colour negates scoreMaterial |
| Scoring.SumPermutation | chess_board.py:304 | the sum does not depend on the order of the pieces list |
| Scoring.OnBoardOnly | chess_ai.py:205 | the ids of the list whose pieces are on the board |
| Scoring.OffBoardCountsNothing | chess_ai.py:204-205 | pieces off the board contribute nothing to scoreMaterial |
| Scoring.SyncedMaterial | chess_ai.py:199-210 | on an indexed board scoreMaterial is the sum over every piece of the table |

## Left out

- The user interface in `chess_main.py` and `chess_menu.py` is not modelled: the pygame loop, drawing, images, the `input()` promotion menu and the animation.
- The search in `chess_ai.py` is not modelled: `getRandomMove`, `getBestMove`, `getBestMinMaxMove`, `getMinMaxMove`, the negamax variants and `MAX_DEPTH`. It relies on randomness and a shared shallow copy of the game.
- `print` output is not modelled, including the debug prints in `get_king_and_knight_moves`.
- `Piece.remove` would raise TypeError, since it passes an argument to `remove_piece`. It is not modelled as an operation.
- `FILE` and `RANK` are process globals that `Board.__init__` overwrites. Each board carries its own label table instead.
- Getters that only return a field are modelled by reading that field, with no members of their own: `get_size`, `get_pieces`, `get_file`, `get_rank`, `get_color`, `get_name`, `get_symbol`, `get_square`, `get_pin_direction`, `get_directions`, `get_promotion_rank`.
- `get_fullname`, `get_square_name`, `get_square_color` and `Square.selected` are display helpers and are not modelled.
- `Piece.__eq__` and `Square.__eq__`/`__hash__` are identity by construction. Pieces are compared by `PieceId`, squares by coordinate on their board's grid.
- `Piece.set_square` has the same effect as `Square.set_piece` and is the same `PlaceAt`.
- The first-move mark is the moved piece's `MoveId`. In the program it is the `Move` object, compared through its id tuple.
- `get_castle_moves` iterates over `moves` while appending to it. The model iterates over the moves present when the loop starts; a castle move cannot produce further castle moves (`Castling.CastleMoveInert`).
- Several lemmas assume at most 10 files and 10 ranks so that the move id identifies a move: `ValidMoves.SoundIdsDetermine`, `FinishSafe` and those built on them. `GameState` always uses the 8 x 8 standard board.
- Engine.GameState.Notation: its last clause assumes the kind's list is tracked. Under `GameState.Valid` it always is.
- Engine.GameState.RedoMove: says nothing about the state when making the move again raises AttributeError, which needs a castle tuple without the rook's square.
- Engine.GameState.RedoLast: the same gap as RedoMove.
- Pieces.Lower: lowers only the ASCII capitals A to Z. Python's str.lower also lowers other Unicode capitals, which cannot change whether the colour starts with w or b.
- Moves.SquareName: states only the first character and the minimum length; the full name is the file label followed by the rank label.
- Occupancy.PlaceAt: states only that the squares and the table size are kept. The link properties are in PlaceAtLinked and PlaceOnOccupiedBreaksLink.
- ValidMoves.AllMovesOf: its own contract states only that the table size is kept. Its meaning is proved in AllMovesSound, AllMovesStep and AllMovesErrStops.
- Play.UndoBase: its own contract states only that the squares and the table size are kept. Its meaning is proved in the round-trip lemmas.
- Engine.GameState.Promote: `promote` sets `promotion_piece` on the Move object it is given, which may be the same object held in `valid_moves`. The model returns an updated copy of the move and leaves `validMoves` as it was, so this aliasing is not captured. No other operation of the model depends on it.
