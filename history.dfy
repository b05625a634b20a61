/** The bookkeeping of GameState in chess_engine.py apart from the board: the
    move and undo logs, the turn, the move number, the en-passant target, the
    stalemate counter and the end-of-game flags, as they change when a move is
    made, undone, redone or made anew, and when find_mate judges the position. */
module History {
  import opened Wrappers
  import opened Pieces
  import opened Moves
  import opened Checks
  import opened Play

  /** An entry of move_log or undo_log: the move and the stalemate counter at
      the time it was made. */
  datatype Logged = Logged(move: Move, counter: int)

  /** The attributes of a GameState other than its board. */
  datatype Game = Game(
    whiteToMove: bool,
    moveLog: seq<Logged>,
    undoLog: seq<Logged>,
    moveBranches: seq<seq<Logged>>,
    moveNumber: int,
    pins: seq<Pin>,
    checks: seq<Pin>,
    inCheck: bool,
    gameover: bool,
    checkmate: bool,
    stalemate: bool,
    stalemateCounter: int,
    enpassant: Option<Coord>,
    validMoves: seq<Move>)

  /** GameState.__init__: white to move, empty logs, no target, no flags. */
  const INITIAL: Game := Game(true, [], [], [], 0, [], [], false, false, false, false, 0, None, [])

  /** Every logged move names a piece of the table. */
  predicate LogFits(t: seq<PieceRec>, log: seq<Logged>) {
    forall i :: 0 <= i < |log| ==> log[i].move.pieceMoved < |t|
  }

  function Last(log: seq<Logged>): Logged
    requires log != []
  {
    log[|log| - 1]
  }

  function Front(log: seq<Logged>): seq<Logged>
    requires log != []
  {
    log[..|log| - 1]
  }

  /** A pawn move across two ranks. */
  predicate DoubleStep(t: seq<PieceRec>, m: Move)
    requires m.pieceMoved < |t|
  {
    t[m.pieceMoved].kind == Pawn && Abs(m.end.1 - m.start.1) == 2
  }

  /** The en-passant target undo_move reads off the move now last in the
      log: the end square of a pawn's two-rank move, otherwise none. */
  function EpOfLogged(t: seq<PieceRec>, l: Logged): Option<Coord>
    requires l.move.pieceMoved < |t|
  {
    if DoubleStep(t, l.move) then Some(l.move.end) else None
  }

  /** make_move's bookkeeping, where pc is the moved piece once the squares
      are updated and before its first move is recorded: the move is logged
      with the current stalemate counter, the target is recomputed, the turn
      passes and the move number grows. */
  function AfterMake(g: Game, pc: PieceRec, m: Move): Game {
    g.(moveLog := g.moveLog + [Logged(m, g.stalemateCounter)],
       enpassant := EpAfterMake(pc, m, g.enpassant),
       whiteToMove := !g.whiteToMove,
       moveNumber := g.moveNumber + 1)
  }

  /** undo_move's bookkeeping when the log is not empty: the last entry
      moves to the undo log, the target is read off the entry now last (and
      left as it is when none is left), the mate flags are cleared, the turn
      passes back and the move number drops. The logged stalemate counter is
      not restored. */
  function AfterUndo(g: Game, t: seq<PieceRec>): Game
    requires g.moveLog != [] && LogFits(t, g.moveLog)
  {
    var rest := Front(g.moveLog);
    g.(moveLog := rest,
       enpassant := if rest == [] then g.enpassant else EpOfLogged(t, Last(rest)),
       checkmate := false,
       stalemate := false,
       whiteToMove := !g.whiteToMove,
       moveNumber := g.moveNumber - 1,
       undoLog := g.undoLog + [Last(g.moveLog)])
  }

  /** undo_move's bookkeeping as its three steps: the log loses its last
      entry, the target is read off the entry now last, then the flags,
      turn, move number and undo log are rolled back. */
  lemma UndoSteps(g: Game, t: seq<PieceRec>)
    requires g.moveLog != [] && LogFits(t, g.moveLog)
    ensures var g1 := g.(moveLog := Front(g.moveLog));
      var g2 := g1.(enpassant := if g1.moveLog == [] then g1.enpassant else EpOfLogged(t, Last(g1.moveLog)));
      AfterUndo(g, t) == g2.(checkmate := false, stalemate := false, whiteToMove := !g2.whiteToMove,
                             moveNumber := g2.moveNumber - 1, undoLog := g2.undoLog + [Last(g.moveLog)])
  {
  }

  /** After undo_move the target is the one before, none, or the end
      square of the move now last in the log. */
  lemma UndoTarget(g: Game, t: seq<PieceRec>)
    requires g.moveLog != [] && LogFits(t, g.moveLog)
    ensures var ep := AfterUndo(g, t).enpassant;
      ep == g.enpassant || ep.None? ||
      (|g.moveLog| >= 2 && ep == Some(g.moveLog[|g.moveLog| - 2].move.end))
  {
    var rest := Front(g.moveLog);
    if rest != [] {
      assert Last(rest) == g.moveLog[|g.moveLog| - 2];
    }
  }

  /** redo_move's bookkeeping: the last undone move is taken off the undo
      log and made again. */
  function AfterRedo(g: Game, pc: PieceRec): Game
    requires g.undoLog != []
  {
    AfterMake(g.(undoLog := Front(g.undoLog)), pc, Last(g.undoLog).move)
  }

  /** make_new_move's bookkeeping before the move is made, where pc is the
      piece to move. A non-empty undo log is appended to move_branches and
      then cleared in place; as both name the same list, the branch recorded
      is empty. The stalemate counter restarts on a pawn move or a capture. */
  function BeforeNewMove(g: Game, pc: PieceRec, m: Move): Game {
    var g1 := if g.undoLog != [] then g.(moveBranches := g.moveBranches + [[]], undoLog := []) else g;
    g1.(stalemateCounter := if pc.kind == Pawn || m.pieceCaptured.Some? then 0 else g1.stalemateCounter + 1)
  }

  /** find_mate: with no valid moves the side in check is mated and a side
      not in check is stalemated; with moves, more than 100 moves without a
      pawn move or capture is a stalemate. Flags already set stay set. */
  function AfterMate(g: Game, hasMoves: bool): Game {
    var g1 :=
      if !hasMoves then
        if g.inCheck then g.(checkmate := true) else g.(stalemate := true)
      else if g.stalemateCounter > 100 then g.(stalemate := true)
      else g;
    g1.(gameover := g1.checkmate || g1.stalemate)
  }

  // ---- What the bookkeeping satisfies ----

  /** The en-passant target agrees with the last logged move. */
  predicate EpTracks(g: Game, t: seq<PieceRec>)
    requires LogFits(t, g.moveLog)
  {
    g.moveLog != [] ==> g.enpassant == EpOfLogged(t, Last(g.moveLog))
  }

  /** A move made and then undone leaves the turn, the move number, the
      move log and the stalemate counter as they were and puts the move,
      with the counter it was made with, on the undo log. The target comes
      back when it agreed with the log before; after undoing the first move
      it keeps the value the move gave it. */
  lemma MakeThenUndo(g: Game, pc: PieceRec, m: Move, t: seq<PieceRec>)
    requires LogFits(t, g.moveLog) && m.pieceMoved < |t|
    ensures var h := AfterUndo(AfterMake(g, pc, m), t);
      h.whiteToMove == g.whiteToMove && h.moveNumber == g.moveNumber &&
      h.moveLog == g.moveLog && h.stalemateCounter == g.stalemateCounter &&
      h.undoLog == g.undoLog + [Logged(m, g.stalemateCounter)] &&
      !h.checkmate && !h.stalemate &&
      (EpTracks(g, t) && g.moveLog != [] ==> h.enpassant == g.enpassant) &&
      (g.moveLog == [] ==> h.enpassant == EpAfterMake(pc, m, g.enpassant))
  {
    var g1 := AfterMake(g, pc, m);
    assert LogFits(t, g1.moveLog);
    assert Front(g1.moveLog) == g.moveLog;
    assert Last(g1.moveLog) == Logged(m, g.stalemateCounter);
  }

  /** A move undone and then redone leaves the turn, the move number and
      the undo log as they were, and the move log too when the stalemate
      counter still has the value the move was logged with. */
  lemma UndoThenRedo(g: Game, t: seq<PieceRec>, pc: PieceRec)
    requires g.moveLog != [] && LogFits(t, g.moveLog)
    ensures var h := AfterRedo(AfterUndo(g, t), pc);
      h.whiteToMove == g.whiteToMove && h.moveNumber == g.moveNumber && h.undoLog == g.undoLog &&
      (g.stalemateCounter == Last(g.moveLog).counter ==> h.moveLog == g.moveLog)
  {
    var u := AfterUndo(g, t);
    assert Last(u.undoLog) == Last(g.moveLog);
    assert Front(u.undoLog) == g.undoLog;
    if g.stalemateCounter == Last(g.moveLog).counter {
      assert Front(g.moveLog) + [Last(g.moveLog)] == g.moveLog;
    }
  }

  /** The move make_move logs determines the target as undo_move reads it
      back, unless a pawn that has moved already, or one that leaves the
      board by promotion, crosses two ranks: an unmoved pawn's two-rank step
      gives its new square, anything else gives no target. */
  lemma MakeTracksEp(g: Game, pc: PieceRec, m: Move, t: seq<PieceRec>)
    requires LogFits(t, g.moveLog) && m.pieceMoved < |t| && t[m.pieceMoved].kind == pc.kind
    requires DoubleStep(t, m) ==> !HasMoved(pc) && pc.square == Some(m.end)
    ensures LogFits(t, AfterMake(g, pc, m).moveLog)
    ensures EpTracks(AfterMake(g, pc, m), t)
  {
    var h := AfterMake(g, pc, m);
    assert Last(h.moveLog) == Logged(m, g.stalemateCounter);
  }

  /** The counter after make_new_move: zero after a pawn move or a capture,
      otherwise one more than before; the undo log is empty and a non-empty
      one leaves one (empty) branch behind. */
  lemma NewMoveCounter(g: Game, pc: PieceRec, m: Move)
    ensures var h := BeforeNewMove(g, pc, m);
      (pc.kind == Pawn || m.pieceCaptured.Some? ==> h.stalemateCounter == 0) &&
      (pc.kind != Pawn && m.pieceCaptured.None? ==> h.stalemateCounter == g.stalemateCounter + 1) &&
      h.undoLog == [] &&
      |h.moveBranches| == |g.moveBranches| + (if g.undoLog == [] then 0 else 1) &&
      h.moveBranches[..|g.moveBranches|] == g.moveBranches &&
      (forall i :: |g.moveBranches| <= i < |h.moveBranches| ==> h.moveBranches[i] == []) &&
      h.moveLog == g.moveLog && h.whiteToMove == g.whiteToMove && h.moveNumber == g.moveNumber
  {
  }

  /** After find_mate the game is over exactly when one of the flags is set;
      a side without moves is mated when in check and stalemated otherwise,
      and a game with moves is only newly drawn past 100 counted moves. */
  lemma MateFlags(g: Game, hasMoves: bool)
    ensures var h := AfterMate(g, hasMoves);
      (h.gameover <==> h.checkmate || h.stalemate) &&
      (!hasMoves ==> (g.inCheck ==> h.checkmate) && (!g.inCheck ==> h.stalemate)) &&
      (hasMoves ==> h.checkmate == g.checkmate && (h.stalemate <==> g.stalemate || g.stalemateCounter > 100)) &&
      (!g.checkmate && !g.stalemate ==> !(h.checkmate && h.stalemate))
  {
  }
}
