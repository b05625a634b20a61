/** The static evaluation of chess_ai.py: PIECE_SCORE, CHECKMATE, STALEMATE,
    scoreMaterial and scoreBoard. Both scores walk the board's pieces list and
    add a signed value per piece on the board, positive for white. */
module Scoring {
  import opened Wrappers
  import opened Pieces
  import opened Lists
  import opened Occupancy
  import opened BoardIndex
  import opened ChessBoard
  import opened History
  import opened Engine

  /** PIECE_SCORE. A king outweighs the most the other fifteen pieces of a
      side can score: fifteen queens, eight of them with the promotion bonus. */
  function PieceScore(k: Kind): (r: nat)
    ensures r >= 1
    ensures k != King ==> r <= 9
    ensures k == King ==> r > 15 * 9 + 8 * 8
  {
    match k
    case King => 9000
    case Queen => 9
    case Rook => 5
    case Bishop => 3
    case Knight => 3
    case Pawn => 1
  }

  /** CHECKMATE scores one more than a king; STALEMATE scores nothing. */
  const CHECKMATE: int := PieceScore(King) + 1
  const STALEMATE: int := 0

  /** A piece on the board counts its score for white and against black; a
      piece off the board counts nothing. */
  function Worth(pc: PieceRec): int {
    if !IsOnBoard(pc) then 0
    else if pc.color == White then PieceScore(pc.kind)
    else -(PieceScore(pc.kind) as int)
  }

  /** A pawn on the board one step from promotion is worth 8 more to its side. */
  predicate Promotable(pc: PieceRec) {
    IsOnBoard(pc) && pc.kind == Pawn && CanPromote(pc)
  }

  /** What scoreBoard adds for a piece: its worth and the promotion bonus. */
  function WorthWithBonus(pc: PieceRec): int {
    Worth(pc) + (if !Promotable(pc) then 0 else if pc.color == White then 8 else -8)
  }

  /** The sum of f over the pieces ps of table t, in list order. */
  function Sum(t: seq<PieceRec>, ps: seq<PieceId>, f: PieceRec -> int): int
    requires IdsIn(ps, t)
  {
    if ps == [] then 0
    else Sum(t, ps[..|ps| - 1], f) + f(t[ps[|ps| - 1]])
  }

  /** scoreMaterial's result on the pieces list ps. */
  function Material(t: seq<PieceRec>, ps: seq<PieceId>): int
    requires IdsIn(ps, t)
  {
    Sum(t, ps, Worth)
  }

  /** scoreBoard's result: a mate scores CHECKMATE against the side to move,
      a stalemate scores STALEMATE, any other position its material with the
      promotion bonuses. */
  function BoardScore(g: Game, t: seq<PieceRec>, ps: seq<PieceId>): int
    requires IdsIn(ps, t)
  {
    if g.checkmate then (if g.whiteToMove then -CHECKMATE else CHECKMATE)
    else if g.stalemate then STALEMATE
    else Sum(t, ps, WorthWithBonus)
  }

  // ---- The two loops ----

  /** scoreMaterial(board). */
  method ScoreMaterial(b: Board) returns (score: int)
    requires b.Valid()
    ensures score == Material(b.table, b.pieces)
  {
    var ps := b.pieces;
    score := 0;
    for i := 0 to |ps|
      invariant score == Material(b.table, ps[..i])
    {
      assert ps[..i + 1][..i] == ps[..i];
      var piece := b.table[ps[i]];
      if IsOnBoard(piece) {
        if piece.color == White {
          score := score + PieceScore(piece.kind);
        } else {
          score := score - PieceScore(piece.kind);
        }
      }
    }
    assert ps[..|ps|] == ps;
  }

  /** scoreBoard(gs). */
  method ScoreBoard(gs: GameState) returns (score: int)
    requires gs.Valid()
    ensures score == BoardScore(gs.State(), gs.board.table, gs.board.pieces)
  {
    if gs.checkmate {
      if gs.whiteToMove {
        return -CHECKMATE;
      } else {
        return CHECKMATE;
      }
    } else if gs.stalemate {
      return STALEMATE;
    }
    var b := gs.board;
    var ps := b.pieces;
    score := 0;
    for i := 0 to |ps|
      invariant score == Sum(b.table, ps[..i], WorthWithBonus)
    {
      assert ps[..i + 1][..i] == ps[..i];
      var piece := b.table[ps[i]];
      if IsOnBoard(piece) {
        if piece.color == White {
          score := score + PieceScore(piece.kind);
          if piece.kind == Pawn && CanPromote(piece) {
            score := score + 8;
          }
        } else {
          score := score - PieceScore(piece.kind);
          if piece.kind == Pawn && CanPromote(piece) {
            score := score - 8;
          }
        }
      }
    }
    assert ps[..|ps|] == ps;
  }

  // ---- What the scores mean ----

  /** The total PIECE_SCORE of the pieces of colour c on the board. */
  function SideMaterial(t: seq<PieceRec>, ps: seq<PieceId>, c: Color): nat
    requires IdsIn(ps, t)
  {
    if ps == [] then 0
    else
      var pc := t[ps[|ps| - 1]];
      SideMaterial(t, ps[..|ps| - 1], c) + (if IsOnBoard(pc) && pc.color == c then PieceScore(pc.kind) else 0)
  }

  /** The number of pawns of colour c on the board that can promote. */
  function PromotableCount(t: seq<PieceRec>, ps: seq<PieceId>, c: Color): nat
    requires IdsIn(ps, t)
  {
    if ps == [] then 0
    else
      var pc := t[ps[|ps| - 1]];
      PromotableCount(t, ps[..|ps| - 1], c) + (if Promotable(pc) && pc.color == c then 1 else 0)
  }

  /** scoreMaterial is white's material on the board minus black's. */
  lemma {:induction false} MaterialBySide(t: seq<PieceRec>, ps: seq<PieceId>)
    requires IdsIn(ps, t)
    ensures Material(t, ps) == SideMaterial(t, ps, White) - SideMaterial(t, ps, Black)
  {
    if ps != [] {
      MaterialBySide(t, ps[..|ps| - 1]);
    }
  }

  /** Away from mate and stalemate, scoreBoard is scoreMaterial plus 8 for
      each white pawn that can promote and minus 8 for each such black pawn. */
  lemma {:induction false} BonusBySide(t: seq<PieceRec>, ps: seq<PieceId>)
    requires IdsIn(ps, t)
    ensures Sum(t, ps, WorthWithBonus) ==
      Material(t, ps) + 8 * (PromotableCount(t, ps, White) - PromotableCount(t, ps, Black))
  {
    if ps != [] {
      BonusBySide(t, ps[..|ps| - 1]);
    }
  }

  /** The three outcomes of scoreBoard: a mate decides first, by the side to
      move; then a stalemate; then the material with the promotion bonuses. */
  lemma BoardScoreCases(g: Game, t: seq<PieceRec>, ps: seq<PieceId>)
    requires IdsIn(ps, t)
    ensures g.checkmate && g.whiteToMove ==> BoardScore(g, t, ps) == -9001
    ensures g.checkmate && !g.whiteToMove ==> BoardScore(g, t, ps) == 9001
    ensures !g.checkmate && g.stalemate ==> BoardScore(g, t, ps) == 0
    ensures !g.checkmate && !g.stalemate ==>
      BoardScore(g, t, ps) ==
        SideMaterial(t, ps, White) - SideMaterial(t, ps, Black) +
        8 * (PromotableCount(t, ps, White) - PromotableCount(t, ps, Black))
  {
    MaterialBySide(t, ps);
    BonusBySide(t, ps);
  }

  /** Every piece with its colour swapped. */
  function Swapped(t: seq<PieceRec>): (u: seq<PieceRec>)
    ensures |u| == |t|
    ensures forall q :: 0 <= q < |t| ==> u[q] == t[q].(color := Opponent(t[q].color))
  {
    seq(|t|, q requires 0 <= q < |t| => t[q].(color := Opponent(t[q].color)))
  }

  /** Swapping the colour of every piece negates scoreMaterial. */
  lemma {:induction false} SwapNegates(t: seq<PieceRec>, ps: seq<PieceId>)
    requires IdsIn(ps, t)
    ensures IdsIn(ps, Swapped(t)) && Material(Swapped(t), ps) == -Material(t, ps)
  {
    if ps != [] {
      SwapNegates(t, ps[..|ps| - 1]);
    }
  }

  // ---- The order of the pieces list does not matter ----

  lemma {:induction false} SumAppend(t: seq<PieceRec>, a: seq<PieceId>, b: seq<PieceId>, f: PieceRec -> int)
    requires IdsIn(a, t) && IdsIn(b, t)
    ensures IdsIn(a + b, t) && Sum(t, a + b, f) == Sum(t, a, f) + Sum(t, b, f)
    decreases |b|
  {
    if b == [] {
      assert a + b == a;
    } else {
      var b0 := b[..|b| - 1];
      assert (a + b)[..|a + b| - 1] == a + b0;
      SumAppend(t, a, b0, f);
    }
  }

  /** Taking the k-th entry out of b takes it out of the multiset too. */
  lemma RemoveAtMultiset(b: seq<PieceId>, k: nat)
    requires k < |b|
    ensures multiset(b[..k] + b[k + 1..]) == multiset(b) - multiset{b[k]}
  {
    assert b == b[..k] + [b[k]] + b[k + 1..];
  }

  /** ... and its value out of the sum. */
  lemma SumRemoveAt(t: seq<PieceRec>, b: seq<PieceId>, k: nat, f: PieceRec -> int)
    requires IdsIn(b, t) && k < |b|
    ensures IdsIn(b[..k] + b[k + 1..], t)
    ensures Sum(t, b, f) == Sum(t, b[..k] + b[k + 1..], f) + f(t[b[k]])
  {
    var x := b[k];
    SumAppend(t, b[..k], [x] + b[k + 1..], f);
    SumAppend(t, [x], b[k + 1..], f);
    SumAppend(t, b[..k], b[k + 1..], f);
    assert [x][..0] == [];
    assert [x] + b[k + 1..] == b[k..];
    assert b[..k] + b[k..] == b;
  }

  /** The sum depends on the pieces listed and how often, not on their order. */
  lemma {:induction false} SumPermutation(t: seq<PieceRec>, a: seq<PieceId>, b: seq<PieceId>, f: PieceRec -> int)
    requires IdsIn(a, t) && IdsIn(b, t) && multiset(a) == multiset(b)
    ensures Sum(t, a, f) == Sum(t, b, f)
    decreases |a|
  {
    if a != [] {
      var x: PieceId := a[|a| - 1];
      var a0: seq<PieceId> := a[..|a| - 1];
      RemoveAtMultiset(a, |a| - 1);
      assert a[..|a| - 1] + a[|a|..] == a0;
      assert x in multiset(b);
      var k :| 0 <= k < |b| && b[k] == x;
      RemoveAtMultiset(b, k);
      SumPermutation(t, a0, b[..k] + b[k + 1..], f);
      SumRemoveAt(t, b, k, f);
    }
  }

  /** In a list without repeats an element occurs once or not at all. */
  lemma {:induction false} NoDupCount(s: seq<PieceId>, x: PieceId)
    requires NoDup(s)
    ensures multiset(s)[x] == if x in s then 1 else 0
  {
    if s != [] {
      var s0 := s[..|s| - 1];
      assert s == s0 + [s[|s| - 1]];
      NoDupCount(s0, x);
    }
  }

  /** The ids of ps whose pieces are on the board. */
  function OnBoardOnly(t: seq<PieceRec>, ps: seq<PieceId>): (r: seq<PieceId>)
    requires IdsIn(ps, t)
    ensures IdsIn(r, t)
    ensures forall q :: q in r <==> q in ps && IsOnBoard(t[q])
  {
    if ps == [] then []
    else
      var last := ps[|ps| - 1];
      OnBoardOnly(t, ps[..|ps| - 1]) + (if IsOnBoard(t[last]) then [last] else [])
  }

  /** Dropping the pieces off the board changes no score. */
  lemma {:induction false} OffBoardCountsNothing(t: seq<PieceRec>, ps: seq<PieceId>)
    requires IdsIn(ps, t)
    ensures Material(t, OnBoardOnly(t, ps)) == Material(t, ps)
  {
    if ps != [] {
      var ps0 := ps[..|ps| - 1];
      var last := ps[|ps| - 1];
      OffBoardCountsNothing(t, ps0);
      if IsOnBoard(t[last]) {
        SumAppend(t, OnBoardOnly(t, ps0), [last], Worth);
        assert [last][..0] == [];
        assert OnBoardOnly(t, ps) == OnBoardOnly(t, ps0) + [last];
        assert Sum(t, ps, Worth) == Sum(t, ps0, Worth) + Worth(t[last]);
      } else {
        assert OnBoardOnly(t, ps) == OnBoardOnly(t, ps0);
        assert Sum(t, ps, Worth) == Sum(t, ps0, Worth);
      }
    }
  }

  /** ... and keeps a list without repeats without repeats. */
  lemma {:induction false} OnBoardOnlyNoDup(t: seq<PieceRec>, ps: seq<PieceId>)
    requires IdsIn(ps, t) && NoDup(ps)
    ensures NoDup(OnBoardOnly(t, ps))
  {
    if ps != [] {
      var ps0 := ps[..|ps| - 1];
      var last := ps[|ps| - 1];
      assert NoDup(ps0);
      OnBoardOnlyNoDup(t, ps0);
      assert last !in ps0;
    }
  }

  /** On a board whose pieces list holds each piece on the board once and
      nothing else, scoreMaterial is the sum over the whole piece table:
      neither the order of the list nor the pieces taken off matter. */
  lemma SyncedMaterial(ix: Index, p: Position)
    requires Synced(ix, p)
    ensures IdsIn(ix.pieces, p.table)
    ensures Material(p.table, ix.pieces) == Material(p.table, Iota(|p.table|))
  {
    var t := p.table;
    var ps: seq<PieceId> := ix.pieces;
    assert IdsIn(ps, t) by {
      forall i | 0 <= i < |ps| ensures ps[i] < |t| {
        assert ps[i] in Elems(ps);
        assert ps[i] in OnBoard(p);
      }
    }
    var all: seq<PieceId> := Iota(|t|);
    var on: seq<PieceId> := OnBoardOnly(t, all);
    OffBoardCountsNothing(t, all);
    OnBoardOnlyNoDup(t, all);
    forall x: int ensures multiset(on)[x] == multiset(ps)[x] {
      if x >= 0 {
        NoDupCount(on, x);
        NoDupCount(ps, x);
        if x < |t| {
          assert all[x] == x;
        }
        assert x in on <==> x in OnBoard(p);
      }
    }
    assert multiset(on) == multiset(ps);
    SumPermutation(t, ps, on, Worth);
  }
}
