/** Pin and check detection of chess_engine.py (get_pins_and_checks) and the
    pin flag it leads to (is_piece_pinned), as functions of the position. */
module Checks {
  import opened Wrappers
  import opened Pieces
  import opened Lists
  import opened Occupancy
  import opened Movegen

  /** An entry of the pins or checks list: a square and the direction from
      the king toward it. */
  type Pin = (Coord, Direction)

  datatype Found = Found(pins: seq<Pin>, checks: seq<Pin>)

  /** What the walk along one direction reports. */
  datatype Hit = NoHit | CheckHit(check: Pin) | PinHit(pin: Pin)

  /** The eight directions scanned outward from the king, in scan order. */
  const KING_SCAN: seq<Direction> := HORIZONTAL + VERTICAL + DIAGONAL

  /** An enemy piece k steps away from the king in direction d gives check
      along that line: a king one step away, a pawn one step away on a
      diagonal it captures along, or any other piece whose directions hold d. */
  predicate Attacks(kind: Kind, color: Color, d: Direction, k: int) {
    (kind == King && k == 1) ||
    (kind == Pawn && k == 1 &&
      ((color == Black && d in [(1, -1), (-1, -1)]) || (color == White && d in [(1, 1), (-1, 1)]))) ||
    (kind != King && kind != Pawn && d in Directions(kind, color))
  }

  /** Steps are taken while both the file and the rank range allow: 1 to
      min(files, ranks) - 1. */
  function ScanLimit(p: Position): nat {
    if p.files <= p.ranks then p.files else p.ranks
  }

  /** Between steps i and k every square exists and is empty or holds the
      king itself. */
  ghost predicate LineOpen(p: Position, king: PieceId, kc: Coord, d: Direction, i: int, k: int) {
    forall j :: i <= j < k ==>
      InBounds(p.files, p.ranks, Step(kc, d, j)) &&
      (!HasPiece(p, Step(kc, d, j)) || Occupant(p, Step(kc, d, j)) == Some(king))
  }

  /** An enemy attacker stands k steps from kc along d, with the squares
      after step j up to it open. */
  ghost predicate AttackLine(p: Position, king: PieceId, color: Color, kc: Coord, d: Direction,
                             j: int, k: int, limit: int) {
    j < k < limit && LineOpen(p, king, kc, d, j + 1, k) &&
    InBounds(p.files, p.ranks, Step(kc, d, k)) && HasEnemyPiece(p, Step(kc, d, k), color) &&
    Attacks(PieceAt(p, Step(kc, d, k)).value.kind, PieceAt(p, Step(kc, d, k)).value.color, d, k)
  }

  /** A friendly piece other than the king is the first piece k steps from kc
      along d, and behind it an enemy attacker stands on the same line with
      only open squares between them. */
  ghost predicate PinLine(p: Position, king: PieceId, color: Color, kc: Coord, d: Direction,
                          k: int, limit: int) {
    1 <= k < limit && LineOpen(p, king, kc, d, 1, k) &&
    InBounds(p.files, p.ranks, Step(kc, d, k)) && HasFriendlyPiece(p, Step(kc, d, k), color) &&
    Occupant(p, Step(kc, d, k)) != Some(king) &&
    exists k' :: AttackLine(p, king, color, kc, d, k, k', limit)
  }

  /** The inner loop of get_pins_and_checks for direction d from step i:
      `possible` is the friendly piece met so far. The king's own square is
      walked over; a second friendly piece, an enemy that does not attack
      along the line, or the edge of the board end the walk with nothing. */
  function RayScan(p: Position, king: PieceId, color: Color, kc: Coord, d: Direction,
                   i: nat, limit: nat, possible: Option<Pin>): Hit
    decreases limit - i
  {
    if i >= limit then NoHit
    else
      var c := Step(kc, d, i);
      if !InBounds(p.files, p.ranks, c) then NoHit
      else if HasFriendlyPiece(p, c, color) then
        if Occupant(p, c) == Some(king) then RayScan(p, king, color, kc, d, i + 1, limit, possible)
        else if possible.None? then RayScan(p, king, color, kc, d, i + 1, limit, Some((c, d)))
        else NoHit
      else if HasEnemyPiece(p, c, color) then
        var e := PieceAt(p, c).value;
        if Attacks(e.kind, e.color, d, i) then
          if possible.None? then CheckHit((c, d)) else PinHit(possible.value)
        else NoHit
      else RayScan(p, king, color, kc, d, i + 1, limit, possible)
  }

  /** The outer loop over the scan directions, in order. */
  function ScanAll(p: Position, king: PieceId, color: Color, kc: Coord, dirs: seq<Direction>): Found {
    if dirs == [] then Found([], [])
    else
      var f := ScanAll(p, king, color, kc, dirs[..|dirs| - 1]);
      match RayScan(p, king, color, kc, dirs[|dirs| - 1], 1, ScanLimit(p), None)
      case NoHit => f
      case CheckHit(c) => f.(checks := f.checks + [c])
      case PinHit(c) => f.(pins := f.pins + [c])
  }

  /** The knight checks: an enemy knight a knight's jump from the king. */
  function KnightChecks(p: Position, color: Color, kc: Coord, ds: seq<Direction>): seq<Pin> {
    if ds == [] then []
    else
      var d := ds[|ds| - 1];
      var c := Step(kc, d, 1);
      KnightChecks(p, color, kc, ds[..|ds| - 1]) +
        (if InBounds(p.files, p.ranks, c) && HasEnemyPiece(p, c, color) && PieceAt(p, c).value.kind == Knight
         then [(c, d)] else [])
  }

  /** get_pins_and_checks for the king `king` standing (or imagined) on kc. */
  function PinsAndChecks(p: Position, king: PieceId, kc: Coord): Found
    requires king < |p.table|
  {
    var color := p.table[king].color;
    var f := ScanAll(p, king, color, kc, KING_SCAN);
    f.(checks := f.checks + KnightChecks(p, color, kc, KNIGHT))
  }

  /** An open line reaches one step further over an empty square or the
      king's own. */
  lemma LineOpenStep(p: Position, king: PieceId, kc: Coord, d: Direction, a: int, i: int)
    requires LineOpen(p, king, kc, d, a, i) && InBounds(p.files, p.ranks, Step(kc, d, i))
    requires !HasPiece(p, Step(kc, d, i)) || Occupant(p, Step(kc, d, i)) == Some(king)
    ensures LineOpen(p, king, kc, d, a, i + 1)
  {
  }

  /** A check found on a line is an enemy attacker with an open line in front
      of it; a pin found on a line is the first piece on it, friendly and not
      the king, with an enemy attacker behind it. `k0` is the step of the
      friendly piece met so far. */
  lemma {:induction false} RayScanSound(p: Position, king: PieceId, color: Color, kc: Coord, d: Direction,
                                        i: nat, limit: nat, possible: Option<Pin>, k0: nat)
    requires 1 <= i
    requires possible.None? ==> LineOpen(p, king, kc, d, 1, i)
    requires possible.Some? ==>
      1 <= k0 < i && possible.value == (Step(kc, d, k0), d) &&
      InBounds(p.files, p.ranks, Step(kc, d, k0)) && HasFriendlyPiece(p, Step(kc, d, k0), color) &&
      Occupant(p, Step(kc, d, k0)) != Some(king) &&
      LineOpen(p, king, kc, d, 1, k0) && LineOpen(p, king, kc, d, k0 + 1, i)
    ensures var h := RayScan(p, king, color, kc, d, i, limit, possible);
      (h.CheckHit? ==>
         h.check.1 == d && exists k :: h.check.0 == Step(kc, d, k) && AttackLine(p, king, color, kc, d, 0, k, limit)) &&
      (h.PinHit? ==>
         h.pin.1 == d && exists k :: h.pin.0 == Step(kc, d, k) && PinLine(p, king, color, kc, d, k, limit))
    decreases limit - i
  {
    if i < limit {
      var c := Step(kc, d, i);
      if InBounds(p.files, p.ranks, c) {
        if HasFriendlyPiece(p, c, color) {
          if Occupant(p, c) == Some(king) {
            LineOpenStep(p, king, kc, d, if possible.None? then 1 else k0 + 1, i);
            RayScanSound(p, king, color, kc, d, i + 1, limit, possible, k0);
          } else if possible.None? {
            RayScanSound(p, king, color, kc, d, i + 1, limit, Some((c, d)), i);
          }
        } else if HasEnemyPiece(p, c, color) {
          var e := PieceAt(p, c).value;
          if Attacks(e.kind, e.color, d, i) {
            if possible.None? {
              assert AttackLine(p, king, color, kc, d, 0, i, limit);
            } else {
              assert AttackLine(p, king, color, kc, d, k0, i, limit);
              assert PinLine(p, king, color, kc, d, k0, limit);
            }
          }
        } else {
          LineOpenStep(p, king, kc, d, if possible.None? then 1 else k0 + 1, i);
          RayScanSound(p, king, color, kc, d, i + 1, limit, possible, k0);
        }
      }
    }
  }

  /** An enemy attacker at step k with an open line in front of it ends the
      walk: as a check when no friendly piece was met, as a pin of that piece
      otherwise. */
  lemma {:induction false} RayScanComplete(p: Position, king: PieceId, color: Color, kc: Coord, d: Direction,
                                           i: nat, limit: nat, possible: Option<Pin>, k: nat)
    requires king < |p.table| && p.table[king].color == color
    requires 1 <= i && AttackLine(p, king, color, kc, d, i - 1, k, limit)
    ensures RayScan(p, king, color, kc, d, i, limit, possible) ==
      if possible.None? then CheckHit((Step(kc, d, k), d)) else PinHit(possible.value)
    decreases k - i
  {
    if i < k {
      var c := Step(kc, d, i);
      assert InBounds(p.files, p.ranks, c) && (!HasPiece(p, c) || Occupant(p, c) == Some(king));
      RayScanComplete(p, king, color, kc, d, i + 1, limit, possible, k);
    }
  }

  /** A friendly piece that is the first on the line, with an attacker behind
      it, is reported as a pin. */
  lemma {:induction false} RayScanPinComplete(p: Position, king: PieceId, color: Color, kc: Coord, d: Direction,
                                              i: nat, limit: nat, k: nat)
    requires king < |p.table| && p.table[king].color == color
    requires 1 <= i <= k && PinLine(p, king, color, kc, d, k, limit)
    ensures RayScan(p, king, color, kc, d, i, limit, None) == PinHit((Step(kc, d, k), d))
    decreases k - i
  {
    var k' :| AttackLine(p, king, color, kc, d, k, k', limit);
    if i < k {
      var c := Step(kc, d, i);
      assert InBounds(p.files, p.ranks, c) && (!HasPiece(p, c) || Occupant(p, c) == Some(king));
      RayScanPinComplete(p, king, color, kc, d, i + 1, limit, k);
    } else {
      RayScanComplete(p, king, color, kc, d, k + 1, limit, Some((Step(kc, d, k), d)), k');
    }
  }

  lemma {:induction false} ScanAllMembers(p: Position, king: PieceId, color: Color, kc: Coord, dirs: seq<Direction>)
    ensures forall x :: x in ScanAll(p, king, color, kc, dirs).checks <==>
      exists d :: d in dirs && RayScan(p, king, color, kc, d, 1, ScanLimit(p), None) == CheckHit(x)
    ensures forall x :: x in ScanAll(p, king, color, kc, dirs).pins <==>
      exists d :: d in dirs && RayScan(p, king, color, kc, d, 1, ScanLimit(p), None) == PinHit(x)
  {
    if dirs != [] {
      var init := dirs[..|dirs| - 1];
      var last := dirs[|dirs| - 1];
      ScanAllMembers(p, king, color, kc, init);
      assert dirs == init + [last];
      forall x ensures x in ScanAll(p, king, color, kc, dirs).checks <==>
        exists d :: d in dirs && RayScan(p, king, color, kc, d, 1, ScanLimit(p), None) == CheckHit(x)
      {
        if exists d :: d in dirs && RayScan(p, king, color, kc, d, 1, ScanLimit(p), None) == CheckHit(x) {
          var d :| d in dirs && RayScan(p, king, color, kc, d, 1, ScanLimit(p), None) == CheckHit(x);
          if d != last {
            assert d in init;
          }
        }
      }
      forall x ensures x in ScanAll(p, king, color, kc, dirs).pins <==>
        exists d :: d in dirs && RayScan(p, king, color, kc, d, 1, ScanLimit(p), None) == PinHit(x)
      {
        if exists d :: d in dirs && RayScan(p, king, color, kc, d, 1, ScanLimit(p), None) == PinHit(x) {
          var d :| d in dirs && RayScan(p, king, color, kc, d, 1, ScanLimit(p), None) == PinHit(x);
          if d != last {
            assert d in init;
          }
        }
      }
    }
  }

  lemma {:induction false} KnightChecksExact(p: Position, color: Color, kc: Coord, ds: seq<Direction>)
    ensures forall x :: x in KnightChecks(p, color, kc, ds) <==>
      x.1 in ds && x.0 == Step(kc, x.1, 1) && InBounds(p.files, p.ranks, x.0) &&
      HasEnemyPiece(p, x.0, color) && PieceAt(p, x.0).value.kind == Knight
  {
    if ds != [] {
      var init := ds[..|ds| - 1];
      assert ds == init + [ds[|ds| - 1]];
      KnightChecksExact(p, color, kc, init);
    }
  }

  /** Every check is an enemy piece attacking the king's square: a knight a
      knight's jump away, or an attacker along one of the eight lines with
      only empty squares (or the king itself) in between. */
  lemma ChecksSound(p: Position, king: PieceId, kc: Coord)
    requires king < |p.table|
    ensures var color := p.table[king].color;
      forall x :: x in PinsAndChecks(p, king, kc).checks ==>
        (x.1 in KNIGHT && x.0 == Step(kc, x.1, 1) && InBounds(p.files, p.ranks, x.0) &&
         HasEnemyPiece(p, x.0, color) && PieceAt(p, x.0).value.kind == Knight) ||
        (x.1 in KING_SCAN &&
         exists k :: x.0 == Step(kc, x.1, k) && AttackLine(p, king, color, kc, x.1, 0, k, ScanLimit(p)))
  {
    var color := p.table[king].color;
    ScanAllMembers(p, king, color, kc, KING_SCAN);
    KnightChecksExact(p, color, kc, KNIGHT);
    forall d | d in KING_SCAN {
      RayScanSound(p, king, color, kc, d, 1, ScanLimit(p), None, 0);
    }
  }

  /** Every pin is the first piece on one of the eight lines from the king's
      square, friendly and not the king, with an enemy attacker behind it on
      that line and only empty squares (or the king itself) between. */
  lemma PinsSound(p: Position, king: PieceId, kc: Coord)
    requires king < |p.table|
    ensures var color := p.table[king].color;
      forall x :: x in PinsAndChecks(p, king, kc).pins ==>
        x.1 in KING_SCAN && exists k :: x.0 == Step(kc, x.1, k) && PinLine(p, king, color, kc, x.1, k, ScanLimit(p))
  {
    var color := p.table[king].color;
    ScanAllMembers(p, king, color, kc, KING_SCAN);
    forall d | d in KING_SCAN {
      RayScanSound(p, king, color, kc, d, 1, ScanLimit(p), None, 0);
    }
  }

  /** Conversely an enemy knight a knight's jump away, and an enemy attacker
      along one of the eight lines with nothing in front of it, are checks. */
  lemma ChecksComplete(p: Position, king: PieceId, kc: Coord, d: Direction, k: nat)
    requires king < |p.table|
    requires (d in KNIGHT && k == 1 && InBounds(p.files, p.ranks, Step(kc, d, k)) &&
       HasEnemyPiece(p, Step(kc, d, k), p.table[king].color) && PieceAt(p, Step(kc, d, k)).value.kind == Knight) ||
      (d in KING_SCAN && AttackLine(p, king, p.table[king].color, kc, d, 0, k, ScanLimit(p)))
    ensures (Step(kc, d, k), d) in PinsAndChecks(p, king, kc).checks
  {
    var color := p.table[king].color;
    ScanAllMembers(p, king, color, kc, KING_SCAN);
    KnightChecksExact(p, color, kc, KNIGHT);
    if !(d in KNIGHT && k == 1 && InBounds(p.files, p.ranks, Step(kc, d, k)) &&
         HasEnemyPiece(p, Step(kc, d, k), color) && PieceAt(p, Step(kc, d, k)).value.kind == Knight) {
      RayScanComplete(p, king, color, kc, d, 1, ScanLimit(p), None, k);
    }
  }

  /** Conversely a friendly piece first on one of the eight lines, with an
      enemy attacker behind it, is a pin. */
  lemma PinsComplete(p: Position, king: PieceId, kc: Coord, d: Direction, k: nat)
    requires king < |p.table|
    requires d in KING_SCAN && PinLine(p, king, p.table[king].color, kc, d, k, ScanLimit(p))
    ensures (Step(kc, d, k), d) in PinsAndChecks(p, king, kc).pins
  {
    var color := p.table[king].color;
    ScanAllMembers(p, king, color, kc, KING_SCAN);
    RayScanPinComplete(p, king, color, kc, d, 1, ScanLimit(p), k);
  }

  // ---- is_piece_pinned ----

  /** The position of the last pin on square sq, where a piece off the board
      (sq None) matches no pin: the reversed scan stops at the first match. */
  function LastPinAt(pins: seq<Pin>, sq: Option<Coord>): (r: Option<nat>)
    ensures r.Some? ==>
      r.value < |pins| && sq == Some(pins[r.value].0) &&
      forall j :: r.value < j < |pins| ==> sq != Some(pins[j].0)
    ensures r.None? ==> forall j :: 0 <= j < |pins| ==> sq != Some(pins[j].0)
  {
    if pins == [] then None
    else if sq == Some(pins[|pins| - 1].0) then Some(|pins| - 1)
    else LastPinAt(pins[..|pins| - 1], sq)
  }

  /** is_piece_pinned on a piece record and the pins list: a non-king takes
      the direction of the last pin on its square, or none, and that pin is
      taken out of the list (list.remove drops its first equal entry). */
  function PinUpdate(pc: PieceRec, pins: seq<Pin>): (r: (PieceRec, seq<Pin>))
    ensures r.0 == pc.(pinDirection := r.0.pinDirection)
    ensures pc.kind == King ==> r == (pc, pins)
    ensures pc.kind != King ==>
      (r.0.pinDirection.Some? <==> exists j :: 0 <= j < |pins| && pc.square == Some(pins[j].0))
    ensures pc.kind != King && r.0.pinDirection.Some? ==>
      multiset(r.1) == multiset(pins) - multiset{(pc.square.value, r.0.pinDirection.value)}
    ensures pc.kind != King && r.0.pinDirection.None? ==> r.1 == pins
  {
    if pc.kind == King then (pc, pins)
    else
      match LastPinAt(pins, pc.square)
      case None => (pc.(pinDirection := None), pins)
      case Some(j) => (pc.(pinDirection := Some(pins[j].1)), RemoveFirst(pins, pins[j]))
  }
}
