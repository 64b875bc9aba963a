/** Custodian capture, king capture and the effect of one move, as functions of the board. */
module Capturing {
  import opened Tiles
  import opened Turns

  /** What a move or a capture leaves behind: the board, the status, and the tiles whose pieces were taken. */
  datatype Outcome = Outcome(grid: Grid, status: Status, captured: set<Pos>)

  /** The edge guards of capture (y > 1, y < 9, x > 1, x < 9): the tile two steps away is on the board. */
  predicate CaptureGuard(p: Pos, d: Dir)
    ensures InBounds(p) && CaptureGuard(p, d) ==> InBounds(Step(p, d)) && InBounds(Step(Step(p, d), d))
    ensures InBounds(p) && InBounds(Step(Step(p, d), d)) ==> CaptureGuard(p, d)
  {
    match d
    case Above => p.y > 1
    case Below => p.y < 9
    case Left => p.x > 1
    case Right => p.x < 9
  }

  /** The edge guards of king capture (y != 0, y != 10, x != 0, x != 10): the neighbour is on the board. */
  predicate KingGuard(k: Pos, d: Dir)
    ensures InBounds(k) ==> (KingGuard(k, d) <==> InBounds(Step(k, d)))
  {
    match d
    case Above => k.y != 0
    case Below => k.y != 10
    case Left => k.x != 0
    case Right => k.x != 10
  }

  /** A mover sandwiches the victim tile's piece against the anchor tile's piece: the victim
      belongs to another player, the anchor to the mover's player and is not the king.
      Ownership is compared by user id, not by colour. */
  predicate Sandwiches(mover: Piece, victim: Tile, anchor: Tile) {
    victim.piece.Some? && victim.piece.value.user != mover.user &&
    anchor.piece.Some? && anchor.piece.value.user == mover.user && !anchor.piece.value.isKing
  }

  /** A king's neighbour counts against it: the throne, or a piece of another player. */
  predicate HostileTo(king: Piece, t: Tile) {
    t.kind == Throne || (t.piece.Some? && t.piece.value.user != king.user)
  }

  /** aboveCapturable / belowCapturable / leftCapturable / rightCapturable. */
  predicate Capturable(g: Grid, p: Pos, d: Dir)
    requires WellFormed(g) && InBounds(p) && HasPiece(g, p) && CaptureGuard(p, d)
  {
    Sandwiches(PieceAt(g, p), At(g, Step(p, d)), At(g, Step(Step(p, d), d)))
  }

  /** kingCheckAbove / Below / Left / Right, together with the edge guard that kingCapture puts before each. */
  predicate Hostile(g: Grid, k: Pos, d: Dir)
    requires WellFormed(g) && InBounds(k) && HasPiece(g, k)
  {
    KingGuard(k, d) && HostileTo(PieceAt(g, k), At(g, Step(k, d)))
  }

  /** The king on k is surrounded on all four sides. */
  predicate KingSurrounded(g: Grid, k: Pos)
    requires WellFormed(g) && InBounds(k) && HasPiece(g, k)
  {
    Hostile(g, k, Above) && Hostile(g, k, Below) && Hostile(g, k, Left) && Hostile(g, k, Right)
  }

  /** kingCapture: a surrounded king is removed and the attacker wins; otherwise nothing changes. */
  function KingCaptureOutcome(g: Grid, s: Status, k: Pos): Outcome
    requires WellFormed(g) && InBounds(k) && HasPiece(g, k)
  {
    if KingSurrounded(g, k) then Outcome(RemovePiece(g, k), AttackerWin, {k})
    else Outcome(g, s, {})
  }

  /** One of the four blocks of capture: the capture toward direction d from the mover on p. */
  function CaptureStep(g: Grid, s: Status, p: Pos, d: Dir): (r: Outcome)
    requires WellFormed(g) && InBounds(p) && HasPiece(g, p)
    ensures WellFormed(r.grid) && At(r.grid, p) == At(g, p)
  {
    if CaptureGuard(p, d) && Capturable(g, p, d) then
      var n := Step(p, d);
      if PieceAt(g, n).isKing then KingCaptureOutcome(g, s, n)
      else Outcome(RemovePiece(g, n), s, {n})
    else Outcome(g, s, {})
  }

  /** capture: the four directions in the source's order (above, below, left, right), each on the board the previous left. */
  function CaptureOutcome(g: Grid, s: Status, p: Pos): Outcome
    requires WellFormed(g) && InBounds(p) && HasPiece(g, p)
  {
    var a := CaptureStep(g, s, p, Above);
    var b := CaptureStep(a.grid, a.status, p, Below);
    var l := CaptureStep(b.grid, b.status, p, Left);
    var r := CaptureStep(l.grid, l.status, p, Right);
    Outcome(r.grid, r.status, a.captured + b.captured + l.captured + r.captured)
  }

  /** makeMove: relocate the piece, then the king-on-goal win, or capture by a non-king mover. */
  function MoveOutcome(g: Grid, s: Status, from: Pos, to: Pos): Outcome
    requires WellFormed(g) && InBounds(from) && InBounds(to) && HasPiece(g, from)
  {
    var mover := PieceAt(g, from);
    var moved := Relocated(g, from, to);
    if mover.isKing && At(g, to).kind == Goal then Outcome(moved, DefenderWin, {})
    else if !mover.isKing then CaptureOutcome(moved, s, to)
    else Outcome(moved, s, {})
  }

  // ---------------------------------------------------------------------------
  // Capture evaluated on the board as it was before any removal

  /** Direction d takes its neighbour: the neighbour is sandwiched, and if it is the king it is also surrounded. */
  predicate Takes(g: Grid, p: Pos, d: Dir)
    requires WellFormed(g) && InBounds(p) && HasPiece(g, p)
  {
    CaptureGuard(p, d) && Capturable(g, p, d) &&
    (PieceAt(g, Step(p, d)).isKing ==> KingSurrounded(g, Step(p, d)))
  }

  /** Direction d takes the king. */
  predicate TakesKing(g: Grid, p: Pos, d: Dir)
    requires WellFormed(g) && InBounds(p) && HasPiece(g, p)
  {
    Takes(g, p, d) && PieceAt(g, Step(p, d)).isKing
  }

  /** Some direction takes the king. */
  predicate KingFalls(g: Grid, p: Pos)
    requires WellFormed(g) && InBounds(p) && HasPiece(g, p)
  {
    TakesKing(g, p, Above) || TakesKing(g, p, Below) || TakesKing(g, p, Left) || TakesKing(g, p, Right)
  }

  /** The tiles whose contents decide direction d: the mover, its neighbour, the anchor and the neighbour's neighbours. */
  function Footprint(p: Pos, d: Dir): set<Pos> {
    var n := Step(p, d);
    {p, n, Step(n, d), Step(n, Above), Step(n, Below), Step(n, Left), Step(n, Right)}
  }

  predicate Agree(g: Grid, h: Grid, S: set<Pos>)
    requires WellFormed(g) && WellFormed(h)
  {
    forall q :: q in S && InBounds(q) ==> At(g, q) == At(h, q)
  }

  lemma TakesFrame(g: Grid, h: Grid, p: Pos, d: Dir)
    requires WellFormed(g) && WellFormed(h) && InBounds(p) && HasPiece(g, p)
    requires Agree(g, h, Footprint(p, d))
    ensures HasPiece(h, p)
    ensures Takes(h, p, d) == Takes(g, p, d)
    ensures TakesKing(h, p, d) == TakesKing(g, p, d)
  {
  }

  /** A neighbour taken in one direction is outside the footprint of every other direction. */
  lemma FootprintsApart(p: Pos, d: Dir, e: Dir)
    requires d != e
    ensures Step(p, e) !in Footprint(p, d)
  {
  }

  lemma NeighboursDistinct(p: Pos)
    ensures Step(p, Above) != Step(p, Below) && Step(p, Above) != Step(p, Left)
    ensures Step(p, Above) != Step(p, Right) && Step(p, Below) != Step(p, Left)
    ensures Step(p, Below) != Step(p, Right) && Step(p, Left) != Step(p, Right)
  {
  }

  lemma StepIsNeighbour(p: Pos, d: Dir)
    ensures Step(p, d) in Neighbours(p)
  {
    match d
    case Above =>
    case Below =>
    case Left =>
    case Right =>
  }

  /** The direction in which a neighbour lies. */
  lemma DirOf(p: Pos, q: Pos) returns (d: Dir)
    requires q in Neighbours(p)
    ensures q == Step(p, d)
  {
    if q == Step(p, Above) {
      d := Above;
    } else if q == Step(p, Below) {
      d := Below;
    } else if q == Step(p, Left) {
      d := Left;
    } else {
      d := Right;
    }
  }

  /** h is g with exactly the pieces on `done` removed. */
  ghost predicate EmptiedExactly(g: Grid, h: Grid, done: set<Pos>)
    requires WellFormed(g) && WellFormed(h)
  {
    forall q :: InBounds(q) ==> At(h, q) == if q in done then Emptied(At(g, q)) else At(g, q)
  }

  /** One block of capture run on a board from which earlier blocks removed the pieces on `done`
      decides and acts as it would on the original board. */
  lemma StepAfter(g: Grid, h: Grid, s: Status, p: Pos, d: Dir, done: set<Pos>)
    requires WellFormed(g) && WellFormed(h) && InBounds(p) && HasPiece(g, p)
    requires done <= Neighbours(p) && Step(p, d) !in done
    requires EmptiedExactly(g, h, done)
    ensures HasPiece(h, p)
    ensures var r := CaptureStep(h, s, p, d);
      && r.captured == (if Takes(g, p, d) then {Step(p, d)} else {})
      && r.status == (if TakesKing(g, p, d) then AttackerWin else s)
      && EmptiedExactly(g, r.grid, done + r.captured)
  {
    assert Agree(g, h, Footprint(p, d)) by {
      forall q | q in Footprint(p, d) && InBounds(q) ensures At(g, q) == At(h, q) {
        if q in done {
          var e := DirOf(p, q);
          FootprintsApart(p, d, e);
        }
      }
    }
    TakesFrame(g, h, p, d);
    var r := CaptureStep(h, s, p, d);
    if Takes(g, p, d) {
      var n := Step(p, d);
      assert r.grid == RemovePiece(h, n) && r.captured == {n};
      forall q | InBounds(q) ensures At(r.grid, q) == if q in done + {n} then Emptied(At(g, q)) else At(g, q) {
        if q == n {
          assert At(h, n) == At(g, n);
        }
      }
    } else {
      assert r.grid == h && r.captured == {} && r.status == s;
      assert done + r.captured == done;
    }
  }

  /** The neighbours that the four directions take on board g. */
  function TakenBy(g: Grid, p: Pos, d: Dir): set<Pos>
    requires WellFormed(g) && InBounds(p) && HasPiece(g, p)
  {
    if Takes(g, p, d) then {Step(p, d)} else {}
  }

  lemma TakenByAll(g: Grid, p: Pos)
    requires WellFormed(g) && InBounds(p) && HasPiece(g, p)
    ensures var all := TakenBy(g, p, Above) + TakenBy(g, p, Below) + TakenBy(g, p, Left) + TakenBy(g, p, Right);
      all <= Neighbours(p) && forall d :: Step(p, d) in all <==> Takes(g, p, d)
  {
    NeighboursDistinct(p);
    var all := TakenBy(g, p, Above) + TakenBy(g, p, Below) + TakenBy(g, p, Left) + TakenBy(g, p, Right);
    forall d ensures Step(p, d) in all <==> Takes(g, p, d) {
      match d
      case Above =>
      case Below =>
      case Left =>
      case Right =>
    }
  }

  /** The blocks above and below, run on the entry board g. */
  lemma FirstTwoSteps(g: Grid, s: Status, p: Pos)
    requires WellFormed(g) && InBounds(p) && HasPiece(g, p)
    ensures var a := CaptureStep(g, s, p, Above);
      var b := CaptureStep(a.grid, a.status, p, Below);
      && WellFormed(b.grid) && HasPiece(b.grid, p)
      && a.captured + b.captured == TakenBy(g, p, Above) + TakenBy(g, p, Below)
      && EmptiedExactly(g, b.grid, TakenBy(g, p, Above) + TakenBy(g, p, Below))
      && b.status == (if TakesKing(g, p, Above) || TakesKing(g, p, Below) then AttackerWin else s)
  {
    var ca, cb := TakenBy(g, p, Above), TakenBy(g, p, Below);
    NeighboursDistinct(p);
    var a := CaptureStep(g, s, p, Above);
    assert a.captured == ca && EmptiedExactly(g, a.grid, ca)
      && a.status == (if TakesKing(g, p, Above) then AttackerWin else s) by {
      StepAfter(g, g, s, p, Above, {});
      assert {} + ca == ca;
    }
    assert Step(p, Below) !in ca;
    StepAfter(g, a.grid, a.status, p, Below, ca);
  }

  /** The blocks left and right, run on the board the first two blocks left behind. */
  lemma LastTwoSteps(g: Grid, h: Grid, s: Status, p: Pos)
    requires WellFormed(g) && WellFormed(h) && InBounds(p) && HasPiece(g, p)
    requires EmptiedExactly(g, h, TakenBy(g, p, Above) + TakenBy(g, p, Below))
    ensures HasPiece(h, p)
    ensures var l := CaptureStep(h, s, p, Left);
      var r := CaptureStep(l.grid, l.status, p, Right);
      var done := TakenBy(g, p, Above) + TakenBy(g, p, Below);
      && WellFormed(r.grid)
      && l.captured + r.captured == TakenBy(g, p, Left) + TakenBy(g, p, Right)
      && EmptiedExactly(g, r.grid, done + TakenBy(g, p, Left) + TakenBy(g, p, Right))
      && r.status == (if TakesKing(g, p, Left) || TakesKing(g, p, Right) then AttackerWin else s)
  {
    var done := TakenBy(g, p, Above) + TakenBy(g, p, Below);
    var cl := TakenBy(g, p, Left);
    NeighboursDistinct(p);
    assert done <= Neighbours(p) && Step(p, Left) !in done;
    var l := CaptureStep(h, s, p, Left);
    assert l.captured == cl && EmptiedExactly(g, l.grid, done + cl)
      && l.status == (if TakesKing(g, p, Left) then AttackerWin else s) by {
      StepAfter(g, h, s, p, Left, done);
    }
    assert Step(p, Right) !in done + cl;
    StepAfter(g, l.grid, l.status, p, Right, done + cl);
  }

  /** Order independence: the four blocks of capture, run one after the other, take exactly the
      neighbours that each direction would take on the board as it stood before the first removal;
      those tiles are emptied, nothing else changes, and the attacker wins iff one of them held the king. */
  lemma CaptureIsSimultaneous(g: Grid, s: Status, p: Pos)
    requires WellFormed(g) && InBounds(p) && HasPiece(g, p)
    ensures var r := CaptureOutcome(g, s, p);
      && WellFormed(r.grid)
      && r.captured <= Neighbours(p)
      && (forall d :: Step(p, d) in r.captured <==> Takes(g, p, d))
      && EmptiedExactly(g, r.grid, r.captured)
      && r.status == (if KingFalls(g, p) then AttackerWin else s)
  {
    var a := CaptureStep(g, s, p, Above);
    var b := CaptureStep(a.grid, a.status, p, Below);
    FirstTwoSteps(g, s, p);
    var l := CaptureStep(b.grid, b.status, p, Left);
    var r := CaptureStep(l.grid, l.status, p, Right);
    LastTwoSteps(g, b.grid, b.status, p);
    TakenByAll(g, p);
    assert CaptureOutcome(g, s, p) == Outcome(r.grid, r.status, a.captured + b.captured + l.captured + r.captured);
  }

  // ---------------------------------------------------------------------------
  // King capture, the effect of a move, and faction symmetry

  /** The king is captured exactly when it stands off every edge and each of its four
      neighbours is the throne or holds a piece of another player; on an edge the missing
      side never counts as hostile, so an edge king cannot be captured. */
  lemma KingSurroundedIff(g: Grid, k: Pos)
    requires WellFormed(g) && InBounds(k) && HasPiece(g, k)
    ensures KingSurrounded(g, k) <==>
      && 0 < k.x < Size - 1 && 0 < k.y < Size - 1
      && forall d :: InBounds(Step(k, d)) && HostileTo(PieceAt(g, k), At(g, Step(k, d)))
  {
    if KingSurrounded(g, k) {
      forall d ensures InBounds(Step(k, d)) && HostileTo(PieceAt(g, k), At(g, Step(k, d))) {
        match d
        case Above =>
        case Below =>
        case Left =>
        case Right =>
      }
    } else if 0 < k.x < Size - 1 && 0 < k.y < Size - 1 {
      var d := if !Hostile(g, k, Above) then Above else if !Hostile(g, k, Below) then Below
        else if !Hostile(g, k, Left) then Left else Right;
      assert !HostileTo(PieceAt(g, k), At(g, Step(k, d)));
    }
  }

  /** makeMove moves the piece and removes only enemy pieces next to its landing tile: the
      source tile is emptied, the mover stands on the target, every captured tile held a piece
      of another player and is now empty, tile types never change, and nothing else changes.
      A king never captures. */
  lemma MoveEffects(g: Grid, s: Status, from: Pos, to: Pos)
    requires WellFormed(g) && InBounds(from) && InBounds(to) && HasPiece(g, from)
    ensures var r := MoveOutcome(g, s, from, to);
      && WellFormed(r.grid)
      && At(r.grid, to) == Tile(At(g, to).kind, Some(PieceAt(g, from)))
      && (from != to ==> At(r.grid, from) == Emptied(At(g, from)))
      && r.captured <= Neighbours(to)
      && (PieceAt(g, from).isKing ==> r.captured == {})
      && (forall q :: q in r.captured ==>
            InBounds(q) && q != from && q != to && HasPiece(g, q) && PieceAt(g, q).user != PieceAt(g, from).user)
      && (forall q :: InBounds(q) && q != from && q != to ==>
            At(r.grid, q) == if q in r.captured then Emptied(At(g, q)) else At(g, q))
      && (forall q :: InBounds(q) ==> At(r.grid, q).kind == At(g, q).kind)
  {
    var mover := PieceAt(g, from);
    var moved := Relocated(g, from, to);
    RelocatedEffects(g, from, to);
    if mover.isKing {
      assert MoveOutcome(g, s, from, to) ==
        Outcome(moved, if At(g, to).kind == Goal then DefenderWin else s, {});
    } else {
      var r := CaptureOutcome(moved, s, to);
      assert MoveOutcome(g, s, from, to) == r;
      CaptureIsSimultaneous(moved, s, to);
      CapturedEnemies(g, s, from, to);
      assert to !in r.captured && from !in r.captured;
      forall q | InBounds(q)
        ensures At(r.grid, q).kind == At(g, q).kind
        ensures q != from && q != to ==> At(r.grid, q) == if q in r.captured then Emptied(At(g, q)) else At(g, q)
      {
        assert At(r.grid, q) == if q in r.captured then Emptied(At(moved, q)) else At(moved, q);
      }
    }
  }

  /** The relocation alone: the mover stands on the target, the source is emptied, the rest is as it was. */
  lemma RelocatedEffects(g: Grid, from: Pos, to: Pos)
    requires WellFormed(g) && InBounds(from) && InBounds(to) && HasPiece(g, from)
    ensures var moved := Relocated(g, from, to);
      && WellFormed(moved)
      && At(moved, to) == Tile(At(g, to).kind, Some(PieceAt(g, from)))
      && (from != to ==> At(moved, from) == Emptied(At(g, from)))
      && (forall q :: InBounds(q) && q != from && q != to ==> At(moved, q) == At(g, q))
      && (forall q :: InBounds(q) ==> At(moved, q).kind == At(g, q).kind)
  {
  }

  /** Every tile a non-king mover captures is a neighbour of the landing tile, is not the source,
      and held a piece of another user before the move. */
  lemma CapturedEnemies(g: Grid, s: Status, from: Pos, to: Pos)
    requires WellFormed(g) && InBounds(from) && InBounds(to) && HasPiece(g, from) && !PieceAt(g, from).isKing
    ensures forall q :: q in CaptureOutcome(Relocated(g, from, to), s, to).captured ==>
      InBounds(q) && q != from && q != to && HasPiece(g, q) && PieceAt(g, q).user != PieceAt(g, from).user
  {
    var moved := Relocated(g, from, to);
    var r := CaptureOutcome(moved, s, to);
    CapturedIffTakes(moved, s, to);
    forall q | q in r.captured
      ensures InBounds(q) && q != from && q != to && HasPiece(g, q) && PieceAt(g, q).user != PieceAt(g, from).user
    {
      var d := DirOf(to, q);
      assert Takes(moved, to, d);
      NeighbourUntouched(g, from, to, q);
    }
  }

  /** The board right after makeMove relocates the piece, before any capture. */
  function Relocated(g: Grid, from: Pos, to: Pos): Grid
    requires WellFormed(g) && InBounds(from) && InBounds(to) && HasPiece(g, from)
  {
    PlacePiece(RemovePiece(g, from), to, PieceAt(g, from))
  }

  /** An occupied neighbour of the landing tile is neither endpoint of the move and kept its contents. */
  lemma NeighbourUntouched(g: Grid, from: Pos, to: Pos, q: Pos)
    requires WellFormed(g) && InBounds(from) && InBounds(to) && HasPiece(g, from)
    requires q in Neighbours(to) && InBounds(q) && HasPiece(Relocated(g, from, to), q)
    ensures q != from && q != to && At(Relocated(g, from, to), q) == At(g, q)
  {
  }

  /** The parts of CaptureIsSimultaneous that the status needs. */
  lemma CapturedIffTakes(g: Grid, s: Status, p: Pos)
    requires WellFormed(g) && InBounds(p) && HasPiece(g, p)
    ensures var r := CaptureOutcome(g, s, p);
      && r.captured <= Neighbours(p)
      && (forall d :: Step(p, d) in r.captured <==> Takes(g, p, d))
      && r.status == (if KingFalls(g, p) then AttackerWin else s)
  {
    CaptureIsSimultaneous(g, s, p);
  }

  /** One of the tiles in C held the king before the move. */
  ghost predicate HeldKing(g: Grid, C: set<Pos>)
    requires WellFormed(g)
  {
    exists q :: q in C && InBounds(q) && HasPiece(g, q) && PieceAt(g, q).isKing
  }

  /** A king among the captured tiles was taken by one of the four directions. */
  lemma CapturedKingFell(g: Grid, s: Status, from: Pos, to: Pos)
    requires WellFormed(g) && InBounds(from) && InBounds(to) && HasPiece(g, from) && !PieceAt(g, from).isKing
    ensures HeldKing(g, CaptureOutcome(Relocated(g, from, to), s, to).captured) ==> KingFalls(Relocated(g, from, to), to)
  {
    var moved := Relocated(g, from, to);
    var r := CaptureOutcome(moved, s, to);
    CapturedIffTakes(moved, s, to);
    if HeldKing(g, r.captured) {
      var q :| q in r.captured && InBounds(q) && HasPiece(g, q) && PieceAt(g, q).isKing;
      var d := DirOf(to, q);
      assert Takes(moved, to, d);
      NeighbourUntouched(g, from, to, q);
      assert TakesKing(moved, to, d);
      match d
      case Above =>
      case Below =>
      case Left =>
      case Right =>
    }
  }

  /** The status after makeMove: a king reaching a goal tile wins for the defender, a captured
      king wins for the attacker, and otherwise the status is left as it was. */
  lemma MoveStatus(g: Grid, s: Status, from: Pos, to: Pos)
    requires WellFormed(g) && InBounds(from) && InBounds(to) && HasPiece(g, from)
    ensures var r := MoveOutcome(g, s, from, to);
      && (PieceAt(g, from).isKing && At(g, to).kind == Goal ==> r.status == DefenderWin && r.captured == {})
      && (PieceAt(g, from).isKing && At(g, to).kind != Goal ==> r.status == s)
      && (!PieceAt(g, from).isKing ==> r.status == if HeldKing(g, r.captured) then AttackerWin else s)
  {
    var mover := PieceAt(g, from);
    if mover.isKing {
      assert MoveOutcome(g, s, from, to) ==
        Outcome(Relocated(g, from, to), if At(g, to).kind == Goal then DefenderWin else s, {});
    }
    if !mover.isKing {
      var moved := Relocated(g, from, to);
      var r := CaptureOutcome(moved, s, to);
      assert MoveOutcome(g, s, from, to) == r;
      CapturedIffTakes(moved, s, to);
      if KingFalls(moved, to) {
        var d := if TakesKing(moved, to, Above) then Above else if TakesKing(moved, to, Below) then Below
          else if TakesKing(moved, to, Left) then Left else Right;
        var q := Step(to, d);
        assert q in r.captured && InBounds(q) && HasPiece(moved, q) && PieceAt(moved, q).isKing;
        StepIsNeighbour(to, d);
        NeighbourUntouched(g, from, to, q);
        assert HasPiece(g, q) && PieceAt(g, q).isKing;
        assert HeldKing(g, r.captured);
        assert r.status == AttackerWin;
      } else {
        CapturedKingFell(g, s, from, to);
        assert r.status == s;
      }
    }
  }

  /** Corollary: the status only ever moves to a win, and the defender's win needs the king on a goal. */
  lemma MoveStatusTransitions(g: Grid, s: Status, from: Pos, to: Pos)
    requires WellFormed(g) && InBounds(from) && InBounds(to) && HasPiece(g, from)
    ensures var r := MoveOutcome(g, s, from, to);
      && (r.status != s ==> r.status == AttackerWin || r.status == DefenderWin)
      && (r.status == DefenderWin && s != DefenderWin ==> PieceAt(g, from).isKing && At(g, to).kind == Goal)
  {
    MoveStatus(g, s, from, to);
  }

  /** The piece with its owner and faction exchanged between players a and b. */
  function SwapSides(t: Tile, a: int, b: int): Tile {
    match t.piece
    case None => t
    case Some(pc) =>
      var user := if pc.user == a then b else if pc.user == b then a else pc.user;
      var color := if pc.color == Black then White else Black;
      Tile(t.kind, Some(Piece(color, pc.isKing, user)))
  }

  /** The board with the two players' armies exchanged. */
  function SwapBoard(g: Grid, a: int, b: int): (h: Grid)
    requires WellFormed(g)
    ensures WellFormed(h)
    ensures forall q :: InBounds(q) ==> At(h, q) == SwapSides(At(g, q), a, b)
  {
    seq(Size, i requires 0 <= i < Size => seq(Size, j requires 0 <= j < Size => SwapSides(g[i][j], a, b)))
  }

  /** Capture is symmetric under exchanging the two sides: the same geometric configuration
      takes the same tiles and decides the king's fate the same way, whoever plays which side. */
  lemma CaptureSymmetric(g: Grid, s: Status, p: Pos, a: int, b: int)
    requires WellFormed(g) && InBounds(p) && HasPiece(g, p)
    ensures HasPiece(SwapBoard(g, a, b), p)
    ensures CaptureOutcome(SwapBoard(g, a, b), s, p).captured == CaptureOutcome(g, s, p).captured
    ensures CaptureOutcome(SwapBoard(g, a, b), s, p).status == CaptureOutcome(g, s, p).status
  {
    var h := SwapBoard(g, a, b);
    forall d ensures Takes(h, p, d) == Takes(g, p, d) && TakesKing(h, p, d) == TakesKing(g, p, d) {
    }
    CaptureIsSimultaneous(g, s, p);
    CaptureIsSimultaneous(h, s, p);
    var x, y := CaptureOutcome(h, s, p).captured, CaptureOutcome(g, s, p).captured;
    forall q ensures q in x <==> q in y {
      if q in x || q in y {
        var d := DirOf(p, q);
      }
    }
  }
}
