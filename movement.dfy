/** Rook-like move generation: the tiles getAvaiableMoves reports for a piece. */
module Movement {
  import opened Tiles
  import opened Turns

  /** How many tiles lie between p and the board edge in direction d. */
  function Reach(p: Pos, d: Dir): int {
    match d
    case Above => p.y
    case Below => Size - 1 - p.y
    case Left => p.x
    case Right => Size - 1 - p.x
  }

  /** The tiles a piece on p slides to in direction d, nearest first: every tile up to,
      but not including, the first occupied or throne tile or the board edge. */
  function Ray(g: Grid, p: Pos, d: Dir): seq<Pos>
    requires WellFormed(g) && InBounds(p)
    decreases Reach(p, d)
  {
    var q := Step(p, d);
    if InBounds(q) && Open(At(g, q)) then [q] + Ray(g, q, d) else []
  }

  /** getAvaiableMoves: nothing for an empty tile, else the left, right, above and below scans in that order. */
  function Moves(g: Grid, p: Pos): seq<Pos>
    requires WellFormed(g) && InBounds(p)
  {
    if !HasPiece(g, p) then []
    else Ray(g, p, Left) + Ray(g, p, Right) + Ray(g, p, Above) + Ray(g, p, Below)
  }

  /** q lies strictly beyond p in direction d, on p's row or column. */
  predicate Aligned(p: Pos, q: Pos, d: Dir) {
    match d
    case Above => q.x == p.x && q.y < p.y
    case Below => q.x == p.x && q.y > p.y
    case Left => q.y == p.y && q.x < p.x
    case Right => q.y == p.y && q.x > p.x
  }

  /** r lies strictly between p and q on a common row or column. */
  predicate Between(p: Pos, r: Pos, q: Pos) {
    (r.y == p.y && r.y == q.y && (p.x < r.x < q.x || q.x < r.x < p.x)) ||
    (r.x == p.x && r.x == q.x && (p.y < r.y < q.y || q.y < r.y < p.y))
  }

  /** Every tile strictly between p and q can be passed over. */
  ghost predicate ClearBetween(g: Grid, p: Pos, q: Pos)
    requires WellFormed(g)
  {
    forall r :: InBounds(r) && Between(p, r, q) ==> Open(At(g, r))
  }

  /** Reference definition of a legal slide, independent of the scan: q is another tile
      on p's row or column, it is open, and nothing blocks the way. */
  ghost predicate Reachable(g: Grid, p: Pos, q: Pos)
    requires WellFormed(g)
  {
    InBounds(q) && q != p && (q.x == p.x || q.y == p.y) && Open(At(g, q)) && ClearBetween(g, p, q)
  }

  lemma StepGeometry(p: Pos, q: Pos, d: Dir)
    ensures Aligned(p, Step(p, d), d)
    ensures InBounds(p) && InBounds(Step(p, d)) ==> Reach(Step(p, d), d) == Reach(p, d) - 1
    ensures Aligned(p, q, d) && q != Step(p, d) <==> Aligned(Step(p, d), q, d)
    ensures Aligned(p, q, d) && q != Step(p, d) ==>
      forall r :: Between(p, r, q) <==> r == Step(p, d) || Between(Step(p, d), r, q)
    ensures forall r :: !Between(p, r, Step(p, d))
    ensures Aligned(p, q, d) && q != Step(p, d) ==> Between(p, Step(p, d), q)
  {
  }

  lemma BetweenInBounds(p: Pos, r: Pos, q: Pos)
    requires InBounds(p) && InBounds(q) && Between(p, r, q)
    ensures InBounds(r)
  {
  }

  /** The scan in direction d reports exactly the open tiles beyond p with a clear way to them. */
  lemma {:induction false} RayExact(g: Grid, p: Pos, d: Dir, q: Pos)
    requires WellFormed(g) && InBounds(p)
    ensures q in Ray(g, p, d) <==>
      InBounds(q) && Aligned(p, q, d) && Open(At(g, q)) && ClearBetween(g, p, q)
    decreases Reach(p, d)
  {
    var s := Step(p, d);
    StepGeometry(p, q, d);
    if InBounds(s) && Open(At(g, s)) {
      RayExact(g, s, d, q);
      if q != s && Aligned(p, q, d) && InBounds(q) {
        if ClearBetween(g, s, q) {
          forall r | InBounds(r) && Between(p, r, q) ensures Open(At(g, r)) {
          }
        }
      }
    } else if InBounds(q) && Aligned(p, q, d) && Open(At(g, q)) && ClearBetween(g, p, q) {
      if q != s {
        BetweenInBounds(p, s, q);
      }
      assert false;
    }
  }

  /** The scan goes on past an open next tile, which is one tile closer to the edge. */
  lemma RayContinues(g: Grid, p: Pos, d: Dir, done: seq<Pos>, cur: Pos)
    requires WellFormed(g) && InBounds(p) && InBounds(cur) && done + Ray(g, cur, d) == Ray(g, p, d)
    requires InBounds(Step(cur, d)) && Open(At(g, Step(cur, d)))
    ensures (done + [Step(cur, d)]) + Ray(g, Step(cur, d), d) == Ray(g, p, d)
    ensures 0 <= Reach(Step(cur, d), d) < Reach(cur, d)
  {
    var next := Step(cur, d);
    assert Ray(g, cur, d) == [next] + Ray(g, next, d);
    Regroup(done, next, Ray(g, next, d), Ray(g, p, d));
  }

  lemma Regroup<T>(a: seq<T>, x: T, r: seq<T>, t: seq<T>)
    requires a + ([x] + r) == t
    ensures (a + [x]) + r == t
  {
    assert a + ([x] + r) == (a + [x]) + r;
  }

  /** The scan stops at the edge and before an occupied or throne tile. */
  lemma RayStops(g: Grid, p: Pos, d: Dir, done: seq<Pos>, cur: Pos)
    requires WellFormed(g) && InBounds(p) && InBounds(cur) && done + Ray(g, cur, d) == Ray(g, p, d)
    requires !InBounds(Step(cur, d)) || !Open(At(g, Step(cur, d)))
    ensures done == Ray(g, p, d)
  {
    assert Ray(g, cur, d) == [];
    assert done + [] == done;
  }

  /** The scan in direction d lists its tiles from nearest to farthest: the k-th is k+1 steps away. */
  lemma {:induction false} RayNearToFar(g: Grid, p: Pos, d: Dir, k: nat)
    requires WellFormed(g) && InBounds(p) && k < |Ray(g, p, d)|
    ensures Ray(g, p, d)[k] == Walk(p, d, k + 1)
    decreases Reach(p, d)
  {
    var s := Step(p, d);
    StepGeometry(p, p, d);
    if k > 0 {
      RayNearToFar(g, s, d, k - 1);
    }
  }

  /** getAvaiableMoves is sound and complete for the reference definition: from an occupied
      tile it lists exactly the reachable tiles, and from an empty tile nothing. */
  lemma MovesExact(g: Grid, p: Pos, q: Pos)
    requires WellFormed(g) && InBounds(p)
    ensures !HasPiece(g, p) ==> Moves(g, p) == []
    ensures HasPiece(g, p) ==> (q in Moves(g, p) <==> Reachable(g, p, q))
  {
    RayExact(g, p, Left, q);
    RayExact(g, p, Right, q);
    RayExact(g, p, Above, q);
    RayExact(g, p, Below, q);
  }

  /** Consequence for the throne: no piece can ever be moved onto it. */
  lemma ThroneNeverReachable(g: Grid, p: Pos, q: Pos)
    requires WellFormed(g) && InBounds(p) && InBounds(q) && At(g, q).kind == Throne
    ensures q !in Moves(g, p)
  {
    MovesExact(g, p, q);
  }

  /** Which piece stands on p does not matter: a king and a soldier on the same tile have the
      same moves, so goal tiles, like every other open tile, are reachable by any piece. */
  lemma MovesIgnoreMover(g: Grid, p: Pos, piece: Piece, q: Pos)
    requires WellFormed(g) && InBounds(p) && HasPiece(g, p)
    ensures q in Moves(PlacePiece(g, p, piece), p) <==> q in Moves(g, p)
  {
    var h := PlacePiece(g, p, piece);
    MovesExact(g, p, q);
    MovesExact(h, p, q);
    if InBounds(q) && q != p {
      assert At(h, q) == At(g, q);
      assert ClearBetween(h, p, q) <==> ClearBetween(g, p, q) by {
        forall r | InBounds(r) && Between(p, r, q) ensures At(h, r) == At(g, r) {
        }
      }
    }
  }

  /** isValidMove's side check: during the attacker's turn a White piece may not move, during
      the defender's turn a Black piece may not; in the two finished states nothing is rejected. */
  predicate SideMayMove(s: Status, c: Color) {
    !(s == AttackerTurn && c == White) && !(s == DefenderTurn && c == Black)
  }

  /** Reference definition of isValidMove: the side check passes and the target is reachable. */
  ghost predicate ValidMove(g: Grid, s: Status, from: Pos, to: Pos)
    requires WellFormed(g) && InBounds(from) && HasPiece(g, from)
  {
    SideMayMove(s, PieceAt(g, from).color) && Reachable(g, from, to)
  }

  /** The side check follows the turn while the match runs, and is switched off once it is over:
      after a win either side's piece may still make any reachable move. */
  lemma SideCheckByStatus(s: Status, c: Color)
    ensures s == AttackerTurn ==> (SideMayMove(s, c) <==> c == Black)
    ensures s == DefenderTurn ==> (SideMayMove(s, c) <==> c == White)
    ensures IsOver(s) ==> SideMayMove(s, c)
  {
  }
}
