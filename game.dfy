/** The Match object: an 11×11 array of tiles updated in place, the two player ids and the status. */
module Game {
  import opened Tiles
  import opened Turns
  import opened Movement
  import opened Capturing

  class Match {
    const board: array2<Tile>
    const attacker: int
    const defender: int
    var status: Status
    /** The board's contents as a value, for specifications. */
    ghost var cells: Grid

    ghost predicate Valid()
      reads this, board
    {
      board.Length0 == Size && board.Length1 == Size && WellFormed(cells) &&
      forall q :: InBounds(q) ==> board[q.x, q.y] == At(cells, q)
    }

    /** A new match on the given layout, the attacker to move. */
    constructor (attacker: int, defender: int, layout: Grid)
      requires WellFormed(layout)
      ensures Valid() && fresh(board)
      ensures this.attacker == attacker && this.defender == defender
      ensures status == AttackerTurn && cells == layout
    {
      this.attacker := attacker;
      this.defender := defender;
      status := AttackerTurn;
      board := new Tile[Size, Size]((i, j) requires 0 <= i < Size && 0 <= j < Size => layout[i][j]);
      cells := layout;
    }

    /** swapTurn: the attacker's turn becomes the defender's, every other status the attacker's. */
    method SwapTurn()
      requires Valid()
      modifies this
      ensures Valid() && cells == old(cells)
      ensures status == NextTurn(old(status))
    {
      if status == AttackerTurn {
        status := DefenderTurn;
      } else {
        status := AttackerTurn;
      }
    }

    /** Tile.removePiece on the tile at p. */
    method RemovePieceAt(p: Pos)
      requires Valid() && InBounds(p)
      modifies this, board
      ensures Valid() && status == old(status)
      ensures cells == RemovePiece(old(cells), p)
    {
      board[p.x, p.y] := Emptied(board[p.x, p.y]);
      cells := RemovePiece(cells, p);
    }

    /** Tile.setPiece on the tile at p. */
    method SetPieceAt(p: Pos, piece: Piece)
      requires Valid() && InBounds(p)
      modifies this, board
      ensures Valid() && status == old(status)
      ensures cells == PlacePiece(old(cells), p, piece)
    {
      board[p.x, p.y] := Tile(board[p.x, p.y].kind, Some(piece));
      cells := PlacePiece(cells, p, piece);
    }

    /** One of the four scans of getAvaiableMoves: walk from p in direction d while the next
        tile is on the board, collecting it until the first occupied or throne tile. */
    method ScanRay(p: Pos, d: Dir) returns (moves: seq<Pos>)
      requires Valid() && InBounds(p)
      ensures moves == Ray(cells, p, d)
    {
      moves := [];
      var cur := p;
      while InBounds(Step(cur, d))
        invariant InBounds(cur)
        invariant moves + Ray(cells, cur, d) == Ray(cells, p, d)
        decreases Reach(cur, d)
      {
        var next := Step(cur, d);
        var tile := board[next.x, next.y];
        assert tile == At(cells, next);
        if !Open(tile) {
          break;
        }
        RayContinues(cells, p, d, moves, cur);
        moves := moves + [next];
        cur := next;
      }
      RayStops(cells, p, d, moves, cur);
    }

    /** getAvaiableMoves: for an occupied tile, exactly the tiles reachable by a rook slide, scanned
        left, right, above, below; for an empty tile, nothing. */
    method AvailableMoves(p: Pos) returns (moves: seq<Pos>)
      requires Valid() && InBounds(p)
      ensures moves == Moves(cells, p)
      ensures !HasPiece(cells, p) ==> moves == []
      ensures forall q :: q in moves <==> HasPiece(cells, p) && Reachable(cells, p, q)
    {
      moves := [];
      if board[p.x, p.y].piece.Some? {
        var left := ScanRay(p, Left);
        var right := ScanRay(p, Right);
        var above := ScanRay(p, Above);
        var below := ScanRay(p, Below);
        moves := left + right + above + below;
      }
      forall q ensures q in moves <==> HasPiece(cells, p) && Reachable(cells, p, q) {
        MovesExact(cells, p, q);
      }
    }

    /** isValidMove: the mover's colour must match the side to move (not checked once the match
        is over), and the target must be among the available moves. */
    method IsValidMove(from: Pos, to: Pos) returns (ok: bool)
      requires Valid() && InBounds(from) && HasPiece(cells, from)
      ensures ok <==> ValidMove(cells, status, from, to)
      ensures status == AttackerTurn && PieceAt(cells, from).color == White ==> !ok
      ensures status == DefenderTurn && PieceAt(cells, from).color == Black ==> !ok
      ensures ok ==> InBounds(to) && At(cells, to).kind != Throne && !HasPiece(cells, to)
    {
      var color := board[from.x, from.y].piece.value.color;
      if status == AttackerTurn && color == White {
        return false;
      } else if status == DefenderTurn && color == Black {
        return false;
      }
      var moves := AvailableMoves(from);
      if to !in moves {
        return false;
      }
      return true;
    }

    /** aboveCapturable / belowCapturable / leftCapturable / rightCapturable: the neighbour in
        direction d holds another player's piece and the tile beyond holds a non-king of the mover's player. */
    method IsCapturable(p: Pos, d: Dir) returns (ok: bool)
      requires Valid() && InBounds(p) && HasPiece(cells, p) && CaptureGuard(p, d)
      ensures ok == Capturable(cells, p, d)
      ensures ok ==> HasPiece(cells, Step(p, d)) && PieceAt(cells, Step(p, d)).user != PieceAt(cells, p).user
    {
      var mover := board[p.x, p.y].piece.value;
      var n := Step(p, d);
      var m := Step(n, d);
      ok := false;
      if board[n.x, n.y].piece.Some? {
        if mover.user != board[n.x, n.y].piece.value.user {
          if board[m.x, m.y].piece.Some? {
            if mover.user == board[m.x, m.y].piece.value.user {
              if !board[m.x, m.y].piece.value.isKing {
                ok := true;
              }
            }
          }
        }
      }
    }

    /** kingCheckAbove / Below / Left / Right: the neighbour of the king in direction d is the
        throne, or holds a piece of another player. */
    method KingCheck(k: Pos, d: Dir) returns (hostile: bool)
      requires Valid() && InBounds(k) && HasPiece(cells, k) && InBounds(Step(k, d))
      ensures hostile == Hostile(cells, k, d)
      ensures hostile <==> (At(cells, Step(k, d)).kind == Throne ||
        (HasPiece(cells, Step(k, d)) && PieceAt(cells, Step(k, d)).user != PieceAt(cells, k).user))
    {
      var n := Step(k, d);
      hostile := false;
      if board[n.x, n.y].kind == Throne {
        hostile := true;
      } else if board[n.x, n.y].piece.Some? {
        if board[k.x, k.y].piece.value.user != board[n.x, n.y].piece.value.user {
          hostile := true;
        }
      }
    }

    /** kingCapture: a king hostile on all four sides is removed and the attacker wins; a side
        on the board edge is never checked and so never hostile. */
    method KingCapture(k: Pos) returns (fell: bool)
      requires Valid() && InBounds(k) && HasPiece(cells, k)
      modifies this, board
      ensures Valid()
      ensures Outcome(cells, status, if fell then {k} else {}) == KingCaptureOutcome(old(cells), old(status), k)
    {
      var above, below, left, right := false, false, false, false;
      if k.y != 0 {
        above := KingCheck(k, Above);
      }
      if k.y != 10 {
        below := KingCheck(k, Below);
      }
      if k.x != 0 {
        left := KingCheck(k, Left);
      }
      if k.x != 10 {
        right := KingCheck(k, Right);
      }
      if above && below && left && right {
        RemovePieceAt(k);
        status := AttackerWin;
        return true;
      }
      return false;
    }

    /** One block of capture: take the neighbour in direction d if the guard holds and it is
        capturable; a king neighbour is taken only through kingCapture. */
    method CaptureToward(p: Pos, d: Dir) returns (taken: set<Pos>)
      requires Valid() && InBounds(p) && HasPiece(cells, p)
      modifies this, board
      ensures Valid()
      ensures Outcome(cells, status, taken) == CaptureStep(old(cells), old(status), p, d)
    {
      taken := {};
      if CaptureGuard(p, d) {
        var ok := IsCapturable(p, d);
        if ok {
          var n := Step(p, d);
          if board[n.x, n.y].piece.value.isKing {
            var fell := KingCapture(n);
            if fell {
              taken := {n};
            }
          } else {
            taken := {n};
            RemovePieceAt(n);
          }
        }
      }
    }

    /** capture: the blocks above, below, left and right, in that order, each seeing the removals
        of the ones before. */
    method Capture(p: Pos) returns (captured: set<Pos>)
      requires Valid() && InBounds(p) && HasPiece(cells, p)
      modifies this, board
      ensures Valid()
      ensures Outcome(cells, status, captured) == CaptureOutcome(old(cells), old(status), p)
    {
      var a := CaptureToward(p, Above);
      var b := CaptureToward(p, Below);
      var l := CaptureToward(p, Left);
      var r := CaptureToward(p, Right);
      captured := a + b + l + r;
    }

    /** makeMove: move the piece without any validation, then either the king reaches a goal
        and the defender wins, or a non-king mover captures. */
    method MakeMove(from: Pos, to: Pos) returns (captured: set<Pos>)
      requires Valid() && InBounds(from) && InBounds(to) && HasPiece(cells, from)
      modifies this, board
      ensures Valid()
      ensures Outcome(cells, status, captured) == MoveOutcome(old(cells), old(status), from, to)
    {
      captured := {};
      var toMove := board[from.x, from.y].piece.value;
      RemovePieceAt(from);
      SetPieceAt(to, toMove);
      if toMove.isKing && board[to.x, to.y].kind == Goal {
        status := DefenderWin;
      } else if !toMove.isKing {
        captured := Capture(to);
      }
    }

    /** equals: two matches are equal when they have the same attacker and the same defender. */
    predicate Equals(other: Match) {
      other.attacker == attacker && other.defender == defender
    }
  }

  /** equals is an equivalence that ignores the board and the status. */
  lemma EqualsIsEquivalence(a: Match, b: Match, c: Match)
    ensures a.Equals(a)
    ensures a.Equals(b) ==> b.Equals(a)
    ensures a.Equals(b) && b.Equals(c) ==> a.Equals(c)
  {
  }
}
