/** Pieces, tiles and the 11×11 grid of a Tafl board, as values. */
module Tiles {

  /** The board is Size × Size; the source hard-codes the last index, 10. */
  const Size: int := 11

  datatype Option<T> = None | Some(value: T)

  /** Black pieces belong to the attacker, White pieces (and the king) to the defender. */
  datatype Color = Black | White

  datatype TileType = Normal | Throne | Goal

  /** A piece: its faction colour, whether it is the king, and the id of the player who owns it. */
  datatype Piece = Piece(color: Color, isKing: bool, user: int)

  /** A board cell: its fixed type and the piece standing on it, if any. */
  datatype Tile = Tile(kind: TileType, piece: Option<Piece>)

  /** Board coordinates; the board is indexed tiles[x][y]. */
  datatype Pos = Pos(x: int, y: int)

  /** The four scan directions: Above and Below change y, Left and Right change x. */
  datatype Dir = Above | Below | Left | Right

  /** The board as a value: column x, row y is g[x][y]. */
  type Grid = seq<seq<Tile>>

  predicate InBounds(p: Pos) {
    0 <= p.x < Size && 0 <= p.y < Size
  }

  predicate WellFormed(g: Grid) {
    |g| == Size && forall i :: 0 <= i < Size ==> |g[i]| == Size
  }

  function At(g: Grid, p: Pos): Tile
    requires WellFormed(g) && InBounds(p)
  {
    g[p.x][p.y]
  }

  predicate HasPiece(g: Grid, p: Pos)
    requires WellFormed(g) && InBounds(p)
  {
    At(g, p).piece.Some?
  }

  function PieceAt(g: Grid, p: Pos): Piece
    requires WellFormed(g) && InBounds(p) && HasPiece(g, p)
  {
    At(g, p).piece.value
  }

  /** A tile a sliding piece may land on or pass over: empty and not the throne. */
  predicate Open(t: Tile) {
    t.piece.None? && t.kind != Throne
  }

  /** The same tile with its piece taken away (Tile.removePiece). */
  function Emptied(t: Tile): Tile {
    Tile(t.kind, None)
  }

  /** The grid with the tile at p replaced by t. */
  function Put(g: Grid, p: Pos, t: Tile): (r: Grid)
    requires WellFormed(g) && InBounds(p)
    ensures WellFormed(r) && At(r, p) == t
    ensures forall q :: InBounds(q) && q != p ==> At(r, q) == At(g, q)
  {
    g[p.x := g[p.x][p.y := t]]
  }

  /** The grid after removing the piece on p. */
  function RemovePiece(g: Grid, p: Pos): Grid
    requires WellFormed(g) && InBounds(p)
  {
    Put(g, p, Emptied(At(g, p)))
  }

  /** The grid after standing `piece` on p, which keeps its tile type (Tile.setPiece). */
  function PlacePiece(g: Grid, p: Pos, piece: Piece): Grid
    requires WellFormed(g) && InBounds(p)
  {
    Put(g, p, Tile(At(g, p).kind, Some(piece)))
  }

  /** The neighbour of p one step in direction d. */
  function Step(p: Pos, d: Dir): Pos {
    match d
    case Above => Pos(p.x, p.y - 1)
    case Below => Pos(p.x, p.y + 1)
    case Left => Pos(p.x - 1, p.y)
    case Right => Pos(p.x + 1, p.y)
  }

  /** The tile k steps from p in direction d. */
  function Walk(p: Pos, d: Dir, k: int): Pos {
    match d
    case Above => Pos(p.x, p.y - k)
    case Below => Pos(p.x, p.y + k)
    case Left => Pos(p.x - k, p.y)
    case Right => Pos(p.x + k, p.y)
  }

  /** The four orthogonal neighbours of p. */
  function Neighbours(p: Pos): set<Pos> {
    {Step(p, Above), Step(p, Below), Step(p, Left), Step(p, Right)}
  }
}
