# Tafl match rules engine in Dafny

This project models the rules engine of a Tafl (Hnefatafl-style) game, the `Match` class of
`src/main/java/common/game/Match.java`. A match holds an 11×11 board of tiles, two player ids
(attacker and defender) and a status: attacker's turn, defender's turn, attacker won or
defender won. The model covers the turn and outcome state machine, rook-like move generation,
move validation, move execution with custodian capture, and king capture.

Modules:

- `Tiles` (tiles.dfy): pieces (colour, king flag, owning user id), tiles (type NORMAL, THRONE
  or GOAL, plus an optional piece), coordinates and directions, and the board as a value
  `Grid` (`g[x][y]`).
- `Turns` (turns.dfy): the status, `isOver`, `getCurrentPlayer` and the status that
  `swapTurn` leaves behind.
- `Movement` (movement.dfy): the scans of `getAvaiableMoves` as functions (`Ray`, `Moves`).
  `Reachable` is an independent reference definition of a legal slide, and the scans are
  proved sound and complete against it. `ValidMove` is the reference for `isValidMove`.
- `Capturing` (capturing.dfy): the four capture blocks, the capturable checks, king capture
  and the whole effect of a move, as functions on `Grid`. Lemmas about them:
  - the four blocks, run one after the other, act exactly as if each direction were judged
    on the board as it stood before any removal;
  - a move removes only enemy neighbours of the landing tile;
  - the status only ever moves to a win;
  - a king on an edge can never be captured;
  - capture is symmetric when the two sides are exchanged.
- `Game` (game.dfy): `class Match` over an `array2<Tile>`, with `swapTurn`,
  `getAvaiableMoves`, `isValidMove`, `makeMove`, `capture`, the capturable and king checks
  and `equals` as members; `isOver` and `getCurrentPlayer` are the `Turns` functions applied
  to `status`. A ghost field `cells` mirrors the array (`Valid()`). Every
  state-changing method is specified by the pure function it implements:
  `MakeMove` by `MoveOutcome`, `Capture` by `CaptureOutcome`, `KingCapture` by
  `KingCaptureOutcome`. The getAvaiableMoves scan is a `while` loop with `break`, proved
  equal to `Ray`.

The source's behaviour is kept as written, including these points:

- Capture compares the owner's user id, not the colour.
- `swapTurn` puts both win states back on the attacker's turn.
- `isValidMove` only checks the side to move during the two turn states. Once the match is
  over, any reachable move is still accepted, because the code has no check for the win
  states. The model follows the code.
- A king on the board edge is never captured, because the missing side is never hostile; an
  ordinary capture simply skips a direction with no tile two steps away. The model follows
  the code.
- Goal tiles can be landed on by any piece.
- `makeMove` validates nothing. Its only precondition is that the source tile holds a piece.

## Model

| member | source | states |
|---|---|---|
| Turns.IsOver | src/main/java/common/game/Match.java:37-39 | the match is over exactly in the two win states |
| Turns.CurrentPlayer | src/main/java/common/game/Match.java:42-48 | the attacker during the attacker's turn, the defender in every other status, the win states included |
| Turns.NextTurn | src/main/java/common/game/Match.java:51-57 | after a swap the match is never over, and it is the defender's turn exactly when it was the attacker's |
| Turns.TurnsAlternate | src/main/java/common/game/Match.java:51-57 | during play a swap changes the status, two swaps restore it, and with distinct ids the current player changes |
| Turns.SwapReopensFinishedMatch | src/main/java/common/game/Match.java:51-57 | swapping in a finished match puts it back on the attacker's turn |
| Game.Match.constructor | src/main/java/common/game/Match.java:13-19 | a new match stores both ids, holds the given board and starts on the attacker's turn |
| Game.Match.SwapTurn | src/main/java/common/game/Match.java:51-57 | the status becomes `NextTurn` of the old status; the board and the ids are unchanged |
| Movement.RayExact | src/main/java/common/game/Match.java:72-110 | one scan lists exactly the open tiles beyond the piece in its direction with every tile before them open |
| Movement.RayNearToFar | src/main/java/common/game/Match.java:72-110 | one scan lists its tiles from nearest to farthest: the k-th is k+1 steps away |
| Movement.MovesExact | src/main/java/common/game/Match.java:64-113 | an empty tile has no moves; an occupied one has exactly the reachable tiles: same row or column, not the source, not occupied, not the throne, nothing in the way |
| Movement.ThroneNeverReachable | src/main/java/common/game/Match.java:75 | the throne tile is never among the available moves |
| Movement.MovesIgnoreMover | src/main/java/common/game/Match.java:64-113 | the moves from a tile do not depend on which piece stands on it, so goal tiles are open to every piece |
| Movement.SideCheckByStatus | src/main/java/common/game/Match.java:124-129 | White may not move on the attacker's turn, Black may not move on the defender's turn, and nothing is rejected after a win |
| Game.Match.ScanRay | src/main/java/common/game/Match.java:72-80 | the `while` scan with `break` returns exactly the scan `Ray` and hence exactly the open, unobstructed tiles in that direction |
| Game.Match.AvailableMoves | src/main/java/common/game/Match.java:64-113 | returns `Moves` (left, right, above, below scans in order), empty for an empty tile, and a tile is listed iff it is reachable |
| Game.Match.IsValidMove | src/main/java/common/game/Match.java:122-137 | true iff the side check passes and the target is reachable; false for a White piece on the attacker's turn or a Black piece on the defender's turn; a valid target is on the board, empty and not the throne |
| Game.Match.RemovePieceAt | src/main/java/common/game/Match.java:150 | empties the tile's piece, keeps its type, changes nothing else |
| Game.Match.SetPieceAt | src/main/java/common/game/Match.java:151 | stands the piece on the tile, keeps its type, changes nothing else |
| Capturing.CaptureGuard | src/main/java/common/game/Match.java:177-231 | the guards y > 1, y < 9, x > 1, x < 9 hold exactly when the tile two steps away is on the board |
| Capturing.KingGuard | src/main/java/common/game/Match.java:375-378 | the guards y != 0, y != 10, x != 0, x != 10 hold exactly when the king's neighbour is on the board |
| Game.Match.IsCapturable | src/main/java/common/game/Match.java:256-357 | the nested checks agree with `Capturable`: the neighbour holds another user's piece, and the tile beyond holds a non-king piece of the mover's user |
| Game.Match.KingCheck | src/main/java/common/game/Match.java:392-477 | the neighbour is hostile to the king iff it is the throne or holds a piece of another user |
| Capturing.KingSurroundedIff | src/main/java/common/game/Match.java:366-385 | the king is captured iff it is off every edge and all four neighbours are the throne or hold another user's piece |
| Game.Match.KingCapture | src/main/java/common/game/Match.java:366-385 | a surrounded king is removed and the attacker wins; otherwise nothing changes and it reports failure |
| Capturing.CaptureStep | src/main/java/common/game/Match.java:177-193 | a capture block never changes the capturer's own tile |
| Game.Match.CaptureToward | src/main/java/common/game/Match.java:177-193 | one block: under its guard, a capturable non-king neighbour is removed and reported, and a capturable king goes through king capture |
| Game.Match.Capture | src/main/java/common/game/Match.java:171-249 | the four blocks in source order, with the union of what they took |
| Capturing.CaptureIsSimultaneous | src/main/java/common/game/Match.java:171-249 | sequential capture takes only neighbours, and takes a neighbour iff its direction takes it on the board before any removal; exactly those tiles are emptied, nothing else changes, and the attacker wins iff the king is among them |
| Capturing.CaptureSymmetric | src/main/java/common/game/Match.java:171-357 | exchanging the two players' pieces and colours leaves the captured tiles and the resulting status unchanged |
| Game.Match.MakeMove | src/main/java/common/game/Match.java:147-162 | moves the piece without validation, then a king on a goal wins for the defender, or a non-king mover captures; the new board, status and result are those of `MoveOutcome` |
| Capturing.MoveEffects | src/main/java/common/game/Match.java:147-162 | the source tile is emptied and the mover stands on the target; a king captures nothing; every captured tile is a neighbour of the target that held another user's piece and is now empty; nothing else changes and no tile changes type |
| Capturing.MoveStatus | src/main/java/common/game/Match.java:147-162 | a king reaching a goal makes it DEFENDER_WIN with nothing captured; a king elsewhere leaves the status; a non-king mover makes it ATTACKER_WIN iff it captured the king, else leaves it |
| Capturing.MoveStatusTransitions | src/main/java/common/game/Match.java:147-162 | a move changes the status only to a win, and a new defender win needs the king on a goal tile |
| Game.EqualsIsEquivalence | src/main/java/common/game/Match.java:480-482 | equality by attacker and defender ids is reflexive, symmetric and transitive |

## Left out

- The starting formation (`Board` construction and `initialize`): the constructor takes the
  board layout as a parameter. Board.java, Tile.java and Piece.java are not part of this model;
  tiles, pieces and the board are minimal stand-ins with the fields the rules read.
- Tile identity and the `ArrayList`/`HashSet` containers: tiles are coordinates, moves a
  sequence of coordinates and captured tiles a set.
- The getters `getBoard`, `getAttacker`, `getDefender` and `getStatus` are plain field reads
  of the class; `Serializable` has no counterpart.
- `equals` on an object that is not a `Match` (always false in the source): `Equals` takes a `Match`.
- The profile event wrapper (SendProfileEvent) is messaging glue and is not part of this model.
- `isValidMove` with a target tile outside the board: the source can only be given tiles of
  the board, and the model simply answers false for such a target.
