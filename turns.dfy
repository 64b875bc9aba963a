/** The turn and outcome state machine of a match. */
module Turns {

  datatype Status = AttackerTurn | DefenderTurn | AttackerWin | DefenderWin

  /** isOver: the match is over once the status is no longer one of the two turn states. */
  predicate IsOver(s: Status)
    ensures IsOver(s) <==> s == AttackerWin || s == DefenderWin
  {
    !(s == AttackerTurn || s == DefenderTurn)
  }

  /** getCurrentPlayer: the attacker during the attacker's turn, the defender in every other state. */
  function CurrentPlayer(s: Status, attacker: int, defender: int): (p: int)
    ensures s == AttackerTurn ==> p == attacker
    ensures s != AttackerTurn ==> p == defender
  {
    if s == AttackerTurn then attacker else defender
  }

  /** The status swapTurn leaves behind: always a turn state, the defender's exactly when it was the attacker's. */
  function NextTurn(s: Status): (r: Status)
    ensures !IsOver(r)
    ensures r == DefenderTurn <==> s == AttackerTurn
  {
    if s == AttackerTurn then DefenderTurn else AttackerTurn
  }

  /** During play, swapping hands the move to the other side, and swapping twice restores the turn. */
  lemma TurnsAlternate(s: Status, attacker: int, defender: int)
    requires !IsOver(s)
    ensures NextTurn(s) != s && NextTurn(NextTurn(s)) == s
    ensures attacker != defender ==>
      CurrentPlayer(NextTurn(s), attacker, defender) != CurrentPlayer(s, attacker, defender)
  {
  }

  /** swapTurn does not guard the terminal states: a finished match is put back on the attacker's turn. */
  lemma SwapReopensFinishedMatch(s: Status)
    requires IsOver(s)
    ensures NextTurn(s) == AttackerTurn && !IsOver(NextTurn(s))
  {
  }
}
