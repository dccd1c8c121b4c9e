/** The two parties of a Kalah game and the sentinel used when neither applies. */
module Players {

  /** Machine and Human play; None stands for "no player" (an unknown or undetermined player). */
  datatype Player = Machine | Human | None

  /** The other party of a two-player game; the sentinel has no opponent but itself. */
  function Opponent(p: Player): (r: Player)
    ensures p == Human <==> r == Machine
    ensures p == Machine <==> r == Human
    ensures p == None <==> r == None
  {
    match p
    case Human => Machine
    case Machine => Human
    case None => None
  }

  /** Taking the opponent twice gives back the player. */
  lemma OpponentInvolution(p: Player)
    ensures Opponent(Opponent(p)) == p
  {
  }

  /** No real player is its own opponent. */
  lemma OpponentOfPlayerDiffers(p: Player)
    requires p != None
    ensures Opponent(p) != p
  {
  }
}
