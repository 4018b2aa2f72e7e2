/** The second set of move helpers, declared in game/game.go: the same validity test and
    parser, and a total ResolveRound with no error path. Go cannot compile this file
    beside game/round.go (both declare Move, IsValidMove and ParseMove in one package), so
    the model keeps the two apart and relates them. */
module GameMoves {
  import opened Wrappers
  import Rounds

  type Move = string

  const Rock: Move := "rock"
  const Paper: Move := "paper"
  const Scissors: Move := "scissors"

  predicate IsValidMove(m: Move) {
    m == Rock || m == Paper || m == Scissors
  }

  /** Parses like Rounds.ParseMove, with the offending text in the error message. */
  function ParseMove(s: string): (r: Returned<Move>)
    ensures r.err.None? <==> Rounds.IsValidMove(s)
    ensures r.err.None? ==> r.value == s
    ensures r.err.Some? ==> r.value == "" && r.err.value == "invalid move: " + s
  {
    var move: Move := s;
    if !IsValidMove(move) then Returned("", Some("invalid move: " + s)) else Returned(move, None)
  }

  /** Total resolution: equal strings draw, even invalid ones; the three winning pairs give
      "p1"; every other pair, including pairs holding an invalid move, gives "p2". */
  function ResolveRound(p1: Move, p2: Move): (r: string)
    ensures r in {Rounds.Draw, Rounds.P1Wins, Rounds.P2Wins}
    ensures r == Rounds.Draw <==> p1 == p2
    ensures r == Rounds.P1Wins <==> Rounds.IsValidMove(p1) && Rounds.IsValidMove(p2) && Rounds.Beats(p1, p2)
  {
    if p1 == p2 then
      "draw"
    else if (p1 == Rock && p2 == Scissors) || (p1 == Paper && p2 == Rock) || (p1 == Scissors && p2 == Paper) then
      "p1"
    else
      "p2"
  }

  /** Both files accept the same three tokens. */
  lemma SameValidMoves(m: Move)
    ensures IsValidMove(m) <==> Rounds.IsValidMove(m)
  {
  }

  /** Both parsers succeed on the same inputs and return the same move. */
  lemma ParseMoveAgrees(s: string)
    ensures ParseMove(s).err.None? <==> Rounds.ParseMove(s).err.None?
    ensures ParseMove(s).value == Rounds.ParseMove(s).value
  {
  }

  /** On two valid moves the total resolution is the successful result of the checked one. */
  lemma ResolveRoundAgrees(p1: Move, p2: Move)
    requires Rounds.IsValidMove(p1) && Rounds.IsValidMove(p2)
    ensures Rounds.ResolveRound(p1, p2) == Returned(ResolveRound(p1, p2), None)
  {
  }

  /** Where the two differ: an invalid pair is an error there and an outcome here. */
  lemma InvalidPairsResolve()
    ensures ResolveRound("lizard", "lizard") == Rounds.Draw
    ensures ResolveRound("lizard", Rock) == Rounds.P2Wins
    ensures ResolveRound(Rock, "lizard") == Rounds.P2Wins
    ensures Rounds.ResolveRound("lizard", "lizard").err.Some?
  {
  }
}
