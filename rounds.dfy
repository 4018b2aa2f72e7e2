/** Moves and the resolution of one round, as defined in game/round.go: the variant of
    ResolveRound that reports invalid moves as an error. */
module Rounds {
  import opened Wrappers

  /** A move is any string (Go's `type Move string`); only three of them are valid. */
  type Move = string

  const Rock: Move := "rock"
  const Paper: Move := "paper"
  const Scissors: Move := "scissors"

  /** The outcomes ResolveRound reports. */
  const Draw := "draw"
  const P1Wins := "p1"
  const P2Wins := "p2"

  /** The error message both ParseMove and ResolveRound report. */
  const InvalidMoveError := "invalid move"

  /** A round of a game. The model reads and writes only the two move slots; the
      timestamps are integers. */
  datatype Round = Round(p1: Move, p2: Move, winner: string, createdAt: int, updatedAt: int)

  predicate IsValidMove(m: Move) {
    m == Rock || m == Paper || m == Scissors
  }

  /** An independent description of the valid moves: the three tokens, numbered 0 to 2 in
      the cyclic order in which each one beats the one before it. */
  function Token(k: nat): (m: Move)
    requires k < 3
  {
    if k == 0 then "rock" else if k == 1 then "paper" else "scissors"
  }

  function Rank(m: Move): (k: nat)
    requires IsValidMove(m)
    ensures k < 3 && Token(k) == m
  {
    if m == Rock then 0 else if m == Paper then 1 else 2
  }

  /** Reference rule of the game: a move beats the move ranked one below it, cyclically. */
  predicate Beats(a: Move, b: Move)
    requires IsValidMove(a) && IsValidMove(b)
  {
    (Rank(a) - Rank(b)) % 3 == 1
  }

  /** The valid moves are exactly the three numbered tokens. */
  lemma ValidMovesAreTokens(m: Move)
    ensures IsValidMove(m) <==> exists k: nat :: k < 3 && Token(k) == m
  {
    if IsValidMove(m) {
      assert Token(Rank(m)) == m;
    }
  }

  /** Exactly one of two distinct valid moves beats the other; no move beats itself. */
  lemma BeatsIsATournament(a: Move, b: Move)
    requires IsValidMove(a) && IsValidMove(b)
    ensures !Beats(a, a)
    ensures a != b ==> (Beats(a, b) <==> !Beats(b, a))
  {
  }

  /** Parses a client's text: exact token match, no trimming and no case folding. */
  function ParseMove(s: string): (r: Returned<Move>)
    ensures r.err.None? <==> IsValidMove(s)
    ensures r.err.None? ==> r.value == s
    ensures r.err.Some? ==> r.value == "" && r.err.value == InvalidMoveError
  {
    var move: Move := s;
    if !IsValidMove(move) then Returned("", Some(InvalidMoveError)) else Returned(move, None)
  }

  /** Resolves a round: an error when either move is invalid, otherwise the outcome given
      by the reference rule Beats. */
  function ResolveRound(p1: Move, p2: Move): (r: Returned<string>)
    ensures r.err.Some? <==> !IsValidMove(p1) || !IsValidMove(p2)
    ensures r.err.Some? ==> r.value == "" && r.err.value == InvalidMoveError
    ensures r.err.None? ==> r.value in {Draw, P1Wins, P2Wins}
    ensures r.err.None? ==> (r.value == Draw <==> p1 == p2)
    ensures r.err.None? ==> (r.value == P1Wins <==> Beats(p1, p2))
    ensures r.err.None? ==> (r.value == P2Wins <==> Beats(p2, p1))
  {
    if !IsValidMove(p1) || !IsValidMove(p2) then
      Returned("", Some(InvalidMoveError))
    else if p1 == p2 then
      Returned(Draw, None)
    else if (p1 == Rock && p2 == Scissors) || (p1 == Paper && p2 == Rock) || (p1 == Scissors && p2 == Paper) then
      Returned(P1Wins, None)
    else
      Returned(P2Wins, None)
  }

  /** The nine valid pairs, as the table in game/round_test.go lists them. */
  lemma WinTable()
    ensures ResolveRound(Rock, Rock) == Returned(Draw, None)
    ensures ResolveRound(Paper, Paper) == Returned(Draw, None)
    ensures ResolveRound(Scissors, Scissors) == Returned(Draw, None)
    ensures ResolveRound(Rock, Scissors) == Returned(P1Wins, None)
    ensures ResolveRound(Paper, Rock) == Returned(P1Wins, None)
    ensures ResolveRound(Scissors, Paper) == Returned(P1Wins, None)
    ensures ResolveRound(Rock, Paper) == Returned(P2Wins, None)
    ensures ResolveRound(Paper, Scissors) == Returned(P2Wins, None)
    ensures ResolveRound(Scissors, Rock) == Returned(P2Wins, None)
  {
  }

  /** Swapping the players keeps a draw a draw and exchanges the winner. */
  lemma ResolveRoundSwap(a: Move, b: Move)
    requires IsValidMove(a) && IsValidMove(b)
    ensures ResolveRound(a, b).err.None? && ResolveRound(b, a).err.None?
    ensures ResolveRound(a, b).value == Draw <==> ResolveRound(b, a).value == Draw
    ensures a != b ==> (ResolveRound(a, b).value == P1Wins <==> ResolveRound(b, a).value == P2Wins)
  {
    BeatsIsATournament(a, b);
  }

  /** Parsing accepts the three tokens unchanged and nothing that merely resembles them. */
  lemma ParseMoveExamples()
    ensures ParseMove("rock") == Returned(Rock, None)
    ensures ParseMove("paper") == Returned(Paper, None)
    ensures ParseMove("scissors") == Returned(Scissors, None)
    ensures ParseMove("lizard").err.Some? && ParseMove("").err.Some?
    ensures ParseMove("Rock").err.Some? && ParseMove(" rock").err.Some?
  {
  }
}
