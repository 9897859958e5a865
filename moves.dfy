/**
 * The moves of rock-paper-scissors with a bomb, how a raw word names one,
 * and who wins a round (`resolve_round`).
 */
module Moves {

  datatype Option<T> = None | Some(value: T)

  datatype Move = Rock | Paper | Scissors | Bomb

  /** The two sides of the game, the keys `"user"` and `"bot"` of the state's maps. */
  datatype Player = User | Bot

  /** The result of a round: `"user"`, `"bot"` or `"draw"`. */
  datatype Outcome = Win(winner: Player) | Draw

  function Opponent(p: Player): Player {
    match p
    case User => Bot
    case Bot => User
  }

  /** The outcome seen from the other side: the winner and the loser trade places. */
  function Swap(o: Outcome): Outcome {
    match o
    case Win(p) => Win(Opponent(p))
    case Draw => Draw
  }

  /** The word the source uses for a move. */
  function Name(m: Move): string {
    match m
    case Rock => "rock"
    case Paper => "paper"
    case Scissors => "scissors"
    case Bomb => "bomb"
  }

  /** Membership of a normalised word in `{"rock", "paper", "scissors", "bomb"}`, and which move it names. */
  function ParseMove(w: string): (r: Option<Move>)
    ensures r.Some? ==> Name(r.value) == w
    ensures r.None? ==> forall m :: Name(m) != w
  {
    if w == "rock" then Some(Rock)
    else if w == "paper" then Some(Paper)
    else if w == "scissors" then Some(Scissors)
    else if w == "bomb" then Some(Bomb)
    else None
  }

  /** Each move's word parses back to that move. */
  lemma ParseName(m: Move)
    ensures ParseMove(Name(m)) == Some(m)
  {
  }

  /** The table `wins_against`: the one move each of rock, paper and scissors beats. */
  function WinsAgainst(m: Move): (r: Move)
    requires m != Bomb
    ensures r != Bomb && Beats(m, r)
    ensures forall y :: Beats(m, y) ==> y == r
  {
    match m
    case Rock => Scissors
    case Scissors => Paper
    case Paper => Rock
  }

  /**
   * The rules of the game as a relation: the bomb beats every other move, and
   * rock beats scissors, scissors beats paper, paper beats rock.
   */
  predicate Beats(x: Move, y: Move) {
    || (x == Bomb && y != Bomb)
    || (x, y) == (Rock, Scissors)
    || (x, y) == (Scissors, Paper)
    || (x, y) == (Paper, Rock)
  }

  /** Who wins a round in which the user plays `u` and the bot plays `b`. */
  function Resolve(u: Move, b: Move): (r: Outcome)
    ensures r == Draw <==> u == b
    ensures r == Win(User) <==> Beats(u, b)
    ensures r == Win(Bot) <==> Beats(b, u)
    ensures u == Bomb && b != Bomb ==> r == Win(User)
    ensures b == Bomb && u != Bomb ==> r == Win(Bot)
  {
    if u == b then Draw
    else if u == Bomb then Win(User)
    else if b == Bomb then Win(Bot)
    else if WinsAgainst(u) == b then Win(User)
    else Win(Bot)
  }

  /** `Beats` is a tournament: between two different moves exactly one beats the other, and no move beats itself. */
  lemma BeatsTournament(x: Move, y: Move)
    ensures !Beats(x, x)
    ensures x != y ==> (Beats(x, y) <==> !Beats(y, x))
  {
  }

  /** Swapping the two moves swaps the winner. */
  lemma ResolveSwap(u: Move, b: Move)
    ensures Resolve(b, u) == Swap(Resolve(u, b))
  {
  }

  /**
   * Between two different plain moves the round is never drawn, and exactly
   * one of the two is the move `wins_against` names for the other.
   */
  lemma ResolveCycle(u: Move, b: Move)
    requires u != Bomb && b != Bomb && u != b
    ensures Resolve(u, b) != Draw
    ensures WinsAgainst(u) == b <==> WinsAgainst(b) != u
  {
  }

  /** Rock beats scissors, scissors beats paper, paper beats rock, from either seat. */
  lemma CyclicLaw()
    ensures Resolve(Rock, Scissors) == Win(User) && Resolve(Scissors, Rock) == Win(Bot)
    ensures Resolve(Scissors, Paper) == Win(User) && Resolve(Paper, Scissors) == Win(Bot)
    ensures Resolve(Paper, Rock) == Win(User) && Resolve(Rock, Paper) == Win(Bot)
  {
  }

  /** A move against itself is a draw, the bomb included. */
  lemma ResolveSame(m: Move)
    ensures Resolve(m, m) == Draw
  {
  }
}
