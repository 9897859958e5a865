/**
 * The referee's rules over the game state as a value: validating a move,
 * choosing the bot's move, applying a round to the state, the final verdict,
 * and one whole turn of the referee, together with what they guarantee over
 * any number of turns.
 */
module Game {
  import opened Text
  import opened Moves

  /**
   * The game memory of `initialize_game_state`: the round about to be played
   * (1-based), the number of rounds, each side's wins and whether each side
   * has used its bomb.
   */
  datatype State = State(
    round: nat,
    maxRounds: nat,
    userScore: nat,
    botScore: nat,
    userBomb: bool,
    botBomb: bool)

  function Score(s: State, p: Player): nat {
    match p
    case User => s.userScore
    case Bot => s.botScore
  }

  function BombUsed(s: State, p: Player): bool {
    match p
    case User => s.userBomb
    case Bot => s.botBomb
  }

  /** The state a new game starts in: round 1 of 3, no wins, both bombs unused. */
  function Initial(): (s: State)
    ensures s.round == 1 && s.maxRounds == 3
    ensures forall p :: Score(s, p) == 0 && !BombUsed(s, p)
  {
    State(1, 3, 0, 0, false, false)
  }

  /**
   * What holds of every state a game passes through: the round counter stays
   * within one past the last round, and each win was won in a round already
   * played.
   */
  predicate Inv(s: State) {
    && 1 <= s.round <= s.maxRounds + 1
    && s.userScore + s.botScore <= s.round - 1
  }

  /** The game is over once the round counter has passed the last round. */
  predicate Finished(s: State) {
    s.round > s.maxRounds
  }

  lemma InitialInv()
    ensures Inv(Initial()) && !Finished(Initial())
  {
  }

  // ----- validate_move -----

  datatype Reason = InvalidInput | BombAlreadyUsed

  /** The answer of `validate_move`: the accepted move, or why the raw input was refused. */
  datatype Validation = Accepted(move: Move) | Rejected(reason: Reason)

  /**
   * Checks a raw move for `player`: normalised, it must name one of the four
   * moves, and it may be the bomb only while `player` still has theirs.
   */
  function ValidateMove(raw: string, player: Player, s: State): (v: Validation)
    ensures v.Accepted? ==> Name(v.move) == Normalise(raw)
    ensures v.Accepted? <==> ParseMove(Normalise(raw)).Some? && !(ParseMove(Normalise(raw)) == Some(Bomb) && BombUsed(s, player))
    ensures v == Rejected(InvalidInput) <==> ParseMove(Normalise(raw)) == None
    ensures v == Rejected(BombAlreadyUsed) <==> ParseMove(Normalise(raw)) == Some(Bomb) && BombUsed(s, player)
  {
    var w := Normalise(raw);
    match ParseMove(w)
    case None => Rejected(InvalidInput)
    case Some(m) =>
      if m == Bomb && BombUsed(s, player) then Rejected(BombAlreadyUsed) else Accepted(m)
  }

  /** Validation sees only the normal form: case and surrounding whitespace do not matter. */
  lemma ValidateNormalised(raw: string, player: Player, s: State)
    ensures ValidateMove(raw, player, s) == ValidateMove(Normalise(raw), player, s)
    ensures ValidateMove(Lower(raw), player, s) == ValidateMove(raw, player, s)
  {
    NormaliseIdempotent(raw);
    NormaliseIgnoresCase(raw);
  }

  /** Padding a raw move with whitespace does not change whether and how it is accepted. */
  lemma ValidatePadded(a: string, raw: string, b: string, player: Player, s: State)
    requires AllSpace(a) && AllSpace(b)
    ensures ValidateMove(a + raw + b, player, s) == ValidateMove(raw, player, s)
  {
    NormalisePadded(a, raw, b);
  }

  /** Every move's own word is accepted, unless it is a bomb already used. */
  lemma ValidateName(m: Move, player: Player, s: State)
    ensures ValidateMove(Name(m), player, s) ==
      if m == Bomb && BombUsed(s, player) then Rejected(BombAlreadyUsed) else Accepted(m)
  {
    NameNormal(m);
    ParseName(m);
  }

  /** A move's own word is already in normal form. */
  lemma NameNormal(m: Move)
    ensures Normalise(Name(m)) == Name(m)
  {
    NormalFormFixed(Name(m));
  }

  // ----- get_bot_move -----

  /** An index into `["rock", "paper", "scissors"]`, as `random.choice` picks one. */
  type Pick = i: int | 0 <= i < 3

  const Plain: seq<Move> := [Rock, Paper, Scissors]

  /**
   * The bot's move. `roll` stands for the draw `random.random() < 0.15` and
   * `pick` for the draw of `random.choice`: the bot plays its bomb only while
   * it has it and the roll says so, and otherwise the picked plain move.
   */
  function BotMove(s: State, roll: bool, pick: Pick): (m: Move)
    ensures m == Bomb <==> !s.botBomb && roll
    ensures m != Bomb ==> m == Plain[pick]
  {
    if !s.botBomb && roll then Bomb else Plain[pick]
  }

  /** Every move the rules allow the bot is one it can draw: a plain move always, the bomb while unused. */
  lemma BotMoveReachable(s: State, m: Move)
    requires m == Bomb ==> !s.botBomb
    ensures exists roll: bool, pick: Pick :: BotMove(s, roll, pick) == m
  {
    match m
    case Bomb => assert BotMove(s, true, 0) == Bomb;
    case Rock => assert BotMove(s, false, 0) == Rock;
    case Paper => assert BotMove(s, false, 1) == Paper;
    case Scissors => assert BotMove(s, false, 2) == Scissors;
  }

  // ----- update_game_state -----

  /**
   * The state after a round: the bomb flag of each side that played its bomb
   * is set, the winner (if any) scores one, and the round counter advances.
   * A wasted round passes no user move (`user_move = ""`).
   */
  function Apply(s: State, result: Outcome, userMove: Option<Move>, botMove: Move): (t: State)
    ensures t.round == s.round + 1 && t.maxRounds == s.maxRounds
    ensures forall p :: Score(t, p) == Score(s, p) + (if result == Win(p) then 1 else 0)
    ensures t.userScore + t.botScore == s.userScore + s.botScore + (if result == Draw then 0 else 1)
    ensures t.userBomb <==> s.userBomb || userMove == Some(Bomb)
    ensures t.botBomb <==> s.botBomb || botMove == Bomb
  {
    var userBomb := s.userBomb || userMove == Some(Bomb);
    var botBomb := s.botBomb || botMove == Bomb;
    match result
    case Win(User) => State(s.round + 1, s.maxRounds, s.userScore + 1, s.botScore, userBomb, botBomb)
    case Win(Bot) => State(s.round + 1, s.maxRounds, s.userScore, s.botScore + 1, userBomb, botBomb)
    case Draw => State(s.round + 1, s.maxRounds, s.userScore, s.botScore, userBomb, botBomb)
  }

  /** A round never clears a bomb flag. */
  lemma ApplyBombsMonotone(s: State, result: Outcome, userMove: Option<Move>, botMove: Move, p: Player)
    requires BombUsed(s, p)
    ensures BombUsed(Apply(s, result, userMove, botMove), p)
  {
  }

  // ----- final_result -----

  /** The verdict of `final_result`: the side with more wins, or a draw on equal scores. */
  function FinalVerdict(s: State): (v: Outcome)
    ensures v == Win(User) <==> s.userScore > s.botScore
    ensures v == Win(Bot) <==> s.botScore > s.userScore
    ensures v == Draw <==> s.userScore == s.botScore
  {
    if s.userScore > s.botScore then Win(User)
    else if s.botScore > s.userScore then Win(Bot)
    else Draw
  }

  // ----- handle_turn -----

  /**
   * What `handle_turn` reports: the final verdict once the game is over, a
   * wasted round with the bot's move, or a played round with both moves, the
   * winner and the scores after it. Rounds are numbered from 1 out of
   * `maxRounds`.
   */
  datatype Report =
    | GameOver(verdict: Outcome)
    | Wasted(round: int, maxRounds: nat, botMove: Move)
    | Played(round: int, maxRounds: nat, userMove: Move, botMove: Move, result: Outcome, userScore: nat, botScore: nat)

  /** One turn of the referee: the new state and the report. */
  function Turn(s: State, input: string, roll: bool, pick: Pick): (res: (State, Report))
    // once over, the game stays over and repeats its verdict
    ensures Finished(s) ==> res == (s, GameOver(FinalVerdict(s)))
    // otherwise exactly one round is played, and reported under its own number
    ensures !Finished(s) ==> res.0.round == s.round + 1 && res.0.maxRounds == s.maxRounds
    ensures !Finished(s) ==> (res.1.Wasted? || res.1.Played?) && res.1.round == s.round
    ensures !Finished(s) ==> res.1.maxRounds == s.maxRounds
    // a wasted round is one whose input validation refuses; it scores nothing and spends no user bomb
    ensures !Finished(s) ==> (res.1.Wasted? <==> ValidateMove(input, User, s).Rejected?)
    ensures res.1.Wasted? ==>
      && res.0.userScore == s.userScore && res.0.botScore == s.botScore
      && res.0.userBomb == s.userBomb
      && res.0.botBomb == (s.botBomb || res.1.botMove == Bomb)
    ensures res.1.Wasted? ==> res.0 == Apply(s, Draw, None, res.1.botMove)
    // a played round is resolved from the accepted move and the bot's move
    ensures res.1.Played? ==>
      && ValidateMove(input, User, s) == Accepted(res.1.userMove)
      && res.1.result == Resolve(res.1.userMove, res.1.botMove)
      && res.1.userScore == res.0.userScore && res.1.botScore == res.0.botScore
    // and scores it: the winner gains one point, a draw changes no score, a bomb played is spent
    ensures res.1.Played? ==> res.0 == Apply(s, res.1.result, Some(res.1.userMove), res.1.botMove)
    ensures res.1.Played? ==>
      && res.0.userScore == s.userScore + (if res.1.result == Win(User) then 1 else 0)
      && res.0.botScore == s.botScore + (if res.1.result == Win(Bot) then 1 else 0)
      && res.0.userBomb == (s.userBomb || res.1.userMove == Bomb)
      && res.0.botBomb == (s.botBomb || res.1.botMove == Bomb)
    // the bot's move obeys the bomb rule, and the bomb flags never go back
    ensures (res.1.Wasted? || res.1.Played?) ==> res.1.botMove == BotMove(s, roll, pick)
    ensures forall p :: BombUsed(s, p) ==> BombUsed(res.0, p)
    ensures Inv(s) ==> Inv(res.0)
  {
    if Finished(s) then (s, GameOver(FinalVerdict(s)))
    else
      var validation := ValidateMove(input, User, s);
      var botMove := BotMove(s, roll, pick);
      if validation.Rejected? then
        var t := Apply(s, Draw, None, botMove);
        (t, Wasted(t.round - 1, t.maxRounds, botMove))
      else
        var userMove := validation.move;
        var result := Resolve(userMove, botMove);
        var t := Apply(s, result, Some(userMove), botMove);
        (t, Played(t.round - 1, t.maxRounds, userMove, botMove, result, t.userScore, t.botScore))
  }

  /** Calling the referee again after the end changes nothing and gives the same verdict, whatever the input. */
  lemma TurnAfterEnd(s: State, in1: string, roll1: bool, pick1: Pick, in2: string, roll2: bool, pick2: Pick)
    requires Finished(s)
    ensures Turn(s, in1, roll1, pick1) == Turn(s, in2, roll2, pick2)
    ensures Turn(Turn(s, in1, roll1, pick1).0, in2, roll2, pick2) == Turn(s, in1, roll1, pick1)
  {
  }

  /** An unreadable move wastes the round, and the bot's bomb may still go off in it. */
  lemma WastedRoundMaySpendBotBomb(s: State, input: string)
    requires !Finished(s) && !s.botBomb
    requires forall m :: Name(m) != Normalise(input)
    ensures Turn(s, input, true, 0).1 == Wasted(s.round, s.maxRounds, Bomb)
    ensures Turn(s, input, true, 0).0.botBomb
  {
  }

  // ----- any number of turns -----

  /** What the outside world feeds one turn: the raw line and the two random draws. */
  datatype TurnInput = TurnInput(text: string, roll: bool, pick: Pick)

  /** The referee driven by a sequence of turns: the final state and every report, in order. */
  function Run(s: State, turns: seq<TurnInput>): (res: (State, seq<Report>))
    ensures |res.1| == |turns|
    decreases |turns|
  {
    if turns == [] then (s, [])
    else
      var (t, report) := Turn(s, turns[0].text, turns[0].roll, turns[0].pick);
      var (u, reports) := Run(t, turns[1..]);
      (u, [report] + reports)
  }

  function Min(a: int, b: int): int {
    if a <= b then a else b
  }

  /**
   * After any number of turns the round counter has advanced once per turn
   * until it passed the last round, and at most one win was scored per
   * round played.
   */
  lemma {:induction false} RunRounds(s: State, turns: seq<TurnInput>)
    requires Inv(s)
    ensures Run(s, turns).0.round == Min(s.round + |turns|, s.maxRounds + 1)
    ensures Run(s, turns).0.maxRounds == s.maxRounds
    ensures Inv(Run(s, turns).0)
    decreases |turns|
  {
    if turns != [] {
      var t := Turn(s, turns[0].text, turns[0].roll, turns[0].pick).0;
      RunRounds(t, turns[1..]);
    }
  }

  /** From a new game, `n` turns leave the counter at `min(n, 3) + 1` and at most `n` wins on the board. */
  lemma RunFromStart(turns: seq<TurnInput>)
    ensures Run(Initial(), turns).0.round == Min(|turns|, 3) + 1
    ensures Run(Initial(), turns).0.userScore + Run(Initial(), turns).0.botScore <= |turns|
  {
    RunRounds(Initial(), turns);
  }

  /** Once the game is over, every further turn reports the same verdict and leaves the state alone. */
  lemma {:induction false} RunAfterEnd(s: State, turns: seq<TurnInput>)
    requires Finished(s)
    ensures Run(s, turns).0 == s
    ensures forall k :: 0 <= k < |turns| ==> Run(s, turns).1[k] == GameOver(FinalVerdict(s))
    decreases |turns|
  {
    if turns != [] {
      RunAfterEnd(s, turns[1..]);
    }
  }

  /** Once a side has used its bomb it stays used, for the rest of the game. */
  lemma {:induction false} RunKeepsBombs(s: State, turns: seq<TurnInput>, p: Player)
    requires BombUsed(s, p)
    ensures BombUsed(Run(s, turns).0, p)
    decreases |turns|
  {
    if turns != [] {
      var t := Turn(s, turns[0].text, turns[0].roll, turns[0].pick).0;
      RunKeepsBombs(t, turns[1..], p);
    }
  }

  /** A side whose bomb is used has every further bomb refused. */
  lemma BombRefused(s: State, p: Player)
    requires BombUsed(s, p)
    ensures ValidateMove("bomb", p, s) == Rejected(BombAlreadyUsed)
  {
    ValidateName(Bomb, p, s);
  }

  /** The number of reported rounds in which `p` played the bomb. */
  function BombsIn(reports: seq<Report>, p: Player): nat {
    if reports == [] then 0
    else
      var r := reports[0];
      var bomb := match p
        case User => r.Played? && r.userMove == Bomb
        case Bot => (r.Played? || r.Wasted?) && r.botMove == Bomb;
      (if bomb then 1 else 0) + BombsIn(reports[1..], p)
  }

  /** Each side plays its bomb at most once in a game: not at all if it was already used. */
  lemma {:induction false} RunOneBomb(s: State, turns: seq<TurnInput>, p: Player)
    ensures BombsIn(Run(s, turns).1, p) + (if BombUsed(s, p) then 1 else 0) <= 1
    decreases |turns|
  {
    if turns != [] {
      var (t, report) := Turn(s, turns[0].text, turns[0].roll, turns[0].pick);
      var reports := Run(s, turns).1;
      assert reports[0] == report && reports[1..] == Run(t, turns[1..]).1;
      RunOneBomb(t, turns[1..], p);
      if p == User && report.Played? && report.userMove == Bomb {
        assert !s.userBomb && t.userBomb;
      }
    }
  }

  // ----- a worked game -----

  /**
   * A three-round game: "Rock " loses to paper, a first bomb beats rock, a
   * second bomb is refused and wastes the round (the bot plays scissors), and
   * a fourth call finds the game over with one win each.
   */
  lemma Scenario()
    ensures Turn(Initial(), "Rock ", false, 1) ==
      (State(2, 3, 0, 1, false, false), Played(1, 3, Rock, Paper, Win(Bot), 0, 1))
    ensures Turn(State(2, 3, 0, 1, false, false), "bomb", false, 0) ==
      (State(3, 3, 1, 1, true, false), Played(2, 3, Bomb, Rock, Win(User), 1, 1))
    ensures Turn(State(3, 3, 1, 1, true, false), "bomb", false, 2) ==
      (State(4, 3, 1, 1, true, false), Wasted(3, 3, Scissors))
    ensures Turn(State(4, 3, 1, 1, true, false), "paper", true, 0) ==
      (State(4, 3, 1, 1, true, false), GameOver(Draw))
  {
    ScenarioRound1();
    ScenarioRound2();
    ScenarioRound3();
  }

  lemma ScenarioRound1()
    ensures Turn(Initial(), "Rock ", false, 1) ==
      (State(2, 3, 0, 1, false, false), Played(1, 3, Rock, Paper, Win(Bot), 0, 1))
  {
    PaddedCapitalRock();
  }

  lemma ScenarioRound2()
    ensures Turn(State(2, 3, 0, 1, false, false), "bomb", false, 0) ==
      (State(3, 3, 1, 1, true, false), Played(2, 3, Bomb, Rock, Win(User), 1, 1))
  {
    ValidateName(Bomb, User, State(2, 3, 0, 1, false, false));
  }

  lemma ScenarioRound3()
    ensures Turn(State(3, 3, 1, 1, true, false), "bomb", false, 2) ==
      (State(4, 3, 1, 1, true, false), Wasted(3, 3, Scissors))
  {
    BombRefused(State(3, 3, 1, 1, true, false), User);
  }

  /** Capitals and a trailing blank are forgiven. */
  lemma PaddedCapitalRock()
    ensures ValidateMove("Rock ", User, Initial()) == Accepted(Rock)
  {
    RockNormal();
  }

  /** "Rock " normalises to "rock". */
  lemma RockNormal()
    ensures Normalise("Rock ") == "rock"
  {
    RockUnpadded();
    RockLowered();
    NameNormal(Rock);
  }

  lemma RockUnpadded()
    ensures Normalise("Rock ") == Normalise("Rock")
  {
    assert "Rock " == "" + "Rock" + " ";
    NormalisePadded("", "Rock", " ");
  }

  lemma RockLowered()
    ensures Normalise("Rock") == Normalise("rock")
  {
    assert LowerChar('R') == 'r' && LowerChar('o') == 'o' && LowerChar('c') == 'c' && LowerChar('k') == 'k';
    assert Lower("Rock") == "rock";
    NormaliseIgnoresCase("Rock");
  }
}
