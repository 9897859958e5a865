/**
 * The referee as the source has it: a game memory updated in place, and an
 * agent object that owns it and plays one turn per call.
 */
module Referee {
  import opened Moves
  import opened Game

  /** The game memory: the dictionary that `update_game_state` changes in place. */
  class GameState {
    var round: nat
    var maxRounds: nat
    var userScore: nat
    var botScore: nat
    var userBomb: bool
    var botBomb: bool

    /** The memory as a value. */
    function Value(): State
      reads this
    {
      State(round, maxRounds, userScore, botScore, userBomb, botBomb)
    }

    /** `initialize_game_state`. */
    constructor ()
      ensures Value() == Initial()
      ensures Inv(Value())
    {
      round, maxRounds := 1, 3;
      userScore, botScore := 0, 0;
      userBomb, botBomb := false, false;
    }

    /**
     * `update_game_state`: records the bombs played, scores the winner and
     * moves on to the next round.
     */
    method Update(result: Outcome, userMove: Option<Move>, botMove: Move)
      modifies this
      ensures Value() == Apply(old(Value()), result, userMove, botMove)
      ensures round == old(round) + 1 && maxRounds == old(maxRounds)
      ensures userScore == old(userScore) + (if result == Win(User) then 1 else 0)
      ensures botScore == old(botScore) + (if result == Win(Bot) then 1 else 0)
      ensures userBomb == (old(userBomb) || userMove == Some(Bomb))
      ensures botBomb == (old(botBomb) || botMove == Bomb)
    {
      if userMove == Some(Bomb) {
        userBomb := true;
      }
      if botMove == Bomb {
        botBomb := true;
      }
      if result == Win(User) {
        userScore := userScore + 1;
      } else if result == Win(Bot) {
        botScore := botScore + 1;
      }
      round := round + 1;
    }
  }

  /** `GameRefereeAgent`: owns one game memory for the whole session. */
  class GameReferee {
    const state: GameState

    constructor ()
      ensures fresh(state)
      ensures state.Value() == Initial()
      ensures Inv(state.Value()) && !Finished(state.Value())
    {
      state := new GameState();
    }

    /** `final_result`: who has more wins, or a draw. */
    function FinalResult(): (v: Outcome)
      reads state
      ensures v == Win(User) <==> state.userScore > state.botScore
      ensures v == Win(Bot) <==> state.botScore > state.userScore
      ensures v == Draw <==> state.userScore == state.botScore
    {
      FinalVerdict(state.Value())
    }

    /**
     * `handle_turn`: once the last round is past it only reports the verdict;
     * otherwise it validates the input, draws the bot's move, and plays or
     * wastes the round.
     */
    method HandleTurn(userInput: string, roll: bool, pick: Pick) returns (report: Report)
      modifies state
      ensures (state.Value(), report) == Turn(old(state.Value()), userInput, roll, pick)
      ensures Inv(old(state.Value())) ==> Inv(state.Value())
      ensures Finished(old(state.Value())) ==> unchanged(state) && report == GameOver(FinalResult())
    {
      if state.round > state.maxRounds {
        report := GameOver(FinalResult());
        return;
      }
      var validation := ValidateMove(userInput, User, state.Value());
      var botMove := BotMove(state.Value(), roll, pick);
      if validation.Rejected? {
        state.Update(Draw, None, botMove);
        report := Wasted(state.round - 1, state.maxRounds, botMove);
        return;
      }
      var userMove := validation.move;
      var result := Resolve(userMove, botMove);
      state.Update(result, Some(userMove), botMove);
      report := Played(state.round - 1, state.maxRounds, userMove, botMove, result, state.userScore, state.botScore);
    }
  }

  /** A client of the referee: the worked game of `Game.Scenario`, played through the object. */
  method Session()
  {
    var referee := new GameReferee();
    var r1 := referee.HandleTurn("Rock ", false, 1);
    Scenario();
    assert r1 == Played(1, 3, Rock, Paper, Win(Bot), 0, 1);
    var r2 := referee.HandleTurn("bomb", false, 0);
    assert r2 == Played(2, 3, Bomb, Rock, Win(User), 1, 1);
    var r3 := referee.HandleTurn("bomb", false, 2);
    assert r3 == Wasted(3, 3, Scissors);
    var r4 := referee.HandleTurn("paper", true, 0);
    assert r4 == GameOver(Draw);
    var r5 := referee.HandleTurn("rock", false, 0);
    assert r5 == r4;
  }
}
