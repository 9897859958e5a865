# Rock-paper-scissors-bomb referee, modelled in Dafny

The modelled program is a referee for a best-of-three game between a user and a
bot. The moves are rock, paper and scissors plus a "bomb" that each side may play
once. The bomb beats every other move, and two bombs draw. Each call of the
referee's `handle_turn` plays one round and returns a report:

- it normalises the user's raw input (lower-case, whitespace stripped) and validates it;
- it draws the bot's move;
- it decides the winner and updates the game memory (bomb flags, scores, round counter).

An input that does not validate wastes the round: no one scores, but the round
counter advances and the bot's bomb may go off. Once the counter passes the last
round, every further call returns the final verdict and changes nothing.

The project has four modules, one per part of the program:

- `Text` (`text.dfy`): Python's `str.lower()` and `str.strip()` as the referee uses
  them, with the laws that make validation insensitive to case and padding.
- `Moves` (`moves.dfy`): the moves, the players, round outcomes, the word for each
  move, and `resolve_round` with the rules as a relation `Beats`.
- `Game` (`game.dfy`): the game memory as a value `State`, and the rules over it:
  - `validate_move`, `get_bot_move`, `update_game_state` and `final_result`;
  - one whole `handle_turn` as the function `Turn`, and any number of turns as `Run`;
  - lemmas about whole games: round counting, the score bound, idempotence after
    the end, one bomb per side, and a worked three-round game.
- `Referee` (`referee.dfy`): the program's objects. `GameState` is the game memory,
  whose fields `Update` changes in place. `GameReferee` owns one `GameState` and
  plays a turn per `HandleTurn` call. Each mutating method is proved to take the
  memory from `old(Value())` to the state the `Game` functions give. `Session` is a
  client that replays the worked game through the objects.

Randomness is a pair of parameters. `roll` is the outcome of
`random.random() < 0.15`, and `pick` (0, 1 or 2) is the index `random.choice`
draws from `["rock", "paper", "scissors"]`. The report is a datatype `Report`
(`GameOver`, `Wasted`, `Played`) instead of the formatted text.

`handle_turn` reports a wasted round with its number and the bot's move, but not
the reason the input was refused (game_referee_adk.py:119-123). So `Report.Wasted`
carries no reason, while `ValidateMove` still returns it.

## Model

| member | source | states |
|---|---|---|
| Text.LowerCharFacts | game_referee_adk.py:25 | lower-casing one character keeps whitespace as whitespace and creates none, leaves no capital A-Z, and is idempotent |
| Text.IsSpace | game_referee_adk.py:25 | the characters `strip()` removes: exactly those for which Python's `str.isspace()` holds (the ASCII controls 9-13 and 28-31, the space 32, U+0085, U+00A0, U+1680, U+2000-U+200A, U+2028, U+2029, U+202F, U+205F, U+3000) |
| Text.LowerChar | game_referee_adk.py:25 | lower-casing of one character: A-Z to a-z, KELVIN SIGN to k, every other character kept; `Text.LowerCharFacts` states its laws |
| Text.Lower | game_referee_adk.py:25 | `lower()` keeps the length and lower-cases each character in place |
| Text.LeadingSpaces | game_referee_adk.py:25 | the count `strip()` removes at the front: every character before it is whitespace, the one at it is not |
| Text.TrailingSpaces | game_referee_adk.py:25 | the count `strip()` removes at the back: every character after the cut is whitespace, the one before it is not |
| Text.StripBounds | game_referee_adk.py:25 | the indices where `strip()` cuts: only whitespace outside them, none at either end of what remains |
| Text.StripTrims | game_referee_adk.py:25 | `strip()` leaves a slice of the input with only whitespace outside it and none at its ends |
| Text.Strip | game_referee_adk.py:25 | `strip()` with no argument; `Text.StripTrims` and `Text.TrimsUnique` state that it cuts off exactly the surrounding whitespace, and that nothing else does |
| Text.Normalise | game_referee_adk.py:25 | `move.lower().strip()`; its laws are `Text.NormaliseIdempotent`, `Text.NormaliseIgnoresCase`, `Text.NormalisePadded` and `Text.NormalFormFixed` |
| Text.CutUnique | game_referee_adk.py:25 | any such cut of a string gives the same slice `strip()` gives |
| Text.TrimsUnique | game_referee_adk.py:25 | `strip()` is the only result with that property, so the property is a complete description of it |
| Text.StripPadded | game_referee_adk.py:25 | whitespace added at either end does not change what `strip()` returns |
| Text.StripIdempotent | game_referee_adk.py:25 | stripping twice is stripping once |
| Text.LowerConcat | game_referee_adk.py:25 | `lower()` distributes over concatenation |
| Text.LowerSpaces | game_referee_adk.py:25 | `lower()` leaves a whitespace-only string unchanged |
| Text.LowerIdempotent | game_referee_adk.py:25 | lower-casing twice is lower-casing once |
| Text.LowerStrip | game_referee_adk.py:25 | `lower()` and `strip()` commute |
| Text.NormaliseIdempotent | game_referee_adk.py:25 | `lower().strip()` applied to its own result changes nothing |
| Text.NormaliseIgnoresCase | game_referee_adk.py:25 | lower-casing the raw input first does not change its normal form |
| Text.NormalisePadded | game_referee_adk.py:25 | whitespace around the raw input does not change its normal form |
| Text.NormalFormFixed | game_referee_adk.py:25 | a word with no capitals and no whitespace at its ends is its own normal form |
| Moves.ParseMove | game_referee_adk.py:26-28 | a normalised word is accepted exactly when it is one of the four move names, and then names that move |
| Moves.ParseName | game_referee_adk.py:26 | each move's own name parses back to that move |
| Moves.WinsAgainst | game_referee_adk.py:48-52 | the `wins_against` entry of a plain move is a plain move it beats, and the only move it beats |
| Moves.Resolve | game_referee_adk.py:38-54 | draw exactly when the moves are equal; the user wins exactly when the user's move beats the bot's and the bot wins exactly when the bot's beats the user's; bomb beats any other move from either seat |
| Moves.BeatsTournament | game_referee_adk.py:48-54 | no move beats itself, and of two different moves exactly one beats the other |
| Moves.ResolveSwap | game_referee_adk.py:38-54 | exchanging the two moves exchanges winner and loser, and a draw stays a draw |
| Moves.ResolveCycle | game_referee_adk.py:48-54 | two different non-bomb moves never draw, and exactly one of them is the one the other's `wins_against` entry names |
| Moves.CyclicLaw | game_referee_adk.py:48-54 | rock beats scissors, scissors beats paper, paper beats rock, and each reversed pair is a bot win |
| Moves.ResolveSame | game_referee_adk.py:39-40 | a move against itself is a draw, bomb against bomb included |
| Game.Initial | game_referee_adk.py:14-20 | a new game is at round 1 of 3 with no wins and both bombs unused |
| Game.InitialInv | game_referee_adk.py:14-20 | a new game meets the game invariant and is not over |
| Game.ValidateMove | game_referee_adk.py:24-34 | accepted exactly when the normal form is a move name and not a bomb already used by that player, and then the accepted move's name is the normal form; "Invalid input" exactly when the normal form names no move; "Bomb already used" exactly when it is the bomb and the player's flag is set |
| Game.ValidateNormalised | game_referee_adk.py:25-34 | validation gives the same answer for the raw input, its normal form and its lower-cased form |
| Game.ValidatePadded | game_referee_adk.py:25-34 | whitespace around the raw input does not change the validation answer |
| Game.ValidateName | game_referee_adk.py:26-34 | every move name is accepted as that move, except a bomb whose player's flag is set, which is refused with "Bomb already used" |
| Game.NameNormal | game_referee_adk.py:25-26 | each move name is already in normal form |
| Game.BombRefused | game_referee_adk.py:31-32 | a player whose bomb flag is set has "bomb" refused with "Bomb already used" |
| Game.BotMove | game_referee_adk.py:80-86 | the bot plays the bomb exactly when its bomb is unused and the 15% roll comes up, and otherwise the picked plain move |
| Game.BotMoveReachable | game_referee_adk.py:80-86 | every plain move can be played by the bot, and so can the bomb while the bot's bomb is unused |
| Game.Apply | game_referee_adk.py:58-76 | the round counter goes up by exactly 1 and max rounds stays; only the winner's score changes, by exactly 1, and a draw changes no score; a bomb flag is set exactly when it was set before or that side played the bomb |
| Game.ApplyBombsMonotone | game_referee_adk.py:64-68 | a bomb flag once set stays set through a round |
| Game.FinalVerdict | game_referee_adk.py:144-153 | user wins exactly when the user has more wins, bot wins exactly when the bot has more, draw exactly when the scores are equal |
| Game.Turn | game_referee_adk.py:103-142 | once over, a turn returns the final verdict and changes nothing. Otherwise it plays exactly one round, reported under that round's number and the game's max rounds. The round is wasted exactly when validation refuses the input; a wasted round changes no score and not the user's bomb, though the bot's bomb may go. A played round reports the accepted move, the bot's move, the winner `resolve_round` gives and the new scores. A played round, and a wasted one as a draw with no user move, moves the state as `Apply` does: the winner gains one point, a draw changes no score, and a bomb played is spent. The bot's move obeys the bomb rule, bomb flags never clear, and the game invariant is kept |
| Game.TurnAfterEnd | game_referee_adk.py:106-107 | after the end, any two calls give the same state and report, and a second call repeats the first |
| Game.WastedRoundMaySpendBotBomb | game_referee_adk.py:109-123 | an input that names no move wastes the round, and the bot's unused bomb can still go off in it |
| Game.Run | game_referee_adk.py:103-142 | a sequence of turns gives one report per turn |
| Game.RunRounds | game_referee_adk.py:103-142 | after n turns the round counter is the smaller of start + n and max rounds + 1, max rounds is unchanged, and the invariant (round within bounds, wins at most rounds played) holds |
| Game.RunFromStart | game_referee_adk.py:14-20 | from a new game, n turns leave the counter at min(n, 3) + 1 with at most n wins in all |
| Game.RunAfterEnd | game_referee_adk.py:106-107 | once over, any number of further turns leave the state unchanged and every report is the same final verdict |
| Game.RunKeepsBombs | game_referee_adk.py:64-68 | a used bomb stays used for the rest of the game |
| Game.RunOneBomb | game_referee_adk.py:24-86 | over any sequence of turns each side's reports show the bomb played at most once, and not at all if its bomb was already used |
| Game.Scenario | game_referee_adk.py:103-153 | a worked game: "Rock " against paper is a bot win; a first bomb against rock is a user win; a second bomb is refused and wastes round 3; the next call reports a draw verdict |
| Game.PaddedCapitalRock | game_referee_adk.py:25-34 | "Rock " is accepted as rock |
| Referee.GameState.constructor | game_referee_adk.py:14-20 | the new memory holds the initial state |
| Referee.GameState.Update | game_referee_adk.py:58-76 | the memory afterwards is the old one after one round: flags set by the bombs played, winner's score up by one, round up by one, max rounds unchanged |
| Referee.GameReferee.constructor | game_referee_adk.py:89-92 | a fresh referee owns a fresh memory in the initial state, which meets the game invariant and is not over |
| Referee.GameReferee.FinalResult | game_referee_adk.py:144-153 | the verdict on the current scores: user wins, bot wins or draw by comparing the scores |
| Referee.GameReferee.HandleTurn | game_referee_adk.py:103-142 | new memory and report are those of one `Turn` from the old memory; the game invariant is kept; once the game is over the memory is unchanged and the report is the final result |

## Left out

- The interactive loop at game_referee_adk.py:157-167 (reading a line, printing the reply, stopping on "Game Over") is I/O. `Game.Run` plays its part for any sequence of inputs.
- The `tool` decorator and the `Agent` base class with its `name` are identity helpers with no rules. `explain_rules` returns a constant help text.
- The probabilities: the 0.15 bomb chance and the uniform `random.choice` are draws from a library, not rules. They become the parameters `roll` and `pick`, which cover every value the library can return, so the model says what can happen, not how likely it is.
- The wording and emoji of the reports and verdicts. `Report` carries the same facts: the round number, max rounds, the moves, the winner and the scores.
- Text.Lower: lower-cases the ASCII capitals and KELVIN SIGN (U+212A, which Python lower-cases to "k"), and keeps every other character unchanged, where Python's `lower()` maps the whole of Unicode. Any other character that Python's `lower()` changes (a letter, but also a symbol such as U+24B6 or a number such as U+2160) is a non-ASCII character whose lower-case form still contains a non-ASCII character. The model keeps the character, Python keeps its lower-case form; either way a non-ASCII, non-whitespace character stays in the stripped word, which then names no move. Acceptance and the accepted move therefore agree with Python; only the normal form of refused inputs can differ.
- Calls the referee never makes. `validate_move` with a player other than "user" or "bot" raises a `KeyError` only when the normal form is "bomb", because the player's flag is read only then (game_referee_adk.py:31); every other word is judged as it is for a known player. `resolve_round` with a word that is not a move either raises a `KeyError` or returns an outcome that means nothing: two equal words give "draw", a bomb against any other word gives the bomb's side the win, and rock, paper or scissors from the user against any other non-bomb word gives "bot"; `update_game_state` would ignore any other result string. The referee never does any of these, so players, moves and outcomes are closed datatypes here.
- `update_game_state` returns the dictionary it changed, and `handle_turn` assigns it back to `self.state`, which is the same object. `GameReferee.state` is therefore a `const` reference whose object `Update` changes, and `Update` returns nothing.
