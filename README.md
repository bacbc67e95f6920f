# training-game: the round state machine

A browser mini-game: a row of boxes, one of them secretly the winner. The
player clicks boxes; a click on the winner alerts "You win!!", a wrong click
that is the third click of the round alerts "Game over", and after the alert
the board is cleared and a new round starts.

This project models the two custom elements of `main.js`:

- `BoxGame` (module `Box`, file `box_game.dfy`): a box with a winner flag set
  once at construction and a background that its own click listener paints
  blue for the winner and red otherwise. Modelled as a class with a `const`
  flag and a mutable `background`.
- `BoardGame` (module `Board`, file `board_game.dfy`): the board's fields
  `boxCount`, `winner`, `plays` and `boxes`, the round start (`InitGame`,
  `StartGame`), the click listener each box gets from the board (`Click`),
  and the deferred end of a round (`ShowAlert`). Modelled as a class whose
  methods update those fields in place.

The round itself is also written as values in module `Round` (file
`round.dfy`): a `State` datatype, `Init` for a round start, `Click` for one
click and `Run` for a sequence of clicks within one round. The class methods
are proved to move their fields exactly as these functions say
(`State() == Init(...)`, `(State(), result) == Round.Click(old(State()), i)`),
and the lemmas about the round are proved on the functions.

The random draw `Math.floor(Math.random() * Math.floor(boxCount))` is an
injected number `r` with `ValidDraw(boxCount, r)`: an index of the board, or
0 when the board has no boxes (the draw is then `floor(x * 0) = 0`). The
`box-count` attribute is an optional natural number; 5 is used when it is
absent.

Where one might expect otherwise, the code has no scoreboard, no clamping of
the box count, no separate count of wrong guesses and no guard against clicks
after a round is decided; the model follows the code:

- there is no scoreboard and no clamping; a `box-count` of 0 gives an empty
  board with no winner box (`Round.ExactlyOneWinner`);
- `plays` counts every click, winning clicks and repeated clicks on one box
  included (`Round.RunCountsEveryClick`), so three clicks on the same wrong
  box lose (`Round.ThreeMissesLose`);
- the loss test is `plays == 3`, so a wrong click at play 4 or later alerts
  nothing (`Round.GameOverAtMostOnce`);
- nothing stops clicks between a click and the restart that its alert
  schedules: every click on the winner alerts again
  (`Round.EveryWinningClickWins`), and one round can schedule both alerts
  (`Round.BothMessagesBeforeRestart`).

## Model

| member | source | states |
|---|---|---|
| `Round.Text` | main.js:69-71 | the alert text is "You win!!" for a win and "Game over" for a loss, and only a win shows "You win!!" |
| `Round.Init` | main.js:60-64 | a new round keeps `boxCount`, takes the drawn winner, resets `plays` to 0 and satisfies the round invariant: one flag per box, true exactly at the winner index |
| `Round.ClickOutcome` | main.js:66-73 | a click reports a win iff it hits the winner; it alerts "You win!!" iff it hits the winner, whatever `plays` is; "Game over" iff it misses and `plays` is exactly 3; nothing otherwise |
| `Round.Click` | main.js:65-74 | every click adds exactly 1 to `plays`, leaves `boxCount`, `winner` and the flags unchanged, keeps the round invariant, reports a win iff the index is the winner, and its alert is the one `Round.ClickOutcome` gives at the new play count |
| `Round.CountTrueAtOnly` | main.js:63-64 | flags true exactly at one index have exactly one true entry when that index is on the board, none otherwise |
| `Round.ExactlyOneWinner` | main.js:63-64 | a valid round has exactly one winner box, at `winner`, unless the board is empty |
| `Round.InitialBoard` | main.js:60-64 | after a round start there are `boxCount` boxes and `plays` is 0; when `boxCount > 0` the winner index is on the board and is the only winner box; an empty board has no winner box |
| `Round.RunCountsEveryClick` | main.js:65-67 | any sequence of clicks raises `plays` by its length and changes nothing else of the round |
| `Round.RunResultAt` | main.js:65-73 | the k-th click of a round is judged as one click at play number `plays + k + 1`; earlier clicks have no other effect |
| `Round.EveryWinningClickWins` | main.js:66-69 | the number of "You win!!" alerts in a round is the number of clicks on the winner box |
| `Round.GameOverAtMostOnce` | main.js:66-72 | a round alerts "Game over" at most once: exactly when its third click misses the winner |
| `Round.ThreeMissesLose` | main.js:65-72 | from a fresh round, three misses, on one box or on several, alert nothing, nothing, then "Game over" |
| `Round.BothMessagesBeforeRestart` | main.js:65-84 | on a board of at least two boxes, a click on the winner followed by two misses on the board before the restart alerts both "You win!!" and "Game over" |
| `Round.MissThenWin` | main.js:65-72 | five boxes, winner at 2: a click on 0 alerts nothing, a click on 2 wins |
| `Round.ThreeDistinctMisses` | main.js:65-72 | five boxes, winner at 4: clicks on 0, 1, 3 alert nothing, nothing, then "Game over" |
| `Box.RevealedColour` | main.js:34-38 | the revealed colour is blue iff the box is the winner, red otherwise, never gray |
| `Box.BoxGame.constructor` | main.js:2-4 | a new box has the given winner flag and a gray background |
| `Box.BoxGame.OnClick` | main.js:31-39 | a click paints the box the colour of its flag; a second click changes nothing |
| `Board.BoxCountOrDefault` | main.js:51 | the box count is the attribute's value when present, 5 otherwise |
| `Board.BoardGame.constructor` | main.js:49-53 | a new board takes its box count from the attribute or 5 and starts its first round |
| `Board.BoardGame.StartGame` | main.js:55-58 | starting a game starts a round exactly as `Round.Init` says |
| `Board.BoardGame.InitGame` | main.js:60-77 | the fields become `Round.Init(boxCount, r)`: `plays` 0, `boxCount` fresh gray boxes, only the one at the drawn index a winner |
| `Board.BoardGame.Click` | main.js:65-74 | the box's own listener paints it, then the fields and the reported win and alert are exactly `Round.Click` of the old round; no other box changes |
| `Board.BoardGame.ShowAlert` | main.js:79-84 | the alert shows the message's text, then a new round starts exactly as `Round.Init` says |

## Left out

- Shadow DOM, the `getStyles` CSS (except the initial gray background), `drawBoard` and `clearBoard`: presentation only; `StartGame` and `ShowAlert` keep only their effect on the round state.
- `Math.random` and `Math.floor`: floating point; the draw is the injected number `r` under `ValidDraw`.
- `setTimeout` and the blocking `alert`: timer and UI effects. `Click` returns the alert it would schedule and `ShowAlert` is the deferred callback, called by the environment; the 200 ms window is not modelled as concurrency, but `Round.Run` covers clicks made before the restart.
- Reading `box-count` as a string: the attribute is an optional natural number; non-numeric or fractional attribute values are not modelled.
- `customElements.define` and appending the board to the document: browser registration.
