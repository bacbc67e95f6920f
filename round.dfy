/** The round state machine of the board game, as values.

    A round is the board's `boxCount`, the index of the winning box, the
    number of clicks taken so far (`plays`) and the winner flag of every box.
    The class `Board.BoardGame` keeps this state in its fields and is proved
    against the functions here; the lemmas below state what a round does
    over any sequence of clicks. */
module Round {

  datatype Option<+T> = None | Some(value: T)

  /** The two alerts a click can schedule. */
  datatype Message = YouWin | GameOver

  /** The text shown by the alert for each message. */
  function Text(m: Message): (t: string)
    ensures m == YouWin ==> t == "You win!!"
    ensures m == GameOver ==> t == "Game over"
    ensures t == "You win!!" <==> m == YouWin
  {
    match m
    case YouWin => "You win!!"
    case GameOver => "Game over"
  }

  /** The number of plays at which a wrong click ends the round. */
  const LosingPlay: nat := 3

  datatype State = State(boxCount: nat, winner: nat, plays: nat, flags: seq<bool>)

  /** What one click reports: whether the clicked box is the winner, and
      the alert it schedules, if any. */
  datatype ClickResult = ClickResult(isWinner: bool, message: Option<Message>)

  /** The injected random draw. The board draws floor(random * boxCount)
      with random in [0, 1): an index of the board, or 0 when the board has
      no boxes. */
  predicate ValidDraw(boxCount: nat, r: nat)
  {
    r < boxCount || r == 0
  }

  /** The winner flags a round is built with: box `i` is the winner iff
      `i == w`. */
  function WinnerFlags(n: nat, w: nat): seq<bool>
  {
    seq(n, i => i == w)
  }

  /** The round invariant: one flag per box, the winner index is a box of
      the board (or 0 on an empty board), and exactly the box at that index
      is flagged. */
  ghost predicate Valid(s: State)
  {
    && |s.flags| == s.boxCount
    && (if s.boxCount == 0 then s.winner == 0 else s.winner < s.boxCount)
    && forall i :: 0 <= i < |s.flags| ==> (s.flags[i] <==> i == s.winner)
  }

  /** Starting a round with the draw `r`. */
  function Init(boxCount: nat, r: nat): (s: State)
    requires ValidDraw(boxCount, r)
    ensures Valid(s)
    ensures s.boxCount == boxCount && s.winner == r && s.plays == 0
  {
    State(boxCount, r, 0, WinnerFlags(boxCount, r))
  }

  /** What the click listener reports for a click on box `i`, where `plays`
      already counts this click. The winner test comes first, so a winning
      click wins whatever `plays` is; a wrong click ends the round only when
      `plays` is exactly `LosingPlay`. */
  function ClickOutcome(winner: nat, plays: nat, i: nat): (r: ClickResult)
    ensures r.isWinner <==> i == winner
    ensures r.message == Some(YouWin) <==> i == winner
    ensures r.message == Some(GameOver) <==> i != winner && plays == LosingPlay
    ensures r.message == None <==> i != winner && plays != LosingPlay
  {
    var isWinner := winner == i;
    if isWinner then ClickResult(isWinner, Some(YouWin))
    else if !isWinner && plays == LosingPlay then ClickResult(isWinner, Some(GameOver))
    else ClickResult(isWinner, None)
  }

  /** One click on box `i`: every click is counted, nothing else of the
      round changes. */
  function Click(s: State, i: nat): (r: (State, ClickResult))
    ensures r.0.plays == s.plays + 1
    ensures r.0.boxCount == s.boxCount && r.0.winner == s.winner && r.0.flags == s.flags
    ensures Valid(s) ==> Valid(r.0)
    ensures r.1.isWinner <==> i == s.winner
    ensures r.1 == ClickOutcome(s.winner, s.plays + 1, i)
  {
    var s' := s.(plays := s.plays + 1);
    (s', ClickOutcome(s.winner, s'.plays, i))
  }

  /** A sequence of clicks within one round, with no restart in between,
      and the result of each click. */
  function Run(s: State, clicks: seq<nat>): (State, seq<ClickResult>)
    decreases |clicks|
  {
    if clicks == [] then (s, [])
    else
      var (s1, r) := Click(s, clicks[0]);
      var (s2, rs) := Run(s1, clicks[1..]);
      (s2, [r] + rs)
  }

  /** The number of clicks whose result schedules the alert `m`. */
  function CountMessage(rs: seq<ClickResult>, m: Message): nat
  {
    if rs == [] then 0
    else (if rs[0].message == Some(m) then 1 else 0) + CountMessage(rs[1..], m)
  }

  /** The number of `true` entries of a flag sequence. */
  function CountTrue(flags: seq<bool>): nat
  {
    if flags == [] then 0
    else CountTrue(flags[..|flags| - 1]) + (if flags[|flags| - 1] then 1 else 0)
  }

  /** A flag sequence true exactly at `w` has one true entry when `w` is one
      of its indices and none otherwise. */
  lemma {:induction false} CountTrueAtOnly(flags: seq<bool>, w: nat)
    requires forall i :: 0 <= i < |flags| ==> (flags[i] <==> i == w)
    ensures CountTrue(flags) == if w < |flags| then 1 else 0
  {
    if flags != [] {
      var prefix := flags[..|flags| - 1];
      assert forall i :: 0 <= i < |prefix| ==> prefix[i] == flags[i];
      CountTrueAtOnly(prefix, w);
    }
  }

  /** A valid round has exactly one winner box, the one at `winner`, unless
      the board is empty. */
  lemma ExactlyOneWinner(s: State)
    requires Valid(s)
    ensures CountTrue(s.flags) == if s.boxCount > 0 then 1 else 0
    ensures s.boxCount > 0 ==> s.winner < |s.flags| && s.flags[s.winner]
  {
    CountTrueAtOnly(s.flags, s.winner);
  }

  /** Starting a round builds `boxCount` boxes, exactly one of them the
      winner at the drawn index, and resets `plays`. */
  lemma InitialBoard(boxCount: nat, r: nat)
    requires ValidDraw(boxCount, r)
    ensures |Init(boxCount, r).flags| == boxCount
    ensures Init(boxCount, r).plays == 0
    ensures CountTrue(Init(boxCount, r).flags) == if boxCount > 0 then 1 else 0
    ensures boxCount > 0 ==> Init(boxCount, r).winner < boxCount && Init(boxCount, r).flags[r]
  {
    ExactlyOneWinner(Init(boxCount, r));
  }

  /** A run of clicks counts every click and changes nothing else. */
  lemma {:induction false} RunCountsEveryClick(s: State, clicks: seq<nat>)
    ensures Run(s, clicks).0 == s.(plays := s.plays + |clicks|)
    ensures |Run(s, clicks).1| == |clicks|
    decreases |clicks|
  {
    if clicks != [] {
      RunCountsEveryClick(Click(s, clicks[0]).0, clicks[1..]);
    }
  }

  /** The `k`-th click of a run is judged as a single click at play number
      `s.plays + k + 1`: earlier clicks, repeated boxes and earlier alerts
      have no other effect on it. */
  lemma {:induction false} RunResultAt(s: State, clicks: seq<nat>, k: nat)
    requires k < |clicks|
    ensures |Run(s, clicks).1| == |clicks|
    ensures Run(s, clicks).1[k] == ClickOutcome(s.winner, s.plays + k + 1, clicks[k])
    decreases |clicks|
  {
    RunCountsEveryClick(s, clicks);
    if k > 0 {
      RunResultAt(Click(s, clicks[0]).0, clicks[1..], k - 1);
    }
  }

  /** Every click on the winning box schedules "You win!!", however many
      times it is clicked: the number of such alerts in a run is the number
      of clicks on the winner. */
  lemma {:induction false} EveryWinningClickWins(s: State, clicks: seq<nat>)
    ensures CountMessage(Run(s, clicks).1, YouWin) == multiset(clicks)[s.winner]
    decreases |clicks|
  {
    if clicks != [] {
      var (s1, r) := Click(s, clicks[0]);
      var rest := Run(s1, clicks[1..]).1;
      assert Run(s, clicks).1 == [r] + rest;
      assert ([r] + rest)[1..] == rest;
      assert clicks == [clicks[0]] + clicks[1..];
      EveryWinningClickWins(s1, clicks[1..]);
    }
  }

  /** "Game over" is scheduled at most once per run: only by the click that
      makes `plays` exactly 3, and only if that click misses the winner. */
  lemma {:induction false} GameOverAtMostOnce(s: State, clicks: seq<nat>)
    ensures CountMessage(Run(s, clicks).1, GameOver)
         == if s.plays < LosingPlay && LosingPlay - 1 - s.plays < |clicks|
               && clicks[LosingPlay - 1 - s.plays] != s.winner
            then 1 else 0
    decreases |clicks|
  {
    if clicks != [] {
      var (s1, r) := Click(s, clicks[0]);
      var rest := Run(s1, clicks[1..]).1;
      assert Run(s, clicks).1 == [r] + rest;
      assert ([r] + rest)[1..] == rest;
      GameOverAtMostOnce(s1, clicks[1..]);
    }
  }

  /** From a fresh round, any three clicks that miss the winner, on the
      same box or on different ones, end the round with "Game over" on the
      third click and on no other. */
  lemma ThreeMissesLose(s: State, clicks: seq<nat>)
    requires s.plays == 0 && |clicks| == 3
    requires forall k :: 0 <= k < 3 ==> clicks[k] != s.winner
    ensures |Run(s, clicks).1| == 3
    ensures Run(s, clicks).1[0].message == None
    ensures Run(s, clicks).1[1].message == None
    ensures Run(s, clicks).1[2].message == Some(GameOver)
  {
    RunResultAt(s, clicks, 0);
    RunResultAt(s, clicks, 1);
    RunResultAt(s, clicks, 2);
  }

  /** Nothing stops clicks between an alert and the restart: from a fresh
      round on a board of at least two boxes, a click on the winner followed
      by two misses schedules both "You win!!" and "Game over". */
  lemma BothMessagesBeforeRestart(boxCount: nat, r: nat, miss: nat)
    requires r < boxCount && miss < boxCount && miss != r
    ensures var rs := Run(Init(boxCount, r), [r, miss, miss]).1;
      |rs| == 3 && rs[0].message == Some(YouWin) && rs[1].message == None
      && rs[2].message == Some(GameOver)
  {
    var clicks := [r, miss, miss];
    RunResultAt(Init(boxCount, r), clicks, 0);
    RunResultAt(Init(boxCount, r), clicks, 1);
    RunResultAt(Init(boxCount, r), clicks, 2);
  }

  /** Five boxes, winner at 2: a miss on box 0, then the winner. */
  lemma MissThenWin()
    ensures Run(Init(5, 2), [0, 2]).1
         == [ClickResult(false, None), ClickResult(true, Some(YouWin))]
  {
  }

  /** Five boxes, winner at 4: misses on boxes 0, 1 and 3. */
  lemma ThreeDistinctMisses()
    ensures Run(Init(5, 4), [0, 1, 3]).1
         == [ClickResult(false, None), ClickResult(false, None), ClickResult(false, Some(GameOver))]
  {
  }
}
