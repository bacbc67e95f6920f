/** The board: the round state of `Round`, kept in fields that its methods
    update in place, and the boxes it builds for each round. */
module Board {
  import opened Round
  import opened Box

  /** The box count the board starts with: the `box-count` attribute when
      it is present, 5 otherwise. */
  function BoxCountOrDefault(attr: Option<nat>): (n: nat)
    ensures attr.Some? ==> n == attr.value
    ensures attr.None? ==> n == 5
  {
    match attr
    case Some(count) => count
    case None => 5
  }

  /** The winner flags of a row of boxes. */
  function Flags(boxes: seq<BoxGame>): (flags: seq<bool>)
    ensures |flags| == |boxes|
    ensures forall i :: 0 <= i < |boxes| ==> flags[i] == boxes[i].winner
  {
    seq(|boxes|, i requires 0 <= i < |boxes| => boxes[i].winner)
  }

  class BoardGame {
    var boxCount: nat
    var winner: nat
    var plays: nat
    var boxes: seq<BoxGame>

    /** The round in progress, as a value. */
    ghost function State(): Round.State
      reads this
    {
      Round.State(boxCount, winner, plays, Flags(boxes))
    }

    /** The round invariant of `Round.Valid`, plus: the boxes are distinct
        objects and each one is gray or shows its flag's colour. */
    ghost predicate Valid()
      reads this, boxes
    {
      && Round.Valid(State())
      && (forall i, j :: 0 <= i < j < |boxes| ==> boxes[i] != boxes[j])
      && (forall i :: 0 <= i < |boxes| ==> boxes[i].Valid())
    }

    /** The board is built with the `box-count` attribute, if any, and
        starts its first round with the draw `r`. */
    constructor (boxCountAttr: Option<nat>, r: nat)
      requires ValidDraw(BoxCountOrDefault(boxCountAttr), r)
      ensures Valid()
      ensures State() == Init(BoxCountOrDefault(boxCountAttr), r)
      ensures forall i :: 0 <= i < |boxes| ==> fresh(boxes[i]) && boxes[i].background == Gray
    {
      boxCount := BoxCountOrDefault(boxCountAttr);
      winner := 0;
      plays := 0;
      boxes := [];
      new;
      StartGame(r);
    }

    /** Starts a round; drawing the board is presentation only. */
    method StartGame(r: nat)
      requires ValidDraw(boxCount, r)
      modifies this
      ensures Valid()
      ensures State() == Init(old(boxCount), r)
      ensures forall i :: 0 <= i < |boxes| ==> fresh(boxes[i]) && boxes[i].background == Gray
    {
      InitGame(r);
    }

    /** Draws the winner, resets `plays` and builds `boxCount` fresh gray
        boxes, only the one at the winner index flagged. */
    method InitGame(r: nat)
      requires ValidDraw(boxCount, r)
      modifies this
      ensures Valid()
      ensures State() == Init(old(boxCount), r)
      ensures forall i :: 0 <= i < |boxes| ==> fresh(boxes[i]) && boxes[i].background == Gray
    {
      winner := r;
      plays := 0;
      var built: seq<BoxGame> := [];
      while |built| < boxCount
        invariant boxCount == old(boxCount) && winner == r && plays == 0
        invariant |built| <= boxCount
        invariant forall k :: 0 <= k < |built| ==> (built[k].winner <==> k == winner)
        invariant forall k :: 0 <= k < |built| ==> fresh(built[k]) && built[k].background == Gray
        invariant forall j, k :: 0 <= j < k < |built| ==> built[j] != built[k]
      {
        var box := new BoxGame(winner == |built|);
        built := built + [box];
      }
      boxes := built;
      assert Flags(boxes) == WinnerFlags(boxCount, r);
    }

    /** A click on box `i`. The box's own listener, registered when the box
        was built, paints it first; the board's listener then counts the
        click and reports whether it hit the winner and which alert, if any,
        it schedules. */
    method Click(i: nat) returns (isWinner: bool, message: Option<Message>)
      requires Valid() && i < |boxes|
      modifies this, boxes[i]
      ensures Valid()
      ensures boxes == old(boxes)
      ensures (State(), ClickResult(isWinner, message)) == Round.Click(old(State()), i)
      ensures boxes[i].background == RevealedColour(boxes[i].winner)
      ensures old(boxes[i].background) != Gray ==> boxes[i].background == old(boxes[i].background)
      ensures forall j :: 0 <= j < |boxes| && j != i ==> boxes[j].background == old(boxes[j].background)
    {
      boxes[i].OnClick();
      isWinner := winner == i;
      plays := plays + 1;
      if isWinner {
        message := Some(YouWin);
      } else if !isWinner && plays == LosingPlay {
        message := Some(GameOver);
      } else {
        message := None;
      }
    }

    /** The deferred end of a round: the alert is shown, then the board is
        cleared and a new round starts with the draw `r`. */
    method ShowAlert(msg: Message, r: nat) returns (alerted: string)
      requires ValidDraw(boxCount, r)
      modifies this
      ensures alerted == Text(msg)
      ensures Valid()
      ensures State() == Init(old(boxCount), r)
      ensures forall i :: 0 <= i < |boxes| ==> fresh(boxes[i]) && boxes[i].background == Gray
    {
      alerted := Text(msg);
      StartGame(r);
    }
  }
}
