/** One box of the board: a fixed winner flag, and a background that a
    click reveals. */
module Box {

  /** The box backgrounds: gray until clicked, then blue or red. */
  datatype Colour = Gray | Blue | Red

  /** The colour a click reveals: blue for the winner, red otherwise. */
  function RevealedColour(winner: bool): (c: Colour)
    ensures c != Gray
    ensures c == Blue <==> winner
    ensures c == Red <==> !winner
  {
    if winner then Blue else Red
  }

  class BoxGame {
    /** Set once when the box is built and never changed. */
    const winner: bool
    var background: Colour

    /** A box is either still gray or shows the colour of its flag. */
    ghost predicate Valid()
      reads this
    {
      background == Gray || background == RevealedColour(winner)
    }

    constructor (winner: bool)
      ensures Valid()
      ensures this.winner == winner && background == Gray
    {
      this.winner := winner;
      background := Gray;
    }

    /** The box's own click listener: paint the flag's colour. The new
        background does not depend on the old one, so a second click on an
        opened box changes nothing. */
    method OnClick()
      requires Valid()
      modifies this
      ensures Valid()
      ensures background == RevealedColour(winner)
      ensures old(background) != Gray ==> background == old(background)
    {
      if winner {
        background := Blue;
      } else {
        background := Red;
      }
    }
  }
}
