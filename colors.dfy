/** The colours that carry meaning on the strike zone, and the mapping from a
    pitch's result and end outcome to one of them. */
module Colors {
  import opened PitchTypes

  datatype Color = StrikeColor | BallColor | OtherColor | FoulColor

  function Hex(c: Color): string {
    match c
    case StrikeColor => "#FFC300"
    case BallColor => "#38A3A5"
    case OtherColor => "#3498DB"
    case FoulColor => "#A9A9A9"
  }

  /** The colour of a pitch: a walk or strikeout outcome decides first, then the
      result; everything else (ball in play, unknown text) is the neutral colour. */
  function ColorByResult(result: PitchResult, outcome: Option<Outcome>): (c: Color)
    ensures outcome == Some(Walk) ==> c == BallColor
    ensures outcome == Some(Strikeout) ==> c == StrikeColor
    ensures outcome != Some(Walk) && outcome != Some(Strikeout) ==>
              && (c == BallColor <==> result == Ball)
              && (c == StrikeColor <==> result == Strike)
              && (c == FoulColor <==> result == Foul)
    ensures c == OtherColor <==> outcome != Some(Walk) && outcome != Some(Strikeout) && result !in {Ball, Strike, Foul}
  {
    if outcome == Some(Walk) then BallColor
    else if outcome == Some(Strikeout) then StrikeColor
    else if result == Ball then BallColor
    else if result == Strike then StrikeColor
    else if result == Foul then FoulColor
    else OtherColor
  }

  /** The four colour constants are pairwise different, so the colour tells the
      classes apart. */
  lemma HexDistinct(c: Color, d: Color)
    requires c != d
    ensures Hex(c) != Hex(d)
  {
  }
}
