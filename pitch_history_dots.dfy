/** The history overlay: one numbered, coloured dot per stored pitch that has
    a position, drawn relative to the grid's top-left corner. */
module PitchHistoryDots {
  import opened PitchTypes
  import opened Colors
  import opened BaseballLogic
  import opened PitchUtils

  /** One drawn dot: its key, its pixel offset in the grid, its colour and
      the pitch number it shows. */
  datatype Dot = Dot(id: string, x: real, y: real, color: Color, pitchIndex: nat)

  /** The dot for `records[index]`, or `None` when the record has no numeric
      position. The number shown is `records.length - index`. */
  function Place(records: seq<AnnotatedPitch>, index: nat, gridW: real, gridH: real): (d: Option<Dot>)
    requires index < |records|
    ensures d.None? <==> records[index].pitch.gridX.None? || records[index].pitch.gridY.None?
    ensures d.Some? ==> d.value.pitchIndex == PitchNumber(|records|, index)
  {
    var record := records[index];
    if record.pitch.gridX.None? || record.pitch.gridY.None? then None
    else
      var finalX := record.pitch.gridX.value * gridW;
      var finalY := record.pitch.gridY.value * gridH;
      Some(Dot(record.pitch.id, finalX, finalY,
               ColorByResult(record.pitch.result, record.outcome),
               PitchNumber(|records|, index)))
  }

  /** The dots of the first `n` records, in record order. Numbers fall
      strictly from one dot to the next and stay in `|records| - n + 1 ..
      |records|`; each dot is the placement of the record its number names, and
      every placeable record among the first `n` has its dot. */
  function PlaceFirst(records: seq<AnnotatedPitch>, n: nat, gridW: real, gridH: real): (dots: seq<Dot>)
    requires n <= |records|
    ensures |dots| <= n
    ensures forall k :: 0 <= k < |dots| ==> |records| - n < dots[k].pitchIndex <= |records|
    ensures forall k, l :: 0 <= k < l < |dots| ==> dots[k].pitchIndex > dots[l].pitchIndex
    ensures forall k :: 0 <= k < |dots| ==> Place(records, |records| - dots[k].pitchIndex, gridW, gridH) == Some(dots[k])
    ensures forall i :: 0 <= i < n && Place(records, i, gridW, gridH).Some? ==> Place(records, i, gridW, gridH).value in dots
    decreases n
  {
    if n == 0 then []
    else
      var earlier := PlaceFirst(records, n - 1, gridW, gridH);
      match Place(records, n - 1, gridW, gridH)
      case None => earlier
      case Some(d) => earlier + [d]
  }

  /** The overlay: nothing without a (truthy) zone height, a layout and at
      least one record; otherwise the placed dots of all records. */
  function HistoryDots(records: Option<seq<AnnotatedPitch>>, pitchZoneHeight: Option<real>, gridLayout: Option<Layout>): (dots: seq<Dot>)
    ensures pitchZoneHeight.None? || pitchZoneHeight == Some(0.0) || gridLayout.None? || records.None? || |records.value| == 0 ==> dots == []
    ensures pitchZoneHeight.Some? && pitchZoneHeight != Some(0.0) && gridLayout.Some? && records.Some? ==>
              forall i :: 0 <= i < |records.value| && Place(records.value, i, gridLayout.value.width, gridLayout.value.height).Some? ==>
                Place(records.value, i, gridLayout.value.width, gridLayout.value.height).value in dots
    ensures forall k, l :: 0 <= k < l < |dots| ==> dots[k].pitchIndex > dots[l].pitchIndex
    ensures records.Some? ==> forall k :: 0 <= k < |dots| ==> 1 <= dots[k].pitchIndex <= |records.value|
    ensures records.Some? && gridLayout.Some? ==>
              forall k :: 0 <= k < |dots| ==>
                Place(records.value, |records.value| - dots[k].pitchIndex, gridLayout.value.width, gridLayout.value.height) == Some(dots[k])
    ensures records.None? || gridLayout.None? ==> dots == []
  {
    if pitchZoneHeight.None? || pitchZoneHeight == Some(0.0) || gridLayout.None? || records.None? || |records.value| == 0 then []
    else PlaceFirst(records.value, |records.value|, gridLayout.value.width, gridLayout.value.height)
  }

  /** A record whose position was stored from a tap on the same grid is drawn
      exactly at the tapped pixel offset: scaling by the size undoes the
      zone mapper's normalisation. */
  lemma {:induction false} DotUndoesNormalisation(records: seq<AnnotatedPitch>, i: nat, g: Layout, absoluteX: real, absoluteY: real)
    requires i < |records| && g.width != 0.0 && g.height != 0.0
    requires records[i].pitch.gridX == Some(GetCellNumber(absoluteX, absoluteY, Some(g)).relX)
    requires records[i].pitch.gridY == Some(GetCellNumber(absoluteX, absoluteY, Some(g)).relY)
    ensures Place(records, i, g.width, g.height).Some?
    ensures Place(records, i, g.width, g.height).value.x == absoluteX - g.x
    ensures Place(records, i, g.width, g.height).value.y == absoluteY - g.y
  {
    var r := GetCellNumber(absoluteX, absoluteY, Some(g));
    PlacedAtScaledPosition(records, i, g.width, g.height);
    var d := Place(records, i, g.width, g.height).value;
    assert records[i].pitch.gridX.value == r.relX && records[i].pitch.gridY.value == r.relY;
    assert d.x == r.relX * g.width && d.y == r.relY * g.height;
  }

  /** A placed dot sits at the stored fractions scaled by the grid's size. */
  lemma {:induction false} PlacedAtScaledPosition(records: seq<AnnotatedPitch>, i: nat, gridW: real, gridH: real)
    requires i < |records|
    requires records[i].pitch.gridX.Some? && records[i].pitch.gridY.Some?
    ensures var d := Place(records, i, gridW, gridH);
            && d.Some?
            && d.value.x == records[i].pitch.gridX.value * gridW
            && d.value.y == records[i].pitch.gridY.value * gridH
            && d.value.id == records[i].pitch.id
            && d.value.color == ColorByResult(records[i].pitch.result, records[i].outcome)
  {
  }

  /** On the reducer's records the end outcome never changes a dot's colour:
      a strikeout is always a strike and a walk always a ball, so colouring by
      the result alone (as the archive view does) gives the same colour. */
  lemma {:induction false} OutcomeKeepsResultColour(raw: seq<Pitch>, k: nat)
    requires k < |Scored(Some(raw)).atBatRecords|
    ensures var r := Scored(Some(raw)).atBatRecords[k];
            ColorByResult(r.pitch.result, r.outcome) == ColorByResult(r.pitch.result, None)
  {
    var asc := SortByCreatedAt(raw);
    var ann := Annotate(asc);
    var i := |ann| - 1 - k;
    assert Scored(Some(raw)).atBatRecords[k] == ann[i];
    EndingCause(asc, i);
  }
}
