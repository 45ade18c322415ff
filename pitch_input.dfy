/** The pitch-input form: its fields, the results it offers for the current
    count, and the checks a save goes through before the pitch is handed on. */
module PitchInput {
  import opened PitchTypes
  import opened Sequences
  import opened BaseballLogic
  import opened SpeedInput

  /** The form's four fields; `speed` is still text. */
  datatype FormValues = FormValues(pitchType: string, result: PitchResult, speed: string, note: string)

  /** The fields of the tapped cell the payload copies. */
  datatype CellSelection = CellSelection(cellNumber: int, gridX: real, gridY: real)

  /** The data handed to the save callback. */
  datatype PitchPayload = PitchPayload(
    pitchType: string, result: PitchResult, speed: real,
    cellNumber: int, gridX: real, gridY: real, note: string)

  /** Why a save was refused: the at-bat is over ("打席已結束"), or the
      chosen result would exceed the count ("好球數已滿", "壞球數已滿"). */
  datatype SaveRejection = AtBatFinished | StrikesFull | BallsFull

  datatype SaveDecision = Rejected(reason: SaveRejection) | Submit(payload: PitchPayload)

  /** The values the form starts with and returns to when hidden. */
  const InitialValues: FormValues := FormValues(PitchTypesZh[0], PitchResults[0], "", "")

  /** `getResultOptions`: with three strikes, strike is no longer offered;
      otherwise with four balls, ball is no longer offered. */
  function GetResultOptions(status: AtBatStatus, options: seq<PitchResult>): (r: seq<PitchResult>)
    ensures status.strikes >= 3 ==> forall x :: x in r <==> x in options && x != Strike
    ensures status.strikes < 3 && status.balls >= 4 ==> forall x :: x in r <==> x in options && x != Ball
    ensures status.strikes < 3 && status.balls < 4 ==> r == options
    ensures IsSubsequence(r, options)
  {
    if status.strikes >= 3 then
      FilterIsSubsequence(options, x => x != Strike);
      Filter(options, x => x != Strike)
    else if status.balls >= 4 then
      FilterIsSubsequence(options, x => x != Ball);
      Filter(options, x => x != Ball)
    else
      FilterKeepsAccepted(options, x => true);
      FilterIsSubsequence(options, x => true);
      options
  }

  /** The options lose exactly the copies of the excluded result. */
  lemma {:induction false} ResultOptionsCount(status: AtBatStatus, options: seq<PitchResult>)
    ensures status.strikes >= 3 ==> |GetResultOptions(status, options)| == |options| - multiset(options)[Strike]
    ensures status.strikes < 3 && status.balls >= 4 ==> |GetResultOptions(status, options)| == |options| - multiset(options)[Ball]
  {
    if status.strikes >= 3 {
      FilterRejectCount(options, x => x != Strike, Strike);
    } else if status.balls >= 4 {
      FilterRejectCount(options, x => x != Ball, Ball);
    }
  }

  /** Of the game's four results at most one is ever withheld. */
  lemma {:induction false} AtMostOneResultWithheld(status: AtBatStatus)
    ensures |GetResultOptions(status, PitchResults)| >= |PitchResults| - 1
  {
    ResultOptionsCount(status, PitchResults);
    assert multiset(PitchResults) == multiset{Strike, Ball, Foul, InPlay};
  }

  /** The guard chain and payload of `handleSave`. `parseFloat` stands for
      JavaScript's number parsing: `None` is NaN. */
  function HandleSave(status: AtBatStatus, form: FormValues, cellInfo: CellSelection, parseFloat: string -> Option<real>): (d: SaveDecision)
    ensures d.Submit? <==> !status.isFinished && !(form.result == Strike && status.strikes >= 3) && !(form.result == Ball && status.balls >= 4)
    ensures status.isFinished ==> d == Rejected(AtBatFinished)
    ensures d == Rejected(StrikesFull) <==> !status.isFinished && form.result == Strike && status.strikes >= 3
    ensures d == Rejected(BallsFull) <==> !status.isFinished && form.result == Ball && status.balls >= 4
    ensures d.Submit? ==>
              && d.payload.pitchType == form.pitchType && d.payload.result == form.result && d.payload.note == form.note
              && d.payload.cellNumber == cellInfo.cellNumber && d.payload.gridX == cellInfo.gridX && d.payload.gridY == cellInfo.gridY
              && (parseFloat(form.speed).None? ==> d.payload.speed == 0.0)
              && (parseFloat(form.speed).Some? ==> d.payload.speed == parseFloat(form.speed).value)
  {
    if status.isFinished then Rejected(AtBatFinished)
    else if form.result == Strike && status.strikes >= 3 then Rejected(StrikesFull)
    else if form.result == Ball && status.balls >= 4 then Rejected(BallsFull)
    else
      var finalSpeed := parseFloat(form.speed).GetOr(0.0);
      Submit(PitchPayload(form.pitchType, form.result, finalSpeed,
                          cellInfo.cellNumber, cellInfo.gridX, cellInfo.gridY, form.note))
  }

  /** While the at-bat is open and the count is not full on both sides, the
      form offers exactly the results a save accepts. */
  lemma {:induction false} OffersMatchSaves(status: AtBatStatus, form: FormValues, cellInfo: CellSelection, parseFloat: string -> Option<real>)
    requires !status.isFinished && !(status.strikes >= 3 && status.balls >= 4)
    requires form.result in PitchResults
    ensures form.result in GetResultOptions(status, PitchResults) <==> HandleSave(status, form, cellInfo, parseFloat).Submit?
  {
  }

  /** A status the reducer produces never has both counts full, and while it
      is open neither count is full: every offered result of an open at-bat
      is saved. */
  lemma {:induction false} OpenScoredStatusAcceptsAll(raw: seq<Pitch>, form: FormValues, cellInfo: CellSelection, parseFloat: string -> Option<real>)
    ensures var st := Scored(Some(raw)).atBatStatus;
            && !(st.strikes >= 3 && st.balls >= 4)
            && (!st.isFinished ==> GetResultOptions(st, PitchResults) == PitchResults && HandleSave(st, form, cellInfo, parseFloat).Submit?)
  {
    var c := CountAfter(SortByCreatedAt(raw));
    assert Reachable(c);
  }

  /** The form's state: the four `useState` fields. */
  class PitchInputForm {
    var pitchType: string
    var result: PitchResult
    var speed: string
    var note: string

    function Values(): FormValues
      reads this
    {
      FormValues(pitchType, result, speed, note)
    }

    /** The speed text only ever holds what the speed field lets through. */
    predicate Valid()
      reads this
    {
      forall i :: 0 <= i < |speed| ==> IsSpeedChar(speed[i])
    }

    constructor ()
      ensures Valid()
      ensures Values() == InitialValues
    {
      pitchType := PitchTypesZh[0];
      result := PitchResults[0];
      speed := "";
      note := "";
    }

    method SetPitchType(t: string)
      requires Valid()
      modifies this
      ensures Valid()
      ensures Values() == old(Values()).(pitchType := t)
    {
      pitchType := t;
    }

    method SetResult(r: PitchResult)
      requires Valid()
      modifies this
      ensures Valid()
      ensures Values() == old(Values()).(result := r)
    {
      result := r;
    }

    method SetNote(n: string)
      requires Valid()
      modifies this
      ensures Valid()
      ensures Values() == old(Values()).(note := n)
    {
      note := n;
    }

    /** The speed field hands its sanitised text to `setSpeed`. */
    method EnterSpeed(text: string)
      requires Valid()
      modifies this
      ensures Valid()
      ensures Values() == old(Values()).(speed := FilterSpeed(text))
    {
      speed := FilterSpeed(text);
    }

    /** The reset effect: hiding the form restores the initial values; showing
      it keeps what is there. */
    method OnVisibilityChange(isVisible: bool)
      requires Valid()
      modifies this
      ensures Valid()
      ensures !isVisible ==> Values() == InitialValues
      ensures isVisible ==> Values() == old(Values())
    {
      if !isVisible {
        pitchType := PitchTypesZh[0];
        result := PitchResults[0];
        speed := "";
        note := "";
      }
    }

    /** `handleSave` on the current fields; the form itself is not changed. */
    method Save(status: AtBatStatus, cellInfo: CellSelection, parseFloat: string -> Option<real>) returns (d: SaveDecision)
      requires Valid()
      ensures d == HandleSave(status, Values(), cellInfo, parseFloat)
      ensures d.Submit? ==> d.payload.result == result && d.payload.cellNumber == cellInfo.cellNumber
    {
      d := HandleSave(status, Values(), cellInfo, parseFloat);
    }
  }
}
