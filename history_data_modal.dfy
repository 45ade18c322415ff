/** The archive detail view: its local copy of an archived at-bat's pitch
    list, the removal of one pitch and the numbers and colours of the rows. */
module HistoryDataModal {
  import opened PitchTypes
  import opened Sequences
  import opened Colors
  import opened BaseballLogic
  import opened AtBatService
  import opened PitchHistoryDots

  /** An archived at-bat as the view receives it. */
  datatype StoredAtBat = StoredAtBat(id: string, pitchRecords: Option<seq<ArchivedPitch>>)

  /** The arguments handed to the update callback. */
  datatype PitchUpdate = PitchUpdate(recordId: string, pitches: seq<ArchivedPitch>)

  /** The numbers shown beside the rows of a list of `count` pitches, top
      to bottom. */
  function RowNumbers(count: nat): (labels: seq<nat>)
    ensures |labels| == count
    ensures forall i :: 0 <= i < count ==> labels[i] == PitchNumber(count, i)
    ensures forall i, j :: 0 <= i < j < count ==> labels[i] > labels[j]
    ensures count > 0 ==> labels[0] == count && labels[count - 1] == 1
  {
    seq(count, i requires 0 <= i < count => PitchNumber(count, i))
  }

  /** The colour of an archived row: the archive keeps no outcome, so only
      the result decides. */
  function RowColor(p: ArchivedPitch): (c: Color)
    ensures c == BallColor <==> p.result == Ball
    ensures c == StrikeColor <==> p.result == Strike
    ensures c == FoulColor <==> p.result == Foul
  {
    ColorByResult(p.result, None)
  }

  /** Archiving a scored at-bat does not change the colour of any pitch: the
      row colour equals the colour its dot had while the at-bat was live. */
  lemma {:induction false} ArchivedColourMatchesLive(raw: seq<Pitch>, k: nat)
    requires k < |Scored(Some(raw)).atBatRecords|
    ensures var r := Scored(Some(raw)).atBatRecords[k];
            RowColor(ArchivePitch(r)) == ColorByResult(r.pitch.result, r.outcome)
  {
    OutcomeKeepsResultColour(raw, k);
  }

  /** The view's state: `localPitches`. */
  class HistoryDataModalState {
    var localPitches: seq<ArchivedPitch>

    constructor ()
      ensures localPitches == []
    {
      localPitches := [];
    }

    /** The effect run when a record arrives: a record carrying a pitch list
        (even an empty one) replaces the local list; otherwise it is kept. */
    method SyncFromRecord(record: Option<StoredAtBat>)
      modifies this
      ensures record.Some? && record.value.pitchRecords.Some? ==> localPitches == record.value.pitchRecords.value
      ensures record.None? || record.value.pitchRecords.None? ==> localPitches == old(localPitches)
    {
      if record.Some? && record.value.pitchRecords.Some? {
        localPitches := record.value.pitchRecords.value;
      }
    }

    /** `handleDeleteSinglePitch` once confirmed: the list without the pitch
        at `index` becomes the local list and is handed, with the record's
        id, to the update callback. */
    method DeleteSinglePitch(record: StoredAtBat, index: int) returns (update: PitchUpdate)
      modifies this
      ensures localPitches == SpliceOne(old(localPitches), index)
      ensures update == PitchUpdate(record.id, localPitches)
      ensures 0 <= index < |old(localPitches)| ==>
                && |localPitches| == |old(localPitches)| - 1
                && localPitches == old(localPitches)[..index] + old(localPitches)[index + 1..]
    {
      var newPitches := SpliceCopy(localPitches, index);
      localPitches := newPitches;
      update := PitchUpdate(record.id, newPitches);
    }
  }
}
