/** The archive payload builder: turns the newest-first annotated pitches of
    the current at-bat into the summary record written to the history. */
module AtBatService {
  import opened PitchTypes
  import opened Sequences
  import opened BaseballLogic

  /** `finalOutcome`: "已彙整" (summarised), "三振" (strikeout) or "保送" (walk). */
  datatype FinalOutcome = Summarised | StruckOut | Walked

  /** One entry of `pitchRecords`: every field present, defaults filled in. */
  datatype ArchivedPitch = ArchivedPitch(
    pitchType: string, result: PitchResult, speed: real, cellNumber: int,
    gridX: real, gridY: real, note: string)

  /** The summary record; `startAt` and `updatedAt` are milliseconds. */
  datatype AtBatSummary = AtBatSummary(
    atBatLabel: string,
    finalOutcome: FinalOutcome,
    summaryNote: string,
    totalPitches: nat,
    pitchRecords: seq<ArchivedPitch>,
    finalBalls: nat,
    finalStrikes: nat,
    startAt: int,
    updatedAt: int)

  const UntitledLabel: string := "未命名打席"

  /** One pitch reduced to its persisted fields; a missing string becomes '',
      a missing or non-numeric number becomes 0. */
  function ArchivePitch(r: AnnotatedPitch): (a: ArchivedPitch)
    ensures a.result == r.pitch.result
    ensures r.pitch.gridX.None? ==> a.gridX == 0.0
    ensures r.pitch.gridY.None? ==> a.gridY == 0.0
    ensures r.pitch.speed.None? ==> a.speed == 0.0
    ensures r.pitch.cellNumber.None? ==> a.cellNumber == 0
    ensures r.pitch.pitchType.None? ==> a.pitchType == ""
    ensures r.pitch.note.None? ==> a.note == ""
    ensures r.pitch.gridX.Some? ==> a.gridX == r.pitch.gridX.value
    ensures r.pitch.gridY.Some? ==> a.gridY == r.pitch.gridY.value
    ensures r.pitch.speed.Some? ==> a.speed == r.pitch.speed.value
    ensures r.pitch.cellNumber.Some? ==> a.cellNumber == r.pitch.cellNumber.value
    ensures r.pitch.pitchType.Some? ==> a.pitchType == r.pitch.pitchType.value
    ensures r.pitch.note.Some? ==> a.note == r.pitch.note.value
  {
    ArchivedPitch(
      r.pitch.pitchType.GetOr(""),
      r.pitch.result,
      r.pitch.speed.GetOr(0.0),
      r.pitch.cellNumber.GetOr(0),
      r.pitch.gridX.GetOr(0.0),
      r.pitch.gridY.GetOr(0.0),
      r.pitch.note.GetOr(""))
  }

  function ArchiveAll(records: seq<AnnotatedPitch>): (r: seq<ArchivedPitch>)
    ensures |r| == |records|
    ensures forall i :: 0 <= i < |records| ==> r[i] == ArchivePitch(records[i])
  {
    seq(|records|, i requires 0 <= i < |records| => ArchivePitch(records[i]))
  }

  /** `formatAtBatData`. `records` is `None` when the argument is not an array;
      `now` stands for the clock the source reads with `new Date()`. A falsy
      title is `None` or "". */
  function FormatAtBatData(title: Option<string>, note: Option<string>, records: Option<seq<AnnotatedPitch>>, now: int): (s: AtBatSummary)
    ensures var safe := records.GetOr([]);
            && s.totalPitches == |safe|
            && |s.pitchRecords| == |safe|
            && (forall i :: 0 <= i < |safe| ==> s.pitchRecords[i] == ArchivePitch(safe[i]))
            && s.finalBalls == (if |safe| > 0 then safe[0].runningBalls else 0)
            && s.finalStrikes == (if |safe| > 0 then safe[0].runningStrikes else 0)
            && (s.finalOutcome == Walked <==> s.finalBalls >= 4)
            && (s.finalOutcome == StruckOut <==> s.finalStrikes >= 3 && s.finalBalls < 4)
            && (s.finalOutcome == Summarised <==> s.finalStrikes < 3 && s.finalBalls < 4)
            && s.startAt == (if |safe| > 0 && safe[|safe| - 1].pitch.createdAt.Some? then safe[|safe| - 1].pitch.createdAt.value else now)
            && s.updatedAt == now
    ensures s.atBatLabel == if title.None? || title.value == "" then UntitledLabel else title.value
    ensures s.summaryNote == note.GetOr("")
  {
    var safeRecords := records.GetOr([]);
    var latestBalls := if |safeRecords| > 0 then safeRecords[0].runningBalls else 0;
    var latestStrikes := if |safeRecords| > 0 then safeRecords[0].runningStrikes else 0;
    var firstPitch := if |safeRecords| > 0 then Some(safeRecords[|safeRecords| - 1]) else None;
    var outcome := if latestStrikes >= 3 then StruckOut else Summarised;
    var outcome := if latestBalls >= 4 then Walked else outcome;
    AtBatSummary(
      if title.None? || title.value == "" then UntitledLabel else title.value,
      outcome,
      note.GetOr(""),
      |safeRecords|,
      ArchiveAll(safeRecords),
      latestBalls,
      latestStrikes,
      if firstPitch.Some? && firstPitch.value.pitch.createdAt.Some? then firstPitch.value.pitch.createdAt.value else now,
      now)
  }

  /** Archiving the reducer's output keeps the status counts and the pitch
      count, and starts at the oldest pitch. */
  lemma {:induction false} ArchiveKeepsStatus(raw: seq<Pitch>, title: Option<string>, note: Option<string>, now: int)
    ensures var v := Scored(Some(raw));
            var s := FormatAtBatData(title, note, Some(v.atBatRecords), now);
            && s.finalBalls == v.atBatStatus.balls
            && s.finalStrikes == v.atBatStatus.strikes
            && s.totalPitches == v.atBatStatus.atBatRecordsCount
            && (|raw| > 0 && SortByCreatedAt(raw)[0].createdAt.Some? ==> s.startAt == SortByCreatedAt(raw)[0].createdAt.value)
  {
    var v := Scored(Some(raw));
    StatusMatchesNewest(raw);
    if |raw| > 0 {
      var asc := SortByCreatedAt(raw);
      var n := |v.atBatRecords|;
      assert v.atBatRecords[n - 1] == Annotate(asc)[0];
      assert v.atBatRecords[n - 1].pitch == asc[0];
    }
  }

  /** The archive names a strikeout or a walk exactly when the scored at-bat
      ended that way; a ball in play or an unfinished at-bat is archived as
      summarised. */
  lemma {:induction false} ArchiveOutcomeMatchesEnding(raw: seq<Pitch>, title: Option<string>, note: Option<string>, now: int)
    ensures var v := Scored(Some(raw));
            var s := FormatAtBatData(title, note, Some(v.atBatRecords), now);
            && (s.finalOutcome == StruckOut <==> exists i :: 0 <= i < |v.atBatRecords| && v.atBatRecords[i].outcome == Some(Strikeout))
            && (s.finalOutcome == Walked <==> exists i :: 0 <= i < |v.atBatRecords| && v.atBatRecords[i].outcome == Some(Walk))
  {
    var asc := SortByCreatedAt(raw);
    var v := Scored(Some(raw));
    var s := FormatAtBatData(title, note, Some(v.atBatRecords), now);
    var c := CountAfter(asc);
    ArchiveKeepsStatus(raw, title, note, now);
    assert s.finalBalls == c.balls && s.finalStrikes == c.strikes;
    assert Reachable(c);
    assert s.finalOutcome == StruckOut <==> c.strikes == 3;
    assert s.finalOutcome == Walked <==> c.balls == 4;
    EndingsMatchFinalCount(asc);
    assert v.atBatRecords == Reversed(Annotate(asc));
    ReversedOutcomes(Annotate(asc));
  }
}
