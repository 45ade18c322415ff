/** The fixed values of the game (pitch results, pitch types, grid size) and
    the shape of one stored pitch record, shared by every other module. */
module PitchTypes {

  datatype Option<+T> = None | Some(value: T) {
    /** The wrapped value, or `default` when there is none (JavaScript's `x || default`
        for a field that is either missing or present). */
    function GetOr(default: T): T {
      match this
      case Some(v) => v
      case None => default
    }
  }

  /** The result the user records for one pitch. The four named cases are the
      closed set of the game; `Other` keeps any other text (a record without a
      result reads as `Other("")`). */
  datatype PitchResult = Strike | Ball | Foul | InPlay | Other(text: string)

  /** How an at-bat ends, attached to the one pitch that ends it as
      `atBatEndOutcome`: "三振" (strikeout), "保送" (walk) or "打擊出去"
      (ball in play). */
  datatype Outcome = Strikeout | Walk | BallInPlay

  /** Number of rows and of columns of the strike-zone grid. */
  const GridCellSize: nat := 3

  /** The results offered by the input form, in display order. */
  const PitchResults: seq<PitchResult> := [Strike, Ball, Foul, InPlay]

  /** The pitch types offered by the input form, in display order. */
  const PitchTypesZh: seq<string> := ["四縫線快速球", "變速球", "滑球", "橫掃球", "曲球", "伸卡球", "其他"]

  function ResultText(r: PitchResult): string {
    match r
    case Strike => "好球"
    case Ball => "壞球"
    case Foul => "界外"
    case InPlay => "打擊出去"
    case Other(t) => t
  }

  /** The string comparisons the source makes on `record.result`. */
  function ParseResult(s: string): (r: PitchResult)
    ensures ResultText(r) == s
    ensures r.Other? <==> s !in {"好球", "壞球", "界外", "打擊出去"}
  {
    if s == "好球" then Strike
    else if s == "壞球" then Ball
    else if s == "界外" then Foul
    else if s == "打擊出去" then InPlay
    else Other(s)
  }

  /** One pitch as the store delivers it. Fields that may be absent are options;
      `createdAt` is the timestamp in milliseconds. */
  datatype Pitch = Pitch(
    id: string,
    result: PitchResult,
    pitchType: Option<string>,
    speed: Option<real>,
    cellNumber: Option<int>,
    gridX: Option<real>,
    gridY: Option<real>,
    note: Option<string>,
    createdAt: Option<int>)

  /** The label shown for the element at `index` of a list of `count` entries
      whose newest entry comes first: `count - index`. */
  function PitchNumber(count: nat, index: nat): (k: nat)
    requires index < count
    ensures 1 <= k <= count
    ensures k == count - index
  {
    count - index
  }
}
