/** The speed field's text sanitiser: every character other than a decimal
    digit or '.' is deleted as it is typed. */
module SpeedInput {
  import opened Sequences

  predicate IsSpeedChar(c: char) {
    '0' <= c <= '9' || c == '.'
  }

  /** `text.replace(/[^0-9.]/g, '')`. */
  function FilterSpeed(text: string): (r: string)
    ensures forall c :: c in r ==> IsSpeedChar(c)
    ensures forall i :: 0 <= i < |text| && IsSpeedChar(text[i]) ==> text[i] in r
    ensures |r| <= |text|
  {
    Filter(text, IsSpeedChar)
  }

  /** The result is the input with characters deleted, in their original order,
      and every occurrence of an allowed character survives. */
  lemma {:induction false} FilterSpeedDeletesOnly(text: string, c: char)
    ensures IsSubsequence(FilterSpeed(text), text)
    ensures multiset(FilterSpeed(text))[c] == if IsSpeedChar(c) then multiset(text)[c] else 0
  {
    FilterIsSubsequence(text, IsSpeedChar);
    FilterCounts(text, IsSpeedChar, c);
  }

  /** Sanitising an already sanitised text changes nothing. */
  lemma {:induction false} FilterSpeedIdempotent(text: string)
    ensures FilterSpeed(FilterSpeed(text)) == FilterSpeed(text)
  {
    FilterIdempotent(text, IsSpeedChar);
  }

  /** Text made only of digits and dots passes through unchanged; in
      particular repeated dots are kept. */
  lemma {:induction false} FilterSpeedKeepsNumbers(text: string)
    requires forall i :: 0 <= i < |text| ==> IsSpeedChar(text[i])
    ensures FilterSpeed(text) == text
  {
    FilterKeepsAccepted(text, IsSpeedChar);
  }

  /** "1.2.3" is not collapsed to a single number. */
  lemma {:induction false} RepeatedDotsKept()
    ensures FilterSpeed("1.2.3") == "1.2.3"
  {
    FilterSpeedKeepsNumbers("1.2.3");
  }

  /** Text without a digit or a dot empties the field. */
  lemma {:induction false} FilterSpeedDropsLetters(text: string)
    requires forall i :: 0 <= i < |text| ==> !IsSpeedChar(text[i])
    ensures FilterSpeed(text) == ""
  {
    FilterDropsRejected(text, IsSpeedChar);
  }

  /** The field is sanitised on every change: appending `typed` to an already
      sanitised `prev` ends with the same text as sanitising everything typed
      so far in one go. */
  lemma {:induction false} SanitiseAsYouType(prev: string, typed: string)
    ensures FilterSpeed(FilterSpeed(prev) + typed) == FilterSpeed(prev + typed)
  {
    FilterAppend(FilterSpeed(prev), typed, IsSpeedChar);
    FilterAppend(prev, typed, IsSpeedChar);
    FilterSpeedIdempotent(prev);
  }
}
