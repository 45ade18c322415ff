/** The ball/strike reducer: sorts the raw pitches by creation time, walks them
    once keeping the balls, strikes and finished flag, tags every pitch with the
    running count and the outcome it causes, and returns the pitches newest
    first together with the aggregate status. */
module BaseballLogic {
  import opened PitchTypes
  import opened Sequences

  /** The three variables the walk updates: `balls`, `strikes`, `isAtBatFinished`. */
  datatype Count = Count(balls: nat, strikes: nat, finished: bool)

  const Fresh: Count := Count(0, 0, false)

  /** The counts the walk can reach: at most four balls and three strikes, the
      fourth ball or third strike only on a finished at-bat, and never both. */
  predicate Reachable(c: Count) {
    && c.balls <= 4 && c.strikes <= 3
    && (c.balls == 4 ==> c.finished)
    && (c.strikes == 3 ==> c.finished)
    && !(c.balls == 4 && c.strikes == 3)
  }

  datatype StepResult = StepResult(count: Count, outcome: Option<Outcome>)

  /** One pitch of the walk: the new counters and the end outcome this pitch is tagged with. */
  function Step(c: Count, r: PitchResult): (s: StepResult)
    ensures s.count.balls >= c.balls && s.count.strikes >= c.strikes
    ensures c.finished ==> s == StepResult(c, None)
    ensures s.outcome.Some? <==> !c.finished && s.count.finished
    ensures c.finished ==> s.count.finished
    ensures Reachable(c) ==> Reachable(s.count)
    ensures s.outcome == Some(Strikeout) ==> r == Strike && s.count.strikes == c.strikes + 1 >= 3
    ensures s.outcome == Some(Walk) ==> r == Ball && s.count.balls == c.balls + 1 >= 4
    ensures s.outcome == Some(BallInPlay) ==> r == InPlay && s.count.balls == c.balls && s.count.strikes == c.strikes
    ensures Reachable(c) && c.strikes < 3 && s.count.strikes == 3 ==> s.outcome == Some(Strikeout)
    ensures Reachable(c) && c.balls < 4 && s.count.balls == 4 ==> s.outcome == Some(Walk)
    ensures r == Foul ==> s.count.finished == c.finished
    ensures r.Other? ==> s == StepResult(c, None)
    // What each result does to an open at-bat.
    ensures !c.finished && r == Strike ==>
              && s.count.balls == c.balls && s.count.strikes == c.strikes + 1
              && (s.count.finished <==> c.strikes >= 2)
              && (s.outcome == Some(Strikeout) <==> c.strikes >= 2)
    ensures !c.finished && r == Ball ==>
              && s.count.strikes == c.strikes && s.count.balls == c.balls + 1
              && (s.count.finished <==> c.balls >= 3)
              && (s.outcome == Some(Walk) <==> c.balls >= 3)
    ensures !c.finished && r == Foul ==>
              && s.count.balls == c.balls && !s.count.finished && s.outcome.None?
              && s.count.strikes == (if c.strikes < 2 then c.strikes + 1 else c.strikes)
    ensures !c.finished && r == InPlay ==> s == StepResult(c.(finished := true), Some(BallInPlay))
  {
    if c.finished then StepResult(c, None)
    else
      match r
      case Strike =>
        if c.strikes < 2 then StepResult(c.(strikes := c.strikes + 1), None)
        else StepResult(Count(c.balls, c.strikes + 1, true), Some(Strikeout))
      case Ball =>
        if c.balls < 3 then StepResult(c.(balls := c.balls + 1), None)
        else StepResult(Count(c.balls + 1, c.strikes, true), Some(Walk))
      case Foul =>
        if c.strikes < 2 then StepResult(c.(strikes := c.strikes + 1), None)
        else StepResult(c, None)
      case InPlay => StepResult(c.(finished := true), Some(BallInPlay))
      case Other(_) => StepResult(c, None)
  }

  /** A pitch with the running count through it and the outcome it caused. */
  datatype AnnotatedPitch = AnnotatedPitch(pitch: Pitch, runningBalls: nat, runningStrikes: nat, outcome: Option<Outcome>)

  /** The annotation of pitch `p` when the counters stand at `c` before it. */
  function AnnotateNext(c: Count, p: Pitch): (a: AnnotatedPitch)
    ensures a.pitch == p
    ensures a.runningBalls >= c.balls && a.runningStrikes >= c.strikes
    ensures c.finished ==> a == AnnotatedPitch(p, c.balls, c.strikes, None)
    ensures a.outcome.Some? ==> !c.finished
    ensures a.runningBalls == Step(c, p.result).count.balls && a.runningStrikes == Step(c, p.result).count.strikes
    ensures a.outcome == Step(c, p.result).outcome
  {
    var st := Step(c, p.result);
    AnnotatedPitch(p, st.count.balls, st.count.strikes, st.outcome)
  }

  /** The counters after walking the chronologically ordered pitches `s`. */
  function CountAfter(s: seq<Pitch>): (c: Count)
    ensures Reachable(c)
  {
    if s == [] then Fresh else Step(CountAfter(s[..|s| - 1]), s[|s| - 1].result).count
  }

  /** The annotated pitches the walk produces from the ordered pitches `s`. */
  function Annotate(s: seq<Pitch>): (r: seq<AnnotatedPitch>)
    ensures |r| == |s|
    ensures forall i :: 0 <= i < |s| ==> r[i].pitch == s[i]
  {
    if s == [] then []
    else Annotate(s[..|s| - 1]) + [AnnotateNext(CountAfter(s[..|s| - 1]), s[|s| - 1])]
  }

  /** The counting loop of the source: walks `sorted` once, updating the three
      counters record by record. */
  method ProcessAscending(sorted: seq<Pitch>) returns (processed: seq<AnnotatedPitch>, count: Count)
    ensures processed == Annotate(sorted)
    ensures count == CountAfter(sorted)
  {
    var balls: nat, strikes: nat, isAtBatFinished := 0, 0, false;
    processed := [];
    var i := 0;
    while i < |sorted|
      invariant 0 <= i <= |sorted|
      invariant processed == Annotate(sorted[..i])
      invariant Count(balls, strikes, isAtBatFinished) == CountAfter(sorted[..i])
    {
      var record := sorted[i];
      AnnotateExtend(sorted, i);
      ghost var before := Count(balls, strikes, isAtBatFinished);
      if isAtBatFinished {
        assert AnnotatedPitch(record, balls, strikes, None) == AnnotateNext(before, record);
        processed := processed + [AnnotatedPitch(record, balls, strikes, None)];
      } else {
        var atBatEndOutcome: Option<Outcome> := None;
        match record.result {
          case Strike =>
            if strikes < 2 {
              strikes := strikes + 1;
            } else {
              strikes := strikes + 1;
              atBatEndOutcome := Some(Strikeout);
              isAtBatFinished := true;
            }
          case Ball =>
            if balls < 3 {
              balls := balls + 1;
            } else {
              balls := balls + 1;
              atBatEndOutcome := Some(Walk);
              isAtBatFinished := true;
            }
          case Foul =>
            if strikes < 2 {
              strikes := strikes + 1;
            }
          case InPlay =>
            atBatEndOutcome := Some(BallInPlay);
            isAtBatFinished := true;
          case Other(_) =>
        }
        assert Count(balls, strikes, isAtBatFinished) == Step(before, record.result).count;
        assert AnnotatedPitch(record, balls, strikes, atBatEndOutcome) == AnnotateNext(before, record);
        processed := processed + [AnnotatedPitch(record, balls, strikes, atBatEndOutcome)];
      }
      i := i + 1;
    }
    assert sorted[..i] == sorted;
    count := Count(balls, strikes, isAtBatFinished);
  }

  // ---------------------------------------------------------------------------
  // Properties of the walk

  /** Walking one more pitch appends its annotation and advances the count. */
  lemma {:induction false} AnnotateExtend(s: seq<Pitch>, i: nat)
    requires i < |s|
    ensures Annotate(s[..i + 1]) == Annotate(s[..i]) + [AnnotateNext(CountAfter(s[..i]), s[i])]
    ensures CountAfter(s[..i + 1]) == Step(CountAfter(s[..i]), s[i].result).count
  {
    assert s[..i + 1][..i] == s[..i];
  }

  lemma {:induction false} AnnotatePrefix(s: seq<Pitch>, k: nat)
    requires k <= |s|
    ensures Annotate(s)[..k] == Annotate(s[..k])
    decreases |s|
  {
    if k == |s| {
      assert s[..k] == s;
    } else {
      var init := s[..|s| - 1];
      assert init[..k] == s[..k];
      AnnotatePrefix(init, k);
      assert Annotate(s)[..k] == Annotate(init)[..k];
    }
  }

  /** Pitch `i` is annotated from the count after the pitches before it. */
  lemma {:induction false} AnnotateAt(s: seq<Pitch>, i: nat)
    requires i < |s|
    ensures Annotate(s)[i] == AnnotateNext(CountAfter(s[..i]), s[i])
    ensures CountAfter(s[..i + 1]) == Step(CountAfter(s[..i]), s[i].result).count
  {
    AnnotatePrefix(s, i + 1);
    assert s[..i + 1][..i] == s[..i];
    assert Annotate(s)[i] == Annotate(s)[..i + 1][i];
  }

  /** Every record carries the counters as they stand after its own pitch. */
  lemma {:induction false} RunningCountsAreCountAfter(s: seq<Pitch>, i: nat)
    requires i < |s|
    ensures Annotate(s)[i].runningBalls == CountAfter(s[..i + 1]).balls
    ensures Annotate(s)[i].runningStrikes == CountAfter(s[..i + 1]).strikes
  {
    AnnotateAt(s, i);
  }

  /** Counters never go down as the walk proceeds, and once finished they stay fixed. */
  lemma {:induction false} CountMonotone(s: seq<Pitch>, i: nat, j: nat)
    requires i <= j <= |s|
    ensures CountAfter(s[..i]).balls <= CountAfter(s[..j]).balls
    ensures CountAfter(s[..i]).strikes <= CountAfter(s[..j]).strikes
    ensures CountAfter(s[..i]).finished ==> CountAfter(s[..j]) == CountAfter(s[..i])
    decreases j - i
  {
    if i < j {
      CountMonotone(s, i, j - 1);
      AnnotateAt(s, j - 1);
    }
  }

  /** Running counts never decrease along chronological order and stay within
      four balls and three strikes. */
  lemma {:induction false} RunningCountsMonotoneAndBounded(s: seq<Pitch>, i: nat, j: nat)
    requires i <= j < |s|
    ensures Annotate(s)[i].runningBalls <= Annotate(s)[j].runningBalls
    ensures Annotate(s)[i].runningStrikes <= Annotate(s)[j].runningStrikes
    ensures Annotate(s)[j].runningBalls <= 4 && Annotate(s)[j].runningStrikes <= 3
  {
    AnnotateAt(s, i);
    AnnotateAt(s, j);
    CountMonotone(s, i + 1, j + 1);
  }

  /** Only one pitch is tagged with an end outcome; every later pitch carries
      the final counts and no outcome. */
  lemma {:induction false} AtMostOneEnding(s: seq<Pitch>, i: nat, j: nat)
    requires i < j < |s|
    requires Annotate(s)[i].outcome.Some?
    ensures Annotate(s)[j].outcome.None?
    ensures Annotate(s)[j].runningBalls == Annotate(s)[i].runningBalls
    ensures Annotate(s)[j].runningStrikes == Annotate(s)[i].runningStrikes
  {
    AnnotateAt(s, i);
    AnnotateAt(s, j);
    CountMonotone(s, i + 1, j);
  }

  /** The at-bat ends with a strikeout exactly when the final count has three
      strikes, with a walk exactly when it has four balls, and it is finished
      exactly when some pitch carries an end outcome. */
  lemma {:induction false} EndingsMatchFinalCount(s: seq<Pitch>)
    ensures CountAfter(s).strikes == 3 <==> exists i :: 0 <= i < |s| && Annotate(s)[i].outcome == Some(Strikeout)
    ensures CountAfter(s).balls == 4 <==> exists i :: 0 <= i < |s| && Annotate(s)[i].outcome == Some(Walk)
    ensures CountAfter(s).finished <==> exists i :: 0 <= i < |s| && Annotate(s)[i].outcome.Some?
  {
    if s != [] {
      var n := |s| - 1;
      var init := s[..n];
      EndingsMatchFinalCount(init);
      AnnotateAt(s, n);
      AnnotatePrefix(s, n);
      assert s[..n + 1] == s;
      var c := CountAfter(init);
      var st := Step(c, s[n].result);
      assert CountAfter(s) == st.count;
      assert Annotate(s)[n].outcome == st.outcome;
      assert Earlier: forall i :: 0 <= i < n ==> Annotate(s)[i] == Annotate(init)[i] by {
        forall i | 0 <= i < n ensures Annotate(s)[i] == Annotate(init)[i] {
          assert Annotate(s)[i] == Annotate(s)[..n][i];
        }
      }
      EndingStep(Annotate(s), Annotate(init), c, s[n].result);
    }
  }

  /** The induction step of EndingsMatchFinalCount: `a` extends `b` by the
      annotation of one pitch with result `r` taken at count `c`. */
  lemma {:induction false} EndingStep(a: seq<AnnotatedPitch>, b: seq<AnnotatedPitch>, c: Count, r: PitchResult)
    requires |a| == |b| + 1 && Reachable(c)
    requires forall i :: 0 <= i < |b| ==> a[i] == b[i]
    requires a[|b|].outcome == Step(c, r).outcome
    requires c.strikes == 3 <==> exists i :: 0 <= i < |b| && b[i].outcome == Some(Strikeout)
    requires c.balls == 4 <==> exists i :: 0 <= i < |b| && b[i].outcome == Some(Walk)
    requires c.finished <==> exists i :: 0 <= i < |b| && b[i].outcome.Some?
    ensures Step(c, r).count.strikes == 3 <==> exists i :: 0 <= i < |a| && a[i].outcome == Some(Strikeout)
    ensures Step(c, r).count.balls == 4 <==> exists i :: 0 <= i < |a| && a[i].outcome == Some(Walk)
    ensures Step(c, r).count.finished <==> exists i :: 0 <= i < |a| && a[i].outcome.Some?
  {
    var n := |b|;
    if c.finished {
      var i :| 0 <= i < n && b[i].outcome.Some?;
      assert a[i].outcome.Some?;
      if c.strikes == 3 {
        var k :| 0 <= k < n && b[k].outcome == Some(Strikeout);
        assert a[k].outcome == Some(Strikeout);
      }
      if c.balls == 4 {
        var k :| 0 <= k < n && b[k].outcome == Some(Walk);
        assert a[k].outcome == Some(Walk);
      }
    } else {
      assert forall i :: 0 <= i < n ==> a[i].outcome.None?;
      if Step(c, r).count.finished {
        assert a[n].outcome.Some?;
      }
    }
  }

  /** The pitch tagged with an outcome is the one that caused it. */
  lemma {:induction false} EndingCause(s: seq<Pitch>, i: nat)
    requires i < |s|
    ensures Annotate(s)[i].outcome == Some(Strikeout) ==> s[i].result == Strike && Annotate(s)[i].runningStrikes == 3
    ensures Annotate(s)[i].outcome == Some(Walk) ==> s[i].result == Ball && Annotate(s)[i].runningBalls == 4
    ensures Annotate(s)[i].outcome == Some(BallInPlay) ==> s[i].result == InPlay
  {
    AnnotateAt(s, i);
  }

  /** Changing pitch `k` (editing it) leaves the annotation of every earlier
      pitch unchanged: recomputation only cascades forward. */
  lemma {:induction false} EditKeepsEarlier(s: seq<Pitch>, k: nat, p: Pitch)
    requires k < |s|
    ensures Annotate(s[k := p])[..k] == Annotate(s)[..k]
  {
    AnnotatePrefix(s, k);
    AnnotatePrefix(s[k := p], k);
    assert s[k := p][..k] == s[..k];
  }

  // ---------------------------------------------------------------------------
  // Chronological order

  /** The sort key: `createdAt`, with a missing timestamp read as 0. */
  function SortKey(p: Pitch): (k: int)
    ensures p.createdAt.None? ==> k == 0
    ensures p.createdAt.Some? ==> k == p.createdAt.value
  {
    p.createdAt.GetOr(0)
  }

  predicate SortedByKey(s: seq<Pitch>) {
    forall i, j :: 0 <= i < j < |s| ==> SortKey(s[i]) <= SortKey(s[j])
  }

  /** Puts `p` after every element whose key is at most `p`'s. */
  function InsertByKey(sorted: seq<Pitch>, p: Pitch): (r: seq<Pitch>)
    ensures |r| == |sorted| + 1
  {
    if sorted == [] then [p]
    else if SortKey(sorted[|sorted| - 1]) <= SortKey(p) then sorted + [p]
    else InsertByKey(sorted[..|sorted| - 1], p) + [sorted[|sorted| - 1]]
  }

  /** The stable ascending sort by `createdAt` that `Array.prototype.sort`
      performs with the source's comparator. */
  function SortByCreatedAt(s: seq<Pitch>): (r: seq<Pitch>)
    ensures |r| == |s|
  {
    if s == [] then [] else InsertByKey(SortByCreatedAt(s[..|s| - 1]), s[|s| - 1])
  }

  /** Insertion adds exactly `p` to the multiset of pitches. */
  lemma {:induction false} InsertByKeyPermutes(sorted: seq<Pitch>, p: Pitch)
    ensures multiset(InsertByKey(sorted, p)) == multiset(sorted) + multiset{p}
    decreases |sorted|
  {
    if sorted != [] && SortKey(sorted[|sorted| - 1]) > SortKey(p) {
      var init, last := sorted[..|sorted| - 1], sorted[|sorted| - 1];
      InsertByKeyPermutes(init, p);
      assert sorted == init + [last];
    }
  }

  /** Insertion into an ordered list keeps it ordered. */
  lemma {:induction false} InsertByKeySorted(sorted: seq<Pitch>, p: Pitch)
    requires SortedByKey(sorted)
    ensures SortedByKey(InsertByKey(sorted, p))
    decreases |sorted|
  {
    if sorted == [] {
    } else if SortKey(sorted[|sorted| - 1]) <= SortKey(p) {
      forall x | x in sorted
        ensures SortKey(x) <= SortKey(p)
      {
        var k :| 0 <= k < |sorted| && sorted[k] == x;
        assert k == |sorted| - 1 || SortKey(sorted[k]) <= SortKey(sorted[|sorted| - 1]);
      }
      SortedSnoc(sorted, p);
    } else {
      var init, last := sorted[..|sorted| - 1], sorted[|sorted| - 1];
      assert SortedByKey(init);
      InsertByKeySorted(init, p);
      InsertByKeyPermutes(init, p);
      var r' := InsertByKey(init, p);
      forall x | x in r'
        ensures SortKey(x) <= SortKey(last)
      {
        assert x in multiset(r');
        if x != p {
          assert x in multiset(init);
          var k :| 0 <= k < |init| && init[k] == x;
          assert sorted[k] == x;
        }
      }
      SortedSnoc(r', last);
    }
  }

  /** Appending a pitch whose key is at least every key keeps a list ordered. */
  lemma {:induction false} SortedSnoc(s: seq<Pitch>, x: Pitch)
    requires SortedByKey(s)
    requires forall y :: y in s ==> SortKey(y) <= SortKey(x)
    ensures SortedByKey(s + [x])
  {
    var r := s + [x];
    forall i, j | 0 <= i < j < |r|
      ensures SortKey(r[i]) <= SortKey(r[j])
    {
      if j == |s| {
        assert r[i] == s[i] && s[i] in s;
      } else {
        assert r[i] == s[i] && r[j] == s[j];
      }
    }
  }

  /** The sort yields an ascending permutation of its input. */
  lemma {:induction false} SortByCreatedAtCorrect(s: seq<Pitch>)
    ensures SortedByKey(SortByCreatedAt(s))
    ensures multiset(SortByCreatedAt(s)) == multiset(s)
  {
    if s != [] {
      var init := s[..|s| - 1];
      SortByCreatedAtCorrect(init);
      InsertByKeySorted(SortByCreatedAt(init), s[|s| - 1]);
      InsertByKeyPermutes(SortByCreatedAt(init), s[|s| - 1]);
      assert s == init + [s[|s| - 1]];
    }
  }

  /** Selects the pitches whose sort key is `k`. */
  function KeyIs(k: int): Pitch -> bool {
    p => SortKey(p) == k
  }

  /** Insertion leaves the pitches of any one key in the order they would
      have with `p` appended: `p` only moves past pitches with a larger key. */
  lemma {:induction false} InsertByKeyFilter(sorted: seq<Pitch>, p: Pitch, k: int)
    ensures Filter(InsertByKey(sorted, p), KeyIs(k)) == Filter(sorted + [p], KeyIs(k))
    decreases |sorted|
  {
    if sorted != [] && SortKey(sorted[|sorted| - 1]) > SortKey(p) {
      var init, last := sorted[..|sorted| - 1], sorted[|sorted| - 1];
      InsertByKeyFilter(init, p, k);
      assert sorted == init + [last];
      InsertByKeyFilterStep(init, last, p, k);
    }
  }

  /** The step of InsertByKeyFilter: `p` moves in front of a last pitch with
      a larger key. */
  lemma {:induction false} InsertByKeyFilterStep(init: seq<Pitch>, last: Pitch, p: Pitch, k: int)
    requires SortKey(last) > SortKey(p)
    requires Filter(InsertByKey(init, p), KeyIs(k)) == Filter(init + [p], KeyIs(k))
    ensures Filter(InsertByKey(init + [last], p), KeyIs(k)) == Filter(init + [last] + [p], KeyIs(k))
  {
    var f := KeyIs(k);
    var sorted, inserted := init + [last], InsertByKey(init, p);
    assert sorted[..|sorted| - 1] == init;
    assert Filter(InsertByKey(sorted, p), f) == Filter(inserted + [last], f) by {
      assert InsertByKey(sorted, p) == inserted + [last];
    }
    FilterAppendCongruent(inserted, init + [p], [last], f);
    assert !(f(p) && f(last));
    FilterAppendSwap(init, p, last, f);
  }

  /** The sort is stable: the pitches sharing any one `createdAt` key keep
      their arrival order. */
  lemma {:induction false} SortStable(s: seq<Pitch>, k: int)
    ensures Filter(SortByCreatedAt(s), KeyIs(k)) == Filter(s, KeyIs(k))
  {
    if s != [] {
      var init, last := s[..|s| - 1], s[|s| - 1];
      assert s == init + [last];
      SortStable(init, k);
      InsertByKeyFilter(SortByCreatedAt(init), last, k);
      FilterAppendCongruent(SortByCreatedAt(init), init, [last], KeyIs(k));
    }
  }

  /** Why OrderIndependent needs distinct keys: a strike and a ball in play
      stamped with the same time count differently in the two arrival
      orders, 0-1 against 0-0. */
  lemma {:induction false} TiedKeysOrderMatters(a: Pitch, b: Pitch)
    requires a.result == Strike && b.result == InPlay && SortKey(a) == SortKey(b)
    ensures Scored(Some([a, b])).atBatStatus.strikes == 1
    ensures Scored(Some([b, a])).atBatStatus.strikes == 0
    ensures Scored(Some([a, b])) != Scored(Some([b, a]))
  {
    SortKeepsSorted([a, b]);
    SortKeepsSorted([b, a]);
    assert [a, b][..1] == [a] && [b, a][..1] == [b] && [a][..0] == [] && [b][..0] == [];
    assert CountAfter([a]) == Count(0, 1, false);
    assert CountAfter([a, b]) == Count(0, 1, true);
    assert CountAfter([b]) == Count(0, 0, true);
    assert CountAfter([b, a]) == Count(0, 0, true);
  }

  /** Already ordered input comes back unchanged. */
  lemma {:induction false} SortKeepsSorted(s: seq<Pitch>)
    requires SortedByKey(s)
    ensures SortByCreatedAt(s) == s
  {
    if s != [] {
      var init := s[..|s| - 1];
      assert SortedByKey(init);
      SortKeepsSorted(init);
      if |init| > 0 {
        assert SortKey(init[|init| - 1]) <= SortKey(s[|s| - 1]);
      }
      assert init + [s[|s| - 1]] == s;
    }
  }

  /** Records are told apart by their timestamp: equal keys mean equal records. */
  predicate KeysIdentify(s: seq<Pitch>) {
    forall x, y :: x in s && y in s && SortKey(x) == SortKey(y) ==> x == y
  }

  /** Two ascending orderings of the same records are the same sequence when
      timestamps tell the records apart. */
  lemma {:induction false} SortedPermutationUnique(a: seq<Pitch>, b: seq<Pitch>)
    requires SortedByKey(a) && SortedByKey(b)
    requires multiset(a) == multiset(b)
    requires KeysIdentify(a)
    ensures a == b
    decreases |a|
  {
    assert |a| == |multiset(a)| == |multiset(b)| == |b|;
    if a != [] {
      var n := |a| - 1;
      SameLast(a, b);
      DropLast(a);
      DropLast(b);
      var a', b' := a[..n], b[..n];
      assert KeysIdentify(a') by {
        forall x, y | x in a' && y in a' && SortKey(x) == SortKey(y) ensures x == y {
          assert x in a && y in a;
        }
      }
      assert multiset(a') == multiset(b');
      SortedPermutationUnique(a', b');
      assert a == a' + [a[n]] && b == b' + [b[n]];
    }
  }

  /** Dropping the last element keeps the order and removes one occurrence. */
  lemma {:induction false} DropLast(a: seq<Pitch>)
    requires |a| > 0
    ensures multiset(a[..|a| - 1]) == multiset(a) - multiset{a[|a| - 1]}
    ensures SortedByKey(a) ==> SortedByKey(a[..|a| - 1])
    ensures a == a[..|a| - 1] + [a[|a| - 1]]
  {
    assert a == a[..|a| - 1] + [a[|a| - 1]];
  }

  /** The last elements of two ascending orderings of the same records agree. */
  lemma {:induction false} SameLast(a: seq<Pitch>, b: seq<Pitch>)
    requires SortedByKey(a) && SortedByKey(b)
    requires multiset(a) == multiset(b) && |a| == |b| > 0
    requires KeysIdentify(a)
    ensures a[|a| - 1] == b[|b| - 1]
  {
    var n := |a| - 1;
    var la, lb := a[n], b[n];
    assert la in multiset(b) && lb in multiset(a);
    var j :| 0 <= j < |b| && b[j] == la;
    var k :| 0 <= k < |a| && a[k] == lb;
    assert SortKey(la) <= SortKey(lb) by {
      assert j <= n;
      if j < n { assert SortKey(b[j]) <= SortKey(b[n]); }
    }
    assert SortKey(lb) <= SortKey(la) by {
      assert k <= n;
      if k < n { assert SortKey(a[k]) <= SortKey(a[n]); }
    }
    assert la in a && lb in a;
  }

  // ---------------------------------------------------------------------------
  // The whole reducer

  /** `atBatStatus` of the source; `lastResult` is the newest record's result. */
  datatype AtBatStatus = AtBatStatus(balls: nat, strikes: nat, isFinished: bool, lastResult: Option<PitchResult>, atBatRecordsCount: nat)

  /** The value the hook returns: the records newest first, and the status. */
  datatype ScoredAtBat = ScoredAtBat(atBatRecords: seq<AnnotatedPitch>, atBatStatus: AtBatStatus)

  const EmptyStatus: AtBatStatus := AtBatStatus(0, 0, false, None, 0)

  /** The reducer as a function of the raw records (`None` is a null or
      undefined input). */
  function Scored(rawRecords: Option<seq<Pitch>>): (v: ScoredAtBat)
    ensures rawRecords.None? ==> v == ScoredAtBat([], EmptyStatus)
    ensures rawRecords.Some? ==> |v.atBatRecords| == v.atBatStatus.atBatRecordsCount == |rawRecords.value|
    ensures v.atBatStatus.balls <= 4 && v.atBatStatus.strikes <= 3
    ensures v.atBatStatus.lastResult.Some? <==> |v.atBatRecords| > 0
    ensures |v.atBatRecords| > 0 ==> v.atBatStatus.lastResult == Some(v.atBatRecords[0].pitch.result)
  {
    if rawRecords.None? then ScoredAtBat([], EmptyStatus)
    else
      var sortedAsc := SortByCreatedAt(rawRecords.value);
      var display := Reversed(Annotate(sortedAsc));
      var c := CountAfter(sortedAsc);
      ScoredAtBat(display, AtBatStatus(c.balls, c.strikes, c.finished,
                                       if |display| > 0 then Some(display[0].pitch.result) else None,
                                       |display|))
  }

  /** The memoised body of the hook: sort a copy, walk it, reverse a copy. */
  method UseBaseballLogic(rawRecords: Option<seq<Pitch>>) returns (res: ScoredAtBat)
    ensures res == Scored(rawRecords)
    ensures rawRecords.None? ==> res == ScoredAtBat([], EmptyStatus)
    ensures rawRecords.Some? ==> res.atBatRecords == Reversed(Annotate(SortByCreatedAt(rawRecords.value)))
    ensures rawRecords.Some? ==> res.atBatStatus.atBatRecordsCount == |rawRecords.value|
    ensures res.atBatStatus.lastResult == if |res.atBatRecords| > 0 then Some(res.atBatRecords[0].pitch.result) else None
  {
    if rawRecords.None? {
      return ScoredAtBat([], EmptyStatus);
    }
    var sortedAsc := SortByCreatedAt(rawRecords.value);
    var processed, count := ProcessAscending(sortedAsc);
    var displayRecords := ReverseCopy(processed);
    var lastResult := if |displayRecords| > 0 then Some(displayRecords[0].pitch.result) else None;
    res := ScoredAtBat(displayRecords,
                       AtBatStatus(count.balls, count.strikes, count.finished, lastResult, |displayRecords|));
  }

  /** The status counts are the newest record's running counts (zero for no
      records), and the status is finished exactly when some record carries an
      end outcome. */
  lemma {:induction false} StatusMatchesNewest(raw: seq<Pitch>)
    ensures var v := Scored(Some(raw));
            && (|raw| == 0 ==> v.atBatStatus.balls == 0 && v.atBatStatus.strikes == 0 && !v.atBatStatus.isFinished)
            && (|raw| > 0 ==>
                  v.atBatStatus.balls == v.atBatRecords[0].runningBalls &&
                  v.atBatStatus.strikes == v.atBatRecords[0].runningStrikes)
            && (v.atBatStatus.isFinished <==> exists i :: 0 <= i < |v.atBatRecords| && v.atBatRecords[i].outcome.Some?)
  {
    var asc := SortByCreatedAt(raw);
    var ann := Annotate(asc);
    var v := Scored(Some(raw));
    assert v.atBatRecords == Reversed(ann);
    if |raw| > 0 {
      AnnotateAt(asc, |asc| - 1);
      assert asc[..|asc|] == asc;
      assert v.atBatRecords[0] == ann[|ann| - 1];
    }
    EndingsMatchFinalCount(asc);
    ReversedOutcomes(ann);
  }

  /** Reading the records newest first does not change which outcomes occur. */
  lemma {:induction false} ReversedOutcomes(s: seq<AnnotatedPitch>)
    ensures (exists i :: 0 <= i < |s| && Reversed(s)[i].outcome.Some?) <==> (exists i :: 0 <= i < |s| && s[i].outcome.Some?)
    ensures (exists i :: 0 <= i < |s| && Reversed(s)[i].outcome == Some(Strikeout)) <==> (exists i :: 0 <= i < |s| && s[i].outcome == Some(Strikeout))
    ensures (exists i :: 0 <= i < |s| && Reversed(s)[i].outcome == Some(Walk)) <==> (exists i :: 0 <= i < |s| && s[i].outcome == Some(Walk))
  {
    ReversedExists(s, (a: AnnotatedPitch) => a.outcome.Some?);
    ReversedExists(s, (a: AnnotatedPitch) => a.outcome == Some(Strikeout));
    ReversedExists(s, (a: AnnotatedPitch) => a.outcome == Some(Walk));
  }

  /** The arrival order of the records does not matter: two arrays holding the
      same records give the same result when timestamps tell records apart. */
  lemma {:induction false} OrderIndependent(raw1: seq<Pitch>, raw2: seq<Pitch>)
    requires multiset(raw1) == multiset(raw2)
    requires KeysIdentify(raw1)
    ensures Scored(Some(raw1)) == Scored(Some(raw2))
  {
    SortByCreatedAtCorrect(raw1);
    SortByCreatedAtCorrect(raw2);
    var a, b := SortByCreatedAt(raw1), SortByCreatedAt(raw2);
    forall x | x in a
      ensures x in raw1
    {
      assert x in multiset(a);
    }
    SortedPermutationUnique(a, b);
  }

  // ---------------------------------------------------------------------------
  // Worked sequences

  /** Three strikes: the third is a strikeout and finishes the at-bat. */
  lemma {:induction false} ThreeStrikes(p1: Pitch, p2: Pitch, p3: Pitch)
    requires p1.result == Strike && p2.result == Strike && p3.result == Strike
    ensures Annotate([p1, p2, p3])[2].runningStrikes == 3
    ensures Annotate([p1, p2, p3])[2].outcome == Some(Strikeout)
    ensures CountAfter([p1, p2, p3]).finished
  {
    var s := [p1, p2, p3];
    WalkThree(s);
  }

  /** Strike, strike, foul: the foul at two strikes leaves the count at two. */
  lemma {:induction false} FoulAtTwoStrikes(p1: Pitch, p2: Pitch, p3: Pitch)
    requires p1.result == Strike && p2.result == Strike && p3.result == Foul
    ensures var r := Annotate([p1, p2, p3]);
            r[0].runningStrikes == 1 && r[1].runningStrikes == 2 && r[2].runningStrikes == 2
    ensures !CountAfter([p1, p2, p3]).finished
  {
    var s := [p1, p2, p3];
    WalkThree(s);
  }

  /** The walk over three pitches, one step at a time. */
  lemma {:induction false} WalkThree(s: seq<Pitch>)
    requires |s| == 3
    ensures var c0 := CountAfter([]);
            var c1 := Step(c0, s[0].result).count;
            var c2 := Step(c1, s[1].result).count;
            && Annotate(s) == [AnnotateNext(c0, s[0]), AnnotateNext(c1, s[1]), AnnotateNext(c2, s[2])]
            && CountAfter(s) == Step(c2, s[2].result).count
  {
    AnnotateAt(s, 0);
    AnnotateAt(s, 1);
    AnnotateAt(s, 2);
    assert s[..0] == [] && s[..3] == s;
  }

  /** Four balls: the fourth is a walk. */
  lemma {:induction false} FourBalls(p1: Pitch, p2: Pitch, p3: Pitch, p4: Pitch)
    requires p1.result == Ball && p2.result == Ball && p3.result == Ball && p4.result == Ball
    ensures Annotate([p1, p2, p3, p4])[3].runningBalls == 4
    ensures Annotate([p1, p2, p3, p4])[3].outcome == Some(Walk)
  {
    var s := [p1, p2, p3, p4];
    AnnotateAt(s, 0);
    AnnotateAt(s, 1);
    AnnotateAt(s, 2);
    AnnotateAt(s, 3);
    assert s[..0] == [];
    assert CountAfter(s[..1]) == Count(1, 0, false);
    assert CountAfter(s[..2]) == Count(2, 0, false);
    assert CountAfter(s[..3]) == Count(3, 0, false);
  }

  /** A single ball in play ends the at-bat with an empty count. */
  lemma {:induction false} SingleBallInPlay(p: Pitch)
    requires p.result == InPlay
    ensures Annotate([p]) == [AnnotatedPitch(p, 0, 0, Some(BallInPlay))]
    ensures CountAfter([p]).finished
  {
    assert [p][..0] == [];
  }
}
