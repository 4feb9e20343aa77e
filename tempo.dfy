/** The robust tempo estimator of audio_analyzer.py (`_estimate_tempo_robust`).
    The three librosa estimators are not modelled: what each returned (or the
    fact that it raised) is an input. From there the estimator is a discrete
    rule over exact reals: expand every raw estimate into octave variants,
    score each candidate by BPM band and by agreement with the raw
    estimates, and keep the candidate a stable sort by (score descending,
    distance to 120 ascending) puts first. */
module TempoEstimation {
  import opened Wrappers
  import opened Numeric

  /** What a librosa tempo routine hands back: a plain number or an array. */
  datatype TempoOutput = Scalar(value: real) | Vector(values: seq<real>)

  /** One lag of the time-averaged tempogram: its mean strength and the BPM
      that `tempo_frequencies` assigns to it. Pairing the two keeps the
      strength and frequency arrays the same length, as the source builds
      them. */
  datatype LagBin = LagBin(strength: real, bpm: real)

  /** An entry of the source's `scored` list: `(s, c)`. */
  datatype ScoredTempo = ScoredTempo(score: int, bpm: real)

  // ---------------------------------------------------------------------
  // The three raw estimates and their fallbacks
  // ---------------------------------------------------------------------

  /** `float(t[0]) if len(t) > 0 else default` for an array, `float(t)` for a
      number. */
  function FirstOr(out: TempoOutput, default: real): real
  {
    match out
    case Scalar(v) => v
    case Vector(vs) => if |vs| > 0 then vs[0] else default
  }

  /** The autocorrelation estimator's search window, 60 to 220 BPM. */
  predicate InWindow(b: LagBin)
  {
    60.0 <= b.bpm <= 220.0
  }

  /** `valid_idx[argmax(ac_global[valid_idx])]`: the first lag of greatest
      strength among the lags whose BPM is in the window, or None when no lag
      is in the window. */
  function PeakLag(profile: seq<LagBin>): (r: Option<nat>)
    ensures r.None? <==> forall i :: 0 <= i < |profile| ==> !InWindow(profile[i])
    ensures r.Some? ==> r.value < |profile| && InWindow(profile[r.value])
    ensures r.Some? ==> forall i :: 0 <= i < |profile| && InWindow(profile[i]) ==>
                          profile[i].strength <= profile[r.value].strength
    ensures r.Some? ==> forall i :: 0 <= i < r.value && InWindow(profile[i]) ==>
                          profile[i].strength < profile[r.value].strength
  {
    if |profile| == 0 then None
    else
      var last := |profile| - 1;
      var rest := PeakLag(profile[..last]);
      if !InWindow(profile[last]) then rest
      else match rest
        case None => Some(last)
        case Some(k) => if profile[last].strength > profile[k].strength then Some(last) else Some(k)
  }

  /** The three raw estimates `[tempo1, tempo2, tempo3]`, given what
      `beat_track` returned, what `rhythm.tempo` returned (None: it raised)
      and the averaged tempogram (None: one of its steps raised). Every
      estimator that fails falls back to the beat-tracking value. */
  function RawEstimates(beat: TempoOutput, prior: Option<TempoOutput>,
                        gram: Option<seq<LagBin>>): (raws: seq<real>)
    ensures |raws| == 3
    ensures raws[0] == FirstOr(beat, 120.0)
    ensures beat == Vector([]) ==> raws[0] == 120.0
    ensures prior.None? || prior == Some(Vector([])) ==> raws[1] == raws[0]
    ensures prior.Some? && prior.value.Scalar? ==> raws[1] == prior.value.value
    ensures prior.Some? && prior.value.Vector? && |prior.value.values| > 0 ==>
              raws[1] == prior.value.values[0]
    ensures gram.None? ==> raws[2] == raws[0]
    ensures gram.Some? && (forall i :: 0 <= i < |gram.value| ==> !InWindow(gram.value[i])) ==>
              raws[2] == raws[0]
    ensures gram.Some? && (exists i :: 0 <= i < |gram.value| && InWindow(gram.value[i])) ==>
              60.0 <= raws[2] <= 220.0
    ensures gram.Some? && PeakLag(gram.value).Some? ==>
              raws[2] == gram.value[PeakLag(gram.value).value].bpm
  {
    var tempo1 := FirstOr(beat, 120.0);
    var tempo2 := match prior
      case None => tempo1
      case Some(out) => FirstOr(out, tempo1);
    var tempo3 := match gram
      case None => tempo1
      case Some(profile) =>
        match PeakLag(profile)
        case None => tempo1
        case Some(k) => profile[k].bpm;
    [tempo1, tempo2, tempo3]
  }

  // ---------------------------------------------------------------------
  // Candidate generation
  // ---------------------------------------------------------------------

  /** The variants one raw estimate contributes, in the order they are
      appended: itself, its double, and its half when it exceeds 80. */
  function Variants(t: real): (vs: seq<real>)
    ensures 2 <= |vs| <= 3
    ensures forall i :: 0 <= i < |vs| ==> IsVariantOf(vs[i], t)
  {
    if t > 80.0 then [t, t * 2.0, t / 2.0] else [t, t * 2.0]
  }

  /** c is the raw estimate r, its double, or (when r > 80) its half. */
  predicate IsVariantOf(c: real, r: real)
  {
    c == r || c == r * 2.0 || (r > 80.0 && c == r / 2.0)
  }

  /** The candidate list: the variants of each raw estimate, in order. */
  function CandidateList(raws: seq<real>): (cands: seq<real>)
    ensures 2 * |raws| <= |cands| <= 3 * |raws|
  {
    if |raws| == 0 then []
    else CandidateList(raws[..|raws| - 1]) + Variants(raws[|raws| - 1])
  }

  /** For the source's three estimates the list is the concatenation of the
      three variant groups, so it has 6 to 9 entries. */
  lemma CandidateListOfThree(t1: real, t2: real, t3: real)
    ensures CandidateList([t1, t2, t3]) == Variants(t1) + Variants(t2) + Variants(t3)
    ensures 6 <= |CandidateList([t1, t2, t3])| <= 9
  {
    assert [t1, t2, t3][..2] == [t1, t2];
    assert [t1, t2][..1] == [t1];
    assert [t1][..0] == [];
    assert CandidateList([t1]) == Variants(t1);
    assert CandidateList([t1, t2]) == Variants(t1) + Variants(t2);
  }

  /** Every candidate is a variant of some raw estimate. */
  lemma {:induction false} CandidatesAreVariants(raws: seq<real>)
    ensures forall i :: 0 <= i < |CandidateList(raws)| ==>
              exists j :: 0 <= j < |raws| && IsVariantOf(CandidateList(raws)[i], raws[j])
  {
    if |raws| > 0 {
      var init := raws[..|raws| - 1];
      CandidatesAreVariants(init);
      var cands := CandidateList(raws);
      var prefix, last := CandidateList(init), Variants(raws[|raws| - 1]);
      assert cands == prefix + last;
      forall i | 0 <= i < |cands|
        ensures exists j :: 0 <= j < |raws| && IsVariantOf(cands[i], raws[j])
      {
        if i < |prefix| {
          var j :| 0 <= j < |init| && IsVariantOf(prefix[i], init[j]);
          assert cands[i] == prefix[i];
          assert raws[j] == init[j];
          assert IsVariantOf(cands[i], raws[j]);
        } else {
          assert cands[i] == last[i - |prefix|];
          assert IsVariantOf(last[i - |prefix|], raws[|raws| - 1]);
          assert IsVariantOf(cands[i], raws[|raws| - 1]);
        }
      }
      assert forall i :: 0 <= i < |cands| ==> exists j :: 0 <= j < |raws| && IsVariantOf(cands[i], raws[j]);
    } else {
      assert |CandidateList(raws)| == 0;
    }
  }

  /** Every raw estimate and its double are candidates, and so is its half
      when it exceeds 80. */
  lemma {:induction false} VariantsAreCandidates(raws: seq<real>)
    ensures forall j :: 0 <= j < |raws| ==>
              raws[j] in CandidateList(raws) && raws[j] * 2.0 in CandidateList(raws) &&
              (raws[j] > 80.0 ==> raws[j] / 2.0 in CandidateList(raws))
  {
    if |raws| > 0 {
      var init := raws[..|raws| - 1];
      VariantsAreCandidates(init);
      var cands := CandidateList(raws);
      var prefix, t := CandidateList(init), raws[|raws| - 1];
      assert cands == prefix + Variants(t);
      forall j | 0 <= j < |raws|
        ensures raws[j] in cands && raws[j] * 2.0 in cands &&
                (raws[j] > 80.0 ==> raws[j] / 2.0 in cands)
      {
        if j < |init| {
          assert raws[j] == init[j];
          assert raws[j] in prefix && raws[j] * 2.0 in prefix;
        } else {
          assert raws[j] == t;
          assert Variants(t)[0] == t && Variants(t)[1] == t * 2.0;
          assert t > 80.0 ==> Variants(t)[2] == t / 2.0;
        }
      }
    }
  }

  // ---------------------------------------------------------------------
  // Scoring
  // ---------------------------------------------------------------------

  /** The nested `score(bpm)` of the source: -100 outside [40, 250], 10 in the
      80-170 sweet spot, 5 in the 70-180 band around it, 0 elsewhere. */
  function BaseScore(bpm: real): (s: int)
    ensures s == -100 || s == 0 || s == 5 || s == 10
    ensures s == -100 <==> bpm < 40.0 || bpm > 250.0
    ensures s == 10 <==> 80.0 <= bpm <= 170.0
    ensures s == 5 <==> (70.0 <= bpm < 80.0 || 170.0 < bpm <= 180.0)
  {
    if bpm < 40.0 || bpm > 250.0 then -100
    else if 80.0 <= bpm <= 170.0 then 10
    else if 70.0 <= bpm <= 180.0 then 5
    else 0
  }

  /** `abs(c - target) / max(c, 1) < 0.05`: strictly within 5% relative
      tolerance. */
  predicate Near(c: real, target: real)
  {
    Abs(c - target) / Max(c, 1.0) < 0.05
  }

  /** The tolerance test without the division. */
  lemma NearIff(c: real, target: real)
    ensures Near(c, target) <==> Abs(c - target) < 0.05 * Max(c, 1.0)
  {
    DivLessIff(Abs(c - target), Max(c, 1.0), 0.05);
  }

  /** What one raw estimate adds to a candidate's score: +3 for a match, else
      +2 for a match with its double or half, else nothing. */
  function AgreementBonus(c: real, raw: real): (b: int)
    ensures b == 0 || b == 2 || b == 3
    ensures b == 3 <==> Near(c, raw)
    ensures b == 2 <==> !Near(c, raw) && (Near(c, raw * 2.0) || Near(c, raw / 2.0))
    ensures c == raw ==> b == 3
  {
    if Near(c, raw) then 3
    else if Near(c, raw * 2.0) then 2
    else if Near(c, raw / 2.0) then 2
    else 0
  }

  /** The bonuses all raw estimates give a candidate, summed in list order. */
  function TotalBonus(c: real, raws: seq<real>): int
  {
    if |raws| == 0 then 0
    else TotalBonus(c, raws[..|raws| - 1]) + AgreementBonus(c, raws[|raws| - 1])
  }

  /** Each raw estimate contributes at most 3, and a candidate equal to one of
      them collects at least 3. */
  lemma {:induction false} TotalBonusBounds(c: real, raws: seq<real>)
    ensures 0 <= TotalBonus(c, raws) <= 3 * |raws|
    ensures c in raws ==> TotalBonus(c, raws) >= 3
  {
    if |raws| > 0 {
      var init := raws[..|raws| - 1];
      TotalBonusBounds(c, init);
      assert raws == init + [raws[|raws| - 1]];
    }
  }

  /** The score `s` the source accumulates for candidate c. */
  function CandidateScore(c: real, raws: seq<real>): int
  {
    BaseScore(c) + TotalBonus(c, raws)
  }

  /** The `scored` list: one `(s, c)` pair per candidate, in candidate order. */
  function ScoreAll(cands: seq<real>, raws: seq<real>): (scored: seq<ScoredTempo>)
    ensures |scored| == |cands|
    ensures forall i :: 0 <= i < |cands| ==>
              scored[i] == ScoredTempo(CandidateScore(cands[i], raws), cands[i])
  {
    seq(|cands|, i requires 0 <= i < |cands| => ScoredTempo(CandidateScore(cands[i], raws), cands[i]))
  }

  // ---------------------------------------------------------------------
  // Ordering and selection
  // ---------------------------------------------------------------------

  function DistanceTo120(bpm: real): real
  {
    Abs(bpm - 120.0)
  }

  /** a sorts strictly before b under the key (-score, |bpm - 120|). */
  predicate Precedes(a: ScoredTempo, b: ScoredTempo)
  {
    a.score > b.score || (a.score == b.score && DistanceTo120(a.bpm) < DistanceTo120(b.bpm))
  }

  /** Index k holds the entry a stable sort by that key puts first: no entry
      sorts before it, and every earlier entry sorts strictly after it. */
  predicate IsFirstInOrder(s: seq<ScoredTempo>, k: int)
  {
    && 0 <= k < |s|
    && (forall j :: 0 <= j < |s| ==> !Precedes(s[j], s[k]))
    && (forall j :: 0 <= j < k ==> Precedes(s[k], s[j]))
  }

  lemma FirstInOrderUnique(s: seq<ScoredTempo>, k1: int, k2: int)
    requires IsFirstInOrder(s, k1) && IsFirstInOrder(s, k2)
    ensures k1 == k2
  {
    assert !Precedes(s[k2], s[k1]) && !Precedes(s[k1], s[k2]);
  }

  /** Inserting x in front of the first entry that does not sort strictly
      before it keeps x ahead of the equal-key entries that follow it. */
  function InsertStable(x: ScoredTempo, sorted: seq<ScoredTempo>): (r: seq<ScoredTempo>)
    ensures |r| == |sorted| + 1
    ensures multiset(r) == multiset(sorted) + multiset{x}
  {
    if |sorted| == 0 then [x]
    else
      assert sorted == [sorted[0]] + sorted[1..];
      if Precedes(sorted[0], x) then [sorted[0]] + InsertStable(x, sorted[1..])
      else [x] + sorted
  }

  /** A stable insertion sort by the key: the list `scored.sort(key=...)`
      leaves. */
  function StableSort(s: seq<ScoredTempo>): (r: seq<ScoredTempo>)
    ensures |r| == |s|
    ensures multiset(r) == multiset(s)
  {
    if |s| == 0 then []
    else
      assert s == [s[0]] + s[1..];
      InsertStable(s[0], StableSort(s[1..]))
  }

  /** The stable sort is sorted: no later entry sorts before an earlier one. */
  predicate SortedByKey(s: seq<ScoredTempo>)
  {
    forall i, j :: 0 <= i < j < |s| ==> !Precedes(s[j], s[i])
  }

  lemma {:induction false} InsertStableSorted(x: ScoredTempo, sorted: seq<ScoredTempo>)
    requires SortedByKey(sorted)
    ensures SortedByKey(InsertStable(x, sorted))
  {
    if |sorted| > 0 && Precedes(sorted[0], x) {
      InsertStableSorted(x, sorted[1..]);
      var r := InsertStable(x, sorted);
      var tail := InsertStable(x, sorted[1..]);
      assert r == [sorted[0]] + tail;
      forall j | 0 < j < |r|
        ensures !Precedes(r[j], r[0])
      {
        assert r[j] in multiset(tail);
        assert r[j] in multiset(sorted[1..]) + multiset{x};
        if r[j] != x {
          assert r[j] in sorted[1..];
          var m :| 0 <= m < |sorted[1..]| && sorted[1..][m] == r[j];
          assert sorted[m + 1] == r[j];
        }
      }
    }
  }

  lemma {:induction false} StableSortSorted(s: seq<ScoredTempo>)
    ensures SortedByKey(StableSort(s))
  {
    if |s| > 0 {
      StableSortSorted(s[1..]);
      InsertStableSorted(s[0], StableSort(s[1..]));
    }
  }

  /** The head of the stable sort is the first-in-order entry. */
  lemma {:induction false} StableSortHead(s: seq<ScoredTempo>)
    requires |s| > 0
    ensures exists k :: IsFirstInOrder(s, k) && StableSort(s)[0] == s[k]
  {
    if |s| == 1 {
      assert IsFirstInOrder(s, 0);
    } else {
      var t := s[1..];
      StableSortHead(t);
      var k' :| IsFirstInOrder(t, k') && StableSort(t)[0] == t[k'];
      var h := StableSort(t)[0];
      assert StableSort(s) == InsertStable(s[0], StableSort(t));
      if Precedes(h, s[0]) {
        assert StableSort(s)[0] == h;
        FirstInOrderShift(s, k');
      } else {
        assert StableSort(s)[0] == s[0];
        FirstInOrderAtFront(s, k');
      }
    }
  }

  /** Step of StableSortHead: the tail's first entry beats the head. */
  lemma FirstInOrderShift(s: seq<ScoredTempo>, k': int)
    requires |s| > 1 && IsFirstInOrder(s[1..], k') && Precedes(s[1..][k'], s[0])
    ensures IsFirstInOrder(s, k' + 1)
  {
    var t := s[1..];
    forall j | 0 <= j < |s|
      ensures !Precedes(s[j], s[k' + 1])
    {
      if j > 0 { assert s[j] == t[j - 1]; }
    }
    forall j | 0 <= j < k' + 1
      ensures Precedes(s[k' + 1], s[j])
    {
      if j > 0 { assert s[j] == t[j - 1]; }
    }
  }

  /** Step of StableSortHead: the head is not beaten by the tail's first entry. */
  lemma FirstInOrderAtFront(s: seq<ScoredTempo>, k': int)
    requires |s| > 1 && IsFirstInOrder(s[1..], k') && !Precedes(s[1..][k'], s[0])
    ensures IsFirstInOrder(s, 0)
  {
    var t := s[1..];
    forall j | 0 <= j < |s|
      ensures !Precedes(s[j], s[0])
    {
      if j > 0 {
        assert s[j] == t[j - 1];
        assert !Precedes(t[j - 1], t[k']);
      }
    }
  }

  lemma FirstInOrderIsSortHead(s: seq<ScoredTempo>, k: int)
    requires IsFirstInOrder(s, k)
    ensures StableSort(s)[0] == s[k]
  {
    StableSortHead(s);
    var k' :| IsFirstInOrder(s, k') && StableSort(s)[0] == s[k'];
    FirstInOrderUnique(s, k, k');
  }

  /** `scored[0][1]` after the sort, before rounding: always one of the
      candidates (its maximality is SelectedTempoMaximisesKey). */
  function SelectedTempo(raws: seq<real>): (t: real)
    requires |raws| > 0
    ensures t in CandidateList(raws)
  {
    var scored := ScoreAll(CandidateList(raws), raws);
    StableSortHead(scored);
    StableSort(scored)[0].bpm
  }

  /** The selected tempo is the candidate at the first-in-order position: it
      has the maximal score, no candidate with that score is strictly closer
      to 120, and every earlier candidate loses on the key. */
  lemma SelectedTempoIsFirstBest(raws: seq<real>)
    requires |raws| > 0
    ensures exists k :: IsFirstInOrder(ScoreAll(CandidateList(raws), raws), k) &&
                        SelectedTempo(raws) == CandidateList(raws)[k]
  {
    StableSortHead(ScoreAll(CandidateList(raws), raws));
  }

  lemma SelectedTempoMaximisesKey(raws: seq<real>)
    requires |raws| > 0
    ensures SelectedTempo(raws) in CandidateList(raws)
    ensures forall c :: c in CandidateList(raws) ==>
              CandidateScore(c, raws) <= CandidateScore(SelectedTempo(raws), raws)
    ensures forall c :: (c in CandidateList(raws) &&
              CandidateScore(c, raws) == CandidateScore(SelectedTempo(raws), raws)) ==>
              DistanceTo120(SelectedTempo(raws)) <= DistanceTo120(c)
  {
    var cands := CandidateList(raws);
    var scored := ScoreAll(cands, raws);
    SelectedTempoIsFirstBest(raws);
    var k :| IsFirstInOrder(scored, k) && SelectedTempo(raws) == cands[k];
    forall c | c in cands
      ensures CandidateScore(c, raws) <= CandidateScore(cands[k], raws)
      ensures CandidateScore(c, raws) == CandidateScore(cands[k], raws) ==>
              DistanceTo120(cands[k]) <= DistanceTo120(c)
    {
      var j :| 0 <= j < |cands| && cands[j] == c;
      assert !Precedes(scored[j], scored[k]);
    }
  }

  /** When some raw estimate lies in [40, 250], an implausible candidate (base
      score -100) never wins: that estimate itself scores at least 3, while an
      implausible one scores at most -100 + 9. */
  lemma ImplausibleNeverWins(raws: seq<real>)
    requires |raws| == 3
    requires exists j :: 0 <= j < 3 && 40.0 <= raws[j] <= 250.0
    ensures 40.0 <= SelectedTempo(raws) <= 250.0
  {
    var j :| 0 <= j < 3 && 40.0 <= raws[j] <= 250.0;
    var sel := SelectedTempo(raws);
    VariantsAreCandidates(raws);
    SelectedTempoMaximisesKey(raws);
    TotalBonusBounds(raws[j], raws);
    TotalBonusBounds(sel, raws);
    assert CandidateScore(raws[j], raws) >= 3;
    assert CandidateScore(sel, raws) >= 3;
  }

  // ---------------------------------------------------------------------
  // Octave correction
  // ---------------------------------------------------------------------

  /** When all three estimates agree on a tempo t in [40, 70), the doubled
      tempo wins: 2t scores 10 + 3 * 2 = 16 against 0 + 3 * 3 = 9 for t. */
  lemma OctaveCorrection(t: real)
    requires 40.0 <= t < 70.0
    ensures SelectedTempo([t, t, t]) == 2.0 * t
  {
    var raws := [t, t, t];
    CandidateListOfThree(t, t, t);
    var cands := CandidateList(raws);
    assert cands == [t, t * 2.0, t, t * 2.0, t, t * 2.0];
    NearIff(t, t);
    NearIff(t * 2.0, t);
    NearIff(t * 2.0, t * 2.0);
    assert AgreementBonus(t, t) == 3;
    assert AgreementBonus(t * 2.0, t) == 2;
    assert raws[..2] == [t, t] && [t, t][..1] == [t] && [t][..0] == [];
    assert TotalBonus(t, [t]) == 3;
    assert TotalBonus(t, [t, t]) == 6;
    assert TotalBonus(t, raws) == 9;
    assert TotalBonus(t * 2.0, [t]) == 2;
    assert TotalBonus(t * 2.0, [t, t]) == 4;
    assert TotalBonus(t * 2.0, raws) == 6;
    assert BaseScore(t) == 0 && BaseScore(t * 2.0) == 10;
    assert CandidateScore(t, raws) == 9;
    assert CandidateScore(t * 2.0, raws) == 16;
    var scored := ScoreAll(cands, raws);
    assert IsFirstInOrder(scored, 1);
    FirstInOrderIsSortHead(scored, 1);
  }

  /** The concrete case: raw estimates 65, 65, 65 resolve to 130. */
  lemma OctaveCorrectionAt65()
    ensures SelectedTempo([65.0, 65.0, 65.0]) == 130.0
    ensures RoundTo(SelectedTempo([65.0, 65.0, 65.0]), 1) == 130.0
  {
    OctaveCorrection(65.0);
    RoundToInteger(130, 1);
  }

  // ---------------------------------------------------------------------
  // The estimator, step by step as the source runs it
  // ---------------------------------------------------------------------

  /** The loop that appends each raw estimate, its double and (above 80) its
      half to `candidates`. */
  method BuildCandidates(raws: seq<real>) returns (cands: seq<real>)
    ensures cands == CandidateList(raws)
  {
    cands := [];
    for i := 0 to |raws|
      invariant cands == CandidateList(raws[..i])
    {
      var t := raws[i];
      assert raws[..i + 1][..i] == raws[..i];
      cands := cands + [t];
      cands := cands + [t * 2.0];
      if t > 80.0 {
        cands := cands + [t / 2.0];
      }
    }
    assert raws[..|raws|] == raws;
  }

  /** The loop that scores each candidate, with the inner loop over the raw
      estimates and its if/elif bonus chain. */
  method ScoreCandidates(cands: seq<real>, raws: seq<real>) returns (scored: seq<ScoredTempo>)
    ensures scored == ScoreAll(cands, raws)
  {
    scored := [];
    for i := 0 to |cands|
      invariant |scored| == i
      invariant forall k :: 0 <= k < i ==>
                  scored[k] == ScoredTempo(CandidateScore(cands[k], raws), cands[k])
    {
      var c := cands[i];
      var s := BaseScore(c);
      for j := 0 to |raws|
        invariant s == BaseScore(c) + TotalBonus(c, raws[..j])
      {
        var raw := raws[j];
        assert raws[..j + 1][..j] == raws[..j];
        if Near(c, raw) {
          s := s + 3;
        } else if Near(c, raw * 2.0) {
          s := s + 2;
        } else if Near(c, raw / 2.0) {
          s := s + 2;
        }
      }
      assert raws[..|raws|] == raws;
      scored := scored + [ScoredTempo(s, c)];
    }
  }

  /** `scored.sort(key=lambda x: (-x[0], abs(x[1] - 120)))` followed by
      `scored[0]`: a scan that moves to a later entry only when it sorts
      strictly before the current one, so ties keep the earliest entry as
      the stable sort does. */
  method SelectBest(scored: seq<ScoredTempo>) returns (k: nat)
    requires |scored| > 0
    ensures IsFirstInOrder(scored, k)
    ensures scored[k] == StableSort(scored)[0]
  {
    k := 0;
    for i := 1 to |scored|
      invariant k < i
      invariant forall j :: 0 <= j < i ==> !Precedes(scored[j], scored[k])
      invariant forall j :: 0 <= j < k ==> Precedes(scored[k], scored[j])
    {
      if Precedes(scored[i], scored[k]) {
        k := i;
      }
    }
    FirstInOrderIsSortHead(scored, k);
  }

  /** `_estimate_tempo_robust`: the rounded selected tempo. */
  method EstimateTempoRobust(beat: TempoOutput, prior: Option<TempoOutput>,
                             gram: Option<seq<LagBin>>) returns (tempo: real)
    ensures tempo == RoundTo(SelectedTempo(RawEstimates(beat, prior, gram)), 1)
  {
    var tempo1 := FirstOr(beat, 120.0);
    var tempo2 := tempo1;
    if prior.Some? {
      tempo2 := FirstOr(prior.value, tempo1);
    }
    var tempo3 := tempo1;
    if gram.Some? {
      var peak := PeakLag(gram.value);
      if peak.Some? {
        tempo3 := gram.value[peak.value].bpm;
      }
    }
    var raws := [tempo1, tempo2, tempo3];
    assert raws == RawEstimates(beat, prior, gram);
    var cands := BuildCandidates(raws);
    var scored := ScoreCandidates(cands, raws);
    var best := SelectBest(scored);
    tempo := RoundTo(scored[best].bpm, 1);
  }
}
