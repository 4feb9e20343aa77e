/** The descriptor arithmetic of `analyze_audio` in audio_analyzer.py. The
    librosa and numpy calls are not modelled; their results are the fields of
    `Measurements`. What remains is clipping, rounding, the piecewise tempo
    factor, the weighted danceability sum and the silence fallback for
    loudness, which together keep every field of the result in its range. */
module AudioFeatures {
  import opened Wrappers
  import opened Numeric
  import opened TempoEstimation

  /** What `librosa.get_duration` and `librosa.load` give: the full-track
      duration in seconds and the number of samples decoded. */
  datatype LoadedAudio = LoadedAudio(durationSec: real, sampleCount: nat)

  /** The signal-processing results `analyze_audio` works from.
      - beatTempo, priorTempo, lagProfile: the three tempo estimators' outputs
        (None: the prior or the tempogram estimator raised; `beat_track` is
        not guarded, so its raising is a foreign fault of the caller);
      - meanRms: `np.mean(librosa.feature.rms(y)[0])`;
      - energyCurve: `np.sqrt(min(1.0, mean_rms / 0.35))`, before clipping;
      - autocorr: `librosa.autocorrelate(onset_env, max_size=sr // 512)`;
      - onsetCount: `len(librosa.onset.onset_detect(y, sr))`;
      - rmsDecibels: `20 * np.log10(np.percentile(rms, 90) + 1e-10)`. */
  datatype Measurements = Measurements(
    beatTempo: TempoOutput,
    priorTempo: Option<TempoOutput>,
    lagProfile: Option<seq<LagBin>>,
    meanRms: real,
    energyCurve: real,
    autocorr: seq<real>,
    onsetCount: nat,
    rmsDecibels: real)

  /** Both ways `analyze_audio` raises ValueError. */
  datatype AudioError = LoadFailed | EmptySignal

  datatype Features = Features(
    durationMin: real, tempoBpm: real, energy: real, danceability: real, loudnessDb: real)

  /** Every field in the range the regression model was trained on. */
  predicate InDomain(f: Features)
  {
    && 1.5 <= f.durationMin <= 8.0
    && 60.0 <= f.tempoBpm <= 200.0
    && 0.0 <= f.energy <= 1.0
    && 0.0 <= f.danceability <= 1.0
    && -30.0 <= f.loudnessDb <= 0.0
  }

  /** Full-track duration in minutes, rounded to 2 places, then clipped to
      [1.5, 8]. It is always within 0.005 of the exact minutes clipped to that
      band; a track shorter than 89.7 s sits on the 1.5 floor, one longer than
      480.3 s on the 8.0 ceiling. */
  function DurationMinutes(durationSec: real): (d: real)
    ensures 1.5 <= d <= 8.0
    ensures Abs(d - Clip(durationSec / 60.0, 1.5, 8.0)) <= 0.005
    ensures 90.0 <= durationSec <= 480.0 ==> Abs(d - durationSec / 60.0) <= 0.005
    ensures durationSec < 89.7 ==> d == 1.5
    ensures durationSec > 480.3 ==> d == 8.0
    ensures OnGrid(d, 2)
  {
    var rounded := RoundTo(durationSec / 60.0, 2);
    RoundToError(durationSec / 60.0, 2);
    assert Pow10(2) == 100;
    Clip(rounded, 1.5, 8.0)
  }

  /** The estimator's tempo clipped to [60, 200] and rounded to 1 place; a
      tempo already in range moves by at most 0.05, one outside goes to the
      nearer bound. */
  function TempoBpm(estimate: real): (t: real)
    ensures 60.0 <= t <= 200.0
    ensures 60.0 <= estimate <= 200.0 ==> Abs(t - estimate) <= 0.05
    ensures estimate < 60.0 ==> t == 60.0
    ensures estimate > 200.0 ==> t == 200.0
    ensures OnGrid(t, 1)
  {
    var clipped := Clip(estimate, 60.0, 200.0);
    RoundToWithin(clipped, 60, 200, 1);
    RoundToError(clipped, 1);
    RoundToInteger(60, 1);
    RoundToInteger(200, 1);
    RoundTo(clipped, 1)
  }

  /** Energy: the square-root curve clipped to [0, 1] and rounded to 3 places. */
  function Energy(energyCurve: real): (e: real)
    ensures 0.0 <= e <= 1.0
    ensures 0.0 <= energyCurve <= 1.0 ==> Abs(e - energyCurve) <= 0.0005
    ensures OnGrid(e, 3)
  {
    var clipped := Clip(energyCurve, 0.0, 1.0);
    RoundToWithin(clipped, 0, 1, 3);
    RoundToError(clipped, 3);
    RoundTo(clipped, 3)
  }

  /** Largest element of a non-empty sequence (`np.max`). */
  function SeqMax(s: seq<real>): (m: real)
    requires |s| > 0
    ensures m in s
    ensures forall i :: 0 <= i < |s| ==> s[i] <= m
  {
    if |s| == 1 then s[0]
    else
      var rest := SeqMax(s[1..]);
      assert forall i :: 1 <= i < |s| ==> s[i] == s[1..][i - 1];
      if s[0] >= rest then s[0] else rest
  }

  /** The beat-lag window of the normalised autocorrelation,
      `(ac / (ac[0] + 1e-10))[1:min(len(ac), 150)]`. */
  function BeatRange(ac: seq<real>): (w: seq<real>)
    requires |ac| > 1 && ac[0] >= 0.0
    ensures |w| + 1 == (if |ac| < 150 then |ac| else 150)
    ensures forall i :: 0 <= i < |w| ==> w[i] == ac[i + 1] / (ac[0] + 0.0000000001)
  {
    var hi := if |ac| < 150 then |ac| else 150;
    seq(hi - 1, i requires 0 <= i < hi - 1 => ac[i + 1] / (ac[0] + 0.0000000001))
  }

  /** Regularity: the peak of the beat-lag window capped at 1, or 0.5 when the
      autocorrelation has at most one lag. The cap applies exactly when some
      window entry reaches 1; otherwise the result is the window's largest
      entry. */
  function Regularity(ac: seq<real>): (r: real)
    requires |ac| > 0 ==> ac[0] >= 0.0
    ensures r <= 1.0
    ensures |ac| <= 1 ==> r == 0.5
    ensures |ac| > 1 ==> forall i :: 0 <= i < |BeatRange(ac)| ==> Min(1.0, BeatRange(ac)[i]) <= r
    ensures |ac| > 1 ==>
              (r == 1.0 && exists i :: 0 <= i < |BeatRange(ac)| && BeatRange(ac)[i] >= 1.0)
              || (r < 1.0 && r in BeatRange(ac))
  {
    if |ac| > 1 then Min(1.0, SeqMax(BeatRange(ac))) else 0.5
  }

  /** Onsets per second of full duration (at least 1 s), scaled by the cap of
      5 onsets/s and capped at 1: below the cap, f is count / (5 * seconds). */
  function OnsetFactor(onsetCount: nat, durationSec: real): (f: real)
    ensures 0.0 <= f <= 1.0
    ensures f == 1.0 <==> onsetCount as real / Max(durationSec, 1.0) >= 5.0
    ensures onsetCount as real / Max(durationSec, 1.0) < 5.0 ==>
              f * 5.0 * Max(durationSec, 1.0) == onsetCount as real
  {
    var rate := onsetCount as real / Max(durationSec, 1.0);
    DivLessIff(onsetCount as real, Max(durationSec, 1.0), 0.0);
    DivDivTimes(onsetCount as real, Max(durationSec, 1.0), 5.0);
    Min(1.0, rate / 5.0)
  }

  lemma OnsetFactorMonotone(n1: nat, n2: nat, durationSec: real)
    requires n1 <= n2
    ensures OnsetFactor(n1, durationSec) <= OnsetFactor(n2, durationSec)
  {
    DivMonotone(n1 as real, n2 as real, Max(durationSec, 1.0));
  }

  /** The dance-range preference: 1.0 in [95, 135], 0.7 below 85 or above
      150, 0.85 in the two bands between. */
  function TempoFactor(tempo: real): (f: real)
    ensures f == 0.7 || f == 0.85 || f == 1.0
    ensures f == 0.7 <==> tempo < 85.0 || tempo > 150.0
    ensures f == 1.0 <==> 95.0 <= tempo <= 135.0
    ensures f == 0.85 <==> (85.0 <= tempo < 95.0 || 135.0 < tempo <= 150.0)
  {
    if tempo < 85.0 || tempo > 150.0 then 0.7
    else if 95.0 <= tempo <= 135.0 then 1.0
    else 0.85
  }

  /** The weighted sum before clipping; the weights 0.35, 0.25, 0.20 and 0.20
      add up to 1. */
  function DanceabilitySum(regularity: real, onsetFactor: real, energy: real, tempoFactor: real): real
  {
    0.35 * regularity + 0.25 * onsetFactor + 0.20 * energy + 0.20 * tempoFactor
  }

  /** With every factor in [0, 1] the sum is in [0, 1], and it is exactly 1
      when every factor is 1. */
  lemma DanceabilityWeightsSumToOne(regularity: real, onsetFactor: real, energy: real, tempoFactor: real)
    requires 0.0 <= regularity <= 1.0 && 0.0 <= onsetFactor <= 1.0
    requires 0.0 <= energy <= 1.0 && 0.0 <= tempoFactor <= 1.0
    ensures 0.0 <= DanceabilitySum(regularity, onsetFactor, energy, tempoFactor) <= 1.0
    ensures DanceabilitySum(1.0, 1.0, 1.0, 1.0) == 1.0
  {
  }

  /** Danceability: the weighted sum clipped to [0, 1], rounded to 3 places.
      A sum already in [0, 1] moves by at most 0.0005; a sum outside goes to
      the nearer bound. */
  function Danceability(regularity: real, onsetFactor: real, energy: real, tempoFactor: real): (d: real)
    ensures 0.0 <= d <= 1.0
    ensures var s := DanceabilitySum(regularity, onsetFactor, energy, tempoFactor);
            (0.0 <= s <= 1.0 ==> Abs(d - s) <= 0.0005)
            && (s < 0.0 ==> d == 0.0) && (s > 1.0 ==> d == 1.0)
    ensures OnGrid(d, 3)
  {
    var clipped := Clip(DanceabilitySum(regularity, onsetFactor, energy, tempoFactor), 0.0, 1.0);
    RoundToWithin(clipped, 0, 1, 3);
    RoundToError(clipped, 3);
    RoundToInteger(0, 3);
    RoundToInteger(1, 3);
    RoundTo(clipped, 3)
  }

  /** Holding the other factors fixed, more energy never lowers danceability. */
  lemma DanceabilityMonotoneInEnergy(regularity: real, onsetFactor: real, e1: real, e2: real,
                                     tempoFactor: real)
    requires e1 <= e2
    ensures Danceability(regularity, onsetFactor, e1, tempoFactor) <=
            Danceability(regularity, onsetFactor, e2, tempoFactor)
  {
    var s1 := DanceabilitySum(regularity, onsetFactor, e1, tempoFactor);
    var s2 := DanceabilitySum(regularity, onsetFactor, e2, tempoFactor);
    ClipMonotone(s1, s2, 0.0, 1.0);
    RoundToMonotone(Clip(s1, 0.0, 1.0), Clip(s2, 0.0, 1.0), 3);
  }

  /** Loudness: the decibel level clipped to [-30, 0] and rounded to 1 place,
      or exactly -30 when the mean RMS is not positive (no logarithm is taken). */
  function Loudness(meanRms: real, rmsDecibels: real): (l: real)
    ensures -30.0 <= l <= 0.0
    ensures meanRms <= 0.0 ==> l == -30.0
    ensures meanRms > 0.0 && -30.0 <= rmsDecibels <= 0.0 ==> Abs(l - rmsDecibels) <= 0.05
    ensures meanRms > 0.0 && rmsDecibels < -30.0 ==> l == -30.0
    ensures meanRms > 0.0 && rmsDecibels > 0.0 ==> l == 0.0
    ensures OnGrid(l, 1)
  {
    if meanRms > 0.0 then
      var clipped := Clip(rmsDecibels, -30.0, 0.0);
      RoundToWithin(clipped, -30, 0, 1);
      RoundToError(clipped, 1);
      RoundToInteger(-30, 1);
      RoundToInteger(0, 1);
      RoundTo(clipped, 1)
    else
      assert Pow10(1) == 10;
      -30.0
  }

  /** The five descriptors of a decoded, non-empty signal. */
  function FeatureVector(audio: LoadedAudio, m: Measurements): (f: Features)
    requires |m.autocorr| > 0 ==> m.autocorr[0] >= 0.0
    ensures InDomain(f)
  {
    var raws := RawEstimates(m.beatTempo, m.priorTempo, m.lagProfile);
    var tempo := TempoBpm(RoundTo(SelectedTempo(raws), 1));
    var energy := Energy(m.energyCurve);
    var dance := Danceability(Regularity(m.autocorr), OnsetFactor(m.onsetCount, audio.durationSec),
                              energy, TempoFactor(tempo));
    Features(DurationMinutes(audio.durationSec), tempo, energy, dance,
             Loudness(m.meanRms, m.rmsDecibels))
  }

  /** `analyze_audio`: ValueError when the file cannot be loaded or decodes to
      no samples, otherwise the five descriptors, each in its range. The
      tempo is obtained by running the estimator. */
  method AnalyzeAudio(load: Option<LoadedAudio>, m: Measurements) returns (res: Result<Features, AudioError>)
    requires |m.autocorr| > 0 ==> m.autocorr[0] >= 0.0
    ensures load.None? ==> res == Failure(LoadFailed)
    ensures load.Some? && load.value.sampleCount == 0 ==> res == Failure(EmptySignal)
    ensures load.Some? && load.value.sampleCount > 0 ==>
              res == Success(FeatureVector(load.value, m)) && InDomain(res.value)
  {
    if load.None? {
      return Failure(LoadFailed);
    }
    var audio := load.value;
    if audio.sampleCount == 0 {
      return Failure(EmptySignal);
    }
    var durationMin := DurationMinutes(audio.durationSec);
    var estimate := EstimateTempoRobust(m.beatTempo, m.priorTempo, m.lagProfile);
    var tempoBpm := TempoBpm(estimate);
    var energy := Energy(m.energyCurve);
    var regularity := Regularity(m.autocorr);
    var onsetFactor := OnsetFactor(m.onsetCount, audio.durationSec);
    var tempoFactor := TempoFactor(tempoBpm);
    var danceability := Danceability(regularity, onsetFactor, energy, tempoFactor);
    var loudnessDb := Loudness(m.meanRms, m.rmsDecibels);
    res := Success(Features(durationMin, tempoBpm, energy, danceability, loudnessDb));
  }
}
