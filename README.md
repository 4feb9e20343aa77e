# MuzikRE descriptor extraction and request validation, modelled in Dafny

MuzikRE predicts how popular a song will be. It does this from five
descriptors extracted from an audio file: duration, tempo, energy,
danceability and loudness. This project models two parts of it.

1. `audio_analyzer.py`
   - The robust tempo estimator `_estimate_tempo_robust`. Three raw estimates
     are each expanded into octave variants (itself, double, and half above
     80 BPM). Each candidate gets a BPM-band score plus agreement bonuses. A
     stable sort by (score descending, distance to 120 ascending) picks the
     winner, which is rounded to one decimal place.
   - The arithmetic of `analyze_audio`: clipping and rounding, the tempo
     factor, the onset factor, regularity, the danceability weights, the
     silence fallback for loudness, and the two ValueError exits.
2. `app.py`
   - `allowed_file`.
   - The `/predict` loop that rejects a missing feature and clamps each
     value into `FEATURE_RANGES`, plus the clip of the prediction.
   - The order of rejections in `/predict-file` and the status code each
     one gets.

Files:

- `wrappers.dfy`: `Option` and `Result`.
- `numeric.dfy`:
  - `Clip`;
  - Python's `round(x, n)` on exact reals, rounding half to even at `10^n`;
  - that its result has at most n decimal places, its error bound,
    monotonicity and exactness on integers.
- `tempo.dfy` (module `TempoEstimation`):
  - the estimator as specification functions (`RawEstimates`,
    `CandidateList`, `ScoreAll`, `StableSort`, `SelectedTempo`);
  - the source's loops as methods proved equal to them (`BuildCandidates`,
    `ScoreCandidates`, `SelectBest`, `EstimateTempoRobust`);
  - lemmas about the selected tempo: it is a candidate, it has the maximal
    score, and it is the closest to 120 among ties;
  - lemmas about the octave correction: when some raw estimate lies in
    [40, 250], an implausible tempo never wins; when all three estimates
    agree on a tempo t in [40, 70), the selected tempo is 2t.
- `features.dfy` (module `AudioFeatures`): the per-descriptor functions,
  each with its range and its distance from the unrounded value, and the
  `AnalyzeAudio` method with its two error exits.
- `app.dfy` (module `WebApp`): `allowed_file` and the two request handlers.
  The handlers are methods whose contracts give the response for every
  input.

librosa and numpy results are inputs to the model:

- what each tempo routine returned (a number or an array). Only
  `rhythm.tempo` and the tempogram path sit inside a `try`, so only they can
  be `None` (raised, and answered by the fallback). `beat_track` has no
  `try` (audio_analyzer.py:37): when it raises, the exception leaves
  `analyze_audio`, and `/predict-file` sees it as a `LaterFault`;
- the averaged tempogram, as (strength, BPM) pairs;
- the mean RMS;
- the square-root energy curve;
- the onset autocorrelation;
- the onset count;
- the decibel level of the 90th-percentile RMS.

The trained scaler and model enter as one function argument,
`model: seq<real> -> real`. Exceptions raised by code outside the model
(saving the upload, a later librosa, scaler or model call) enter as a
`ForeignFault` argument: where they happen, and whether they are a
`ValueError` (answered 400) or any other exception (answered 500).
This holds for `/predict-file` only. `/predict` is modelled on the
assumption that the scaler and model do not raise and that the JSON body is
an object (a map from key to value).

Four details of the code that the model keeps:

- The tempo is rounded to one place inside the estimator. `analyze_audio`
  then clips it to [60, 200] and rounds it again.
- The duration in minutes is rounded to two places first and clipped
  second.
- The onset rate divides by `max(duration_sec, 1.0)`. The onsets are
  counted in at most the first 60 seconds of audio (audio_analyzer.py:136,
  182), but the divisor is the full-track duration (audio_analyzer.py:183),
  so for a track longer than a minute the rate is lower than the rate in
  the analysed window. The model takes the onset count and the duration as
  independent inputs, so it covers this.
- A load failure and an empty signal are both a `ValueError`. Both are
  answered with status 400.

## Model

| member | source | states |
|---|---|---|
| `Numeric.Clip` | audio_analyzer.py:145 | the result lies in [lo, hi]; an in-range value is unchanged; a value below or above goes to the nearer bound |
| `Numeric.ClipMonotone` | audio_analyzer.py:200 | clipping preserves order |
| `Numeric.RoundHalfEvenNearest` | audio_analyzer.py:114 | Python's rounding gives an integer within 1/2 of its argument, and the even one on an exact tie |
| `Numeric.RoundHalfEvenMonotone` | audio_analyzer.py:114 | rounding to an integer preserves order |
| `Numeric.RoundTo` | app.py:82 | `round(x, n)`: the result has at most n decimal places (times 10^n it is a whole number); how close it is to x is `RoundToError` |
| `Numeric.RoundToError` | audio_analyzer.py:144 | `round(x, n)` is within half a unit in the n-th decimal place of x |
| `Numeric.RoundToMonotone` | audio_analyzer.py:200 | `round(x, n)` preserves order |
| `Numeric.RoundToInteger` | audio_analyzer.py:149 | a whole number is unchanged by `round(x, n)` |
| `Numeric.RoundToWithin` | audio_analyzer.py:149 | rounding a value between two whole-number bounds keeps it between them, so clip-then-round stays in range |
| `TempoEstimation.PeakLag` | audio_analyzer.py:65-71 | None exactly when no lag's BPM is in [60, 220]; otherwise an in-window lag whose strength is maximal among in-window lags and strictly greater than every earlier one (argmax's first maximum) |
| `TempoEstimation.RawEstimates` | audio_analyzer.py:37-73 | three estimates; an empty beat array gives 120; a raising or empty prior estimator falls back to tempo1; a raising tempogram or no in-window lag falls back to tempo1; otherwise tempo3 is the peak lag's BPM, in [60, 220] |
| `TempoEstimation.Variants` | audio_analyzer.py:77-81 | 2 or 3 variants per estimate, each the estimate, its double, or (above 80) its half |
| `TempoEstimation.CandidateList` | audio_analyzer.py:76-81 | between 2 and 3 candidates per raw estimate |
| `TempoEstimation.CandidateListOfThree` | audio_analyzer.py:76-81 | for the three estimates the list is their variant groups in order, 6 to 9 entries |
| `TempoEstimation.CandidatesAreVariants` | audio_analyzer.py:76-81 | every candidate is a variant of some raw estimate |
| `TempoEstimation.VariantsAreCandidates` | audio_analyzer.py:76-81 | every raw estimate and its double are candidates, and its half when it exceeds 80 |
| `TempoEstimation.BaseScore` | audio_analyzer.py:85-94 | the score is -100, 0, 5 or 10, each exactly on its BPM band |
| `TempoEstimation.NearIff` | audio_analyzer.py:102 | the 5% test `abs(c - t) / max(c, 1) < 0.05` is the same as `abs(c - t) < 0.05 * max(c, 1)` |
| `TempoEstimation.AgreementBonus` | audio_analyzer.py:101-107 | the bonus is 3 exactly for a direct match; 2 exactly for a double or half match without a direct one; 0 otherwise; an equal estimate always gives 3 |
| `TempoEstimation.TotalBonusBounds` | audio_analyzer.py:97-108 | the summed bonus lies in [0, 3 per estimate], and is at least 3 for a candidate equal to an estimate |
| `TempoEstimation.InsertStable` | audio_analyzer.py:111 | insertion adds exactly one entry (same multiset plus x) |
| `TempoEstimation.StableSort` | audio_analyzer.py:111 | the sort is a permutation of its input |
| `TempoEstimation.InsertStableSorted` | audio_analyzer.py:111 | inserting into a sorted list keeps it sorted by the key |
| `TempoEstimation.StableSortSorted` | audio_analyzer.py:111 | the sort output is sorted by (score descending, distance to 120 ascending) |
| `TempoEstimation.StableSortHead` | audio_analyzer.py:111-112 | the sort's first entry is the first-in-order entry of the input (none sorts before it, every earlier one sorts after it) |
| `TempoEstimation.FirstInOrderUnique` | audio_analyzer.py:111-112 | at most one position is first in order |
| `TempoEstimation.FirstInOrderIsSortHead` | audio_analyzer.py:111-112 | the first-in-order entry is exactly `scored[0]` after the sort |
| `TempoEstimation.SelectedTempo` | audio_analyzer.py:111-112 | `scored[0][1]` after the sort is one of the candidates; its maximality is `SelectedTempoMaximisesKey` and its tie rule `SelectedTempoIsFirstBest` |
| `TempoEstimation.SelectedTempoIsFirstBest` | audio_analyzer.py:111-112 | the selected tempo is the candidate at the first-in-order position of `scored` |
| `TempoEstimation.SelectedTempoMaximisesKey` | audio_analyzer.py:111-112 | the selected tempo is a candidate, no candidate scores higher, and no candidate with equal score is closer to 120 |
| `TempoEstimation.ImplausibleNeverWins` | audio_analyzer.py:85-112 | if some estimate lies in [40, 250], the selected tempo lies in [40, 250] |
| `TempoEstimation.OctaveCorrection` | audio_analyzer.py:76-112 | three agreeing estimates t in [40, 70) select 2t: the half-tempo correction |
| `TempoEstimation.OctaveCorrectionAt65` | audio_analyzer.py:76-114 | estimates 65, 65, 65 give 130, and 130.0 after rounding |
| `TempoEstimation.BuildCandidates` | audio_analyzer.py:76-81 | the append loop builds exactly the candidate list |
| `TempoEstimation.ScoreCandidates` | audio_analyzer.py:97-108 | the nested scoring loop with its if/elif chain builds exactly the scored list |
| `TempoEstimation.SelectBest` | audio_analyzer.py:111-112 | the index found is first in order and holds the head of the stable sort |
| `TempoEstimation.EstimateTempoRobust` | audio_analyzer.py:22-114 | the estimator returns the selected tempo of the three raw estimates, rounded to one decimal place |
| `AudioFeatures.DurationMinutes` | audio_analyzer.py:143-145 | in [1.5, 8]; always within 0.005 of the exact minutes clipped to [1.5, 8] (so within 0.005 of the exact minutes for a 90-480 s track); 1.5 below 89.7 s; 8.0 above 480.3 s; at most two decimal places |
| `AudioFeatures.TempoBpm` | audio_analyzer.py:148-149 | in [60, 200]; an in-range tempo moves by at most 0.05; below 60 gives 60.0, above 200 gives 200.0; at most one decimal place |
| `AudioFeatures.Energy` | audio_analyzer.py:160-161 | in [0, 1]; an in-range curve value moves by at most 0.0005; at most three decimal places |
| `AudioFeatures.SeqMax` | audio_analyzer.py:176 | `np.max`: an element of the sequence, at least every element |
| `AudioFeatures.Regularity` | audio_analyzer.py:171-179 | at most 1; 0.5 when there is at most one lag; otherwise at least every window entry capped at 1, and either exactly 1 with some entry reaching 1, or below 1 and itself a window entry (so the window's maximum) |
| `AudioFeatures.OnsetFactor` | audio_analyzer.py:182-185 | in [0, 1]; exactly 1 when the onset rate over `max(duration, 1)` seconds reaches 5 per second; below that cap, the factor times 5 times `max(duration, 1)` is the onset count (the factor is rate / 5) |
| `AudioFeatures.OnsetFactorMonotone` | audio_analyzer.py:182-185 | more onsets never lower the onset factor |
| `AudioFeatures.TempoFactor` | audio_analyzer.py:188-194 | 0.7 exactly below 85 or above 150; 1.0 exactly on [95, 135]; 0.85 exactly on the bands between |
| `AudioFeatures.DanceabilityWeightsSumToOne` | audio_analyzer.py:196-199 | with every factor in [0, 1] the weighted sum is in [0, 1], and the weights add to 1 |
| `AudioFeatures.Danceability` | audio_analyzer.py:196-200 | in [0, 1]; an in-range sum moves by at most 0.0005; a sum outside goes to the nearer bound; at most three decimal places |
| `AudioFeatures.DanceabilityMonotoneInEnergy` | audio_analyzer.py:196-200 | with the other factors fixed, higher energy never lowers danceability |
| `AudioFeatures.Loudness` | audio_analyzer.py:204-210 | in [-30, 0]; exactly -30 when the mean RMS is not positive; otherwise an in-range decibel level moves by at most 0.05, a level below -30 gives -30.0 and one above 0 gives 0.0; at most one decimal place |
| `AudioFeatures.FeatureVector` | audio_analyzer.py:143-220 | all five descriptors lie in their ranges |
| `AudioFeatures.AnalyzeAudio` | audio_analyzer.py:130-220 | a failed load and an empty signal each give their error; otherwise the descriptor vector, every field in range, with the tempo from running the estimator |
| `WebApp.Lower` | app.py:29 | ASCII `lower()`: same length; no capital is left; each capital becomes its small letter; every other character is kept |
| `WebApp.LowerIdempotent` | app.py:29 | lower-casing twice is lower-casing once, and adds no dot |
| `WebApp.Extension` | app.py:29 | `rsplit('.', 1)[1]`: dot-free, and the name is the prefix, a dot, then the extension |
| `WebApp.ExtensionOfSplit` | app.py:29 | for any prefix and dot-free suffix, the extension of prefix + "." + suffix is the suffix |
| `WebApp.AllowedFile` | app.py:28-29 | `allowed_file`: a dot is present and the lower-cased final extension is accepted; its meaning is stated by `AllowedFileIff` |
| `WebApp.AllowedFileSplit` | app.py:28-29 | a name split at its last dot is accepted exactly when the lower-cased suffix is one of the eight extensions |
| `WebApp.AllowedFileIff` | app.py:28-29 | accepted exactly when there is a last dot whose lower-cased suffix is an accepted extension; a name without a dot is refused |
| `WebApp.AllowedFileLastDot` | app.py:28-29 | an accepted name has such a last dot |
| `WebApp.LastDotSplit` | app.py:28-29 | at the last dot, acceptance is decided by the suffix alone |
| `WebApp.AllowedFileIgnoresCase` | app.py:29 | the extension's letter case does not matter |
| `WebApp.AcceptsFinalExtension` | app.py:28-29 | "a.tar.MP3" is accepted |
| `WebApp.RejectsNameWithoutDot` | app.py:28-29 | "mp3" is refused |
| `WebApp.RejectsEmptyExtension` | app.py:28-29 | "song." is refused |
| `WebApp.RejectsInnerExtension` | app.py:28-29 | "song.mp3.txt" is refused |
| `WebApp.FeatureRangesCoverNames` | app.py:40-48 | every feature name has a range, and every range has min <= max |
| `WebApp.ClampFeature` | app.py:69-70 | the clamped value lies in the feature's range; an in-range value is unchanged; a value below or above goes to the nearer bound |
| `WebApp.ClampFeatureIdempotent` | app.py:69-70 | clamping twice is clamping once |
| `WebApp.Popularity` | app.py:79-82 | in [0, 100]; an in-range prediction moves by at most 0.05; below 0 gives 0.0, above 100 gives 100.0; at most one decimal place |
| `WebApp.FirstUnusableUnique` | app.py:65-68 | at most one feature is the first missing or non-numeric one |
| `WebApp.NoUnusable` | app.py:65-68 | when every feature is present and numeric, none is the first unusable one |
| `WebApp.Predict` | app.py:58-88 | the first missing feature in `FEATURES` order gives 400 naming it; a non-numeric one gives 500; otherwise the five clamped values in order, and the clipped, rounded model prediction |
| `WebApp.UploadRejection` | app.py:95-103 | no file part, then an empty name, then a refused extension, in that order; no rejection exactly when the part is present and its name is accepted |
| `WebApp.FaultResponse` | app.py:132-135 | a foreign `ValueError` is answered 400 and any other exception 500 |
| `WebApp.PredictFile` | app.py:92-135 | guard rejections give 400; a fault while saving is answered by its exception kind; a load failure or an empty signal gives 400; a later fault is answered by its kind; otherwise the descriptors and the clipped prediction; every rejection is 400 or 500, and 500 exactly for an internal error; a success has popularity in [0, 100] and in-range features |

## Left out

- The librosa calls themselves and their numerical content: `get_duration`, `load`, `beat_track`, `rhythm.tempo`, `onset_strength`, `tempogram`, `tempo_frequencies`, `feature.rms`, `autocorrelate` and `onset_detect`. They are signal processing outside the core; their results are inputs.
- `np.sqrt`, `np.log10` and `np.percentile`. The energy curve `sqrt(min(1, mean_rms / 0.35))` and the decibel level `20 * log10(p90 + 1e-10)` are inputs, because real square roots and logarithms are not modelled.
- No bound on energy or loudness is stated for a near-silent signal: it would depend on the square root and the logarithm above. The duration floor for a short track is stated, by `AudioFeatures.DurationMinutes`.
- Binary floating point. Every value is an exact real, so `round` is exact half-to-even and numbers like 0.35 are exact. NaN and infinity are not modelled. A tempogram lag whose BPM is infinite (lag 0) is represented as a bin outside the window.
- `AudioFeatures.Regularity`: requires that the zero-lag autocorrelation `ac[0]` is not negative. Zero-lag autocorrelation is a sum of squares, so it always holds in the source. It also keeps the divisor `ac[0] + 1e-10` positive.
- `TempoEstimation.StableSort`: only the head of the sorted list is used by the source. The model's insertion sort is proved sorted, a permutation, and to have as its head the entry `SelectBest` finds. Python's Timsort itself is not modelled.
- Flask, `request.get_json`, `jsonify` and the error message texts. A request body is a map from key to `Option<real>`, where None is a value `float()` refuses. A body `get_json` cannot parse is not modelled. Two `/predict` paths that end in the 500 of app.py:87-88 are not modelled either:
  - an exception from `scaler.transform` or `model.predict` (app.py:75-76), since `model` is a total function;
  - a JSON body that parses but is not an object. For a list or a string, the test at app.py:66 becomes element membership or a substring test.
- The temporary file (`NamedTemporaryFile`, `file.save`, `os.unlink`), `joblib`, the scaler and the regression model.
  - The scaler and model are one function argument.
  - An exception from saving or from a later call is a `ForeignFault` argument.
  - Removing the temporary file is not modelled. An exception from `os.unlink` in the `finally` block (app.py:128-130) would replace whatever response was being returned, success or rejection, with a 500, or a 400 if it were a `ValueError`.
- Non-ASCII `str.lower()`: `Lower` maps only A-Z.
- The `step` and `default` entries of `FEATURE_RANGES`. They only drive the web form.
- The `/` and `/model-info` routes, `get_audio_info`, `collect_data.py`, `expand_data.py` and `train_model.py`. They are page serving, file metadata, and offline data collection and training, outside the core.
- `MAX_CONTENT_LENGTH` (50 MB) is not modelled. An oversized upload raises `RequestEntityTooLarge` when `request.files` is first read (app.py:95), inside the `try`, so the `except Exception` clause (app.py:134-135) answers it with 500.
