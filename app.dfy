/** The request validation of app.py: the upload extension check, the
    `/predict` feature loop that rejects a missing feature and clamps each
    value into its range, and the order of rejections and the status codes of
    `/predict-file`. Flask, the temporary file and the trained scaler and
    model are not modelled: the model is a function argument. */
module WebApp {
  import opened Wrappers
  import opened Numeric
  import opened AudioFeatures

  // ---------------------------------------------------------------------
  // allowed_file
  // ---------------------------------------------------------------------

  const AllowedExtensions: set<string> := {"mp3", "wav", "ogg", "flac", "m4a", "aac", "wma", "aiff"}

  /** ASCII lower-casing of one character. */
  function LowerChar(c: char): char
  {
    if 'A' <= c <= 'Z' then (c as int + 32) as char else c
  }

  /** `str.lower()` restricted to ASCII letters: no capital is left, every
      capital becomes its small letter, and every other character is kept. */
  function Lower(s: string): (r: string)
    ensures |r| == |s|
    ensures forall i :: 0 <= i < |r| ==> !('A' <= r[i] <= 'Z')
    ensures forall i :: 0 <= i < |s| && 'A' <= s[i] <= 'Z' ==> r[i] as int == s[i] as int + 32
    ensures forall i :: 0 <= i < |s| && !('A' <= s[i] <= 'Z') ==> r[i] == s[i]
  {
    seq(|s|, i requires 0 <= i < |s| => LowerChar(s[i]))
  }

  lemma LowerIdempotent(s: string)
    ensures Lower(Lower(s)) == Lower(s)
    ensures '.' !in s ==> '.' !in Lower(s)
  {
    if '.' !in s {
      forall i | 0 <= i < |s| ensures Lower(s)[i] != '.' {
        assert s[i] != '.';
      }
    }
  }

  /** `s.rsplit('.', 1)[1]`: the text after the last dot. */
  function Extension(s: string): (e: string)
    requires '.' in s
    ensures '.' !in e
    ensures |e| < |s| && s == s[..|s| - |e| - 1] + "." + e
  {
    var last := s[|s| - 1];
    if last == '.' then
      assert s == s[..|s| - 1] + ".";
      ""
    else
      var init := s[..|s| - 1];
      assert s == init + [last];
      var e := Extension(init);
      assert init == init[..|init| - |e| - 1] + "." + e;
      assert s[..|s| - |e| - 2] == init[..|init| - |e| - 1];
      e + [last]
  }

  /** `allowed_file`: a dot is present and the lower-cased final extension is
      one of the eight accepted ones. */
  predicate AllowedFile(filename: string)
  {
    '.' in filename && Lower(Extension(filename)) in AllowedExtensions
  }

  /** Whatever comes before the last dot, the extension is what follows it. */
  lemma {:induction false} ExtensionOfSplit(p: string, e: string)
    requires '.' !in e
    ensures Extension(p + "." + e) == e
  {
    var s := p + "." + e;
    if |e| > 0 {
      var init := e[..|e| - 1];
      assert '.' !in init by {
        forall i | 0 <= i < |init| ensures init[i] != '.' { assert init[i] == e[i]; }
      }
      assert s[..|s| - 1] == p + "." + init;
      assert s[|s| - 1] == e[|e| - 1];
      ExtensionOfSplit(p, init);
      assert e == init + [e[|e| - 1]];
    }
  }

  /** `allowed_file` holds exactly when the name splits at its last dot into
      some prefix and an accepted extension (in any letter case). */
  lemma AllowedFileSplit(p: string, e: string)
    requires '.' !in e
    ensures AllowedFile(p + "." + e) <==> Lower(e) in AllowedExtensions
  {
    ExtensionOfSplit(p, e);
  }

  /** i is the position of the last dot of f. */
  predicate LastDotAt(f: string, i: int)
  {
    0 <= i < |f| && f[i] == '.' && '.' !in f[i + 1..]
  }

  /** `allowed_file(f)` holds exactly when f has a last dot and the text after
      it, lower-cased, is an accepted extension; a name without a dot fails. */
  lemma AllowedFileIff(f: string)
    ensures AllowedFile(f) <==> exists i :: LastDotAt(f, i) && Lower(f[i + 1..]) in AllowedExtensions
    ensures '.' !in f ==> !AllowedFile(f)
  {
    if AllowedFile(f) {
      var i := AllowedFileLastDot(f);
    }
    if exists i :: LastDotAt(f, i) && Lower(f[i + 1..]) in AllowedExtensions {
      var i :| LastDotAt(f, i) && Lower(f[i + 1..]) in AllowedExtensions;
      LastDotSplit(f, i);
    }
  }

  /** An accepted name has a last dot with the accepted extension after it. */
  lemma AllowedFileLastDot(f: string) returns (i: int)
    requires AllowedFile(f)
    ensures LastDotAt(f, i) && Lower(f[i + 1..]) in AllowedExtensions
  {
    var e := Extension(f);
    i := |f| - |e| - 1;
    assert f[i + 1..] == e;
  }

  /** Splitting at the last dot decides the check by what follows it. */
  lemma LastDotSplit(f: string, i: int)
    requires LastDotAt(f, i)
    ensures AllowedFile(f) <==> Lower(f[i + 1..]) in AllowedExtensions
  {
    assert f == f[..i] + "." + f[i + 1..];
    AllowedFileSplit(f[..i], f[i + 1..]);
  }

  /** Letter case of the extension does not matter. */
  lemma AllowedFileIgnoresCase(p: string, e: string)
    requires '.' !in e
    ensures AllowedFile(p + "." + e) == AllowedFile(p + "." + Lower(e))
  {
    LowerIdempotent(e);
    AllowedFileSplit(p, e);
    AllowedFileSplit(p, Lower(e));
  }

  /** Only the final extension counts, in any case. */
  lemma AcceptsFinalExtension()
    ensures AllowedFile("a.tar.MP3")
  {
    AllowedFileSplit("a.tar", "MP3");
    assert "a.tar" + "." + "MP3" == "a.tar.MP3";
    assert Lower("MP3") == "mp3";
  }

  /** A name without a dot is refused even when it spells an extension. */
  lemma RejectsNameWithoutDot()
    ensures !AllowedFile("mp3")
  {
    assert "mp3"[0] != '.' && "mp3"[1] != '.' && "mp3"[2] != '.';
  }

  /** An empty final extension is refused. */
  lemma RejectsEmptyExtension()
    ensures !AllowedFile("song.")
  {
    AllowedFileSplit("song", "");
    assert "song" + "." + "" == "song.";
  }

  /** An accepted extension before the last dot does not help. */
  lemma RejectsInnerExtension()
    ensures !AllowedFile("song.mp3.txt")
  {
    AllowedFileSplit("song.mp3", "txt");
    assert "song.mp3" + "." + "txt" == "song.mp3.txt";
    assert Lower("txt") == "txt";
  }

  // ---------------------------------------------------------------------
  // /predict
  // ---------------------------------------------------------------------

  const FeatureNames: seq<string> := ["duration_min", "tempo_bpm", "energy", "danceability", "loudness_db"]

  datatype Range = Range(lo: real, hi: real)

  /** `FEATURE_RANGES`, min and max only (step and default drive the form). */
  const FeatureRanges: map<string, Range> := map[
    "duration_min" := Range(1.5, 8.0),
    "tempo_bpm" := Range(60.0, 200.0),
    "energy" := Range(0.0, 1.0),
    "danceability" := Range(0.0, 1.0),
    "loudness_db" := Range(-30.0, 0.0)]

  lemma FeatureRangesCoverNames()
    ensures forall i :: 0 <= i < |FeatureNames| ==> FeatureNames[i] in FeatureRanges
    ensures forall f :: f in FeatureRanges ==> FeatureRanges[f].lo <= FeatureRanges[f].hi
  {
  }

  /** `max(r['min'], min(r['max'], val))` for a named feature. */
  function ClampFeature(name: string, v: real): (r: real)
    requires name in FeatureRanges
    ensures FeatureRanges[name].lo <= r <= FeatureRanges[name].hi
    ensures FeatureRanges[name].lo <= v <= FeatureRanges[name].hi ==> r == v
    ensures v < FeatureRanges[name].lo ==> r == FeatureRanges[name].lo
    ensures v > FeatureRanges[name].hi ==> r == FeatureRanges[name].hi
  {
    FeatureRangesCoverNames();
    Clip(v, FeatureRanges[name].lo, FeatureRanges[name].hi)
  }

  lemma ClampFeatureIdempotent(name: string, v: real)
    requires name in FeatureRanges
    ensures ClampFeature(name, ClampFeature(name, v)) == ClampFeature(name, v)
  {
    FeatureRangesCoverNames();
    ClipIdempotent(v, FeatureRanges[name].lo, FeatureRanges[name].hi);
  }

  /** The JSON body: for each key, the number `float(value)` yields, or None
      when `float` raises on it. */
  type RequestBody = map<string, Option<real>>

  predicate Usable(data: RequestBody, name: string)
  {
    name in data && data[name].Some?
  }

  /** Feature i is the first, in `FEATURES` order, that is missing or not a
      number; all earlier ones were accepted. */
  predicate FirstUnusableAt(data: RequestBody, i: int)
  {
    && 0 <= i < |FeatureNames|
    && !Usable(data, FeatureNames[i])
    && forall j :: 0 <= j < i ==> Usable(data, FeatureNames[j])
  }

  datatype RequestError = MissingFeature(name: string) | InvalidNumber(name: string)

  datatype PredictResponse =
    | Predicted(popularity: real, values: seq<real>)
    | PredictRejected(status: int, error: RequestError)

  /** `float(np.clip(prediction, 0, 100))` rounded to 1 place. */
  function Popularity(prediction: real): (p: real)
    ensures 0.0 <= p <= 100.0
    ensures 0.0 <= prediction <= 100.0 ==> Abs(p - prediction) <= 0.05
    ensures prediction < 0.0 ==> p == 0.0
    ensures prediction > 100.0 ==> p == 100.0
    ensures OnGrid(p, 1)
  {
    var clipped := Clip(prediction, 0.0, 100.0);
    RoundToWithin(clipped, 0, 100, 1);
    RoundToError(clipped, 1);
    RoundToInteger(0, 1);
    RoundToInteger(100, 1);
    RoundTo(clipped, 1)
  }

  /** `predict`: walks `FEATURES` in order; the first missing feature gives 400
      naming it, a value `float` rejects gives 500, and later features are
      not looked at. Otherwise the five clamped values, in `FEATURES` order,
      go to the model and the clipped prediction comes back. */
  method Predict(data: RequestBody, model: seq<real> -> real) returns (resp: PredictResponse)
    ensures forall i :: FirstUnusableAt(data, i) && FeatureNames[i] !in data ==>
              resp == PredictRejected(400, MissingFeature(FeatureNames[i]))
    ensures forall i :: FirstUnusableAt(data, i) && FeatureNames[i] in data ==>
              resp == PredictRejected(500, InvalidNumber(FeatureNames[i]))
    ensures (forall i :: 0 <= i < |FeatureNames| ==> Usable(data, FeatureNames[i])) ==>
              && resp.Predicted?
              && |resp.values| == |FeatureNames|
              && (forall i :: 0 <= i < |FeatureNames| ==>
                    resp.values[i] == ClampFeature(FeatureNames[i], data[FeatureNames[i]].value))
              && resp.popularity == Popularity(model(resp.values))
  {
    FeatureRangesCoverNames();
    var values: seq<real> := [];
    for i := 0 to |FeatureNames|
      invariant |values| == i
      invariant forall j :: 0 <= j < i ==> Usable(data, FeatureNames[j])
      invariant forall j :: 0 <= j < i ==>
                  values[j] == ClampFeature(FeatureNames[j], data[FeatureNames[j]].value)
    {
      var feat := FeatureNames[i];
      if feat !in data {
        assert FirstUnusableAt(data, i);
        FirstUnusableUnique(data, i);
        return PredictRejected(400, MissingFeature(feat));
      }
      if data[feat].None? {
        assert FirstUnusableAt(data, i);
        FirstUnusableUnique(data, i);
        return PredictRejected(500, InvalidNumber(feat));
      }
      var val := data[feat].value;
      var r := FeatureRanges[feat];
      val := Clip(val, r.lo, r.hi);
      values := values + [val];
    }
    resp := Predicted(Popularity(model(values)), values);
    NoUnusable(data);
  }

  lemma FirstUnusableUnique(data: RequestBody, i: int)
    requires FirstUnusableAt(data, i)
    ensures forall k :: FirstUnusableAt(data, k) ==> k == i
  {
    forall k | FirstUnusableAt(data, k) ensures k == i {
      assert !Usable(data, FeatureNames[k]) && !Usable(data, FeatureNames[i]);
    }
  }

  lemma NoUnusable(data: RequestBody)
    requires forall j :: 0 <= j < |FeatureNames| ==> Usable(data, FeatureNames[j])
    ensures forall k :: !FirstUnusableAt(data, k)
  {
  }

  // ---------------------------------------------------------------------
  // /predict-file
  // ---------------------------------------------------------------------

  datatype UploadError =
    | NoFilePart
    | NoFileSelected
    | UnsupportedType
    | AnalysisFailed(reason: AudioError)
    | ForeignValueError
    | InternalError

  datatype FileResponse =
    | FilePredicted(popularity: real, features: Features, fileName: string)
    | FileRejected(status: int, error: UploadError)

  /** The handler tells exceptions apart by type only: a ValueError is
      answered 400, anything else 500. */
  datatype ExceptionKind = ValueErrorRaised | OtherRaised

  /** An exception that code outside the model can raise inside
      `predict_file`: while saving the upload to a temporary file
      (SaveFault), or in a librosa, scaler or model call made after the audio
      was loaded (LaterFault). */
  datatype ForeignFault = NoFault | SaveFault(kind: ExceptionKind) | LaterFault(kind: ExceptionKind)

  /** The two `except` clauses of `predict_file`. */
  function FaultResponse(kind: ExceptionKind): (resp: FileResponse)
    ensures resp.FileRejected?
    ensures resp.status == 400 <==> kind == ValueErrorRaised
    ensures resp.status == 500 <==> kind == OtherRaised
  {
    match kind
    case ValueErrorRaised => FileRejected(400, ForeignValueError)
    case OtherRaised => FileRejected(500, InternalError)
  }

  /** The three guards before any analysis, in source order: no `audio_file`
      part, an empty file name, an extension `allowed_file` refuses. */
  function UploadRejection(files: map<string, string>): (r: Option<UploadError>)
    ensures "audio_file" !in files ==> r == Some(NoFilePart)
    ensures "audio_file" in files && files["audio_file"] == "" ==> r == Some(NoFileSelected)
    ensures "audio_file" in files && files["audio_file"] != "" && !AllowedFile(files["audio_file"]) ==>
              r == Some(UnsupportedType)
    ensures r.None? <==> "audio_file" in files && AllowedFile(files["audio_file"])
  {
    if "audio_file" !in files then Some(NoFilePart)
    else if files["audio_file"] == "" then Some(NoFileSelected)
    else if !AllowedFile(files["audio_file"]) then Some(UnsupportedType)
    else None
  }

  function FeatureValues(f: Features): seq<real>
  {
    [f.durationMin, f.tempoBpm, f.energy, f.danceability, f.loudnessDb]
  }

  /** `predict_file`: the upload guards answer 400 before anything is saved or
      analysed; a ValueError, whether `analyze_audio` raises it or a foreign
      call does, answers 400; any other exception answers 500; otherwise the
      features and the clipped prediction. `files` maps each multipart field
      to its file name. */
  method PredictFile(files: map<string, string>, load: Option<LoadedAudio>, m: Measurements,
                     fault: ForeignFault, model: seq<real> -> real) returns (resp: FileResponse)
    requires |m.autocorr| > 0 ==> m.autocorr[0] >= 0.0
    ensures UploadRejection(files).Some? ==> resp == FileRejected(400, UploadRejection(files).value)
    ensures UploadRejection(files).None? && fault.SaveFault? ==> resp == FaultResponse(fault.kind)
    ensures UploadRejection(files).None? && !fault.SaveFault? && load.None? ==>
              resp == FileRejected(400, AnalysisFailed(LoadFailed))
    ensures UploadRejection(files).None? && !fault.SaveFault? && load.Some? && load.value.sampleCount == 0 ==>
              resp == FileRejected(400, AnalysisFailed(EmptySignal))
    ensures UploadRejection(files).None? && fault.LaterFault? && load.Some? && load.value.sampleCount > 0 ==>
              resp == FaultResponse(fault.kind)
    ensures UploadRejection(files).None? && fault == NoFault && load.Some? && load.value.sampleCount > 0 ==>
              resp == FilePredicted(Popularity(model(FeatureValues(FeatureVector(load.value, m)))),
                                    FeatureVector(load.value, m), files["audio_file"])
    ensures resp.FileRejected? ==> (resp.status == 400 || resp.status == 500)
    ensures resp.FileRejected? ==> (resp.status == 500 <==> resp.error == InternalError)
    ensures resp.FilePredicted? ==> 0.0 <= resp.popularity <= 100.0 && InDomain(resp.features)
  {
    if "audio_file" !in files {
      return FileRejected(400, NoFilePart);
    }
    var filename := files["audio_file"];
    if filename == "" {
      return FileRejected(400, NoFileSelected);
    }
    if !AllowedFile(filename) {
      return FileRejected(400, UnsupportedType);
    }
    if fault.SaveFault? {
      return FaultResponse(fault.kind);
    }
    var analysis := AnalyzeAudio(load, m);
    if analysis.Failure? {
      return FileRejected(400, AnalysisFailed(analysis.error));
    }
    if fault.LaterFault? {
      return FaultResponse(fault.kind);
    }
    var features := analysis.value;
    var prediction := model(FeatureValues(features));
    resp := FilePredicted(Popularity(prediction), features, filename);
  }
}
