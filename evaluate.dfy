/**
 * The PESQ scoring script (tests/e2e/scripts/pesq/evaluate.py): loading audio as mono at a
 * target rate, aligning the degraded signal to the reference for a given lag, the two
 * scorers' result records with their error paths, and `main`'s choice of scorer and exit
 * status. Which optional libraries are installed, the files, and the numerics (resampling,
 * the cross-correlation lag, the PESQ algorithm of ITU-T Recommendation P.862 and the
 * Pearson correlation) are parameters.
 */
module Evaluate {
  import opened Wrappers
  import Text

  /** Which optional imports succeeded. */
  datatype Libraries = Libraries(pesq: bool, soundfile: bool, scipy: bool)

  /** A frame of a multichannel file: one value per channel, and a file has at least one channel. */
  type Frame = f: seq<real> | |f| >= 1 witness [0.0]

  /** What `sf.read` returns: a one-dimensional array for mono, a frame per row otherwise. */
  datatype SoundData = Mono(samples: seq<real>) | Frames(frames: seq<Frame>)

  datatype Decoded = Decoded(data: SoundData, sr: nat)

  /** The numerics the script delegates to numpy, scipy and pesq. */
  datatype NumericsFns = NumericsFns(
    resample: (seq<real>, nat) -> seq<real>,          // `signal.resample`
    lag: (seq<real>, seq<real>) -> int,               // argmax of |correlate(deg, ref)| − len(ref) + 1
    pesq: (nat, seq<real>, seq<real>, string) -> Result<real, string>,
    corrcoef: (seq<real>, seq<real>) -> real)

  /** `resample(x, k)` returns exactly `k` samples. */
  ghost predicate Sized(resample: (seq<real>, nat) -> seq<real>)
  {
    forall x, k :: |resample(x, k)| == k
  }

  type Numerics = n: NumericsFns | Sized(n.resample)
    witness NumericsFns((x: seq<real>, k: nat) => seq(k, _ => 0.0), (r, d) => 0, (sr, r, d, m) => Ok(0.0), (r, d) => 0.0)

  function Sum(xs: seq<real>): real
  {
    if xs == [] then 0.0 else Sum(xs[..|xs| - 1]) + xs[|xs| - 1]
  }

  /** `np.mean(data, axis=1)`: each frame's channels averaged. */
  function MixDown(frames: seq<Frame>): (r: seq<real>)
    ensures |r| == |frames|
    ensures forall i :: 0 <= i < |r| ==> r[i] * (|frames[i]| as real) == Sum(frames[i])
  {
    seq(|frames|, i requires 0 <= i < |frames| => Sum(frames[i]) / (|frames[i]| as real))
  }

  /** A mono file is kept as it is. */
  function ToMono(d: SoundData): (r: seq<real>)
    ensures d.Mono? ==> r == d.samples
    ensures d.Frames? ==> |r| == |d.frames|
  {
    match d
    case Mono(s) => s
    case Frames(f) => MixDown(f)
  }

  /** Audio as `load_audio` returns it. */
  datatype Loaded = Loaded(samples: seq<real>, sr: nat)

  const SOUNDFILE_MISSING: string := "soundfile is required: pip install soundfile"

  /** `int(len · target / sr)`, the resampled length. */
  function ResampledLength(len: nat, target: nat, sr: nat): nat
    requires sr > 0
  {
    len * target / sr
  }

  /** `signal.resample(x, n)`. */
  function Resample(num: Numerics, x: seq<real>, n: nat): (r: seq<real>)
    ensures |r| == n
  {
    num.resample(x, n)
  }

  /** A decoded file made mono, and resampled to `target` when scipy is there and the rates differ. */
  function Convert(scipy: bool, num: Numerics, file: Decoded, target: nat): (r: Result<Loaded, string>)
    ensures file.sr == target || !scipy ==> r == Ok(Loaded(ToMono(file.data), file.sr))
    ensures scipy && file.sr != target ==> (r.Err? <==> file.sr == 0)
    ensures r.Ok? && scipy ==> r.value.sr == target
    ensures r.Ok? && scipy && file.sr != target ==>
      |r.value.samples| == ResampledLength(|ToMono(file.data)|, target, file.sr)
  {
    var data := ToMono(file.data);
    if file.sr != target && scipy then
      if file.sr == 0 then Err("division by zero")
      else Ok(Loaded(Resample(num, data, ResampledLength(|data|, target, file.sr)), target))
    else Ok(Loaded(data, file.sr))
  }

  /**
   * `load_audio`: the exception a call raises is its message. `file` is what `sf.read`
   * gives back.
   */
  function LoadAudio(libs: Libraries, num: Numerics, file: Result<Decoded, string>, target: nat): (r: Result<Loaded, string>)
    ensures !libs.soundfile ==> r == Err(SOUNDFILE_MISSING)
    ensures libs.soundfile && file.Err? ==> r == Err(file.error)
    ensures libs.soundfile && file.Ok? ==> r == Convert(libs.scipy, num, file.value, target)
  {
    if !libs.soundfile then Err(SOUNDFILE_MISSING)
    else if file.Err? then Err(file.error)
    else Convert(libs.scipy, num, file.value, target)
  }

  // ----- alignment -----

  function Min(a: nat, b: nat): nat
  {
    if a <= b then a else b
  }

  /** Python's `xs[k:]` for `k >= 0`: empty once `k` passes the end. */
  function Drop(xs: seq<real>, k: nat): (r: seq<real>)
    ensures |r| == if k <= |xs| then |xs| - k else 0
    ensures forall i :: 0 <= i < |r| ==> r[i] == xs[k + i]
  {
    if k <= |xs| then xs[k..] else []
  }

  /** What `align_signals` returns. */
  datatype Aligned = Aligned(ref: seq<real>, deg: seq<real>, latencyMs: real)

  function AbsInt(x: int): nat
  {
    if x < 0 then -x else x
  }

  /**
   * `align_signals`: without scipy both signals are cut to the shorter; with it, a positive
   * lag drops that many leading degraded samples, a negative one that many leading reference
   * samples, and then both are cut to the shorter. `lag` is what the cross-correlation found.
   */
  function AlignSignals(scipy: bool, ref: seq<real>, deg: seq<real>, sr: nat, lag: int): (r: Aligned)
    requires scipy ==> sr > 0
    ensures |r.ref| == |r.deg| && |r.ref| <= |ref| && |r.deg| <= |deg|
    ensures r.latencyMs >= 0.0 && (!scipy ==> r.latencyMs == 0.0)
    ensures (!scipy || lag == 0) ==> r.ref == ref[..|r.ref|] && r.deg == deg[..|r.deg|]
  {
    if !scipy then
      var n := Min(|ref|, |deg|);
      Aligned(ref[..n], deg[..n], 0.0)
    else
      var latency := AbsInt(lag) as real / sr as real * 1000.0;
      var ref' := if lag < 0 then Drop(ref, -lag) else ref;
      var deg' := if lag > 0 then Drop(deg, lag) else deg;
      var n := Min(|ref'|, |deg'|);
      Aligned(ref'[..n], deg'[..n], latency)
  }

  /** Lines up `ref[a + i]` with `deg[b + i]` for as long as both last, `a` and `b` being the samples each drops. */
  lemma AlignedSlices(scipy: bool, ref: seq<real>, deg: seq<real>, sr: nat, lag: int)
    requires scipy ==> sr > 0
    ensures var r := AlignSignals(scipy, ref, deg, sr, lag);
      var a := if scipy && lag < 0 then -lag else 0;
      var b := if scipy && lag > 0 then lag else 0;
      |r.ref| == |r.deg|
      && |r.ref| == Min(if a <= |ref| then |ref| - a else 0, if b <= |deg| then |deg| - b else 0)
      && (forall i :: 0 <= i < |r.ref| ==> r.ref[i] == ref[a + i] && r.deg[i] == deg[b + i])
      && r.latencyMs >= 0.0
      && (!scipy ==> r.latencyMs == 0.0)
  {
  }

  /**
   * Alignment undoes a delay it is told about: when the degraded signal is the reference
   * arriving `lag` samples late, the aligned pair is the same signal twice, and the latency
   * is the lag in milliseconds.
   */
  lemma AlignUndoesDelay(ref: seq<real>, deg: seq<real>, sr: nat, lag: nat)
    requires sr > 0
    requires forall i :: 0 <= i < |ref| && lag + i < |deg| ==> deg[lag + i] == ref[i]
    ensures var r := AlignSignals(true, ref, deg, sr, lag);
      r.ref == r.deg && r.latencyMs == lag as real / sr as real * 1000.0
  {
    var r := AlignSignals(true, ref, deg, sr, lag);
    AlignedSlices(true, ref, deg, sr, lag);
    assert forall i :: 0 <= i < |r.ref| ==> r.ref[i] == r.deg[i];
  }

  // ----- the scorers -----

  /**
   * A score record: the four keys every record has (None is JSON null), and the
   * `correlation` and `warning` keys, which only some records carry.
   */
  datatype Score = Score(
    mos: Option<real>,
    latencyMs: Option<real>,
    error: Option<string>,
    mode: string,
    correlation: Option<real>,
    warning: Option<string>)

  function Blank(mode: string): Score
  {
    Score(None, None, None, mode, None, None)
  }

  function Failed(mode: string, message: string): Score
  {
    Blank(mode).(error := Some(message))
  }

  const PESQ_MISSING: string := "pesq library not available: pip install pesq"

  /** The rate `calculate_pesq` loads at: 16 kHz for wideband, 8 kHz for anything else. */
  function PesqRate(mode: string): (sr: nat)
    ensures sr == 16000 <==> mode == "wb"
    ensures sr == 8000 <==> mode != "wb"
  {
    if mode == "wb" then 16000 else 8000
  }

  /** The files under evaluation, as `sf.read` would give them. */
  datatype Inputs = Inputs(reference: Result<Decoded, string>, degraded: Result<Decoded, string>)

  /**
   * `calculate_pesq`: an error record without pesq, when a load fails, or when the loaded
   * rates differ; otherwise the latency, and then the score or the error pesq raised.
   */
  function CalculatePesq(libs: Libraries, num: Numerics, files: Inputs, mode: string): (r: Score)
    ensures r.mode == mode && r.correlation.None? && r.warning.None?
    ensures !libs.pesq ==> r == Failed(mode, PESQ_MISSING)
    ensures r.mos.Some? <==> r.error.None?
    ensures r.mos.Some? ==> r.latencyMs.Some?
  {
    if !libs.pesq then Failed(mode, PESQ_MISSING)
    else
      var target := PesqRate(mode);
      var ref := LoadAudio(libs, num, files.reference, target);
      if ref.Err? then Failed(mode, ref.error)
      else
        var deg := LoadAudio(libs, num, files.degraded, target);
        if deg.Err? then Failed(mode, deg.error)
        else if ref.value.sr != deg.value.sr then
          Failed(mode, "Sample rate mismatch: ref=" + Text.Decimal(ref.value.sr) + ", deg=" + Text.Decimal(deg.value.sr))
        else
          var sr := ref.value.sr;
          var lag := if libs.scipy then num.lag(ref.value.samples, deg.value.samples) else 0;
          var a := AlignSignals(libs.scipy, ref.value.samples, deg.value.samples, sr, lag);
          var timed := Blank(mode).(latencyMs := Some(a.latencyMs));
          var mos := num.pesq(sr, a.ref, a.deg, mode);
          if mos.Err? then timed.(error := Some(mos.error)) else timed.(mos := Some(mos.value))
  }

  /** Both files load, so a rate mismatch is what is left to fail on before scoring. */
  lemma PesqRateMismatch(libs: Libraries, num: Numerics, files: Inputs, mode: string)
    requires libs.pesq && libs.soundfile && files.reference.Ok? && files.degraded.Ok?
    requires !libs.scipy && files.reference.value.sr != files.degraded.value.sr
    ensures CalculatePesq(libs, num, files, mode).error.Some?
    ensures CalculatePesq(libs, num, files, mode).mos.None?
    ensures CalculatePesq(libs, num, files, mode).latencyMs.None?
  {
  }

  /** With scipy both files are brought to the mode's rate, so the rates always agree. */
  lemma PesqRatesAgreeWithScipy(libs: Libraries, num: Numerics, files: Inputs, mode: string)
    requires libs.pesq && libs.soundfile && libs.scipy && files.reference.Ok? && files.degraded.Ok?
    requires files.reference.value.sr > 0 && files.degraded.value.sr > 0
    ensures var r := CalculatePesq(libs, num, files, mode);
      r.latencyMs.Some? && r.latencyMs.value >= 0.0
  {
    var target := PesqRate(mode);
    var ref := LoadAudio(libs, num, files.reference, target);
    var deg := LoadAudio(libs, num, files.degraded, target);
    assert ref.Ok? && deg.Ok? && ref.value.sr == target == deg.value.sr;
    var lag := num.lag(ref.value.samples, deg.value.samples);
    AlignedSlices(true, ref.value.samples, deg.value.samples, target, lag);
  }

  /** The fallback's mapping from correlation to an approximate MOS. */
  function CorrelationMos(c: real): real
  {
    1.0 + 3.5 * (if c > 0.0 then c else 0.0)
  }

  /** The mapped score is at least 1, and at most 4.5 for a correlation of at most 1. */
  lemma CorrelationMosRange(c: real)
    ensures CorrelationMos(c) >= 1.0
    ensures c <= 1.0 ==> CorrelationMos(c) <= 4.5
    ensures c >= 0.0 ==> CorrelationMos(c) == 1.0 + 3.5 * c
  {
  }

  const FALLBACK_RATE: nat := 48000

  /**
   * `calculate_correlation_mos`: load at 48 kHz, align, refuse an empty alignment (keeping
   * the latency), and otherwise score the Pearson correlation.
   */
  function CalculateCorrelationMos(libs: Libraries, num: Numerics, files: Inputs): (r: Score)
    ensures r.mode == "correlation" && r.warning.None?
    ensures r.mos.Some? <==> r.error.None?
    ensures r.correlation.Some? <==> r.error.None?
    ensures r.mos.Some? ==> r.mos.value == CorrelationMos(r.correlation.value) && r.latencyMs.Some?
  {
    var mode := "correlation";
    var ref := LoadAudio(libs, num, files.reference, FALLBACK_RATE);
    if ref.Err? then Failed(mode, ref.error)
    else
      var deg := LoadAudio(libs, num, files.degraded, FALLBACK_RATE);
      if deg.Err? then Failed(mode, deg.error)
      else
        var sr := ref.value.sr;
        if libs.scipy && sr == 0 then Failed(mode, "division by zero")
        else
          var lag := if libs.scipy then num.lag(ref.value.samples, deg.value.samples) else 0;
          var a := AlignSignals(libs.scipy, ref.value.samples, deg.value.samples, sr, lag);
          var timed := Blank(mode).(latencyMs := Some(a.latencyMs));
          if |a.ref| == 0 then timed.(error := Some("Empty audio after alignment"))
          else
            var c := num.corrcoef(a.ref, a.deg);
            timed.(mos := Some(CorrelationMos(c)), correlation := Some(c))
  }

  /** Without scipy, an empty file on either side is refused after alignment, with the latency kept. */
  lemma EmptyAudioRefused(libs: Libraries, num: Numerics, files: Inputs)
    requires libs.soundfile && !libs.scipy && files.reference.Ok? && files.degraded.Ok?
    requires files.reference.value.data == Mono([]) || files.degraded.value.data == Mono([])
    ensures CalculateCorrelationMos(libs, num, files)
      == Blank("correlation").(latencyMs := Some(0.0), error := Some("Empty audio after alignment"))
  {
  }

  // ----- main -----

  /** The command line. `json` is the `--json` text; `mode` the `--mode` choice. */
  datatype Args = Args(reference: Option<string>, degraded: Option<string>, mode: string, json: Option<string>, fallback: bool)

  /**
   * What `json.loads` and the key lookups make of the `--json` text: a decode error, a value
   * that is not an object (an array, a string, a number; indexing it by a key raises
   * TypeError), or an object's keys. `fallback` is the truthiness of the `"fallback"` value,
   * which is all `not fallback` looks at.
   */
  datatype JsonInput =
    | BadJson(decodeError: string)
    | NotObject
    | JsonObject(reference: Option<string>, degraded: Option<string>, mode: Option<string>, fallback: Option<bool>)

  /** The request `main` ends up with, or the message it stops on. */
  datatype Request = Request(reference: string, degraded: string, mode: string, fallback: bool)

  /** What `main` prints and the status it exits with. */
  datatype Outcome =
    | ErrorJson(message: string, exit: nat)
    | Usage(message: string, exit: nat)
    | Scored(result: Score, exit: nat)
    | Crash(exit: nat)  // an uncaught exception: a traceback and no JSON line

  const USAGE_ERROR: string := "--reference and --degraded are required (or use --json)"

  /**
   * The input half of `main`: the JSON text wins when it is non-empty (a missing key is a
   * KeyError, its message the quoted key; a non-object raises a TypeError that nothing
   * catches); otherwise both paths must be on the command line.
   */
  function ParseInput(args: Args, parsed: JsonInput): (r: Result<Request, Outcome>)
    ensures r.Err? ==> (r.error.ErrorJson? && r.error.exit == 1) || (r.error.Usage? && r.error.exit == 2) || r.error == Crash(1)
    ensures args.json.Some? && args.json.value != "" && parsed.NotObject? ==> r == Err(Crash(1))
    ensures (args.json.None? || args.json.value == "") ==>
      (r.Ok? <==> args.reference.Some? && args.reference.value != "" && args.degraded.Some? && args.degraded.value != "")
  {
    if args.json.Some? && args.json.value != "" then
      match parsed
      case BadJson(e) => Err(ErrorJson("Invalid JSON input: " + e, 1))
      case NotObject => Err(Crash(1))
      case JsonObject(ref, deg, mode, fallback) =>
        if ref.None? then Err(ErrorJson("Invalid JSON input: 'reference'", 1))
        else if deg.None? then Err(ErrorJson("Invalid JSON input: 'degraded'", 1))
        else Ok(Request(ref.value, deg.value, mode.GetOr("wb"), fallback.GetOr(false)))
    else if args.reference.None? || args.reference.value == "" || args.degraded.None? || args.degraded.value == "" then
      Err(Usage(USAGE_ERROR, 2))
    else Ok(Request(args.reference.value, args.degraded.value, args.mode, args.fallback))
  }

  /** Whether a result counts as failed: `result.get('error')` is a non-empty string. */
  predicate HasError(s: Score)
  {
    s.error.Some? && s.error.value != ""
  }

  const PESQ_FALLBACK_WARNING: string := "PESQ not available, using correlation fallback"

  /** The scoring half of `main`: PESQ unless it is missing or the fallback is asked for. */
  function Evaluate(libs: Libraries, num: Numerics, files: Inputs, req: Request): (r: Score)
    ensures r.mos.Some? <==> r.error.None?
    ensures r.correlation.Some? ==> r.mode == "correlation"
  {
    if libs.pesq && !req.fallback then CalculatePesq(libs, num, files, req.mode)
    else
      var s := CalculateCorrelationMos(libs, num, files);
      if !libs.pesq then s.(warning := Some(PESQ_FALLBACK_WARNING)) else s
  }

  /**
   * The correlation fallback is used exactly when PESQ is missing or the fallback is asked
   * for, and a warning is attached exactly when PESQ is missing.
   */
  lemma EvaluateDispatch(libs: Libraries, num: Numerics, files: Inputs, req: Request)
    ensures var r := Evaluate(libs, num, files, req);
      (r.mode == "correlation" <==> !libs.pesq || req.fallback || req.mode == "correlation")
      && (r.warning.Some? <==> !libs.pesq)
  {
  }

  /**
   * `main`: input errors and missing files print an error and exit 1 before any scoring; a
   * scored result exits 1 exactly when it carries a non-empty error. `isFile` says which
   * paths exist; `files` is what reading the two gives.
   */
  function Main(args: Args, parsed: JsonInput, isFile: string -> bool, libs: Libraries, num: Numerics, files: Inputs): (r: Outcome)
    ensures r.Scored? ==> (r.exit == 1 <==> HasError(r.result)) && (r.exit == 0 <==> !HasError(r.result))
    ensures !r.Scored? ==> r.exit >= 1
    ensures r.Scored? ==> ParseInput(args, parsed).Ok? && isFile(ParseInput(args, parsed).value.reference) && isFile(ParseInput(args, parsed).value.degraded)
  {
    var input := ParseInput(args, parsed);
    if input.Err? then input.error
    else
      var req := input.value;
      if !isFile(req.reference) then ErrorJson("Reference file not found: " + req.reference, 1)
      else if !isFile(req.degraded) then ErrorJson("Degraded file not found: " + req.degraded, 1)
      else
        var result := Evaluate(libs, num, files, req);
        Scored(result, if HasError(result) then 1 else 0)
  }

  /**
   * Scoring happens only for well-formed input and existing files; an input or file error
   * exits 1 (a usage error 2); a score exits non-zero exactly when it has a non-empty error.
   */
  lemma MainExitStatus(args: Args, parsed: JsonInput, isFile: string -> bool, libs: Libraries, num: Numerics, files: Inputs)
    ensures var r := Main(args, parsed, isFile, libs, num, files);
      var input := ParseInput(args, parsed);
      (r.Scored? <==> input.Ok? && isFile(input.value.reference) && isFile(input.value.degraded))
      && (r.Scored? ==> (r.exit == 1 <==> HasError(r.result)) && (r.exit == 0 <==> !HasError(r.result)))
      && (r.ErrorJson? ==> r.exit == 1)
      && (r.Usage? ==> r.exit == 2)
      && (r.Crash? ==> r.exit == 1)
  {
  }

  /** Without soundfile the PESQ scorer fails on loading, and `main` exits 1. */
  lemma SoundfileMissingFails(args: Args, parsed: JsonInput, isFile: string -> bool, libs: Libraries, num: Numerics, files: Inputs)
    requires var input := ParseInput(args, parsed);
      input.Ok? && isFile(input.value.reference) && isFile(input.value.degraded)
    requires libs.pesq && !ParseInput(args, parsed).value.fallback && !libs.soundfile
    ensures var r := Main(args, parsed, isFile, libs, num, files);
      r.Scored? && r.result.error == Some(SOUNDFILE_MISSING) && r.result.mos.None? && r.exit == 1
  {
  }

  /** An exception whose message is empty still leaves an error in the record, yet `main` exits 0. */
  lemma EmptyErrorExitsZero(args: Args, parsed: JsonInput, isFile: string -> bool, libs: Libraries, num: Numerics, files: Inputs)
    requires Main(args, parsed, isFile, libs, num, files).Scored?
    requires Main(args, parsed, isFile, libs, num, files).result.error == Some("")
    ensures Main(args, parsed, isFile, libs, num, files).exit == 0
    ensures Main(args, parsed, isFile, libs, num, files).result.mos.None?
  {
  }
}
