/**
  `crop_and_pad`: forcing a resampled clip to exactly `int(sr * dur)` samples,
  by truncation when it is too long and by reflect padding at the end when it
  is too short. Reflect padding mirrors the samples before the last one, without
  repeating the edge sample, and needs the padding to be shorter than the input.
  The clip handed to the padding is one-dimensional, which reflect padding does
  not accept; `CropAndPadAsWritten` models that call, and `CropAndPad` the
  intended padding of the single channel, which the rest of the model uses.
 */
module Waveform {
  import opened Common

  /** `int(sr * dur_sec)`: truncation toward zero. */
  function TargetSamples(sr: int, dur: real): int {
    Trunc(sr as real * dur)
  }

  /** How many leading samples the slice `wav[:stop]` keeps; a negative stop counts from the end. */
  function SliceStop(n: nat, stop: int): (k: nat)
    ensures k <= n
    ensures 0 <= stop <= n ==> k == stop
  {
    if stop >= 0 then (if stop < n then stop else n)
    else if n + stop > 0 then n + stop else 0
  }

  /** The `pad` samples reflect padding appends: the input read backwards from its second-to-last sample. */
  function Reflection(w: seq<real>, pad: nat): (r: seq<real>)
    requires pad < |w|
    ensures |r| == pad
    ensures forall k :: 0 <= k < pad ==> r[k] == w[|w| - 2 - k]
  {
    seq(pad, k requires 0 <= k < pad => w[|w| - 2 - k])
  }

  function CropAndPad(wav: seq<real>, sr: int, dur: real): (r: Result<seq<real>>)
    // padding fails exactly when the clip is short by at least its own length
    ensures r.Err? <==> TargetSamples(sr, dur) > |wav| && TargetSamples(sr, dur) - |wav| >= |wav|
    ensures r.Err? ==> r.error == ReflectPadTooLarge
    // the output has the target length
    ensures r.Ok? && TargetSamples(sr, dur) >= 0 ==> |r.value| == TargetSamples(sr, dur)
    // so a padded clip stays shorter than twice the input
    ensures r.Ok? && |r.value| > |wav| ==> |r.value| < 2 * |wav|
    // it starts with the input
    ensures r.Ok? ==> forall i :: 0 <= i < |r.value| && i < |wav| ==> r.value[i] == wav[i]
    // and continues with the input mirrored about its last sample
    ensures r.Ok? ==> forall i :: |wav| <= i < |r.value| ==> r.value[i] == wav[2 * |wav| - 2 - i]
    // a negative target is a slice from the end and is never padded
    ensures TargetSamples(sr, dur) < 0 ==> r.Ok? && |r.value| == SliceStop(|wav|, TargetSamples(sr, dur))
  {
    var target := TargetSamples(sr, dur);
    var cropped := wav[..SliceStop(|wav|, target)];
    assert target > |cropped| ==> cropped == wav;
    if target > |cropped| then ReflectPad(cropped, target - |cropped|) else Ok(cropped)
  }

  /** `F.pad(w, (0, pad), mode='reflect')`. */
  function ReflectPad(w: seq<real>, pad: nat): (r: Result<seq<real>>)
    ensures r.Err? <==> pad >= |w|
    ensures r.Err? ==> r.error == ReflectPadTooLarge
    ensures r.Ok? ==> |r.value| == |w| + pad
    ensures r.Ok? ==> forall i :: 0 <= i < |w| ==> r.value[i] == w[i]
    ensures r.Ok? ==> forall i :: |w| <= i < |r.value| ==> r.value[i] == w[2 * |w| - 2 - i]
  {
    if pad < |w| then Ok(w + Reflection(w, pad)) else Err(ReflectPadTooLarge)
  }

  /**
    `crop_and_pad` as written: the resampled clip is one-dimensional, and
    reflect padding is implemented only for inputs of two or more dimensions,
    so every call that needs padding raises; a call that only crops goes through.
   */
  function CropAndPadAsWritten(wav: seq<real>, sr: int, dur: real): (r: Result<seq<real>>)
    ensures r.Err? <==> TargetSamples(sr, dur) > |wav|
    ensures r.Err? ==> r.error == PadDimension
    ensures r.Ok? ==> r == CropAndPad(wav, sr, dur)
  {
    var target := TargetSamples(sr, dur);
    var cropped := wav[..SliceStop(|wav|, target)];
    if target > |cropped| then Err(PadDimension) else Ok(cropped)
  }

  /** Three samples resampled to a target of five: the intended pad mirrors them, the call as written raises. */
  lemma AsWrittenPadRaises(s0: real, s1: real, s2: real)
    ensures CropAndPadAsWritten([s0, s1, s2], 5, 1.0) == Err(PadDimension)
    ensures CropAndPad([s0, s1, s2], 5, 1.0).Ok?
  {
    assert TargetSamples(5, 1.0) == 5;
  }

  /** Three samples padded to five: `[s0, s1, s2]` becomes `[s0, s1, s2, s1, s0]`. */
  lemma ReflectExample(s0: real, s1: real, s2: real)
    ensures CropAndPad([s0, s1, s2], 5, 1.0) == Ok([s0, s1, s2, s1, s0])
  {
    var wav := [s0, s1, s2];
    assert TargetSamples(5, 1.0) == 5;
    var r := CropAndPad(wav, 5, 1.0);
    assert r.Ok? && |r.value| == 5;
    assert r.value[0] == s0 && r.value[1] == s1 && r.value[2] == s2;
    assert r.value[3] == wav[1] && r.value[4] == wav[0];
    assert r.value == [s0, s1, s2, s1, s0];
  }

  /** A clip already forced to the target length comes back unchanged. */
  lemma CropAndPadIdempotent(wav: seq<real>, sr: int, dur: real)
    requires CropAndPad(wav, sr, dur).Ok? && TargetSamples(sr, dur) >= 0
    ensures CropAndPad(CropAndPad(wav, sr, dur).value, sr, dur) == CropAndPad(wav, sr, dur)
  {
    var once := CropAndPad(wav, sr, dur).value;
    assert once[..SliceStop(|once|, TargetSamples(sr, dur))] == once;
  }
}
