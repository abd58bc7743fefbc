/**
  Target encoding for one clip (`get_annotation`): the anchor, regression and
  class targets at the prediction frame rate, built from the clip's
  window-relative intervals.

  The Gaussian bump of `get_anchor_anno` is a parameter `bump(startIdx,
  durSamples, seqLen)`; its exponential values are floating-point maths the
  model does not reproduce. `ValidBump` states what the real bump provides:
  `seqLen` values, and when the duration is positive, values in `[0, 1]`
  equal to 1 at the start frame.
 */
module Annotation {
  import opened Common
  import opened SelectionTable

  /** The three targets, shapes `[seqLen]`, `[seqLen]` and `[seqLen][nClasses]`. */
  datatype Targets = Targets(anchor: seq<real>, regression: seq<real>, classes: seq<seq<real>>)

  /** The frame grid of one clip: frame count, frames per second, class count. */
  datatype Grid = Grid(seqLen: int, annoSr: int, nClasses: int)

  /** `seq_len = ceil(len / scale)`. */
  function SeqLen(audioLen: nat, scale: int): int
    requires scale > 0
  {
    Ceil(audioLen as real / scale as real)
  }

  /** `anno_sr = sr // scale`; Dafny's `/` on `int` is floor division when the divisor is positive. */
  function AnnoSr(sr: int, scale: int): int
    requires scale > 0
  {
    sr / scale
  }

  /** `seqLen` frames of `scale` samples cover the audio with less than one frame to spare; `annoSr` frames of `scale` fit in one second of `sr` samples. */
  lemma GridBounds(audioLen: nat, sr: int, scale: int)
    requires scale > 0
    ensures SeqLen(audioLen, scale) >= 0
    ensures (SeqLen(audioLen, scale) - 1) * scale < audioLen <= SeqLen(audioLen, scale) * scale
    ensures AnnoSr(sr, scale) * scale <= sr < (AnnoSr(sr, scale) + 1) * scale
  {
    SeqLenBounds(audioLen, scale);
  }

  lemma SeqLenBounds(audioLen: nat, scale: int)
    requires scale > 0
    ensures (SeqLen(audioLen, scale) - 1) * scale < audioLen <= SeqLen(audioLen, scale) * scale
  {
    var q := (audioLen + scale - 1) / scale;
    IntCeilBounds(audioLen, scale);
    CastProduct(q - 1, scale);
    CastProduct(q, scale);
    QuotientBetween(audioLen as real, scale as real, q as real - 1.0, q as real);
    CeilOf(audioLen as real / scale as real, q);
  }

  /** `(a + b - 1) / b` is the integer ceiling of `a / b`. */
  lemma IntCeilBounds(a: nat, b: int)
    requires b > 0
    ensures ((a + b - 1) / b - 1) * b < a <= (a + b - 1) / b * b
  {
    var q := (a + b - 1) / b;
    var m := (a + b - 1) % b;
    assert q * b + m == a + b - 1 && 0 <= m < b;
    assert (q - 1) * b == q * b - b;
  }

  /** Bounds on a product carry over to the quotient. */
  lemma QuotientBetween(a: real, b: real, lo: real, hi: real)
    requires b > 0.0 && lo * b < a <= hi * b
    ensures lo < a / b <= hi
  {
    var x := a / b;
    assert x * b == a;
    assert lo * b < x * b;
    assert x * b <= hi * b;
  }

  /** A real strictly above `q - 1` and at most `q` has ceiling `q`. */
  lemma CeilOf(x: real, q: int)
    requires q as real - 1.0 < x <= q as real
    ensures Ceil(x) == q
  {
  }

  lemma CastProduct(a: int, b: int)
    ensures (a * b) as real == a as real * b as real
  {
  }

  function MakeGrid(audioLen: nat, sr: int, scale: int, nClasses: int): Grid
    requires scale > 0
  {
    Grid(SeqLen(audioLen, scale), AnnoSr(sr, scale), nClasses)
  }

  /** `start_idx`: the interval's start frame, clamped into `[0, seqLen - 1]`. */
  function StartFrame(start: real, annoSr: int, seqLen: int): (f: int)
    // every write index is inside the arrays whenever they are not empty
    ensures seqLen > 0 ==> 0 <= f < seqLen
    ensures seqLen <= 0 ==> f == 0
    ensures 0 <= Floor(start * annoSr as real) < seqLen ==> f == Floor(start * annoSr as real)
    ensures seqLen > 0 && Floor(start * annoSr as real) >= seqLen ==> f == seqLen - 1
    ensures Floor(start * annoSr as real) < 0 ==> f == 0
  {
    var idx := Floor(start * annoSr as real);
    var clamped := if idx < seqLen - 1 then idx else seqLen - 1;
    if clamped < 0 then 0 else clamped
  }

  function Frame(g: Grid, iv: Interval): int {
    StartFrame(iv.begin, g.annoSr, g.seqLen)
  }

  /** `dur_samples = ceil(dur * anno_sr)`: the interval's length in frames. */
  function DurSamples(g: Grid, iv: Interval): int {
    Ceil((iv.end - iv.begin) * g.annoSr as real)
  }

  function Dur(iv: Interval): real {
    iv.end - iv.begin
  }

  /** The anchor row `get_anchor_anno` produces for one interval. */
  function BumpRow(g: Grid, bump: (int, int, int) -> seq<real>, iv: Interval): seq<real> {
    bump(Frame(g, iv), DurSamples(g, iv), g.seqLen)
  }

  /**
    What the Gaussian bump guarantees: `seqLen` values, and for a positive
    duration values in `[0, 1]` with a peak of 1 at the start frame. A duration
    of zero makes the width zero, and the start frame's value is `0/0`.
   */
  ghost predicate ValidBump(bump: (int, int, int) -> seq<real>, seqLen: int) {
    forall s, d :: 0 <= s < seqLen ==>
      && |bump(s, d, seqLen)| == seqLen
      && (d > 0 ==> (forall j :: 0 <= j < seqLen ==> 0.0 <= bump(s, d, seqLen)[j] <= 1.0) && bump(s, d, seqLen)[s] == 1.0)
  }

  /** No interval among the first `upto` after `k` starts at the same frame as interval `k`. */
  ghost predicate LastAtFrame(g: Grid, ivs: seq<Interval>, k: int, upto: int)
    requires 0 <= k < upto <= |ivs|
  {
    forall k' :: k < k' < upto ==> Frame(g, ivs[k']) != Frame(g, ivs[k])
  }

  /**
    Regression target after the first `upto` intervals: zero on frames no
    interval starts at, otherwise the duration of the last interval starting there.
   */
  ghost predicate RegressionSpec(g: Grid, ivs: seq<Interval>, reg: seq<real>, upto: int)
    requires 0 <= upto <= |ivs|
  {
    forall j :: 0 <= j < |reg| ==>
      && ((forall k :: 0 <= k < upto ==> Frame(g, ivs[k]) != j) ==> reg[j] == 0.0)
      && (forall k :: 0 <= k < upto && Frame(g, ivs[k]) == j && LastAtFrame(g, ivs, k, upto) ==> reg[j] == Dur(ivs[k]))
  }

  /** An interval writes cell `c` of its row: an unknown one writes every cell, a known one only its own class. */
  predicate Writes(iv: Interval, c: int) {
    iv.cls == Unknown || iv.cls == c
  }

  /** The value an interval writes into a cell of its row. */
  function CellValue(iv: Interval, nClasses: int): real
    requires nClasses > 0
  {
    if iv.cls == Unknown then 1.0 / nClasses as real else 1.0
  }

  /** No interval among the first `upto` after `k` writes cell `c` of the row interval `k` writes. */
  ghost predicate LastWriter(g: Grid, ivs: seq<Interval>, k: int, c: int, upto: int)
    requires 0 <= k < upto <= |ivs|
  {
    forall k' :: k < k' < upto ==> !(Frame(g, ivs[k']) == Frame(g, ivs[k]) && Writes(ivs[k'], c))
  }

  /**
    Class target after the first `upto` intervals: each cell is zero unless some
    interval starting at that frame writes it, and then holds what the last such
    interval wrote (1 for its own class, `1/nClasses` for an unknown one).
   */
  ghost predicate ClassSpec(g: Grid, ivs: seq<Interval>, cls: seq<seq<real>>, upto: int)
    requires 0 <= upto <= |ivs|
    requires forall j :: 0 <= j < |cls| ==> |cls[j]| == g.nClasses
  {
    forall j, c :: 0 <= j < |cls| && 0 <= c < g.nClasses ==>
      && ((forall k :: 0 <= k < upto && Frame(g, ivs[k]) == j ==> !Writes(ivs[k], c)) ==> cls[j][c] == 0.0)
      && (forall k :: 0 <= k < upto && Frame(g, ivs[k]) == j && Writes(ivs[k], c) && LastWriter(g, ivs, k, c, upto) ==>
            cls[j][c] == CellValue(ivs[k], g.nClasses))
  }

  /** Every bump row of the first `upto` intervals has `seqLen` values. */
  ghost predicate BumpsFit(g: Grid, bump: (int, int, int) -> seq<real>, ivs: seq<Interval>, upto: int)
    requires 0 <= upto <= |ivs|
  {
    forall k :: 0 <= k < upto ==> |BumpRow(g, bump, ivs[k])| == g.seqLen
  }

  /**
    The exception `get_annotation` raises, if any: the first interval's write
    into empty arrays, then `1./n_classes` with no classes, and only after the
    loop the stacking of a bump row of the wrong length.
   */
  ghost function AnnotationError(g: Grid, bump: (int, int, int) -> seq<real>, ivs: seq<Interval>): Option<Error> {
    if |ivs| > 0 && g.seqLen <= 0 then Some(IndexOutOfRange)
    else if |ivs| > 0 && g.nClasses == 0 then Some(DivisionByZero)
    else if !BumpsFit(g, bump, ivs, |ivs|) then Some(ShapeMismatch)
    else None
  }

  /** The anchor is the elementwise maximum of a zero row and the bump rows of the first `upto` intervals. */
  ghost predicate AnchorSpec(g: Grid, bump: (int, int, int) -> seq<real>, ivs: seq<Interval>, anchor: seq<real>, upto: int)
    requires 0 <= upto <= |ivs|
    requires |anchor| == g.seqLen && BumpsFit(g, bump, ivs, upto)
  {
    forall j :: 0 <= j < |anchor| ==>
      && 0.0 <= anchor[j]
      && (forall k :: 0 <= k < upto ==> BumpRow(g, bump, ivs[k])[j] <= anchor[j])
      && (anchor[j] == 0.0 || exists k :: 0 <= k < upto && BumpRow(g, bump, ivs[k])[j] == anchor[j])
  }

  function Zeros(n: int): (z: seq<real>)
    ensures |z| == (if n < 0 then 0 else n)
    ensures forall j :: 0 <= j < |z| ==> z[j] == 0.0
  {
    if n <= 0 then [] else Zeros(n - 1) + [0.0]
  }

  function ElementwiseMax(a: seq<real>, b: seq<real>): (m: seq<real>)
    requires |a| == |b|
    ensures |m| == |a|
    ensures forall j :: 0 <= j < |m| ==> m[j] == Max(a[j], b[j])
  {
    seq(|a|, j requires 0 <= j < |a| => Max(a[j], b[j]))
  }

  lemma RegressionStep(g: Grid, ivs: seq<Interval>, reg: seq<real>, i: int)
    requires 0 <= i < |ivs| && |reg| == g.seqLen > 0
    requires RegressionSpec(g, ivs, reg, i)
    ensures RegressionSpec(g, ivs, reg[Frame(g, ivs[i]) := Dur(ivs[i])], i + 1)
  {
    var f := Frame(g, ivs[i]);
    var reg' := reg[f := Dur(ivs[i])];
    forall j | 0 <= j < |reg'|
      ensures (forall k :: 0 <= k < i + 1 ==> Frame(g, ivs[k]) != j) ==> reg'[j] == 0.0
      ensures forall k :: 0 <= k < i + 1 && Frame(g, ivs[k]) == j && LastAtFrame(g, ivs, k, i + 1) ==> reg'[j] == Dur(ivs[k])
    {
      if j != f {
        forall k | 0 <= k < i + 1 && Frame(g, ivs[k]) == j && LastAtFrame(g, ivs, k, i + 1)
          ensures reg'[j] == Dur(ivs[k])
        {
          assert k < i;
          assert LastAtFrame(g, ivs, k, i);
        }
      } else {
        forall k | 0 <= k < i && Frame(g, ivs[k]) == j
          ensures !LastAtFrame(g, ivs, k, i + 1)
        {
          assert Frame(g, ivs[i]) == Frame(g, ivs[k]);
        }
      }
    }
  }

  /** The row after interval `i` writes: one cell for a known class, the uniform row for an unknown one. */
  function WriteRow(row: seq<real>, iv: Interval, nClasses: int): (row': seq<real>)
    requires |row| == nClasses > 0 && Unknown <= iv.cls < nClasses
    ensures |row'| == nClasses
    ensures forall c :: 0 <= c < nClasses ==> row'[c] == if Writes(iv, c) then CellValue(iv, nClasses) else row[c]
  {
    if iv.cls != Unknown then row[iv.cls := 1.0]
    else seq(nClasses, c => 1.0 / nClasses as real)
  }

  lemma ClassStep(g: Grid, ivs: seq<Interval>, cls: seq<seq<real>>, i: int)
    requires 0 <= i < |ivs| && |cls| == g.seqLen > 0 && g.nClasses > 0
    requires Unknown <= ivs[i].cls < g.nClasses
    requires forall j :: 0 <= j < |cls| ==> |cls[j]| == g.nClasses
    requires ClassSpec(g, ivs, cls, i)
    ensures var f := Frame(g, ivs[i]);
      var cls' := cls[f := WriteRow(cls[f], ivs[i], g.nClasses)];
      (forall j :: 0 <= j < |cls'| ==> |cls'[j]| == g.nClasses) && ClassSpec(g, ivs, cls', i + 1)
  {
    var f := Frame(g, ivs[i]);
    var cls' := cls[f := WriteRow(cls[f], ivs[i], g.nClasses)];
    forall j, c | 0 <= j < |cls'| && 0 <= c < g.nClasses
      ensures (forall k :: 0 <= k < i + 1 && Frame(g, ivs[k]) == j ==> !Writes(ivs[k], c)) ==> cls'[j][c] == 0.0
      ensures forall k :: 0 <= k < i + 1 && Frame(g, ivs[k]) == j && Writes(ivs[k], c) && LastWriter(g, ivs, k, c, i + 1) ==>
            cls'[j][c] == CellValue(ivs[k], g.nClasses)
    {
      if j == f && Writes(ivs[i], c) {
        forall k | 0 <= k < i && Frame(g, ivs[k]) == j
          ensures !LastWriter(g, ivs, k, c, i + 1)
        {
          assert Frame(g, ivs[i]) == Frame(g, ivs[k]) && Writes(ivs[i], c);
        }
      } else {
        assert cls'[j][c] == cls[j][c];
        forall k | 0 <= k < i + 1 && Frame(g, ivs[k]) == j && Writes(ivs[k], c) && LastWriter(g, ivs, k, c, i + 1)
          ensures cls'[j][c] == CellValue(ivs[k], g.nClasses)
        {
          assert k < i;
          assert LastWriter(g, ivs, k, c, i);
        }
      }
    }
  }

  lemma AnchorStep(g: Grid, bump: (int, int, int) -> seq<real>, ivs: seq<Interval>, anchor: seq<real>, i: int)
    requires 0 <= i < |ivs| && |anchor| == g.seqLen
    requires BumpsFit(g, bump, ivs, i) && |BumpRow(g, bump, ivs[i])| == g.seqLen
    requires AnchorSpec(g, bump, ivs, anchor, i)
    ensures BumpsFit(g, bump, ivs, i + 1)
    ensures AnchorSpec(g, bump, ivs, ElementwiseMax(anchor, BumpRow(g, bump, ivs[i])), i + 1)
  {
    var row := BumpRow(g, bump, ivs[i]);
    var anchor' := ElementwiseMax(anchor, row);
    forall j | 0 <= j < |anchor'|
      ensures anchor'[j] == 0.0 || exists k :: 0 <= k < i + 1 && BumpRow(g, bump, ivs[k])[j] == anchor'[j]
    {
      if anchor'[j] == row[j] {
        assert BumpRow(g, bump, ivs[i])[j] == anchor'[j];
      } else if anchor[j] != 0.0 {
        var k :| 0 <= k < i && BumpRow(g, bump, ivs[k])[j] == anchor[j];
      }
    }
  }

  /**
    `get_annotation`. Intervals are written in order, so a later interval's
    write to a frame replaces an earlier one's. The method fails where the
    source raises: writing into zero-length arrays, dividing by a class count of
    zero, or stacking a bump row of the wrong length.
   */
  method GetAnnotation(ivs: seq<Interval>, audioLen: nat, sr: int, scale: int, nClasses: nat,
                       bump: (int, int, int) -> seq<real>)
    returns (r: Result<Targets>)
    requires scale > 0
    requires forall k :: 0 <= k < |ivs| ==> Unknown <= ivs[k].cls < nClasses
    // it fails exactly where the source raises, with the source's exception
    ensures r.Err? <==> AnnotationError(MakeGrid(audioLen, sr, scale, nClasses), bump, ivs).Some?
    ensures r.Err? ==> r.error == AnnotationError(MakeGrid(audioLen, sr, scale, nClasses), bump, ivs).value
    // with no intervals every target is zero
    ensures |ivs| == 0 ==> (r.Ok?
      && (forall j :: 0 <= j < |r.value.anchor| ==> r.value.anchor[j] == 0.0)
      && (forall j :: 0 <= j < |r.value.regression| ==> r.value.regression[j] == 0.0)
      && (forall j, c :: 0 <= j < |r.value.classes| && 0 <= c < |r.value.classes[j]| ==> r.value.classes[j][c] == 0.0))
    ensures r.Ok? ==> var g := MakeGrid(audioLen, sr, scale, nClasses);
      && |r.value.anchor| == g.seqLen && |r.value.regression| == g.seqLen && |r.value.classes| == g.seqLen
      && (forall j :: 0 <= j < g.seqLen ==> |r.value.classes[j]| == nClasses)
      && BumpsFit(g, bump, ivs, |ivs|)
      && RegressionSpec(g, ivs, r.value.regression, |ivs|)
      && ClassSpec(g, ivs, r.value.classes, |ivs|)
      && AnchorSpec(g, bump, ivs, r.value.anchor, |ivs|)
  {
    var g := MakeGrid(audioLen, sr, scale, nClasses);
    var seqLen := g.seqLen;
    var reg := Zeros(seqLen);
    var cls := seq(|Zeros(seqLen)|, j => Zeros(nClasses));
    var anchor := Zeros(seqLen);
    var shapeOk := true;
    var i := 0;
    while i < |ivs|
      invariant 0 <= i <= |ivs|
      invariant i > 0 ==> seqLen > 0 && nClasses > 0
      invariant |reg| == |anchor| == |cls| == (if seqLen < 0 then 0 else seqLen)
      invariant forall j :: 0 <= j < |cls| ==> |cls[j]| == nClasses
      invariant RegressionSpec(g, ivs, reg, i)
      invariant ClassSpec(g, ivs, cls, i)
      invariant shapeOk <==> BumpsFit(g, bump, ivs, i)
      invariant shapeOk ==> AnchorSpec(g, bump, ivs, anchor, i)
    {
      var iv := ivs[i];
      var f := StartFrame(iv.begin, g.annoSr, seqLen);
      var row := bump(f, DurSamples(g, iv), seqLen);
      if shapeOk && |row| == seqLen {
        AnchorStep(g, bump, ivs, anchor, i);
        anchor := ElementwiseMax(anchor, row);
      } else {
        shapeOk := false;
      }
      if seqLen <= 0 {
        return Err(IndexOutOfRange);
      }
      RegressionStep(g, ivs, reg, i);
      reg := reg[f := Dur(iv)];
      if nClasses == 0 {
        return Err(DivisionByZero);
      }
      ClassStep(g, ivs, cls, i);
      cls := cls[f := WriteRow(cls[f], iv, nClasses)];
      i := i + 1;
    }
    if !shapeOk {
      return Err(ShapeMismatch);
    }
    return Ok(Targets(anchor, reg, cls));
  }

  /** An interval of positive length spans at least one frame when the frame rate is positive. */
  lemma PositiveDuration(g: Grid, iv: Interval)
    requires iv.begin < iv.end && g.annoSr > 0
    ensures DurSamples(g, iv) > 0
  {
    assert (iv.end - iv.begin) * g.annoSr as real > 0.0;
  }

  /**
    At a positive frame rate every interval of positive length has a positive
    duration in frames, so with the Gaussian bump's guarantees the anchor stays
    in `[0, 1]` and is exactly 1 at the start frame of every interval.
   */
  lemma AnchorPeak(g: Grid, bump: (int, int, int) -> seq<real>, ivs: seq<Interval>, anchor: seq<real>)
    requires g.annoSr > 0 && forall k :: 0 <= k < |ivs| ==> ivs[k].begin < ivs[k].end
    requires |anchor| == g.seqLen && BumpsFit(g, bump, ivs, |ivs|)
    requires AnchorSpec(g, bump, ivs, anchor, |ivs|)
    requires ValidBump(bump, g.seqLen)
    ensures forall j :: 0 <= j < |anchor| ==> 0.0 <= anchor[j] <= 1.0
    ensures forall k :: 0 <= k < |ivs| && g.seqLen > 0 ==> anchor[Frame(g, ivs[k])] == 1.0
  {
    forall j | 0 <= j < |anchor|
      ensures anchor[j] <= 1.0
    {
      if anchor[j] != 0.0 {
        var k :| 0 <= k < |ivs| && BumpRow(g, bump, ivs[k])[j] == anchor[j];
        PositiveDuration(g, ivs[k]);
        assert 0 <= Frame(g, ivs[k]) < g.seqLen;
      }
    }
    forall k | 0 <= k < |ivs| && g.seqLen > 0
      ensures anchor[Frame(g, ivs[k])] == 1.0
    {
      var f := Frame(g, ivs[k]);
      PositiveDuration(g, ivs[k]);
      assert BumpRow(g, bump, ivs[k])[f] == 1.0;
    }
  }

  /**
    Two intervals starting at the same frame, one unknown and one of class 2,
    among four classes: the row is the later writer's only where the later
    writer writes. Unknown after class 2 leaves the uniform row; class 2 after
    unknown sets one cell to 1 and keeps the uniform values elsewhere.
   */
  lemma CollidingClassWrites(g: Grid, a: Interval, b: Interval, cls: seq<seq<real>>)
    requires g.nClasses == 4 && g.seqLen > 0 && Frame(g, a) == Frame(g, b)
    requires |cls| == g.seqLen && forall j :: 0 <= j < |cls| ==> |cls[j]| == 4
    requires (a.cls == Unknown && b.cls == 2) || (a.cls == 2 && b.cls == Unknown)
    requires ClassSpec(g, [a, b], cls, 2)
    ensures b.cls == Unknown ==> cls[Frame(g, a)] == [0.25, 0.25, 0.25, 0.25]
    ensures b.cls == 2 ==> cls[Frame(g, a)] == [0.25, 0.25, 1.0, 0.25]
  {
    var f := Frame(g, a);
    var ivs := [a, b];
    assert ivs[1] == b && ivs[0] == a;
    forall c | 0 <= c < 4
      ensures cls[f][c] == if b.cls == 2 && c == 2 then 1.0 else 0.25
    {
      if Writes(b, c) {
        assert LastWriter(g, ivs, 1, c, 2);
      } else {
        assert LastWriter(g, ivs, 0, c, 2);
      }
    }
  }
}
