/**
  The detector-box variant of the dataset: selection-table rows that also carry
  a frequency band, the same overlap query and clipping with the band passed
  through, and the conversion of clipped intervals to index boxes on a time
  grid and a frequency grid.

  The variant's table builder hands five values to the interval tree's
  `addi(begin, end, data=None)`, which takes three; it is modelled twice: as
  written (`ProcessBoxTableAsWritten`, every stored row raises) and as evidently
  intended (`ProcessBoxTable`, the band and the class stored with the interval).
  The variant's query reads `bottom` and `top` attributes that the tree's
  intervals do not have; it too is modelled as written
  (`GetBoxPosIntervalsAsWritten`) and as intended (`GetBoxPosIntervals`).
 */
module Boxes {
  import opened Common
  import opened SelectionTable

  /** A selection-table row with its band: `Low Freq (Hz)` and `High Freq (Hz)`. */
  datatype BoxRow = BoxRow(begin: real, end: real, low: real, high: real, annotation: string)

  /** A stored annotation with its band; `cls` is an index into the label set, or `Unknown`. */
  datatype BoxInterval = BoxInterval(begin: real, end: real, low: real, high: real, cls: int)

  /** A detector box `(tstart, fstart, tstop, fstop)` of grid indices. */
  datatype Box = Box(tStart: nat, fStart: nat, tStop: nat, fStop: nat)

  function TimeRow(row: BoxRow): Row {
    Row(row.begin, row.end, row.annotation)
  }

  /** The rows with their bands dropped: what the base dataset reads from the same table. */
  function TimeRows(rows: seq<BoxRow>): (r: seq<Row>)
    ensures |r| == |rows|
    ensures forall i :: 0 <= i < |rows| ==> r[i] == TimeRow(rows[i])
  {
    seq(|rows|, i requires 0 <= i < |rows| => TimeRow(rows[i]))
  }

  /** A box interval with its band dropped. */
  function Strip(b: BoxInterval): Interval {
    Interval(b.begin, b.end, b.cls)
  }

  function StripAll(tree: seq<BoxInterval>): (r: seq<Interval>)
    ensures |r| == |tree|
    ensures forall k :: 0 <= k < |tree| ==> r[k] == Strip(tree[k])
  {
    seq(|tree|, k requires 0 <= k < |tree| => Strip(tree[k]))
  }

  function ClassifyRow(cfg: LabelConfig, row: BoxRow): Result<Option<int>> {
    Classify(cfg, row.begin, row.end, row.annotation)
  }

  // ---------------------------------------------------------------------
  // The table builder as written

  /**
    The table builder as written: filtering is the base dataset's, but the
    first row that survives it raises on the five-argument `addi` call, so the
    only tables that load are those in which every row is dropped.
   */
  function ProcessBoxTableAsWritten(cfg: LabelConfig, rows: seq<BoxRow>): (r: Result<seq<BoxInterval>>)
    decreases |rows|
    ensures r.Ok? <==> forall i :: 0 <= i < |rows| ==> ClassifyRow(cfg, rows[i]) == Ok(None)
    ensures r.Ok? ==> r.value == []
    // the failure comes from the first row that is not dropped
    ensures r.Err? ==> exists i :: (0 <= i < |rows|
      && (forall j :: 0 <= j < i ==> ClassifyRow(cfg, rows[j]) == Ok(None))
      && (ClassifyRow(cfg, rows[i]) == Err(r.error)
          || (ClassifyRow(cfg, rows[i]).Ok? && ClassifyRow(cfg, rows[i]).value.Some? && r.error == BadArgumentCount)))
  {
    if |rows| == 0 then Ok([])
    else
      var init := rows[..|rows| - 1];
      var row := rows[|rows| - 1];
      assert forall i :: 0 <= i < |init| ==> init[i] == rows[i];
      match ProcessBoxTableAsWritten(cfg, init)
      case Err(e) => Err(e)
      case Ok(tree) =>
        match ClassifyRow(cfg, row)
        case Err(e) => Err(e)
        case Ok(None) => Ok(tree)
        case Ok(Some(_)) => Err(BadArgumentCount)
  }

  // ---------------------------------------------------------------------
  // The table builder as intended

  /** Every stored box interval has positive length and a class that indexes the label set or is unknown. */
  predicate WellFormedBoxTree(tree: seq<BoxInterval>, nClasses: int) {
    forall k :: 0 <= k < |tree| ==> tree[k].begin < tree[k].end && Unknown <= tree[k].cls < nClasses
  }

  /** The row at `i` is stored as `b`. */
  predicate StoredBoxFrom(cfg: LabelConfig, rows: seq<BoxRow>, i: int, b: BoxInterval)
    requires 0 <= i < |rows|
  {
    && ClassifyRow(cfg, rows[i]) == Ok(Some(b.cls))
    && rows[i].begin == b.begin && rows[i].end == b.end && rows[i].low == b.low && rows[i].high == b.high
  }

  /** The tree after a row classified as `c`: unchanged when the row is dropped. */
  function StoreBox(tree: seq<BoxInterval>, row: BoxRow, c: Option<int>): seq<BoxInterval> {
    match c
    case None => tree
    case Some(cls) => AddUnique(tree, BoxInterval(row.begin, row.end, row.low, row.high, cls))
  }

  /** The table builder with the band and the class stored alongside the interval. */
  function ProcessBoxTable(cfg: LabelConfig, rows: seq<BoxRow>): (r: Result<seq<BoxInterval>>)
    decreases |rows|
    ensures r.Ok? <==> forall i :: 0 <= i < |rows| ==> ClassifyRow(cfg, rows[i]).Ok?
    ensures r.Err? ==> exists i :: (0 <= i < |rows|
      && (forall j :: 0 <= j < i ==> ClassifyRow(cfg, rows[j]).Ok?)
      && ClassifyRow(cfg, rows[i]) == Err(r.error))
    ensures r.Ok? ==> forall b :: b in r.value <==> exists i :: 0 <= i < |rows| && StoredBoxFrom(cfg, rows, i, b)
    ensures r.Ok? ==> NoDuplicates(r.value)
    ensures r.Ok? ==> WellFormedBoxTree(r.value, |cfg.labelSet|)
  {
    if |rows| == 0 then Ok([])
    else
      var init := rows[..|rows| - 1];
      var row := rows[|rows| - 1];
      assert forall i :: 0 <= i < |init| ==> init[i] == rows[i];
      match ProcessBoxTable(cfg, init)
      case Err(e) => Err(e)
      case Ok(tree) =>
        match ClassifyRow(cfg, row)
        case Err(e) => Err(e)
        case Ok(c) =>
          LastBoxRowStored(cfg, rows, init, row, tree, c);
          Ok(StoreBox(tree, row, c))
  }

  /** Handling the last row adds exactly what that row stores to the tree built from the rows before it. */
  lemma LastBoxRowStored(cfg: LabelConfig, rows: seq<BoxRow>, init: seq<BoxRow>, row: BoxRow,
                         tree: seq<BoxInterval>, c: Option<int>)
    requires |rows| > 0 && init == rows[..|rows| - 1] && row == rows[|rows| - 1]
    requires ClassifyRow(cfg, row) == Ok(c)
    requires forall b :: b in tree <==> exists i :: 0 <= i < |init| && StoredBoxFrom(cfg, init, i, b)
    ensures forall b :: b in StoreBox(tree, row, c) <==> exists i :: 0 <= i < |rows| && StoredBoxFrom(cfg, rows, i, b)
  {
    var last := |rows| - 1;
    forall b
      ensures b in StoreBox(tree, row, c) <==> exists i :: 0 <= i < |rows| && StoredBoxFrom(cfg, rows, i, b)
    {
      if b in tree {
        var i :| 0 <= i < |init| && StoredBoxFrom(cfg, init, i, b);
        assert StoredBoxFrom(cfg, rows, i, b);
      }
      if c.Some? && b == BoxInterval(row.begin, row.end, row.low, row.high, c.value) {
        assert StoredBoxFrom(cfg, rows, last, b);
      }
      if exists i :: 0 <= i < |rows| && StoredBoxFrom(cfg, rows, i, b) {
        var i :| 0 <= i < |rows| && StoredBoxFrom(cfg, rows, i, b);
        if i < last {
          assert StoredBoxFrom(cfg, init, i, b);
        }
      }
    }
  }

  /**
    The intended builder filters exactly as the base dataset does: it fails on
    the same tables, and with the bands dropped it stores the same intervals.
   */
  lemma BoxTableMatchesBase(cfg: LabelConfig, rows: seq<BoxRow>)
    ensures ProcessBoxTable(cfg, rows).Ok? <==> ProcessSelectionTable(cfg, TimeRows(rows)).Ok?
    ensures ProcessBoxTable(cfg, rows).Ok? ==> forall iv ::
      iv in ProcessSelectionTable(cfg, TimeRows(rows)).value <==>
      exists b :: b in ProcessBoxTable(cfg, rows).value && Strip(b) == iv
  {
    var rs := TimeRows(rows);
    assert forall i :: 0 <= i < |rows| ==> RowClass(cfg, rs, i) == ClassifyRow(cfg, rows[i]);
    if ProcessBoxTable(cfg, rows).Ok? {
      var boxes := ProcessBoxTable(cfg, rows).value;
      var base := ProcessSelectionTable(cfg, rs).value;
      forall iv
        ensures iv in base <==> exists b :: b in boxes && Strip(b) == iv
      {
        if iv in base {
          var i :| 0 <= i < |rs| && StoredFrom(cfg, rs, i, iv);
          var b := BoxInterval(iv.begin, iv.end, rows[i].low, rows[i].high, iv.cls);
          assert StoredBoxFrom(cfg, rows, i, b);
          assert b in boxes && Strip(b) == iv;
        }
        if exists b :: b in boxes && Strip(b) == iv {
          var b :| b in boxes && Strip(b) == iv;
          var i :| 0 <= i < |rows| && StoredBoxFrom(cfg, rows, i, b);
          assert StoredFrom(cfg, rs, i, iv);
        }
      }
    }
  }

  /** The as-written builder loads a table exactly when the intended one finds nothing to store in it. */
  lemma AsWrittenLoadsOnlyEmptyTables(cfg: LabelConfig, rows: seq<BoxRow>)
    ensures ProcessBoxTableAsWritten(cfg, rows).Ok? <==> ProcessBoxTable(cfg, rows) == Ok([])
  {
    var r := ProcessBoxTable(cfg, rows);
    if r.Ok? && r.value != [] {
      assert r.value[0] in r.value;
      var i :| 0 <= i < |rows| && StoredBoxFrom(cfg, rows, i, r.value[0]);
      assert ClassifyRow(cfg, rows[i]) != Ok(None);
    }
    if ProcessBoxTableAsWritten(cfg, rows).Ok? {
      forall b
        ensures b !in r.value
      {
        forall i | 0 <= i < |rows|
          ensures !StoredBoxFrom(cfg, rows, i, b)
        {
          assert ClassifyRow(cfg, rows[i]) == Ok(None);
        }
      }
      HeadIsMember(r.value);
    }
  }

  /** The first element of a non-empty sequence is a member of it. */
  lemma HeadIsMember<T>(s: seq<T>)
    ensures |s| > 0 ==> s[0] in s
  {
  }

  /** One call annotation in a one-class table: the intended builder stores it, the builder as written raises. */
  lemma AsWrittenRejectsOneCall()
    ensures ProcessBoxTableAsWritten(LabelConfig(["call"], map["call" := "call"], None),
                                     [BoxRow(0.0, 1.0, 100.0, 200.0, "call")]) == Err(BadArgumentCount)
    ensures ProcessBoxTable(LabelConfig(["call"], map["call" := "call"], None),
                            [BoxRow(0.0, 1.0, 100.0, 200.0, "call")]) == Ok([BoxInterval(0.0, 1.0, 100.0, 200.0, 0)])
  {
    var cfg := LabelConfig(["call"], map["call" := "call"], None);
    var rows := [BoxRow(0.0, 1.0, 100.0, 200.0, "call")];
    assert IndexOf(cfg.labelSet, "call") == Some(0);
    assert ClassifyRow(cfg, rows[0]) == Ok(Some(0));
    assert rows[..0] == [];
    assert ProcessBoxTable(cfg, rows[..0]) == Ok([]);
    assert ProcessBoxTableAsWritten(cfg, rows[..0]) == Ok([]);
    var b := BoxInterval(0.0, 1.0, 100.0, 200.0, 0);
    assert StoreBox([], rows[0], Some(0)) == [b];
    assert ProcessBoxTable(cfg, rows) == Ok(StoreBox([], rows[0], Some(0)));
  }

  // ---------------------------------------------------------------------
  // The overlap query with bands

  /** `tree[start:end]` over box intervals: the time bounds decide, as in the base store. */
  function BoxQuery(tree: seq<BoxInterval>, qStart: real, qEnd: real): (r: seq<BoxInterval>)
    ensures forall b :: b in r <==> b in tree && qStart < qEnd && Overlaps(Strip(b), qStart, qEnd)
    ensures |r| <= |tree|
  {
    if qStart >= qEnd then [] else BoxFilter(tree, qStart, qEnd)
  }

  function BoxFilter(tree: seq<BoxInterval>, qStart: real, qEnd: real): (r: seq<BoxInterval>)
    ensures forall b :: b in r <==> b in tree && Overlaps(Strip(b), qStart, qEnd)
    ensures |r| <= |tree|
  {
    if |tree| == 0 then []
    else
      var rest := BoxFilter(tree[1..], qStart, qEnd);
      if Overlaps(Strip(tree[0]), qStart, qEnd) then [tree[0]] + rest else rest
  }

  /** A box interval with its time bounds clipped to the window and re-based to its origin; the band is kept. */
  function RebaseBox(b: BoxInterval, start: real, end: real): (r: BoxInterval)
    ensures Strip(r) == Rebase(Strip(b), start, end)
    ensures r.low == b.low && r.high == b.high && r.cls == b.cls
  {
    BoxInterval(Max(b.begin, start) - start, Min(b.end, end) - start, b.low, b.high, b.cls)
  }

  function RebaseBoxes(hits: seq<BoxInterval>, start: real, end: real): (r: seq<BoxInterval>)
    ensures |r| == |hits|
    ensures forall k :: 0 <= k < |r| ==> r[k] == RebaseBox(hits[k], start, end)
    ensures forall b :: b in hits ==> RebaseBox(b, start, end) in r
  {
    if |hits| == 0 then []
    else [RebaseBox(hits[0], start, end)] + RebaseBoxes(hits[1..], start, end)
  }

  /** The variant's `get_pos_intervals`: `(begin', end', bottom, top, class)` for every box interval meeting the window. */
  function GetBoxPosIntervals(tree: seq<BoxInterval>, start: real, end: real): (r: seq<BoxInterval>)
    ensures |r| <= |tree|
    // each result is a stored interval meeting the window, clipped, with its band and class unchanged
    ensures forall k :: 0 <= k < |r| ==>
      exists b :: b in tree && start < end && Overlaps(Strip(b), start, end) && r[k] == RebaseBox(b, start, end)
    // and every stored interval meeting the window is there, with its band
    ensures forall b :: b in tree && start < end && Overlaps(Strip(b), start, end) ==> RebaseBox(b, start, end) in r
    // one result per hit of the query, in the query's order
    ensures |r| == |BoxQuery(tree, start, end)|
    ensures forall k :: 0 <= k < |r| ==> r[k] == RebaseBox(BoxQuery(tree, start, end)[k], start, end)
    // clipped intervals lie inside the window and keep a positive length
    ensures (forall b :: b in tree ==> b.begin < b.end) ==>
      forall k :: 0 <= k < |r| ==> 0.0 <= r[k].begin < r[k].end <= end - start
  {
    var hits := BoxQuery(tree, start, end);
    HitsMeetWindow(tree, start, end, hits);
    RebaseBoxes(hits, start, end)
  }

  /** Each hit of the query is a stored interval meeting the window, so its clipped image lies inside the window. */
  lemma HitsMeetWindow(tree: seq<BoxInterval>, start: real, end: real, hits: seq<BoxInterval>)
    requires hits == BoxQuery(tree, start, end)
    ensures forall k :: 0 <= k < |hits| ==> hits[k] in tree && start < end && Overlaps(Strip(hits[k]), start, end)
    ensures (forall b :: b in tree ==> b.begin < b.end) ==>
      forall k :: 0 <= k < |hits| ==>
        0.0 <= RebaseBox(hits[k], start, end).begin < RebaseBox(hits[k], start, end).end <= end - start
  {
    forall k | 0 <= k < |hits|
      ensures hits[k] in tree && start < end && Overlaps(Strip(hits[k]), start, end)
    {
      assert hits[k] in hits;
    }
  }

  /**
    The variant's `get_pos_intervals` as written reads `iv.bottom` and `iv.top`,
    but an interval of the tree only has `begin`, `end` and `data`. So even on a
    tree that stores the band in `data`, every window that meets a stored
    interval raises, and only windows meeting nothing go through.
   */
  function GetBoxPosIntervalsAsWritten(tree: seq<BoxInterval>, start: real, end: real): (r: Result<seq<BoxInterval>>)
    ensures r.Err? <==> exists b :: b in tree && start < end && Overlaps(Strip(b), start, end)
    ensures r.Err? ==> r.error == MissingAttribute
    ensures r.Ok? ==> r.value == [] && r.value == GetBoxPosIntervals(tree, start, end)
  {
    var hits := BoxQuery(tree, start, end);
    assert hits != [] ==> hits[0] in hits;
    if hits == [] then Ok([]) else Err(MissingAttribute)
  }

  /** A window over the one call annotation the intended builder stores: the intended query returns it, the query as written raises. */
  lemma AsWrittenQueryRaises()
    ensures GetBoxPosIntervalsAsWritten([BoxInterval(0.0, 1.0, 100.0, 200.0, 0)], 0.0, 4.0) == Err(MissingAttribute)
    ensures GetBoxPosIntervals([BoxInterval(0.0, 1.0, 100.0, 200.0, 0)], 0.0, 4.0) == [BoxInterval(0.0, 1.0, 100.0, 200.0, 0)]
  {
    var tree := [BoxInterval(0.0, 1.0, 100.0, 200.0, 0)];
    assert tree[0] in tree;
    assert BoxQuery(tree, 0.0, 4.0) == tree;
  }

  lemma StripAllCons(b: BoxInterval, rest: seq<BoxInterval>)
    ensures StripAll([b] + rest) == [Strip(b)] + StripAll(rest)
  {
    var lhs := StripAll([b] + rest);
    var rhs := [Strip(b)] + StripAll(rest);
    assert |lhs| == |rhs|;
    forall k | 0 <= k < |lhs|
      ensures lhs[k] == rhs[k]
    {
      if k > 0 {
        assert ([b] + rest)[k] == rest[k - 1];
      }
    }
  }

  /** Dropping the bands commutes with filtering. */
  lemma {:induction false} StripFilter(tree: seq<BoxInterval>, qStart: real, qEnd: real)
    ensures StripAll(BoxFilter(tree, qStart, qEnd)) == Filter(StripAll(tree), qStart, qEnd)
  {
    if |tree| > 0 {
      var stripped := StripAll(tree);
      var rest := BoxFilter(tree[1..], qStart, qEnd);
      StripFilter(tree[1..], qStart, qEnd);
      assert stripped[0] == Strip(tree[0]);
      assert stripped[1..] == StripAll(tree[1..]);
      StripAllCons(tree[0], rest);
    }
  }

  /** Dropping the bands commutes with clipping. */
  lemma StripRebase(hits: seq<BoxInterval>, start: real, end: real)
    ensures StripAll(RebaseBoxes(hits, start, end)) == RebaseAll(StripAll(hits), start, end)
  {
    var lhs := StripAll(RebaseBoxes(hits, start, end));
    var rhs := RebaseAll(StripAll(hits), start, end);
    assert |lhs| == |rhs|;
    forall k | 0 <= k < |lhs|
      ensures lhs[k] == rhs[k]
    {
    }
  }

  /** The variant's query clips the time bounds exactly as the base dataset's does, position by position. */
  lemma BoxPosMatchesBase(tree: seq<BoxInterval>, start: real, end: real)
    ensures StripAll(GetBoxPosIntervals(tree, start, end)) == GetPosIntervals(StripAll(tree), start, end)
  {
    if start < end {
      StripFilter(tree, start, end);
      StripRebase(BoxQuery(tree, start, end), start, end);
    } else {
      StripRebase([], start, end);
    }
  }

  // ---------------------------------------------------------------------
  // Index boxes

  /** `i` is where `np.argmin(np.abs(x - grid))` lands: a closest grid point, and the first of the closest. */
  predicate IsFirstNearest(x: real, grid: seq<real>, i: int) {
    && 0 <= i < |grid|
    && (forall k :: 0 <= k < |grid| ==> Abs(x - grid[i]) <= Abs(x - grid[k]))
    && (forall k :: 0 <= k < i ==> Abs(x - grid[i]) < Abs(x - grid[k]))
  }

  /** `np.argmin(np.abs(x - grid))` on a non-empty grid. */
  function NearestIndex(x: real, grid: seq<real>): (i: nat)
    requires |grid| > 0
    ensures IsFirstNearest(x, grid, i)
  {
    if |grid| == 1 then 0
    else
      var init := grid[..|grid| - 1];
      var j := NearestIndex(x, init);
      assert forall k :: 0 <= k < |init| ==> init[k] == grid[k];
      if Abs(x - grid[|grid| - 1]) < Abs(x - grid[j]) then |grid| - 1 else j
  }

  /** The first nearest index is unique, so the recursion computes the only answer `argmin` can give. */
  lemma FirstNearestUnique(x: real, grid: seq<real>, i: int, j: int)
    requires IsFirstNearest(x, grid, i) && IsFirstNearest(x, grid, j)
    ensures i == j
  {
    assert Abs(x - grid[i]) == Abs(x - grid[j]);
  }

  predicate StrictlyIncreasing(grid: seq<real>) {
    forall a, b :: 0 <= a < b < |grid| ==> grid[a] < grid[b]
  }

  /** The spectrogram time grid `arange(n) * hop_length`, in samples. */
  function TimeGrid(n: nat, hopLength: int): (t: seq<real>)
    ensures |t| == n
    ensures forall i :: 0 <= i < n ==> t[i] == (i * hopLength) as real
    ensures hopLength > 0 ==> StrictlyIncreasing(t)
  {
    var t := seq(n, i requires 0 <= i < n => (i * hopLength) as real);
    assert hopLength > 0 ==> forall a, b :: 0 <= a < b < n ==> a * hopLength < b * hopLength by {
      if hopLength > 0 {
        forall a, b | 0 <= a < b < n
          ensures a * hopLength < b * hopLength
        {
          MulStrict(a as real, b as real, hopLength as real);
        }
      }
    }
    t
  }

  /** If a first nearest point of `y` comes before one of `x` on an increasing grid, then `y` is below `x`. */
  lemma NearestOrder(x: real, y: real, grid: seq<real>, i: int, j: int)
    requires StrictlyIncreasing(grid)
    requires IsFirstNearest(x, grid, i) && IsFirstNearest(y, grid, j)
    ensures j < i ==> y < x
  {
    if j < i {
      var a, b := grid[j], grid[i];
      assert a < b;
      assert Abs(x - b) < Abs(x - a);
      assert Abs(y - a) <= Abs(y - b);
    }
  }

  /** On an increasing grid the nearest index is monotone in the value. */
  lemma NearestMonotone(x: real, y: real, grid: seq<real>)
    requires |grid| > 0 && StrictlyIncreasing(grid) && x <= y
    ensures NearestIndex(x, grid) <= NearestIndex(y, grid)
  {
    NearestOrder(x, y, grid, NearestIndex(x, grid), NearestIndex(y, grid));
  }

  /**
    `convert_intervals_to_boxes`: one box per clipped interval, in order, each
    bound replaced by the index of its nearest grid point, time bounds on the
    time grid and band edges on the frequency grid. `argmin` over an empty grid raises.
    The time grid is in samples while the interval bounds are in seconds, so a
    time bound maps to index 0 unless it exceeds half a hop length in seconds.
   */
  function ConvertIntervalsToBoxes(ivs: seq<BoxInterval>, nFrames: nat, hopLength: int, f: seq<real>): (r: Result<seq<Box>>)
    ensures r.Err? <==> |ivs| > 0 && (nFrames == 0 || |f| == 0)
    ensures r.Err? ==> r.error == EmptyArgmin
    ensures r.Ok? ==> |r.value| == |ivs|
    ensures r.Ok? ==> forall k :: 0 <= k < |ivs| ==>
      && IsFirstNearest(ivs[k].begin, TimeGrid(nFrames, hopLength), r.value[k].tStart)
      && IsFirstNearest(ivs[k].low, f, r.value[k].fStart)
      && IsFirstNearest(ivs[k].end, TimeGrid(nFrames, hopLength), r.value[k].tStop)
      && IsFirstNearest(ivs[k].high, f, r.value[k].fStop)
  {
    if |ivs| == 0 then Ok([])
    else if nFrames == 0 || |f| == 0 then Err(EmptyArgmin)
    else
      var t := TimeGrid(nFrames, hopLength);
      Ok(seq(|ivs|, k requires 0 <= k < |ivs| =>
        Box(NearestIndex(ivs[k].begin, t), NearestIndex(ivs[k].low, f), NearestIndex(ivs[k].end, t), NearestIndex(ivs[k].high, f))))
  }

  /** With a positive hop, a box never starts after it stops in time, since clipped intervals have `begin < end`. */
  lemma BoxesOrderedInTime(ivs: seq<BoxInterval>, nFrames: nat, hopLength: int, f: seq<real>)
    requires hopLength > 0
    requires forall k :: 0 <= k < |ivs| ==> ivs[k].begin <= ivs[k].end
    requires ConvertIntervalsToBoxes(ivs, nFrames, hopLength, f).Ok?
    ensures forall k :: 0 <= k < |ivs| ==>
      ConvertIntervalsToBoxes(ivs, nFrames, hopLength, f).value[k].tStart
      <= ConvertIntervalsToBoxes(ivs, nFrames, hopLength, f).value[k].tStop
  {
    var boxes := ConvertIntervalsToBoxes(ivs, nFrames, hopLength, f).value;
    var t := TimeGrid(nFrames, hopLength);
    forall k | 0 <= k < |ivs|
      ensures boxes[k].tStart <= boxes[k].tStop
    {
      NearestOrder(ivs[k].begin, ivs[k].end, t, boxes[k].tStart, boxes[k].tStop);
    }
  }

  /** The same holds for the band edges whenever the frequency grid increases and the band is not inverted. */
  lemma BoxesOrderedInFrequency(ivs: seq<BoxInterval>, nFrames: nat, hopLength: int, f: seq<real>)
    requires StrictlyIncreasing(f)
    requires forall k :: 0 <= k < |ivs| ==> ivs[k].low <= ivs[k].high
    requires ConvertIntervalsToBoxes(ivs, nFrames, hopLength, f).Ok?
    ensures forall k :: 0 <= k < |ivs| ==>
      ConvertIntervalsToBoxes(ivs, nFrames, hopLength, f).value[k].fStart
      <= ConvertIntervalsToBoxes(ivs, nFrames, hopLength, f).value[k].fStop
  {
    var boxes := ConvertIntervalsToBoxes(ivs, nFrames, hopLength, f).value;
    forall k | 0 <= k < |ivs|
      ensures boxes[k].fStart <= boxes[k].fStop
    {
      NearestOrder(ivs[k].low, ivs[k].high, f, boxes[k].fStart, boxes[k].fStop);
    }
  }
}
