/**
  The per-recording interval store: turning the rows of a selection table into
  stored intervals (`process_selection_table`), the half-open overlap query the
  store answers (`tree[start:end]`), and the clipped, window-relative intervals
  handed to the target encoder (`get_pos_intervals`).

  The interval tree is a sequence without duplicates: the tree is a set of
  `(begin, end, data)` triples, so adding an identical triple again changes
  nothing. The tree returns query results as an unordered set; the model keeps
  insertion order.
 */
module SelectionTable {
  import opened Common

  /** One row of a selection table: `Begin Time (s)`, `End Time (s)`, `Annotation`. */
  datatype Row = Row(begin: real, end: real, annotation: string)

  /** A stored annotation; `cls` is an index into the label set, or `Unknown`. */
  datatype Interval = Interval(begin: real, end: real, cls: int)

  /** The class index of an annotation whose label maps to the unknown label. */
  const Unknown: int := -1

  /** The label part of the dataset arguments. `unknownLabel` is `None` when the arguments have none. */
  datatype LabelConfig = LabelConfig(
    labelSet: seq<string>,
    labelMapping: map<string, string>,
    unknownLabel: Option<string>)

  /** Python's `list.index`: the first position of `x`, or `None` where the list raises. */
  function IndexOf(s: seq<string>, x: string): (r: Option<nat>)
    ensures r.Some? <==> x in s
    ensures r.Some? ==> r.value < |s| && s[r.value] == x
    ensures r.Some? ==> forall j :: 0 <= j < r.value ==> s[j] != x
  {
    if |s| == 0 then None
    else if s[0] == x then Some(0)
    else match IndexOf(s[1..], x)
      case None => None
      case Some(i) => Some(i + 1)
  }

  /**
    What `process_selection_table` does with one row: `Ok(None)` when the row
    is skipped, `Ok(Some(c))` when it is stored with class `c`, and `Err` when
    looking the mapped label up in the label set raises.
   */
  function Classify(cfg: LabelConfig, begin: real, end: real, annotation: string): (r: Result<Option<int>>)
    // a row is stored exactly when it has positive length, its label is mapped, and the lookup succeeds
    ensures r.Ok? && r.value.Some? <==>
      end > begin && annotation in cfg.labelMapping
      && (cfg.unknownLabel == Some(cfg.labelMapping[annotation]) || cfg.labelMapping[annotation] in cfg.labelSet)
    // the lookup fails exactly for a mapped label that is neither unknown nor in the label set
    ensures r.Err? <==>
      end > begin && annotation in cfg.labelMapping
      && cfg.unknownLabel != Some(cfg.labelMapping[annotation]) && cfg.labelMapping[annotation] !in cfg.labelSet
    ensures r.Err? ==> r.error == LabelNotInSet(cfg.labelMapping[annotation])
    // a stored row is unknown exactly when its mapped annotation is the unknown annotation
    ensures r == Ok(Some(Unknown)) <==>
      end > begin && annotation in cfg.labelMapping && cfg.unknownLabel == Some(cfg.labelMapping[annotation])
    // otherwise its class is the first position of the mapped annotation in the annotation set
    ensures r.Ok? && r.value.Some? && r.value.value != Unknown ==>
      0 <= r.value.value < |cfg.labelSet|
      && cfg.labelSet[r.value.value] == cfg.labelMapping[annotation]
      && forall j :: 0 <= j < r.value.value ==> cfg.labelSet[j] != cfg.labelMapping[annotation]
  {
    if end <= begin then Ok(None)
    else if annotation !in cfg.labelMapping then Ok(None)
    else
      var mapped := cfg.labelMapping[annotation];
      if cfg.unknownLabel == Some(mapped) then Ok(Some(Unknown))
      else match IndexOf(cfg.labelSet, mapped)
        case None => Err(LabelNotInSet(mapped))
        case Some(i) => Ok(Some(i))
  }

  /** Every stored interval has positive length and a class that indexes the annotation set or is unknown. */
  predicate WellFormedTree(tree: seq<Interval>, nClasses: int) {
    forall k :: 0 <= k < |tree| ==> tree[k].begin < tree[k].end && Unknown <= tree[k].cls < nClasses
  }

  /** The row at `i` is stored as `iv`. */
  predicate StoredFrom(cfg: LabelConfig, rows: seq<Row>, i: int, iv: Interval)
    requires 0 <= i < |rows|
  {
    && Classify(cfg, rows[i].begin, rows[i].end, rows[i].annotation) == Ok(Some(iv.cls))
    && rows[i].begin == iv.begin && rows[i].end == iv.end
  }

  /**
    `process_selection_table`: rows are handled in order; the first row whose
    mapped annotation is missing from the annotation set aborts the whole table.
   */
  function ProcessSelectionTable(cfg: LabelConfig, rows: seq<Row>): (r: Result<seq<Interval>>)
    decreases |rows|
    ensures r.Ok? <==> forall i :: 0 <= i < |rows| ==> RowClass(cfg, rows, i).Ok?
    // the error reported is the one of the first failing row
    ensures r.Err? ==> exists i :: FirstFailure(cfg, rows, i, r.error)
    // the tree holds exactly the intervals made from the rows that are kept
    ensures r.Ok? ==> forall iv :: iv in r.value <==> exists i :: 0 <= i < |rows| && StoredFrom(cfg, rows, i, iv)
    ensures r.Ok? ==> NoDuplicates(r.value)
    ensures r.Ok? ==> WellFormedTree(r.value, |cfg.labelSet|)
  {
    if |rows| == 0 then Ok([])
    else
      var init := rows[..|rows| - 1];
      var row := rows[|rows| - 1];
      assert forall i :: 0 <= i < |init| ==> init[i] == rows[i];
      SameRowsBefore(cfg, rows, init);
      match ProcessSelectionTable(cfg, init)
      case Err(e) =>
        FailureCarries(cfg, rows, init, e);
        Err(e)
      case Ok(tree) =>
        match Classify(cfg, row.begin, row.end, row.annotation)
        case Err(e) =>
          LastRowFails(cfg, rows, init, e);
          Err(e)
        case Ok(c) =>
          LastRowStored(cfg, rows, init, row, tree, c);
          StoreWellFormed(tree, row, c, |cfg.labelSet|);
          Ok(Store(tree, row, c))
  }

  /** Classifying row `i` of the table. */
  function RowClass(cfg: LabelConfig, rows: seq<Row>, i: int): Result<Option<int>>
    requires 0 <= i < |rows|
  {
    Classify(cfg, rows[i].begin, rows[i].end, rows[i].annotation)
  }

  /** Row `i` is the first row of the table that fails, with error `e`. */
  predicate FirstFailure(cfg: LabelConfig, rows: seq<Row>, i: int, e: Error) {
    && 0 <= i < |rows|
    && (forall j :: 0 <= j < i ==> RowClass(cfg, rows, j).Ok?)
    && RowClass(cfg, rows, i) == Err(e)
  }

  /** The rows before the last classify as they do in the whole table. */
  lemma SameRowsBefore(cfg: LabelConfig, rows: seq<Row>, init: seq<Row>)
    requires |rows| > 0 && init == rows[..|rows| - 1]
    ensures forall i :: 0 <= i < |init| ==> RowClass(cfg, init, i) == RowClass(cfg, rows, i)
  {
    forall i | 0 <= i < |init|
      ensures RowClass(cfg, init, i) == RowClass(cfg, rows, i)
    {
      assert init[i] == rows[i];
    }
  }

  /** A first failure among the rows before the last is a first failure of the whole table. */
  lemma FailureCarries(cfg: LabelConfig, rows: seq<Row>, init: seq<Row>, e: Error)
    requires |rows| > 0 && init == rows[..|rows| - 1]
    requires exists i :: FirstFailure(cfg, init, i, e)
    ensures exists i :: FirstFailure(cfg, rows, i, e)
  {
    var i :| FirstFailure(cfg, init, i, e);
    SameRowsBefore(cfg, rows, init);
    assert FirstFailure(cfg, rows, i, e);
  }

  /** When every row before the last is fine, a failing last row is the first failure. */
  lemma LastRowFails(cfg: LabelConfig, rows: seq<Row>, init: seq<Row>, e: Error)
    requires |rows| > 0 && init == rows[..|rows| - 1]
    requires forall i :: 0 <= i < |init| ==> RowClass(cfg, init, i).Ok?
    requires RowClass(cfg, rows, |rows| - 1) == Err(e)
    ensures exists i :: FirstFailure(cfg, rows, i, e)
  {
    SameRowsBefore(cfg, rows, init);
    assert FirstFailure(cfg, rows, |rows| - 1, e);
  }

  /** Storing a well-formed row keeps the tree without duplicates and well formed. */
  lemma StoreWellFormed(tree: seq<Interval>, row: Row, c: Option<int>, nClasses: int)
    requires NoDuplicates(tree) && WellFormedTree(tree, nClasses)
    requires c.Some? ==> row.begin < row.end && Unknown <= c.value < nClasses
    ensures NoDuplicates(Store(tree, row, c)) && WellFormedTree(Store(tree, row, c), nClasses)
  {
  }

  /** Handling the last row adds exactly what that row stores to the tree built from the rows before it. */
  lemma LastRowStored(cfg: LabelConfig, rows: seq<Row>, init: seq<Row>, row: Row, tree: seq<Interval>, c: Option<int>)
    requires |rows| > 0 && init == rows[..|rows| - 1] && row == rows[|rows| - 1]
    requires Classify(cfg, row.begin, row.end, row.annotation) == Ok(c)
    requires forall iv :: iv in tree <==> exists i :: 0 <= i < |init| && StoredFrom(cfg, init, i, iv)
    ensures forall iv :: iv in Store(tree, row, c) <==> exists i :: 0 <= i < |rows| && StoredFrom(cfg, rows, i, iv)
  {
    var last := |rows| - 1;
    forall iv
      ensures iv in Store(tree, row, c) <==> exists i :: 0 <= i < |rows| && StoredFrom(cfg, rows, i, iv)
    {
      if iv in tree {
        var i :| 0 <= i < |init| && StoredFrom(cfg, init, i, iv);
        assert StoredFrom(cfg, rows, i, iv);
      }
      if c.Some? && iv == Interval(rows[last].begin, rows[last].end, c.value) {
        assert StoredFrom(cfg, rows, last, iv);
      }
      if exists i :: 0 <= i < |rows| && StoredFrom(cfg, rows, i, iv) {
        var i :| 0 <= i < |rows| && StoredFrom(cfg, rows, i, iv);
        if i < last {
          assert StoredFrom(cfg, init, i, iv);
        }
      }
    }
  }

  /** The tree after a row classified as `c`: unchanged when the row is skipped. */
  function Store(tree: seq<Interval>, row: Row, c: Option<int>): seq<Interval> {
    match c
    case None => tree
    case Some(cls) => AddUnique(tree, Interval(row.begin, row.end, cls))
  }

  /** The overlap test of the tree's slice query: the interval meets the half-open window `[qStart, qEnd)`. */
  predicate Overlaps(iv: Interval, qStart: real, qEnd: real) {
    iv.begin < qEnd && iv.end > qStart
  }

  /** `tree[qStart:qEnd]`: the stored intervals meeting the window; an empty or reversed window meets nothing. */
  function Query(tree: seq<Interval>, qStart: real, qEnd: real): (r: seq<Interval>)
    ensures forall iv :: iv in r <==> iv in tree && qStart < qEnd && Overlaps(iv, qStart, qEnd)
    ensures |r| <= |tree|
    ensures NoDuplicates(tree) ==> NoDuplicates(r)
  {
    if qStart >= qEnd then [] else Filter(tree, qStart, qEnd)
  }

  function Filter(tree: seq<Interval>, qStart: real, qEnd: real): (r: seq<Interval>)
    ensures forall iv :: iv in r <==> iv in tree && Overlaps(iv, qStart, qEnd)
    ensures |r| <= |tree|
    ensures NoDuplicates(tree) ==> NoDuplicates(r)
  {
    if |tree| == 0 then []
    else
      var rest := Filter(tree[1..], qStart, qEnd);
      assert NoDuplicates(tree) ==> tree[0] !in tree[1..];
      if Overlaps(tree[0], qStart, qEnd) then [tree[0]] + rest else rest
  }

  /** An interval clipped to the window `[start, end)` and re-based to the window origin. */
  function Rebase(iv: Interval, start: real, end: real): Interval {
    Interval(Max(iv.begin, start) - start, Min(iv.end, end) - start, iv.cls)
  }

  /** `get_pos_intervals`: the overlapping intervals, clipped and expressed relative to the window start. */
  function GetPosIntervals(tree: seq<Interval>, start: real, end: real): (r: seq<Interval>)
    // exactly the clipped images of the stored intervals meeting the window
    ensures forall iv' :: iv' in r <==>
      exists iv :: iv in tree && start < end && Overlaps(iv, start, end) && iv' == Rebase(iv, start, end)
    // every result lies inside the window, has positive length, and keeps a class of the store
    ensures (forall iv :: iv in tree ==> iv.begin < iv.end) ==>
      forall k :: 0 <= k < |r| ==> 0.0 <= r[k].begin < r[k].end <= end - start
    ensures forall k :: 0 <= k < |r| ==> exists iv :: iv in tree && iv.cls == r[k].cls
    ensures |r| <= |tree|
    // one entry per stored interval meeting the window, in the query's order, even when two clip to the same value
    ensures |r| == |Query(tree, start, end)|
    ensures forall k :: 0 <= k < |r| ==> r[k] == Rebase(Query(tree, start, end)[k], start, end)
  {
    var hits := Query(tree, start, end);
    var r := RebaseAll(hits, start, end);
    assert forall k :: 0 <= k < |r| ==> hits[k] in tree && Overlaps(hits[k], start, end);
    r
  }

  function RebaseAll(hits: seq<Interval>, start: real, end: real): (r: seq<Interval>)
    ensures |r| == |hits|
    ensures forall k :: 0 <= k < |r| ==> r[k] == Rebase(hits[k], start, end)
    ensures forall iv' :: iv' in r <==> exists iv :: iv in hits && iv' == Rebase(iv, start, end)
  {
    if |hits| == 0 then []
    else [Rebase(hits[0], start, end)] + RebaseAll(hits[1..], start, end)
  }

  /** The store invariant survives the query: clipped intervals are well formed for the same class count. */
  lemma PosIntervalsWellFormed(tree: seq<Interval>, nClasses: int, start: real, end: real)
    requires WellFormedTree(tree, nClasses)
    ensures WellFormedTree(GetPosIntervals(tree, start, end), nClasses)
  {
    var r := GetPosIntervals(tree, start, end);
    var hits := Query(tree, start, end);
    forall k | 0 <= k < |r|
      ensures r[k].begin < r[k].end && Unknown <= r[k].cls < nClasses
    {
      assert hits[k] in hits;
      assert hits[k] in tree && Overlaps(hits[k], start, end);
      var i :| 0 <= i < |tree| && tree[i] == hits[k];
    }
  }

  /** An interval lying wholly inside the window comes back with its offsets from the window start unchanged. */
  lemma ContainedIntervalUnclipped(iv: Interval, start: real, end: real)
    requires start <= iv.begin < iv.end <= end
    ensures Overlaps(iv, start, end)
    ensures Rebase(iv, start, end) == Interval(iv.begin - start, iv.end - start, iv.cls)
  {
  }
}
