/**
  `DetectionDataset`: construction (the argument checks, the clip start
  offset, `make_metadata` over the whole corpus), class proportions over all
  stored intervals, and the orchestration of one sample fetch (`__getitem__`)
  once the audio has been decoded.

  Audio decoding, durations and resampling are inputs: each `Recording`
  carries its duration and selection-table rows, and a fetch receives the
  decoded clip. The generator is an explicit `offsetDraw` (the value of
  `rng.integers(0, floor(hop*sr))`) and a stream of uniform `draws`.
 */
module Dataset {
  import opened Common
  import opened SelectionTable
  import opened ClipPlanner
  import opened Annotation
  import opened Waveform

  /** One manifest row, with its recording's duration and selection-table rows already read. */
  datatype Recording = Recording(fn: string, audioPath: string, duration: real, rows: seq<Row>)

  /** The dataset arguments the dataset reads. */
  datatype Args = Args(
    sr: int,
    clipDuration: real,
    clipHop: real,
    labels: LabelConfig,
    ampAug: bool,
    ampAugLowR: real,
    ampAugHighR: real,
    omitEmptyClipProb: real,
    scaleFactor: int,
    predictionScaleFactor: int)

  /** `selection_table_dict`: a dictionary keyed by `fn`, as an insertion-ordered list of entries. */
  type Tables = seq<(string, seq<Interval>)>

  function Lookup(tables: Tables, fn: string): Option<seq<Interval>> {
    if |tables| == 0 then None
    else if tables[0].0 == fn then Some(tables[0].1)
    else Lookup(tables[1..], fn)
  }

  /** `selection_table_dict[fn] = tree`: a new key is appended, an existing one keeps its place and takes the new tree. */
  function Put(tables: Tables, fn: string, tree: seq<Interval>): (r: Tables)
    ensures Lookup(r, fn) == Some(tree)
    ensures forall other :: other != fn ==> Lookup(r, other) == Lookup(tables, other)
    ensures forall k :: 0 <= k < |r| ==> r[k].1 == tree || r[k] in tables
  {
    if |tables| == 0 then [(fn, tree)]
    else if tables[0].0 == fn then [(fn, tree)] + tables[1..]
    else [tables[0]] + Put(tables[1..], fn, tree)
  }

  /** A dictionary holds each key at most once. */
  predicate KeysUnique(tables: Tables) {
    forall k, k' :: 0 <= k < k' < |tables| ==> tables[k].0 != tables[k'].0
  }

  /** In a dictionary without repeated keys, `Put` keeps the keys distinct, and every entry is the new one or an untouched entry under another key. */
  lemma {:induction false} PutKeepsKeysUnique(tables: Tables, fn: string, tree: seq<Interval>)
    requires KeysUnique(tables)
    ensures KeysUnique(Put(tables, fn, tree))
    ensures forall k :: 0 <= k < |Put(tables, fn, tree)| ==>
      Put(tables, fn, tree)[k] == (fn, tree) || (Put(tables, fn, tree)[k] in tables && Put(tables, fn, tree)[k].0 != fn)
  {
    var r := Put(tables, fn, tree);
    if |tables| > 0 {
      if tables[0].0 == fn {
        assert r == [(fn, tree)] + tables[1..];
        forall k | 0 < k < |r|
          ensures r[k] in tables && r[k].0 != fn
        {
          assert r[k] == tables[k];
        }
      } else {
        var rest := Put(tables[1..], fn, tree);
        PutKeepsKeysUnique(tables[1..], fn, tree);
        assert r == [tables[0]] + rest;
        forall k | 0 < k < |r|
          ensures r[k].0 != tables[0].0
          ensures r[k] == (fn, tree) || (r[k] in tables && r[k].0 != fn)
        {
          assert r[k] == rest[k - 1];
          if rest[k - 1] != (fn, tree) {
            var m :| 0 <= m < |tables[1..]| && tables[1..][m] == rest[k - 1];
            assert tables[m + 1] == rest[k - 1];
          }
        }
      }
    }
  }

  /** Every stored tree is well formed for the label set. */
  ghost predicate TablesWellFormed(tables: Tables, nClasses: int) {
    forall k :: 0 <= k < |tables| ==> WellFormedTree(tables[k].1, nClasses)
  }

  datatype DetectionDataset = DetectionDataset(
    tables: Tables,
    metadata: seq<Window>,
    clipStartOffset: real,
    omitEmptyClipProb: real)

  /** Clip windows over a whole corpus with a fixed offset and no omission. */
  function TotalClips(info: seq<Recording>, clipDuration: real, offset: real, hop: real): nat
    requires hop != 0.0
  {
    if |info| == 0 then 0
    else
      TotalClips(info[..|info| - 1], clipDuration, offset, hop)
      + NumClips(info[|info| - 1].duration, clipDuration, offset, hop)
  }

  /** The argument checks of the constructor, in order; `None` when they all pass. */
  function CheckArgs(args: Args): Option<Error> {
    if !IsInteger(args.clipHop * args.sr as real) then Some(NonIntegerHop)
    else if args.ampAug && args.ampAugLowR < 0.0 then Some(NegativeAmpLow)
    else if args.ampAug && args.ampAugLowR > args.ampAugHighR then Some(InvertedAmpRange)
    else None
  }

  /** `floor(clip_hop * sr)`: the exclusive upper bound of the training offset draw, in samples. */
  function HopSamples(args: Args): int {
    Floor(args.clipHop * args.sr as real)
  }

  /** The last recording with this name is the one whose tree the dictionary keeps. */
  predicate LastWithName(info: seq<Recording>, i: int)
    requires 0 <= i < |info|
  {
    forall j :: i < j < |info| ==> info[j].fn != info[i].fn
  }

  /**
    The stored trees are well formed and keyed once each; every window names a
    recording of the corpus whose tree is stored, holds one clip duration, and
    is one of that recording's windows shifted by the dataset's start offset.
   */
  ghost predicate Consistent(ds: DetectionDataset, info: seq<Recording>, args: Args) {
    && TablesWellFormed(ds.tables, |args.labels.labelSet|)
    && KeysUnique(ds.tables)
    && (forall w :: w in ds.metadata ==>
      && w.end == w.start + args.clipDuration
      && Lookup(ds.tables, w.fn).Some?
      && exists i :: 0 <= i < |info| && info[i].fn == w.fn && info[i].audioPath == w.audioPath)
    && (args.clipHop != 0.0 ==> forall w :: w in ds.metadata ==>
      exists i, tt: nat :: 0 <= i < |info| && tt < NumClips(info[i].duration, args.clipDuration, ds.clipStartOffset, args.clipHop)
        && w == WindowAt(info[i].fn, info[i].audioPath, tt, Clipping(args.clipDuration, args.clipHop, ds.clipStartOffset, ds.omitEmptyClipProb)))
  }

  /** The selection table and the windows of one recording, and the generator position after them. */
  datatype Step = Step(tree: seq<Interval>, windows: seq<Window>, next: nat)

  /** One iteration of the constructor's loop: the recording's selection table, then its windows. */
  method LoadRecording(labels: LabelConfig, rec: Recording, cl: Clipping, draws: nat -> real, pos: nat)
    returns (r: Result<Step>)
    ensures r.Err? <==> ProcessSelectionTable(labels, rec.rows).Err? || cl.hop == 0.0
    ensures ProcessSelectionTable(labels, rec.rows).Err? ==> r == Err(ProcessSelectionTable(labels, rec.rows).error)
    ensures ProcessSelectionTable(labels, rec.rows).Ok? && cl.hop == 0.0 ==> r == Err(ZeroHop)
    ensures r.Ok? ==> r.value.tree == ProcessSelectionTable(labels, rec.rows).value
    // the windows are the recording's kept windows in increasing `tt`, each read from its own draw
    ensures r.Ok? ==>
      r.value.windows == KeptWindows(r.value.tree, rec.fn, rec.audioPath, NumClips(rec.duration, cl.clipDuration, cl.offset, cl.hop), cl, draws, pos)
    ensures r.Ok? ==> forall w :: w in r.value.windows <==>
      exists tt: nat :: tt < NumClips(rec.duration, cl.clipDuration, cl.offset, cl.hop)
        && Kept(r.value.tree, tt, cl, draws, pos) && w == WindowAt(rec.fn, rec.audioPath, tt, cl)
    ensures r.Ok? && cl.hop > 0.0 ==> forall k, k' :: 0 <= k < k' < |r.value.windows| ==>
      r.value.windows[k].start < r.value.windows[k'].start
    // the generator has moved past one draw per empty window
    ensures r.Ok? ==> r.value.next == pos + EmptyBefore(r.value.tree, NumClips(rec.duration, cl.clipDuration, cl.offset, cl.hop), cl)
    ensures r.Ok? ==> forall w :: w in r.value.windows ==>
      w.end == w.start + cl.clipDuration && w.fn == rec.fn && w.audioPath == rec.audioPath
    ensures r.Ok? && cl.omitEmptyProb <= 0.0 && UnitDraws(draws) ==>
      |r.value.windows| == NumClips(rec.duration, cl.clipDuration, cl.offset, cl.hop)
  {
    var processed := ProcessSelectionTable(labels, rec.rows);
    if processed.Err? {
      return Err(processed.error);
    }
    if cl.hop == 0.0 {
      return Err(ZeroHop);
    }
    var windows, next, kept := PlanRecording(processed.value, rec.fn, rec.audioPath, rec.duration, cl, draws, pos);
    KeptWindowsMembers(processed.value, rec.fn, rec.audioPath, NumClips(rec.duration, cl.clipDuration, cl.offset, cl.hop), cl, draws, pos);
    return Ok(Step(processed.value, windows, next));
  }

  /** The stored trees and the metadata of a whole corpus. */
  datatype Corpus = Corpus(tables: Tables, metadata: seq<Window>)

  /**
    The exception `make_metadata` raises, if any: the manifest is read in
    order, and the first recording whose table fails or whose clip count
    divides by a zero hop decides it, the table coming first.
   */
  function CorpusError(info: seq<Recording>, labels: LabelConfig, hop: real): Option<Error> {
    ErrorFrom(info, labels, hop, 0)
  }

  /** The exception one recording raises: its table's, else the zero hop's in the clip count. */
  function RecordingError(labels: LabelConfig, hop: real, rec: Recording): (e: Option<Error>)
    ensures e.Some? <==> ProcessSelectionTable(labels, rec.rows).Err? || hop == 0.0
  {
    var table := ProcessSelectionTable(labels, rec.rows);
    if table.Err? then Some(table.error)
    else if hop == 0.0 then Some(ZeroHop)
    else None
  }

  /** The exception raised by the recordings from `i` on, when every earlier one went through. */
  function ErrorFrom(info: seq<Recording>, labels: LabelConfig, hop: real, i: nat): Option<Error>
    requires i <= |info|
    decreases |info| - i
  {
    if i == |info| then None
    else if RecordingError(labels, hop, info[i]).Some? then RecordingError(labels, hop, info[i])
    else ErrorFrom(info, labels, hop, i + 1)
  }

  /** The recordings from `i` on fail exactly when one of them fails. */
  lemma {:induction false} ErrorFromSome(info: seq<Recording>, labels: LabelConfig, hop: real, i: nat)
    requires i <= |info|
    ensures ErrorFrom(info, labels, hop, i).Some? <==>
      exists j :: i <= j < |info| && RecordingError(labels, hop, info[j]).Some?
    decreases |info| - i
  {
    if i < |info| && RecordingError(labels, hop, info[i]).None? {
      ErrorFromSome(info, labels, hop, i + 1);
    }
  }

  /** When the recordings from `i` on fail, they fail with the error of the first that does. */
  lemma {:induction false} ErrorFromFirst(info: seq<Recording>, labels: LabelConfig, hop: real, i: nat)
    requires i <= |info| && ErrorFrom(info, labels, hop, i).Some?
    ensures exists j: nat :: FirstFailing(info, labels, hop, i, j) && ErrorFrom(info, labels, hop, i) == RecordingError(labels, hop, info[j])
    decreases |info| - i
  {
    if RecordingError(labels, hop, info[i]).None? {
      ErrorFromFirst(info, labels, hop, i + 1);
      var j: nat :| FirstFailing(info, labels, hop, i + 1, j) && ErrorFrom(info, labels, hop, i + 1) == RecordingError(labels, hop, info[j]);
      assert FirstFailing(info, labels, hop, i, j);
    } else {
      assert FirstFailing(info, labels, hop, i, i);
    }
  }

  /** Recording `j` is the first from `i` on that fails. */
  predicate FirstFailing(info: seq<Recording>, labels: LabelConfig, hop: real, i: nat, j: nat) {
    && i <= j < |info|
    && RecordingError(labels, hop, info[j]).Some?
    && forall j' :: i <= j' < j ==> RecordingError(labels, hop, info[j']).None?
  }

  /** Once the first `i` recordings went through, the corpus error is that of the rest. */
  lemma {:induction false} ErrorSkipsLoaded(info: seq<Recording>, labels: LabelConfig, hop: real, i: nat)
    requires i <= |info| && (i > 0 ==> hop != 0.0)
    requires forall j :: 0 <= j < i ==> ProcessSelectionTable(labels, info[j].rows).Ok?
    ensures CorpusError(info, labels, hop) == ErrorFrom(info, labels, hop, i)
  {
    if i > 0 {
      ErrorSkipsLoaded(info, labels, hop, i - 1);
    }
  }

  /** The constructor's loop over the manifest, sharing one generator across recordings. */
  method LoadCorpus(info: seq<Recording>, labels: LabelConfig, cl: Clipping, draws: nat -> real)
    returns (r: Result<Corpus>)
    ensures r.Err? <==>
      (exists i :: 0 <= i < |info| && ProcessSelectionTable(labels, info[i].rows).Err?)
      || (|info| > 0 && cl.hop == 0.0)
    // and with the error of the first recording that fails
    ensures r.Err? <==> CorpusError(info, labels, cl.hop).Some?
    ensures r.Err? ==> r.error == CorpusError(info, labels, cl.hop).value
    ensures r.Ok? ==> forall i :: 0 <= i < |info| && LastWithName(info, i) ==>
      ProcessSelectionTable(labels, info[i].rows).Ok?
      && Lookup(r.value.tables, info[i].fn) == Some(ProcessSelectionTable(labels, info[i].rows).value)
    // the dictionary holds each name once, with the table of the last recording of that name
    ensures r.Ok? ==> KeysUnique(r.value.tables)
    ensures r.Ok? ==> EntriesFromLast(info, labels, r.value.tables)
    ensures r.Ok? ==> TablesWellFormed(r.value.tables, |labels.labelSet|)
    // the metadata is each recording's kept windows in turn, sharing one generator
    ensures r.Ok? ==> TablesLoad(info, labels, |info|)
    ensures r.Ok? && cl.hop != 0.0 ==> r.value.metadata == CorpusWindows(info, LoadedTrees(info, labels), cl, draws, |info|)
    ensures r.Ok? && cl.hop != 0.0 ==> forall w :: w in r.value.metadata ==>
      exists i, tt: nat :: 0 <= i < |info| && tt < NumClips(info[i].duration, cl.clipDuration, cl.offset, cl.hop)
        && w == WindowAt(info[i].fn, info[i].audioPath, tt, cl)
    ensures r.Ok? ==> forall w :: w in r.value.metadata ==>
      && w.end == w.start + cl.clipDuration
      && Lookup(r.value.tables, w.fn).Some?
      && exists i :: 0 <= i < |info| && info[i].fn == w.fn && info[i].audioPath == w.audioPath
    ensures r.Ok? && cl.omitEmptyProb <= 0.0 && UnitDraws(draws) && cl.hop != 0.0 ==>
      |r.value.metadata| == TotalClips(info, cl.clipDuration, cl.offset, cl.hop)
  {
    var tables: Tables := [];
    var metadata: seq<Window> := [];
    var pos: nat := 0;
    ghost var trees: seq<seq<Interval>> := [];
    var i := 0;
    while i < |info|
      invariant 0 <= i <= |info|
      invariant CorpusSoFar(info, labels, cl, draws, i, trees, tables, metadata, pos)
    {
      var step := LoadRecording(labels, info[i], cl, draws, pos);
      if step.Err? {
        assert ProcessSelectionTable(labels, info[i].rows).Err? || cl.hop == 0.0;
        CorpusFailsAt(info, labels, cl, draws, i, trees, tables, metadata, pos);
        return Err(step.error);
      }
      CorpusStep(info, labels, cl, draws, i, trees, tables, metadata, pos, step.value);
      trees := trees + [step.value.tree];
      tables := Put(tables, info[i].fn, step.value.tree);
      metadata := metadata + step.value.windows;
      pos := step.value.next;
      i := i + 1;
    }
    CorpusDone(info, labels, cl, draws, trees, tables, metadata, pos);
    return Ok(Corpus(tables, metadata));
  }

  /** When recording `i` fails, the corpus error is its error and the corpus does fail. */
  lemma CorpusFailsAt(info: seq<Recording>, labels: LabelConfig, cl: Clipping, draws: nat -> real,
                      i: nat, trees: seq<seq<Interval>>, tables: Tables, metadata: seq<Window>, pos: nat)
    requires i < |info| && CorpusSoFar(info, labels, cl, draws, i, trees, tables, metadata, pos)
    requires ProcessSelectionTable(labels, info[i].rows).Err? || cl.hop == 0.0
    ensures CorpusError(info, labels, cl.hop) == ErrorFrom(info, labels, cl.hop, i)
    ensures ErrorFrom(info, labels, cl.hop, i) == RecordingError(labels, cl.hop, info[i])
  {
    ErrorSkipsLoaded(info, labels, cl.hop, i);
  }

  /** Every entry of the dictionary is the name and table of a recording with no later namesake. */
  predicate EntriesFromLast(info: seq<Recording>, labels: LabelConfig, tables: Tables) {
    forall k :: 0 <= k < |tables| ==> EntryFromLast(info, labels, tables[k])
  }

  /** `e` is the name and processed table of a recording with no later namesake. */
  predicate EntryFromLast(info: seq<Recording>, labels: LabelConfig, e: (string, seq<Interval>)) {
    exists i :: 0 <= i < |info| && LastWithName(info, i)
      && ProcessSelectionTable(labels, info[i].rows).Ok?
      && e == (info[i].fn, ProcessSelectionTable(labels, info[i].rows).value)
  }

  /** Every recording among the first `i` has a selection table that loads. */
  predicate TablesLoad(info: seq<Recording>, labels: LabelConfig, i: int)
    requires 0 <= i <= |info|
  {
    forall j :: 0 <= j < i ==> ProcessSelectionTable(labels, info[j].rows).Ok?
  }

  /** The processed selection table of every recording, when every table loads. */
  function LoadedTrees(info: seq<Recording>, labels: LabelConfig): (trees: seq<seq<Interval>>)
    requires TablesLoad(info, labels, |info|)
    ensures |trees| == |info|
    ensures forall j :: 0 <= j < |info| ==> ProcessSelectionTable(labels, info[j].rows) == Ok(trees[j])
  {
    seq(|info|, j requires 0 <= j < |info| => ProcessSelectionTable(labels, info[j].rows).value)
  }

  /** The generator position after planning the first `i` recordings, whose trees are `trees`: one draw per empty window. */
  function DrawsAfter(info: seq<Recording>, trees: seq<seq<Interval>>, cl: Clipping, i: nat): nat
    requires i <= |info| && i <= |trees| && cl.hop != 0.0
  {
    if i == 0 then 0
    else DrawsAfter(info, trees, cl, i - 1) + EmptyBefore(trees[i - 1], NumClips(info[i - 1].duration, cl.clipDuration, cl.offset, cl.hop), cl)
  }

  /**
    `make_metadata` as a reference: each recording in turn contributes its
    kept windows, reading the draws from where the recordings before it left
    the generator.
   */
  function CorpusWindows(info: seq<Recording>, trees: seq<seq<Interval>>, cl: Clipping, draws: nat -> real, i: nat): seq<Window>
    requires i <= |info| && i <= |trees| && cl.hop != 0.0
  {
    if i == 0 then []
    else
      CorpusWindows(info, trees, cl, draws, i - 1)
      + KeptWindows(trees[i - 1], info[i - 1].fn, info[i - 1].audioPath,
                    NumClips(info[i - 1].duration, cl.clipDuration, cl.offset, cl.hop), cl, draws,
                    DrawsAfter(info, trees, cl, i - 1))
  }

  /** `w` is window `tt` of recording `j`, and that window is kept when judged with the draws left for recording `j`. */
  predicate PlannedAt(info: seq<Recording>, trees: seq<seq<Interval>>, cl: Clipping, draws: nat -> real, j: nat, tt: nat, w: Window) {
    && j < |info| && j < |trees| && cl.hop != 0.0
    && tt < NumClips(info[j].duration, cl.clipDuration, cl.offset, cl.hop)
    && Kept(trees[j], tt, cl, draws, DrawsAfter(info, trees, cl, j))
    && w == WindowAt(info[j].fn, info[j].audioPath, tt, cl)
  }

  /** A window is in the metadata exactly when it is a kept window `tt` of some recording, judged with that recording's draws. */
  lemma CorpusWindowsMembers(info: seq<Recording>, trees: seq<seq<Interval>>, cl: Clipping, draws: nat -> real, i: nat)
    requires i <= |info| && i <= |trees| && cl.hop != 0.0
    ensures forall w :: w in CorpusWindows(info, trees, cl, draws, i) <==>
      exists j: nat, tt: nat :: j < i && PlannedAt(info, trees, cl, draws, j, tt, w)
  {
    forall w | w in CorpusWindows(info, trees, cl, draws, i)
      ensures exists j: nat, tt: nat :: j < i && PlannedAt(info, trees, cl, draws, j, tt, w)
    {
      CorpusWindowIsPlanned(info, trees, cl, draws, i, w);
    }
    forall w, j: nat, tt: nat | j < i && PlannedAt(info, trees, cl, draws, j, tt, w)
      ensures w in CorpusWindows(info, trees, cl, draws, i)
    {
      PlannedIsCorpusWindow(info, trees, cl, draws, i, j, tt, w);
    }
  }

  lemma PlannedIsCorpusWindow(info: seq<Recording>, trees: seq<seq<Interval>>, cl: Clipping, draws: nat -> real,
                              i: nat, j: nat, tt: nat, w: Window)
    requires i <= |info| && i <= |trees| && j < i && PlannedAt(info, trees, cl, draws, j, tt, w)
    ensures w in CorpusWindows(info, trees, cl, draws, i)
  {
    PlannedInOwn(info, trees, cl, draws, j, tt, w);
    PlanMonotone(info, trees, cl, draws, j + 1, i, w);
  }

  lemma {:induction false} CorpusWindowIsPlanned(info: seq<Recording>, trees: seq<seq<Interval>>, cl: Clipping, draws: nat -> real,
                                                 i: nat, w: Window)
    requires i <= |info| && i <= |trees| && cl.hop != 0.0
    requires w in CorpusWindows(info, trees, cl, draws, i)
    ensures exists j: nat, tt: nat :: j < i && PlannedAt(info, trees, cl, draws, j, tt, w)
  {
    var j := i - 1;
    var n := NumClips(info[j].duration, cl.clipDuration, cl.offset, cl.hop);
    var p := DrawsAfter(info, trees, cl, j);
    if w in CorpusWindows(info, trees, cl, draws, j) {
      CorpusWindowIsPlanned(info, trees, cl, draws, j, w);
    } else {
      assert w in KeptWindows(trees[j], info[j].fn, info[j].audioPath, n, cl, draws, p);
      KeptWindowsMembers(trees[j], info[j].fn, info[j].audioPath, n, cl, draws, p);
      var tt: nat :| tt < n && Kept(trees[j], tt, cl, draws, p) && w == WindowAt(info[j].fn, info[j].audioPath, tt, cl);
      assert PlannedAt(info, trees, cl, draws, j, tt, w);
    }
  }

  /** The plan only grows: a window planned for the first `m` recordings is planned for the first `i >= m`. */
  lemma {:induction false} PlanMonotone(info: seq<Recording>, trees: seq<seq<Interval>>, cl: Clipping, draws: nat -> real,
                                        m: nat, i: nat, w: Window)
    requires m <= i <= |info| && i <= |trees| && cl.hop != 0.0
    requires w in CorpusWindows(info, trees, cl, draws, m)
    ensures w in CorpusWindows(info, trees, cl, draws, i)
  {
    if m < i {
      PlanMonotone(info, trees, cl, draws, m, i - 1, w);
      var prev := CorpusWindows(info, trees, cl, draws, i - 1);
      assert CorpusWindows(info, trees, cl, draws, i) == prev + KeptWindows(trees[i - 1], info[i - 1].fn, info[i - 1].audioPath,
        NumClips(info[i - 1].duration, cl.clipDuration, cl.offset, cl.hop), cl, draws, DrawsAfter(info, trees, cl, i - 1));
    }
  }

  /** A kept window of recording `j` is in the plan of the first `j + 1` recordings. */
  lemma PlannedInOwn(info: seq<Recording>, trees: seq<seq<Interval>>, cl: Clipping, draws: nat -> real, j: nat, tt: nat, w: Window)
    requires PlannedAt(info, trees, cl, draws, j, tt, w)
    ensures w in CorpusWindows(info, trees, cl, draws, j + 1)
  {
    var n := NumClips(info[j].duration, cl.clipDuration, cl.offset, cl.hop);
    KeptWindowIn(trees[j], info[j].fn, info[j].audioPath, n, cl, draws, DrawsAfter(info, trees, cl, j), tt);
  }

  /** The plan of the first `i` recordings reads only their trees. */
  lemma {:induction false} PlanReadsPrefix(info: seq<Recording>, trees: seq<seq<Interval>>, more: seq<seq<Interval>>,
                                           cl: Clipping, draws: nat -> real, i: nat)
    requires i <= |info| && i <= |trees| <= |more| && cl.hop != 0.0 && trees == more[..|trees|]
    ensures DrawsAfter(info, more, cl, i) == DrawsAfter(info, trees, cl, i)
    ensures CorpusWindows(info, more, cl, draws, i) == CorpusWindows(info, trees, cl, draws, i)
  {
    if i > 0 {
      PlanReadsPrefix(info, trees, more, cl, draws, i - 1);
      assert more[i - 1] == trees[i - 1];
    }
  }

  /** After the last recording, what the loop has established is what the constructor promises. */
  lemma CorpusDone(info: seq<Recording>, labels: LabelConfig, cl: Clipping, draws: nat -> real,
                   trees: seq<seq<Interval>>, tables: Tables, metadata: seq<Window>, pos: nat)
    requires CorpusSoFar(info, labels, cl, draws, |info|, trees, tables, metadata, pos)
    ensures forall i :: 0 <= i < |info| ==> ProcessSelectionTable(labels, info[i].rows).Ok?
    ensures TablesLoad(info, labels, |info|)
    ensures |info| > 0 ==> cl.hop != 0.0
    ensures CorpusError(info, labels, cl.hop) == None
    ensures forall i :: 0 <= i < |info| && LastWithName(info, i) ==>
      ProcessSelectionTable(labels, info[i].rows).Ok?
      && Lookup(tables, info[i].fn) == Some(ProcessSelectionTable(labels, info[i].rows).value)
    ensures KeysUnique(tables)
    ensures EntriesFromLast(info, labels, tables)
    ensures TablesWellFormed(tables, |labels.labelSet|)
    ensures cl.hop != 0.0 ==> metadata == CorpusWindows(info, LoadedTrees(info, labels), cl, draws, |info|)
    ensures cl.hop != 0.0 ==> forall w :: w in metadata ==>
      exists i, tt: nat :: 0 <= i < |info| && tt < NumClips(info[i].duration, cl.clipDuration, cl.offset, cl.hop)
        && w == WindowAt(info[i].fn, info[i].audioPath, tt, cl)
    ensures forall w :: w in metadata ==>
      && w.end == w.start + cl.clipDuration
      && Lookup(tables, w.fn).Some?
      && exists i :: 0 <= i < |info| && info[i].fn == w.fn && info[i].audioPath == w.audioPath
    ensures cl.omitEmptyProb <= 0.0 && UnitDraws(draws) && cl.hop != 0.0 ==>
      |metadata| == TotalClips(info, cl.clipDuration, cl.offset, cl.hop)
  {
    assert info[..|info|] == info;
    forall i | 0 <= i < |info| && LastWithName(info, i)
      ensures LatestBefore(info, |info|, i)
    {
    }
    forall k | 0 <= k < |tables|
      ensures EntryFromLast(info, labels, tables[k])
    {
      assert EntryIsLatest(info, labels, |info|, tables[k]);
      var i :| LatestEntry(info, labels, |info|, i, tables[k]);
      assert LastWithName(info, i);
    }
    assert trees == LoadedTrees(info, labels);
    ErrorSkipsLoaded(info, labels, cl.hop, |info|);
    if cl.hop != 0.0 {
      CorpusWindowsMembers(info, trees, cl, draws, |info|);
    }
  }

  /** What the constructor's loop has established after the first `i` recordings. */
  ghost predicate CorpusSoFar(info: seq<Recording>, labels: LabelConfig, cl: Clipping, draws: nat -> real,
                              i: int, trees: seq<seq<Interval>>, tables: Tables, metadata: seq<Window>, pos: nat)
    requires 0 <= i <= |info|
  {
    && PlanSoFar(info, labels, cl, draws, i, trees, metadata, pos)
    && (i > 0 ==> cl.hop != 0.0)
    && TablesSoFar(info, labels, i, tables)
    && MetadataFrom(info, cl, i, tables, metadata)
    && CountSoFar(info, cl, draws, i, metadata)
  }

  /** Loading recording `i` as the loop body does extends what the loop has established by one recording. */
  lemma CorpusStep(info: seq<Recording>, labels: LabelConfig, cl: Clipping, draws: nat -> real,
                   i: int, trees: seq<seq<Interval>>, tables: Tables, metadata: seq<Window>, pos: nat, step: Step)
    requires 0 <= i < |info| && CorpusSoFar(info, labels, cl, draws, i, trees, tables, metadata, pos)
    requires cl.hop != 0.0 && ProcessSelectionTable(labels, info[i].rows) == Ok(step.tree)
    requires step.windows ==
      KeptWindows(step.tree, info[i].fn, info[i].audioPath, NumClips(info[i].duration, cl.clipDuration, cl.offset, cl.hop), cl, draws, pos)
    requires step.next == pos + EmptyBefore(step.tree, NumClips(info[i].duration, cl.clipDuration, cl.offset, cl.hop), cl)
    requires forall w :: w in step.windows ==>
      w.end == w.start + cl.clipDuration && w.fn == info[i].fn && w.audioPath == info[i].audioPath
    requires cl.omitEmptyProb <= 0.0 && UnitDraws(draws) ==>
      |step.windows| == NumClips(info[i].duration, cl.clipDuration, cl.offset, cl.hop)
    ensures CorpusSoFar(info, labels, cl, draws, i + 1, trees + [step.tree], Put(tables, info[i].fn, step.tree),
                        metadata + step.windows, step.next)
  {
    PlanStep(info, labels, cl, draws, i, trees, metadata, pos, step);
    TablesStep(info, labels, i, tables, step.tree);
    MetadataStep(info, cl, i, tables, metadata, step.windows, step.tree);
    CountStep(info, cl, draws, i, metadata, step.windows);
  }

  /** After the first `i` recordings, the dictionary holds each name once, with the latest table of that name, all well formed. */
  ghost predicate TablesSoFar(info: seq<Recording>, labels: LabelConfig, i: int, tables: Tables)
    requires 0 <= i <= |info|
  {
    && TablesWellFormed(tables, |labels.labelSet|)
    && KeysUnique(tables)
    && TablesHoldLatest(info, labels, i, tables)
    && TablesFromLatest(info, labels, i, tables)
  }

  lemma TablesStep(info: seq<Recording>, labels: LabelConfig, i: int, tables: Tables, tree: seq<Interval>)
    requires 0 <= i < |info| && TablesSoFar(info, labels, i, tables)
    requires ProcessSelectionTable(labels, info[i].rows) == Ok(tree)
    ensures TablesSoFar(info, labels, i + 1, Put(tables, info[i].fn, tree))
  {
    PutKeepsWellFormed(tables, info[i].fn, tree, |labels.labelSet|);
    PutKeepsKeysUnique(tables, info[i].fn, tree);
    LatestStep(info, labels, i, tables);
    FromLatestStep(info, labels, i, tables);
  }

  /** With nothing to omit, the metadata so far has one window per clip of the first `i` recordings. */
  ghost predicate CountSoFar(info: seq<Recording>, cl: Clipping, draws: nat -> real, i: int, metadata: seq<Window>)
    requires 0 <= i <= |info|
  {
    cl.omitEmptyProb <= 0.0 && UnitDraws(draws) && cl.hop != 0.0 ==>
      |metadata| == TotalClips(info[..i], cl.clipDuration, cl.offset, cl.hop)
  }

  lemma CountStep(info: seq<Recording>, cl: Clipping, draws: nat -> real, i: int, metadata: seq<Window>, windows: seq<Window>)
    requires 0 <= i < |info| && CountSoFar(info, cl, draws, i, metadata)
    requires cl.hop != 0.0 && cl.omitEmptyProb <= 0.0 && UnitDraws(draws) ==>
      |windows| == NumClips(info[i].duration, cl.clipDuration, cl.offset, cl.hop)
    ensures CountSoFar(info, cl, draws, i + 1, metadata + windows)
  {
    assert info[..i + 1][..i] == info[..i];
  }

  /** After the first `i` recordings, `trees` are their processed tables, and the metadata and the generator position are the reference plan's. */
  ghost predicate PlanSoFar(info: seq<Recording>, labels: LabelConfig, cl: Clipping, draws: nat -> real,
                            i: int, trees: seq<seq<Interval>>, metadata: seq<Window>, pos: nat)
    requires 0 <= i <= |info|
  {
    && TreesSoFar(info, labels, i, trees)
    && (cl.hop != 0.0 ==> metadata == CorpusWindows(info, trees, cl, draws, i) && pos == DrawsAfter(info, trees, cl, i))
  }

  ghost predicate TreesSoFar(info: seq<Recording>, labels: LabelConfig, i: int, trees: seq<seq<Interval>>)
    requires 0 <= i <= |info|
  {
    && |trees| == i
    && forall j :: 0 <= j < i ==> ProcessSelectionTable(labels, info[j].rows) == Ok(trees[j])
  }

  lemma PlanStep(info: seq<Recording>, labels: LabelConfig, cl: Clipping, draws: nat -> real,
                 i: int, trees: seq<seq<Interval>>, metadata: seq<Window>, pos: nat, step: Step)
    requires 0 <= i < |info| && PlanSoFar(info, labels, cl, draws, i, trees, metadata, pos)
    requires cl.hop != 0.0 && ProcessSelectionTable(labels, info[i].rows) == Ok(step.tree)
    requires step.windows ==
      KeptWindows(step.tree, info[i].fn, info[i].audioPath, NumClips(info[i].duration, cl.clipDuration, cl.offset, cl.hop), cl, draws, pos)
    requires step.next == pos + EmptyBefore(step.tree, NumClips(info[i].duration, cl.clipDuration, cl.offset, cl.hop), cl)
    ensures PlanSoFar(info, labels, cl, draws, i + 1, trees + [step.tree], metadata + step.windows, step.next)
  {
    TreesStep(info, labels, i, trees, step.tree);
    PlanExtend(info, trees, cl, draws, i, metadata, pos, step.tree, step.windows, step.next);
  }

  lemma TreesStep(info: seq<Recording>, labels: LabelConfig, i: int, trees: seq<seq<Interval>>, tree: seq<Interval>)
    requires 0 <= i < |info| && TreesSoFar(info, labels, i, trees)
    requires ProcessSelectionTable(labels, info[i].rows) == Ok(tree)
    ensures TreesSoFar(info, labels, i + 1, trees + [tree])
  {
  }

  /** Appending recording `i`'s kept windows and draws to the plan of the first `i` gives the plan of the first `i + 1`. */
  lemma PlanExtend(info: seq<Recording>, trees: seq<seq<Interval>>, cl: Clipping, draws: nat -> real,
                   i: nat, metadata: seq<Window>, pos: nat, tree: seq<Interval>, windows: seq<Window>, next: nat)
    requires i < |info| && |trees| == i && cl.hop != 0.0
    requires metadata == CorpusWindows(info, trees, cl, draws, i) && pos == DrawsAfter(info, trees, cl, i)
    requires windows ==
      KeptWindows(tree, info[i].fn, info[i].audioPath, NumClips(info[i].duration, cl.clipDuration, cl.offset, cl.hop), cl, draws, pos)
    requires next == pos + EmptyBefore(tree, NumClips(info[i].duration, cl.clipDuration, cl.offset, cl.hop), cl)
    ensures metadata + windows == CorpusWindows(info, trees + [tree], cl, draws, i + 1)
    ensures next == DrawsAfter(info, trees + [tree], cl, i + 1)
  {
    var more := trees + [tree];
    PlanReadsPrefix(info, trees, more, cl, draws, i);
    assert more[i] == tree;
  }

  /** After the first `i` recordings, every entry is the table of the latest recording with its name. */
  ghost predicate TablesFromLatest(info: seq<Recording>, labels: LabelConfig, i: int, tables: Tables)
    requires 0 <= i <= |info|
  {
    forall k :: 0 <= k < |tables| ==> EntryIsLatest(info, labels, i, tables[k])
  }

  ghost predicate EntryIsLatest(info: seq<Recording>, labels: LabelConfig, i: int, e: (string, seq<Interval>))
    requires 0 <= i <= |info|
  {
    exists j :: LatestEntry(info, labels, i, j, e)
  }

  /** `e` is the name and table of recording `j`, and no recording after `j` among the first `i` shares its name. */
  predicate LatestEntry(info: seq<Recording>, labels: LabelConfig, i: int, j: int, e: (string, seq<Interval>))
    requires 0 <= i <= |info|
  {
    && 0 <= j < i && LatestBefore(info, i, j)
    && ProcessSelectionTable(labels, info[j].rows).Ok?
    && e == (info[j].fn, ProcessSelectionTable(labels, info[j].rows).value)
  }

  lemma FromLatestStep(info: seq<Recording>, labels: LabelConfig, i: int, tables: Tables)
    requires 0 <= i < |info| && ProcessSelectionTable(labels, info[i].rows).Ok?
    requires KeysUnique(tables) && TablesFromLatest(info, labels, i, tables)
    ensures TablesFromLatest(info, labels, i + 1, Put(tables, info[i].fn, ProcessSelectionTable(labels, info[i].rows).value))
  {
    var tree := ProcessSelectionTable(labels, info[i].rows).value;
    var r := Put(tables, info[i].fn, tree);
    PutKeepsKeysUnique(tables, info[i].fn, tree);
    var i' := i + 1;
    forall k | 0 <= k < |r|
      ensures EntryIsLatest(info, labels, i', r[k])
    {
      if r[k] == (info[i].fn, tree) {
        assert LatestEntry(info, labels, i', i, r[k]);
      } else {
        var k' :| 0 <= k' < |tables| && tables[k'] == r[k];
        assert EntryIsLatest(info, labels, i, tables[k']);
        var j :| LatestEntry(info, labels, i, j, tables[k']);
        LatestEntryStep(info, labels, i, j, r[k]);
      }
    }
  }

  /** An entry latest among the first `i` stays latest when recording `i` has another name. */
  lemma LatestEntryStep(info: seq<Recording>, labels: LabelConfig, i: int, j: int, e: (string, seq<Interval>))
    requires 0 <= i < |info| && LatestEntry(info, labels, i, j, e) && e.0 != info[i].fn
    ensures LatestEntry(info, labels, i + 1, j, e)
  {
  }

  /** No recording in `(j, i)` shares the name of recording `j`. */
  predicate LatestBefore(info: seq<Recording>, i: int, j: int)
    requires 0 <= j < i <= |info|
  {
    forall j' :: j < j' < i ==> info[j'].fn != info[j].fn
  }

  /** After the first `i` recordings, each name maps to the table of the latest recording with that name. */
  predicate TablesHoldLatest(info: seq<Recording>, labels: LabelConfig, i: int, tables: Tables)
    requires 0 <= i <= |info|
  {
    forall j :: 0 <= j < i && LatestBefore(info, i, j) ==>
      && ProcessSelectionTable(labels, info[j].rows).Ok?
      && Lookup(tables, info[j].fn) == Some(ProcessSelectionTable(labels, info[j].rows).value)
  }

  /** Every window so far holds one clip duration and names a stored recording among the first `i`. */
  predicate MetadataFrom(info: seq<Recording>, cl: Clipping, i: int, tables: Tables, metadata: seq<Window>)
    requires 0 <= i <= |info|
  {
    forall w :: w in metadata ==>
      && w.end == w.start + cl.clipDuration
      && (exists j :: 0 <= j < i && info[j].fn == w.fn && info[j].audioPath == w.audioPath)
      && Lookup(tables, w.fn).Some?
  }

  lemma LatestStep(info: seq<Recording>, labels: LabelConfig, i: int, tables: Tables)
    requires 0 <= i < |info| && ProcessSelectionTable(labels, info[i].rows).Ok?
    requires TablesHoldLatest(info, labels, i, tables)
    ensures TablesHoldLatest(info, labels, i + 1, Put(tables, info[i].fn, ProcessSelectionTable(labels, info[i].rows).value))
  {
    var tables' := Put(tables, info[i].fn, ProcessSelectionTable(labels, info[i].rows).value);
    forall j | 0 <= j < i + 1 && LatestBefore(info, i + 1, j)
      ensures ProcessSelectionTable(labels, info[j].rows).Ok?
      ensures Lookup(tables', info[j].fn) == Some(ProcessSelectionTable(labels, info[j].rows).value)
    {
      if j < i {
        assert info[i].fn != info[j].fn;
        assert LatestBefore(info, i, j);
      }
    }
  }

  lemma MetadataStep(info: seq<Recording>, cl: Clipping, i: int, tables: Tables, metadata: seq<Window>,
                     windows: seq<Window>, tree: seq<Interval>)
    requires 0 <= i < |info|
    requires MetadataFrom(info, cl, i, tables, metadata)
    requires forall w :: w in windows ==>
      w.end == w.start + cl.clipDuration && w.fn == info[i].fn && w.audioPath == info[i].audioPath
    ensures MetadataFrom(info, cl, i + 1, Put(tables, info[i].fn, tree), metadata + windows)
  {
    var tables' := Put(tables, info[i].fn, tree);
    forall w | w in metadata + windows
      ensures w.end == w.start + cl.clipDuration
      ensures exists j :: 0 <= j < i + 1 && info[j].fn == w.fn && info[j].audioPath == w.audioPath
      ensures Lookup(tables', w.fn).Some?
    {
      if w in metadata {
        var j :| 0 <= j < i && info[j].fn == w.fn && info[j].audioPath == w.audioPath;
        assert Lookup(tables, w.fn).Some?;
      } else {
        assert w in windows;
      }
    }
  }

  /**
    The constructor: argument checks first, then the offset draw in training
    mode, then the corpus loop.
   */
  method MakeDataset(info: seq<Recording>, train: bool, args: Args, offsetDraw: int, draws: nat -> real)
    returns (r: Result<DetectionDataset>)
    requires train && HopSamples(args) >= 1 ==> 0 <= offsetDraw < HopSamples(args)
    ensures CheckArgs(args).Some? ==> r == Err(CheckArgs(args).value)
    ensures CheckArgs(args).None? && train && HopSamples(args) <= 0 ==> r == Err(EmptyOffsetRange)
    // otherwise the corpus fails exactly on a bad label or a zero hop
    ensures CheckArgs(args).None? && !(train && HopSamples(args) <= 0) ==>
      (r.Err? <==>
        (exists i :: 0 <= i < |info| && ProcessSelectionTable(args.labels, info[i].rows).Err?)
        || (|info| > 0 && args.clipHop == 0.0))
    // and then with the error of the first recording that fails
    ensures CheckArgs(args).None? && !(train && HopSamples(args) <= 0) ==>
      (r.Err? <==> CorpusError(info, args.labels, args.clipHop).Some?)
    ensures CheckArgs(args).None? && !(train && HopSamples(args) <= 0) && r.Err? ==>
      r.error == CorpusError(info, args.labels, args.clipHop).value
    ensures r.Ok? ==> r.value.clipStartOffset == (if train then offsetDraw as real / args.sr as real else 0.0)
    ensures r.Ok? ==> r.value.omitEmptyClipProb == (if train then args.omitEmptyClipProb else 0.0)
    // each recording's tree is the processed selection table of the last recording with its name
    ensures r.Ok? ==> forall i :: 0 <= i < |info| && LastWithName(info, i) ==>
      ProcessSelectionTable(args.labels, info[i].rows).Ok?
      && Lookup(r.value.tables, info[i].fn) == Some(ProcessSelectionTable(args.labels, info[i].rows).value)
    ensures r.Ok? ==> EntriesFromLast(info, args.labels, r.value.tables)
    ensures r.Ok? ==> Consistent(r.value, info, args)
    // the metadata is `make_metadata`'s plan, with the dataset's own start offset and omission probability
    ensures r.Ok? ==> TablesLoad(info, args.labels, |info|)
    ensures r.Ok? && args.clipHop != 0.0 ==>
      r.value.metadata == CorpusWindows(info, LoadedTrees(info, args.labels), Clipping(args.clipDuration, args.clipHop, r.value.clipStartOffset, r.value.omitEmptyClipProb), draws, |info|)
    // in evaluation mode every window of every recording is kept
    ensures r.Ok? && !train && UnitDraws(draws) && args.clipHop != 0.0 ==>
      |r.value.metadata| == TotalClips(info, args.clipDuration, 0.0, args.clipHop)
  {
    var check := CheckArgs(args);
    if check.Some? {
      return Err(check.value);
    }
    var offset := 0.0;
    var prob := 0.0;
    if train {
      if HopSamples(args) <= 0 {
        return Err(EmptyOffsetRange);
      }
      assert args.sr != 0;
      offset := offsetDraw as real / args.sr as real;
      prob := args.omitEmptyClipProb;
    }
    var corpus := LoadCorpus(info, args.labels, Clipping(args.clipDuration, args.clipHop, offset, prob), draws);
    if corpus.Err? {
      return Err(corpus.error);
    }
    return Ok(DetectionDataset(corpus.value.tables, corpus.value.metadata, offset, prob));
  }

  /** A stored tree is one of the tables' trees, so it is well formed when they all are. */
  lemma {:induction false} LookupWellFormed(tables: Tables, fn: string, nClasses: int)
    requires TablesWellFormed(tables, nClasses) && Lookup(tables, fn).Some?
    ensures WellFormedTree(Lookup(tables, fn).value, nClasses)
  {
    if tables[0].0 != fn {
      LookupWellFormed(tables[1..], fn, nClasses);
    }
  }

  /** `scale_factor * prediction_scale_factor`: raw samples per annotation frame. */
  function RawToPrediction(args: Args): int {
    args.scaleFactor * args.predictionScaleFactor
  }

  /** The waveform of a fetch: kept as decoded at the dataset rate, otherwise resampled and forced to the clip length. */
  function ClipAudio(args: Args, loaded: seq<real>, fileSr: int, resampled: seq<real>): Result<seq<real>> {
    if fileSr == args.sr then Ok(loaded) else CropAndPad(resampled, args.sr, args.clipDuration)
  }

  /** The exception a fetch raises, if any: from `crop_and_pad` first, then from `get_annotation` on the clip it returns. */
  ghost function FetchError(ds: DetectionDataset, args: Args, index: nat, loaded: seq<real>, fileSr: int,
                            resampled: seq<real>, bump: (int, int, int) -> seq<real>): Option<Error>
    requires index < |ds.metadata| && RawToPrediction(args) > 0
    requires Lookup(ds.tables, ds.metadata[index].fn).Some?
  {
    var w := ds.metadata[index];
    var audio := ClipAudio(args, loaded, fileSr, resampled);
    if audio.Err? then Some(audio.error)
    else
      var g := MakeGrid(|audio.value|, args.sr, RawToPrediction(args), |args.labels.labelSet|);
      AnnotationError(g, bump, GetPosIntervals(Lookup(ds.tables, w.fn).value, w.start, w.end))
  }

  /** One training example: the waveform and its three frame-level targets. */
  datatype Sample = Sample(audio: seq<real>, targets: Targets)

  /**
    `__getitem__` after decoding: `loaded` is the decoded window with its mean
    removed (and amplitude-augmented in training), `fileSr` the file's rate and
    `resampled` the same samples resampled to the dataset rate.
   */
  method GetItem(ds: DetectionDataset, args: Args, index: nat, loaded: seq<real>, fileSr: int,
                 resampled: seq<real>, bump: (int, int, int) -> seq<real>)
    returns (r: Result<Sample>)
    requires index < |ds.metadata|
    requires RawToPrediction(args) > 0
    requires TablesWellFormed(ds.tables, |args.labels.labelSet|)
    requires Lookup(ds.tables, ds.metadata[index].fn).Some?
    // a fetch fails exactly when preparing the audio or encoding the targets raises, with that exception
    ensures r.Err? <==> FetchError(ds, args, index, loaded, fileSr, resampled, bump).Some?
    ensures r.Err? ==> r.error == FetchError(ds, args, index, loaded, fileSr, resampled, bump).value
    // a failed reflect pad is the only audio error
    ensures ClipAudio(args, loaded, fileSr, resampled).Err? ==> r == Err(ReflectPadTooLarge)
    ensures r.Ok? ==> ClipAudio(args, loaded, fileSr, resampled) == Ok(r.value.audio)
    ensures r.Ok? && fileSr != args.sr && TargetSamples(args.sr, args.clipDuration) >= 0 ==>
      |r.value.audio| == TargetSamples(args.sr, args.clipDuration)
    // the targets describe the window's intervals, clipped and relative to its start, on the frame grid of the audio
    ensures r.Ok? ==>
      var w := ds.metadata[index];
      var ivs := GetPosIntervals(Lookup(ds.tables, w.fn).value, w.start, w.end);
      var g := MakeGrid(|r.value.audio|, args.sr, RawToPrediction(args), |args.labels.labelSet|);
      && |r.value.targets.anchor| == g.seqLen
      && |r.value.targets.regression| == g.seqLen
      && |r.value.targets.classes| == g.seqLen
      && (forall j :: 0 <= j < g.seqLen ==> |r.value.targets.classes[j]| == g.nClasses)
      && RegressionSpec(g, ivs, r.value.targets.regression, |ivs|)
      && ClassSpec(g, ivs, r.value.targets.classes, |ivs|)
      && BumpsFit(g, bump, ivs, |ivs|)
      && AnchorSpec(g, bump, ivs, r.value.targets.anchor, |ivs|)
  {
    var w := ds.metadata[index];
    var audio := ClipAudio(args, loaded, fileSr, resampled);
    if audio.Err? {
      return Err(audio.error);
    }
    var tree := Lookup(ds.tables, w.fn).value;
    LookupWellFormed(ds.tables, w.fn, |args.labels.labelSet|);
    var ivs := GetPosIntervals(tree, w.start, w.end);
    PosIntervalsWellFormed(tree, |args.labels.labelSet|, w.start, w.end);
    var targets := GetAnnotation(ivs, |audio.value|, args.sr, RawToPrediction(args), |args.labels.labelSet|, bump);
    if targets.Err? {
      return Err(targets.error);
    }
    return Ok(Sample(audio.value, targets.value));
  }

  lemma PutKeepsWellFormed(tables: Tables, fn: string, tree: seq<Interval>, nClasses: int)
    requires TablesWellFormed(tables, nClasses) && WellFormedTree(tree, nClasses)
    ensures TablesWellFormed(Put(tables, fn, tree), nClasses)
  {
    var r := Put(tables, fn, tree);
    forall k | 0 <= k < |r|
      ensures WellFormedTree(r[k].1, nClasses)
    {
      if r[k].1 != tree {
        var k' :| 0 <= k' < |tables| && r[k] == tables[k'];
      }
    }
  }

  // ---------------------------------------------------------------------
  // Class proportions

  /** How many intervals of a tree carry class `c`. */
  function CountInTree(tree: seq<Interval>, c: int): nat {
    if |tree| == 0 then 0
    else CountInTree(tree[..|tree| - 1], c) + (if tree[|tree| - 1].cls == c then 1 else 0)
  }

  /** How many stored intervals, over every table, carry class `c`. */
  function CountClass(tables: Tables, c: int): nat {
    if |tables| == 0 then 0
    else CountClass(tables[..|tables| - 1], c) + CountInTree(tables[|tables| - 1].1, c)
  }

  /** How many intervals of a tree carry a known class (anything but `Unknown`). */
  function KnownInTree(tree: seq<Interval>): nat {
    if |tree| == 0 then 0
    else KnownInTree(tree[..|tree| - 1]) + (if tree[|tree| - 1].cls != Unknown then 1 else 0)
  }

  /** How many stored intervals carry a known class. */
  function KnownCount(tables: Tables): nat {
    if |tables| == 0 then 0
    else KnownCount(tables[..|tables| - 1]) + KnownInTree(tables[|tables| - 1].1)
  }

  /** The per-class counts of a tree, summed over the classes below `n`. */
  function TreeClassSum(tree: seq<Interval>, n: nat): nat {
    if n == 0 then 0 else TreeClassSum(tree, n - 1) + CountInTree(tree, n - 1)
  }

  /** The per-class counts of all tables, summed over the classes below `n`. */
  function ClassSum(tables: Tables, n: nat): nat {
    if n == 0 then 0 else ClassSum(tables, n - 1) + CountClass(tables, n - 1)
  }

  function SumNat(s: seq<nat>): nat {
    if |s| == 0 then 0 else SumNat(s[..|s| - 1]) + s[|s| - 1]
  }

  function SumReal(s: seq<real>): real {
    if |s| == 0 then 0.0 else SumReal(s[..|s| - 1]) + s[|s| - 1]
  }

  lemma {:induction false} TreeClassSumSnoc(tree: seq<Interval>, iv: Interval, n: nat)
    ensures TreeClassSum(tree + [iv], n) == TreeClassSum(tree, n) + (if 0 <= iv.cls < n then 1 else 0)
  {
    if n > 0 {
      TreeClassSumSnoc(tree, iv, n - 1);
      assert (tree + [iv])[..|tree|] == tree;
    }
  }

  /** In a well-formed tree, counting each class and adding up gives the number of known intervals. */
  lemma {:induction false} TreeClassSumIsKnown(tree: seq<Interval>, n: nat)
    requires WellFormedTree(tree, n)
    ensures TreeClassSum(tree, n) == KnownInTree(tree)
  {
    if |tree| == 0 {
      TreeClassSumEmpty(tree, n);
    } else {
      var init := tree[..|tree| - 1];
      var last := tree[|tree| - 1];
      assert tree == init + [last];
      assert last in tree;
      TreeClassSumIsKnown(init, n);
      TreeClassSumSnoc(init, last, n);
    }
  }

  lemma {:induction false} TreeClassSumEmpty(tree: seq<Interval>, n: nat)
    requires |tree| == 0
    ensures TreeClassSum(tree, n) == 0
  {
    if n > 0 {
      TreeClassSumEmpty(tree, n - 1);
    }
  }

  lemma {:induction false} ClassSumSnoc(tables: Tables, e: (string, seq<Interval>), n: nat)
    ensures ClassSum(tables + [e], n) == ClassSum(tables, n) + TreeClassSum(e.1, n)
  {
    if n > 0 {
      ClassSumSnoc(tables, e, n - 1);
      assert (tables + [e])[..|tables|] == tables;
    }
  }

  lemma {:induction false} ClassSumEmpty(tables: Tables, n: nat)
    requires |tables| == 0
    ensures ClassSum(tables, n) == 0
  {
    if n > 0 {
      ClassSumEmpty(tables, n - 1);
    }
  }

  /** Over well-formed tables, the class counts add up to the number of known intervals. */
  lemma {:induction false} ClassSumIsKnown(tables: Tables, n: nat)
    requires TablesWellFormed(tables, n)
    ensures ClassSum(tables, n) == KnownCount(tables)
  {
    if |tables| == 0 {
      ClassSumEmpty(tables, n);
    } else {
      var init := tables[..|tables| - 1];
      var last := tables[|tables| - 1];
      assert tables == init + [last];
      ClassSumIsKnown(init, n);
      ClassSumSnoc(init, last, n);
      TreeClassSumIsKnown(last.1, n);
    }
  }

  /** A list of counts that agrees with `CountClass` adds up to `ClassSum`. */
  lemma {:induction false} SumOfCounts(counts: seq<nat>, tables: Tables)
    requires forall c :: 0 <= c < |counts| ==> counts[c] == CountClass(tables, c)
    ensures SumNat(counts) == ClassSum(tables, |counts|)
  {
    if |counts| > 0 {
      SumOfCounts(counts[..|counts| - 1], tables);
    }
  }

  /** Dividing every count by the same total divides their sum by it. */
  lemma {:induction false} SumOfShares(counts: seq<nat>, shares: seq<real>, total: real)
    requires total != 0.0 && |shares| == |counts|
    requires forall c :: 0 <= c < |counts| ==> shares[c] == counts[c] as real / total
    ensures SumReal(shares) == SumNat(counts) as real / total
  {
    if |counts| > 0 {
      var m := |counts| - 1;
      SumOfShares(counts[..m], shares[..m], total);
      AddShares(SumNat(counts[..m]) as real, counts[m] as real, total);
    }
  }

  /** The inner loop of `get_class_proportions`: one tree's known intervals added to the counts. */
  method CountTree(tree: seq<Interval>, counts0: seq<nat>) returns (counts: seq<nat>)
    requires WellFormedTree(tree, |counts0|)
    ensures |counts| == |counts0|
    ensures forall c :: 0 <= c < |counts| ==> counts[c] == counts0[c] + CountInTree(tree, c)
  {
    counts := counts0;
    var m := 0;
    while m < |tree|
      invariant 0 <= m <= |tree|
      invariant |counts| == |counts0|
      invariant forall c :: 0 <= c < |counts| ==> counts[c] == counts0[c] + CountInTree(tree[..m], c)
    {
      assert tree[..m + 1][..m] == tree[..m];
      var annot := tree[m].cls;
      if annot != Unknown {
        counts := counts[annot := counts[annot] + 1];
      }
      m := m + 1;
    }
    assert tree[..m] == tree;
  }

  /** The outer loop of `get_class_proportions`: the counts of every class over all tables. */
  method CountClasses(tables: Tables, nClasses: nat) returns (counts: seq<nat>)
    requires TablesWellFormed(tables, nClasses)
    ensures |counts| == nClasses
    ensures forall c :: 0 <= c < nClasses ==> counts[c] == CountClass(tables, c)
  {
    counts := seq(nClasses, _ => 0);
    var k := 0;
    while k < |tables|
      invariant 0 <= k <= |tables|
      invariant |counts| == nClasses
      invariant forall c :: 0 <= c < nClasses ==> counts[c] == CountClass(tables[..k], c)
    {
      assert tables[..k + 1][..k] == tables[..k];
      counts := CountTree(tables[k].1, counts);
      k := k + 1;
    }
    assert tables[..k] == tables;
  }

  /** `np.sum(counts)`. */
  method Total(counts: seq<nat>) returns (total: nat)
    ensures total == SumNat(counts)
  {
    total := 0;
    var c := 0;
    while c < |counts|
      invariant 0 <= c <= |counts|
      invariant total == SumNat(counts[..c])
    {
      assert counts[..c + 1][..c] == counts[..c];
      total := total + counts[c];
      c := c + 1;
    }
    assert counts[..c] == counts;
  }

  /**
    `get_class_proportions`: each class's share of the annotated intervals of
    known class over all stored tables. With an empty label set the division
    is of an empty array and gives an empty array. With classes but no interval
    of known class it is zero by zero in every class, which numpy answers with
    not-a-number; the model answers `None`.
   */
  method GetClassProportions(tables: Tables, nClasses: nat) returns (r: Option<seq<real>>)
    requires TablesWellFormed(tables, nClasses)
    ensures r.None? <==> nClasses > 0 && KnownCount(tables) == 0
    ensures r.Some? ==> |r.value| == nClasses
    ensures r.Some? ==> forall c :: 0 <= c < nClasses ==>
      r.value[c] == CountClass(tables, c) as real / KnownCount(tables) as real
    ensures r.Some? ==> forall c :: 0 <= c < nClasses ==> 0.0 <= r.value[c] <= 1.0
    ensures r.Some? && nClasses > 0 ==> SumReal(r.value) == 1.0
  {
    var counts := CountClasses(tables, nClasses);
    var total := Total(counts);
    SumOfCounts(counts, tables);
    ClassSumIsKnown(tables, nClasses);
    if nClasses == 0 {
      return Some([]);
    }
    if total == 0 {
      return None;
    }
    var shares := seq(nClasses, c requires 0 <= c < nClasses => counts[c] as real / total as real);
    forall c | 0 <= c < nClasses
      ensures 0.0 <= shares[c] <= 1.0
    {
      CountBelowSum(counts, c);
      ShareBounds(counts[c] as real, total as real);
    }
    var t := total as real;
    SumOfShares(counts, shares, t);
    assert SumNat(counts) as real == t;
    DivSelf(t);
    return Some(shares);
  }

  lemma AddShares(a: real, b: real, t: real)
    requires t != 0.0
    ensures a / t + b / t == (a + b) / t
  {
  }

  lemma DivSelf(t: real)
    requires t != 0.0
    ensures t / t == 1.0
  {
  }

  lemma ShareBounds(a: real, t: real)
    requires 0.0 <= a <= t && t > 0.0
    ensures 0.0 <= a / t <= 1.0
  {
    assert a / t * t == a;
  }

  /** A single count never exceeds the sum of all counts. */
  lemma {:induction false} CountBelowSum(counts: seq<nat>, c: nat)
    requires c < |counts|
    ensures counts[c] <= SumNat(counts)
  {
    if c < |counts| - 1 {
      CountBelowSum(counts[..|counts| - 1], c);
    }
  }
}
