/**
  Clip planning for one recording (the inner loop of `make_metadata`), and the
  clip count and clip start of the single-recording inference dataset.

  Window `tt` of a recording spans `[tt*hop + offset, tt*hop + offset + clipDuration)`;
  there are `max(0, floor((duration - clipDuration - offset) / hop))` of them.
  A window whose overlap query is empty consumes one uniform draw from the
  dataset's generator and is dropped when `omitEmptyProb > draw`. The generator
  is an explicit stream `draws`, read from position `pos` on.
 */
module ClipPlanner {
  import opened Common
  import opened SelectionTable

  /** One entry of the dataset's metadata: `[fn, audio_fp, start, end]`. */
  datatype Window = Window(fn: string, audioPath: string, start: real, end: real)

  /** The dataset-wide clipping parameters, with the offset and omission probability already fixed by the mode. */
  datatype Clipping = Clipping(clipDuration: real, hop: real, offset: real, omitEmptyProb: real)

  /** `num_clips`: the floor of the recording's spare time over the hop, and never negative. */
  function NumClips(duration: real, clipDuration: real, offset: real, hop: real): nat
    requires hop != 0.0
  {
    var q := Floor((duration - clipDuration - offset) / hop);
    if q < 0 then 0 else q
  }

  function WindowStart(tt: nat, cl: Clipping): real {
    tt as real * cl.hop + cl.offset
  }

  function WindowEnd(tt: nat, cl: Clipping): real {
    WindowStart(tt, cl) + cl.clipDuration
  }

  function WindowAt(fn: string, audioPath: string, tt: nat, cl: Clipping): Window {
    Window(fn, audioPath, WindowStart(tt, cl), WindowEnd(tt, cl))
  }

  /**
    The clip count, independently of the floor: window `tt` is produced exactly
    when one more hop after it still ends inside the recording. So no window
    ends at the recording's end or beyond it.
   */
  lemma NumClipsCharacterization(duration: real, cl: Clipping, tt: nat)
    requires cl.hop > 0.0
    ensures tt < NumClips(duration, cl.clipDuration, cl.offset, cl.hop) <==> WindowEnd(tt, cl) + cl.hop <= duration
    ensures tt < NumClips(duration, cl.clipDuration, cl.offset, cl.hop) ==> WindowEnd(tt, cl) < duration
  {
    var spare := duration - cl.clipDuration - cl.offset;
    var x := spare / cl.hop;
    assert x * cl.hop == spare;
    var q := Floor(x);
    assert q as real <= x < q as real + 1.0;
    var t1 := tt as real + 1.0;
    if tt < NumClips(duration, cl.clipDuration, cl.offset, cl.hop) {
      assert t1 <= q as real;
      assert t1 * cl.hop <= x * cl.hop;
    } else {
      assert q as real < t1;
      assert x < t1;
      assert x * cl.hop < t1 * cl.hop;
    }
  }

  /** A recording shorter than one clip plus the offset plus one hop yields no window, and a longer one yields some. */
  lemma NoClipsIffShort(duration: real, cl: Clipping)
    requires cl.hop > 0.0
    ensures NumClips(duration, cl.clipDuration, cl.offset, cl.hop) == 0 <==> duration < cl.clipDuration + cl.offset + cl.hop
  {
    NumClipsCharacterization(duration, cl, 0);
  }

  /** Ten seconds of audio, four-second clips, a two-second hop and no offset give exactly `[0,4)`, `[2,6)`, `[4,8)`. */
  lemma TenSecondExample()
    ensures NumClips(10.0, 4.0, 0.0, 2.0) == 3
    ensures WindowStart(0, Clipping(4.0, 2.0, 0.0, 0.0)) == 0.0 && WindowEnd(0, Clipping(4.0, 2.0, 0.0, 0.0)) == 4.0
    ensures WindowStart(1, Clipping(4.0, 2.0, 0.0, 0.0)) == 2.0 && WindowEnd(1, Clipping(4.0, 2.0, 0.0, 0.0)) == 6.0
    ensures WindowStart(2, Clipping(4.0, 2.0, 0.0, 0.0)) == 4.0 && WindowEnd(2, Clipping(4.0, 2.0, 0.0, 0.0)) == 8.0
  {
    assert (10.0 - 4.0 - 0.0) / 2.0 == 3.0;
  }

  /** In that corpus an event at `[1, 2)` meets the first window only: the second starts where the event ends. */
  lemma EventInFirstWindowOnly()
    ensures Overlaps(Interval(1.0, 2.0, 0), WindowStart(0, Clipping(4.0, 2.0, 0.0, 0.0)), WindowEnd(0, Clipping(4.0, 2.0, 0.0, 0.0)))
    ensures forall tt: nat :: tt >= 1 ==>
      !Overlaps(Interval(1.0, 2.0, 0), WindowStart(tt, Clipping(4.0, 2.0, 0.0, 0.0)), WindowEnd(tt, Clipping(4.0, 2.0, 0.0, 0.0)))
  {
  }

  predicate EmptyWindow(tree: seq<Interval>, tt: nat, cl: Clipping) {
    Query(tree, WindowStart(tt, cl), WindowEnd(tt, cl)) == []
  }

  /** How many of the windows before `tt` are empty, i.e. how many draws they consume. */
  function EmptyBefore(tree: seq<Interval>, tt: nat, cl: Clipping): nat {
    if tt == 0 then 0
    else EmptyBefore(tree, tt - 1, cl) + (if EmptyWindow(tree, tt - 1, cl) then 1 else 0)
  }

  /** Window `tt` is kept unless it is empty and its own draw falls below the omission probability. */
  predicate Kept(tree: seq<Interval>, tt: nat, cl: Clipping, draws: nat -> real, pos: nat) {
    !EmptyWindow(tree, tt, cl) || !(cl.omitEmptyProb > draws(pos + EmptyBefore(tree, tt, cl)))
  }

  /**
    The windows of the first `n` that are kept, in increasing `tt`: the
    reference the scan is measured against, reading each window's draw at
    its precomputed position rather than from a running counter.
   */
  function KeptWindows(tree: seq<Interval>, fn: string, audioPath: string, n: nat,
                       cl: Clipping, draws: nat -> real, pos: nat): seq<Window>
  {
    if n == 0 then []
    else
      KeptWindows(tree, fn, audioPath, n - 1, cl, draws, pos)
      + (if Kept(tree, n - 1, cl, draws, pos) then [WindowAt(fn, audioPath, n - 1, cl)] else [])
  }

  /** A window is among the kept ones exactly when it is window `tt < n` and that window is kept. */
  lemma {:induction false} KeptWindowsMembers(tree: seq<Interval>, fn: string, audioPath: string, n: nat,
                                              cl: Clipping, draws: nat -> real, pos: nat)
    ensures forall w :: w in KeptWindows(tree, fn, audioPath, n, cl, draws, pos) <==>
      exists tt: nat :: tt < n && Kept(tree, tt, cl, draws, pos) && w == WindowAt(fn, audioPath, tt, cl)
  {
    forall w | w in KeptWindows(tree, fn, audioPath, n, cl, draws, pos)
      ensures exists tt: nat :: tt < n && Kept(tree, tt, cl, draws, pos) && w == WindowAt(fn, audioPath, tt, cl)
    {
      KeptWindowFrom(tree, fn, audioPath, n, cl, draws, pos, w);
    }
    forall tt: nat | tt < n && Kept(tree, tt, cl, draws, pos)
      ensures WindowAt(fn, audioPath, tt, cl) in KeptWindows(tree, fn, audioPath, n, cl, draws, pos)
    {
      KeptWindowIn(tree, fn, audioPath, n, cl, draws, pos, tt);
    }
  }

  /** Every kept window of the first `n` is window `tt < n` for a kept `tt`. */
  lemma {:induction false} KeptWindowFrom(tree: seq<Interval>, fn: string, audioPath: string, n: nat,
                                          cl: Clipping, draws: nat -> real, pos: nat, w: Window)
    requires w in KeptWindows(tree, fn, audioPath, n, cl, draws, pos)
    ensures exists tt: nat :: tt < n && Kept(tree, tt, cl, draws, pos) && w == WindowAt(fn, audioPath, tt, cl)
  {
    if w in KeptWindows(tree, fn, audioPath, n - 1, cl, draws, pos) {
      KeptWindowFrom(tree, fn, audioPath, n - 1, cl, draws, pos, w);
    } else {
      assert Kept(tree, n - 1, cl, draws, pos) && w == WindowAt(fn, audioPath, n - 1, cl);
    }
  }

  /** A kept window `tt < n` is among the kept windows of the first `n`. */
  lemma {:induction false} KeptWindowIn(tree: seq<Interval>, fn: string, audioPath: string, n: nat,
                                        cl: Clipping, draws: nat -> real, pos: nat, tt: nat)
    requires tt < n && Kept(tree, tt, cl, draws, pos)
    ensures WindowAt(fn, audioPath, tt, cl) in KeptWindows(tree, fn, audioPath, n, cl, draws, pos)
  {
    if tt < n - 1 {
      KeptWindowIn(tree, fn, audioPath, n - 1, cl, draws, pos, tt);
    }
  }

  /** A generator's uniform draws lie in `[0, 1)`. */
  ghost predicate UnitDraws(draws: nat -> real) {
    forall i: nat :: 0.0 <= draws(i) < 1.0
  }

  /**
    The windows `make_metadata` appends for one recording, in increasing `tt`,
    and the position of the generator afterwards. `kept` records which `tt`
    each window came from.
   */
  method PlanRecording(tree: seq<Interval>, fn: string, audioPath: string, duration: real,
                       cl: Clipping, draws: nat -> real, pos: nat)
    returns (windows: seq<Window>, next: nat, ghost kept: seq<nat>)
    requires cl.hop != 0.0
    ensures next == pos + EmptyBefore(tree, NumClips(duration, cl.clipDuration, cl.offset, cl.hop), cl)
    ensures windows == KeptWindows(tree, fn, audioPath, NumClips(duration, cl.clipDuration, cl.offset, cl.hop), cl, draws, pos)
    ensures |kept| == |windows|
    ensures forall k :: 0 <= k < |kept| ==>
      kept[k] < NumClips(duration, cl.clipDuration, cl.offset, cl.hop) && windows[k] == WindowAt(fn, audioPath, kept[k], cl)
    ensures forall k, k' :: 0 <= k < k' < |kept| ==> kept[k] < kept[k']
    ensures forall tt :: 0 <= tt < NumClips(duration, cl.clipDuration, cl.offset, cl.hop) ==>
      (tt in kept <==> Kept(tree, tt, cl, draws, pos))
    // a window that holds an annotation is never dropped
    ensures forall tt :: 0 <= tt < NumClips(duration, cl.clipDuration, cl.offset, cl.hop) && !EmptyWindow(tree, tt, cl) ==>
      tt in kept
    // with nothing to omit, every window is kept
    ensures cl.omitEmptyProb <= 0.0 && UnitDraws(draws) ==>
      |windows| == NumClips(duration, cl.clipDuration, cl.offset, cl.hop)
      && forall k :: 0 <= k < |windows| ==> windows[k] == WindowAt(fn, audioPath, k, cl)
    // every window lasts one clip and names the recording; with a positive hop they start in increasing order
    ensures forall w :: w in windows ==> w.end == w.start + cl.clipDuration && w.fn == fn && w.audioPath == audioPath
    ensures cl.hop > 0.0 ==> forall k, k' :: 0 <= k < k' < |windows| ==> windows[k].start < windows[k'].start
  {
    var n := NumClips(duration, cl.clipDuration, cl.offset, cl.hop);
    windows, next, kept := ScanWindows(tree, fn, audioPath, n, cl, draws, pos);
    WindowsInOrder(fn, audioPath, cl, windows, kept);
    if cl.omitEmptyProb <= 0.0 && UnitDraws(draws) {
      forall t | 0 <= t < n
        ensures t in kept
      {
        assert 0.0 <= draws(pos + EmptyBefore(tree, t, cl));
        assert Kept(tree, t, cl, draws, pos);
      }
      KeptCoversRange(kept, n);
    }
  }

  /** Windows listed by increasing window number last one clip, name their recording and, with a positive hop, start in increasing order. */
  lemma WindowsInOrder(fn: string, audioPath: string, cl: Clipping, windows: seq<Window>, kept: seq<nat>)
    requires |kept| == |windows|
    requires forall k :: 0 <= k < |kept| ==> windows[k] == WindowAt(fn, audioPath, kept[k], cl)
    requires forall k, k' :: 0 <= k < k' < |kept| ==> kept[k] < kept[k']
    ensures forall w :: w in windows ==> w.end == w.start + cl.clipDuration && w.fn == fn && w.audioPath == audioPath
    ensures cl.hop > 0.0 ==> forall k, k' :: 0 <= k < k' < |windows| ==> windows[k].start < windows[k'].start
  {
    if cl.hop > 0.0 {
      forall k, k' | 0 <= k < k' < |windows|
        ensures windows[k].start < windows[k'].start
      {
        MulStrict(kept[k] as real, kept[k'] as real, cl.hop);
      }
    }
  }

  /** The loop of `make_metadata` over the first `n` windows of one recording. */
  method ScanWindows(tree: seq<Interval>, fn: string, audioPath: string, n: nat,
                     cl: Clipping, draws: nat -> real, pos: nat)
    returns (windows: seq<Window>, next: nat, ghost kept: seq<nat>)
    ensures next == pos + EmptyBefore(tree, n, cl)
    ensures windows == KeptWindows(tree, fn, audioPath, n, cl, draws, pos)
    ensures |kept| == |windows|
    ensures forall k :: 0 <= k < |kept| ==> kept[k] < n && windows[k] == WindowAt(fn, audioPath, kept[k], cl)
    ensures forall k, k' :: 0 <= k < k' < |kept| ==> kept[k] < kept[k']
    ensures forall tt :: 0 <= tt < n ==> (tt in kept <==> Kept(tree, tt, cl, draws, pos))
  {
    windows, next, kept := [], pos, [];
    var tt: nat := 0;
    while tt < n
      invariant tt <= n
      invariant Scanned(tree, fn, audioPath, cl, draws, pos, tt, windows, next, kept)
    {
      windows, next, kept := ScanOne(tree, fn, audioPath, cl, draws, pos, tt, windows, next, kept);
      tt := tt + 1;
    }
  }

  /** The loop body: window `tt` is kept unless it is empty and its draw falls below the omission probability. */
  method ScanOne(tree: seq<Interval>, fn: string, audioPath: string, cl: Clipping, draws: nat -> real, pos: nat,
                 tt: nat, windows: seq<Window>, next: nat, ghost kept: seq<nat>)
    returns (windows': seq<Window>, next': nat, ghost kept': seq<nat>)
    requires Scanned(tree, fn, audioPath, cl, draws, pos, tt, windows, next, kept)
    ensures Scanned(tree, fn, audioPath, cl, draws, pos, tt + 1, windows', next', kept')
  {
    var w := WindowAt(fn, audioPath, tt, cl);
    var keep := true;
    next' := next;
    if Query(tree, w.start, w.end) == [] {
      var draw := draws(next);
      keep, next' := !(cl.omitEmptyProb > draw), next + 1;
    }
    windows' := if keep then windows + [w] else windows;
    kept' := if keep then kept + [tt] else kept;
    ScanStep(tree, fn, audioPath, cl, draws, pos, tt, windows, next, kept, keep, windows', next', kept');
  }

  /** What the loop has established after the first `tt` windows. */
  ghost predicate Scanned(tree: seq<Interval>, fn: string, audioPath: string, cl: Clipping, draws: nat -> real, pos: nat,
                          tt: nat, windows: seq<Window>, next: nat, kept: seq<nat>)
  {
    && ScannedPlan(tree, fn, audioPath, cl, draws, pos, tt, windows, next)
    && ScannedKept(tree, fn, audioPath, cl, draws, pos, tt, windows, kept)
  }

  /** The windows so far are the reference's, and the generator has moved past one draw per empty window. */
  ghost predicate ScannedPlan(tree: seq<Interval>, fn: string, audioPath: string, cl: Clipping, draws: nat -> real, pos: nat,
                              tt: nat, windows: seq<Window>, next: nat)
  {
    && next == pos + EmptyBefore(tree, tt, cl)
    && windows == KeptWindows(tree, fn, audioPath, tt, cl, draws, pos)
  }

  /** `kept` lists, in increasing order, the window numbers below `tt` that are kept, one per window. */
  ghost predicate ScannedKept(tree: seq<Interval>, fn: string, audioPath: string, cl: Clipping, draws: nat -> real, pos: nat,
                              tt: nat, windows: seq<Window>, kept: seq<nat>)
  {
    && |kept| == |windows|
    && (forall k :: 0 <= k < |kept| ==> kept[k] < tt && windows[k] == WindowAt(fn, audioPath, kept[k], cl))
    && (forall k, k' :: 0 <= k < k' < |kept| ==> kept[k] < kept[k'])
    && (forall t :: 0 <= t < tt ==> (t in kept <==> Kept(tree, t, cl, draws, pos)))
  }

  /** Deciding window `tt` as the loop body does extends what the loop has established by one window. */
  lemma ScanStep(tree: seq<Interval>, fn: string, audioPath: string, cl: Clipping, draws: nat -> real, pos: nat,
                 tt: nat, windows: seq<Window>, next: nat, kept: seq<nat>,
                 keep: bool, windows': seq<Window>, next': nat, kept': seq<nat>)
    requires Scanned(tree, fn, audioPath, cl, draws, pos, tt, windows, next, kept)
    requires next' == if EmptyWindow(tree, tt, cl) then next + 1 else next
    requires keep == (!EmptyWindow(tree, tt, cl) || !(cl.omitEmptyProb > draws(next)))
    requires windows' == if keep then windows + [WindowAt(fn, audioPath, tt, cl)] else windows
    requires kept' == if keep then kept + [tt] else kept
    ensures Scanned(tree, fn, audioPath, cl, draws, pos, tt + 1, windows', next', kept')
  {
    assert keep == Kept(tree, tt, cl, draws, pos);
    ScanPlanStep(tree, fn, audioPath, cl, draws, pos, tt, windows, next, keep, windows', next');
    ScanKeptStep(tree, fn, audioPath, cl, draws, pos, tt, windows, kept, keep, windows', kept');
  }

  lemma ScanPlanStep(tree: seq<Interval>, fn: string, audioPath: string, cl: Clipping, draws: nat -> real, pos: nat,
                     tt: nat, windows: seq<Window>, next: nat, keep: bool, windows': seq<Window>, next': nat)
    requires ScannedPlan(tree, fn, audioPath, cl, draws, pos, tt, windows, next)
    requires next' == if EmptyWindow(tree, tt, cl) then next + 1 else next
    requires keep == Kept(tree, tt, cl, draws, pos)
    requires windows' == if keep then windows + [WindowAt(fn, audioPath, tt, cl)] else windows
    ensures ScannedPlan(tree, fn, audioPath, cl, draws, pos, tt + 1, windows', next')
  {
    assert EmptyBefore(tree, tt + 1, cl) == EmptyBefore(tree, tt, cl) + (if EmptyWindow(tree, tt, cl) then 1 else 0);
  }

  lemma ScanKeptStep(tree: seq<Interval>, fn: string, audioPath: string, cl: Clipping, draws: nat -> real, pos: nat,
                     tt: nat, windows: seq<Window>, kept: seq<nat>, keep: bool, windows': seq<Window>, kept': seq<nat>)
    requires ScannedKept(tree, fn, audioPath, cl, draws, pos, tt, windows, kept)
    requires keep == Kept(tree, tt, cl, draws, pos)
    requires windows' == if keep then windows + [WindowAt(fn, audioPath, tt, cl)] else windows
    requires kept' == if keep then kept + [tt] else kept
    ensures ScannedKept(tree, fn, audioPath, cl, draws, pos, tt + 1, windows', kept')
  {
    KeptStep(tree, tt, cl, draws, pos, kept, keep);
  }

  /** One more window decided: appending it when kept extends the record of kept windows by one. */
  lemma KeptStep(tree: seq<Interval>, tt: nat, cl: Clipping, draws: nat -> real, pos: nat, kept: seq<nat>, keep: bool)
    requires forall k :: 0 <= k < |kept| ==> kept[k] < tt
    requires forall t :: 0 <= t < tt ==> (t in kept <==> Kept(tree, t, cl, draws, pos))
    requires keep == Kept(tree, tt, cl, draws, pos)
    ensures var kept' := if keep then kept + [tt] else kept;
      forall t :: 0 <= t < tt + 1 ==> (t in kept' <==> Kept(tree, t, cl, draws, pos))
  {
  }

  /** An increasing list of window numbers below `n` that misses none of them is `0, 1, ..., n-1`. */
  lemma KeptCoversRange(kept: seq<nat>, n: nat)
    requires forall k :: 0 <= k < |kept| ==> kept[k] < n
    requires forall k, k' :: 0 <= k < k' < |kept| ==> kept[k] < kept[k']
    requires forall t :: 0 <= t < n ==> t in kept
    ensures |kept| == n && forall k :: 0 <= k < |kept| ==> kept[k] == k
  {
    KeptPrefixIsRange(kept, n, |kept|);
    if |kept| > 0 {
      assert kept[|kept| - 1] == |kept| - 1 < n;
    }
    if n > 0 {
      assert n - 1 in kept;
      var i :| 0 <= i < |kept| && kept[i] == n - 1;
      assert i == n - 1;
    }
  }

  lemma {:induction false} KeptPrefixIsRange(kept: seq<nat>, n: nat, m: nat)
    requires m <= |kept|
    requires forall k :: 0 <= k < |kept| ==> kept[k] < n
    requires forall k, k' :: 0 <= k < k' < |kept| ==> kept[k] < kept[k']
    requires forall t :: 0 <= t < n ==> t in kept
    ensures forall k :: 0 <= k < m ==> kept[k] == k
  {
    if m > 0 {
      KeptPrefixIsRange(kept, n, m - 1);
      var k := m - 1;
      assert k == 0 || kept[k] > kept[k - 1];
      assert k <= kept[k] < n;
      assert k in kept;
      var i :| 0 <= i < |kept| && kept[i] == k;
      assert i >= k;
      assert kept[k] <= kept[i];
    }
  }

  /**
    `SingleClipDataset`'s clip count: clip `idx` exists exactly when one more hop
    after it still ends inside the recording, which is the planner's count with
    no offset.
   */
  function SingleClipCount(duration: real, clipDuration: real, hop: real): (n: nat)
    requires hop != 0.0
    ensures hop > 0.0 ==> forall idx: nat :: idx < n <==> SingleClipStart(idx, hop) + clipDuration + hop <= duration
    ensures n == NumClips(duration, clipDuration, 0.0, hop)
  {
    var q := Floor((duration - clipDuration) / hop);
    SingleClipsFit(duration, clipDuration, hop);
    if q < 0 then 0 else q
  }

  lemma SingleClipsFit(duration: real, clipDuration: real, hop: real)
    requires hop != 0.0
    ensures hop > 0.0 ==> forall idx: nat ::
      idx < NumClips(duration, clipDuration, 0.0, hop) <==> SingleClipStart(idx, hop) + clipDuration + hop <= duration
  {
    if hop > 0.0 {
      forall idx: nat
        ensures idx < NumClips(duration, clipDuration, 0.0, hop) <==> SingleClipStart(idx, hop) + clipDuration + hop <= duration
      {
        NumClipsCharacterization(duration, Clipping(clipDuration, hop, 0.0, 0.0), idx);
      }
    }
  }

  /** `SingleClipDataset.__getitem__`: the start of clip `idx`. */
  function SingleClipStart(idx: nat, hop: real): real {
    idx as real * hop
  }
}
