# Sound-event clip pipeline, in Dafny

This project models the path from annotation tables to training clips in the
sound-event detection dataset (`source/data/data.py`). It also models the
detector-box variant of that dataset (`model_comparisons/dataloaders.py`). The
model covers:

- **selection tables**: rows `(begin, end, annotation)` are filtered through
  the label mapping and stored as intervals with a class index, or `-1` for
  the unknown label (`SelectionTable`);
- **clip planning**: the fixed-hop clip windows of each recording. Empty
  windows are subsampled with the dataset's random draws, and the clip count
  and starts of the single-recording inference dataset are modelled too
  (`ClipPlanner`);
- **the overlap query**: intervals meeting a window are clipped to it and
  re-based to its start (`SelectionTable.GetPosIntervals`);
- **target encoding**: the anchor, regression and class targets on the
  prediction frame grid (`Annotation`);
- **`crop_and_pad`**: truncation, then reflect padding (`Waveform`);
- **the dataset**: the constructor's argument checks and clip start offset,
  the per-file table dictionary, the metadata over a whole corpus, class
  proportions, and one sample fetch once the audio is decoded (`Dataset`);
- **the box variant**: tables with a frequency band, the same query with the
  band carried through, and nearest-grid-index boxes (`Boxes`).

Seconds, sample values and frequencies are Dafny `real`s. They are exact, so
the model idealises Python's floats. Sample and frame counts are `int`s.

Python exceptions are `Err` values of `Common.Result`, with one `Common.Error`
constructor per cause. Examples are a mapped label missing from the label
set, a zero hop, a write outside the target arrays, and reflect padding too
long for its input.

Randomness is explicit:

- The training clip start offset is the input `offsetDraw`. It stands for
  `rng.integers(0, floor(hop*sr))`.
- The uniform draws are a stream `draws: nat -> real`. Only empty windows
  consume them, in order, across all recordings.

The Gaussian bump of `get_anchor_anno` is a parameter `bump(startIdx,
durSamples, seqLen)`. `Annotation.ValidBump` states what the real bump
provides: the right length always, and for a positive duration values in
`[0, 1]` with a peak of 1 at the start frame. A duration of zero frames, which
happens exactly when `anno_sr` is 0, gives a bump of width zero whose start
value is `0/0`; the model constrains only its length.

The interval tree is a sequence without duplicates. Identical
`(begin, end, data)` triples collapse into one. Its slice query keeps the
intervals with `begin < qEnd && end > qStart`, and returns nothing for an
empty or reversed window.

Consequences of the code worth knowing:

- **Ten seconds, four-second clips, a two-second hop.** The clip count
  `floor((10 - 4 - 0) / 2)` gives three windows: `[0,4)`, `[2,6)` and `[4,8)`
  (`ClipPlanner.TenSecondExample`).
  - An event at `[1, 2)` meets only the first of them, because the overlap
    test is half-open (`ClipPlanner.EventInFirstWindowOnly`).
  - No window ever reaches the recording's end: window `tt` exists only when
    one more hop after it still fits (`ClipPlanner.NumClipsCharacterization`).
- **Unlisted labels.** A mapped label that is neither the unknown label nor
  in `label_set` raises from `label_set.index` at `source/data/data.py:96`
  (`SelectionTable.Classify`, `Common.Error.LabelNotInSet`).
- **Clip start offset.** The offset is a whole number of samples: an integer
  `k` with `0 <= k < floor(hop*sr)`, used as `k / sr`.
- **Colliding class writes.** A known class written after an unknown one at
  the same frame sets one cell and keeps the uniform values elsewhere. So the
  row is not a one-hot row (`Annotation.CollidingClassWrites`).

## Model

| member | source | states |
|---|---|---|
| SelectionTable.IndexOf | source/data/data.py:96 | `label_set.index`: the position returned holds the label and no earlier position does; there is none exactly when the label is absent |
| SelectionTable.Classify | source/data/data.py:85-96 | a row is stored iff it has positive length, its label is a mapping key, and the mapped label is the unknown label or in the label set; it fails iff the mapped label is neither; the class is -1 iff the mapped label is the unknown label, else the first index of the mapped label |
| SelectionTable.ProcessSelectionTable | source/data/data.py:76-99 | the table loads iff no row fails, and a failure is that of the first failing row; the tree holds exactly the intervals built from stored rows, without duplicates, each with positive length and a class in `[-1, nClasses)` |
| SelectionTable.Query | source/data/data.py:120 | `tree[start:end]` holds exactly the stored intervals meeting the half-open window, and nothing for an empty window |
| SelectionTable.GetPosIntervals | source/data/data.py:131-137 | one entry per stored interval meeting the window, in the query's order, that interval clipped and re-based, even when two entries come out equal; the set of entries is exactly the clipped images of the stored intervals meeting the window; each lies in `[0, end-start]` with positive length and keeps a stored class |
| SelectionTable.PosIntervalsWellFormed | source/data/data.py:134-135 | clipping keeps the tree invariant: positive length and a class in `[-1, nClasses)` |
| SelectionTable.ContainedIntervalUnclipped | source/data/data.py:135 | an interval inside the window keeps its offsets from the window start |
| ClipPlanner.NumClipsCharacterization | source/data/data.py:114 | window `tt` exists iff it ends at least one hop before the recording's end, so no window reaches the end |
| ClipPlanner.NoClipsIffShort | source/data/data.py:114 | there are no windows iff the recording is shorter than clip + offset + hop |
| ClipPlanner.TenSecondExample | source/data/data.py:114-118 | 10 s, 4 s clips and a 2 s hop give exactly the windows `[0,4)`, `[2,6)` and `[4,8)` |
| ClipPlanner.EventInFirstWindowOnly | source/data/data.py:117-120 | in that corpus an event at `[1,2)` meets window 0 and no later window |
| ClipPlanner.PlanRecording | source/data/data.py:114-126 | the windows are exactly the kept windows `KeptWindows` in increasing `tt`, each `[tt*hop+offset, +clipDuration)` naming the recording, with strictly increasing starts for a positive hop; `tt` is kept iff it is non-empty or its draw is not below the omission probability; non-empty windows are always kept; with probability 0 every window is kept; the generator advances by the number of empty windows |
| ClipPlanner.KeptWindowsMembers | source/data/data.py:116-126 | a window is among a recording's kept windows iff it is window `tt` below the clip count and `tt` is non-empty or its draw is not below the omission probability |
| ClipPlanner.WindowsInOrder | source/data/data.py:116-119 | windows listed in increasing `tt` each last one clip duration and name the recording, and for a positive hop each starts strictly after the one before |
| ClipPlanner.ScanWindows | source/data/data.py:116-126 | the loop keeps a window iff it is non-empty or its own draw, the one after those of earlier empty windows, is not below the omission probability |
| ClipPlanner.SingleClipCount | source/data/data.py:239 | for a positive hop, clip `idx` of the inference dataset exists iff it ends at least one hop before the recording's end; the count equals the planner's with no offset |
| Annotation.SeqLenBounds | source/data/data.py:159-160 | `seqLen` frames of `scale` samples reach the end of the audio, and dropping the last frame would not |
| Annotation.GridBounds | source/data/data.py:160-164 | `seqLen` frames of `scale` samples cover the audio with less than one frame to spare; `annoSr` is the floor of `sr/scale` |
| Annotation.StartFrame | source/data/data.py:174-175 | the start frame is the floor of `start*annoSr` when that is a frame, else clamped to the first or last frame; it is always a valid index when there are frames |
| Annotation.GetAnnotation | source/data/data.py:157-190 | fails iff an interval meets an empty frame grid (index error), an interval meets an empty label set (division by zero), or a bump row has the wrong length (stacking error), in that order; otherwise regression holds the duration of the last interval starting at a frame and 0 elsewhere; a class cell holds 1 or `1/nClasses` from its last writer and 0 if none; the anchor is the elementwise max of 0 and the bumps; everything is 0 with no intervals |
| Annotation.PositiveDuration | source/data/data.py:172-176 | an interval of positive length spans at least one frame at a positive frame rate |
| Annotation.AnchorPeak | source/data/data.py:187-188 | at a positive frame rate and for intervals of positive length, the anchor lies in `[0,1]` and is 1 at every start frame, given the Gaussian bump's guarantees |
| Annotation.CollidingClassWrites | source/data/data.py:182-185 | unknown after class 2 leaves a uniform row; class 2 after unknown gives `[1/4, 1/4, 1, 1/4]` |
| Waveform.CropAndPad | source/data/data.py:20-28 | the intended `crop_and_pad`: the output has `int(sr*dur)` samples, starts with the input and continues with it mirrored about its last sample; padding fails iff the shortfall is at least the input length; a negative target slices from the end |
| Waveform.ReflectPad | source/data/data.py:24-26 | reflect padding fails iff the padding is at least the input length, else it mirrors without repeating the edge sample |
| Waveform.ReflectExample | source/data/data.py:20-28 | `[s0,s1,s2]` forced to 5 samples is `[s0,s1,s2,s1,s0]` |
| Waveform.CropAndPadIdempotent | source/data/data.py:20-28 | a clip already forced to length comes back unchanged |
| Waveform.CropAndPadAsWritten | source/data/data.py:20-28 | as written, `crop_and_pad` raises iff the clip is shorter than the target, since the one-dimensional clip cannot be reflect padded; when it only crops it agrees with the intended version |
| Waveform.AsWrittenPadRaises | source/data/data.py:24-26 | three samples with a target of five: the call as written raises, the intended one pads |
| Dataset.Put | source/data/data.py:112 | after `d[fn] = tree`, `fn` maps to the new tree and every other name keeps its tree |
| Dataset.LoadRecording | source/data/data.py:110-126 | one recording fails iff its table fails or the hop is 0, with that error; otherwise the tree is the processed table, the windows are exactly its kept windows in increasing `tt` (a window appears iff it is window `tt` below the clip count and kept under its own draw), their starts strictly increase for a positive hop, each lasts one clip duration and names the recording, and the generator moves past one draw per empty window |
| Dataset.LoadCorpus | source/data/data.py:101-129 | the corpus fails iff some table fails or the hop is 0, and then with the error of the first recording that fails (its table error before the zero hop); the dictionary holds each name once, and each entry is the name and table of the last recording with that name; the metadata is each recording's kept windows in manifest order, each recording judged with the draws left after the empty windows of the recordings before it; every window is window `tt` of some recording below its clip count; with no omission the window count is the sum of the clip counts |
| Dataset.RecordingError | source/data/data.py:111-114 | one recording raises iff its table fails or the hop is 0 |
| Dataset.ErrorFromSome | source/data/data.py:105-114 | the recordings from a point on raise iff one of them raises |
| Dataset.ErrorFromFirst | source/data/data.py:105-114 | when they raise, it is with the error of the first recording that raises, every earlier one having gone through |
| Dataset.CorpusWindowsMembers | source/data/data.py:105-127 | a window is in the corpus metadata iff it is window `tt` below the clip count of some recording and is kept under the draws left for that recording |
| Dataset.PutKeepsKeysUnique | source/data/data.py:112 | assigning into the dictionary keeps each name once, and afterwards every entry is the new one or an earlier entry under another name |
| Dataset.MakeDataset | source/data/data.py:31-66 | the argument checks come first, in source order; training draws the offset from `[0, floor(hop*sr))` samples and keeps the omission probability, evaluation uses 0 for both; then the corpus error of the first recording that fails, and otherwise the corpus facts above with the windows placed at the chosen offset: the metadata is the reference plan under that offset and omission probability, every window is window `tt` of some recording at that offset, and the dictionary holds each name once with its last recording's table |
| Dataset.GetItem | source/data/data.py:192-206 | a fetch fails iff the intended `crop_and_pad` raises (padding at least as long as the clip) or `get_annotation` raises on the returned clip (no frames with intervals, no classes with intervals, a bump of the wrong length), with that exception; otherwise the audio is the prepared clip and the targets meet the encoder's specification for the window's clipped intervals on that clip's grid |
| Dataset.CountClasses | source/data/data.py:140-149 | each class count is the number of stored intervals of that class over all tables |
| Dataset.ClassSumIsKnown | source/data/data.py:144-151 | the class counts add up to the number of stored intervals of known class |
| Dataset.GetClassProportions | source/data/data.py:139-154 | with an empty label set the result is empty; otherwise there is no result iff there is no known-class interval, and else each proportion is that class's count over the known count, lies in `[0,1]`, and they sum to 1 |
| Boxes.ProcessBoxTableAsWritten | model_comparisons/dataloaders.py:52-77 | as written, a table loads iff every row is dropped, and then it is empty; otherwise it fails at the first row not dropped |
| Boxes.AsWrittenRejectsOneCall | model_comparisons/dataloaders.py:75 | one valid call annotation makes the table as written fail, while the intended builder stores it |
| Boxes.AsWrittenLoadsOnlyEmptyTables | model_comparisons/dataloaders.py:63-75 | the table as written loads iff the intended builder stores nothing |
| Boxes.ProcessBoxTable | model_comparisons/dataloaders.py:56-75 | the intended table loads iff no row fails; it holds exactly the box intervals built from stored rows with their bands, without duplicates, each well formed |
| Boxes.BoxTableMatchesBase | model_comparisons/dataloaders.py:63-74 | with the bands dropped, the box table fails on the same tables as the base table and stores the same intervals |
| Boxes.GetBoxPosIntervals | model_comparisons/dataloaders.py:79-85 | one entry per stored interval meeting the window, in the query's order, that interval clipped and re-based with band and class unchanged; every stored interval meeting the window appears; each lies in `[0, end-start]` with positive length |
| Boxes.GetBoxPosIntervalsAsWritten | model_comparisons/dataloaders.py:79-85 | as written, the query raises iff the window meets a stored interval, because intervals have no `bottom` or `top`; otherwise it returns the empty result the intended query gives |
| Boxes.AsWrittenQueryRaises | model_comparisons/dataloaders.py:83 | a window over the one stored call annotation: the query as written raises, the intended query returns the annotation with its band |
| Boxes.RebaseBox | model_comparisons/dataloaders.py:83 | clipping a box interval clips its time part as the base query does and leaves band and class unchanged |
| Boxes.BoxPosMatchesBase | model_comparisons/dataloaders.py:82-83 | with the bands dropped, the box query returns the base query's result position by position |
| Boxes.NearestIndex | model_comparisons/dataloaders.py:91 | `argmin(abs(x - grid))` is a closest grid point and the first of the closest |
| Boxes.FirstNearestUnique | model_comparisons/dataloaders.py:91 | there is only one first closest grid point |
| Boxes.TimeGrid | model_comparisons/dataloaders.py:49 | the time grid is `i*hop_length` and strictly increasing for a positive hop |
| Boxes.NearestMonotone | model_comparisons/dataloaders.py:91 | on an increasing grid the nearest index never decreases as the value grows |
| Boxes.ConvertIntervalsToBoxes | model_comparisons/dataloaders.py:87-93 | one box per interval, in order, each bound the first nearest index on its grid; an empty grid fails iff there are intervals |
| Boxes.BoxesOrderedInTime | model_comparisons/dataloaders.py:89-92 | with a positive hop a box never starts after it stops in time |
| Boxes.BoxesOrderedInFrequency | model_comparisons/dataloaders.py:90-92 | on an increasing frequency grid a band that is not inverted gives `fstart <= fstop` |

## Left out

- Audio decoding, durations and resampling are inputs. This covers `librosa.load`, `librosa.get_duration` and `torchaudio` resampling. Reading the CSV and tab-separated tables with pandas is also left out: rows come as sequences.
- Mean removal, `augment_amplitude` and `normalize_sig_np` are floating-point sample arithmetic. A fetch receives the decoded window after them.
- The exponential values of `get_anchor_anno` are left out: the bump is a parameter constrained by `Annotation.ValidBump`.
- `get_unknown_mask` is never called.
- The mel spectrogram, `spectrogram_to_image` and `get_torch_mel_frequencies` are left out. The frequency grid is an input sequence.
- `DetectronDataset.__getitem__` is detectron2 record assembly. Its `pos_intervals[:, -1]` indexes a list with a tuple.
- The data-loader builders and `SoundEventTrainer` are framework plumbing.
- The seed and `random_seed_shift` are not modelled. The generator is replaced by explicit draws.
- Float rounding, NaN and infinities are not modelled. Comparisons, floors and divisions are exact.
- The interval tree's internals and the order of its query results are left out. The model uses insertion order, and the encoder's contract is stated for any order.
- Annotation.GetAnnotation: requires a positive scale factor. A zero factor would raise from the division, and a negative one gives a negative `seq_len`, on which `np.zeros` raises.
  - It also requires every class to be -1 or below the class count. That holds for every tree the table builder makes (`SelectionTable.ProcessSelectionTable`).
- Annotation.AnchorPeak: requires a positive frame rate and intervals of positive length. When `anno_sr` is 0 every duration is 0 frames, and the source's anchor holds not-a-number at each start frame, which the model does not represent.
- ClipPlanner.NumClipsCharacterization: is stated for a positive hop only. A negative hop counts windows backwards in the source.
- ClipPlanner.PlanRecording: requires a non-zero hop. A zero hop raises from the floor division, which the callers (`Dataset.LoadRecording`) report as `ZeroHop`.
- ClipPlanner.SingleClipCount: requires a non-zero hop. A zero hop raises from the floor division in the inference dataset.
- Dataset.MakeDataset: requires the offset draw to lie in the range the generator draws from.
- Dataset.GetItem: requires a metadata index in range.
  - It also requires the window's recording to have a stored tree, and the stored trees to be well formed. `Dataset.MakeDataset` guarantees both for every window it produces.
- Dataset.GetItem: prepares the audio with the intended `crop_and_pad` (`Waveform.CropAndPad`). As written, a resampled clip shorter than the target raises (see Findings, `source/data/data.py:24-26`), which the fetch does not reproduce.
- Dataset.GetClassProportions: answers `None` where numpy returns not-a-number proportions, that is with classes but no interval of known class. With an empty label set it returns the empty array numpy returns, so its sum-to-one clause is stated for a non-empty label set only.
  - It requires well-formed tables, as the constructor produces them. An out-of-range class would raise in the source.

## Findings

| source | as written | input that shows it | evidently intended | confidence | as-written member | corrected member |
|---|---|---|---|---|---|---|
| model_comparisons/dataloaders.py:75 | `tree.addi(start, end, bottom, top, label_idx)` passes five values to the interval tree's `addi(begin, end, data=None)`, which raises `TypeError` | a table with one row `0.0, 1.0, 100, 200, "call"`, where `"call"` is mapped and in the label set | store the band and the class as the interval's data, `addi(start, end, (bottom, top, label_idx))`; line 83 must then read the band back from `iv.data` (next row) | high, not executed; it rests on the published signature of `IntervalTree.addi` | Boxes.ProcessBoxTableAsWritten | Boxes.ProcessBoxTable |
| model_comparisons/dataloaders.py:83 | `get_pos_intervals` reads `iv.bottom` and `iv.top`, but an interval of the tree has only `begin`, `end` and `data`, so any window that meets a stored interval raises `AttributeError`, even once line 75 stores the band in `data` | the tree holding `(0.0, 1.0)` with band `(100, 200)` and class 0, queried over `[0, 4)` | read the band and the class from `iv.data` and return `(begin', end', bottom, top, class)` | high, not executed; it rests on the published fields of the interval tree's `Interval` | Boxes.GetBoxPosIntervalsAsWritten | Boxes.GetBoxPosIntervals |
| source/data/data.py:24-26 | `F.pad(wav, (0, pad), mode='reflect')` receives the one-dimensional resampled clip, and torch implements reflect padding only for inputs of two or more dimensions, so every clip shorter than `int(sr*dur)` raises | a file whose rate differs from `sr`, resampled to three samples with a target of five | reflect padding of the single channel, e.g. `F.pad(wav[None], (0, pad), mode='reflect')[0]` | medium, not executed; it rests on torch's documented input shapes for reflect padding, which some versions may relax | Waveform.CropAndPadAsWritten | Waveform.CropAndPad |
