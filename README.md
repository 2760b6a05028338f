# Batching and windowing for the tf-kaldi trainers

This project is a Dafny model of the data-shaping core of tf-kaldi, a set of
TensorFlow acoustic-model and speaker-embedding trainers that read their
data from Kaldi. The core has three parts:

- **The frame batcher** (`FrameData`, from `frame_data_generator.py`).
  - It keeps a flat buffer of spliced feature rows and their frame labels, with a read cursor (`batch_pointer`).
  - When the unread rows cannot fill a batch, it appends the next split of the data set to the unread rows and shuffles the whole buffer with one permutation.
  - It serves `batch_size` rows at a time.
  - It stops at the end of the data set or, in loop mode, cycles through the splits.
- **The bucketed utterance batcher** (`JointData`, from `joint_data_generator.py`).
  - `pack_utt_data` cuts every utterance of a split into windows of one bucket length with a sliding stride, with zero-padded tails and 0/1 masks.
  - The windows replace the buffer, shuffled window by window.
  - The batcher serves `batch_size` windows at a time.
  - It keeps a monotonic split counter and a cyclic split-file counter. `has_data` and `reset_batch` decide when an epoch ends.
- **The inference window arithmetic of the trainer** (`Trainer`, from `nnet_trainer.py`).
  - `patch_to_batches`, `pack_utterance` (overlapping windows with pick ranges), `pack_utterance_jointdnn` (disjoint tiles), `get_bucket_id`, and the window placement of `gen_utt_embedding`.
  - The batch loops of `predict_dnn`, `predict_lstm` and `predict_jointdnn`, with the network as a function parameter.

`Common` holds what the three share:

- zero rows, flattening and sums;
- Python slicing;
- permutations, with the proof that applying one keeps the multiset of elements;
- the label filter applied while a split is read;
- the integer part of `save_target_counts`.

Form of the model:

- Both generators are classes. Their buffers, cursor and counters are mutable fields, and their methods state the whole new state, with one exception: when `GetBatchUtterances` or `LoadAndServe` of the utterance generator stops with an error or the end marker after it has loaded splits, the contents of the utterance buffers are not stated (the counters, the draws and the stopping point are).
- Their configuration (batch size, buckets, number of splits, the split records, the label maps and the random draws) is held in `const` fields. The predicate `Setup()` states what that configuration guarantees.
- The loops of the source are methods with loop invariants. Each is proved against a specification function, or against closed-form invariants where the loop has a simple shape:
  - the window loops of `pack_utterance`, `pack_utterance_jointdnn` and `cut_utterance` against the recursive `RealWindows`, `Tiles` and `CutUtt`;
  - the padding loops against `Fill`;
  - the loops over utterances and batches against the recursive `PackUtts`, `Labelled`, `DnnPosts`, `PickPieces`, `LstmPostsAsWritten` and `JointdnnPosts`;
  - the bucket search of `get_bucket_id` against `BucketFrom` and `BucketOf`;
  - the accumulation loop of `save_target_counts` against `CountsOf`, a comprehension over the multiset of labels;
  - the window loop of `utt_embedding` by closed-form invariants that give the offset and contents of every window.
- The loading loops of `get_batch_frames` and `get_batch_utterances` are stated against the state on entry and the number of splits loaded. `Refilled` gives the frame buffer after each load. `RefilledConserves` proves that no row or label is lost or duplicated, and `RefilledKeepsPairs` that every row stays beside its label. `SplitWindows` gives the windows a load of one split leaves in the utterance buffers. The loading methods tie the buffers to the ghost table `windows`, which `Setup()` equates with `LoadedWindows`, the same windows as a function of the configuration (`WindowsOfSplit` proves `windows(c, d) == SplitWindows(c, d)`).
- The properties the source relies on are lemmas about those functions:
  - window shapes, pick ranges and padding counts;
  - exact reassembly of an utterance from its windows;
  - batch multiples;
  - preservation of the multiset under shuffling;
  - the end-of-data protocol.

Inputs from outside the program are modelled as parameters:

- **Data files.** The Kaldi pipelines that produce a split are a given list of `(uid, rows)` records per split file. A split index with no file yields no records, and so the "No feats are loaded" error.
- **Randomness.** numpy's global random generator is given functions of a draw counter: a bucket index, and a permutation of a given length. The predicates `BucketsValid` and `ShufflesValid` require these to be in range and to be permutations.
- **The network.** It is a function from a batch to outputs.

## Model

| member | source | states |
|---|---|---|
| Common.Labelled | steps_tf/data_generator/frame_data_generator.py:127-133 | the records kept by the uid filter are exactly the records whose uid has labels, and there are no more of them than records |
| Common.LabelledAppend | steps_tf/data_generator/frame_data_generator.py:127-133 | filtering a stream piece by piece gives the pieces' filtered records in stream order |
| Common.LabelledMultiset | steps_tf/data_generator/joint_data_generator.py:127-134 | every record with a known uid is kept exactly as often as it occurs; every other record is dropped |
| Common.Permute | steps_tf/data_generator/frame_data_generator.py:163-166 | indexing a sequence by a permutation array keeps its length and puts the element at `p[i]` at position i |
| Common.PermutePreservesMultiset | steps_tf/data_generator/frame_data_generator.py:163-166 | a shuffle by a permutation of `0..n-1` neither loses nor duplicates an element |
| Common.ShuffleAppendBag | steps_tf/data_generator/frame_data_generator.py:158-166 | appending rows to a buffer and shuffling it adds exactly those rows to the multiset it holds |
| Common.Advance | steps_tf/data_generator/frame_data_generator.py:168-170 | the split counter after n loads: start + n outside loop mode; in loop mode it stays below num_split |
| Common.PySlice | steps_tf/nnet_trainer.py:451 | Python slicing clamps both bounds into the sequence and agrees with the Dafny slice on in-range bounds |
| Common.Take | steps_tf/nnet_trainer.py:546 | truncation to the first n rows (`posts[0:len(feats)]`) is a prefix of length min(n, length) |
| Common.Bincount | steps_tf/data_generator/frame_data_generator.py:201 | bincount with minlength num_targets succeeds exactly when every label is in `[0, num_targets)`, giving num_targets counts |
| Common.CountsAppend | steps_tf/data_generator/frame_data_generator.py:200-201 | the counts of two label streams added element-wise are the counts of the concatenated stream |
| Common.AllInRangeAppend | steps_tf/data_generator/frame_data_generator.py:200-201 | a concatenated stream is in range exactly when both parts are |
| Common.TargetCounts | steps_tf/data_generator/frame_data_generator.py:197-202 | the accumulation loop yields, per target, the occurrences over all alignments, and fails exactly when a label is out of range |
| Common.CountsSum | steps_tf/data_generator/frame_data_generator.py:199-201 | the counts sum to the number of label frames |
| Common.SumOnes | steps_tf/data_generator/joint_data_generator.py:175 | an all-ones mask of length n sums to n |
| Common.FlattenSameLength | steps_tf/data_generator/frame_data_generator.py:158-159 | when each utterance has as many labels as frames, the stacked rows and labels have equal length |
| FrameData.NumSplit | steps_tf/data_generator/frame_data_generator.py:74 | the split count is the ceiling of num_utts / 5000: enough splits, and one fewer would not be |
| FrameData.GetNextSplitData | steps_tf/data_generator/frame_data_generator.py:124-140 | the read loop returns the frames and labels of exactly the labelled utterances in stream order, and the error exactly when none is labelled |
| FrameData.FrameDataGenerator.constructor | steps_tf/data_generator/frame_data_generator.py:21-89 | batch size is `batch_size` (256 by default, 0 allowed) times the GPU count; num_split is NumSplit(num_utts); buffer empty; cursor, split counter and draw count 0 |
| FrameData.FrameDataGenerator.Refill | steps_tf/data_generator/frame_data_generator.py:158-170 | the new buffer is the unread tail followed by the split's rows, permuted by one shared permutation for rows and labels; its length is old length minus cursor plus new rows; cursor 0; the split counter advances, wrapping only in loop mode |
| FrameData.FrameDataGenerator.RefillOf | steps_tf/data_generator/frame_data_generator.py:158-166 | one load of a split with one draw: the unread rows then the split's rows, and the unread labels then its labels, shuffled by the same permutation; rows and labels stay parallel, unread count plus split rows long |
| FrameData.FrameDataGenerator.DrainSplit | steps_tf/data_generator/frame_data_generator.py:156-170 | one loading turn: nothing changes and the error is reported exactly when the split has no labelled utterance; the shuffle's IndexError exactly when it has some but no row is unread and the split brings none, the buffer then emptied with the cursor at 0 and the counters unchanged; otherwise the buffer is RefillOf the split and the unread rows, cursor 0, one draw used, the split counter one on (wrapping in loop mode only) |
| FrameData.FrameDataGenerator.SplitLabelsMatch | steps_tf/data_generator/frame_data_generator.py:132-133 | the kept utterances' stacked frames and labels have equal length |
| FrameData.FrameDataGenerator.LabelledHasFrames | steps_tf/data_generator/frame_data_generator.py:151-170 | in loop mode a split with a kept utterance adds at least one row, so the loading loop makes progress |
| FrameData.FrameDataGenerator.Refilled | steps_tf/data_generator/frame_data_generator.py:151-170 | the unread rows and labels after n loads of one call, each load a RefillOf the next split in counter order with the next draw; rows and labels stay parallel |
| FrameData.FrameDataGenerator.RefilledStep | steps_tf/data_generator/frame_data_generator.py:151-170 | n + 1 loads are one RefillOf from where n loads left the buffer |
| FrameData.FrameDataGenerator.NothingLoaded | steps_tf/data_generator/frame_data_generator.py:151 | with no load the unread rows are those unread before and nothing is added |
| FrameData.FrameDataGenerator.RefillConserves | steps_tf/data_generator/frame_data_generator.py:156-166 | one more load adds exactly the next split's rows and labels to the multisets of unread rows and labels |
| FrameData.FrameDataGenerator.RefilledConserves | steps_tf/data_generator/frame_data_generator.py:151-170 | after any number of loads the unread rows (labels) are, as a multiset, those unread before plus every loaded split's rows (labels): none lost or duplicated |
| FrameData.FrameDataGenerator.RefillKeepsPairs | steps_tf/data_generator/frame_data_generator.py:156-166 | one more load adds exactly the next split's (row, label) pairs to the multiset of unread pairs: rows and labels are shuffled by the same permutation |
| FrameData.FrameDataGenerator.RefilledKeepsPairs | steps_tf/data_generator/frame_data_generator.py:151-170 | after any number of loads every unread row is still beside its own label: the (row, label) pairs are those unread before plus every loaded split's, none lost, duplicated or re-paired |
| FrameData.FrameDataGenerator.LoadedSinceStep | steps_tf/data_generator/frame_data_generator.py:156-170 | a load from the state n loads reached is the state of n + 1 loads: draws + 1, the counter one split on, the buffer one refill on |
| FrameData.FrameDataGenerator.LoadStep | steps_tf/data_generator/frame_data_generator.py:151-170 | one loop turn: the end marker exactly when finite mode has read every split (has_data then false), the error when the split has no labelled utterance (both with nothing changed), the IndexError with the buffer emptied (`EmptiedBy`); the counters and the unread rows stay as the loads so far left them; otherwise the state of one more load with the cursor back at 0, and in loop mode more rows unread than before |
| FrameData.FrameDataGenerator.LoadUntilFits | steps_tf/data_generator/frame_data_generator.py:151-170 | the loading loop, entered when no more than a batch is unread and has_data is true: ends with more than a batch unread, after at least one load and with the cursor at 0, or with the end marker (has_data then false), the split-loading error or the IndexError of an emptied buffer; the unread rows and labels are exactly `Refilled` by the loads made, in counter and draw order |
| FrameData.FrameDataGenerator.ServeBatch | steps_tf/data_generator/frame_data_generator.py:172-178 | the `batch_size` rows and labels at the cursor; cursor + batch_size; last_batch_frames batch_size; buffer and counters unchanged; the batch followed by the rest is what was unread |
| FrameData.FrameDataGenerator.LoadAndServe | steps_tf/data_generator/frame_data_generator.py:151-178 | the path of get_batch_frames that must load: the end marker with nothing changed when has_data is false; the IndexError only with the buffer emptied by a split that has labelled utterances but no frame; last_batch_frames unchanged unless a batch is served; a served batch is the first `batch_size` rows and labels of the refilled buffer, cursor then batch_size, after at least one load; batch plus rest, or the unread rows when nothing is served, are exactly `Refilled` |
| FrameData.FrameDataGenerator.GetBatchFrames | steps_tf/data_generator/frame_data_generator.py:144-178 | when has_data is false on entry, the end marker with nothing changed (the marker can also follow loads in the same call, has_data then false); with more than a batch unread on entry, no load and the `batch_size` rows and labels at the cursor, buffer untouched; a served batch is the `batch_size` rows before the cursor, which moved past it from the entry cursor or from 0 after loads, with at least one row still unread; the IndexError only with the buffer emptied by a split that has labelled utterances but no frame; last_batch_frames unchanged unless a batch is served; the batch followed by the rows still unread (or those rows, when nothing is served) are exactly the rows and labels unread on entry `Refilled` by the loads made, shuffled together; as multisets nothing is lost or duplicated; draws and the split counter advance once per load |
| FrameData.FrameDataGenerator.ResetBatch | steps_tf/data_generator/frame_data_generator.py:193-194 | split_data_counter becomes 0; buffer, cursor and counts unchanged |
| JointData.Configure | steps_tf/data_generator/joint_data_generator.py:23-46 | defaults 256 times GPUs, 200 and 400; loop mode and split_per_iter are read only for "train"; the RuntimeError exactly for loop mode without split_per_iter; missing buckets become [max_length] |
| JointData.GetNextSplitData | steps_tf/data_generator/joint_data_generator.py:123-141 | the read loop keeps, in stream order, exactly the utterances with both an ASR and a speaker label; the error exactly when there are none |
| JointData.CutUtterance | steps_tf/data_generator/joint_data_generator.py:168-187 | the cutting loop of one utterance produces CutUtt: the full windows, then the padded tail when long enough |
| JointData.CutUttFullStep | steps_tf/data_generator/joint_data_generator.py:170-177 | appending one full window (slice, label slice, sid, all-ones mask) and advancing by sliding_window keeps the loop invariant |
| JointData.CutUttTailStep | steps_tf/data_generator/joint_data_generator.py:180-187 | the zero-padded tail window completes the cut when at least sliding_window frames remain |
| JointData.CutUttDropStep | steps_tf/data_generator/joint_data_generator.py:180 | with fewer than sliding_window frames left the cut is already complete: the tail is dropped |
| JointData.CutUttEmpty | steps_tf/data_generator/joint_data_generator.py:170-187 | an utterance gives no window exactly when it fits in one window and is shorter than sliding_window |
| JointData.PackUttsEmpty | steps_tf/data_generator/joint_data_generator.py:165-192 | pack_utt_data gives no window exactly when every zipped utterance fits in one window and is shorter than sliding_window |
| JointData.ZipLength | steps_tf/data_generator/joint_data_generator.py:165 | zip stops at the shorter of the feature and speaker-label lists |
| JointData.PackUttData | steps_tf/data_generator/joint_data_generator.py:144-194 | the windows of the zipped utterances, cut with the bucket's length, concatenated in order |
| JointData.CutUttShape | steps_tf/data_generator/joint_data_generator.py:170-187 | the four lists are parallel; every window, label window and mask has exactly max_length entries; every sid entry is the utterance's |
| JointData.CutUttAligned | steps_tf/data_generator/joint_data_generator.py:170-187 | the four lists of a cut are parallel |
| JointData.CutUttAt | steps_tf/data_generator/joint_data_generator.py:170-187 | window k starts at start + k*sliding_window; a full one is the frame and label slice with an all-ones mask; a tail is the last window, has at least sliding_window real frames, zero-padded frames and labels and a ones-then-zeros mask |
| JointData.CutUttFullAt | steps_tf/data_generator/joint_data_generator.py:170-177 | a window that fits entirely is the frame and label slice at its offset with an all-ones mask |
| JointData.CutUttTailAt | steps_tf/data_generator/joint_data_generator.py:180-187 | a window reaching the end is the last one and is the zero-padded tail with `len - start` ones in its mask |
| JointData.CutUttDropsShortTail | steps_tf/data_generator/joint_data_generator.py:179-180 | when the cut ends with a full window (or has none), fewer than sliding_window frames were left at the next start |
| JointData.MaskFrames | steps_tf/data_generator/joint_data_generator.py:186 | a tail mask sums to its number of real frames |
| JointData.TwelveFramesTwoWindows | steps_tf/data_generator/joint_data_generator.py:165-187 | 12 frames with max_length 5 and sliding_window 5 give exactly two full windows |
| JointData.PackUttsShape | steps_tf/data_generator/joint_data_generator.py:162-192 | the packed lists are parallel, every window, label window and mask has the bucket length, and every sid comes from the zipped speaker labels |
| JointData.PackUttsShaped | steps_tf/data_generator/joint_data_generator.py:162-192 | a packed split has the shape the generator's buffers keep |
| JointData.Shuffle | steps_tf/data_generator/joint_data_generator.py:220-225 | indexing the four packed lists by one permutation keeps them parallel and of the same length |
| JointData.ShuffleKeepsWindows | steps_tf/data_generator/joint_data_generator.py:220-225 | the shuffle keeps the multiset of windows, label windows, sids and masks |
| JointData.ShuffleShaped | steps_tf/data_generator/joint_data_generator.py:220-225 | the shuffle keeps every window at the bucket length |
| JointData.SliceShaped | steps_tf/data_generator/joint_data_generator.py:234-237 | a batch sliced from the buffers is parallel, has hi - lo windows, and keeps the bucket length |
| JointData.LoadsLeftStep | steps_tf/data_generator/joint_data_generator.py:90-97 | a load that has_data permits moves its stopping point one split closer without passing it |
| JointData.JointDataGenerator.constructor | steps_tf/data_generator/joint_data_generator.py:15-78 | the settings are kept, whatever the batch size and bucket list; num_split is the number of split files; buffers empty; cursor, both counters and draws 0; no bucket_id yet |
| JointData.JointDataGenerator.Refill | steps_tf/data_generator/joint_data_generator.py:217-232 | the four buffers are replaced by the shuffled windows with no carry-over; bucket_id set to the drawn bucket; cursor 0; split_counter + 1; split_data_counter + 1, wrapping to 0 at num_split in loop mode only |
| JointData.JointDataGenerator.PackShuffled | steps_tf/data_generator/joint_data_generator.py:213-225 | the split packed with the drawn bucket's length, shuffled by the drawn permutation, with the buffers' shape |
| JointData.JointDataGenerator.SplitLabelsMatch | steps_tf/data_generator/joint_data_generator.py:167 | each kept utterance has one ASR label per frame |
| JointData.JointDataGenerator.SplitWindows | steps_tf/data_generator/joint_data_generator.py:210-225 | the windows a split gives: its kept utterances cut for the drawn bucket's length and shuffled with the draw's permutation; every window has that length |
| JointData.JointDataGenerator.DrainSplit | steps_tf/data_generator/joint_data_generator.py:210-232 | one loading turn: the "No feats" error with nothing changed exactly when no utterance is kept; the randint error with nothing changed exactly when utterances are kept but the bucket list is empty; the shuffle's IndexError with nothing changed exactly when the kept utterances give no window for the drawn bucket (`Windowless`); otherwise the buffers are SplitWindows of the split and draw, bucket_id the drawn bucket, counters as in Refill |
| JointData.JointDataGenerator.WindowlessIffShort | steps_tf/data_generator/joint_data_generator.py:210-222 | the split loaded next raises the shuffle's IndexError exactly when each kept utterance fits in one window of the drawn bucket and is shorter than sliding_window |
| JointData.JointDataGenerator.LoadStep | steps_tf/data_generator/joint_data_generator.py:205-232 | the end marker exactly when has_data is false; the end marker and the three errors leave everything unchanged, the IndexError only for a windowless split; otherwise the buffers and bucket_id are those of the split the counter named with the next draw, the cursor 0, draws and split_counter + 1, split_data_counter one on, and has_data's stopping point closer |
| JointData.JointDataGenerator.LoadNext | steps_tf/data_generator/joint_data_generator.py:210-232 | a loop turn past the has_data check: the three loading errors with nothing changed, the IndexError only for a windowless split; otherwise the buffers and bucket_id of the split the counter named with the next draw, cursor 0, counters one on, and has_data's stopping point one split closer |
| JointData.JointDataGenerator.LoadUntilFits | steps_tf/data_generator/joint_data_generator.py:205-232 | the loading loop, entered when no batch fits and has_data is true: ends with a whole batch unread or stops (end marker with has_data false, or one of the three errors, the IndexError only for a windowless split); draws and split_counter + loads, split_data_counter advanced loads times; after a load that makes a batch fit, the buffers and bucket_id are those of the last split loaded and its draw, and the cursor is 0 |
| JointData.JointDataGenerator.ServeBatch | steps_tf/data_generator/joint_data_generator.py:234-243 | the batch is the `batch_size` windows at the cursor with the current bucket_id (the missing attribute before any load); cursor + batch_size; last_batch_utts is batch_size and last_batch_frames the mask sum; buffers and counters unchanged |
| JointData.JointDataGenerator.LoadAndServe | steps_tf/data_generator/joint_data_generator.py:205-243 | the path of get_batch_utterances that must load: a served batch comes after at least one load, is the first `batch_size` windows (cursor then batch_size) of the windows of the last split loaded and its draw; otherwise the end marker with has_data false or one of the three errors; counters advanced once per load |
| JointData.JointDataGenerator.GetBatchUtterances | steps_tf/data_generator/joint_data_generator.py:197-243 | when has_data is false on entry, the sentinel with nothing changed (the sentinel can also follow loads in the same call, has_data then false and no batch fitting); with a batch unread on entry, no load and exactly the `batch_size` windows at the entry cursor with bucket_id; any served batch is the batch_size windows before the cursor, which moved past it from the entry cursor or from 0 after loads, of the bucket length, with last_batch_utts batch_size and last_batch_frames its mask sum; after loads the buffers are SplitWindows of the last split loaded (split_data_counter advanced loads - 1 times) and its draw; draws and split_counter + loads; the missing-bucket_id case exactly for batch size 0 before any load; the three loading errors as in DrainSplit |
| JointData.JointDataGenerator.ResetBatch | steps_tf/data_generator/joint_data_generator.py:259-263 | loop mode: split_counter + 1; otherwise split_data_counter 0; buffers and cursor untouched |
| Trainer.PatchToBatches | steps_tf/nnet_trainer.py:413-420 | the result length is a multiple of batch_size, below the input length plus batch_size; the input rows come first; unchanged when already a multiple |
| Trainer.PatchToBatchesPadsZeros | steps_tf/nnet_trainer.py:417-419 | every appended row is a zero row of the feature width |
| Trainer.RowsToPad | steps_tf/nnet_trainer.py:417 | `row2pad` is between 1 and batch_size - 1 and completes a multiple |
| Trainer.PackUtterance | steps_tf/nnet_trainer.py:423-469 | the windowing and padding loops produce PackUtteranceSpec: the real windows followed by `batches2pad` empty windows |
| Trainer.CutWindows | steps_tf/nnet_trainer.py:434-454 | the window loop and the tail produce RealWindows from frame 0 with pick start 0 |
| Trainer.CutFullWindows | steps_tf/nnet_trainer.py:434-447 | the full-window loop stops at the first start from which a window reaches the last frame, and the windows it cut followed by RealWindows from there are all the real windows |
| Trainer.RealWindowsFullStep | steps_tf/nnet_trainer.py:440-447 | one full window with pick [pick_start, (ml+j)//2], then pick_start (ml-j)//2 and start + jitter, keeps the loop invariant |
| Trainer.RealWindowsTailStep | steps_tf/nnet_trainer.py:449-454 | the zero-padded tail with seq_length `len - start` and pick through `len - start` completes the real windows |
| Trainer.RealWindowsAt | steps_tf/nnet_trainer.py:438-454 | window i starts at i*jitter; non-tail windows are full slices with seq_length max_length and pick [first? 0 : (ml-j)//2, (ml+j)//2]; the tail holds the rest then zeros, with seq_length and pick end `len - start` |
| Trainer.RealWindowsFullAt | steps_tf/nnet_trainer.py:440-447 | a non-last window i is the full slice at start + i*jitter with seq_length max_length and its pick range |
| Trainer.RealWindowsTailAt | steps_tf/nnet_trainer.py:449-454 | the last window starts where a full window would reach the end and holds the remaining frames then `num_zero` zero rows |
| Trainer.RealWindowsAligned | steps_tf/nnet_trainer.py:440-454 | the three lists are parallel and there is at least one window |
| Trainer.RealWindowsFull | steps_tf/nnet_trainer.py:440-451 | with jitter at most max_length, every real window has exactly max_length rows |
| Trainer.PaddedShape | steps_tf/nnet_trainer.py:458-464 | appending padding keeps the real windows as a prefix; every padding window is the zero window with seq_length 0 and pick [0, 0] |
| Trainer.PackUtteranceShape | steps_tf/nnet_trainer.py:458-464 | the window count is a multiple of batch_size and 1 to batch_size above the real count; padding windows are zero, seq_length 0, pick [0, 0]; all windows have max_length rows when jitter is at most max_length |
| Trainer.PackUtteranceBatches | steps_tf/nnet_trainer.py:458-464 | pack_utterance yields at least one whole batch and a multiple of batch_size windows |
| Trainer.RealWindowsStitch | steps_tf/nnet_trainer.py:438-454 | concatenating each real window's picked rows gives exactly the frames from the first pick on: the picks are contiguous and cover each frame once |
| Trainer.MiddleStitch | steps_tf/nnet_trainer.py:440-447 | a full window's pick ends where the next window's pick starts |
| Trainer.StitchWindow | steps_tf/nnet_trainer.py:444 | a full window's picked rows followed by the frames after its pick end are the frames from its pick start |
| Trainer.WindowPiece | steps_tf/nnet_trainer.py:444 | a window's picked rows are the frames between its absolute pick bounds |
| Trainer.TailStitch | steps_tf/nnet_trainer.py:449-454 | the tail's picked rows are exactly the remaining frames, never its zero rows |
| Trainer.PackUtteranceReassembles | steps_tf/nnet_trainer.py:438-464 | stitching the picks of all windows, padding included, gives back exactly the utterance |
| Trainer.PackUtteranceJointdnn | steps_tf/nnet_trainer.py:472-501 | the tiling and padding loops produce the disjoint tiles followed by 1 to batch_size zero windows |
| Trainer.TilesCover | steps_tf/nnet_trainer.py:483-490 | the utterance is a prefix of the concatenated tiles |
| Trainer.TilesFull | steps_tf/nnet_trainer.py:483-490 | every tile has exactly max_length rows (num_zero is never negative) |
| Trainer.PackUtteranceJointdnnBatches | steps_tf/nnet_trainer.py:493-497 | the window count is a non-zero multiple of batch_size |
| Trainer.PackUtteranceJointdnnWidths | steps_tf/nnet_trainer.py:488-497 | every window, padding included, has max_length rows |
| Trainer.PackUtteranceJointdnnCovers | steps_tf/nnet_trainer.py:483-497 | truncating the concatenated windows to the utterance length gives back the utterance |
| Trainer.PackUtteranceJointdnnShape | steps_tf/nnet_trainer.py:483-499 | the three above together |
| Trainer.DnnBatch | steps_tf/nnet_trainer.py:527-542 | one batch: a full slice, or the patched rest for the last batch, through the network, appended |
| Trainer.DnnPadded | steps_tf/nnet_trainer.py:526-532 | the rows given to the network for one batch number exactly batch_size, for the last, patched batch too |
| Trainer.DnnPaddedFrames | steps_tf/nnet_trainer.py:526-532 | those rows begin with the batch's frames: all batch_size of them for a full batch, the remaining ones for the last |
| Trainer.DnnPostsBatches | steps_tf/nnet_trainer.py:524-544 | with a row-preserving network, predict_dnn stacks exactly ceil(len/batch_size) batches of batch_size outputs each |
| Trainer.PredictDnn | steps_tf/nnet_trainer.py:518-546 | the outputs of ceil(len/batch_size) batches, each a full slice or the patched rest, truncated to len(feats) |
| Trainer.DnnPostsIdentity | steps_tf/nnet_trainer.py:526-546 | with the identity network the frames are a prefix of the batched outputs |
| Trainer.PredictDnnIdentity | steps_tf/nnet_trainer.py:518-546 | with the identity network predict_dnn returns its input |
| Trainer.DnnPostsLength | steps_tf/nnet_trainer.py:526-542 | a row-preserving network yields at least one output per frame |
| Trainer.PredictDnnLength | steps_tf/nnet_trainer.py:546 | a row-preserving network yields exactly len(feats) outputs |
| Trainer.StitchBatch | steps_tf/nnet_trainer.py:606-609 | the inner loop appends the picked rows of each batch output with the first batch_size pick ranges, skipping empty ranges |
| Trainer.LstmAsWrittenStep | steps_tf/nnet_trainer.py:592-609 | the batch loop's output is the current batch's stitched rows followed by the rest |
| Trainer.LstmLoopStep | steps_tf/nnet_trainer.py:592-609 | one batch keeps the loop invariant of the batch loop |
| Trainer.LstmBatch | steps_tf/nnet_trainer.py:593-609 | batch i is windows and seq_lengths `[i*bs, (i+1)*bs)` through the network, stitched |
| Trainer.LstmBatches | steps_tf/nnet_trainer.py:589-611 | the batch loop returns LstmPostsAsWritten |
| Trainer.LstmStitchedAll | steps_tf/nnet_trainer.py:592-611 | at the end of the windows the accumulated output is the whole result |
| Trainer.PredictLstm | steps_tf/nnet_trainer.py:577-613 | pack_utterance's windows (a non-zero multiple of batch_size), batched, stitched as written and truncated to len(feats) |
| Trainer.LstmPostsIdentity | steps_tf/nnet_trainer.py:606-609 | with the identity network and each window's own pick, batching changes nothing: the result is the stitched picks |
| Trainer.LstmPostsReassemble | steps_tf/nnet_trainer.py:606-609 | with each window's own pick range (`post_pick[batch_start + piece]`) the identity network gives back the utterance for any number of batches |
| Trainer.LstmAsWrittenFirstBatch | steps_tf/nnet_trainer.py:606-609 | the first batch's stitch is a prefix of the as-written output |
| Trainer.FirstBatchPieces | steps_tf/nnet_trainer.py:606-609 | when all later picks are [0, 0], the first batch's picks give the whole stitch |
| Trainer.LstmAsWrittenSingleBatch | steps_tf/nnet_trainer.py:577-613 | with no more real windows than batch_size, predict_lstm as written with the identity network returns the utterance |
| Trainer.SixFramesPacking | steps_tf/nnet_trainer.py:423-469 | six frames, max_length 4, jitter 2, batch_size 1 pack into two real windows and one padding window with picks [0,3], [1,4], [0,0] |
| Trainer.StitchFirstPick | steps_tf/nnet_trainer.py:606-609 | with batch_size 1 every batch reuses pick [0, 3]: the output is the first three rows of every window |
| Trainer.SixFramesWindowsStitched | steps_tf/nnet_trainer.py:606-609 | the as-written stitch of the six-frame windows, written out |
| Trainer.SixFramesStitched | steps_tf/nnet_trainer.py:577-613 | predict_lstm as written on six frames returns rows 0-2 then 2-4 |
| Trainer.PredictLstmCounterexample | steps_tf/nnet_trainer.py:606-609 | that output repeats frame 2 at position 3 and differs from the input |
| Trainer.JointdnnStep | steps_tf/nnet_trainer.py:631-645 | the output of the batches from batch_start on is the current batch's stacked outputs followed by the rest |
| Trainer.JointdnnBatch | steps_tf/nnet_trainer.py:632-645 | one batch of windows through the network, stacked and appended, keeps the loop invariant |
| Trainer.PredictJointdnn | steps_tf/nnet_trainer.py:616-649 | pack_utterance_jointdnn with the first training bucket's length, batched, stacked and truncated to len(feats) |
| Trainer.JointdnnPostsIdentity | steps_tf/nnet_trainer.py:631-647 | with the identity network the result is the concatenated windows |
| Trainer.PredictJointdnnIdentity | steps_tf/nnet_trainer.py:616-649 | with the identity network predict_jointdnn returns its input |
| Trainer.GetBucketId | steps_tf/nnet_trainer.py:666-671 | an index into the buckets (0 when there are none); every earlier bucket is smaller than length; a non-last result holds length; the loop's result is `BucketOf`, the same search written recursively |
| Trainer.UttEmbeddingWindows | steps_tf/nnet_trainer.py:674-708 | the chosen bucket is `BucketOf`, as in get_bucket_id, and only it must be positive. There are len // b disjoint full windows with all-ones masks, plus one more when frames remain. That window starts at max(0, len - b), is zero-padded, and its mask is ones for the real rows then zeros |

## Left out

- Kaldi pipelines, temporary files and `feat-to-dim` are not modelled. They are replaced by the given per-split records and a row type without a fixed width.
- numpy's global random generator is not modelled. It is replaced by the given bucket and permutation draws, indexed by a draw counter. The model uses one draw index per load for both the bucket and the shuffle.
- TensorFlow sessions, `read`/`write`/`init_nnet`, the `arch` dispatch and `no_softmax` are left out. The network is a function parameter.
- `set_gpu`, `iter_data_single`/`iter_data_joint` and `gen_bn_feats` are left out. They are GPU polling, floating-point logging, and a method that cannot run because it has no `feats` parameter.
- Trainer.UttEmbeddingWindows: the floating-point averaging of the embeddings is left out. The method states only which windows and masks go to the network. It requires a non-empty bucket list and a positive length for the bucket get_bucket_id chooses (other buckets may be anything). Otherwise the source indexes an empty list, never leaves its loop (length 0) or fails in `np.ones` (negative length).
- Trainer.UttEmbeddingWindows: it requires a non-empty utterance. With no frames no window is built, and the source raises TypeError on `embedding_acc[0]` (`nnet_trainer.py:710`).
- Common.TargetCounts: the `+ 0.5` smoothing and the `savetxt` formatting are left out. It takes the label alignments as a list, which covers the frame and joint versions (`joint_data_generator.py:268-275` is the same code).
- Common.Bincount: numpy raises on a negative label but grows the array for a label at or above num_targets, which then fails the in-place add. Both cases are the same error here.
- FrameData.NumSplit: the source computes the ceiling in floating point; the model uses exact integer ceiling division.
- FrameData.FrameDataGenerator.constructor: the model takes the split files as given. Their number must equal NumSplit(num_utts), which is what `split_scp.pl` produces. It also requires every label list to match its utterance's frame count. Otherwise the source's stacked rows and labels fall out of step. The shuffle permutation has the length of the rows (`frame_data_generator.py:163-166`): labels shorter than the rows make `self.y[randomInd]` raise IndexError, and labels longer than the rows are silently cut to the rows' count and paired with the wrong rows.
- FrameData.FrameDataGenerator.constructor: in loop mode it requires every labelled utterance to have a frame (`FramesInEveryUtt`), so that each load adds rows, which is what the loading loop's termination argument counts. The source's loop also ends without this: a later split adds rows, or the shuffle of an emptied buffer raises IndexError. Loop-mode data with a labelled utterance of no frames is therefore not covered.
- FrameData.FrameDataGenerator.DrainSplit: the IndexError of indexing with `numpy.array(range(0))`, a float64 array (`frame_data_generator.py:163-165`), follows numpy 1.12 and later, which refuse float index arrays. Older numpy only warned and left the buffer empty. The model's draw counter does not move, since shuffling an empty array draws nothing.
- JointData.JointDataGenerator.DrainSplit: the same IndexError (`joint_data_generator.py:220-222`), for numpy 1.12 and later. The source has already drawn a bucket and set `self.bucket_id` to it (`joint_data_generator.py:213-217`) when it raises. The model reports the error with the generator unchanged, which keeps bucket_id the bucket of the windows still in the buffers.
- JointData.JointDataGenerator.constructor: it takes the derived Settings from Configure. It requires `sliding_window > 0`, `split_per_iter > 0` in loop mode, and every ASR label list to match its utterance's frame count. The source asserts the last one at `joint_data_generator.py:167`. With `sliding_window` 0 `pack_utt_data` never leaves its loop on an utterance longer than the bucket, and with `split_per_iter` 0 `has_data` divides by zero.
- JointData.JointDataGenerator.GetBatchUtterances: a batch served before any load (possible only with batch size 0) is the BucketUnset result, where the source raises AttributeError on `self.bucket_id`.
- JointData.JointDataGenerator.GetBatchUtterances: when the call stops with the sentinel or an error after it has loaded splits, the contract gives the counters but not the content of the buffers, which the source throws away or never returns.
- JointData.JointDataGenerator.LoadAndServe: the same as the line above.
- JointData.Packed: masks are integer 0/1 lists, not float32 arrays, so `last_batch_frames` is an integer sum.
- Trainer.PackUtterance: it requires max_length > 0; the source turns a falsy max_length into None and fails. It also requires `jitter_window > 0` unless a single window covers the utterance; otherwise the source loops forever (`PackTerminates`).
- Trainer.PackUtterance: it requires a non-empty utterance and batch_size > 0. The source raises IndexError on `feats[0]` (`nnet_trainer.py:450`) and ZeroDivisionError on `% batch_size` (`nnet_trainer.py:458`).
- Trainer.PackUtteranceJointdnn: it requires a non-empty utterance, max_length > 0 and batch_size > 0. The source raises IndexError on `feats[0]` (`nnet_trainer.py:489`), loops forever with max_length 0, and raises ZeroDivisionError on `% self.batch_size` (`nnet_trainer.py:493`).
- Trainer.PatchToBatches: it requires batch_size > 0; the source raises ZeroDivisionError on `% self.batch_size` (`nnet_trainer.py:415`).
- Trainer.PredictDnn: it requires a non-empty utterance and batch_size > 0. With no frames there are no batches and `np.vstack([])` raises ValueError (`nnet_trainer.py:544`); batch size 0 raises ZeroDivisionError (`nnet_trainer.py:526`).
- Trainer.PredictLstm: it requires a non-empty utterance, batch_size > 0, max_length > 0 and `PackTerminates`, the error and non-terminating cases of `pack_utterance` that it calls first (see Trainer.PackUtterance). It also requires the network to return one output per window of a batch (`KeepsBatch`), which the stitching loop indexes by `piece`.
- Trainer.PredictLstm: `num_batches = len(feats_packed) / batch_size` (`nnet_trainer.py:591`) is read as Python 2 integer division, exact after the assert before it. Under Python 3 the quotient is a float, `range(num_batches)` raises TypeError, and predict_lstm never returns.
- Trainer.PredictJointdnn: `num_batches = len(feats_packed) / self.batch_size` (`nnet_trainer.py:630`) is read as Python 2 integer division, exact after the assert before it. Under Python 3 `range(num_batches)` raises TypeError, and predict_jointdnn never returns.
- Trainer.PredictJointdnn: it requires a positive first training bucket, because otherwise pack_utterance_jointdnn loops forever. It also requires a non-empty utterance and batch_size > 0, the IndexError and ZeroDivisionError cases of pack_utterance_jointdnn (see Trainer.PackUtteranceJointdnn).
- Trainer.PredictDnn: the number of batches is the exact integer ceiling of `len(feats) / batch_size`, where the source computes `math.ceil` in floating point.
- Trainer.GetBucketId: it follows the code, which returns 0 for an empty bucket list, rather than requiring non-empty buckets.

## Findings

| source | as written | input that shows it | evidently intended | confidence | as-written member | corrected member |
|---|---|---|---|---|---|---|
| steps_tf/nnet_trainer.py:606-609 | the stitch of every batch uses the pick ranges `post_pick[piece]` of the first batch's windows | batch_size 1, max_length 4, jitter_window 2, six frames f0..f5: the output is f0 f1 f2 f2 f3 f4 instead of f0..f5 | pick with `post_pick[batch_start + piece]`, each window's own range | not executed | Trainer.PredictLstmCounterexample | Trainer.LstmPostsReassemble |

Trainer.PredictLstm models the loop as written. With no more real windows than batch_size, that output is still correct (Trainer.LstmAsWrittenSingleBatch). The corrected stitch is Trainer.LstmPosts. Trainer.LstmPostsIdentity and Trainer.LstmPostsReassemble prove that, with the identity network, it reassembles any utterance exactly, whatever the number of batches.
