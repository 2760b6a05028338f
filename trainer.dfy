/**
 * Inference-time window arithmetic of the trainer (steps_tf/nnet_trainer.py):
 * padding a frame list to whole batches, cutting an utterance into jittered
 * overlapping windows with pick ranges, tiling disjoint windows, choosing a
 * bucket, placing embedding windows, and the batch / stitch / truncate shape
 * of the three predict routines with the network as an opaque function.
 */
module Trainer {
  import opened Common

  /** The `[start, end]` pair of post_pick: which outputs of a window are kept. */
  datatype Pick = Pick(start: int, end: int)

  /** The three parallel lists pack_utterance returns. */
  datatype Packing = Packing(windows: seq<Window>, seqLength: seq<int>, postPick: seq<Pick>)
  {
    function Append(other: Packing): Packing
    {
      Packing(windows + other.windows, seqLength + other.seqLength, postPick + other.postPick)
    }

    predicate Aligned()
    {
      |windows| == |seqLength| == |postPick|
    }
  }

  // ---------------------------------------------------------------------------
  // Small arithmetic facts about whole batches

  lemma MulAtLeast(d: int, b: int)
    requires b > 0 && d >= 1
    ensures d * b >= b
  {
    assert d * b == (d - 1) * b + b;
    assert (d - 1) * b >= 0;
  }

  /** `q * b` divided by `b` is `q` with no remainder. */
  lemma MultipleDiv(q: int, b: int)
    requires b > 0
    ensures (q * b) / b == q && (q * b) % b == 0
  {
    var m := q * b;
    var d := q - m / b;
    assert m == b * (m / b) + m % b;
    assert d * b == m % b;
    if d >= 1 {
      MulAtLeast(d, b);
    } else if d <= -1 {
      MulAtLeast(-d, b);
    }
  }

  lemma MultipleStep(x: int, b: int)
    requires b > 0 && x > 0 && x % b == 0
    ensures x >= b && (x - b) % b == 0
  {
    var q := x / b;
    assert x == b * q + x % b;
    assert x == q * b;
    MulAtLeast(q, b);
    assert x - b == (q - 1) * b;
    MultipleDiv(q - 1, b);
  }

  lemma PadToMultiple(n: nat, b: nat)
    requires b > 0
    ensures (n + (b - n % b)) % b == 0
    ensures 1 <= b - n % b <= b
  {
    var q := n / b;
    assert n == b * q + n % b;
    assert n + (b - n % b) == (q + 1) * b;
    MultipleDiv(q + 1, b);
  }

  lemma DivBetween(len: nat, b: nat, cnt: nat)
    requires b > 0 && cnt * b <= len < cnt * b + b
    ensures len / b == cnt && len % b == len - cnt * b
  {
    var q := len / b;
    assert len == b * q + len % b;
    var d := q - cnt;
    assert d * b == len - cnt * b - len % b;
    if d >= 1 {
      MulAtLeast(d, b);
    } else if d <= -1 {
      MulAtLeast(-d, b);
    }
  }

  lemma MulSucc(i: int, b: int)
    ensures (i + 1) * b == i * b + b
  {
  }

  /** Batch `i` of `n / b` whole batches lies inside the `n` windows, and what follows it is whole batches too. */
  lemma BatchBounds(n: nat, b: nat, i: nat)
    requires b > 0 && n % b == 0 && i <= n / b
    ensures i * b <= n && (n - i * b) % b == 0
    ensures i < n / b ==> i * b + b <= n
    ensures i == n / b ==> i * b == n
  {
    var nb := n / b;
    assert n == b * nb + n % b;
    assert n - i * b == (nb - i) * b;
    MultipleDiv(nb - i, b);
    if i < nb {
      MulAtLeast(nb - i, b);
    }
  }

  /** `ceil(n / b)` batches of `b` start below `n` and together reach past it. */
  /** Batch `i` of ceil(n / b) starts inside the n frames, and the next one starts b frames later. */
  lemma BatchStart(n: nat, b: nat, i: nat)
    requires b > 0 && n > 0 && i < (n + b - 1) / b
    ensures 0 <= i * b < n && i * b + b == (i + 1) * b
  {
    CeilBatches(n, b, i);
    MulSucc(i, b);
  }

  lemma CeilBatches(n: nat, b: nat, i: nat)
    requires b > 0 && n > 0 && i <= (n + b - 1) / b
    ensures i < (n + b - 1) / b ==> i * b < n
    ensures i == (n + b - 1) / b ==> n <= i * b
  {
    var nb := (n + b - 1) / b;
    var r := (n + b - 1) % b;
    assert n + b - 1 == b * nb + r && 0 <= r < b;
    if i < nb {
      MulAtLeast(nb - i, b);
      assert nb * b - i * b == (nb - i) * b;
    }
  }

  // ---------------------------------------------------------------------------
  // patch_to_batches

  /**
   * Pads a frame list with zero rows up to the next multiple of the batch
   * size; a list that already fills whole batches is returned as it is.
   */
  function PatchToBatches(feats: seq<Row>, batchSize: nat): (r: seq<Row>)
    requires batchSize > 0
    ensures |r| % batchSize == 0
    ensures |feats| <= |r| < |feats| + batchSize
    ensures r[..|feats|] == feats
    ensures |feats| % batchSize == 0 ==> r == feats
  {
    if |feats| % batchSize == 0 then feats
    else
      var row2pad := RowsToPad(|feats|, batchSize);
      ZeroPadded(feats, row2pad, |feats[0]|);
      feats + ZeroRows(row2pad, |feats[0]|)
  }

  /** The rows patch_to_batches adds are zero rows of the feature width. */
  lemma PatchToBatchesPadsZeros(feats: seq<Row>, batchSize: nat)
    requires batchSize > 0 && |feats| > 0
    ensures var r := PatchToBatches(feats, batchSize);
            forall i :: |feats| <= i < |r| ==> r[i] == ZeroRow(|feats[0]|)
  {
    if |feats| % batchSize != 0 {
      ZeroPadded(feats, RowsToPad(|feats|, batchSize), |feats[0]|);
    }
  }

  /** The number of rows that completes the last, partial batch. */
  function RowsToPad(n: nat, batchSize: nat): (pad: nat)
    requires batchSize > 0 && n % batchSize != 0
    ensures 0 < pad < batchSize && (n + pad) % batchSize == 0
  {
    PadToMultiple(n, batchSize);
    batchSize - n % batchSize
  }

  /** Rows followed by `pad` zero rows: the rows come first, then only zero rows. */
  lemma ZeroPadded(rows: seq<Row>, pad: nat, width: nat)
    ensures var r := rows + ZeroRows(pad, width);
            && |r| == |rows| + pad && r[..|rows|] == rows
            && forall i :: |rows| <= i < |r| ==> r[i] == ZeroRow(width)
  {
    var r := rows + ZeroRows(pad, width);
    assert r[..|rows|] == rows;
  }

  // ---------------------------------------------------------------------------
  // pack_utterance

  /** The window loop of pack_utterance ends: it advances by `jitter` while the utterance is longer than a window. */
  predicate PackTerminates(numFrames: nat, maxLength: nat, jitter: nat)
  {
    jitter > 0 || numFrames <= maxLength
  }

  /**
   * The real windows pack_utterance cuts from frame `start` on, where the
   * next window's pick range begins at `pickStart`: full windows while they
   * end before the last frame, then one zero-padded tail window whose pick
   * range runs to its last real frame.
   */
  function RealWindows(feats: seq<Row>, maxLength: nat, jitter: nat, start: nat, pickStart: int): Packing
    requires |feats| > 0 && PackTerminates(|feats|, maxLength, jitter)
    decreases |feats| - start
  {
    if start + maxLength < |feats| then
      Packing([feats[start..start + maxLength]], [maxLength], [Pick(pickStart, (maxLength + jitter) / 2)])
        .Append(RealWindows(feats, maxLength, jitter, start + jitter, (maxLength - jitter) / 2))
    else
      var numZero := maxLength + start - |feats|;
      Packing([PySlice(feats, start, |feats|) + ZeroRows(numZero, |feats[0]|)],
              [|feats| - start], [Pick(pickStart, |feats| - start)])
  }

  /** What pack_utterance returns: the real windows followed by 1 to batchSize empty padding windows. */
  function PackUtteranceSpec(feats: seq<Row>, maxLength: nat, jitter: nat, batchSize: nat): Packing
    requires |feats| > 0 && batchSize > 0 && PackTerminates(|feats|, maxLength, jitter)
  {
    var reals := RealWindows(feats, maxLength, jitter, 0, 0);
    var pad := batchSize - |reals.windows| % batchSize;
    reals.Append(Packing(Fill(pad, ZeroRows(maxLength, |feats[0]|)), Fill(pad, 0), Fill(pad, Pick(0, 0))))
  }

  /**
   * pack_utterance with max_length = the trainer's (non-zero) max_length.
   * A zero max_length is turned into None by the source and crashes; a zero
   * jitter on an utterance longer than one window loops forever.
   */
  method PackUtterance(feats: seq<Row>, maxLength: nat, jitter: nat, batchSize: nat)
    returns (featsPacked: seq<Window>, seqLength: seq<int>, postPick: seq<Pick>)
    requires |feats| > 0 && maxLength > 0 && batchSize > 0 && PackTerminates(|feats|, maxLength, jitter)
    ensures Packing(featsPacked, seqLength, postPick) == PackUtteranceSpec(feats, maxLength, jitter, batchSize)
  {
    featsPacked, seqLength, postPick := CutWindows(feats, maxLength, jitter);
    ghost var reals := Packing(featsPacked, seqLength, postPick);
    var batches2pad := batchSize - |featsPacked| % batchSize;
    if batches2pad != 0 {
      var zeros2pad := ZeroRows(maxLength, |feats[0]|);
      for i := 0 to batches2pad
        invariant Packing(featsPacked, seqLength, postPick)
               == reals.Append(Packing(Fill(i, zeros2pad), Fill(i, 0), Fill(i, Pick(0, 0))))
      {
        featsPacked := featsPacked + [zeros2pad];
        seqLength := seqLength + [0];
        postPick := postPick + [Pick(0, 0)];
      }
    }
  }

  /** The window loop of pack_utterance and the tail window after it. */
  method CutWindows(feats: seq<Row>, maxLength: nat, jitter: nat)
    returns (featsPacked: seq<Window>, seqLength: seq<int>, postPick: seq<Pick>)
    requires |feats| > 0 && PackTerminates(|feats|, maxLength, jitter)
    ensures Packing(featsPacked, seqLength, postPick) == RealWindows(feats, maxLength, jitter, 0, 0)
  {
    var startIndex, pickStart;
    featsPacked, seqLength, postPick, startIndex, pickStart := CutFullWindows(feats, maxLength, jitter);
    ghost var cut := Packing(featsPacked, seqLength, postPick);
    RealWindowsTailStep(feats, maxLength, jitter, startIndex, pickStart, cut);
    var numZero: nat := maxLength + startIndex - |feats|;
    featsPacked := featsPacked + [PySlice(feats, startIndex, |feats|) + ZeroRows(numZero, |feats[0]|)];
    seqLength := seqLength + [|feats| - startIndex];
    postPick := postPick + [Pick(pickStart, |feats| - startIndex)];
  }

  /**
   * The loop of pack_utterance that cuts full windows: it stops at the first
   * frame from which a window reaches the last frame, having cut the real
   * windows before it.
   */
  method CutFullWindows(feats: seq<Row>, maxLength: nat, jitter: nat)
    returns (featsPacked: seq<Window>, seqLength: seq<int>, postPick: seq<Pick>, startIndex: nat, pickStart: int)
    requires |feats| > 0 && PackTerminates(|feats|, maxLength, jitter)
    ensures |feats| <= startIndex + maxLength
    ensures CutSoFar(feats, maxLength, jitter, startIndex, pickStart, Packing(featsPacked, seqLength, postPick))
  {
    startIndex := 0;
    featsPacked, seqLength, postPick := [], [], [];
    pickStart := 0;
    var pickEnd := (maxLength + jitter) / 2;
    CutNothingYet(feats, maxLength, jitter);
    while startIndex + maxLength < |feats|
      invariant CutSoFar(feats, maxLength, jitter, startIndex, pickStart, Packing(featsPacked, seqLength, postPick))
      decreases |feats| - startIndex
    {
      RealWindowsFullStep(feats, maxLength, jitter, startIndex, pickStart, Packing(featsPacked, seqLength, postPick));
      var endIndex := startIndex + maxLength;
      featsPacked := featsPacked + [feats[startIndex..endIndex]];
      seqLength := seqLength + [maxLength];
      postPick := postPick + [Pick(pickStart, pickEnd)];
      // only the first window picks from 0, the others from the centre
      pickStart := (maxLength - jitter) / 2;
      startIndex := startIndex + jitter;
    }
  }

  /**
   * The state of pack_utterance's window loop at frame `start`: the windows
   * cut so far, followed by the real windows from `start` on, are all of
   * them.
   */
  ghost predicate CutSoFar(feats: seq<Row>, maxLength: nat, jitter: nat, start: nat, pickStart: int, acc: Packing)
    requires |feats| > 0 && PackTerminates(|feats|, maxLength, jitter)
  {
    acc.Append(RealWindows(feats, maxLength, jitter, start, pickStart)) == RealWindows(feats, maxLength, jitter, 0, 0)
  }

  /** Before the loop nothing is cut and all real windows are still to come. */
  lemma CutNothingYet(feats: seq<Row>, maxLength: nat, jitter: nat)
    requires |feats| > 0 && PackTerminates(|feats|, maxLength, jitter)
    ensures CutSoFar(feats, maxLength, jitter, 0, 0, Packing([], [], []))
  {
    var all := RealWindows(feats, maxLength, jitter, 0, 0);
    assert [] + all.windows == all.windows && [] + all.seqLength == all.seqLength && [] + all.postPick == all.postPick;
  }

  /** One full window moves from the rest of the real windows to the ones already cut. */
  lemma RealWindowsFullStep(feats: seq<Row>, maxLength: nat, jitter: nat, start: nat, pickStart: int, acc: Packing)
    requires |feats| > 0 && PackTerminates(|feats|, maxLength, jitter) && start + maxLength < |feats|
    requires CutSoFar(feats, maxLength, jitter, start, pickStart, acc)
    ensures CutSoFar(feats, maxLength, jitter, start + jitter, (maxLength - jitter) / 2,
                     Packing(acc.windows + [feats[start..start + maxLength]], acc.seqLength + [maxLength],
                             acc.postPick + [Pick(pickStart, (maxLength + jitter) / 2)]))
  {
    var w := Packing([feats[start..start + maxLength]], [maxLength], [Pick(pickStart, (maxLength + jitter) / 2)]);
    var rest := RealWindows(feats, maxLength, jitter, start + jitter, (maxLength - jitter) / 2);
    assert acc.Append(w.Append(rest)) == acc.Append(w).Append(rest);
  }

  /** Once no full window fits, the rest of the real windows is the one padded tail. */
  lemma RealWindowsTailStep(feats: seq<Row>, maxLength: nat, jitter: nat, start: nat, pickStart: int, acc: Packing)
    requires |feats| > 0 && PackTerminates(|feats|, maxLength, jitter) && |feats| <= start + maxLength
    requires CutSoFar(feats, maxLength, jitter, start, pickStart, acc)
    ensures Packing(acc.windows + [PySlice(feats, start, |feats|) + ZeroRows(maxLength + start - |feats|, |feats[0]|)],
                    acc.seqLength + [|feats| - start], acc.postPick + [Pick(pickStart, |feats| - start)])
         == RealWindows(feats, maxLength, jitter, 0, 0)
  {
  }

  /**
   * Window `i` of the real windows starts at frame `start + i * jitter`.
   * Every window but the last is a full slice with seq_length max_length and
   * the pick range [centre start, (max_length + jitter) / 2]; the last starts
   * where a full window would reach the end, holds the rest of the frames
   * then zeros, and picks through its real length. Only the first window's
   * pick starts at `pickStart`; the later ones at (max_length - jitter) / 2.
   */
  lemma RealWindowsAt(feats: seq<Row>, maxLength: nat, jitter: nat, start: nat, pickStart: int, i: nat)
    requires |feats| > 0 && PackTerminates(|feats|, maxLength, jitter)
    requires i < |RealWindows(feats, maxLength, jitter, start, pickStart).windows|
    ensures RealWindows(feats, maxLength, jitter, start, pickStart).Aligned()
    ensures var p := RealWindows(feats, maxLength, jitter, start, pickStart);
            var s := start + i * jitter;
            var ps := if i == 0 then pickStart else (maxLength - jitter) / 2;
            && (i < |p.windows| - 1 ==>
                  && s + maxLength < |feats|
                  && p.windows[i] == feats[s..s + maxLength]
                  && p.seqLength[i] == maxLength
                  && p.postPick[i] == Pick(ps, (maxLength + jitter) / 2))
            && (i == |p.windows| - 1 ==>
                  && |feats| <= s + maxLength
                  && p.windows[i] == PySlice(feats, s, |feats|) + ZeroRows(maxLength + s - |feats|, |feats[0]|)
                  && p.seqLength[i] == |feats| - s
                  && p.postPick[i] == Pick(ps, |feats| - s))
  {
    RealWindowsAligned(feats, maxLength, jitter, start, pickStart);
    var p := RealWindows(feats, maxLength, jitter, start, pickStart);
    var s := start + i * jitter;
    if i < |p.windows| - 1 {
      RealWindowsFullAt(feats, maxLength, jitter, start, pickStart, i, s);
    } else {
      RealWindowsTailAt(feats, maxLength, jitter, start, pickStart, i, s);
    }
  }

  lemma {:induction false} RealWindowsFullAt(feats: seq<Row>, maxLength: nat, jitter: nat, start: nat, pickStart: int,
                                             i: nat, s: nat)
    requires |feats| > 0 && PackTerminates(|feats|, maxLength, jitter)
    requires i + 1 < |RealWindows(feats, maxLength, jitter, start, pickStart).windows|
    requires s == start + i * jitter
    ensures RealWindows(feats, maxLength, jitter, start, pickStart).Aligned()
    ensures var p := RealWindows(feats, maxLength, jitter, start, pickStart);
            && s + maxLength < |feats|
            && p.windows[i] == feats[s..s + maxLength]
            && p.seqLength[i] == maxLength
            && p.postPick[i] == Pick(if i == 0 then pickStart else (maxLength - jitter) / 2, (maxLength + jitter) / 2)
    decreases |feats| - start
  {
    RealWindowsAligned(feats, maxLength, jitter, start, pickStart);
    if start + maxLength >= |feats| {
      assert false;
    }
    var rest := RealWindows(feats, maxLength, jitter, start + jitter, (maxLength - jitter) / 2);
    var p := RealWindows(feats, maxLength, jitter, start, pickStart);
    assert |p.windows| == |rest.windows| + 1;
    if i > 0 {
      Stride(start, jitter, i);
      RealWindowsFullAt(feats, maxLength, jitter, start + jitter, (maxLength - jitter) / 2, i - 1, s);
      assert p.windows[i] == rest.windows[i - 1] && p.seqLength[i] == rest.seqLength[i - 1]
          && p.postPick[i] == rest.postPick[i - 1];
    }
  }

  lemma {:induction false} RealWindowsTailAt(feats: seq<Row>, maxLength: nat, jitter: nat, start: nat, pickStart: int,
                                             i: nat, s: nat)
    requires |feats| > 0 && PackTerminates(|feats|, maxLength, jitter)
    requires i + 1 == |RealWindows(feats, maxLength, jitter, start, pickStart).windows|
    requires s == start + i * jitter
    ensures RealWindows(feats, maxLength, jitter, start, pickStart).Aligned()
    ensures var p := RealWindows(feats, maxLength, jitter, start, pickStart);
            && |feats| <= s + maxLength
            && p.windows[i] == PySlice(feats, s, |feats|) + ZeroRows(maxLength + s - |feats|, |feats[0]|)
            && p.seqLength[i] == |feats| - s
            && p.postPick[i] == Pick(if i == 0 then pickStart else (maxLength - jitter) / 2, |feats| - s)
    decreases |feats| - start
  {
    RealWindowsAligned(feats, maxLength, jitter, start, pickStart);
    if start + maxLength < |feats| {
      var rest := RealWindows(feats, maxLength, jitter, start + jitter, (maxLength - jitter) / 2);
      var p := RealWindows(feats, maxLength, jitter, start, pickStart);
      assert |p.windows| == |rest.windows| + 1;
      RealWindowsAligned(feats, maxLength, jitter, start + jitter, (maxLength - jitter) / 2);
      assert i > 0;
      Stride(start, jitter, i);
      RealWindowsTailAt(feats, maxLength, jitter, start + jitter, (maxLength - jitter) / 2, i - 1, s);
      assert p.windows[i] == rest.windows[i - 1] && p.seqLength[i] == rest.seqLength[i - 1]
          && p.postPick[i] == rest.postPick[i - 1];
    } else {
      assert i == 0 && s == start;
    }
  }

  lemma {:induction false} RealWindowsAligned(feats: seq<Row>, maxLength: nat, jitter: nat, start: nat, pickStart: int)
    requires |feats| > 0 && PackTerminates(|feats|, maxLength, jitter)
    ensures RealWindows(feats, maxLength, jitter, start, pickStart).Aligned()
    ensures |RealWindows(feats, maxLength, jitter, start, pickStart).windows| >= 1
    decreases |feats| - start
  {
    if start + maxLength < |feats| {
      RealWindowsAligned(feats, maxLength, jitter, start + jitter, (maxLength - jitter) / 2);
    }
  }

  /** With a jitter no larger than the window, every real window has exactly max_length rows. */
  lemma {:induction false} RealWindowsFull(feats: seq<Row>, maxLength: nat, jitter: nat, start: nat, pickStart: int)
    requires |feats| > 0 && PackTerminates(|feats|, maxLength, jitter)
    requires jitter <= maxLength && start < |feats|
    ensures forall w :: w in RealWindows(feats, maxLength, jitter, start, pickStart).windows ==> |w| == maxLength
    decreases |feats| - start
  {
    if start + maxLength < |feats| {
      RealWindowsFull(feats, maxLength, jitter, start + jitter, (maxLength - jitter) / 2);
    }
  }

  /**
   * pack_utterance's output shape: the three lists have one entry per window,
   * every window has exactly max_length rows (when the jitter does not exceed
   * the window), the window count is a multiple of the batch size, and the
   * 1 to batchSize padding windows after the real ones are zero windows with
   * seq_length 0 and the empty pick [0, 0].
   */
  lemma PackUtteranceShape(feats: seq<Row>, maxLength: nat, jitter: nat, batchSize: nat)
    requires |feats| > 0 && batchSize > 0 && PackTerminates(|feats|, maxLength, jitter)
    ensures var p := PackUtteranceSpec(feats, maxLength, jitter, batchSize);
            var n := |RealWindows(feats, maxLength, jitter, 0, 0).windows|;
            && p.Aligned()
            && |p.windows| % batchSize == 0
            && 1 <= n < |p.windows| <= n + batchSize
            && p.windows[..n] == RealWindows(feats, maxLength, jitter, 0, 0).windows
            && (forall k :: n <= k < |p.windows| ==>
                  p.windows[k] == ZeroRows(maxLength, |feats[0]|) && p.seqLength[k] == 0 && p.postPick[k] == Pick(0, 0))
            && (jitter <= maxLength ==> forall w :: w in p.windows ==> |w| == maxLength)
  {
    var reals := RealWindows(feats, maxLength, jitter, 0, 0);
    var pad := batchSize - |reals.windows| % batchSize;
    var zero := ZeroRows(maxLength, |feats[0]|);
    RealWindowsAligned(feats, maxLength, jitter, 0, 0);
    PadToMultiple(|reals.windows|, batchSize);
    PaddedShape(reals, pad, zero);
    var p := PackUtteranceSpec(feats, maxLength, jitter, batchSize);
    assert p == reals.Append(Packing(Fill(pad, zero), Fill(pad, 0), Fill(pad, Pick(0, 0))));
    assert |p.windows| == |reals.windows| + pad;
    if jitter <= maxLength {
      RealWindowsFull(feats, maxLength, jitter, 0, 0);
    }
  }

  /** Real windows followed by `pad` copies of one padding window with seq_length 0 and the empty pick. */
  lemma PaddedShape(reals: Packing, pad: nat, zero: Window)
    requires reals.Aligned()
    ensures var p := reals.Append(Packing(Fill(pad, zero), Fill(pad, 0), Fill(pad, Pick(0, 0))));
            var n := |reals.windows|;
            && p.Aligned()
            && |p.windows| == n + pad
            && p.windows[..n] == reals.windows
            && (forall k :: n <= k < |p.windows| ==>
                  p.windows[k] == zero && p.seqLength[k] == 0 && p.postPick[k] == Pick(0, 0))
            && (forall w :: w in p.windows ==> w in reals.windows || w == zero)
  {
    var p := reals.Append(Packing(Fill(pad, zero), Fill(pad, 0), Fill(pad, Pick(0, 0))));
    assert p.windows[..|reals.windows|] == reals.windows;
  }

  // ---------------------------------------------------------------------------
  // Stitching picked outputs back together

  /**
   * The stitching loop of predict_lstm over one list of window outputs: for
   * each window whose pick range is not empty, the picked slice of its output.
   */
  function PickPieces<O>(outs: seq<seq<O>>, picks: seq<Pick>): seq<O>
    requires |picks| <= |outs|
    decreases |picks|
  {
    if picks == [] then [] else Piece(outs[0], picks[0]) + PickPieces(outs[1..], picks[1..])
  }

  /** The part of one window's output a pick range keeps (nothing for an empty range). */
  function Piece<O>(out: seq<O>, pick: Pick): seq<O>
  {
    if pick.start != pick.end then PySlice(out, pick.start, pick.end) else []
  }

  lemma PickPiecesCons<O>(out: seq<O>, outs: seq<seq<O>>, pick: Pick, picks: seq<Pick>)
    requires |picks| <= |outs|
    ensures PickPieces([out] + outs, [pick] + picks) == Piece(out, pick) + PickPieces(outs, picks)
  {
    assert ([out] + outs)[1..] == outs;
    assert ([pick] + picks)[1..] == picks;
  }

  lemma {:induction false} PickPiecesAppend<O>(o1: seq<seq<O>>, p1: seq<Pick>, o2: seq<seq<O>>, p2: seq<Pick>)
    requires |p1| == |o1| && |p2| <= |o2|
    ensures PickPieces(o1 + o2, p1 + p2) == PickPieces(o1, p1) + PickPieces(o2, p2)
    decreases |p1|
  {
    if p1 != [] {
      assert (o1 + o2)[1..] == o1[1..] + o2;
      assert (p1 + p2)[1..] == p1[1..] + p2;
      PickPiecesAppend(o1[1..], p1[1..], o2, p2);
    } else {
      assert o1 + o2 == o2;
      assert p1 + p2 == p2;
    }
  }

  lemma {:induction false} PickPiecesEmptyPicks<O>(outs: seq<seq<O>>, n: nat)
    requires n <= |outs|
    ensures PickPieces(outs, Fill(n, Pick(0, 0))) == []
    decreases n
  {
    if n > 0 {
      assert Fill(n, Pick(0, 0))[1..] == Fill(n - 1, Pick(0, 0));
      PickPiecesEmptyPicks(outs[1..], n - 1);
    }
  }

  /**
   * With 0 < jitter <= max_length the picked intervals of consecutive real
   * windows meet exactly: stitching the windows themselves (the outputs of an
   * identity network) from frame `start + pickStart` on reproduces the frames
   * from there to the end, each once.
   */
  lemma HalfStep(maxLength: nat, jitter: nat)
    requires jitter <= maxLength
    ensures 0 <= (maxLength - jitter) / 2 <= (maxLength + jitter) / 2 <= maxLength
    ensures jitter + (maxLength - jitter) / 2 == (maxLength + jitter) / 2
    ensures (maxLength - jitter) / 2 <= maxLength - jitter
  {
  }

  lemma {:induction false} RealWindowsStitch(feats: seq<Row>, maxLength: nat, jitter: nat, start: nat, pickStart: int)
    requires |feats| > 0 && PackTerminates(|feats|, maxLength, jitter) && jitter <= maxLength
    requires start < |feats|
    requires pickStart == 0 || (pickStart == (maxLength - jitter) / 2 && start + maxLength - jitter < |feats|)
    ensures RealWindows(feats, maxLength, jitter, start, pickStart).Aligned()
    ensures var p := RealWindows(feats, maxLength, jitter, start, pickStart);
            PickPieces(p.windows, p.postPick) == feats[start + pickStart..]
    decreases |feats| - start
  {
    RealWindowsAligned(feats, maxLength, jitter, start, pickStart);
    HalfStep(maxLength, jitter);
    if start + maxLength < |feats| {
      var next := (maxLength - jitter) / 2;
      RealWindowsStitch(feats, maxLength, jitter, start + jitter, next);
      MiddleStitch(feats, maxLength, jitter, start, pickStart);
    } else {
      TailStitch(feats, maxLength, start, pickStart);
    }
  }

  lemma MiddleStitch(feats: seq<Row>, maxLength: nat, jitter: nat, start: nat, pickStart: int)
    requires |feats| > 0 && PackTerminates(|feats|, maxLength, jitter) && jitter <= maxLength
    requires start + maxLength < |feats|
    requires pickStart == 0 || pickStart == (maxLength - jitter) / 2
    requires var rest := RealWindows(feats, maxLength, jitter, start + jitter, (maxLength - jitter) / 2);
             rest.Aligned() && PickPieces(rest.windows, rest.postPick) == feats[start + jitter + (maxLength - jitter) / 2..]
    ensures var p := RealWindows(feats, maxLength, jitter, start, pickStart);
            p.Aligned() && PickPieces(p.windows, p.postPick) == feats[start + pickStart..]
  {
    var rest := RealWindows(feats, maxLength, jitter, start + jitter, (maxLength - jitter) / 2);
    HalfStep(maxLength, jitter);
    var pickEnd := (maxLength + jitter) / 2;
    assert start + jitter + (maxLength - jitter) / 2 == start + pickEnd;
    var w := feats[start..start + maxLength];
    assert RealWindows(feats, maxLength, jitter, start, pickStart)
        == Packing([w] + rest.windows, [maxLength] + rest.seqLength, [Pick(pickStart, pickEnd)] + rest.postPick);
    StitchWindow(feats, start, maxLength, pickStart, pickEnd, rest.windows, rest.postPick);
  }

  /**
   * A full window `feats[start..start + maxLength]` picked over
   * [pickStart, pickEnd), followed by windows whose pieces give the frames
   * from `start + pickEnd` on, gives the frames from `start + pickStart` on.
   */
  lemma StitchWindow(feats: seq<Row>, start: nat, maxLength: nat, pickStart: int, pickEnd: int,
                     windows: seq<Window>, picks: seq<Pick>)
    requires start + maxLength <= |feats| && 0 <= pickStart <= pickEnd <= maxLength && |picks| <= |windows|
    requires PickPieces(windows, picks) == feats[start + pickEnd..]
    ensures PickPieces([feats[start..start + maxLength]] + windows, [Pick(pickStart, pickEnd)] + picks)
         == feats[start + pickStart..]
  {
    var w := feats[start..start + maxLength];
    calc {
      PickPieces([w] + windows, [Pick(pickStart, pickEnd)] + picks);
      { PickPiecesCons(w, windows, Pick(pickStart, pickEnd), picks); }
      Piece(w, Pick(pickStart, pickEnd)) + PickPieces(windows, picks);
      { WindowPiece(feats, start, maxLength, pickStart, pickEnd); }
      feats[start + pickStart..];
    }
  }

  /** The pick range of a full window is the same range of frames of the utterance. */
  lemma WindowPiece(feats: seq<Row>, start: nat, maxLength: nat, pickStart: int, pickEnd: int)
    requires start + maxLength <= |feats| && 0 <= pickStart <= pickEnd <= maxLength
    ensures Piece(feats[start..start + maxLength], Pick(pickStart, pickEnd)) == feats[start + pickStart..start + pickEnd]
    ensures Piece(feats[start..start + maxLength], Pick(pickStart, pickEnd)) + feats[start + pickEnd..] == feats[start + pickStart..]
  {
    var w := feats[start..start + maxLength];
    var piece := feats[start + pickStart..start + pickEnd];
    forall k | 0 <= k < pickEnd - pickStart
      ensures w[pickStart..pickEnd][k] == piece[k]
    {
      assert w[pickStart..pickEnd][k] == w[pickStart + k];
    }
    assert w[pickStart..pickEnd] == piece;
    assert feats[start + pickStart..] == piece + feats[start + pickEnd..];
  }

  lemma TailStitch(feats: seq<Row>, maxLength: nat, start: nat, pickStart: int)
    requires 0 < |feats| <= start + maxLength && start < |feats| && 0 <= pickStart <= |feats| - start
    ensures var w := PySlice(feats, start, |feats|) + ZeroRows(maxLength + start - |feats|, |feats[0]|);
            PickPieces([w], [Pick(pickStart, |feats| - start)]) == feats[start + pickStart..]
  {
    var w := PySlice(feats, start, |feats|) + ZeroRows(maxLength + start - |feats|, |feats[0]|);
    assert PySlice(feats, start, |feats|) == feats[start..];
    PickPiecesCons(w, [], Pick(pickStart, |feats| - start), []);
    assert Piece(w, Pick(pickStart, |feats| - start)) == feats[start + pickStart..];
  }

  /**
   * Reassembly: stitching the picked outputs of every window pack_utterance
   * produces, with the windows themselves as outputs, gives back exactly the
   * utterance; the padding windows contribute nothing.
   */
  lemma PackUtteranceReassembles(feats: seq<Row>, maxLength: nat, jitter: nat, batchSize: nat)
    requires |feats| > 0 && batchSize > 0 && PackTerminates(|feats|, maxLength, jitter) && jitter <= maxLength
    ensures PackUtteranceSpec(feats, maxLength, jitter, batchSize).Aligned()
    ensures var p := PackUtteranceSpec(feats, maxLength, jitter, batchSize);
            PickPieces(p.windows, p.postPick) == feats
  {
    var reals := RealWindows(feats, maxLength, jitter, 0, 0);
    RealWindowsStitch(feats, maxLength, jitter, 0, 0);
    var pad := batchSize - |reals.windows| % batchSize;
    var padding := Packing(Fill(pad, ZeroRows(maxLength, |feats[0]|)), Fill(pad, 0), Fill(pad, Pick(0, 0)));
    RealWindowsAligned(feats, maxLength, jitter, 0, 0);
    var p := PackUtteranceSpec(feats, maxLength, jitter, batchSize);
    assert p.windows == reals.windows + padding.windows && p.postPick == reals.postPick + padding.postPick;
    PickPiecesAppend(reals.windows, reals.postPick, padding.windows, padding.postPick);
    PickPiecesEmptyPicks(padding.windows, pad);
  }

  // ---------------------------------------------------------------------------
  // pack_utterance_jointdnn

  /** Disjoint windows of max_length from frame `start` on, the last one zero-padded. */
  function Tiles(feats: seq<Row>, maxLength: nat, start: nat): seq<Window>
    requires |feats| > 0 && maxLength > 0 && start <= |feats|
    decreases |feats| - start
  {
    if start + maxLength < |feats| then
      [feats[start..start + maxLength]] + Tiles(feats, maxLength, start + maxLength)
    else
      [feats[start..] + ZeroRows(maxLength + start - |feats|, |feats[0]|)]
  }

  /** What pack_utterance_jointdnn returns: the tiles followed by 1 to batchSize zero windows. */
  function PackUtteranceJointdnnSpec(feats: seq<Row>, maxLength: nat, batchSize: nat): seq<Window>
    requires |feats| > 0 && maxLength > 0 && batchSize > 0
  {
    var tiles := Tiles(feats, maxLength, 0);
    tiles + Fill(batchSize - |tiles| % batchSize, ZeroRows(maxLength, |feats[0]|))
  }

  /** pack_utterance_jointdnn; a zero max_length would loop forever in the source. */
  method PackUtteranceJointdnn(feats: seq<Row>, maxLength: nat, batchSize: nat) returns (featsPacked: seq<Window>)
    requires |feats| > 0 && maxLength > 0 && batchSize > 0
    ensures featsPacked == PackUtteranceJointdnnSpec(feats, maxLength, batchSize)
  {
    var startIndex := 0;
    featsPacked := [];
    while startIndex + maxLength < |feats|
      invariant startIndex <= |feats|
      invariant featsPacked + Tiles(feats, maxLength, startIndex) == Tiles(feats, maxLength, 0)
      decreases |feats| - startIndex
    {
      var endIndex := startIndex + maxLength;
      featsPacked := featsPacked + [feats[startIndex..endIndex]];
      startIndex := startIndex + maxLength;
    }
    var numZero := maxLength + startIndex - |feats|;
    featsPacked := featsPacked + [feats[startIndex..] + ZeroRows(numZero, |feats[0]|)];
    ghost var tiles := featsPacked;

    var batches2pad := batchSize - |featsPacked| % batchSize;
    if batches2pad != 0 {
      var zeros2pad := ZeroRows(maxLength, |feats[0]|);
      for i := 0 to batches2pad
        invariant featsPacked == tiles + Fill(i, zeros2pad)
      {
        featsPacked := featsPacked + [zeros2pad];
      }
    }
  }

  /** The tiles from `start` hold the frames from `start` in order, then only padding. */
  lemma {:induction false} TilesCover(feats: seq<Row>, maxLength: nat, start: nat)
    requires |feats| > 0 && maxLength > 0 && start <= |feats|
    ensures feats[start..] <= Flatten(Tiles(feats, maxLength, start))
    decreases |feats| - start
  {
    var t := Tiles(feats, maxLength, start);
    if start + maxLength < |feats| {
      var w := feats[start..start + maxLength];
      var rest := Tiles(feats, maxLength, start + maxLength);
      TilesCover(feats, maxLength, start + maxLength);
      assert t[1..] == rest;
      assert feats[start..] == w + feats[start + maxLength..];
      PrefixAfter(w, feats[start + maxLength..], Flatten(rest));
    } else {
      var w := feats[start..] + ZeroRows(maxLength + start - |feats|, |feats[0]|);
      assert t[1..] == [];
      assert Flatten(t) == w + [];
    }
  }

  /** Every tile has exactly max_length rows. */
  lemma {:induction false} TilesFull(feats: seq<Row>, maxLength: nat, start: nat)
    requires |feats| > 0 && maxLength > 0 && start <= |feats|
    ensures forall w :: w in Tiles(feats, maxLength, start) ==> |w| == maxLength
    decreases |feats| - start
  {
    if start + maxLength < |feats| {
      TilesFull(feats, maxLength, start + maxLength);
    }
  }

  lemma PrefixAfter<T>(w: seq<T>, a: seq<T>, b: seq<T>)
    requires a <= b
    ensures w + a <= w + b
  {
    assert (w + b)[..|w + a|] == w + b[..|a|];
  }

  /**
   * pack_utterance_jointdnn's output: whole batches of max_length windows
   * whose concatenation, cut to the utterance length, is the utterance.
   */
  lemma PackUtteranceJointdnnShape(feats: seq<Row>, maxLength: nat, batchSize: nat)
    requires |feats| > 0 && maxLength > 0 && batchSize > 0
    ensures var p := PackUtteranceJointdnnSpec(feats, maxLength, batchSize);
            && |p| % batchSize == 0 && |p| >= batchSize
            && (forall w :: w in p ==> |w| == maxLength)
            && Take(Flatten(p), |feats|) == feats
  {
    PackUtteranceJointdnnBatches(feats, maxLength, batchSize);
    PackUtteranceJointdnnWidths(feats, maxLength, batchSize);
    PackUtteranceJointdnnCovers(feats, maxLength, batchSize);
  }

  /** Every window pack_utterance_jointdnn returns holds max_length rows. */
  lemma PackUtteranceJointdnnWidths(feats: seq<Row>, maxLength: nat, batchSize: nat)
    requires |feats| > 0 && maxLength > 0 && batchSize > 0
    ensures forall w :: w in PackUtteranceJointdnnSpec(feats, maxLength, batchSize) ==> |w| == maxLength
  {
    var tiles := Tiles(feats, maxLength, 0);
    var pad := Fill(batchSize - |tiles| % batchSize, ZeroRows(maxLength, |feats[0]|));
    assert PackUtteranceJointdnnSpec(feats, maxLength, batchSize) == tiles + pad;
    TilesFull(feats, maxLength, 0);
    forall w | w in tiles + pad
      ensures |w| == maxLength
    {
      if w !in tiles {
        assert w in pad;
      }
    }
  }

  /** The rows of pack_utterance_jointdnn's windows start with the utterance. */
  lemma PackUtteranceJointdnnCovers(feats: seq<Row>, maxLength: nat, batchSize: nat)
    requires |feats| > 0 && maxLength > 0 && batchSize > 0
    ensures Take(Flatten(PackUtteranceJointdnnSpec(feats, maxLength, batchSize)), |feats|) == feats
  {
    var tiles := Tiles(feats, maxLength, 0);
    var pad := Fill(batchSize - |tiles| % batchSize, ZeroRows(maxLength, |feats[0]|));
    assert PackUtteranceJointdnnSpec(feats, maxLength, batchSize) == tiles + pad;
    TilesCover(feats, maxLength, 0);
    assert feats == feats[0..];
    FlattenAppend(tiles, pad);
    PrefixAfter(Flatten(tiles), [], Flatten(pad));
    assert feats <= Flatten(tiles + pad);
  }

  // ---------------------------------------------------------------------------
  // predict_dnn, predict_lstm, predict_jointdnn with the network as a function

  /**
   * The outputs predict_dnn collects from batch `batchStart` on: each batch of
   * batchSize frames goes through the network, the last one after
   * patch_to_batches.
   */
  function DnnPosts<O>(model: seq<Row> -> seq<O>, feats: seq<Row>, batchSize: nat, batchStart: nat): seq<O>
    requires batchSize > 0
    decreases |feats| - batchStart
  {
    if |feats| <= batchStart then []
    else model(DnnPadded(feats, batchSize, batchStart)) + DnnPosts(model, feats, batchSize, batchStart + batchSize)
  }

  /**
   * The rows predict_dnn gives the network for the batch at `batchStart`: the
   * batch's frames, patched with zero rows when fewer than batchSize remain, so
   * that the network always sees exactly batchSize rows.
   */
  function DnnPadded(feats: seq<Row>, batchSize: nat, batchStart: nat): (r: seq<Row>)
    requires batchSize > 0 && batchStart < |feats|
    ensures |r| == batchSize
  {
    var batchEnd := batchStart + batchSize;
    if |feats| < batchEnd then
      var r := PatchToBatches(feats[batchStart..], batchSize);
      OneBatch(|r|, batchSize);
      r
    else feats[batchStart..batchEnd]
  }

  /** A batch given to the network begins with the batch's frames: all of them, or the remaining ones for the last. */
  lemma DnnPaddedFrames(feats: seq<Row>, batchSize: nat, batchStart: nat)
    requires batchSize > 0 && batchStart < |feats|
    ensures var present := if |feats| < batchStart + batchSize then |feats| - batchStart else batchSize;
            DnnPadded(feats, batchSize, batchStart)[..present] == feats[batchStart..batchStart + present]
  {
  }

  /** The only multiple of b strictly between 0 and 2b is b. */
  lemma OneBatch(n: nat, b: nat)
    requires b > 0 && 0 < n < b + b && n % b == 0
    ensures n == b
  {
    var q := n / b;
    assert n == b * q;
    if q >= 2 {
      MulAtLeast(q - 1, b);
    }
  }

  /** predict_dnn's loop state at batch boundary `start`: the outputs so far and the rest make up the whole. */
  ghost predicate DnnStitchedTo<O>(model: seq<Row> -> seq<O>, feats: seq<Row>, batchSize: nat, start: nat, acc: seq<O>)
    requires batchSize > 0
  {
    acc + DnnPosts(model, feats, batchSize, start) == DnnPosts(model, feats, batchSize, 0)
  }

  /** One pass of predict_dnn's loop: the batch at `batchStart`, the last one patched, through the network. */
  method DnnBatch<O>(feats: seq<Row>, batchSize: nat, model: seq<Row> -> seq<O>, batchStart: nat, acc: seq<O>)
    returns (accOut: seq<O>)
    requires batchSize > 0 && batchStart < |feats| && DnnStitchedTo(model, feats, batchSize, batchStart, acc)
    ensures DnnStitchedTo(model, feats, batchSize, batchStart + batchSize, accOut)
  {
    var batchEnd := batchStart + batchSize;
    // we avoid copying feats, only patch the last batch
    var featsPadded := DnnPadded(feats, batchSize, batchStart);
    var batchPosts := model(featsPadded);
    accOut := acc + batchPosts;
    ghost var rest := DnnPosts(model, feats, batchSize, batchEnd);
    assert DnnPosts(model, feats, batchSize, batchStart) == batchPosts + rest;
    assert acc + (batchPosts + rest) == accOut + rest;
  }

  /** predict_dnn: ceil(len / batchSize) batches, outputs stacked, cut to the utterance length. */
  method PredictDnn<O>(feats: seq<Row>, batchSize: nat, model: seq<Row> -> seq<O>) returns (posts: seq<O>)
    requires |feats| > 0 && batchSize > 0
    ensures posts == Take(DnnPosts(model, feats, batchSize, 0), |feats|)
  {
    var numBatches := (|feats| + batchSize - 1) / batchSize;
    var acc: seq<O> := [];
    ghost var done: nat := 0;
    for i := 0 to numBatches
      invariant done == i * batchSize
      invariant DnnStitchedTo(model, feats, batchSize, done, acc)
    {
      BatchStart(|feats|, batchSize, i);
      var batchStart := i * batchSize;
      acc := DnnBatch(feats, batchSize, model, batchStart, acc);
      done := batchStart + batchSize;
    }
    CeilBatches(|feats|, batchSize, numBatches);
    assert DnnPosts(model, feats, batchSize, done) == [];
    posts := Take(acc, |feats|);
  }

  function IdentityRows(batch: seq<Row>): seq<Row>
  {
    batch
  }

  lemma {:induction false} DnnPostsIdentity(feats: seq<Row>, batchSize: nat, batchStart: nat)
    requires batchSize > 0 && batchStart <= |feats|
    ensures feats[batchStart..] <= DnnPosts(IdentityRows, feats, batchSize, batchStart)
    decreases |feats| - batchStart
  {
    var batchEnd := batchStart + batchSize;
    if batchStart < |feats| && |feats| < batchEnd {
      assert DnnPosts(IdentityRows, feats, batchSize, batchEnd) == [];
      DnnPaddedFrames(feats, batchSize, batchStart);
    } else if batchStart < |feats| {
      DnnPostsIdentity(feats, batchSize, batchEnd);
      assert feats[batchStart..] == feats[batchStart..batchEnd] + feats[batchEnd..];
    }
  }

  /** With an identity network predict_dnn gives back the utterance. */
  lemma PredictDnnIdentity(feats: seq<Row>, batchSize: nat)
    requires |feats| > 0 && batchSize > 0
    ensures Take(DnnPosts(IdentityRows, feats, batchSize, 0), |feats|) == feats
  {
    DnnPostsIdentity(feats, batchSize, 0);
    assert feats[0..] == feats;
  }

  ghost predicate KeepsRowCount<O>(model: seq<Row> -> seq<O>)
  {
    forall batch :: |model(batch)| == |batch|
  }

  lemma {:induction false} DnnPostsLength<O>(model: seq<Row> -> seq<O>, feats: seq<Row>, batchSize: nat, batchStart: nat)
    requires batchSize > 0 && batchStart <= |feats| && KeepsRowCount(model)
    ensures |DnnPosts(model, feats, batchSize, batchStart)| >= |feats| - batchStart
    decreases |feats| - batchStart
  {
    var batchEnd := batchStart + batchSize;
    if batchStart < |feats| && batchEnd <= |feats| {
      DnnPostsLength(model, feats, batchSize, batchEnd);
    }
  }

  /**
   * predict_dnn runs ceil(len / batchSize) batches from `batchStart` on; as
   * each gives the network exactly batchSize rows, a row-preserving network
   * yields that many batches of batchSize outputs.
   */
  lemma {:induction false} DnnPostsBatches<O>(model: seq<Row> -> seq<O>, feats: seq<Row>, batchSize: nat, batchStart: nat)
    requires batchSize > 0 && batchStart <= |feats| && KeepsRowCount(model)
    ensures |DnnPosts(model, feats, batchSize, batchStart)| == ((|feats| - batchStart + batchSize - 1) / batchSize) * batchSize
    decreases |feats| - batchStart
  {
    var m := |feats| - batchStart;
    var batchEnd := batchStart + batchSize;
    var posts := DnnPosts(model, feats, batchSize, batchStart);
    if m == 0 {
      assert posts == [];
      DivBetween(batchSize - 1, batchSize, 0);
    } else {
      var batchPosts := model(DnnPadded(feats, batchSize, batchStart));
      assert |batchPosts| == batchSize;
      assert posts == batchPosts + DnnPosts(model, feats, batchSize, batchEnd);
      if |feats| < batchEnd {
        assert DnnPosts(model, feats, batchSize, batchEnd) == [];
        DivBetween(m + batchSize - 1, batchSize, 1);
      } else {
        DnnPostsBatches(model, feats, batchSize, batchEnd);
        var c := (m - batchSize + batchSize - 1) / batchSize;
        assert |posts| == batchSize + c * batchSize;
        CeilSucc(m, batchSize);
        MulSucc(c, batchSize);
      }
    }
  }

  /** One whole batch more means one more batch in the ceiling. */
  lemma CeilSucc(m: nat, b: nat)
    requires b > 0 && m >= b
    ensures (m + b - 1) / b == (m - b + b - 1) / b + 1
  {
    var c := (m - b + b - 1) / b;
    assert m - b + b - 1 == b * c + (m - b + b - 1) % b;
    MulSucc(c, b);
    DivBetween(m + b - 1, b, c + 1);
  }

  /** When the network gives one output per input row, predict_dnn gives exactly one output per frame. */
  lemma PredictDnnLength<O>(model: seq<Row> -> seq<O>, feats: seq<Row>, batchSize: nat)
    requires |feats| > 0 && batchSize > 0 && KeepsRowCount(model)
    ensures |Take(DnnPosts(model, feats, batchSize, 0), |feats|)| == |feats|
  {
    DnnPostsLength(model, feats, batchSize, 0);
  }

  ghost predicate KeepsBatch<O>(model: (seq<Window>, seq<int>) -> seq<seq<O>>)
  {
    forall batch, seqLength :: |model(batch, seqLength)| == |batch|
  }

  /**
   * predict_lstm's stitching AS WRITTEN: batch after batch goes through the
   * network with its seq_length, and every batch is cut with `firstPicks`,
   * the pick ranges of the FIRST batch (post_pick[piece], not
   * post_pick[batch_start + piece]).
   */
  function LstmPostsAsWritten<O>(model: (seq<Window>, seq<int>) -> seq<seq<O>>, windows: seq<Window>,
                                 seqLength: seq<int>, firstPicks: seq<Pick>, batchSize: nat): seq<O>
    requires batchSize > 0 && |windows| == |seqLength| && |windows| % batchSize == 0
    requires |firstPicks| == batchSize && KeepsBatch(model)
    decreases |windows|
  {
    if windows == [] then []
    else
      MultipleStep(|windows|, batchSize);
      PickPieces(model(windows[..batchSize], seqLength[..batchSize]), firstPicks)
        + LstmPostsAsWritten(model, windows[batchSize..], seqLength[batchSize..], firstPicks, batchSize)
  }

  /** The evidently intended stitching: each batch is cut with its own windows' pick ranges. */
  function LstmPosts<O>(model: (seq<Window>, seq<int>) -> seq<seq<O>>, windows: seq<Window>,
                        seqLength: seq<int>, picks: seq<Pick>, batchSize: nat): seq<O>
    requires batchSize > 0 && |windows| == |seqLength| == |picks| && |windows| % batchSize == 0
    requires KeepsBatch(model)
    decreases |windows|
  {
    if windows == [] then []
    else
      MultipleStep(|windows|, batchSize);
      PickPieces(model(windows[..batchSize], seqLength[..batchSize]), picks[..batchSize])
        + LstmPosts(model, windows[batchSize..], seqLength[batchSize..], picks[batchSize..], batchSize)
  }

  /** Unfolding LstmPostsAsWritten at batch boundary `start`. */
  lemma LstmAsWrittenStep<O>(model: (seq<Window>, seq<int>) -> seq<seq<O>>, windows: seq<Window>,
                             seqLength: seq<int>, firstPicks: seq<Pick>, batchSize: nat, start: nat, next: nat)
    requires batchSize > 0 && |windows| == |seqLength| && |firstPicks| == batchSize && KeepsBatch(model)
    requires next == start + batchSize <= |windows| && (|windows| - start) % batchSize == 0
    ensures (|windows| - next) % batchSize == 0
    ensures LstmPostsAsWritten(model, windows[start..], seqLength[start..], firstPicks, batchSize)
         == PickPieces(model(windows[start..next], seqLength[start..next]), firstPicks)
          + LstmPostsAsWritten(model, windows[next..], seqLength[next..], firstPicks, batchSize)
  {
    MultipleStep(|windows| - start, batchSize);
    assert windows[start..][..batchSize] == windows[start..next];
    assert seqLength[start..][..batchSize] == seqLength[start..next];
    assert windows[start..][batchSize..] == windows[next..];
    assert seqLength[start..][batchSize..] == seqLength[next..];
  }

  lemma PickPiecesSnoc<O>(outs: seq<seq<O>>, picks: seq<Pick>, k: nat)
    requires k < |outs| && k < |picks|
    ensures PickPieces(outs[..k + 1], picks[..k + 1]) == PickPieces(outs[..k], picks[..k]) + Piece(outs[k], picks[k])
  {
    assert outs[..k + 1] == outs[..k] + [outs[k]];
    assert picks[..k + 1] == picks[..k] + [picks[k]];
    PickPiecesAppend(outs[..k], picks[..k], [outs[k]], [picks[k]]);
    assert PickPieces([outs[k]], [picks[k]]) == Piece(outs[k], picks[k]) + PickPieces([], []);
  }

  /** The inner loop of predict_lstm: the outputs one batch contributes, window by window. */
  method StitchBatch<O>(batchPosts: seq<seq<O>>, postPick: seq<Pick>, batchSize: nat) returns (pieces: seq<O>)
    requires |batchPosts| == batchSize <= |postPick|
    ensures pieces == PickPieces(batchPosts, postPick[..batchSize])
  {
    pieces := [];
    for piece := 0 to batchSize
      invariant pieces == PickPieces(batchPosts[..piece], postPick[..piece])
    {
      PickPiecesSnoc(batchPosts, postPick, piece);
      if postPick[piece].start != postPick[piece].end {
        // post_pick names the outputs of this window that go into the utterance
        pieces := pieces + PySlice(batchPosts[piece], postPick[piece].start, postPick[piece].end);
      }
    }
    assert batchPosts[..batchSize] == batchPosts;
  }

  /** One turn of predict_lstm's batch loop keeps the stitched prefix in step with LstmPostsAsWritten. */
  lemma LstmLoopStep<O>(model: (seq<Window>, seq<int>) -> seq<seq<O>>, windows: seq<Window>,
                        seqLength: seq<int>, firstPicks: seq<Pick>, batchSize: nat, start: nat, next: nat,
                        acc: seq<O>, pieces: seq<O>, whole: seq<O>)
    requires batchSize > 0 && |windows| == |seqLength| && |firstPicks| == batchSize && KeepsBatch(model)
    requires next == start + batchSize <= |windows|
    requires LstmStitchedTo(model, windows, seqLength, firstPicks, batchSize, start, acc, whole)
    requires pieces == PickPieces(model(windows[start..next], seqLength[start..next]), firstPicks)
    ensures LstmStitchedTo(model, windows, seqLength, firstPicks, batchSize, next, acc + pieces, whole)
  {
    LstmAsWrittenStep(model, windows, seqLength, firstPicks, batchSize, start, next);
    var rest := LstmPostsAsWritten(model, windows[next..], seqLength[next..], firstPicks, batchSize);
    assert acc + (pieces + rest) == whole;
    assert (acc + pieces) + rest == whole;
  }

  /** The part of PackUtteranceShape predict_lstm's batch loop relies on. */
  lemma PackUtteranceBatches(feats: seq<Row>, maxLength: nat, jitter: nat, batchSize: nat)
    requires |feats| > 0 && maxLength > 0 && batchSize > 0 && PackTerminates(|feats|, maxLength, jitter)
    ensures var p := PackUtteranceSpec(feats, maxLength, jitter, batchSize);
            p.Aligned() && |p.windows| % batchSize == 0 && |p.windows| >= batchSize
  {
    PackUtteranceShape(feats, maxLength, jitter, batchSize);
    MultipleStep(|PackUtteranceSpec(feats, maxLength, jitter, batchSize).windows|, batchSize);
  }

  /**
   * The state of predict_lstm's batch loop at batch boundary `start`: the
   * pieces stitched so far, followed by what the rest of the windows give,
   * make up the whole result.
   */
  ghost predicate LstmStitchedTo<O>(model: (seq<Window>, seq<int>) -> seq<seq<O>>, windows: seq<Window>,
                                    seqLength: seq<int>, firstPicks: seq<Pick>, batchSize: nat,
                                    start: nat, posts: seq<O>, whole: seq<O>)
    requires batchSize > 0 && |windows| == |seqLength| && |firstPicks| == batchSize && KeepsBatch(model)
  {
    && start <= |windows| && (|windows| - start) % batchSize == 0
    && posts + LstmPostsAsWritten(model, windows[start..], seqLength[start..], firstPicks, batchSize) == whole
  }

  /**
   * Pass `i` of predict_lstm's batch loop: run the model on the batch of
   * windows [i * batchSize, (i + 1) * batchSize) and append the picked
   * pieces of its outputs.
   */
  method LstmBatch<O>(featsPacked: seq<Window>, seqLength: seq<int>, postPick: seq<Pick>, batchSize: nat,
                      model: (seq<Window>, seq<int>) -> seq<seq<O>>, i: nat, posts: seq<O>, ghost whole: seq<O>)
    returns (postsOut: seq<O>)
    requires batchSize > 0 && |featsPacked| == |seqLength| && |featsPacked| % batchSize == 0
    requires batchSize <= |postPick| && KeepsBatch(model) && i < |featsPacked| / batchSize
    requires LstmStitchedTo(model, featsPacked, seqLength, postPick[..batchSize], batchSize, i * batchSize, posts, whole)
    ensures LstmStitchedTo(model, featsPacked, seqLength, postPick[..batchSize], batchSize, (i + 1) * batchSize, postsOut, whole)
  {
    BatchBounds(|featsPacked|, batchSize, i);
    MulSucc(i, batchSize);
    var batchStart := i * batchSize;
    var batchEnd := (i + 1) * batchSize;
    var batchPosts := model(featsPacked[batchStart..batchEnd], seqLength[batchStart..batchEnd]);
    var pieces := StitchBatch(batchPosts, postPick, batchSize);
    LstmLoopStep(model, featsPacked, seqLength, postPick[..batchSize], batchSize, batchStart, batchEnd, posts, pieces, whole);
    postsOut := posts + pieces;
  }

  /** predict_lstm's batch loop: every batch through the network, stitched with the first batch's picks. */
  method LstmBatches<O>(featsPacked: seq<Window>, seqLength: seq<int>, postPick: seq<Pick>, batchSize: nat,
                        model: (seq<Window>, seq<int>) -> seq<seq<O>>) returns (posts: seq<O>)
    requires batchSize > 0 && |featsPacked| == |seqLength| && |featsPacked| % batchSize == 0
    requires batchSize <= |postPick| && KeepsBatch(model)
    ensures posts == LstmPostsAsWritten(model, featsPacked, seqLength, postPick[..batchSize], batchSize)
  {
    var numBatches := |featsPacked| / batchSize;
    ghost var firstPicks := postPick[..batchSize];
    ghost var whole := LstmPostsAsWritten(model, featsPacked, seqLength, firstPicks, batchSize);
    posts := [];
    assert featsPacked[0..] == featsPacked && seqLength[0..] == seqLength;
    for i := 0 to numBatches
      invariant LstmStitchedTo(model, featsPacked, seqLength, firstPicks, batchSize, i * batchSize, posts, whole)
    {
      posts := LstmBatch(featsPacked, seqLength, postPick, batchSize, model, i, posts, whole);
    }
    BatchBounds(|featsPacked|, batchSize, numBatches);
    LstmStitchedAll(model, featsPacked, seqLength, firstPicks, batchSize, numBatches * batchSize, posts, whole);
  }

  lemma LstmStitchedAll<O>(model: (seq<Window>, seq<int>) -> seq<seq<O>>, windows: seq<Window>,
                           seqLength: seq<int>, firstPicks: seq<Pick>, batchSize: nat,
                           start: nat, posts: seq<O>, whole: seq<O>)
    requires batchSize > 0 && |windows| == |seqLength| && |firstPicks| == batchSize && KeepsBatch(model)
    requires start == |windows| && LstmStitchedTo(model, windows, seqLength, firstPicks, batchSize, start, posts, whole)
    ensures posts == whole
  {
    assert windows[start..] == [];
  }

  /** predict_lstm as written: pack, run batch by batch, stitch, cut to the utterance length. */
  method PredictLstm<O>(feats: seq<Row>, maxLength: nat, jitter: nat, batchSize: nat,
                        model: (seq<Window>, seq<int>) -> seq<seq<O>>) returns (posts: seq<O>)
    requires |feats| > 0 && maxLength > 0 && batchSize > 0 && PackTerminates(|feats|, maxLength, jitter)
    requires KeepsBatch(model)
    ensures var p := PackUtteranceSpec(feats, maxLength, jitter, batchSize);
            && p.Aligned() && |p.windows| % batchSize == 0 && |p.windows| >= batchSize
            && posts == Take(LstmPostsAsWritten(model, p.windows, p.seqLength, p.postPick[..batchSize], batchSize), |feats|)
  {
    var featsPacked, seqLength, postPick := PackUtterance(feats, maxLength, jitter, batchSize);
    PackUtteranceBatches(feats, maxLength, jitter, batchSize);
    var stitched := LstmBatches(featsPacked, seqLength, postPick, batchSize, model);
    posts := Take(stitched, |feats|);
  }

  function IdentityLstm(batch: seq<Window>, seqLength: seq<int>): seq<Window>
  {
    batch
  }

  lemma {:induction false} LstmPostsIdentity(windows: seq<Window>, seqLength: seq<int>, picks: seq<Pick>, batchSize: nat)
    requires batchSize > 0 && |windows| == |seqLength| == |picks| && |windows| % batchSize == 0
    ensures KeepsBatch(IdentityLstm)
    ensures LstmPosts(IdentityLstm, windows, seqLength, picks, batchSize) == PickPieces(windows, picks)
    decreases |windows|
  {
    if windows != [] {
      MultipleStep(|windows|, batchSize);
      var w1, w2 := windows[..batchSize], windows[batchSize..];
      var p1, p2 := picks[..batchSize], picks[batchSize..];
      calc {
        LstmPosts(IdentityLstm, windows, seqLength, picks, batchSize);
        PickPieces(w1, p1) + LstmPosts(IdentityLstm, w2, seqLength[batchSize..], p2, batchSize);
        { LstmPostsIdentity(w2, seqLength[batchSize..], p2, batchSize); }
        PickPieces(w1, p1) + PickPieces(w2, p2);
        { PickPiecesAppend(w1, p1, w2, p2); }
        PickPieces(w1 + w2, p1 + p2);
        { assert windows == w1 + w2 && picks == p1 + p2; }
        PickPieces(windows, picks);
      }
    }
  }

  /**
   * With each batch cut by its own pick ranges, stitching an identity
   * network's outputs gives back the utterance for every utterance length,
   * jitter in (0, max_length] and batch size.
   */
  lemma LstmPostsReassemble(feats: seq<Row>, maxLength: nat, jitter: nat, batchSize: nat)
    requires |feats| > 0 && batchSize > 0 && PackTerminates(|feats|, maxLength, jitter) && jitter <= maxLength
    ensures KeepsBatch(IdentityLstm)
    ensures var p := PackUtteranceSpec(feats, maxLength, jitter, batchSize);
            && p.Aligned() && |p.windows| % batchSize == 0
            && Take(LstmPosts(IdentityLstm, p.windows, p.seqLength, p.postPick, batchSize), |feats|) == feats
  {
    var p := PackUtteranceSpec(feats, maxLength, jitter, batchSize);
    PackUtteranceShape(feats, maxLength, jitter, batchSize);
    PackUtteranceReassembles(feats, maxLength, jitter, batchSize);
    LstmPostsIdentity(p.windows, p.seqLength, p.postPick, batchSize);
  }

  /** Under an identity network the first batch's stitched outputs open what predict_lstm collects. */
  lemma LstmAsWrittenFirstBatch(windows: seq<Window>, seqLength: seq<int>, firstPicks: seq<Pick>, batchSize: nat)
    requires batchSize > 0 && |windows| == |seqLength| && |windows| % batchSize == 0
    requires batchSize <= |windows| && |firstPicks| == batchSize
    ensures KeepsBatch(IdentityLstm)
    ensures PickPieces(windows[..batchSize], firstPicks) <= LstmPostsAsWritten(IdentityLstm, windows, seqLength, firstPicks, batchSize)
  {
  }

  /** With only zero-pick windows after the first batch, the first batch's pieces are all the pieces. */
  lemma FirstBatchPieces(windows: seq<Window>, picks: seq<Pick>, batchSize: nat)
    requires batchSize <= |windows| == |picks|
    requires forall k :: batchSize <= k < |picks| ==> picks[k] == Pick(0, 0)
    ensures PickPieces(windows[..batchSize], picks[..batchSize]) == PickPieces(windows, picks)
  {
    assert picks[batchSize..] == Fill(|picks| - batchSize, Pick(0, 0));
    PickPiecesEmptyPicks(windows[batchSize..], |picks| - batchSize);
    PickPiecesAppend(windows[..batchSize], picks[..batchSize], windows[batchSize..], picks[batchSize..]);
    assert windows == windows[..batchSize] + windows[batchSize..];
    assert picks == picks[..batchSize] + picks[batchSize..];
  }

  /**
   * As written, predict_lstm still gives back the utterance under an
   * identity network when the real windows fit in one batch: every batch
   * after the first holds only zero windows, whose outputs land after the
   * utterance and are cut off.
   */
  lemma LstmAsWrittenSingleBatch(feats: seq<Row>, maxLength: nat, jitter: nat, batchSize: nat)
    requires |feats| > 0 && batchSize > 0 && PackTerminates(|feats|, maxLength, jitter) && jitter <= maxLength
    requires |RealWindows(feats, maxLength, jitter, 0, 0).windows| <= batchSize
    ensures KeepsBatch(IdentityLstm)
    ensures var p := PackUtteranceSpec(feats, maxLength, jitter, batchSize);
            && p.Aligned() && |p.windows| % batchSize == 0 && |p.windows| >= batchSize
            && Take(LstmPostsAsWritten(IdentityLstm, p.windows, p.seqLength, p.postPick[..batchSize], batchSize), |feats|) == feats
  {
    var p := PackUtteranceSpec(feats, maxLength, jitter, batchSize);
    PackUtteranceShape(feats, maxLength, jitter, batchSize);
    PackUtteranceReassembles(feats, maxLength, jitter, batchSize);
    MultipleStep(|p.windows|, batchSize);
    FirstBatchPieces(p.windows, p.postPick, batchSize);
    LstmAsWrittenFirstBatch(p.windows, p.seqLength, p.postPick[..batchSize], batchSize);
  }

  /** Six one-dimensional frames holding 0.0 to 5.0. */
  function SixFrames(): seq<Row>
  {
    [[0.0], [1.0], [2.0], [3.0], [4.0], [5.0]]
  }

  /** pack_utterance on six frames, max_length 4, jitter 2, batch size 1: two real windows and one zero window. */
  lemma SixFramesPacking()
    ensures PackUtteranceSpec(SixFrames(), 4, 2, 1)
         == Packing([SixFrames()[0..4], SixFrames()[2..6], ZeroRows(4, 1)], [4, 4, 0], [Pick(0, 3), Pick(1, 4), Pick(0, 0)])
  {
    var feats := SixFrames();
    var w1 := feats[2..6];
    assert PySlice(feats, 2, 6) == w1;
    assert w1 + ZeroRows(0, 1) == w1;
    assert RealWindows(feats, 4, 2, 2, 1) == Packing([w1], [4], [Pick(1, 4)]);
    var zero := ZeroRows(4, 1);
    assert Fill(1, zero) == [zero] && Fill(1, 0) == [0] && Fill(1, Pick(0, 0)) == [Pick(0, 0)];
  }

  /** The first three rows of every window. */
  function FirstThreeRows(windows: seq<Window>): seq<Window>
    requires forall k :: 0 <= k < |windows| ==> |windows[k]| >= 3
  {
    if windows == [] then [] else [windows[0][0..3]] + FirstThreeRows(windows[1..])
  }

  /** The as-written stitching of one-window batches with the pick range (0, 3). */
  lemma {:induction false} StitchFirstPick(windows: seq<Window>, seqLength: seq<int>)
    requires |windows| == |seqLength| && forall k :: 0 <= k < |windows| ==> |windows[k]| >= 3
    ensures KeepsBatch(IdentityLstm)
    ensures LstmPostsAsWritten(IdentityLstm, windows, seqLength, [Pick(0, 3)], 1) == Flatten(FirstThreeRows(windows))
  {
    if windows != [] {
      var first := [Pick(0, 3)];
      StitchFirstPick(windows[1..], seqLength[1..]);
      calc {
        LstmPostsAsWritten(IdentityLstm, windows, seqLength, first, 1);
        PickPieces(windows[..1], first) + LstmPostsAsWritten(IdentityLstm, windows[1..], seqLength[1..], first, 1);
        { assert windows[..1] == [windows[0]] + [];
          PickPiecesCons(windows[0], [], Pick(0, 3), []); }
        windows[0][0..3] + Flatten(FirstThreeRows(windows[1..]));
        Flatten(FirstThreeRows(windows));
      }
    }
  }

  lemma FlattenThree<T>(a: seq<T>, b: seq<T>, c: seq<T>)
    ensures Flatten([a, b, c]) == a + b + c
  {
    var abc: seq<seq<T>> := [a, b, c];
    var bc: seq<seq<T>> := [b, c];
    var onlyC: seq<seq<T>> := [c];
    var none: seq<seq<T>> := [];
    assert abc[1..] == bc && bc[1..] == onlyC && onlyC[1..] == none;
    assert Flatten(onlyC) == c + Flatten(none);
  }

  /** The as-written stitching of the three windows of SixFramesPacking. */
  lemma SixFramesWindowsStitched()
    ensures KeepsBatch(IdentityLstm)
    ensures LstmPostsAsWritten(IdentityLstm, [SixFrames()[0..4], SixFrames()[2..6], ZeroRows(4, 1)], [4, 4, 0], [Pick(0, 3)], 1)
         == SixFrames()[0..3] + SixFrames()[2..5] + ZeroRows(4, 1)[0..3]
  {
    var feats := SixFrames();
    var windows := [feats[0..4], feats[2..6], ZeroRows(4, 1)];
    StitchFirstPick(windows, [4, 4, 0]);
    var a, b, c := feats[0..3], feats[2..5], ZeroRows(4, 1)[0..3];
    assert feats[0..4][0..3] == a && feats[2..6][0..3] == b;
    assert windows[1..][1..] == [ZeroRows(4, 1)];
    assert FirstThreeRows(windows[1..][1..]) == [c];
    assert FirstThreeRows(windows[1..]) == [b, c];
    assert FirstThreeRows(windows) == [a, b, c];
    FlattenThree(a, b, c);
  }

  lemma SixFramesStitched()
    ensures KeepsBatch(IdentityLstm)
    ensures var p := PackUtteranceSpec(SixFrames(), 4, 2, 1);
            && |p.windows| == |p.seqLength| == |p.postPick| == 3
            && Take(LstmPostsAsWritten(IdentityLstm, p.windows, p.seqLength, p.postPick[..1], 1), 6)
               == SixFrames()[0..3] + SixFrames()[2..5]
  {
    SixFramesPacking();
    SixFramesWindowsStitched();
    var p := PackUtteranceSpec(SixFrames(), 4, 2, 1);
    assert p.postPick[..1] == [Pick(0, 3)];
    var r := SixFrames()[0..3] + SixFrames()[2..5];
    assert (r + ZeroRows(4, 1)[0..3])[..6] == r;
  }

  /**
   * An utterance whose windows span two batches: six frames, max_length 4,
   * jitter 2, batch size 1. As written, predict_lstm cuts the second window
   * with the first window's range and gives frames 0 1 2 2 3 4.
   */
  lemma PredictLstmCounterexample()
    ensures KeepsBatch(IdentityLstm)
    ensures var p := PackUtteranceSpec(SixFrames(), 4, 2, 1);
            && |p.windows| == |p.seqLength| == |p.postPick| == 3
            && var r := Take(LstmPostsAsWritten(IdentityLstm, p.windows, p.seqLength, p.postPick[..1], 1), 6);
               |r| == 6 && r[3] == SixFrames()[2] && r != SixFrames()
  {
    SixFramesStitched();
    var feats := SixFrames();
    assert feats[2] != feats[3] by {
      assert feats[2][0] == 2.0 && feats[3][0] == 3.0;
    }
  }

  // ---------------------------------------------------------------------------
  // predict_jointdnn

  /** The outputs predict_jointdnn collects: each batch through the network, every window's outputs stacked. */
  function JointdnnPosts<O>(model: seq<Window> -> seq<seq<O>>, windows: seq<Window>, batchSize: nat): seq<O>
    requires batchSize > 0 && |windows| % batchSize == 0
    decreases |windows|
  {
    if windows == [] then []
    else
      MultipleStep(|windows|, batchSize);
      Flatten(model(windows[..batchSize])) + JointdnnPosts(model, windows[batchSize..], batchSize)
  }

  lemma JointdnnStep<O>(model: seq<Window> -> seq<seq<O>>, windows: seq<Window>, batchSize: nat, start: nat)
    requires batchSize > 0 && start + batchSize <= |windows| && (|windows| - start) % batchSize == 0
    ensures (|windows| - (start + batchSize)) % batchSize == 0
    ensures JointdnnPosts(model, windows[start..], batchSize)
         == Flatten(model(windows[start..start + batchSize])) + JointdnnPosts(model, windows[start + batchSize..], batchSize)
  {
    MultipleStep(|windows| - start, batchSize);
    assert windows[start..][..batchSize] == windows[start..start + batchSize];
    assert windows[start..][batchSize..] == windows[start + batchSize..];
  }

  /** The part of PackUtteranceJointdnnShape predict_jointdnn's batch loop relies on. */
  lemma PackUtteranceJointdnnBatches(feats: seq<Row>, maxLength: nat, batchSize: nat)
    requires |feats| > 0 && maxLength > 0 && batchSize > 0
    ensures |PackUtteranceJointdnnSpec(feats, maxLength, batchSize)| % batchSize == 0
    ensures |PackUtteranceJointdnnSpec(feats, maxLength, batchSize)| >= batchSize
  {
    var tiles := Tiles(feats, maxLength, 0);
    var padLength := batchSize - |tiles| % batchSize;
    PadToMultiple(|tiles|, batchSize);
    assert |PackUtteranceJointdnnSpec(feats, maxLength, batchSize)| == |tiles| + padLength;
    MultipleStep(|tiles| + padLength, batchSize);
  }

  /** predict_jointdnn's loop state at batch boundary `start`: the outputs so far and the rest make up the whole. */
  ghost predicate JointdnnStitchedTo<O>(model: seq<Window> -> seq<seq<O>>, windows: seq<Window>, batchSize: nat,
                                        start: nat, acc: seq<O>, whole: seq<O>)
    requires batchSize > 0
  {
    && start <= |windows| && (|windows| - start) % batchSize == 0
    && acc + JointdnnPosts(model, windows[start..], batchSize) == whole
  }

  /** One pass of predict_jointdnn's loop: the batch at `batchStart` through the network, its outputs stacked. */
  method JointdnnBatch<O>(featsPacked: seq<Window>, batchSize: nat, model: seq<Window> -> seq<seq<O>>,
                          batchStart: nat, acc: seq<O>, ghost whole: seq<O>) returns (accOut: seq<O>)
    requires batchSize > 0 && batchStart + batchSize <= |featsPacked|
    requires JointdnnStitchedTo(model, featsPacked, batchSize, batchStart, acc, whole)
    ensures JointdnnStitchedTo(model, featsPacked, batchSize, batchStart + batchSize, accOut, whole)
  {
    var batchEnd := batchStart + batchSize;
    var batchPosts := model(featsPacked[batchStart..batchEnd]);
    JointdnnStep(model, featsPacked, batchSize, batchStart);
    ghost var rest := JointdnnPosts(model, featsPacked[batchEnd..], batchSize);
    assert acc + (Flatten(batchPosts) + rest) == (acc + Flatten(batchPosts)) + rest;
    accOut := acc + Flatten(batchPosts);
  }

  /** predict_jointdnn: windows of buckets_tr[0] frames, batch by batch, outputs stacked and cut to the utterance length. */
  method PredictJointdnn<O>(feats: seq<Row>, bucketsTr: seq<int>, batchSize: nat,
                            model: seq<Window> -> seq<seq<O>>) returns (posts: seq<O>)
    requires |feats| > 0 && batchSize > 0 && |bucketsTr| > 0 && bucketsTr[0] > 0
    ensures |PackUtteranceJointdnnSpec(feats, bucketsTr[0], batchSize)| % batchSize == 0
    ensures posts == Take(JointdnnPosts(model, PackUtteranceJointdnnSpec(feats, bucketsTr[0], batchSize), batchSize), |feats|)
  {
    var featsPacked := PackUtteranceJointdnn(feats, bucketsTr[0], batchSize);
    PackUtteranceJointdnnBatches(feats, bucketsTr[0], batchSize);
    var numBatches := |featsPacked| / batchSize;
    ghost var whole := JointdnnPosts(model, featsPacked, batchSize);
    var acc: seq<O> := [];
    var i, batchStart := 0, 0;
    assert featsPacked[0..] == featsPacked;
    while i < numBatches
      invariant i <= numBatches && batchStart == i * batchSize
      invariant JointdnnStitchedTo(model, featsPacked, batchSize, batchStart, acc, whole)
    {
      BatchBounds(|featsPacked|, batchSize, i);
      acc := JointdnnBatch(featsPacked, batchSize, model, batchStart, acc, whole);
      MulSucc(i, batchSize);
      i, batchStart := i + 1, batchStart + batchSize;
    }
    BatchBounds(|featsPacked|, batchSize, i);
    assert featsPacked[batchStart..] == [];
    posts := Take(acc, |feats|);
  }

  function IdentityWindows(batch: seq<Window>): seq<Window>
  {
    batch
  }

  lemma {:induction false} JointdnnPostsIdentity(windows: seq<Window>, batchSize: nat)
    requires batchSize > 0 && |windows| % batchSize == 0
    ensures JointdnnPosts(IdentityWindows, windows, batchSize) == Flatten(windows)
    decreases |windows|
  {
    if windows != [] {
      MultipleStep(|windows|, batchSize);
      JointdnnPostsIdentity(windows[batchSize..], batchSize);
      FlattenAppend(windows[..batchSize], windows[batchSize..]);
      assert windows == windows[..batchSize] + windows[batchSize..];
    }
  }

  /** With an identity network predict_jointdnn gives back the utterance. */
  lemma PredictJointdnnIdentity(feats: seq<Row>, maxLength: nat, batchSize: nat)
    requires |feats| > 0 && maxLength > 0 && batchSize > 0
    ensures |PackUtteranceJointdnnSpec(feats, maxLength, batchSize)| % batchSize == 0
    ensures Take(JointdnnPosts(IdentityWindows, PackUtteranceJointdnnSpec(feats, maxLength, batchSize), batchSize), |feats|) == feats
  {
    PackUtteranceJointdnnShape(feats, maxLength, batchSize);
    JointdnnPostsIdentity(PackUtteranceJointdnnSpec(feats, maxLength, batchSize), batchSize);
  }

  // ---------------------------------------------------------------------------
  // get_bucket_id, gen_utt_embedding

  /** The bucket get_bucket_id picks for `length`, searching from bucket `i` on. */
  function BucketFrom(buckets: seq<int>, length: int, i: nat): (r: nat)
    requires i < |buckets|
    ensures i <= r < |buckets|
    decreases |buckets| - i
  {
    if i < |buckets| - 1 && length > buckets[i] then BucketFrom(buckets, length, i + 1) else i
  }

  /** The bucket get_bucket_id picks for `length` (0 when there are none). */
  function BucketOf(buckets: seq<int>, length: int): (r: nat)
    ensures |buckets| > 0 ==> r < |buckets|
  {
    if |buckets| == 0 then 0 else BucketFrom(buckets, length, 0)
  }

  /** get_bucket_id: the first bucket that holds `length` frames, or the last bucket (0 when there are none). */
  method GetBucketId(buckets: seq<int>, length: int) returns (bucketId: nat)
    ensures |buckets| == 0 ==> bucketId == 0
    ensures |buckets| > 0 ==> bucketId < |buckets|
    ensures forall k :: 0 <= k < bucketId ==> buckets[k] < length
    ensures bucketId < |buckets| - 1 ==> length <= buckets[bucketId]
    ensures bucketId == BucketOf(buckets, length)
  {
    bucketId := 0;
    while bucketId < |buckets| - 1 && length > buckets[bucketId]
      invariant |buckets| == 0 ==> bucketId == 0
      invariant |buckets| > 0 ==> bucketId < |buckets|
      invariant forall k :: 0 <= k < bucketId ==> buckets[k] < length
      invariant |buckets| > 0 ==> BucketFrom(buckets, length, bucketId) == BucketOf(buckets, length)
    {
      bucketId := bucketId + 1;
    }
  }

  /**
   * The windows and masks gen_utt_embedding feeds the network: whole
   * buckets from frame 0 with all-ones masks, then, when frames are left
   * over, one window shifted back to end at the last frame (or padded with
   * zero rows when the utterance is shorter than the bucket) whose mask
   * marks its real frames.
   */
  method UttEmbeddingWindows(feats: seq<Row>, buckets: seq<int>) returns (bucketId: nat, windows: seq<Window>, masks: seq<seq<int>>)
    requires |feats| > 0 && |buckets| > 0 && buckets[BucketOf(buckets, |feats|)] > 0
    ensures bucketId == BucketOf(buckets, |feats|) && bucketId < |buckets|
    ensures forall k :: 0 <= k < bucketId ==> buckets[k] < |feats|
    ensures bucketId < |buckets| - 1 ==> |feats| <= buckets[bucketId]
    ensures var b := buckets[bucketId];
            var full := |feats| / b;
            && |windows| == |masks| == full + (if |feats| % b != 0 then 1 else 0)
            && (forall k :: 0 <= k < full ==>
                  k * b + b <= |feats| && windows[k] == feats[k * b..k * b + b] && masks[k] == Fill(b, 1))
            && (|feats| % b != 0 ==>
                  var s := if |feats| < b then 0 else |feats| - b;
                  && windows[full] == feats[s..] + ZeroRows(s + b - |feats|, |feats[0]|)
                  && masks[full] == Fill(|feats| - s, 1) + Fill(s + b - |feats|, 0))
  {
    bucketId := GetBucketId(buckets, |feats|);
    var bucketSize := buckets[bucketId];
    var startIndex := 0;
    windows, masks := [], [];
    var mask := Fill(bucketSize, 1);
    while startIndex + bucketSize <= |feats|
      invariant startIndex == |windows| * bucketSize && startIndex <= |feats|
      invariant |masks| == |windows|
      invariant forall k :: 0 <= k < |windows| ==>
                  k * bucketSize + bucketSize <= |feats| && windows[k] == feats[k * bucketSize..k * bucketSize + bucketSize]
                  && masks[k] == Fill(bucketSize, 1)
      decreases |feats| - startIndex
    {
      var endIndex := startIndex + bucketSize;
      windows, masks := windows + [feats[startIndex..endIndex]], masks + [mask];
      MulSucc(|windows| - 1, bucketSize);
      startIndex := endIndex;
    }
    DivBetween(|feats|, bucketSize, |windows|);
    // last one, shifted back a bit if possible
    if startIndex < |feats| {
      startIndex := if |feats| - bucketSize < 0 then 0 else |feats| - bucketSize;
      var numZeros := startIndex + bucketSize - |feats|;
      var zeros2pad := ZeroRows(numZeros, |feats[0]|);
      var bucketFeats;
      if numZeros == 0 {
        bucketFeats := feats[startIndex..];
        assert Fill(|feats| - startIndex, 1) + Fill(0, 0) == mask;
      } else {
        bucketFeats := feats[startIndex..] + zeros2pad;
        mask := Fill(|feats| - startIndex, 1) + Fill(numZeros, 0);
      }
      windows, masks := windows + [bucketFeats], masks + [mask];
    }
  }
}
