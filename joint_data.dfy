/**
 * The bucketed utterance batcher used for joint speech recognition and
 * speaker identification. Each split of the data set is cut into windows of
 * one bucket length (a random bucket per split) with a sliding stride,
 * shuffled window by window, and served batch_size windows at a time; the
 * windows left over when a batch no longer fits are thrown away.
 *
 * As for the frame batcher, the Kaldi pipelines that produce a split are a
 * given list of records per split, and numpy's global random generator is a
 * pair of given functions of the draw number: one for the bucket index, one
 * for the shuffle permutation.
 */
module JointData {
  import opened Common

  // ---------------------------------------------------------------------------
  // Configuration

  /** The configuration entries the generator reads (None: not given). */
  datatype Conf = Conf(
    batchSize: Option<nat>,
    slidingWindow: Option<nat>,
    maxLength: Option<nat>,
    loopMode: Option<bool>,
    splitPerIter: Option<nat>)

  /** The settings the constructor derives from the configuration. */
  datatype Settings = Settings(
    batchSize: nat,
    slidingWindow: nat,
    maxLength: nat,
    loop: bool,
    splitPerIter: Option<nat>,
    buckets: seq<nat>)

  function Get<T>(o: Option<T>, default: T): T
  {
    if o.Some? then o.value else default
  }

  /**
   * The constructor's configuration checks. Loop mode and split_per_iter are
   * read only for the "train" set; loop mode without split_per_iter is the
   * RuntimeError (None); missing buckets become the single bucket
   * [max_length].
   */
  function Configure(conf: Conf, name: string, numGpus: nat, buckets: Option<seq<nat>>): (r: Option<Settings>)
    ensures r.None? <==> name == "train" && Get(conf.loopMode, false) && conf.splitPerIter.None?
    ensures r.Some? ==>
              && r.value.batchSize == Get<nat>(conf.batchSize, 256) * numGpus
              && r.value.slidingWindow == Get<nat>(conf.slidingWindow, 200)
              && r.value.maxLength == Get<nat>(conf.maxLength, 400)
              && (name != "train" ==> !r.value.loop && r.value.splitPerIter.None?)
              && (r.value.loop ==> r.value.splitPerIter.Some?)
              && r.value.buckets == Get(buckets, [r.value.maxLength])
  {
    var loop := if name == "train" then Get(conf.loopMode, false) else false;
    var splitPerIter := if name == "train" then conf.splitPerIter else None;
    if loop && splitPerIter.None? then None
    else
      var maxLength := Get<nat>(conf.maxLength, 400);
      Some(Settings(Get<nat>(conf.batchSize, 256) * numGpus, Get<nat>(conf.slidingWindow, 200), maxLength,
                    loop, splitPerIter, Get(buckets, [maxLength])))
  }

  // ---------------------------------------------------------------------------
  // Reading a split

  /** The frames, frame-level ASR labels and speaker labels of one split. */
  datatype SplitData = SplitData(feats: seq<seq<Row>>, asrLabels: seq<seq<int>>, sidLabels: seq<int>)

  /**
   * get_next_split_data over a split's records: keep, in stream order, the
   * utterances that have both an ASR and a speaker label. None is the
   * "No feats are loaded" error.
   */
  method GetNextSplitData(records: seq<Utt>, asrLabels: map<string, seq<int>>, sidLabels: map<string, int>)
    returns (r: Option<SplitData>)
    ensures r.None? <==> Labelled(records, asrLabels.Keys * sidLabels.Keys) == []
    ensures r.Some? ==> var utts := Labelled(records, asrLabels.Keys * sidLabels.Keys);
                        r.value == SplitData(FeatsOf(utts), LabelsOf(utts, asrLabels), LabelsOf(utts, sidLabels))
  {
    ghost var known := asrLabels.Keys * sidLabels.Keys;
    var featList: seq<seq<Row>> := [];
    var asrLabelList: seq<seq<int>> := [];
    var sidLabelList: seq<int> := [];
    for i := 0 to |records|
      invariant var utts := Labelled(records[..i], known);
                && featList == FeatsOf(utts)
                && asrLabelList == LabelsOf(utts, asrLabels)
                && sidLabelList == LabelsOf(utts, sidLabels)
    {
      var utt := records[i];
      ghost var kept := Labelled(records[..i], known);
      LabelledSnoc(records[..i], utt, known);
      assert records[..i + 1] == records[..i] + [utt];
      if utt.uid in asrLabels && utt.uid in sidLabels {
        FeatsOfSnoc(kept, utt);
        LabelsOfSnoc(kept, utt, asrLabels);
        LabelsOfSnoc(kept, utt, sidLabels);
        featList := featList + [utt.feats];
        asrLabelList := asrLabelList + [asrLabels[utt.uid]];
        sidLabelList := sidLabelList + [sidLabels[utt.uid]];
      }
    }
    assert records[..|records|] == records;
    if |featList| == 0 || |asrLabelList| == 0 {
      return None;
    }
    r := Some(SplitData(featList, asrLabelList, sidLabelList));
  }

  // ---------------------------------------------------------------------------
  // Cutting utterances into windows (pack_utt_data)

  /** A 0/1 validity mask over the frames of a window. */
  type Mask = seq<int>

  /** Parallel lists of windows, their ASR labels, speaker labels and masks. */
  datatype Packed = Packed(x: seq<Window>, y: seq<seq<int>>, z: seq<int>, mask: seq<Mask>)
  {
    predicate Aligned()
    {
      |x| == |y| == |z| == |mask|
    }

    function Append(other: Packed): Packed
    {
      Packed(x + other.x, y + other.y, z + other.z, mask + other.mask)
    }

    /** Entries `lo` to `hi` of all four lists. */
    function Slice(lo: nat, hi: nat): Packed
      requires Aligned() && lo <= hi <= |x|
    {
      Packed(x[lo..hi], y[lo..hi], z[lo..hi], mask[lo..hi])
    }
  }

  const NoWindows: Packed := Packed([], [], [], [])

  /**
   * What pack_utt_data needs of one utterance: one ASR label per frame
   * (asserted), and a loop that ends: with a zero stride only an utterance
   * that fits in one window is cut (a longer one loops forever), and it must
   * have a frame to give the padding its width.
   */
  predicate Cuttable(feat: seq<Row>, lab: seq<int>, maxLength: nat, slidingWindow: nat)
  {
    |lab| == |feat| && (slidingWindow > 0 || 0 < |feat| <= maxLength)
  }

  /**
   * The windows pack_utt_data cuts from one utterance from frame `start` on:
   * full windows of max_length frames every sliding_window frames while a
   * window ends before the last frame, then one zero-padded tail window if
   * at least sliding_window frames remain (otherwise the rest is dropped).
   */
  function CutUtt(feat: seq<Row>, lab: seq<int>, sid: int, maxLength: nat, slidingWindow: nat, start: nat): Packed
    requires |lab| == |feat|
    requires slidingWindow > 0 || (0 < |feat| <= start + maxLength)
    decreases |feat| - start
  {
    if start + maxLength < |feat| then
      Packed([feat[start..start + maxLength]], [lab[start..start + maxLength]], [sid], [Fill(maxLength, 1)])
        .Append(CutUtt(feat, lab, sid, maxLength, slidingWindow, start + slidingWindow))
    else if |feat| - start >= slidingWindow then
      var numZero := maxLength + start - |feat|;
      Packed([feat[start..] + ZeroRows(numZero, |feat[0]|)], [lab[start..] + Fill(numZero, 0)], [sid],
             [Fill(|feat| - start, 1) + Fill(numZero, 0)])
    else
      NoWindows
  }

  lemma AppendAssoc(a: Packed, b: Packed, c: Packed)
    ensures a.Append(b).Append(c) == a.Append(b.Append(c))
  {
  }

  /** The inner loop of pack_utt_data: cut one utterance. */
  method CutUtterance(feat: seq<Row>, lab: seq<int>, sid: int, maxLength: nat, slidingWindow: nat)
    returns (p: Packed)
    requires Cuttable(feat, lab, maxLength, slidingWindow)
    ensures p == CutUtt(feat, lab, sid, maxLength, slidingWindow, 0)
  {
    var startIndex: nat := 0;
    p := NoWindows;
    while startIndex + maxLength < |feat|
      invariant slidingWindow > 0 || startIndex == 0
      invariant UttCutSoFar(feat, lab, sid, maxLength, slidingWindow, startIndex, p)
      decreases |feat| - startIndex
    {
      var endIndex := startIndex + maxLength;
      var window := Packed([feat[startIndex..endIndex]], [lab[startIndex..endIndex]], [sid], [Fill(maxLength, 1)]);
      CutUttFullStep(feat, lab, sid, maxLength, slidingWindow, startIndex, p);
      p := p.Append(window);
      startIndex := startIndex + slidingWindow;
    }
    // the last part, padded with zeros, if it is long enough
    if |feat| - startIndex >= slidingWindow {
      var numZero: nat := maxLength + startIndex - |feat|;
      CutUttTailStep(feat, lab, sid, maxLength, slidingWindow, startIndex, p);
      p := p.Append(Packed([feat[startIndex..] + ZeroRows(numZero, |feat[0]|)],
                           [lab[startIndex..] + Fill(numZero, 0)], [sid],
                           [Fill(|feat| - startIndex, 1) + Fill(numZero, 0)]));
    } else {
      CutUttDropStep(feat, lab, sid, maxLength, slidingWindow, startIndex, p);
    }
  }

  /**
   * The state of pack_utt_data's window loop at frame `start`: the windows
   * cut so far, followed by the windows from `start` on, are all of them.
   */
  ghost predicate UttCutSoFar(feat: seq<Row>, lab: seq<int>, sid: int, maxLength: nat, slidingWindow: nat,
                              start: nat, acc: Packed)
    requires Cuttable(feat, lab, maxLength, slidingWindow) && (slidingWindow > 0 || start == 0)
  {
    acc.Append(CutUtt(feat, lab, sid, maxLength, slidingWindow, start)) == CutUtt(feat, lab, sid, maxLength, slidingWindow, 0)
  }

  lemma CutUttFullStep(feat: seq<Row>, lab: seq<int>, sid: int, maxLength: nat, slidingWindow: nat,
                       start: nat, acc: Packed)
    requires Cuttable(feat, lab, maxLength, slidingWindow) && slidingWindow > 0 && start + maxLength < |feat|
    requires UttCutSoFar(feat, lab, sid, maxLength, slidingWindow, start, acc)
    ensures UttCutSoFar(feat, lab, sid, maxLength, slidingWindow, start + slidingWindow,
                        acc.Append(Packed([feat[start..start + maxLength]], [lab[start..start + maxLength]], [sid], [Fill(maxLength, 1)])))
  {
    var w := Packed([feat[start..start + maxLength]], [lab[start..start + maxLength]], [sid], [Fill(maxLength, 1)]);
    AppendAssoc(acc, w, CutUtt(feat, lab, sid, maxLength, slidingWindow, start + slidingWindow));
  }

  lemma CutUttTailStep(feat: seq<Row>, lab: seq<int>, sid: int, maxLength: nat, slidingWindow: nat,
                       start: nat, acc: Packed)
    requires Cuttable(feat, lab, maxLength, slidingWindow) && (slidingWindow > 0 || start == 0)
    requires |feat| <= start + maxLength && |feat| - start >= slidingWindow
    requires UttCutSoFar(feat, lab, sid, maxLength, slidingWindow, start, acc)
    ensures var numZero := maxLength + start - |feat|;
            acc.Append(Packed([feat[start..] + ZeroRows(numZero, |feat[0]|)], [lab[start..] + Fill(numZero, 0)], [sid],
                              [Fill(|feat| - start, 1) + Fill(numZero, 0)]))
            == CutUtt(feat, lab, sid, maxLength, slidingWindow, 0)
  {
  }

  lemma CutUttDropStep(feat: seq<Row>, lab: seq<int>, sid: int, maxLength: nat, slidingWindow: nat,
                       start: nat, acc: Packed)
    requires Cuttable(feat, lab, maxLength, slidingWindow) && (slidingWindow > 0 || start == 0)
    requires |feat| <= start + maxLength && |feat| - start < slidingWindow
    requires UttCutSoFar(feat, lab, sid, maxLength, slidingWindow, start, acc)
    ensures acc == CutUtt(feat, lab, sid, maxLength, slidingWindow, 0)
  {
    assert acc.Append(NoWindows) == acc;
  }

  /** zip stops at its shortest input. */
  function ZipLength(features: seq<seq<Row>>, sidLabels: seq<int>): (n: nat)
    ensures n <= |features| && n <= |sidLabels|
    ensures n == |features| || n == |sidLabels|
  {
    if |features| <= |sidLabels| then |features| else |sidLabels|
  }

  /** The windows of the first `n` utterances, utterance after utterance. */
  function PackUtts(features: seq<seq<Row>>, asrLabels: seq<seq<int>>, sidLabels: seq<int>,
                    maxLength: nat, slidingWindow: nat, n: nat): Packed
    requires n <= |features| && n <= |asrLabels| && n <= |sidLabels|
    requires forall i :: 0 <= i < n ==> Cuttable(features[i], asrLabels[i], maxLength, slidingWindow)
  {
    if n == 0 then NoWindows
    else
      assert Cuttable(features[n - 1], asrLabels[n - 1], maxLength, slidingWindow);
      PackUtts(features, asrLabels, sidLabels, maxLength, slidingWindow, n - 1)
        .Append(CutUtt(features[n - 1], asrLabels[n - 1], sidLabels[n - 1], maxLength, slidingWindow, 0))
  }

  /**
   * pack_utt_data: cut every utterance with the chosen bucket's length as
   * max_length and append all windows, in utterance order.
   */
  method PackUttData(features: seq<seq<Row>>, asrLabels: seq<seq<int>>, sidLabels: seq<int>,
                     buckets: seq<nat>, bucketId: nat, slidingWindow: nat) returns (p: Packed)
    requires |features| == |asrLabels| && bucketId < |buckets|
    requires forall i :: 0 <= i < ZipLength(features, sidLabels) ==>
               Cuttable(features[i], asrLabels[i], buckets[bucketId], slidingWindow)
    ensures p == PackUtts(features, asrLabels, sidLabels, buckets[bucketId], slidingWindow, ZipLength(features, sidLabels))
  {
    var maxLength := buckets[bucketId];
    p := NoWindows;
    for u := 0 to ZipLength(features, sidLabels)
      invariant p == PackUtts(features, asrLabels, sidLabels, maxLength, slidingWindow, u)
    {
      var windows := CutUtterance(features[u], asrLabels[u], sidLabels[u], maxLength, slidingWindow);
      p := p.Append(windows);
    }
  }

  // ---------------------------------------------------------------------------
  // Properties of the cut

  /**
   * An utterance gives no window exactly when it fits in one window and is
   * shorter than sliding_window: the loop cuts nothing and the tail is
   * dropped.
   */
  lemma CutUttEmpty(feat: seq<Row>, lab: seq<int>, sid: int, maxLength: nat, slidingWindow: nat)
    requires Cuttable(feat, lab, maxLength, slidingWindow)
    ensures CutUtt(feat, lab, sid, maxLength, slidingWindow, 0).x == [] <==> |feat| <= maxLength && |feat| < slidingWindow
  {
  }

  /**
   * pack_utt_data gives no window exactly when every utterance fits in one
   * window and is shorter than sliding_window.
   */
  lemma {:induction false} PackUttsEmpty(features: seq<seq<Row>>, asrLabels: seq<seq<int>>, sidLabels: seq<int>,
                                         maxLength: nat, slidingWindow: nat, n: nat)
    requires n <= |features| && n <= |asrLabels| && n <= |sidLabels|
    requires forall i :: 0 <= i < n ==> Cuttable(features[i], asrLabels[i], maxLength, slidingWindow)
    ensures PackUtts(features, asrLabels, sidLabels, maxLength, slidingWindow, n).x == []
            <==> forall i :: 0 <= i < n ==> |features[i]| <= maxLength && |features[i]| < slidingWindow
  {
    if n > 0 {
      PackUttsEmpty(features, asrLabels, sidLabels, maxLength, slidingWindow, n - 1);
      CutUttEmpty(features[n - 1], asrLabels[n - 1], sidLabels[n - 1], maxLength, slidingWindow);
    }
  }

  /**
   * Every window, label window and mask cut from an utterance has exactly
   * max_length entries, and every window carries the utterance's speaker
   * label.
   */
  lemma {:induction false} CutUttShape(feat: seq<Row>, lab: seq<int>, sid: int, maxLength: nat, slidingWindow: nat, start: nat)
    requires |lab| == |feat|
    requires slidingWindow > 0 || (0 < |feat| <= start + maxLength)
    ensures var p := CutUtt(feat, lab, sid, maxLength, slidingWindow, start);
            && p.Aligned()
            && forall k :: 0 <= k < |p.x| ==>
                 |p.x[k]| == maxLength && |p.y[k]| == maxLength && |p.mask[k]| == maxLength && p.z[k] == sid
    decreases |feat| - start
  {
    if start + maxLength < |feat| {
      CutUttShape(feat, lab, sid, maxLength, slidingWindow, start + slidingWindow);
    }
  }

  lemma {:induction false} CutUttAligned(feat: seq<Row>, lab: seq<int>, sid: int, maxLength: nat, slidingWindow: nat, start: nat)
    requires |lab| == |feat|
    requires slidingWindow > 0 || (0 < |feat| <= start + maxLength)
    ensures CutUtt(feat, lab, sid, maxLength, slidingWindow, start).Aligned()
    decreases |feat| - start
  {
    if start + maxLength < |feat| {
      CutUttAligned(feat, lab, sid, maxLength, slidingWindow, start + slidingWindow);
    }
  }

  /**
   * Window `k` cut from frame `start` on starts at frame
   * `start + k * sliding_window`. While such a window ends before the last
   * frame it is the plain slice of frames and labels with an all-ones mask;
   * otherwise it is the last window, the tail: at least sliding_window
   * frames remained, and frames and labels are zero-padded to max_length
   * with a mask of as many ones as real frames followed by zeros.
   */
  lemma {:induction false} CutUttAt(feat: seq<Row>, lab: seq<int>, sid: int, maxLength: nat, slidingWindow: nat, start: nat, k: nat)
    requires |lab| == |feat|
    requires slidingWindow > 0 || (0 < |feat| <= start + maxLength)
    requires k < |CutUtt(feat, lab, sid, maxLength, slidingWindow, start).x|
    ensures var p := CutUtt(feat, lab, sid, maxLength, slidingWindow, start);
            var s := start + k * slidingWindow;
            && p.Aligned()
            && (s + maxLength < |feat| ==>
                  && p.x[k] == feat[s..s + maxLength] && p.y[k] == lab[s..s + maxLength]
                  && p.mask[k] == Fill(maxLength, 1))
            && (|feat| <= s + maxLength ==>
                  && k == |p.x| - 1
                  && slidingWindow <= |feat| - s
                  && p.x[k] == feat[s..] + ZeroRows(maxLength + s - |feat|, |feat[0]|)
                  && p.y[k] == lab[s..] + Fill(maxLength + s - |feat|, 0)
                  && p.mask[k] == Fill(|feat| - s, 1) + Fill(maxLength + s - |feat|, 0))
    decreases |feat| - start
  {
    CutUttAligned(feat, lab, sid, maxLength, slidingWindow, start);
    var s := start + k * slidingWindow;
    if s + maxLength < |feat| {
      CutUttFullAt(feat, lab, sid, maxLength, slidingWindow, start, k, s);
    } else {
      CutUttTailAt(feat, lab, sid, maxLength, slidingWindow, start, k, s);
    }
  }

  lemma {:induction false} CutUttFullAt(feat: seq<Row>, lab: seq<int>, sid: int, maxLength: nat, slidingWindow: nat,
                                        start: nat, k: nat, s: nat)
    requires |lab| == |feat|
    requires slidingWindow > 0 || (0 < |feat| <= start + maxLength)
    requires k < |CutUtt(feat, lab, sid, maxLength, slidingWindow, start).x|
    requires s == start + k * slidingWindow && s + maxLength < |feat|
    ensures var p := CutUtt(feat, lab, sid, maxLength, slidingWindow, start);
            && p.Aligned()
            && p.x[k] == feat[s..s + maxLength] && p.y[k] == lab[s..s + maxLength]
            && p.mask[k] == Fill(maxLength, 1)
    decreases |feat| - start
  {
    CutUttAligned(feat, lab, sid, maxLength, slidingWindow, start);
    if k > 0 {
      Stride(start, slidingWindow, k);
      CutUttFullAt(feat, lab, sid, maxLength, slidingWindow, start + slidingWindow, k - 1, s);
      var rest := CutUtt(feat, lab, sid, maxLength, slidingWindow, start + slidingWindow);
      var p := CutUtt(feat, lab, sid, maxLength, slidingWindow, start);
      assert |p.x| == |rest.x| + 1;
      assert p.x[k] == rest.x[k - 1] && p.y[k] == rest.y[k - 1] && p.mask[k] == rest.mask[k - 1];
    }
  }

  lemma {:induction false} CutUttTailAt(feat: seq<Row>, lab: seq<int>, sid: int, maxLength: nat, slidingWindow: nat,
                                        start: nat, k: nat, s: nat)
    requires |lab| == |feat|
    requires slidingWindow > 0 || (0 < |feat| <= start + maxLength)
    requires k < |CutUtt(feat, lab, sid, maxLength, slidingWindow, start).x|
    requires s == start + k * slidingWindow && |feat| <= s + maxLength
    ensures var p := CutUtt(feat, lab, sid, maxLength, slidingWindow, start);
            && p.Aligned()
            && k == |p.x| - 1
            && slidingWindow <= |feat| - s
            && p.x[k] == feat[s..] + ZeroRows(maxLength + s - |feat|, |feat[0]|)
            && p.y[k] == lab[s..] + Fill(maxLength + s - |feat|, 0)
            && p.mask[k] == Fill(|feat| - s, 1) + Fill(maxLength + s - |feat|, 0)
    decreases |feat| - start
  {
    CutUttAligned(feat, lab, sid, maxLength, slidingWindow, start);
    if start + maxLength < |feat| {
      if k == 0 {
        assert false;
      }
      Stride(start, slidingWindow, k);
      CutUttTailAt(feat, lab, sid, maxLength, slidingWindow, start + slidingWindow, k - 1, s);
      var rest := CutUtt(feat, lab, sid, maxLength, slidingWindow, start + slidingWindow);
      var p := CutUtt(feat, lab, sid, maxLength, slidingWindow, start);
      assert |p.x| == |rest.x| + 1;
      assert p.x[k] == rest.x[k - 1] && p.y[k] == rest.y[k - 1] && p.mask[k] == rest.mask[k - 1];
    } else {
      assert k == 0 && s == start;
      assert |feat| - start >= slidingWindow;
    }
  }

  /**
   * Where the cut stops: when the last window is a full one (or there is
   * none), the next start would already be past the full-window loop and
   * fewer than sliding_window frames remain there, so that tail was dropped.
   */
  lemma {:induction false} CutUttDropsShortTail(feat: seq<Row>, lab: seq<int>, sid: int, maxLength: nat, slidingWindow: nat, start: nat)
    requires |lab| == |feat|
    requires slidingWindow > 0 || (0 < |feat| <= start + maxLength)
    ensures var p := CutUtt(feat, lab, sid, maxLength, slidingWindow, start);
            var n := |p.x|;
            var s := start + n * slidingWindow;
            (n == 0 || start + (n - 1) * slidingWindow + maxLength < |feat|) ==>
              |feat| <= s + maxLength && |feat| - s < slidingWindow
    decreases |feat| - start
  {
    var p := CutUtt(feat, lab, sid, maxLength, slidingWindow, start);
    if start + maxLength < |feat| {
      var rest := CutUtt(feat, lab, sid, maxLength, slidingWindow, start + slidingWindow);
      CutUttDropsShortTail(feat, lab, sid, maxLength, slidingWindow, start + slidingWindow);
      var n := |rest.x|;
      assert |p.x| == n + 1;
      Stride(start, slidingWindow, n + 1);
      if n > 0 {
        Stride(start, slidingWindow, n);
      }
    }
  }

  /** A window's mask counts its real frames: max_length for a full window, the remaining frames for the tail. */
  lemma MaskFrames(realFrames: nat, numZero: nat)
    ensures Sum(Fill(realFrames, 1) + Fill(numZero, 0)) == realFrames
  {
    SumAppend(Fill(realFrames, 1), Fill(numZero, 0));
    SumOnes(realFrames);
    SumZeros(numZero);
  }

  /** Twelve frames with windows and stride of five: two full windows, and the two-frame rest is dropped. */
  lemma TwelveFramesTwoWindows(feat: seq<Row>, lab: seq<int>, sid: int)
    requires |feat| == |lab| == 12
    ensures var p := CutUtt(feat, lab, sid, 5, 5, 0);
            p.x == [feat[0..5], feat[5..10]] && p.mask == [Fill(5, 1), Fill(5, 1)]
  {
    assert CutUtt(feat, lab, sid, 5, 5, 10) == NoWindows;
  }

  /** The windows of several utterances have the same shape as those of one. */
  lemma {:induction false} PackUttsShape(features: seq<seq<Row>>, asrLabels: seq<seq<int>>, sidLabels: seq<int>,
                                         maxLength: nat, slidingWindow: nat, n: nat)
    requires n <= |features| && n <= |asrLabels| && n <= |sidLabels|
    requires forall i :: 0 <= i < n ==> Cuttable(features[i], asrLabels[i], maxLength, slidingWindow)
    ensures var p := PackUtts(features, asrLabels, sidLabels, maxLength, slidingWindow, n);
            && p.Aligned()
            && forall k :: 0 <= k < |p.x| ==>
                 |p.x[k]| == maxLength && |p.y[k]| == maxLength && |p.mask[k]| == maxLength && p.z[k] in sidLabels[..n]
  {
    if n > 0 {
      PackUttsShape(features, asrLabels, sidLabels, maxLength, slidingWindow, n - 1);
      CutUttShape(features[n - 1], asrLabels[n - 1], sidLabels[n - 1], maxLength, slidingWindow, 0);
      var p := PackUtts(features, asrLabels, sidLabels, maxLength, slidingWindow, n);
      var front := PackUtts(features, asrLabels, sidLabels, maxLength, slidingWindow, n - 1);
      forall k | 0 <= k < |p.x|
        ensures |p.x[k]| == maxLength && |p.y[k]| == maxLength && |p.mask[k]| == maxLength && p.z[k] in sidLabels[..n]
      {
        if k < |front.x| {
          assert p.z[k] == front.z[k] && sidLabels[..n - 1] <= sidLabels[..n];
        } else {
          assert p.z[k] == sidLabels[n - 1] == sidLabels[..n][n - 1];
        }
      }
    }
  }

  /** Parallel lists whose windows, label windows and masks all have `maxLength` entries. */
  ghost predicate Shaped(p: Packed, maxLength: nat)
  {
    && p.Aligned()
    && forall k :: 0 <= k < |p.x| ==> |p.x[k]| == maxLength && |p.y[k]| == maxLength && |p.mask[k]| == maxLength
  }

  /** The part of PackUttsShape the generator's buffers rely on. */
  lemma PackUttsShaped(features: seq<seq<Row>>, asrLabels: seq<seq<int>>, sidLabels: seq<int>,
                       maxLength: nat, slidingWindow: nat)
    requires |features| == |asrLabels| == |sidLabels|
    requires forall i :: 0 <= i < |features| ==> Cuttable(features[i], asrLabels[i], maxLength, slidingWindow)
    ensures Shaped(PackUtts(features, asrLabels, sidLabels, maxLength, slidingWindow, |features|), maxLength)
  {
    PackUttsShape(features, asrLabels, sidLabels, maxLength, slidingWindow, |features|);
  }

  /** One index permutation applied to all four lists (x_packed[randomInd] and so on). */
  function Shuffle(p: Packed, perm: seq<int>): (r: Packed)
    requires p.Aligned() && IsPermutation(perm, |p.x|)
    ensures r.Aligned() && |r.x| == |p.x|
  {
    Packed(Permute(p.x, perm), Permute(p.y, perm), Permute(p.z, perm), Permute(p.mask, perm))
  }

  /** A shuffle reorders the windows: every list keeps its elements, with their multiplicities. */
  lemma ShuffleKeepsWindows(p: Packed, perm: seq<int>)
    requires p.Aligned() && IsPermutation(perm, |p.x|)
    ensures var r := Shuffle(p, perm);
            && multiset(r.x) == multiset(p.x) && multiset(r.y) == multiset(p.y)
            && multiset(r.z) == multiset(p.z) && multiset(r.mask) == multiset(p.mask)
  {
    PermutePreservesMultiset(p.x, perm);
    PermutePreservesMultiset(p.y, perm);
    PermutePreservesMultiset(p.z, perm);
    PermutePreservesMultiset(p.mask, perm);
  }

  /** Shuffling keeps every window's shape. */
  lemma ShuffleShaped(p: Packed, perm: seq<int>, maxLength: nat)
    requires Shaped(p, maxLength) && IsPermutation(perm, |p.x|)
    ensures Shaped(Shuffle(p, perm), maxLength)
  {
    var r := Shuffle(p, perm);
    forall k | 0 <= k < |r.x| ensures |r.x[k]| == maxLength && |r.y[k]| == maxLength && |r.mask[k]| == maxLength {
      assert r.x[k] == p.x[perm[k]] && r.y[k] == p.y[perm[k]] && r.mask[k] == p.mask[perm[k]];
    }
  }

  /** A slice of shaped lists is shaped, and has as many entries as the slice is long. */
  lemma SliceShaped(p: Packed, lo: nat, hi: nat, maxLength: nat)
    requires Shaped(p, maxLength) && lo <= hi <= |p.x|
    ensures Shaped(p.Slice(lo, hi), maxLength) && |p.Slice(lo, hi).x| == hi - lo
  {
    var r := p.Slice(lo, hi);
    forall k | 0 <= k < |r.x| ensures |r.x[k]| == maxLength && |r.y[k]| == maxLength && |r.mask[k]| == maxLength {
      assert r.x[k] == p.x[lo + k] && r.y[k] == p.y[lo + k] && r.mask[k] == p.mask[lo + k];
    }
  }

  /**
   * The windows split `c` of `splits` gives when it is loaded with draw `d`:
   * its utterances that have both labels, cut for the length of the bucket
   * the draw picks and shuffled with the draw's permutation. A configuration
   * that cannot load a split gives no windows.
   */
  ghost function LoadedWindows(splits: seq<seq<Utt>>, asrLabels: map<string, seq<int>>, sidLabels: map<string, int>,
                               buckets: seq<nat>, slidingWindow: nat, bucketDraw: nat -> nat,
                               shuffleDraw: (nat, nat) -> seq<int>, c: nat, d: nat): Packed
  {
    if slidingWindow > 0 && |buckets| > 0 && BucketsValid(bucketDraw, |buckets|) && ShufflesValid(shuffleDraw)
       && LabelsMatch(splits, asrLabels) then
      var utts := Labelled(if c < |splits| then splits[c] else [], asrLabels.Keys * sidLabels.Keys);
      var packed := PackUtts(FeatsOf(utts), LabelsOf(utts, asrLabels), LabelsOf(utts, sidLabels),
                             buckets[bucketDraw(d)], slidingWindow, |utts|);
      PackUttsShaped(FeatsOf(utts), LabelsOf(utts, asrLabels), LabelsOf(utts, sidLabels), buckets[bucketDraw(d)], slidingWindow);
      Shuffle(packed, shuffleDraw(d, |packed.x|))
    else
      NoWindows
  }

  // ---------------------------------------------------------------------------
  // The generator

  /**
   * What get_batch_utterances returns: a batch with its bucket, the
   * (None, None, None, None, 0) end marker, the split-loading error, the
   * AttributeError of serving before any split chose a bucket, the
   * ValueError of drawing a bucket from an empty list, or the IndexError of
   * shuffling a split that gives no window (`numpy.array(range(0))` is a
   * float array, which numpy refuses as an index).
   */
  datatype UttBatch =
    | Utterances(batch: Packed, bucketId: nat)
    | EndOfData
    | NoFeatsLoaded
    | BucketUnset
    | EmptyBuckets
    | EmptyShuffle

  /** Every bucket numpy's generator can be asked for is an index into the buckets. */
  ghost predicate BucketsValid(bucketDraw: nat -> nat, numBuckets: nat)
  {
    forall d :: bucketDraw(d) < numBuckets
  }

  lemma MulLess(a: int, b: int, m: int)
    requires a < b && m > 0
    ensures a * m + m <= b * m
  {
    var d := b - a - 1;
    assert d >= 0;
    assert d * m >= 0;
    assert b * m == a * m + d * m + m;
  }

  /** Quotient and remainder are the only ones: n == q * m + r with 0 <= r < m. */
  lemma DivModUnique(n: nat, m: nat, q: nat, r: nat)
    requires m > 0 && r < m && n == q * m + r
    ensures n / m == q && n % m == r
  {
    var q0 := n / m;
    assert n == q0 * m + n % m;
    if q0 < q {
      MulLess(q0, q, m);
      assert false;
    } else if q < q0 {
      MulLess(q, q0, m);
      assert false;
    }
  }

  /** One step of a counter modulo `m` that does not reach a multiple of `m`. */
  lemma ModStep(c: nat, m: nat)
    requires m > 0 && (c + 1) % m != 0
    ensures (c + 1) % m == c % m + 1
  {
    if c % m + 1 < m {
      DivModUnique(c + 1, m, c / m, c % m + 1);
    } else {
      DivModUnique(c + 1, m, c / m + 1, 0);
    }
  }

  /**
   * How many more splits may be loaded before has_data turns false, given
   * the mode and the two split counters.
   */
  function LoadsLeftOf(loop: bool, splitPerIter: Option<nat>, counter: nat, dataCounter: nat, numSplit: nat): int
    requires loop ==> splitPerIter.Some? && splitPerIter.value > 0
  {
    if loop then splitPerIter.value - 1 - counter % splitPerIter.value else numSplit - dataCounter
  }

  /** A load that has_data allows brings the boundary one split closer and does not pass it. */
  lemma LoadsLeftStep(loop: bool, splitPerIter: Option<nat>, counter: nat, dataCounter: nat, dataCounter': nat, numSplit: nat)
    requires loop ==> splitPerIter.Some? && splitPerIter.value > 0 && (counter + 1) % splitPerIter.value != 0
    requires !loop ==> dataCounter < numSplit && dataCounter' == dataCounter + 1
    ensures 0 <= LoadsLeftOf(loop, splitPerIter, counter + 1, dataCounter', numSplit)
              < LoadsLeftOf(loop, splitPerIter, counter, dataCounter, numSplit)
  {
    if loop {
      ModStep(counter, splitPerIter.value);
    }
  }

  class JointDataGenerator {
    const batchSize: nat
    const slidingWindow: nat
    const buckets: seq<nat>
    const loop: bool
    const splitPerIter: Option<nat>
    const numSplit: nat
    /** The records each split's feature pipeline yields, one list per split file. */
    const splits: seq<seq<Utt>>
    const asrLabels: map<string, seq<int>>
    const sidLabels: map<string, int>
    const bucketDraw: nat -> nat
    const shuffleDraw: (nat, nat) -> seq<int>
    /**
     * The windows each split gives with each draw: LoadedWindows for this
     * configuration (Setup says so for the pairs that are asked about), so
     * that a state is tied to a load without unfolding the whole packing.
     */
    ghost const windows: (nat, nat) -> Packed

    var x: seq<Window>
    var y: seq<seq<int>>
    var z: seq<int>
    var mask: seq<Mask>
    var batchPointer: nat
    /** Splits loaded so far; only ever increases. */
    var splitCounter: nat
    /** The next split to load; cycles through the splits in loop mode. */
    var splitDataCounter: nat
    /** The bucket of the last split loaded; None until a split is loaded. */
    var bucketId: Option<nat>
    var lastBatchUtts: nat
    var lastBatchFrames: int
    /** How many splits have drawn a bucket and a shuffle from the random generator. */
    var draws: nat

    /** What the configuration and the data guarantee; none of it changes. */
    ghost predicate Setup()
    {
      && slidingWindow > 0
      && (|buckets| > 0 ==> BucketsValid(bucketDraw, |buckets|))
      && (loop ==> splitPerIter.Some? && splitPerIter.value > 0)
      && |splits| == numSplit
      && ShufflesValid(shuffleDraw)
      && LabelsMatch(splits, asrLabels)
      && forall c: nat, d: nat {:trigger LoadedWindows(splits, asrLabels, sidLabels, buckets, slidingWindow, bucketDraw, shuffleDraw, c, d)}
           :: windows(c, d) == LoadedWindows(splits, asrLabels, sidLabels, buckets, slidingWindow, bucketDraw, shuffleDraw, c, d)
    }

    /**
     * The four buffers are parallel and every window in them has the current
     * bucket's length; they are empty until a split is loaded.
     */
    ghost predicate Valid()
      reads this
    {
      && (bucketId.Some? ==> bucketId.value < |buckets| && Shaped(Buffers(), buckets[bucketId.value]))
      && (bucketId.None? ==> Buffers() == NoWindows)
      && batchPointer <= |x|
      && splitDataCounter <= numSplit
      && (loop && numSplit > 0 ==> splitDataCounter < numSplit)
    }

    /** The four buffers side by side. */
    function Buffers(): Packed
      reads this
    {
      Packed(x, y, z, mask)
    }

    /** An utterance is kept when it has both an ASR and a speaker label. */
    function Known(): set<string>
    {
      asrLabels.Keys * sidLabels.Keys
    }

    /** The records of split `i`; a split file that does not exist yields none. */
    function ReadSplit(i: nat): seq<Utt>
    {
      if i < |splits| then splits[i] else []
    }

    /**
     * The generator right after construction from its settings: empty
     * buffers, all counters at 0, and no bucket until a load draws one.
     */
    constructor(settings: Settings, splits: seq<seq<Utt>>, asrLabels: map<string, seq<int>>, sidLabels: map<string, int>,
                bucketDraw: nat -> nat, shuffleDraw: (nat, nat) -> seq<int>)
      requires settings.slidingWindow > 0
      requires |settings.buckets| > 0 ==> BucketsValid(bucketDraw, |settings.buckets|)
      requires settings.loop ==> settings.splitPerIter.Some? && settings.splitPerIter.value > 0
      requires ShufflesValid(shuffleDraw) && LabelsMatch(splits, asrLabels)
      ensures Setup() && Valid()
      ensures batchSize == settings.batchSize && slidingWindow == settings.slidingWindow && buckets == settings.buckets
      ensures loop == settings.loop && splitPerIter == settings.splitPerIter && numSplit == |splits|
      ensures this.splits == splits && this.asrLabels == asrLabels && this.sidLabels == sidLabels
      ensures this.bucketDraw == bucketDraw && this.shuffleDraw == shuffleDraw
      ensures x == [] && y == [] && z == [] && mask == []
      ensures batchPointer == 0 && splitCounter == 0 && splitDataCounter == 0 && draws == 0 && bucketId == None
    {
      batchSize := settings.batchSize;
      slidingWindow := settings.slidingWindow;
      buckets := settings.buckets;
      loop := settings.loop;
      splitPerIter := settings.splitPerIter;
      numSplit := |splits|;
      this.splits := splits;
      this.asrLabels := asrLabels;
      this.sidLabels := sidLabels;
      this.bucketDraw := bucketDraw;
      this.shuffleDraw := shuffleDraw;
      windows := (c: nat, d: nat) => LoadedWindows(splits, asrLabels, sidLabels, settings.buckets, settings.slidingWindow,
                                                   bucketDraw, shuffleDraw, c, d);
      x, y, z, mask := [], [], [], [];
      batchPointer, splitCounter, splitDataCounter, bucketId := 0, 0, 0, None;
      lastBatchUtts, lastBatchFrames, draws := 0, 0, 0;
    }

    /**
     * has_data: a batch still fits, or more splits may be loaded: in loop
     * mode until the split counter is one short of a multiple of
     * split_per_iter, otherwise until every split is read.
     */
    predicate HasData()
      requires Setup() && Valid()
      reads this
    {
      if batchPointer + batchSize > |x| then
        if loop && (splitCounter + 1) % splitPerIter.value == 0 then false
        else if !loop && splitDataCounter == numSplit then false
        else true
      else true
    }

    /**
     * The buffer update of one loading turn: the shuffled windows of the
     * drawn bucket replace the four buffers, and the windows left unread are
     * thrown away. Cursor back to 0, one draw used, both split counters
     * forward (the data counter wraps in loop mode only).
     */
    method Refill(shuffled: Packed, newBucket: nat)
      requires Valid() && splitDataCounter < numSplit
      requires newBucket < |buckets| && Shaped(shuffled, buckets[newBucket])
      modifies this
      ensures Valid()
      ensures Buffers() == shuffled && bucketId == Some(newBucket)
      ensures batchPointer == 0 && draws == old(draws) + 1 && splitCounter == old(splitCounter) + 1
      ensures splitDataCounter == if loop && old(splitDataCounter) + 1 == numSplit then 0 else old(splitDataCounter) + 1
      ensures lastBatchUtts == old(lastBatchUtts) && lastBatchFrames == old(lastBatchFrames)
    {
      x, y, z, mask := shuffled.x, shuffled.y, shuffled.z, shuffled.mask;
      bucketId, batchPointer, draws, splitCounter := Some(newBucket), 0, draws + 1, splitCounter + 1;
      splitDataCounter := if loop && splitDataCounter + 1 == numSplit then 0 else splitDataCounter + 1;
      assert Buffers() == shuffled;
    }

    /**
     * The windows a split gives with bucket `newBucket`, shuffled with the
     * permutation of draw `d`.
     */
    method PackShuffled(split: SplitData, newBucket: nat, d: nat) returns (shuffled: Packed)
      requires Setup() && newBucket < |buckets|
      requires |split.feats| == |split.asrLabels| == |split.sidLabels|
      requires forall i :: 0 <= i < |split.feats| ==> |split.asrLabels[i]| == |split.feats[i]|
      ensures var packed := PackUtts(split.feats, split.asrLabels, split.sidLabels, buckets[newBucket], slidingWindow, |split.feats|);
              && packed.Aligned() && IsPermutation(shuffleDraw(d, |packed.x|), |packed.x|)
              && shuffled == Shuffle(packed, shuffleDraw(d, |packed.x|))
      ensures Shaped(shuffled, buckets[newBucket])
    {
      var packed := PackUttData(split.feats, split.asrLabels, split.sidLabels, buckets, newBucket, slidingWindow);
      PackUttsShaped(split.feats, split.asrLabels, split.sidLabels, buckets[newBucket], slidingWindow);
      // throw away what is left and shuffle, window by window
      var randomInd := shuffleDraw(d, |packed.x|);
      ShuffleShaped(packed, randomInd, buckets[newBucket]);
      shuffled := Shuffle(packed, randomInd);
    }

    /**
     * The windows of the kept utterances of split `dataCounter`, cut for the
     * bucket of draw `d` and shuffled with the permutation of that draw.
     */
    ghost function SplitWindows(dataCounter: nat, d: nat): (r: Packed)
      requires Setup() && |buckets| > 0
      ensures Shaped(r, buckets[bucketDraw(d)])
    {
      var utts := Labelled(ReadSplit(dataCounter), Known());
      var packed := PackUtts(FeatsOf(utts), LabelsOf(utts, asrLabels), LabelsOf(utts, sidLabels),
                             buckets[bucketDraw(d)], slidingWindow, |utts|);
      PackUttsShaped(FeatsOf(utts), LabelsOf(utts, asrLabels), LabelsOf(utts, sidLabels), buckets[bucketDraw(d)], slidingWindow);
      ShuffleShaped(packed, shuffleDraw(d, |packed.x|), buckets[bucketDraw(d)]);
      assert LoadedWindows(splits, asrLabels, sidLabels, buckets, slidingWindow, bucketDraw, shuffleDraw, dataCounter, d)
             == Shuffle(packed, shuffleDraw(d, |packed.x|));
      LoadedWindows(splits, asrLabels, sidLabels, buckets, slidingWindow, bucketDraw, shuffleDraw, dataCounter, d)
    }

    /**
     * `buffers` and `bucket` are what loading split `dataCounter` with draw
     * `d` leaves: the drawn bucket and the split's windows, which are
     * SplitWindows(dataCounter, d) (WindowsOfSplit).
     */
    ghost predicate RefilledFrom(dataCounter: nat, d: nat, buffers: Packed, bucket: Option<nat>)
    {
      && |buckets| > 0 && bucket == Some(bucketDraw(d))
      && buffers == windows(dataCounter, d)
    }

    /** The windows a load is tied to are those SplitWindows describes. */
    lemma WindowsOfSplit(dataCounter: nat, d: nat)
      requires Setup() && |buckets| > 0
      ensures windows(dataCounter, d) == SplitWindows(dataCounter, d)
    {
    }

    /** The kept utterances of a split have one ASR label per frame. */
    lemma SplitLabelsMatch(utts: seq<Utt>)
      requires Setup() && Valid() && utts == Labelled(ReadSplit(splitDataCounter), Known())
      ensures forall i :: 0 <= i < |utts| ==> |LabelsOf(utts, asrLabels)[i]| == |FeatsOf(utts)[i]|
    {
      forall i | 0 <= i < |utts| ensures |LabelsOf(utts, asrLabels)[i]| == |FeatsOf(utts)[i]| {
        assert utts[i] in utts;
      }
    }

    /**
     * One turn of get_batch_utterances' loading loop: read the split the
     * counter names and refill the buffers from its kept utterances, cut for
     * a bucket drawn at random. Nothing changes when no utterance is kept,
     * when there is no bucket to draw from, or when the kept utterances give
     * no window for the drawn bucket.
     */
    method DrainSplit() returns (stop: Option<UttBatch>)
      requires Setup() && Valid() && (loop || splitDataCounter < numSplit)
      modifies this
      ensures Valid()
      ensures stop == Some(NoFeatsLoaded) <==> Labelled(ReadSplit(old(splitDataCounter)), Known()) == []
      ensures stop == Some(EmptyBuckets) <==> Labelled(ReadSplit(old(splitDataCounter)), Known()) != [] && |buckets| == 0
      ensures stop == Some(EmptyShuffle) <==> Windowless(old(splitDataCounter), old(draws))
      ensures stop == Some(EmptyShuffle) ==> Windowless(splitDataCounter, draws)
      ensures stop.Some? ==> unchanged(this) && (stop.value == NoFeatsLoaded || stop.value == EmptyBuckets || stop.value == EmptyShuffle)
      ensures stop.None? ==>
                && RefilledFrom(old(splitDataCounter), old(draws), Buffers(), bucketId)
                && batchPointer == 0 && draws == old(draws) + 1 && splitCounter == old(splitCounter) + 1
                && splitDataCounter == (if loop && old(splitDataCounter) + 1 == numSplit then 0 else old(splitDataCounter) + 1)
                && lastBatchUtts == old(lastBatchUtts) && lastBatchFrames == old(lastBatchFrames)
    {
      var split := GetNextSplitData(ReadSplit(splitDataCounter), asrLabels, sidLabels);
      if split.None? {
        return Some(NoFeatsLoaded);
      }
      if |buckets| == 0 {
        // numpy.random.randint(0, 0) raises before drawing
        return Some(EmptyBuckets);
      }
      ghost var utts := Labelled(ReadSplit(splitDataCounter), Known());
      SplitLabelsMatch(utts);
      // pick a random bucket to prepare the data
      var newBucket := bucketDraw(draws);
      var shuffled := PackShuffled(split.value, newBucket, draws);
      WindowsOfSplit(splitDataCounter, draws);
      if shuffled.x == [] {
        // indexing with the empty float array of the shuffle: IndexError
        return Some(EmptyShuffle);
      }
      Refill(shuffled, newBucket);
      stop := None;
    }

    /**
     * Split `dataCounter` has kept utterances, but none of them gives a
     * window for the bucket draw `d` picks.
     */
    ghost predicate Windowless(dataCounter: nat, d: nat)
      requires Setup()
    {
      && Labelled(ReadSplit(dataCounter), Known()) != [] && |buckets| > 0
      && SplitWindows(dataCounter, d).x == []
    }

    /**
     * The split the counter names is windowless exactly when each of its kept
     * utterances fits in one window of the bucket the next draw picks and is
     * shorter than sliding_window; loading it raises the IndexError.
     */
    lemma WindowlessIffShort()
      requires Setup() && Valid()
      requires Labelled(ReadSplit(splitDataCounter), Known()) != [] && |buckets| > 0
      ensures Windowless(splitDataCounter, draws) <==>
                forall u :: u in Labelled(ReadSplit(splitDataCounter), Known()) ==>
                  |u.feats| <= buckets[bucketDraw(draws)] && |u.feats| < slidingWindow
    {
      var utts := Labelled(ReadSplit(splitDataCounter), Known());
      var maxLength := buckets[bucketDraw(draws)];
      SplitLabelsMatch(utts);
      PackUttsEmpty(FeatsOf(utts), LabelsOf(utts, asrLabels), LabelsOf(utts, sidLabels), maxLength, slidingWindow, |utts|);
      assert (forall u :: u in utts ==> |u.feats| <= maxLength && |u.feats| < slidingWindow)
             <==> (forall i :: 0 <= i < |utts| ==> |FeatsOf(utts)[i]| <= maxLength && |FeatsOf(utts)[i]| < slidingWindow);
    }

    /** How many more splits get_batch_utterances may load before has_data turns false. */
    ghost function LoadsLeft(): int
      requires Setup() && Valid()
      reads this
    {
      LoadsLeftOf(loop, splitPerIter, splitCounter, splitDataCounter, numSplit)
    }

    /**
     * One turn of get_batch_utterances' loading loop, entered while a batch
     * does not fit: stop with the end marker when has_data is false, load the
     * next split otherwise (stopping with an error when nothing is kept or
     * no bucket can be drawn). A load brings has_data's boundary one split
     * closer.
     */
    method LoadStep() returns (stop: Option<UttBatch>)
      requires Setup() && Valid() && batchPointer + batchSize > |x|
      modifies this
      ensures Valid()
      ensures stop == Some(EndOfData) <==> !old(HasData())
      ensures stop.Some? ==> unchanged(this) && (stop.value == EndOfData || stop.value == NoFeatsLoaded || stop.value == EmptyBuckets || stop.value == EmptyShuffle)
      ensures stop == Some(NoFeatsLoaded) ==> Labelled(ReadSplit(splitDataCounter), Known()) == []
      ensures stop == Some(EmptyBuckets) ==> |buckets| == 0 && Labelled(ReadSplit(splitDataCounter), Known()) != []
      ensures stop == Some(EmptyShuffle) ==> Windowless(splitDataCounter, draws)
      ensures stop.None? ==>
                && RefilledFrom(old(splitDataCounter), old(draws), Buffers(), bucketId)
                && batchPointer == 0 && draws == old(draws) + 1 && splitCounter == old(splitCounter) + 1
                && splitDataCounter == (if loop && old(splitDataCounter) + 1 == numSplit then 0 else old(splitDataCounter) + 1)
                && lastBatchUtts == old(lastBatchUtts) && lastBatchFrames == old(lastBatchFrames)
                && 0 <= LoadsLeft() < old(LoadsLeft())
    {
      if !HasData() {
        // throw away the last few windows
        return Some(EndOfData);
      }
      stop := LoadNext();
    }

    /**
     * The loading part of a loop turn once has_data allowed it: load the
     * split the counter names (or stop with one of the loading errors, with
     * nothing changed); a load brings has_data's boundary one split closer.
     */
    method LoadNext() returns (stop: Option<UttBatch>)
      requires Setup() && Valid() && batchPointer + batchSize > |x| && HasData()
      modifies this
      ensures Valid()
      ensures stop.Some? ==> unchanged(this) && (stop.value == NoFeatsLoaded || stop.value == EmptyBuckets || stop.value == EmptyShuffle)
      ensures stop == Some(NoFeatsLoaded) ==> Labelled(ReadSplit(splitDataCounter), Known()) == []
      ensures stop == Some(EmptyBuckets) ==> |buckets| == 0 && Labelled(ReadSplit(splitDataCounter), Known()) != []
      ensures stop == Some(EmptyShuffle) ==> Windowless(splitDataCounter, draws)
      ensures stop.None? ==>
                && RefilledFrom(old(splitDataCounter), old(draws), Buffers(), bucketId)
                && batchPointer == 0 && draws == old(draws) + 1 && splitCounter == old(splitCounter) + 1
                && splitDataCounter == (if loop && old(splitDataCounter) + 1 == numSplit then 0 else old(splitDataCounter) + 1)
                && lastBatchUtts == old(lastBatchUtts) && lastBatchFrames == old(lastBatchFrames)
                && 0 <= LoadsLeft() < old(LoadsLeft())
    {
      ghost var counter, dataCounter := splitCounter, splitDataCounter;
      assert loop ==> (counter + 1) % splitPerIter.value != 0;
      assert !loop ==> dataCounter < numSplit;
      stop := DrainSplit();
      if stop.Some? {
        return;
      }
      assert !loop ==> splitDataCounter == dataCounter + 1;
      LoadsLeftStep(loop, splitPerIter, counter, dataCounter, splitDataCounter, numSplit);
    }

    /**
     * The loading loop of get_batch_utterances, entered when a batch does not
     * fit and has_data is true: load splits until a whole batch is unread
     * (None), or stop with the end marker when has_data turns false, or with
     * the error of a split that cannot be loaded. `loads` counts the splits
     * loaded, in counter order and one draw each; when a batch is then
     * unread, the buffers hold the windows of the last one, split
     * `lastSplit` loaded with draw `lastDraw`, from the start.
     */
    method LoadUntilFits() returns (stop: Option<UttBatch>, ghost loads: nat, ghost lastSplit: nat, ghost lastDraw: nat)
      requires Setup() && Valid() && batchPointer + batchSize > |x| && HasData()
      modifies this
      ensures Valid()
      ensures stop.None? <==> batchPointer + batchSize <= |x|
      ensures stop.Some? ==> stop.value == EndOfData || stop.value == NoFeatsLoaded || stop.value == EmptyBuckets || stop.value == EmptyShuffle
      ensures stop == Some(EndOfData) ==> !HasData()
      ensures stop == Some(NoFeatsLoaded) ==> Labelled(ReadSplit(splitDataCounter), Known()) == []
      ensures stop == Some(EmptyBuckets) ==> |buckets| == 0 && Labelled(ReadSplit(splitDataCounter), Known()) != []
      ensures stop == Some(EmptyShuffle) ==> Windowless(splitDataCounter, draws)
      ensures draws == old(draws) + loads && splitCounter == old(splitCounter) + loads
      ensures splitDataCounter == Advance(old(splitDataCounter), loads, loop, numSplit)
      ensures loads == 0 ==> Buffers() == old(Buffers()) && bucketId == old(bucketId)
      ensures stop.None? ==>
                && loads > 0
                && lastSplit == Advance(old(splitDataCounter), loads - 1, loop, numSplit) && lastDraw == old(draws) + loads - 1
                && RefilledFrom(lastSplit, lastDraw, Buffers(), bucketId) && batchPointer == 0
      ensures lastBatchUtts == old(lastBatchUtts) && lastBatchFrames == old(lastBatchFrames)
    {
      loads, lastSplit, lastDraw := 0, 0, 0;
      while true
        invariant Valid() && batchPointer + batchSize > |x|
        invariant draws == old(draws) + loads && splitCounter == old(splitCounter) + loads
        invariant splitDataCounter == Advance(old(splitDataCounter), loads, loop, numSplit)
        invariant loads == 0 ==> Buffers() == old(Buffers()) && bucketId == old(bucketId)
        invariant lastBatchUtts == old(lastBatchUtts) && lastBatchFrames == old(lastBatchFrames)
        decreases LoadsLeft()
      {
        ghost var split, d, done := splitDataCounter, draws, loads;
        stop := LoadStep();
        if stop.Some? {
          return;
        }
        AdvanceStep(old(splitDataCounter), done, loop, numSplit);
        loads, lastSplit, lastDraw := loads + 1, split, d;
        if batchPointer + batchSize <= |x| {
          return None, loads, lastSplit, lastDraw;
        }
      }
    }

    /**
     * get_batch_utterances: load splits until a whole batch is unread, then
     * serve the next batch_size windows with their bucket index. When a batch
     * does not fit and has_data is false, the end marker is returned and the
     * unread windows are not served. `loads` counts the splits loaded.
     */
    method GetBatchUtterances() returns (r: UttBatch, ghost loads: nat, ghost lastSplit: nat, ghost lastDraw: nat)
      requires Setup() && Valid()
      modifies this
      ensures Valid()
      ensures !old(HasData()) ==> r == EndOfData && unchanged(this)
      ensures r == EndOfData ==> !HasData() && batchPointer + batchSize > |x|
      ensures r.Utterances? ==> Served(r)
      ensures r == BucketUnset <==> batchSize == 0 && old(bucketId).None?
      // a batch already unread is served from the cursor, without loading
      ensures old(batchPointer) + batchSize <= old(|x|) ==>
                && loads == 0
                && r == if old(bucketId).Some? then Utterances(old(Buffers().Slice(batchPointer, batchPointer + batchSize)), old(bucketId).value)
                        else BucketUnset
      // the cursor moves past the batch served; a load has reset it to 0
      ensures r.Utterances? ==> batchPointer == (if loads == 0 then old(batchPointer) else 0) + batchSize
      ensures r.NoFeatsLoaded? ==> Labelled(ReadSplit(splitDataCounter), Known()) == []
      ensures r.EmptyBuckets? ==> |buckets| == 0 && Labelled(ReadSplit(splitDataCounter), Known()) != []
      ensures r.EmptyShuffle? ==> Windowless(splitDataCounter, draws)
      // the splits loaded, one draw each, in counter order; a served batch comes from the last one
      ensures draws == old(draws) + loads && splitCounter == old(splitCounter) + loads
      ensures splitDataCounter == Advance(old(splitDataCounter), loads, loop, numSplit)
      ensures loads == 0 ==> Buffers() == old(Buffers()) && bucketId == old(bucketId)
      ensures r.Utterances? && loads > 0 ==>
                && lastSplit == Advance(old(splitDataCounter), loads - 1, loop, numSplit) && lastDraw == old(draws) + loads - 1
                && RefilledFrom(lastSplit, lastDraw, Buffers(), bucketId)
    {
      if batchPointer + batchSize <= |x| {
        // a batch is already unread
        r := ServeBatch();
        return r, 0, 0, 0;
      }
      if !HasData() {
        // throw away the last few windows
        return EndOfData, 0, 0, 0;
      }
      r, loads, lastSplit, lastDraw := LoadAndServe();
    }

    /**
     * get_batch_utterances when no whole batch is unread and has_data is
     * true: load splits until one is, then serve the first batch_size
     * windows of the last split loaded.
     */
    method LoadAndServe() returns (r: UttBatch, ghost loads: nat, ghost lastSplit: nat, ghost lastDraw: nat)
      requires Setup() && Valid() && batchPointer + batchSize > |x| && HasData()
      modifies this
      ensures Valid()
      ensures r.Utterances? || r == EndOfData || r == NoFeatsLoaded || r == EmptyBuckets || r == EmptyShuffle
      ensures r == EndOfData ==> !HasData() && batchPointer + batchSize > |x|
      ensures r.Utterances? ==> Served(r) && loads > 0 && batchPointer == batchSize
      ensures r.NoFeatsLoaded? ==> Labelled(ReadSplit(splitDataCounter), Known()) == []
      ensures r.EmptyBuckets? ==> |buckets| == 0 && Labelled(ReadSplit(splitDataCounter), Known()) != []
      ensures r.EmptyShuffle? ==> Windowless(splitDataCounter, draws)
      ensures draws == old(draws) + loads && splitCounter == old(splitCounter) + loads
      ensures splitDataCounter == Advance(old(splitDataCounter), loads, loop, numSplit)
      ensures loads == 0 ==> Buffers() == old(Buffers()) && bucketId == old(bucketId)
      ensures r.Utterances? ==>
                && lastSplit == Advance(old(splitDataCounter), loads - 1, loop, numSplit) && lastDraw == old(draws) + loads - 1
                && RefilledFrom(lastSplit, lastDraw, Buffers(), bucketId)
    {
      var stop;
      stop, loads, lastSplit, lastDraw := LoadUntilFits();
      if stop.Some? {
        return stop.value, loads, lastSplit, lastDraw;
      }
      ghost var buffers, bucket := Buffers(), bucketId;
      r := ServeBatch();
      assert Buffers() == buffers && bucketId == bucket;
    }

    /**
     * `r` is the batch just served: the batch_size windows before the cursor,
     * all of the current bucket's length, with the batch counts recorded.
     */
    ghost predicate Served(r: UttBatch)
      requires r.Utterances?
      reads this
    {
      && Buffers().Aligned() && batchSize <= batchPointer <= |x|
      && r.batch == Buffers().Slice(batchPointer - batchSize, batchPointer)
      && bucketId == Some(r.bucketId) && r.bucketId < |buckets|
      && |r.batch.x| == batchSize && Shaped(r.batch, buckets[r.bucketId])
      && lastBatchUtts == batchSize && lastBatchFrames == Sum(Flatten(r.batch.mask))
    }

    /**
     * The serving part of get_batch_utterances: the next batch_size windows
     * with the bucket index, and the cursor moves past them. Before any load
     * there is no bucket index to return.
     */
    method ServeBatch() returns (r: UttBatch)
      requires Valid() && batchPointer + batchSize <= |x|
      modifies this
      ensures Valid()
      ensures r == if bucketId.Some? then Utterances(old(Buffers().Slice(batchPointer, batchPointer + batchSize)), bucketId.value)
                   else BucketUnset
      ensures bucketId.None? ==> batchSize == 0
      ensures batchPointer == old(batchPointer) + batchSize
      ensures Buffers() == old(Buffers()) && bucketId == old(bucketId)
      ensures splitCounter == old(splitCounter) && splitDataCounter == old(splitDataCounter) && draws == old(draws)
      ensures batchSize <= batchPointer <= |x|
      ensures r.Utterances? ==> Served(r)
      ensures lastBatchUtts == batchSize && lastBatchFrames == Sum(Flatten(mask[batchPointer - batchSize..batchPointer]))
    {
      var xMini := x[batchPointer..batchPointer + batchSize];
      var yMini := y[batchPointer..batchPointer + batchSize];
      var zMini := z[batchPointer..batchPointer + batchSize];
      var maskMini := mask[batchPointer..batchPointer + batchSize];
      ghost var served := Buffers().Slice(batchPointer, batchPointer + batchSize);
      assert Packed(xMini, yMini, zMini, maskMini) == served;
      if bucketId.Some? {
        SliceShaped(Buffers(), batchPointer, batchPointer + batchSize, buckets[bucketId.value]);
      }
      lastBatchUtts := |yMini|;
      lastBatchFrames := Sum(Flatten(maskMini));
      batchPointer := batchPointer + batchSize;
      assert mask[batchPointer - batchSize..batchPointer] == maskMini;
      if bucketId.None? {
        // self.bucket_id is first set by a load: AttributeError
        return BucketUnset;
      }
      r := Utterances(Packed(xMini, yMini, zMini, maskMini), bucketId.value);
    }

    /**
     * reset_batch: in loop mode count one more split (which moves the
     * has_data boundary), otherwise start again from the first split;
     * buffers and cursor are untouched.
     */
    method ResetBatch()
      requires Setup() && Valid()
      modifies this
      ensures Valid()
      ensures loop ==> splitCounter == old(splitCounter) + 1 && splitDataCounter == old(splitDataCounter)
      ensures !loop ==> splitDataCounter == 0 && splitCounter == old(splitCounter)
      ensures x == old(x) && y == old(y) && z == old(z) && mask == old(mask) && batchPointer == old(batchPointer)
      ensures bucketId == old(bucketId) && draws == old(draws)
      ensures lastBatchUtts == old(lastBatchUtts) && lastBatchFrames == old(lastBatchFrames)
    {
      if loop {
        splitCounter := splitCounter + 1;
      } else {
        splitDataCounter := 0;
      }
    }
  }
}
