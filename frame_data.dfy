/**
 * The frame batcher: a flat buffer of feature rows and their frame labels,
 * read batch by batch through a cursor. When the unread rows cannot fill
 * the next batch, the next split of the data set is appended to them and
 * the whole buffer is shuffled.
 *
 * The Kaldi pipelines that produce a split are a given list of records per
 * split, and numpy's global random generator is a given function from a
 * draw number and a length to a permutation of that length.
 */
module FrameData {
  import opened Common

  /** Utterances loaded into memory at once. */
  const MaxSplitDataSize: nat := 5000

  /** The number of splits: ceil(numUtts / MaxSplitDataSize). */
  function NumSplit(numUtts: nat): (r: nat)
    ensures r * MaxSplitDataSize >= numUtts
    ensures r > 0 ==> (r - 1) * MaxSplitDataSize < numUtts
  {
    (numUtts + MaxSplitDataSize - 1) / MaxSplitDataSize
  }

  /** The frames and frame labels of the labelled utterances of one split. */
  datatype SplitData = SplitData(feats: seq<seq<Row>>, labels: seq<seq<int>>)

  /**
   * get_next_split_data over a split's records: keep, in stream order, the
   * utterances that have labels. None is the "No feats are loaded" error.
   */
  method GetNextSplitData(records: seq<Utt>, labels: map<string, seq<int>>) returns (r: Option<SplitData>)
    ensures r.None? <==> Labelled(records, labels.Keys) == []
    ensures r.Some? ==> var utts := Labelled(records, labels.Keys);
                        r.value == SplitData(FeatsOf(utts), LabelsOf(utts, labels))
  {
    var featList: seq<seq<Row>> := [];
    var labelList: seq<seq<int>> := [];
    for i := 0 to |records|
      invariant var utts := Labelled(records[..i], labels.Keys);
                featList == FeatsOf(utts) && labelList == LabelsOf(utts, labels)
    {
      var utt := records[i];
      ghost var kept := Labelled(records[..i], labels.Keys);
      LabelledSnoc(records[..i], utt, labels.Keys);
      assert records[..i + 1] == records[..i] + [utt];
      if utt.uid in labels {
        FeatsOfSnoc(kept, utt);
        LabelsOfSnoc(kept, utt, labels);
        featList := featList + [utt.feats];
        labelList := labelList + [labels[utt.uid]];
      }
    }
    assert records[..|records|] == records;
    if |featList| == 0 || |labelList| == 0 {
      return None;
    }
    r := Some(SplitData(featList, labelList));
  }

  /**
   * What get_batch_frames returns: a batch, the (None, None) end marker, the
   * split-loading error, or the IndexError of shuffling an empty buffer
   * (`numpy.array(range(0))` is a float array, which numpy refuses as an
   * index).
   */
  datatype FrameBatch = Frames(x: seq<Row>, y: seq<int>) | EndOfData | NoFeatsLoaded | EmptyShuffle

  /** Every utterance with labels, in every split, has at least one frame. */
  ghost predicate FramesInEveryUtt(splits: seq<seq<Utt>>, labels: map<string, seq<int>>)
  {
    forall i, u :: 0 <= i < |splits| && u in splits[i] && u.uid in labels ==> |u.feats| > 0
  }

  class FrameDataGenerator {
    const batchSize: nat
    const loop: bool
    const numSplit: nat
    /** The records each split's feature pipeline yields, one list per split file. */
    const splits: seq<seq<Utt>>
    const labels: map<string, seq<int>>
    const shuffleDraw: (nat, nat) -> seq<int>

    var x: seq<Row>
    var y: seq<int>
    var batchPointer: nat
    var splitDataCounter: nat
    var lastBatchFrames: nat
    /** How many shuffles have been drawn from the random generator. */
    var draws: nat

    /** What the configuration and the data guarantee; none of it changes. */
    ghost predicate Setup()
    {
      && |splits| == numSplit
      && ShufflesValid(shuffleDraw)
      && LabelsMatch(splits, labels)
      && (loop ==> FramesInEveryUtt(splits, labels))
    }

    ghost predicate Valid()
      reads this
    {
      && |x| == |y| && batchPointer <= |x|
      && splitDataCounter <= numSplit
      && (loop && numSplit > 0 ==> splitDataCounter < numSplit)
    }

    /** The records of split `i`; a split file that does not exist yields none. */
    function ReadSplit(i: nat): seq<Utt>
    {
      if i < |splits| then splits[i] else []
    }

    /**
     * The generator right after construction: batch size from the
     * configuration (256 by default) times the number of GPUs, one split
     * per MaxSplitDataSize utterances, empty buffer.
     */
    constructor(confBatchSize: Option<nat>, numGpus: nat, loop: bool, numUtts: nat,
                splits: seq<seq<Utt>>, labels: map<string, seq<int>>, shuffleDraw: (nat, nat) -> seq<int>)
      requires |splits| == NumSplit(numUtts)
      requires ShufflesValid(shuffleDraw) && LabelsMatch(splits, labels)
      requires loop ==> FramesInEveryUtt(splits, labels)
      ensures Setup() && Valid()
      ensures batchSize == (if confBatchSize.Some? then confBatchSize.value else 256) * numGpus
      ensures this.loop == loop && numSplit == NumSplit(numUtts)
      ensures this.splits == splits && this.labels == labels && this.shuffleDraw == shuffleDraw
      ensures x == [] && y == [] && batchPointer == 0 && splitDataCounter == 0 && draws == 0
    {
      batchSize := (if confBatchSize.Some? then confBatchSize.value else 256) * numGpus;
      this.loop := loop;
      numSplit := NumSplit(numUtts);
      this.splits := splits;
      this.labels := labels;
      this.shuffleDraw := shuffleDraw;
      x, y := [], [];
      batchPointer, splitDataCounter, lastBatchFrames, draws := 0, 0, 0, 0;
    }

    /** has_data: always in loop mode or before the last split; afterwards only while a batch still fits. */
    predicate HasData()
      reads this
    {
      if loop || splitDataCounter != numSplit then true
      else if batchPointer + batchSize >= |x| then false
      else true
    }

    /**
     * The buffer update of one loading turn: the unread rows followed by the
     * split's frames, shuffled with one permutation shared by rows and
     * labels; cursor back to 0, split counter forward (wrapping in loop mode
     * only).
     */
    method Refill(split: SplitData)
      requires Setup() && Valid() && splitDataCounter < numSplit
      requires |Flatten(split.feats)| == |Flatten(split.labels)|
      modifies this
      ensures Valid()
      ensures var rows := old(x[batchPointer..]) + Flatten(split.feats);
              var rowLabels := old(y[batchPointer..]) + Flatten(split.labels);
              var perm := shuffleDraw(old(draws), |rows|);
              && |rows| == |rowLabels|
              && x == Permute(rows, perm) && y == Permute(rowLabels, perm)
      ensures |x| == old(|x| - batchPointer) + |Flatten(split.feats)|
      ensures batchPointer == 0 && draws == old(draws) + 1
      ensures splitDataCounter == if loop && old(splitDataCounter) + 1 == numSplit then 0 else old(splitDataCounter) + 1
      ensures lastBatchFrames == old(lastBatchFrames)
    {
      var rows := x[batchPointer..] + Flatten(split.feats);
      var rowLabels := y[batchPointer..] + Flatten(split.labels);
      // shuffle rows and labels together
      var randomInd := shuffleDraw(draws, |rows|);
      draws := draws + 1;
      x, y := Permute(rows, randomInd), Permute(rowLabels, randomInd);
      batchPointer := 0;
      splitDataCounter := splitDataCounter + 1;
      if loop && splitDataCounter == numSplit {
        splitDataCounter := 0;
      }
    }

    /** The frames of the labelled utterances of split `i`, stacked. */
    function SplitRows(i: nat): seq<Row>
    {
      Flatten(FeatsOf(Labelled(ReadSplit(i), labels.Keys)))
    }

    /** The frame labels of the labelled utterances of split `i`, stacked. */
    function SplitLabels(i: nat): seq<int>
    {
      Flatten(LabelsOf(Labelled(ReadSplit(i), labels.Keys), labels))
    }

    /**
     * One load of split `c` with draw `d`: the unread rows followed by the
     * split's frames, shuffled with the draw's permutation, and the labels
     * shuffled with the same permutation, so every row keeps its label.
     */
    ghost function RefillOf(c: nat, d: nat, unreadX: seq<Row>, unreadY: seq<int>): (r: (seq<Row>, seq<int>))
      requires Setup() && |unreadX| == |unreadY|
      ensures |r.0| == |r.1| == |unreadX| + |SplitRows(c)|
    {
      SplitLabelsMatch(c);
      var rows := unreadX + SplitRows(c);
      var perm := shuffleDraw(d, |rows|);
      (Permute(rows, perm), Permute(unreadY + SplitLabels(c), perm))
    }

    /**
     * One turn of get_batch_frames' loading loop: read the split the counter
     * names and refill the buffer with its labelled utterances; nothing
     * changes when none of them has labels. When no row is unread and the
     * split brings none, the buffer is emptied and the shuffle fails.
     */
    method DrainSplit() returns (stop: Option<FrameBatch>)
      requires Setup() && Valid() && (loop || splitDataCounter < numSplit)
      modifies this
      ensures Valid()
      ensures stop == Some(NoFeatsLoaded) <==> Labelled(ReadSplit(old(splitDataCounter)), labels.Keys) == []
      ensures stop == Some(EmptyShuffle) <==>
                Labelled(ReadSplit(old(splitDataCounter)), labels.Keys) != []
                && old(batchPointer) == old(|x|) && SplitRows(old(splitDataCounter)) == []
      ensures stop.Some? ==> stop.value == NoFeatsLoaded || stop.value == EmptyShuffle
      ensures stop == Some(NoFeatsLoaded) ==> unchanged(this)
      ensures stop == Some(EmptyShuffle) ==>
                && x == [] && y == [] && batchPointer == 0
                && splitDataCounter == old(splitDataCounter) && draws == old(draws) && lastBatchFrames == old(lastBatchFrames)
      ensures stop.None? ==>
                && (x, y) == RefillOf(old(splitDataCounter), old(draws), old(x[batchPointer..]), old(y[batchPointer..]))
                && batchPointer == 0 && draws == old(draws) + 1
                && splitDataCounter == (if loop && old(splitDataCounter) + 1 == numSplit then 0 else old(splitDataCounter) + 1)
                && lastBatchFrames == old(lastBatchFrames)
    {
      var split := GetNextSplitData(ReadSplit(splitDataCounter), labels);
      if split.None? {
        return Some(NoFeatsLoaded);
      }
      SplitLabelsMatch(splitDataCounter);
      if batchPointer == |x| && Flatten(split.value.feats) == [] {
        // the buffer becomes empty and indexing it with the empty float
        // array of the shuffle raises IndexError
        x, y, batchPointer := [], [], 0;
        return Some(EmptyShuffle);
      }
      Refill(split.value);
      stop := None;
    }

    /** The labelled utterances of a split have as many labels as frames in total. */
    lemma SplitLabelsMatch(i: nat)
      requires Setup()
      ensures |SplitRows(i)| == |SplitLabels(i)|
    {
      var utts := Labelled(ReadSplit(i), labels.Keys);
      forall k | 0 <= k < |utts| ensures |FeatsOf(utts)[k]| == |LabelsOf(utts, labels)[k]| {
        assert utts[k] in utts;
      }
      FlattenSameLength(FeatsOf(utts), LabelsOf(utts, labels));
    }

    /** In loop mode a split that loads anything brings at least one frame. */
    lemma LabelledHasFrames(i: nat)
      requires Setup() && Valid() && loop && Labelled(ReadSplit(i), labels.Keys) != []
      ensures |Flatten(FeatsOf(Labelled(ReadSplit(i), labels.Keys)))| > 0
    {
      var utts := Labelled(ReadSplit(i), labels.Keys);
      assert utts[0] in utts;
      assert i < |splits| && utts[0] in splits[i];
      assert FeatsOf(utts)[0] == utts[0].feats;
    }

    /** The rows that `n` loads starting at split `c` bring in, in load order. */
    function LoadedRows(c: nat, n: nat): seq<Row>
    {
      if n == 0 then [] else LoadedRows(c, n - 1) + SplitRows(Advance(c, n - 1, loop, numSplit))
    }

    /** The labels that `n` loads starting at split `c` bring in, in load order. */
    function LoadedLabels(c: nat, n: nat): seq<int>
    {
      if n == 0 then [] else LoadedLabels(c, n - 1) + SplitLabels(Advance(c, n - 1, loop, numSplit))
    }

    /**
     * `xs` and `ys` hold exactly the rows and labels of `xs0` and `ys0` plus
     * those of `n` loads from split `c0`, in some order.
     */
    ghost predicate Conserves(c0: nat, n: nat, xs0: seq<Row>, ys0: seq<int>, xs: seq<Row>, ys: seq<int>)
    {
      && multiset(xs) == multiset(xs0) + multiset(LoadedRows(c0, n))
      && multiset(ys) == multiset(ys0) + multiset(LoadedLabels(c0, n))
    }

    /** The (row, label) pairs that `n` loads starting at split `c` bring in, in load order. */
    ghost function LoadedPairs(c: nat, n: nat): seq<(Row, int)>
      requires Setup()
    {
      if n == 0 then []
      else
        var split := Advance(c, n - 1, loop, numSplit);
        SplitLabelsMatch(split);
        LoadedPairs(c, n - 1) + Pairs(SplitRows(split), SplitLabels(split))
    }

    /**
     * The rows and labels unread after `n` loads from split `c0` with draws
     * from `d0` on, starting from unread rows and labels `xs0`, `ys0`: each
     * load appends the next split's frames and labels and shuffles both with
     * the load's permutation. No row is read between two loads of one call.
     */
    ghost function Refilled(c0: nat, d0: nat, xs0: seq<Row>, ys0: seq<int>, n: nat): (r: (seq<Row>, seq<int>))
      requires Setup() && |xs0| == |ys0|
      ensures |r.0| == |r.1|
      decreases n
    {
      if n == 0 then (xs0, ys0)
      else
        var prev := Refilled(c0, d0, xs0, ys0, n - 1);
        RefillOf(Advance(c0, n - 1, loop, numSplit), d0 + n - 1, prev.0, prev.1)
    }

    /** The buffer after `m + 1` loads is one refill from where `m` loads left it. */
    lemma RefilledStep(c0: nat, d0: nat, xs0: seq<Row>, ys0: seq<int>, m: nat)
      requires Setup() && |xs0| == |ys0|
      ensures var prev := Refilled(c0, d0, xs0, ys0, m);
              Refilled(c0, d0, xs0, ys0, m + 1) == RefillOf(Advance(c0, m, loop, numSplit), d0 + m, prev.0, prev.1)
    {
      assert m + 1 - 1 == m && d0 + (m + 1) - 1 == d0 + m;
    }

    /** A refill keeps Conserves: the permutation moves rows and labels without losing or copying any. */
    lemma RefillConserves(c0: nat, d0: nat, xs0: seq<Row>, ys0: seq<int>, m: nat)
      requires Setup() && |xs0| == |ys0|
      requires Conserves(c0, m, xs0, ys0, Refilled(c0, d0, xs0, ys0, m).0, Refilled(c0, d0, xs0, ys0, m).1)
      ensures Conserves(c0, m + 1, xs0, ys0, Refilled(c0, d0, xs0, ys0, m + 1).0, Refilled(c0, d0, xs0, ys0, m + 1).1)
    {
      var prev := Refilled(c0, d0, xs0, ys0, m);
      var c := Advance(c0, m, loop, numSplit);
      var perm := shuffleDraw(d0 + m, |prev.0 + SplitRows(c)|);
      RefilledStep(c0, d0, xs0, ys0, m);
      SplitLabelsMatch(c);
      ShuffleAppendBag(prev.0, SplitRows(c), perm, xs0, LoadedRows(c0, m));
      ShuffleAppendBag(prev.1, SplitLabels(c), perm, ys0, LoadedLabels(c0, m));
      assert m + 1 - 1 == m;
    }

    /** No load leaves the unread rows and labels as they were. */
    lemma NothingLoaded(c0: nat, d0: nat, xs0: seq<Row>, ys0: seq<int>)
      requires Setup() && |xs0| == |ys0|
      ensures Conserves(c0, 0, xs0, ys0, Refilled(c0, d0, xs0, ys0, 0).0, Refilled(c0, d0, xs0, ys0, 0).1)
    {
      assert Refilled(c0, d0, xs0, ys0, 0) == (xs0, ys0);
      assert LoadedRows(c0, 0) == [] && LoadedLabels(c0, 0) == [];
    }

    /** Loading and shuffling loses and duplicates no row and no label, however many loads there are. */
    lemma RefilledConserves(c0: nat, d0: nat, xs0: seq<Row>, ys0: seq<int>, n: nat)
      requires Setup() && |xs0| == |ys0|
      ensures Conserves(c0, n, xs0, ys0, Refilled(c0, d0, xs0, ys0, n).0, Refilled(c0, d0, xs0, ys0, n).1)
    {
      NothingLoaded(c0, d0, xs0, ys0);
      for k := 0 to n
        invariant Conserves(c0, k, xs0, ys0, Refilled(c0, d0, xs0, ys0, k).0, Refilled(c0, d0, xs0, ys0, k).1)
      {
        RefillConserves(c0, d0, xs0, ys0, k);
      }
    }

    /**
     * `xs` and `ys` hold, row beside label, exactly the (row, label) pairs of
     * `xs0` and `ys0` plus those of `n` loads from split `c0`, in some order.
     */
    ghost predicate KeepsPairs(c0: nat, n: nat, xs0: seq<Row>, ys0: seq<int>, xs: seq<Row>, ys: seq<int>)
      requires Setup() && |xs0| == |ys0| && |xs| == |ys|
    {
      multiset(Pairs(xs, ys)) == multiset(Pairs(xs0, ys0)) + multiset(LoadedPairs(c0, n))
    }

    /** A refill keeps KeepsPairs: rows and labels are shuffled with one permutation. */
    lemma RefillKeepsPairs(c0: nat, d0: nat, xs0: seq<Row>, ys0: seq<int>, m: nat)
      requires Setup() && |xs0| == |ys0|
      requires KeepsPairs(c0, m, xs0, ys0, Refilled(c0, d0, xs0, ys0, m).0, Refilled(c0, d0, xs0, ys0, m).1)
      ensures KeepsPairs(c0, m + 1, xs0, ys0, Refilled(c0, d0, xs0, ys0, m + 1).0, Refilled(c0, d0, xs0, ys0, m + 1).1)
    {
      var prev := Refilled(c0, d0, xs0, ys0, m);
      var c := Advance(c0, m, loop, numSplit);
      var perm := shuffleDraw(d0 + m, |prev.0 + SplitRows(c)|);
      RefilledStep(c0, d0, xs0, ys0, m);
      SplitLabelsMatch(c);
      PermutePairs(prev.0 + SplitRows(c), prev.1 + SplitLabels(c), perm);
      PairsAppend(prev.0, prev.1, SplitRows(c), SplitLabels(c));
      ShuffleAppendBag(Pairs(prev.0, prev.1), Pairs(SplitRows(c), SplitLabels(c)), perm, Pairs(xs0, ys0), LoadedPairs(c0, m));
      assert m + 1 - 1 == m;
    }

    /**
     * Every row keeps its label: the (row, label) pairs unread after any
     * number of loads are those unread before plus those of the splits
     * loaded.
     */
    lemma RefilledKeepsPairs(c0: nat, d0: nat, xs0: seq<Row>, ys0: seq<int>, n: nat)
      requires Setup() && |xs0| == |ys0|
      ensures KeepsPairs(c0, n, xs0, ys0, Refilled(c0, d0, xs0, ys0, n).0, Refilled(c0, d0, xs0, ys0, n).1)
    {
      assert Refilled(c0, d0, xs0, ys0, 0) == (xs0, ys0) && LoadedPairs(c0, 0) == [];
      for k := 0 to n
        invariant KeepsPairs(c0, k, xs0, ys0, Refilled(c0, d0, xs0, ys0, k).0, Refilled(c0, d0, xs0, ys0, k).1)
      {
        RefillKeepsPairs(c0, d0, xs0, ys0, k);
      }
    }

    /**
     * From a state with split counter `c0`, draw count `d0` and unread rows
     * and labels `unreadX0`, `unreadY0` to one with counter `c`, draw count
     * `d` and unread `unreadX`, `unreadY`: `loads` splits were loaded in
     * counter order, one draw each, and nothing was read in between.
     */
    ghost predicate LoadedSince(c0: nat, d0: nat, unreadX0: seq<Row>, unreadY0: seq<int>, loads: nat,
                                c: nat, d: nat, unreadX: seq<Row>, unreadY: seq<int>)
      requires Setup() && |unreadX0| == |unreadY0|
    {
      && d == d0 + loads && c == Advance(c0, loads, loop, numSplit)
      && (unreadX, unreadY) == Refilled(c0, d0, unreadX0, unreadY0, loads)
    }

    /** A refill from where LoadedSince left the buffer makes it one load more. */
    lemma LoadedSinceStep(c0: nat, d0: nat, unreadX0: seq<Row>, unreadY0: seq<int>, loads: nat,
                          c: nat, d: nat, unreadX: seq<Row>, unreadY: seq<int>, xs: seq<Row>, ys: seq<int>)
      requires Setup() && |unreadX0| == |unreadY0|
      requires LoadedSince(c0, d0, unreadX0, unreadY0, loads, c, d, unreadX, unreadY)
      requires |unreadX| == |unreadY| && (xs, ys) == RefillOf(c, d, unreadX, unreadY)
      ensures LoadedSince(c0, d0, unreadX0, unreadY0, loads + 1,
                          if loop && c + 1 == numSplit then 0 else c + 1, d + 1, xs, ys)
    {
      RefilledStep(c0, d0, unreadX0, unreadY0, loads);
      assert Refilled(c0, d0, unreadX0, unreadY0, loads + 1) == (xs, ys);
      AdvanceStep(c0, loads, loop, numSplit);
    }

    /**
     * What the IndexError of the shuffle leaves: split `c` has labelled
     * utterances but no frame, nothing was unread, and the buffer is empty.
     */
    ghost predicate EmptiedBy(c: nat)
      reads this
    {
      && Labelled(ReadSplit(c), labels.Keys) != [] && SplitRows(c) == []
      && x == [] && y == [] && batchPointer == 0
    }

    /**
     * One turn of get_batch_frames' loading loop, entered while no more than
     * one batch is unread: stop with the end marker once every split is read
     * in finite mode, otherwise load the split the counter names (stopping
     * with the error when none of its utterances has labels).
     */
    method LoadStep(ghost c0: nat, ghost d0: nat, ghost unreadX0: seq<Row>, ghost unreadY0: seq<int>, ghost loads: nat)
      returns (stop: Option<FrameBatch>)
      requires Setup() && Valid() && batchPointer + batchSize >= |x| && |unreadX0| == |unreadY0|
      requires LoadedSince(c0, d0, unreadX0, unreadY0, loads, splitDataCounter, draws, x[batchPointer..], y[batchPointer..])
      modifies this
      ensures Valid()
      ensures stop == Some(EndOfData) <==> !loop && old(splitDataCounter) == numSplit
      ensures stop.Some? ==> stop.value == EndOfData || stop.value == NoFeatsLoaded || stop.value == EmptyShuffle
      ensures stop.Some? && stop.value != EmptyShuffle ==> unchanged(this)
      ensures stop == Some(NoFeatsLoaded) ==> Labelled(ReadSplit(splitDataCounter), labels.Keys) == []
      ensures stop == Some(EmptyShuffle) ==> EmptiedBy(splitDataCounter)
      ensures stop.Some? ==> splitDataCounter == old(splitDataCounter) && draws == old(draws) && batchPointer + batchSize >= |x|
      ensures stop == Some(EndOfData) ==> !HasData()
      ensures stop.Some? ==> LoadedSince(c0, d0, unreadX0, unreadY0, loads, splitDataCounter, draws, x[batchPointer..], y[batchPointer..])
      ensures stop.None? ==> LoadedSince(c0, d0, unreadX0, unreadY0, loads + 1, splitDataCounter, draws, x[batchPointer..], y[batchPointer..])
      ensures stop.None? ==> batchPointer == 0
      ensures lastBatchFrames == old(lastBatchFrames)
      ensures stop.None? ==> if loop then |x| - batchPointer > old(|x| - batchPointer) else splitDataCounter == old(splitDataCounter) + 1
    {
      if !loop && splitDataCounter == numSplit {
        // not loop mode and all splits are read: do not read any more
        return Some(EndOfData);
      }
      ghost var counter, d, unreadX, unreadY := splitDataCounter, draws, x[batchPointer..], y[batchPointer..];
      stop := DrainSplit();
      if stop.Some? {
        return;
      }
      assert x[batchPointer..] == x && y[batchPointer..] == y;
      LoadedSinceStep(c0, d0, unreadX0, unreadY0, loads, counter, d, unreadX, unreadY, x, y);
      if loop {
        LabelledHasFrames(counter);
      }
      stop := None;
    }

    /**
     * The loading loop of get_batch_frames, entered when no more than one
     * batch of rows is unread and has_data is true: load splits until more than one is (None), or
     * stop with the end marker once every split is read in finite mode, or
     * with the error of a split where no utterance has labels. `loads`
     * counts the splits loaded; the unread rows after it are given exactly:
     * the rows unread before, refilled once for each split loaded.
     */
    method LoadUntilFits() returns (stop: Option<FrameBatch>, ghost loads: nat)
      requires Setup() && Valid() && batchPointer + batchSize >= |x| && HasData()
      modifies this
      ensures Valid()
      ensures stop.None? <==> batchPointer + batchSize < |x|
      ensures stop.Some? ==> stop.value == EndOfData || stop.value == NoFeatsLoaded || stop.value == EmptyShuffle
      ensures stop == Some(EndOfData) ==> !HasData()
      ensures stop == Some(NoFeatsLoaded) ==> Labelled(ReadSplit(splitDataCounter), labels.Keys) == []
      ensures stop == Some(EmptyShuffle) ==> EmptiedBy(splitDataCounter)
      ensures stop.None? ==> loads > 0 && batchPointer == 0
      ensures LoadedSince(old(splitDataCounter), old(draws), old(x[batchPointer..]), old(y[batchPointer..]), loads,
                          splitDataCounter, draws, x[batchPointer..], y[batchPointer..])
      ensures lastBatchFrames == old(lastBatchFrames)
    {
      ghost var c0, d0, unreadX0, unreadY0 := splitDataCounter, draws, x[batchPointer..], y[batchPointer..];
      loads := 0;
      while true
        invariant Valid() && batchPointer + batchSize >= |x|
        invariant LoadedSince(c0, d0, unreadX0, unreadY0, loads, splitDataCounter, draws, x[batchPointer..], y[batchPointer..])
        invariant lastBatchFrames == old(lastBatchFrames)
        decreases if loop then batchSize + 1 - (|x| - batchPointer) else numSplit - splitDataCounter
      {
        stop := LoadStep(c0, d0, unreadX0, unreadY0, loads);
        if stop.Some? {
          break;
        }
        loads := loads + 1;
        if batchPointer + batchSize < |x| {
          break;
        }
      }
    }

    /** The serving part of get_batch_frames: the next batch_size rows and labels, and the cursor moves past them. */
    method ServeBatch() returns (r: FrameBatch)
      requires Valid() && batchPointer + batchSize < |x|
      modifies this
      ensures Valid()
      ensures r == Frames(old(x[batchPointer..batchPointer + batchSize]), old(y[batchPointer..batchPointer + batchSize]))
      ensures batchPointer == old(batchPointer) + batchSize && lastBatchFrames == batchSize
      ensures x == old(x) && y == old(y) && splitDataCounter == old(splitDataCounter) && draws == old(draws)
      ensures r.x + x[batchPointer..] == old(x[batchPointer..]) && r.y + y[batchPointer..] == old(y[batchPointer..])
    {
      var xMini := x[batchPointer..batchPointer + batchSize];
      var yMini := y[batchPointer..batchPointer + batchSize];
      assert xMini + x[batchPointer + batchSize..] == x[batchPointer..];
      assert yMini + y[batchPointer + batchSize..] == y[batchPointer..];
      batchPointer := batchPointer + batchSize;
      lastBatchFrames := |yMini|;
      r := Frames(xMini, yMini);
    }

    /**
     * get_batch_frames: load splits until more than one batch of rows is
     * unread, then serve the next batch_size rows. In finite mode, once every
     * split is read and no batch is left, the leftover rows are not served.
     * `loads` counts the splits loaded on the way.
     */
    method GetBatchFrames() returns (r: FrameBatch, ghost loads: nat)
      requires Setup() && Valid()
      modifies this
      ensures Valid()
      ensures !old(HasData()) ==> r == EndOfData && unchanged(this)
      ensures r == EndOfData ==> !HasData() && batchPointer + batchSize >= |x|
      ensures old(batchPointer) + batchSize < old(|x|) ==>
                && loads == 0
                && r == Frames(old(x[batchPointer..batchPointer + batchSize]), old(y[batchPointer..batchPointer + batchSize]))
                && x == old(x) && y == old(y) && splitDataCounter == old(splitDataCounter) && draws == old(draws)
      ensures r.Frames? ==>
                && batchSize <= batchPointer < |x|
                && r.x == x[batchPointer - batchSize..batchPointer] && r.y == y[batchPointer - batchSize..batchPointer]
                && |r.x| == |r.y| == batchSize && lastBatchFrames == batchSize
      // the cursor moves past the batch served; a load has reset it to 0
      ensures r.Frames? ==> batchPointer == (if loads == 0 then old(batchPointer) else 0) + batchSize
      ensures r.NoFeatsLoaded? ==> Labelled(ReadSplit(splitDataCounter), labels.Keys) == []
      ensures r.EmptyShuffle? ==> EmptiedBy(splitDataCounter)
      ensures !r.Frames? ==> lastBatchFrames == old(lastBatchFrames)
      // the splits loaded, one draw each, in counter order
      ensures draws == old(draws) + loads && splitDataCounter == Advance(old(splitDataCounter), loads, loop, numSplit)
      // the batch served and the rows still unread are, in order, the rows
      // unread before refilled once per load, rows and labels shuffled together
      ensures r.Frames? ==>
                (r.x + x[batchPointer..], r.y + y[batchPointer..])
                == Refilled(old(splitDataCounter), old(draws), old(x[batchPointer..]), old(y[batchPointer..]), loads)
      ensures !r.Frames? ==>
                (x[batchPointer..], y[batchPointer..])
                == Refilled(old(splitDataCounter), old(draws), old(x[batchPointer..]), old(y[batchPointer..]), loads)
      // no row or label is lost or duplicated: the batch served and the rows
      // still unread are the rows unread before plus the rows loaded
      ensures r.Frames? ==>
                Conserves(old(splitDataCounter), loads, old(x[batchPointer..]), old(y[batchPointer..]),
                          r.x + x[batchPointer..], r.y + y[batchPointer..])
      ensures !r.Frames? ==>
                Conserves(old(splitDataCounter), loads, old(x[batchPointer..]), old(y[batchPointer..]),
                          x[batchPointer..], y[batchPointer..])
    {
      ghost var c0, d0, unreadX0, unreadY0 := splitDataCounter, draws, x[batchPointer..], y[batchPointer..];
      if batchPointer + batchSize < |x| {
        // more than one batch is already unread
        r := ServeBatch();
        loads := 0;
      } else {
        r, loads := LoadAndServe();
      }
      RefilledConserves(c0, d0, unreadX0, unreadY0, loads);
    }

    /**
     * get_batch_frames when no more than one batch of rows is unread: load
     * splits until more than one is, then serve the first batch_size rows of
     * the shuffled buffer. No row or label is lost or duplicated on the way.
     */
    method LoadAndServe() returns (r: FrameBatch, ghost loads: nat)
      requires Setup() && Valid() && batchPointer + batchSize >= |x|
      modifies this
      ensures Valid()
      ensures r.Frames? || r == EndOfData || r == NoFeatsLoaded || r == EmptyShuffle
      ensures !old(HasData()) ==> r == EndOfData && unchanged(this)
      ensures r == EndOfData ==> !HasData() && batchPointer + batchSize >= |x|
      ensures r.Frames? ==>
                && loads > 0 && batchPointer == batchSize < |x|
                && r.x == x[..batchSize] && r.y == y[..batchSize] && |r.x| == |r.y| == batchSize && lastBatchFrames == batchSize
      ensures r.NoFeatsLoaded? ==> Labelled(ReadSplit(splitDataCounter), labels.Keys) == []
      ensures r.EmptyShuffle? ==> EmptiedBy(splitDataCounter)
      ensures !r.Frames? ==> lastBatchFrames == old(lastBatchFrames)
      ensures draws == old(draws) + loads && splitDataCounter == Advance(old(splitDataCounter), loads, loop, numSplit)
      ensures r.Frames? ==>
                (r.x + x[batchPointer..], r.y + y[batchPointer..])
                == Refilled(old(splitDataCounter), old(draws), old(x[batchPointer..]), old(y[batchPointer..]), loads)
      ensures !r.Frames? ==>
                (x[batchPointer..], y[batchPointer..])
                == Refilled(old(splitDataCounter), old(draws), old(x[batchPointer..]), old(y[batchPointer..]), loads)
    {
      if !HasData() {
        // not loop mode and every split is read: do not read any more
        return EndOfData, 0;
      }
      ghost var c0, d0, unreadX0, unreadY0 := splitDataCounter, draws, x[batchPointer..], y[batchPointer..];
      var stop;
      stop, loads := LoadUntilFits();
      if stop.Some? {
        return stop.value, loads;
      }
      r := ServeBatch();
    }

    /** reset_batch: start again from the first split; nothing else changes. */
    method ResetBatch()
      requires Setup() && Valid()
      modifies this
      ensures Valid()
      ensures splitDataCounter == 0
      ensures x == old(x) && y == old(y) && batchPointer == old(batchPointer)
      ensures lastBatchFrames == old(lastBatchFrames) && draws == old(draws)
    {
      splitDataCounter := 0;
    }
  }
}
