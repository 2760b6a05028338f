/**
 * Shared vocabulary of the batching model: feature rows and windows,
 * numpy-style slicing, flattening of nested lists, and the joint shuffle
 * (one index permutation applied to several parallel arrays).
 */
module Common {

  datatype Option<T> = None | Some(value: T)

  /** One acoustic feature vector (one frame of a feature matrix). */
  type Row = seq<real>

  /** A fixed-length slice of an utterance: a list of frames. */
  type Window = seq<Row>

  /** `n` copies of `v` (numpy.zeros / numpy.ones of a given shape). */
  function Fill<T>(n: nat, v: T): (r: seq<T>)
    ensures |r| == n
    ensures forall i :: 0 <= i < n ==> r[i] == v
  {
    seq(n, _ => v)
  }

  /** The all-zero feature row of the given width. */
  function ZeroRow(width: nat): Row
  {
    Fill(width, 0.0)
  }

  /** `n` zero rows of the given width (numpy.zeros((n, width))). */
  function ZeroRows(n: nat, width: nat): seq<Row>
  {
    Fill(n, ZeroRow(width))
  }

  /** Concatenation of a list of lists (numpy.vstack / numpy.concatenate). */
  function Flatten<T>(ss: seq<seq<T>>): seq<T>
  {
    if ss == [] then [] else ss[0] + Flatten(ss[1..])
  }

  lemma {:induction false} FlattenAppend<T>(a: seq<seq<T>>, b: seq<seq<T>>)
    ensures Flatten(a + b) == Flatten(a) + Flatten(b)
  {
    if a == [] {
      assert a + b == b;
    } else {
      assert (a + b)[1..] == a[1..] + b;
      FlattenAppend(a[1..], b);
    }
  }

  /** Sum of a list of integers. */
  function Sum(s: seq<int>): int
  {
    if s == [] then 0 else s[0] + Sum(s[1..])
  }

  lemma {:induction false} SumAppend(a: seq<int>, b: seq<int>)
    ensures Sum(a + b) == Sum(a) + Sum(b)
  {
    if a == [] {
      assert a + b == b;
    } else {
      assert (a + b)[1..] == a[1..] + b;
      SumAppend(a[1..], b);
    }
  }

  /** Python's normalisation of a slice bound `i` against a length `n`. */
  function SliceBound(i: int, n: nat): (r: int)
    ensures 0 <= r <= n
  {
    if i < 0 then (if n + i < 0 then 0 else n + i)
    else if i > n then n
    else i
  }

  /**
   * Python / numpy slicing `s[lo:hi]`: negative bounds count from the end,
   * bounds past either end are clipped, and an empty range gives [].
   */
  function PySlice<T>(s: seq<T>, lo: int, hi: int): (r: seq<T>)
    ensures 0 <= lo <= hi <= |s| ==> r == s[lo..hi]
    ensures |r| <= |s|
  {
    var a := SliceBound(lo, |s|);
    var b := SliceBound(hi, |s|);
    if a < b then s[a..b] else []
  }

  /** `s[0:n]` for a non-negative `n`: the first `min(n, |s|)` elements. */
  function Take<T>(s: seq<T>, n: nat): (r: seq<T>)
    ensures |r| == if n < |s| then n else |s|
    ensures r == s[..|r|]
  {
    PySlice(s, 0, n)
  }

  /** The identity index list `0, 1, ..., n-1` (numpy.array(range(n))). */
  function Range(n: nat): (r: seq<int>)
    ensures |r| == n
    ensures forall i :: 0 <= i < n ==> r[i] == i
  {
    seq(n, i => i)
  }

  /** Window `k` from `start`, `step` frames apart, is window `k - 1` from the next start. */
  lemma Stride(start: nat, step: nat, k: nat)
    requires k > 0
    ensures start + step + (k - 1) * step == start + k * step
    ensures k * step >= step
  {
    assert k * step == (k - 1) * step + step;
  }

  /** `p` is a rearrangement of the indices `0 .. n-1`. */
  ghost predicate IsPermutation(p: seq<int>, n: nat)
  {
    multiset(p) == multiset(Range(n))
  }

  predicate InBounds(p: seq<int>, n: nat)
  {
    forall i :: 0 <= i < |p| ==> 0 <= p[i] < n
  }

  /** Fancy indexing `s[p]` by a permutation: element `i` of the result is `s[p[i]]`. */
  function Permute<T>(s: seq<T>, p: seq<int>): (r: seq<T>)
    requires IsPermutation(p, |s|)
    ensures InBounds(p, |s|)
    ensures |r| == |p| == |s|
    ensures forall i :: 0 <= i < |p| ==> r[i] == s[p[i]]
  {
    PermutationInBounds(p, |s|);
    seq(|p|, i requires 0 <= i < |p| => s[p[i]])
  }

  lemma PermutationInBounds(p: seq<int>, n: nat)
    requires IsPermutation(p, n)
    ensures |p| == n && InBounds(p, n)
  {
    assert |multiset(p)| == |multiset(Range(n))|;
    forall i | 0 <= i < |p| ensures 0 <= p[i] < n {
      assert p[i] in multiset(p);
      assert p[i] in multiset(Range(n));
      assert p[i] in Range(n);
    }
  }

  lemma RemoveAtMultiset<T>(p: seq<T>, k: nat)
    requires k < |p|
    ensures multiset(p) == multiset(p[..k] + p[k + 1..]) + multiset([p[k]])
  {
    assert p == p[..k] + [p[k]] + p[k + 1..];
  }

  lemma RangeSnoc(n: nat)
    requires n > 0
    ensures Range(n) == Range(n - 1) + [n - 1]
  {
  }

  /** Dropping the position of the largest index leaves a permutation of the rest. */
  lemma DropLastIndex(p: seq<int>, n: nat, k: nat)
    requires n > 0 && IsPermutation(p, n) && k < |p| && p[k] == n - 1
    ensures IsPermutation(p[..k] + p[k + 1..], n - 1)
  {
    var q := p[..k] + p[k + 1..];
    RemoveAtMultiset(p, k);
    RangeSnoc(n);
    assert multiset(Range(n)) == multiset(Range(n - 1)) + multiset([n - 1]);
    forall x: int ensures multiset(q)[x] == multiset(Range(n - 1))[x] {
      assert multiset(p)[x] == multiset(q)[x] + multiset([n - 1])[x];
      assert multiset(p)[x] == multiset(Range(n - 1))[x] + multiset([n - 1])[x];
    }
    assert multiset(q) == multiset(Range(n - 1));
  }

  lemma IndexOfLast(p: seq<int>, n: nat) returns (k: nat)
    requires n > 0 && IsPermutation(p, n)
    ensures k < |p| && p[k] == n - 1
  {
    RangeSnoc(n);
    assert n - 1 in multiset(Range(n));
    assert n - 1 in multiset(p);
    k :| 0 <= k < |p| && p[k] == n - 1;
  }

  lemma PermuteDropLast<T>(s: seq<T>, p: seq<int>, k: nat)
    requires |s| > 0 && IsPermutation(p, |s|) && k < |p| && p[k] == |s| - 1
    requires IsPermutation(p[..k] + p[k + 1..], |s| - 1)
    ensures Permute(s, p)
         == Permute(s[..|s| - 1], p[..k] + p[k + 1..])[..k] + [s[|s| - 1]]
          + Permute(s[..|s| - 1], p[..k] + p[k + 1..])[k..]
  {
  }

  /** Shuffling by a permutation neither loses nor duplicates an element. */
  lemma {:induction false} PermutePreservesMultiset<T>(s: seq<T>, p: seq<int>)
    requires IsPermutation(p, |s|)
    ensures multiset(Permute(s, p)) == multiset(s)
  {
    var n := |s|;
    if n == 0 {
      assert p == [];
    } else {
      var k := IndexOfLast(p, n);
      var q := p[..k] + p[k + 1..];
      DropLastIndex(p, n, k);
      var s' := s[..n - 1];
      PermutePreservesMultiset(s', q);
      PermuteDropLast(s, p, k);
      var r' := Permute(s', q);
      InsertMultiset(r', k, s[n - 1]);
      LastMultiset(s);
    }
  }

  /** Two parallel lists side by side: element `i` pairs `a[i]` with `b[i]`. */
  function Pairs<A, B>(a: seq<A>, b: seq<B>): (r: seq<(A, B)>)
    requires |a| == |b|
    ensures |r| == |a| && forall i :: 0 <= i < |a| ==> r[i] == (a[i], b[i])
  {
    seq(|a|, i requires 0 <= i < |a| => (a[i], b[i]))
  }

  /** Pairing distributes over concatenation. */
  lemma PairsAppend<A, B>(a: seq<A>, b: seq<B>, c: seq<A>, d: seq<B>)
    requires |a| == |b| && |c| == |d|
    ensures Pairs(a + c, b + d) == Pairs(a, b) + Pairs(c, d)
  {
  }

  /** Shuffling two parallel lists with one permutation shuffles their pairs. */
  lemma PermutePairs<A, B>(a: seq<A>, b: seq<B>, p: seq<int>)
    requires |a| == |b| && IsPermutation(p, |a|)
    ensures Pairs(Permute(a, p), Permute(b, p)) == Permute(Pairs(a, b), p)
  {
  }

  /**
   * Appending `add` to a buffer holding the elements of `base` and `loaded`,
   * then shuffling, gives a buffer holding those of `base` and `loaded + add`.
   */
  lemma ShuffleAppendBag<T>(prev: seq<T>, add: seq<T>, p: seq<int>, base: seq<T>, loaded: seq<T>)
    requires IsPermutation(p, |prev + add|)
    requires multiset(prev) == multiset(base) + multiset(loaded)
    ensures multiset(Permute(prev + add, p)) == multiset(base) + multiset(loaded + add)
  {
    PermutePreservesMultiset(prev + add, p);
  }

  lemma InsertMultiset<T>(r: seq<T>, k: nat, x: T)
    requires k <= |r|
    ensures multiset(r[..k] + [x] + r[k..]) == multiset(r) + multiset([x])
  {
    assert r == r[..k] + r[k..];
  }

  lemma LastMultiset<T>(s: seq<T>)
    requires |s| > 0
    ensures multiset(s) == multiset(s[..|s| - 1]) + multiset([s[|s| - 1]])
  {
    assert s == s[..|s| - 1] + [s[|s| - 1]];
  }

  // ---------------------------------------------------------------------------
  // Split records and labels

  /** One record of a feature split: an utterance id and its feature matrix. */
  datatype Utt = Utt(uid: string, feats: seq<Row>)

  /** The records of a split whose uid has labels, in stream order (the filter in get_next_split_data). */
  function Labelled(records: seq<Utt>, known: set<string>): (r: seq<Utt>)
    ensures |r| <= |records|
    ensures forall u :: u in r <==> u in records && u.uid in known
  {
    if records == [] then []
    else (if records[0].uid in known then [records[0]] else []) + Labelled(records[1..], known)
  }

  lemma {:induction false} LabelledAppend(a: seq<Utt>, b: seq<Utt>, known: set<string>)
    ensures Labelled(a + b, known) == Labelled(a, known) + Labelled(b, known)
  {
    if a == [] {
      assert a + b == b;
    } else {
      assert (a + b)[1..] == a[1..] + b;
      LabelledAppend(a[1..], b, known);
    }
  }

  /** Filtering keeps a record exactly as often as it occurs when its uid is known, and drops it otherwise. */
  lemma {:induction false} LabelledMultiset(records: seq<Utt>, known: set<string>, u: Utt)
    ensures multiset(Labelled(records, known))[u] == if u.uid in known then multiset(records)[u] else 0
  {
    if records != [] {
      LabelledMultiset(records[1..], known, u);
      assert records == [records[0]] + records[1..];
    }
  }

  /** The feature matrices of a list of records. */
  function FeatsOf(utts: seq<Utt>): (r: seq<seq<Row>>)
    ensures |r| == |utts| && forall i :: 0 <= i < |utts| ==> r[i] == utts[i].feats
  {
    seq(|utts|, i requires 0 <= i < |utts| => utts[i].feats)
  }

  /** The labels of a list of records, all of whose uids are labelled. */
  function LabelsOf<L>(utts: seq<Utt>, labels: map<string, L>): (r: seq<L>)
    requires forall u :: u in utts ==> u.uid in labels
    ensures |r| == |utts| && forall i :: 0 <= i < |utts| ==> r[i] == labels[utts[i].uid]
  {
    seq(|utts|, i requires 0 <= i < |utts| => labels[utts[i].uid])
  }

  /** Filtering one more record: it is kept exactly when its uid is known. */
  lemma LabelledSnoc(records: seq<Utt>, u: Utt, known: set<string>)
    ensures Labelled(records + [u], known) == Labelled(records, known) + (if u.uid in known then [u] else [])
  {
    LabelledAppend(records, [u], known);
    assert [u][1..] == [];
  }

  lemma FeatsOfSnoc(utts: seq<Utt>, u: Utt)
    ensures FeatsOf(utts + [u]) == FeatsOf(utts) + [u.feats]
  {
  }

  lemma LabelsOfSnoc<L>(utts: seq<Utt>, u: Utt, labels: map<string, L>)
    requires forall v :: v in utts ==> v.uid in labels
    requires u.uid in labels
    ensures LabelsOf(utts + [u], labels) == LabelsOf(utts, labels) + [labels[u.uid]]
  {
  }

  /** Every labelled utterance has as many frame labels as frames. */
  ghost predicate LabelsMatch(splits: seq<seq<Utt>>, labels: map<string, seq<int>>)
  {
    forall i, u :: 0 <= i < |splits| && u in splits[i] && u.uid in labels ==> |labels[u.uid]| == |u.feats|
  }

  /** Pointwise equal lengths give equal concatenated lengths. */
  lemma {:induction false} FlattenSameLength<S, T>(a: seq<seq<S>>, b: seq<seq<T>>)
    requires |a| == |b| && forall i :: 0 <= i < |a| ==> |a[i]| == |b[i]|
    ensures |Flatten(a)| == |Flatten(b)|
  {
    if a != [] {
      FlattenSameLength(a[1..], b[1..]);
    }
  }

  // ---------------------------------------------------------------------------
  // Target counts

  /** How often each target 0 .. numTargets-1 occurs among the labels. */
  function CountsOf(labels: seq<int>, numTargets: nat): (r: seq<int>)
    ensures |r| == numTargets
  {
    seq(numTargets, c => multiset(labels)[c])
  }

  predicate AllInRange(labels: seq<int>, numTargets: nat)
  {
    forall i :: 0 <= i < |labels| ==> 0 <= labels[i] < numTargets
  }

  /**
   * numpy.bincount(labels, minlength = numTargets) as save_target_counts
   * can use it: None when numpy raises (a negative target) or returns more
   * than numTargets entries (a target past the end), which the following
   * addition rejects.
   */
  function Bincount(labels: seq<int>, numTargets: nat): (r: Option<seq<int>>)
    ensures r.Some? <==> AllInRange(labels, numTargets)
    ensures r.Some? ==> |r.value| == numTargets
  {
    if AllInRange(labels, numTargets) then Some(CountsOf(labels, numTargets)) else None
  }

  /** Elementwise sum of two count vectors. */
  function AddCounts(a: seq<int>, b: seq<int>): (r: seq<int>)
    requires |a| == |b|
    ensures |r| == |a| && forall i :: 0 <= i < |a| ==> r[i] == a[i] + b[i]
  {
    seq(|a|, i requires 0 <= i < |a| => a[i] + b[i])
  }

  lemma CountsAppend(a: seq<int>, b: seq<int>, numTargets: nat)
    ensures CountsOf(a + b, numTargets) == AddCounts(CountsOf(a, numTargets), CountsOf(b, numTargets))
  {
    assert multiset(a + b) == multiset(a) + multiset(b);
  }

  lemma AllInRangeAppend(a: seq<int>, b: seq<int>, numTargets: nat)
    ensures AllInRange(a + b, numTargets) <==> AllInRange(a, numTargets) && AllInRange(b, numTargets)
  {
    if AllInRange(a + b, numTargets) {
      forall i | 0 <= i < |a| ensures 0 <= a[i] < numTargets {
        assert (a + b)[i] == a[i];
      }
      forall i | 0 <= i < |b| ensures 0 <= b[i] < numTargets {
        assert (a + b)[|a| + i] == b[i];
      }
    }
  }

  /**
   * The integer part of save_target_counts: the bincount of every
   * alignment, summed into numTargets counts. The labels map's values are
   * given as a list; the sum does not depend on their order.
   */
  method TargetCounts(alignments: seq<seq<int>>, numTargets: nat) returns (counts: Option<seq<int>>)
    ensures counts.None? <==> !AllInRange(Flatten(alignments), numTargets)
    ensures counts.Some? ==> counts.value == CountsOf(Flatten(alignments), numTargets)
  {
    var acc := Fill(numTargets, 0);
    assert acc == CountsOf([], numTargets);
    assert alignments[..0] == [];
    for a := 0 to |alignments|
      invariant AllInRange(Flatten(alignments[..a]), numTargets)
      invariant acc == CountsOf(Flatten(alignments[..a]), numTargets)
    {
      var alignment := alignments[a];
      ghost var done := Flatten(alignments[..a]);
      FlattenSplit(alignments, a);
      var binned := Bincount(alignment, numTargets);
      if binned.None? {
        AllInRangeAppend(done, alignment, numTargets);
        AllInRangeAppend(done + alignment, Flatten(alignments[a + 1..]), numTargets);
        return None;
      }
      acc := AddCounts(acc, binned.value);
      CountsAppend(done, alignment, numTargets);
      AllInRangeAppend(done, alignment, numTargets);
    }
    assert alignments[..|alignments|] == alignments;
    counts := Some(acc);
  }

  lemma FlattenSnoc<T>(ss: seq<seq<T>>, a: nat)
    requires a < |ss|
    ensures Flatten(ss[..a + 1]) == Flatten(ss[..a]) + ss[a]
  {
    assert ss[..a + 1] == ss[..a] + [ss[a]];
    FlattenAppend(ss[..a], [ss[a]]);
    assert [ss[a]][1..] == [];
  }

  lemma FlattenSplit<T>(ss: seq<seq<T>>, a: nat)
    requires a < |ss|
    ensures Flatten(ss[..a + 1]) == Flatten(ss[..a]) + ss[a]
    ensures Flatten(ss) == Flatten(ss[..a]) + ss[a] + Flatten(ss[a + 1..])
  {
    FlattenSnoc(ss, a);
    var front, back := ss[..a + 1], ss[a + 1..];
    assert ss == front + back;
    FlattenAppend(front, back);
    calc {
      Flatten(ss);
      Flatten(front) + Flatten(back);
      (Flatten(ss[..a]) + ss[a]) + Flatten(back);
    }
  }

  /** Adding one in range target raises its own count by one. */
  lemma CountsSnoc(labels: seq<int>, target: int, numTargets: nat)
    requires 0 <= target < numTargets
    ensures CountsOf(labels + [target], numTargets) == CountsOf(labels, numTargets)[target := CountsOf(labels, numTargets)[target] + 1]
  {
    assert multiset(labels + [target]) == multiset(labels) + multiset{target};
  }

  lemma {:induction false} SumIncrement(s: seq<int>, k: nat)
    requires k < |s|
    ensures Sum(s[k := s[k] + 1]) == Sum(s) + 1
  {
    if k > 0 {
      SumIncrement(s[1..], k - 1);
      assert s[k := s[k] + 1][1..] == s[1..][k - 1 := s[k] + 1];
    }
  }

  /** When every target is a valid target, the counts add up to the number of labels. */
  lemma {:induction false} CountsSum(labels: seq<int>, numTargets: nat)
    requires AllInRange(labels, numTargets)
    ensures Sum(CountsOf(labels, numTargets)) == |labels|
  {
    if labels == [] {
      SumZeros(numTargets);
      assert CountsOf([], numTargets) == Fill(numTargets, 0);
    } else {
      var n := |labels| - 1;
      var init, last := labels[..n], labels[n];
      assert labels == init + [last];
      CountsSum(init, numTargets);
      CountsSnoc(init, last, numTargets);
      SumIncrement(CountsOf(init, numTargets), last);
    }
  }

  lemma {:induction false} SumZeros(n: nat)
    ensures Sum(Fill(n, 0)) == 0
  {
    if n > 0 {
      assert Fill(n, 0)[1..] == Fill(n - 1, 0);
      SumZeros(n - 1);
    }
  }

  lemma {:induction false} SumOnes(n: nat)
    ensures Sum(Fill(n, 1)) == n
  {
    if n > 0 {
      assert Fill(n, 1)[1..] == Fill(n - 1, 1);
      SumOnes(n - 1);
    }
  }

  /**
   * The split data counter after `n` loads from split `c`: one forward per
   * load, back to 0 on reaching `numSplit` in loop mode only.
   */
  function Advance(c: nat, n: nat, loop: bool, numSplit: nat): (r: nat)
    ensures !loop ==> r == c + n
    ensures loop && c < numSplit ==> r < numSplit
  {
    if n == 0 then c
    else
      var p := Advance(c, n - 1, loop, numSplit);
      if loop && p + 1 == numSplit then 0 else p + 1
  }

  /** One more load moves the counter one split on from where `n` loads left it. */
  lemma AdvanceStep(c: nat, n: nat, loop: bool, numSplit: nat)
    ensures Advance(c, n + 1, loop, numSplit)
            == if loop && Advance(c, n, loop, numSplit) + 1 == numSplit then 0 else Advance(c, n, loop, numSplit) + 1
  {
  }

  /** Every permutation numpy's generator can be asked for is one. */
  ghost predicate ShufflesValid(shuffleDraw: (nat, nat) -> seq<int>)
  {
    forall d: nat, n: nat :: IsPermutation(shuffleDraw(d, n), n)
  }
}
