/**
 * `findLine`: a single pass over the vote accumulator that keeps the nbLine
 * strongest bins in two parallel arrays, `score` (ascending, so that score[0]
 * is the weakest vote kept) and `id` (the bin of each score).
 *
 * The functions below give the state of the two arrays after any prefix of the
 * scan (Scan); the lemmas prove what that state guarantees; FindLine is the
 * in-place loop of the source, proved to compute Scan.
 */
module PeakSelection {

  /** The pair of arrays `score[0..n)` and `id[0..n)`, as values. */
  datatype Peaks = Peaks(scores: seq<int>, ids: seq<int>)

  predicate WellFormed(p: Peaks, n: nat)
  {
    |p.scores| == n && |p.ids| == n
  }

  /** The score/id pairs slot by slot. */
  function Entries(p: Peaks): seq<(int, int)>
    requires |p.ids| == |p.scores|
  {
    seq(|p.scores|, k requires 0 <= k < |p.scores| => (p.scores[k], p.ids[k]))
  }

  predicate Sorted(s: seq<int>)
  {
    forall a, b :: 0 <= a < b < |s| ==> s[a] <= s[b]
  }

  /** Both arrays after the zero-filling loop. */
  function Zeroed(n: nat): (p: Peaks)
    ensures WellFormed(p, n)
    ensures forall k :: 0 <= k < n ==> p.scores[k] == 0 && p.ids[k] == 0
  {
    Peaks(seq(n, _ => 0), seq(n, _ => 0))
  }

  /** Exchange slots j and j + 1 in both arrays. */
  function Swap(p: Peaks, j: nat): Peaks
    requires j + 1 < |p.scores| && |p.ids| == |p.scores|
  {
    Peaks(p.scores[j := p.scores[j + 1]][j + 1 := p.scores[j]],
          p.ids[j := p.ids[j + 1]][j + 1 := p.ids[j]])
  }

  /** The rest of the bubble pass, from position j: swap wherever score[j] > score[j + 1]. */
  function BubbleFrom(p: Peaks, j: nat): (q: Peaks)
    requires |p.ids| == |p.scores|
    ensures |q.scores| == |p.scores| && |q.ids| == |p.ids|
    decreases |p.scores| - j
  {
    if j + 1 >= |p.scores| then p
    else if p.scores[j] > p.scores[j + 1] then BubbleFrom(Swap(p, j), j + 1)
    else BubbleFrom(p, j + 1)
  }

  /** One step of the scan: a vote strictly above score[0] replaces slot 0, then one bubble pass. */
  function Insert(p: Peaks, vote: int, i: int): (q: Peaks)
    requires |p.scores| >= 1 && |p.ids| == |p.scores|
    ensures |q.scores| == |p.scores| && |q.ids| == |p.ids|
  {
    if vote > p.scores[0] then BubbleFrom(Peaks(p.scores[0 := vote], p.ids[0 := i]), 0)
    else p
  }

  /** The two arrays after the first k accumulator elements have been scanned. */
  function Scan(acc: seq<int>, n: nat, k: nat): (p: Peaks)
    requires n >= 1 && k <= |acc|
    ensures WellFormed(p, n)
  {
    if k == 0 then Zeroed(n) else Insert(Scan(acc, n, k - 1), acc[k - 1], k - 1)
  }

  /** The two arrays at the end of the scan. */
  function TopN(acc: seq<int>, n: nat): (p: Peaks)
    requires n >= 1
    ensures WellFormed(p, n)
  {
    Scan(acc, n, |acc|)
  }

  /** Bin d beat the running minimum score[0] at the moment it was scanned. */
  predicate Admitted(acc: seq<int>, n: nat, d: int)
    requires n >= 1
  {
    0 <= d < |acc| && acc[d] > Scan(acc, n, d).scores[0]
  }

  /**
   * A slot holds either the sentinel (0, 0) or a genuine entry:
   * a bin d scanned before k, with its own vote as the score, admitted when scanned.
   */
  predicate SlotOk(acc: seq<int>, n: nat, k: nat, e: (int, int))
    requires n >= 1
  {
    (e.0 == 0 && e.1 == 0) ||
    (e.0 > 0 && 0 <= e.1 < k && e.1 < |acc| && acc[e.1] == e.0 && Admitted(acc, n, e.1))
  }

  /** No bin is kept twice. */
  predicate DistinctIds(p: Peaks)
    requires |p.ids| == |p.scores|
  {
    forall a, b :: 0 <= a < |p.ids| && 0 <= b < |p.ids| && a != b && p.scores[a] > 0 && p.scores[b] > 0 ==>
      p.ids[a] != p.ids[b]
  }

  /** What holds after every prefix k of the scan. */
  predicate ScanInvariant(acc: seq<int>, n: nat, k: nat, p: Peaks)
    requires n >= 1 && k <= |acc|
  {
    && WellFormed(p, n)
    && Sorted(p.scores)
    && (forall m :: 0 <= m < n ==> SlotOk(acc, n, k, Entries(p)[m]))
    && DistinctIds(p)
    && (forall i :: 0 <= i < k && acc[i] > p.scores[0] ==> (acc[i], i) in Entries(p))
  }

  // ---------------------------------------------------------------------------
  // The bubble pass

  /** One swap permutes the score/id pairs. */
  lemma SwapPermutes(p: Peaks, j: nat)
    requires j + 1 < |p.scores| && |p.ids| == |p.scores|
    ensures multiset(Entries(Swap(p, j))) == multiset(Entries(p))
  {
    var e := Entries(p);
    assert Entries(Swap(p, j)) == e[j := e[j + 1]][j + 1 := e[j]];
  }

  /** The bubble pass only rearranges the pairs: scores and ids stay together. */
  lemma {:induction false} BubblePermutes(p: Peaks, j: nat)
    requires |p.ids| == |p.scores|
    ensures multiset(Entries(BubbleFrom(p, j))) == multiset(Entries(p))
    decreases |p.scores| - j
  {
    if j + 1 >= |p.scores| {
    } else if p.scores[j] > p.scores[j + 1] {
      SwapPermutes(p, j);
      BubblePermutes(Swap(p, j), j + 1);
    } else {
      BubblePermutes(p, j + 1);
    }
  }

  lemma {:induction false} BubbleKeepsDistinct(p: Peaks, j: nat)
    requires |p.ids| == |p.scores| && DistinctIds(p)
    ensures DistinctIds(BubbleFrom(p, j))
    decreases |p.scores| - j
  {
    if j + 1 >= |p.scores| {
    } else if p.scores[j] > p.scores[j + 1] {
      var q := Swap(p, j);
      forall a, b | 0 <= a < |q.ids| && 0 <= b < |q.ids| && a != b && q.scores[a] > 0 && q.scores[b] > 0
        ensures q.ids[a] != q.ids[b]
      {
        var a' := if a == j then j + 1 else if a == j + 1 then j else a;
        var b' := if b == j then j + 1 else if b == j + 1 then j else b;
        assert q.ids[a] == p.ids[a'] && q.scores[a] == p.scores[a'];
        assert q.ids[b] == p.ids[b'] && q.scores[b] == p.scores[b'];
      }
      BubbleKeepsDistinct(q, j + 1);
    } else {
      BubbleKeepsDistinct(p, j + 1);
    }
  }

  /**
   * With position j holding the entry being bubbled, everything up to j sorted,
   * everything after j sorted, and everything before j no larger than slot j + 1,
   * the rest of the pass leaves the whole array sorted.
   */
  lemma {:induction false} BubbleSorts(p: Peaks, j: nat)
    requires |p.ids| == |p.scores| && j < |p.scores|
    requires forall a, b :: 0 <= a < b <= j ==> p.scores[a] <= p.scores[b]
    requires forall a, b :: j < a < b < |p.scores| ==> p.scores[a] <= p.scores[b]
    requires j + 1 < |p.scores| ==> forall a :: 0 <= a < j ==> p.scores[a] <= p.scores[j + 1]
    ensures Sorted(BubbleFrom(p, j).scores)
    decreases |p.scores| - j
  {
    if j + 1 >= |p.scores| {
    } else if p.scores[j] > p.scores[j + 1] {
      BubbleSorts(Swap(p, j), j + 1);
    } else {
      BubbleSorts(p, j + 1);
    }
  }

  // ---------------------------------------------------------------------------
  // The scan

  /** One insertion step keeps the scan invariant. */
  lemma InsertStep(acc: seq<int>, n: nat, k: nat)
    requires n >= 1 && k < |acc|
    requires ScanInvariant(acc, n, k, Scan(acc, n, k))
    ensures ScanInvariant(acc, n, k + 1, Scan(acc, n, k + 1))
  {
    var p := Scan(acc, n, k);
    var v := acc[k];
    var q := Scan(acc, n, k + 1);
    assert q == Insert(p, v, k);
    forall m | 0 <= m < n ensures p.scores[m] >= 0 {
      assert SlotOk(acc, n, k, Entries(p)[m]);
    }
    if v <= p.scores[0] {
      assert q == p;
      forall m | 0 <= m < n ensures SlotOk(acc, n, k + 1, Entries(q)[m]) {
        assert SlotOk(acc, n, k, Entries(p)[m]);
      }
    } else {
      var pre := Peaks(p.scores[0 := v], p.ids[0 := k]);
      assert q == BubbleFrom(pre, 0);
      // sortedness
      BubbleSorts(pre, 0);
      // pairing: every pair of q is a pair of pre
      BubblePermutes(pre, 0);
      assert Admitted(acc, n, k);
      forall m | 0 <= m < n ensures SlotOk(acc, n, k + 1, Entries(pre)[m]) {
        if m > 0 {
          assert Entries(pre)[m] == Entries(p)[m];
          assert SlotOk(acc, n, k, Entries(p)[m]);
        }
      }
      forall m | 0 <= m < n ensures SlotOk(acc, n, k + 1, Entries(q)[m]) && Entries(q)[m].0 >= p.scores[0] {
        assert Entries(q)[m] in multiset(Entries(pre));
        var m' :| 0 <= m' < n && Entries(pre)[m'] == Entries(q)[m];
        assert SlotOk(acc, n, k + 1, Entries(pre)[m']);
      }
      // distinctness: the new id k is larger than every id already kept
      forall a, b | 0 <= a < n && 0 <= b < n && a != b && pre.scores[a] > 0 && pre.scores[b] > 0
        ensures pre.ids[a] != pre.ids[b]
      {
        if a > 0 { assert SlotOk(acc, n, k, Entries(p)[a]); }
        if b > 0 { assert SlotOk(acc, n, k, Entries(p)[b]); }
      }
      BubbleKeepsDistinct(pre, 0);
      // retention: the new minimum is no smaller than the old one
      assert Entries(q)[0].0 == q.scores[0];
      forall i | 0 <= i < k + 1 && acc[i] > q.scores[0] ensures (acc[i], i) in Entries(q) {
        if i == k {
          assert Entries(pre)[0] == (acc[i], i);
        } else {
          var m :| 0 <= m < n && Entries(p)[m] == (acc[i], i);
          assert m != 0;
          assert Entries(pre)[m] == (acc[i], i);
        }
        assert (acc[i], i) in multiset(Entries(pre));
      }
    }
  }

  /** The scan invariant holds after every prefix. */
  lemma {:induction false} ScanKeepsInvariant(acc: seq<int>, n: nat, k: nat)
    requires n >= 1 && k <= |acc|
    ensures ScanInvariant(acc, n, k, Scan(acc, n, k))
  {
    if k > 0 {
      ScanKeepsInvariant(acc, n, k - 1);
      InsertStep(acc, n, k - 1);
    }
  }

  /** score[0], the weakest vote kept, never decreases from one accumulator element to the next. */
  lemma MinNeverDecreases(acc: seq<int>, n: nat, k: nat)
    requires n >= 1 && k < |acc|
    ensures Scan(acc, n, k).scores[0] <= Scan(acc, n, k + 1).scores[0]
  {
    ScanKeepsInvariant(acc, n, k);
    var p := Scan(acc, n, k);
    var v := acc[k];
    if v > p.scores[0] {
      var pre := Peaks(p.scores[0 := v], p.ids[0 := k]);
      BubblePermutes(pre, 0);
      var q := Scan(acc, n, k + 1);
      assert Entries(q)[0] in multiset(Entries(pre));
      var m :| 0 <= m < n && Entries(pre)[m] == Entries(q)[0];
      if m > 0 {
        assert p.scores[0] <= p.scores[m];
      }
    }
  }

  /** ... and so over any stretch of the scan. */
  lemma {:induction false} MinMonotone(acc: seq<int>, n: nat, k: nat, k': nat)
    requires n >= 1 && k <= k' <= |acc|
    ensures Scan(acc, n, k).scores[0] <= Scan(acc, n, k').scores[0]
    decreases k' - k
  {
    if k < k' {
      MinNeverDecreases(acc, n, k);
      MinMonotone(acc, n, k + 1, k');
    }
  }

  /**
   * What findLine delivers. The scores are ascending; each slot is the sentinel
   * (0, 0) or a bin of the accumulator paired with its own vote; no bin is kept
   * twice; every bin whose vote exceeds the final score[0] is kept with its vote;
   * and a bin that is not kept has no more votes than any score kept.
   */
  lemma TopNSelects(acc: seq<int>, n: nat)
    requires n >= 1
    ensures Sorted(TopN(acc, n).scores)
    ensures forall m :: 0 <= m < n ==>
      (TopN(acc, n).scores[m] == 0 && TopN(acc, n).ids[m] == 0) ||
      (0 <= TopN(acc, n).ids[m] < |acc| && acc[TopN(acc, n).ids[m]] == TopN(acc, n).scores[m] > 0)
    ensures DistinctIds(TopN(acc, n))
    ensures forall i :: 0 <= i < |acc| && acc[i] > TopN(acc, n).scores[0] ==>
      exists m :: 0 <= m < n && TopN(acc, n).ids[m] == i && TopN(acc, n).scores[m] == acc[i]
    ensures forall i, m :: 0 <= i < |acc| && 0 <= m < n && i !in TopN(acc, n).ids ==>
      acc[i] <= TopN(acc, n).scores[m]
  {
    var p := TopN(acc, n);
    ScanKeepsInvariant(acc, n, |acc|);
    forall m | 0 <= m < n ensures (p.scores[m] == 0 && p.ids[m] == 0) ||
      (0 <= p.ids[m] < |acc| && acc[p.ids[m]] == p.scores[m] > 0)
    {
      assert SlotOk(acc, n, |acc|, Entries(p)[m]);
    }
    forall i | 0 <= i < |acc| && acc[i] > p.scores[0]
      ensures exists m :: 0 <= m < n && p.ids[m] == i && p.scores[m] == acc[i]
    {
      var m :| 0 <= m < n && Entries(p)[m] == (acc[i], i);
      assert p.ids[m] == i && p.scores[m] == acc[i];
    }
  }

  /**
   * Every genuine slot at the end holds a bin that was admitted when scanned: its
   * vote was strictly above the score[0] of that moment. A vote merely equal to
   * the weakest kept one never displaces it, so among equal votes the earlier bin wins.
   */
  lemma KeptOnlyIfStrictlyGreater(acc: seq<int>, n: nat)
    requires n >= 1
    ensures forall m :: 0 <= m < n && TopN(acc, n).scores[m] > 0 ==>
      0 <= TopN(acc, n).ids[m] < |acc| &&
      acc[TopN(acc, n).ids[m]] > Scan(acc, n, TopN(acc, n).ids[m]).scores[0]
  {
    var p := TopN(acc, n);
    ScanKeepsInvariant(acc, n, |acc|);
    forall m | 0 <= m < n && p.scores[m] > 0
      ensures 0 <= p.ids[m] < |acc| && acc[p.ids[m]] > Scan(acc, n, p.ids[m]).scores[0]
    {
      assert SlotOk(acc, n, |acc|, Entries(p)[m]);
    }
  }

  /** The worked example: votes [5, 3, 9, 1, 7, 2], three lines. */
  lemma SmallExample()
    ensures TopN([5, 3, 9, 1, 7, 2], 3) == Peaks([5, 7, 9], [0, 4, 2])
  {
    SmallExampleFirstThree();
    var acc := [5, 3, 9, 1, 7, 2];
    var s3 := Peaks([3, 5, 9], [1, 0, 2]);
    var s5 := Peaks([5, 7, 9], [0, 4, 2]);
    // vote 1 is rejected
    assert Scan(acc, 3, 4) == s3;
    // vote 7 displaces vote 3
    assert s3.scores[0 := 7] == [7, 5, 9] && s3.ids[0 := 4] == [4, 0, 2];
    assert Swap(Peaks([7, 5, 9], [4, 0, 2]), 0) == s5;
    assert BubbleFrom(s5, 1) == BubbleFrom(s5, 2) == s5;
    assert Scan(acc, 3, 5) == s5;
    // vote 2 is rejected
    assert Scan(acc, 3, 6) == s5;
  }

  lemma SmallExampleFirstThree()
    ensures Scan([5, 3, 9, 1, 7, 2], 3, 3) == Peaks([3, 5, 9], [1, 0, 2])
  {
    SmallExampleFirstTwo();
    var acc := [5, 3, 9, 1, 7, 2];
    var s2 := Peaks([0, 3, 5], [0, 1, 0]);
    var s3 := Peaks([3, 5, 9], [1, 0, 2]);
    // vote 9 displaces the last sentinel and bubbles to the top
    assert s2.scores[0 := 9] == [9, 3, 5] && s2.ids[0 := 2] == [2, 1, 0];
    assert Swap(Peaks([9, 3, 5], [2, 1, 0]), 0) == Peaks([3, 9, 5], [1, 2, 0]);
    assert Swap(Peaks([3, 9, 5], [1, 2, 0]), 1) == s3;
    assert BubbleFrom(Peaks([3, 9, 5], [1, 2, 0]), 1) == BubbleFrom(s3, 2) == s3;
  }

  lemma SmallExampleFirstTwo()
    ensures Scan([5, 3, 9, 1, 7, 2], 3, 2) == Peaks([0, 3, 5], [0, 1, 0])
  {
    var acc := [5, 3, 9, 1, 7, 2];
    var s0 := Peaks([0, 0, 0], [0, 0, 0]);
    var s1 := Peaks([0, 0, 5], [0, 0, 0]);
    var s2 := Peaks([0, 3, 5], [0, 1, 0]);
    assert Scan(acc, 3, 0) == s0;
    // vote 5 enters slot 0 and bubbles to the top
    assert s0.scores[0 := 5] == [5, 0, 0] && s0.ids[0 := 0] == [0, 0, 0];
    assert Swap(Peaks([5, 0, 0], [0, 0, 0]), 0) == Peaks([0, 5, 0], [0, 0, 0]);
    assert Swap(Peaks([0, 5, 0], [0, 0, 0]), 1) == s1;
    assert BubbleFrom(Peaks([0, 5, 0], [0, 0, 0]), 1) == BubbleFrom(s1, 2) == s1;
    assert Scan(acc, 3, 1) == s1;
    // vote 3 displaces a sentinel
    assert s1.scores[0 := 3] == [3, 0, 5] && s1.ids[0 := 1] == [1, 0, 0];
    assert Swap(Peaks([3, 0, 5], [1, 0, 0]), 0) == s2;
    assert BubbleFrom(s2, 1) == BubbleFrom(s2, 2) == s2;
  }

  /**
   * When fewer than nbLine bins have a vote, a leftover sentinel slot reports bin 0
   * although bin 0 has no vote: the sentinel and a peak at bin 0 look alike in `id`.
   */
  lemma SentinelLooksLikeBinZero()
    ensures TopN([0, 0, 5], 2) == Peaks([0, 5], [0, 2])
  {
    var acc := [0, 0, 5];
    var s0 := Peaks([0, 0], [0, 0]);
    var s3 := Peaks([0, 5], [0, 2]);
    assert Scan(acc, 2, 0) == s0;
    assert Scan(acc, 2, 1) == s0;
    assert Scan(acc, 2, 2) == s0;
    assert s0.scores[0 := 5] == [5, 0] && s0.ids[0 := 2] == [2, 0];
    assert Swap(Peaks([5, 0], [2, 0]), 0) == s3;
    assert BubbleFrom(s3, 1) == s3;
    assert Scan(acc, 2, 3) == s3;
  }

  // ---------------------------------------------------------------------------
  // The imperative selection

  /**
   * findLine: zero-fill `score` and `id`, then scan the accumulator once,
   * replacing slot 0 by any vote above score[0] and restoring order with one
   * bubble pass. Returns the `id` array.
   */
  method FindLine(accumulator: seq<int>, nbLine: nat) returns (ids: seq<int>)
    requires nbLine >= 1
    ensures ids == TopN(accumulator, nbLine).ids
    ensures |ids| == nbLine
    ensures forall i :: 0 <= i < |accumulator| && accumulator[i] > TopN(accumulator, nbLine).scores[0] ==> i in ids
  {
    var id := new int[nbLine];
    var score := new int[nbLine];
    for i := 0 to nbLine
      invariant forall k :: 0 <= k < i ==> score[k] == 0 && id[k] == 0
    {
      score[i] := 0;
      id[i] := 0;
    }
    assert Peaks(score[..], id[..]) == Scan(accumulator, nbLine, 0);

    for i := 0 to |accumulator|
      invariant Peaks(score[..], id[..]) == Scan(accumulator, nbLine, i)
    {
      if accumulator[i] > score[0] {
        score[0] := accumulator[i];
        id[0] := i;
        ghost var start := Peaks(score[..], id[..]);
        for j := 0 to nbLine - 1
          invariant BubbleFrom(Peaks(score[..], id[..]), j) == BubbleFrom(start, 0)
        {
          if score[j] > score[j + 1] {
            ghost var before := Peaks(score[..], id[..]);
            score[j], score[j + 1] := score[j + 1], score[j];
            id[j], id[j + 1] := id[j + 1], id[j];
            assert Peaks(score[..], id[..]) == Swap(before, j);
          }
        }
      }
    }
    ids := id[..];
    TopNSelects(accumulator, nbLine);
  }
}
