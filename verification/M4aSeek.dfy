// Where a seek in an M4A file lands: the walk of m4a_file_seek against the sample
// it should find.

module M4aSeek {
  import opened M4aStream

  /** The walk of a forward seek: the first sample, from i on, that starts at
      or after the target; the number of samples if there is none. */
  function FirstFrom(l: Layout, target: int, i: int): (j: int)
    requires 0 <= i <= |l.start|
    ensures i <= j <= |l.start|
    decreases |l.start| - i
  {
    if i < |l.start| && l.start[i] < target then FirstFrom(l, target, i + 1) else i
  }

  /** The walk of a backward seek: the last sample, from i down, that starts
      before the target; -1 if there is none. */
  function LastTo(l: Layout, target: int, i: int): (j: int)
    requires -1 <= i < |l.start|
    ensures -1 <= j <= i
    decreases i + 1
  {
    if i >= 0 && l.start[i] >= target then LastTo(l, target, i - 1) else i
  }

  /** A forward seek from a sample whose predecessors all start before the
      target finds the least sample that starts at or after the target. */
  lemma {:induction false} FirstFromIsLeast(l: Layout, fileSize: nat, target: int, i: int, k: int)
    requires l.Ascending(fileSize) && 0 <= i <= |l.start| && 0 <= k < |l.start|
    requires forall m :: 0 <= m < i ==> l.start[m] < target
    ensures k < FirstFrom(l, target, i) <==> l.start[k] < target
    decreases |l.start| - i
  {
    if i < |l.start| && l.start[i] < target { FirstFromIsLeast(l, fileSize, target, i + 1, k); }
  }

  /** A backward seek from a sample whose successors all start at or after the
      target finds the greatest sample that starts before it. */
  lemma {:induction false} LastToIsGreatest(l: Layout, fileSize: nat, target: int, i: int, k: int)
    requires l.Ascending(fileSize) && -1 <= i < |l.start| && 0 <= k < |l.start|
    requires forall m :: i < m < |l.start| ==> l.start[m] >= target
    ensures k <= LastTo(l, target, i) <==> l.start[k] < target
    decreases i + 1
  {
    if i >= 0 && l.start[i] >= target { LastToIsGreatest(l, fileSize, target, i - 1, k); }
  }

  /** Exactly when a forward seek finds a sample. */
  lemma {:induction false} FirstFromFinds(l: Layout, fileSize: nat, target: int, i: int)
    requires l.Ascending(fileSize) && 0 <= i < |l.start|
    ensures FirstFrom(l, target, i) < |l.start| <==> target <= l.start[|l.start| - 1]
    decreases |l.start| - i
  {
    if l.start[i] < target && i + 1 < |l.start| { FirstFromFinds(l, fileSize, target, i + 1); }
  }

  /** Exactly when a backward seek finds a sample. */
  lemma {:induction false} LastToFinds(l: Layout, fileSize: nat, target: int, i: int)
    requires l.Ascending(fileSize) && 0 <= i < |l.start|
    ensures LastTo(l, target, i) >= 0 <==> l.start[0] < target
    decreases i
  {
    if l.start[i] >= target && i > 0 { LastToFinds(l, fileSize, target, i - 1); }
  }

  /** j is the least sample that starts at or after the target. */
  ghost predicate LeastFrom(l: Layout, target: int, j: int) {
    forall k :: 0 <= k < |l.start| ==> (k < j <==> l.start[k] < target)
  }

  /** j is the greatest sample that starts before the target. */
  ghost predicate GreatestBefore(l: Layout, target: int, j: int) {
    forall k :: 0 <= k < |l.start| ==> (k <= j <==> l.start[k] < target)
  }

  /** A forward walk from sample i skips no sample that starts at or after the
      target. */
  predicate NothingSkipped(l: Layout, target: int, i: int)
    requires 0 <= i < |l.start|
  {
    i == 0 || l.start[i - 1] < target
  }

  /** A backward walk from sample i leaves no sample that starts before the
      target behind. */
  predicate NothingLeft(l: Layout, target: int, i: int)
    requires 0 <= i < |l.start|
  {
    i + 1 == |l.start| || target <= l.start[i + 1]
  }

  /** Where the walks of a seek land. Forward it is the least sample of the
      whole file that starts at or after the target exactly when none was
      skipped, backward the greatest that starts before it exactly when none was
      left behind; otherwise the walk stays where it is. There is such a sample
      exactly when the target is not beyond the last sample's start (forward) or
      is beyond the first one's (backward). */
  lemma SeekLands(l: Layout, fileSize: nat, target: int, i: int)
    requires l.Ascending(fileSize) && 0 <= i < |l.start|
    ensures LeastFrom(l, target, FirstFrom(l, target, i)) <==> NothingSkipped(l, target, i)
    ensures !NothingSkipped(l, target, i) ==> FirstFrom(l, target, i) == i
    ensures FirstFrom(l, target, i) < |l.start| <==> target <= l.start[|l.start| - 1]
    ensures GreatestBefore(l, target, LastTo(l, target, i)) <==> NothingLeft(l, target, i)
    ensures !NothingLeft(l, target, i) ==> LastTo(l, target, i) == i
    ensures LastTo(l, target, i) >= 0 <==> l.start[0] < target
  {
    FirstFromFinds(l, fileSize, target, i);
    LastToFinds(l, fileSize, target, i);
    SeekForward(l, fileSize, target, i);
    SeekBackward(l, fileSize, target, i);
  }

  lemma SeekForward(l: Layout, fileSize: nat, target: int, i: int)
    requires l.Ascending(fileSize) && 0 <= i < |l.start|
    ensures LeastFrom(l, target, FirstFrom(l, target, i)) <==> NothingSkipped(l, target, i)
    ensures !NothingSkipped(l, target, i) ==> FirstFrom(l, target, i) == i
  {
    if NothingSkipped(l, target, i) {
      forall k | 0 <= k < |l.start| ensures k < FirstFrom(l, target, i) <==> l.start[k] < target {
        assert forall m :: 0 <= m < i ==> m == i - 1 || l.start[m] + l.size[m] <= l.start[i - 1];
        FirstFromIsLeast(l, fileSize, target, i, k);
      }
    } else {
      assert l.start[i - 1] + l.size[i - 1] <= l.start[i];
    }
  }

  lemma SeekBackward(l: Layout, fileSize: nat, target: int, i: int)
    requires l.Ascending(fileSize) && 0 <= i < |l.start|
    ensures GreatestBefore(l, target, LastTo(l, target, i)) <==> NothingLeft(l, target, i)
    ensures !NothingLeft(l, target, i) ==> LastTo(l, target, i) == i
  {
    if NothingLeft(l, target, i) {
      forall k | 0 <= k < |l.start| ensures k <= LastTo(l, target, i) <==> l.start[k] < target {
        assert forall m :: i < m < |l.start| ==> m == i + 1 || l.start[i + 1] + l.size[i + 1] <= l.start[m];
        LastToIsGreatest(l, fileSize, target, i, k);
      }
    } else {
      assert l.start[i] + l.size[i] <= l.start[i + 1];
    }
  }

  /** From the state streaming leaves behind nothing is skipped and nothing left. */
  lemma StreamingSeeks(l: Layout, fileSize: nat, pos: int, target: int, i: int)
    requires l.Ascending(fileSize) && 0 <= i < |l.start|
    requires forall m :: 0 <= m < i ==> l.start[m] + l.size[m] <= pos
    ensures pos < target ==> NothingSkipped(l, target, i)
    ensures target < pos < l.start[i] + l.size[i] ==> NothingLeft(l, target, i)
  {
    assert i + 1 < |l.start| ==> l.start[i] + l.size[i] <= l.start[i + 1];
  }

  /** Right after the piece that completed the header, when whole samples of it
      were not sent yet, a backward walk can miss: here from sample 0, with the
      position at 1320 and target 1250, though sample 1 starts at 1200. */
  lemma SampleOneMissed()
    ensures var l := Layout([1100, 1200, 1300], [10, 10, 10]);
      && !NothingLeft(l, 1250, 0)
      && LastTo(l, 1250, 0) == 0 && !GreatestBefore(l, 1250, 0) && GreatestBefore(l, 1250, 1)
  {
    assert Layout([1100, 1200, 1300], [10, 10, 10]).start[1] < 1250;
  }
}
