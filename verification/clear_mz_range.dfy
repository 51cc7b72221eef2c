/** The clear_mz_range option of LoadAndPreprocessSpectra: the intensity of
    every peak in the configured m/z window is set to zero, scanning the
    peaks in order and stopping at the first peak beyond the window. */
module MzRangeClearing {
  import opened CometTypes

  /** The number of leading peaks the clearing loop visits: it stops at the
      first peak whose m/z exceeds `end`. */
  function ScanLimit(s: seq<Peak>, end: real): (k: nat)
    ensures k <= |s|
    ensures forall j :: 0 <= j < k ==> s[j].mz <= end
    ensures k < |s| ==> s[k].mz > end
  {
    if |s| == 0 then 0 else if s[0].mz > end then 0 else 1 + ScanLimit(s[1..], end)
  }

  predicate InWindow(p: Peak, start: real, end: real) {
    start <= p.mz <= end
  }

  /** The option only acts on a window with a positive upper end and start <= end. */
  predicate ClearingActive(start: real, end: real) {
    end > 0.0 && start <= end
  }

  /** Whether the peak at index i has its intensity cleared. */
  predicate ClearedAt(s: seq<Peak>, start: real, end: real, i: int)
    requires 0 <= i < |s|
  {
    ClearingActive(start, end) && i < ScanLimit(s, end) && InWindow(s[i], start, end)
  }

  /** The peaks after clearing: same m/z values, intensity 0 where cleared. */
  function Cleared(s: seq<Peak>, start: real, end: real): (r: seq<Peak>)
    ensures |r| == |s|
  {
    seq(|s|, i requires 0 <= i < |s| => if ClearedAt(s, start, end, i) then Peak(s[i].mz, 0.0) else s[i])
  }

  /** The number of peaks of `s` inside the window. */
  function CountInWindow(s: seq<Peak>, start: real, end: real): nat
  {
    if |s| == 0 then 0
    else CountInWindow(s[..|s| - 1], start, end) + (if InWindow(s[|s| - 1], start, end) then 1 else 0)
  }

  /** The count the clearing loop reports. */
  function NumCleared(s: seq<Peak>, start: real, end: real): nat
  {
    if ClearingActive(start, end) then CountInWindow(s[..ScanLimit(s, end)], start, end) else 0
  }

  /** The clearing loop: zeroes the intensity of each visited peak inside the
      window and returns how many it zeroed. */
  method ClearMzRange(peaks: array<Peak>, start: real, end: real) returns (numCleared: nat)
    modifies peaks
    ensures peaks[..] == Cleared(old(peaks[..]), start, end)
    ensures numCleared == NumCleared(old(peaks[..]), start, end)
  {
    ghost var s := peaks[..];
    numCleared := 0;
    if end > 0.0 && start <= end {
      var i := 0;
      while i < peaks.Length && peaks[i].mz <= end
        invariant Clearing(peaks[..], s, i, numCleared, start, end)
      {
        ghost var before, n := peaks[..], numCleared;
        if peaks[i].mz >= start && peaks[i].mz <= end {
          peaks[i] := Peak(peaks[i].mz, 0.0);
          numCleared := numCleared + 1;
        }
        ClearingStep(before, peaks[..], s, i, n, start, end);
        i := i + 1;
      }
      ClearingDone(peaks[..], s, i, numCleared, start, end);
    } else {
      assert peaks[..] == Cleared(s, start, end);
    }
  }

  /** The state of the clearing loop after the first i peaks. */
  ghost predicate Clearing(a: seq<Peak>, s: seq<Peak>, i: int, n: int, start: real, end: real)
  {
    && |a| == |s| && 0 <= i <= ScanLimit(s, end)
    && (forall j :: 0 <= j < |a| ==>
          a[j] == if j < i && InWindow(s[j], start, end) then Peak(s[j].mz, 0.0) else s[j])
    && n == CountInWindow(s[..i], start, end)
  }

  /** One iteration of the clearing loop keeps its state. */
  lemma ClearingStep(before: seq<Peak>, after: seq<Peak>, s: seq<Peak>, i: int, n: int, start: real, end: real)
    requires Clearing(before, s, i, n, start, end)
    requires i < |s| && s[i].mz <= end
    requires after == if InWindow(s[i], start, end) then before[i := Peak(s[i].mz, 0.0)] else before
    ensures Clearing(after, s, i + 1, n + (if InWindow(s[i], start, end) then 1 else 0), start, end)
  {
    assert s[..i + 1][..i] == s[..i];
  }

  /** When the loop stops, the peaks are cleared and the count is complete. */
  lemma ClearingDone(a: seq<Peak>, s: seq<Peak>, i: int, n: int, start: real, end: real)
    requires ClearingActive(start, end)
    requires Clearing(a, s, i, n, start, end)
    requires i == |s| || s[i].mz > end
    ensures a == Cleared(s, start, end)
    ensures n == NumCleared(s, start, end)
  {
    assert i == ScanLimit(s, end);
  }

  /** Clearing changes no m/z value, and no intensity outside the cleared peaks. */
  lemma ClearedKeepsOthers(s: seq<Peak>, start: real, end: real)
    ensures forall i :: 0 <= i < |s| ==> Cleared(s, start, end)[i].mz == s[i].mz
    ensures forall i :: 0 <= i < |s| ==>
      Cleared(s, start, end)[i].intensity == if ClearedAt(s, start, end, i) then 0.0 else s[i].intensity
  {
  }

  /** The reported count is the number of cleared peaks. */
  lemma NumClearedCountsCleared(s: seq<Peak>, start: real, end: real)
    ensures NumCleared(s, start, end) == |set i | 0 <= i < |s| && ClearedAt(s, start, end, i)|
  {
    var k := ScanLimit(s, end);
    CountIsCardinality(s, start, end, k);
    if ClearingActive(start, end) {
      assert (set i | 0 <= i < |s| && ClearedAt(s, start, end, i)) == (set i | 0 <= i < k && InWindow(s[i], start, end));
    } else {
      assert (set i | 0 <= i < |s| && ClearedAt(s, start, end, i)) == {};
    }
  }

  lemma {:induction false} CountIsCardinality(s: seq<Peak>, start: real, end: real, k: nat)
    requires k <= |s|
    ensures CountInWindow(s[..k], start, end) == |set i | 0 <= i < k && InWindow(s[i], start, end)|
    decreases k
  {
    if k > 0 {
      CountIsCardinality(s, start, end, k - 1);
      assert s[..k][..k - 1] == s[..k - 1];
      var below := set i | 0 <= i < k - 1 && InWindow(s[i], start, end);
      var upto := set i | 0 <= i < k && InWindow(s[i], start, end);
      if InWindow(s[k - 1], start, end) {
        assert upto == below + {k - 1};
      } else {
        assert upto == below;
      }
    }
  }

  /** On peaks sorted by m/z, as spectra are read, the loop clears exactly the
      peaks inside the window: stopping early misses none. */
  lemma SortedClearsWholeWindow(s: seq<Peak>, start: real, end: real)
    requires ClearingActive(start, end)
    requires forall i, j :: 0 <= i < j < |s| ==> s[i].mz <= s[j].mz
    ensures forall i :: 0 <= i < |s| ==> (ClearedAt(s, start, end, i) <==> InWindow(s[i], start, end))
  {
    var k := ScanLimit(s, end);
    assert forall i :: k <= i < |s| ==> s[k].mz <= s[i].mz;
  }
}
