/** The last steps of building the Sp table: QsortByIon orders the table by
    ion, and StairStep raises every ion of a cluster of nearby ions to the
    cluster's highest intensity. */
module StairSteps {
  import opened CometTypes

  /** The comparator handed to qsort: orders table slots by ion. */
  function QsortByIon(p0: MsData, p1: MsData): (c: int)
    ensures c == 1 <==> p1.ion < p0.ion
    ensures c == -1 <==> p1.ion > p0.ion
    ensures c == 0 <==> p1.ion == p0.ion
  {
    if p1.ion < p0.ion then 1
    else if p1.ion > p0.ion then -1
    else 0
  }

  /** QsortByIon is a consistent total preorder, as qsort requires:
      antisymmetric, transitive and total. */
  lemma QsortByIonIsPreorder(a: MsData, b: MsData, c: MsData)
    ensures QsortByIon(a, b) == -QsortByIon(b, a)
    ensures QsortByIon(a, b) <= 0 && QsortByIon(b, c) <= 0 ==> QsortByIon(a, c) <= 0
    ensures QsortByIon(a, b) <= 0 || QsortByIon(b, a) <= 0
  {
  }

  /** The table in the order qsort leaves it. */
  predicate SortedByIon(s: seq<MsData>)
  {
    forall i, j :: 0 <= i < j < |s| ==> QsortByIon(s[i], s[j]) <= 0
  }

  /** Sorted by the comparator means ions in ascending order, so on a
      sorted table every gap StairStep measures is non-negative. */
  lemma SortedByIonAscending(s: seq<MsData>)
    ensures SortedByIon(s) <==> forall i, j :: 0 <= i < j < |s| ==> s[i].ion <= s[j].ion
  {
    if SortedByIon(s) {
      forall i, j | 0 <= i < j < |s| ensures s[i].ion <= s[j].ion {
        assert QsortByIon(s[i], s[j]) <= 0;
      }
    }
  }

  /** Slot k (k >= 1) is within one fragment bin of the slot before it. */
  predicate Linked(s: seq<MsData>, k: int, binSize: real)
    requires 0 < k < |s|
  {
    s[k].ion - s[k - 1].ion <= binSize
  }

  /** The first slot of the cluster holding slot k. */
  function RunStart(s: seq<MsData>, k: int, binSize: real): (j: int)
    requires 0 <= k < |s|
    ensures 0 <= j <= k
    ensures forall m :: j < m <= k ==> Linked(s, m, binSize)
    ensures j == 0 || !Linked(s, j, binSize)
    decreases k
  {
    if k == 0 || !Linked(s, k, binSize) then k else RunStart(s, k - 1, binSize)
  }

  /** The last slot of the cluster holding slot k. */
  function RunEnd(s: seq<MsData>, k: int, binSize: real): (e: int)
    requires 0 <= k < |s|
    ensures k <= e < |s|
    ensures forall m :: k < m <= e ==> Linked(s, m, binSize)
    ensures e == |s| - 1 || !Linked(s, e + 1, binSize)
    decreases |s| - k
  {
    if k == |s| - 1 || !Linked(s, k + 1, binSize) then k else RunEnd(s, k + 1, binSize)
  }

  /** The highest intensity among slots lo..hi. */
  function RangeMax(s: seq<MsData>, lo: int, hi: int): (m: real)
    requires 0 <= lo <= hi < |s|
    ensures forall k :: lo <= k <= hi ==> s[k].intensity <= m
    ensures exists k :: lo <= k <= hi && s[k].intensity == m
    decreases hi
  {
    if hi == lo then s[lo].intensity
    else
      var m := RangeMax(s, lo, hi - 1);
      if s[hi].intensity > m then s[hi].intensity else m
  }

  /** The table after StairStep: each slot but the last takes the highest
      intensity of its cluster; ions and the last slot are unchanged. */
  function StairStepped(s: seq<MsData>, binSize: real): (r: seq<MsData>)
    ensures |r| == |s|
  {
    seq(|s|, k requires 0 <= k < |s| =>
      if k < |s| - 1 then MsData(s[k].ion, RangeMax(s, RunStart(s, k, binSize), RunEnd(s, k, binSize)))
      else s[k])
  }

  /** Every slot of a cluster has the same start and end. */
  lemma RunMembers(s: seq<MsData>, i: int, binSize: real)
    requires 0 <= i < |s| && RunStart(s, i, binSize) == i
    ensures forall k :: i <= k <= RunEnd(s, i, binSize) ==>
      RunStart(s, k, binSize) == i && RunEnd(s, k, binSize) == RunEnd(s, i, binSize)
  {
    var e := RunEnd(s, i, binSize);
    forall k | i <= k <= e
      ensures RunStart(s, k, binSize) == i && RunEnd(s, k, binSize) == e
    {
    }
  }

  /** The inner walk of StairStep from slot i: advances while the gap to the
      previous slot is at most the bin size, keeping the highest intensity
      seen. It stops on the first slot past the cluster, or on the last slot
      when the cluster reaches it. `s` is the table as it was before
      StairStep, which agrees with `sp` from slot i on. */
  method ScanCluster(sp: array<MsData>, i: int, binSize: real, ghost s: seq<MsData>) returns (ii: int, maxInten: real)
    requires binSize >= 0.0 && 0 <= i < sp.Length - 1 && |s| == sp.Length
    requires forall k :: i <= k < sp.Length ==> sp[k] == s[k]
    ensures i < ii <= sp.Length - 1
    ensures ii == RunEnd(s, i, binSize) + 1 || ii == RunEnd(s, i, binSize) == sp.Length - 1
    ensures maxInten == RangeMax(s, i, RunEnd(s, i, binSize))
  {
    var n := sp.Length;
    ii := i;
    maxInten := sp[i].intensity;
    var gap := 0.0;
    while gap <= binSize && ii < n - 1
      invariant Scanning(s, i, ii, gap, maxInten, binSize)
      decreases n - ii
    {
      ghost var prev, gap0, m0 := ii, gap, maxInten;
      ii := ii + 1;
      gap := sp[ii].ion - sp[ii - 1].ion;
      if gap <= binSize {
        if sp[ii].intensity > maxInten {
          maxInten := sp[ii].intensity;
        }
      }
      ScanStep(s, i, prev, gap0, m0, gap, maxInten, binSize);
    }
    ScanDone(s, i, ii, gap, maxInten, binSize);
  }

  /** The state of the walk from slot i once it has reached slot ii with the
      last gap `gap`: while the gap is within the bin size the walk is inside
      the cluster and `m` is the highest intensity so far; once it is not,
      the walk is one past the cluster and `m` is the cluster's highest. */
  ghost predicate Scanning(s: seq<MsData>, i: int, ii: int, gap: real, m: real, binSize: real)
  {
    && 0 <= i <= ii <= |s| - 1
    && (ii == i ==> gap == 0.0)
    && (gap <= binSize ==> ii <= RunEnd(s, i, binSize) && m == RangeMax(s, i, ii))
    && (gap > binSize ==> ii == RunEnd(s, i, binSize) + 1 && m == RangeMax(s, i, ii - 1))
  }

  /** One step of the walk keeps its state. */
  lemma ScanStep(s: seq<MsData>, i: int, prev: int, gap0: real, m0: real, gap: real, m: real, binSize: real)
    requires Scanning(s, i, prev, gap0, m0, binSize) && gap0 <= binSize && prev < |s| - 1
    requires gap == s[prev + 1].ion - s[prev].ion
    requires m == if gap <= binSize && s[prev + 1].intensity > m0 then s[prev + 1].intensity else m0
    ensures Scanning(s, i, prev + 1, gap, m, binSize)
  {
    assert gap <= binSize <==> Linked(s, prev + 1, binSize);
  }

  /** Where the walk stops, and the highest intensity it kept. */
  lemma ScanDone(s: seq<MsData>, i: int, ii: int, gap: real, m: real, binSize: real)
    requires Scanning(s, i, ii, gap, m, binSize) && i < |s| - 1 && binSize >= 0.0
    requires gap > binSize || ii == |s| - 1
    ensures i < ii
    ensures ii == RunEnd(s, i, binSize) + 1 || ii == RunEnd(s, i, binSize) == |s| - 1
    ensures m == RangeMax(s, i, RunEnd(s, i, binSize))
  {
  }

  /** The table `a` with the intensity of slots lo..hi-1 set to `value`. */
  function Raised(a: seq<MsData>, lo: int, hi: int, value: real): (r: seq<MsData>)
    ensures |r| == |a|
  {
    seq(|a|, k requires 0 <= k < |a| => if lo <= k < hi then MsData(a[k].ion, value) else a[k])
  }

  /** The write loop of StairStep: sets the intensity of slots lo..hi-1 to
      `value`, leaving their ions and every other slot unchanged. */
  method RaiseSlots(sp: array<MsData>, lo: int, hi: int, value: real)
    requires 0 <= lo <= hi <= sp.Length
    modifies sp
    ensures sp[..] == Raised(old(sp[..]), lo, hi, value)
  {
    for k := lo to hi
      invariant forall j :: 0 <= j < sp.Length ==>
        sp[j] == if lo <= j < k then MsData(old(sp[j]).ion, value) else old(sp[j])
    {
      sp[k] := sp[k].(intensity := value);
    }
  }

  /** The state of StairStep's outer loop: slots before i hold their stepped
      value, the others their original one. */
  predicate SteppedBelow(a: seq<MsData>, s: seq<MsData>, i: int, binSize: real)
  {
    |a| == |s| && forall k :: 0 <= k < |s| ==> a[k] == if k < i then StairStepped(s, binSize)[k] else s[k]
  }

  /** The slots of the cluster starting at slot i, except the last slot of
      the table, all take the cluster's highest intensity. */
  lemma ClusterStepped(s: seq<MsData>, i: int, binSize: real)
    requires 0 <= i < |s| && RunStart(s, i, binSize) == i
    ensures forall k :: i <= k <= RunEnd(s, i, binSize) && k < |s| - 1 ==>
      StairStepped(s, binSize)[k] == MsData(s[k].ion, RangeMax(s, i, RunEnd(s, i, binSize)))
  {
    RunMembers(s, i, binSize);
  }

  /** One round of StairStep's outer loop: once the slots before the walk's
      stopping point have been raised, every slot before it holds its
      stepped value, and the stopping point starts the next cluster. */
  lemma ClusterAdvance(s: seq<MsData>, before: seq<MsData>, after: seq<MsData>, i: int, ii: int,
                       maxInten: real, binSize: real)
    requires |before| == |s| && |after| == |s| && 0 <= i < ii <= |s| - 1
    requires RunStart(s, i, binSize) == i
    requires ii == RunEnd(s, i, binSize) + 1 || ii == RunEnd(s, i, binSize) == |s| - 1
    requires maxInten == RangeMax(s, i, RunEnd(s, i, binSize))
    requires SteppedBelow(before, s, i, binSize)
    requires after == Raised(before, i, ii, maxInten)
    ensures SteppedBelow(after, s, ii, binSize)
    ensures ii < |s| - 1 ==> RunStart(s, ii, binSize) == ii
  {
    ClusterStepped(s, i, binSize);
    forall k | 0 <= k < |s| ensures after[k] == if k < ii then StairStepped(s, binSize)[k] else s[k] {
      if k < i {
        assert after[k] == before[k];
      } else if k < ii {
        assert after[k] == MsData(s[k].ion, maxInten);
      } else {
        assert after[k] == before[k];
      }
    }
  }

  /** StairStep: walks the table cluster by cluster and writes each
      cluster's highest intensity into the slots before the point where the
      walk stopped. A negative bin size would make the walk stand still, so
      the bin size must not be negative. */
  method StairStep(sp: array<MsData>, binSize: real)
    requires binSize >= 0.0
    modifies sp
    ensures sp[..] == StairStepped(old(sp[..]), binSize)
  {
    ghost var s := sp[..];
    var n := sp.Length;
    var i := 0;
    while i < n - 1
      invariant 0 <= i && (n >= 1 ==> i <= n - 1)
      invariant i < n - 1 ==> RunStart(s, i, binSize) == i
      invariant SteppedBelow(sp[..], s, i, binSize)
      decreases n - i
    {
      var ii, maxInten := ScanCluster(sp, i, binSize, s);
      ghost var before := sp[..];
      RaiseSlots(sp, i, ii, maxInten);
      ClusterAdvance(s, before, sp[..], i, ii, maxInten, binSize);
      i := ii;
    }
    SteppedToEnd(sp[..], s, i, binSize);
  }

  /** Once the walk reaches the last slot, the whole table is stepped. */
  lemma SteppedToEnd(a: seq<MsData>, s: seq<MsData>, i: int, binSize: real)
    requires SteppedBelow(a, s, i, binSize) && i >= |s| - 1
    ensures a == StairStepped(s, binSize)
  {
  }

  /** StairStep never lowers an intensity, and each new intensity is the
      original intensity of some slot of the same cluster. */
  lemma StairStepRaises(s: seq<MsData>, binSize: real, k: int)
    requires 0 <= k < |s|
    ensures StairStepped(s, binSize)[k].ion == s[k].ion
    ensures StairStepped(s, binSize)[k].intensity >= s[k].intensity
    ensures exists j :: RunStart(s, k, binSize) <= j <= RunEnd(s, k, binSize)
                        && StairStepped(s, binSize)[k].intensity == s[j].intensity
  {
    if k < |s| - 1 {
      var a, e := RunStart(s, k, binSize), RunEnd(s, k, binSize);
      var m := RangeMax(s, a, e);
      var j :| a <= j <= e && s[j].intensity == m;
      assert StairStepped(s, binSize)[k].intensity == s[j].intensity;
    } else {
      assert StairStepped(s, binSize)[k] == s[k];
    }
  }

  /** Two linked slots, neither of them the last, end up with the same
      intensity. */
  lemma StairStepFlatOnClusters(s: seq<MsData>, binSize: real, k: int)
    requires 0 <= k && k + 1 < |s| - 1 && Linked(s, k + 1, binSize)
    ensures StairStepped(s, binSize)[k].intensity == StairStepped(s, binSize)[k + 1].intensity
  {
    var j := RunStart(s, k, binSize);
    RunMembers(s, j, binSize);
    assert RunEnd(s, k, binSize) == RunEnd(s, j, binSize);
    assert k + 1 <= RunEnd(s, k, binSize);
  }

  /** Applying StairStep twice gives the same table as applying it once. */
  lemma StairStepIdempotent(s: seq<MsData>, binSize: real)
    ensures StairStepped(StairStepped(s, binSize), binSize) == StairStepped(s, binSize)
  {
    var r := StairStepped(s, binSize);
    var rr := StairStepped(r, binSize);
    forall k | 0 <= k < |s| ensures rr[k] == r[k] {
      if k < |s| - 1 {
        SlotIdempotent(s, binSize, k);
      }
    }
  }

  /** One slot of the twice-stepped table: its cluster is the same as before
      the first step, and the cluster's maximum is unchanged by the first
      step, since every slot of the cluster holds at most that maximum and
      slot k holds exactly it. */
  lemma SlotIdempotent(s: seq<MsData>, binSize: real, k: int)
    requires 0 <= k < |s| - 1
    ensures StairStepped(StairStepped(s, binSize), binSize)[k] == StairStepped(s, binSize)[k]
  {
    var r := StairStepped(s, binSize);
    assert forall j :: 0 <= j < |s| ==> r[j].ion == s[j].ion;
    var a := RunStart(s, k, binSize);
    var e := RunEnd(s, k, binSize);
    SameClusters(s, r, binSize, k);
    RunMembers(s, a, binSize);
    var m := RangeMax(s, a, e);
    forall j | a <= j <= e ensures r[j].intensity <= m {
      if j < |s| - 1 {
        assert RunStart(s, j, binSize) == a && RunEnd(s, j, binSize) == e;
      }
    }
    RangeMaxOfBounded(r, a, e, k, m);
  }

  /** Tables with the same ions have the same clusters. */
  lemma SameClusters(s: seq<MsData>, r: seq<MsData>, binSize: real, k: int)
    requires |r| == |s| && 0 <= k < |s|
    requires forall j :: 0 <= j < |s| ==> r[j].ion == s[j].ion
    ensures RunStart(r, k, binSize) == RunStart(s, k, binSize)
    ensures RunEnd(r, k, binSize) == RunEnd(s, k, binSize)
  {
    assert forall j :: 0 < j < |s| ==> (Linked(r, j, binSize) <==> Linked(s, j, binSize));
    var a := RunStart(s, k, binSize);
    var b := RunStart(r, k, binSize);
    var e := RunEnd(s, k, binSize);
    var f := RunEnd(r, k, binSize);
  }

  /** A range whose values are all at most m, one of them m, has maximum m. */
  lemma RangeMaxOfBounded(s: seq<MsData>, lo: int, hi: int, w: int, m: real)
    requires 0 <= lo <= w <= hi < |s|
    requires forall j :: lo <= j <= hi ==> s[j].intensity <= m
    requires s[w].intensity == m
    ensures RangeMax(s, lo, hi) == m
  {
  }
}
