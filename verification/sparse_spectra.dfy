/** The sparse-matrix forms Preprocess builds when sparse matrices are
    enabled: the fast-xcorr spectrum (and, in the same way, its neutral-loss
    variant) compacted to the bins where the value changes, and the Sp table
    reduced to its non-zero slots. */
module SparseSpectra {
  import opened CometTypes

  /** The change points of a dense spectrum v: one entry (i, v[i]) for each
      bin i >= 1 whose value `eq` does not judge equal to that of bin i-1. */
  function ChangePoints(v: seq<real>, eq: (real, real) -> bool): seq<SparseEntry>
  {
    if |v| <= 1 then []
    else
      ChangePoints(v[..|v| - 1], eq)
      + (if !eq(v[|v| - 1], v[|v| - 2]) then [SparseEntry(|v| - 1, v[|v| - 1])] else [])
  }

  /** The bin of the closing entry: the loop index after the fill loop, which
      starts at 1. */
  function EndBin(n: nat): nat
  {
    if n == 0 then 1 else n
  }

  /** The compacted spectrum: a (0, 0) entry, the change points, and a closing
      entry at the end bin with intensity 0. */
  function Compacted(v: seq<real>, eq: (real, real) -> bool): seq<SparseEntry>
  {
    [SparseEntry(0, 0.0)] + ChangePoints(v, eq) + [SparseEntry(EndBin(|v|), 0.0)]
  }

  /** The counting pass: one entry for bin 0, one per change point, and one
      more slot for the last bin. */
  method CountSparseEntries(v: array<real>, eq: (real, real) -> bool) returns (count: int)
    ensures count == |ChangePoints(v[..], eq)| + 2
  {
    count := 1;
    var i := 1;
    while i < v.Length
      invariant v.Length == 0 ==> i == 1 && count == 1
      invariant v.Length > 0 ==> 1 <= i <= v.Length && count == 1 + |ChangePoints(v[..i], eq)|
    {
      assert v[..i + 1][..i] == v[..i];
      if !eq(v[i], v[i - 1]) {
        count := count + 1;
      }
      i := i + 1;
    }
    assert v.Length > 0 ==> v[..i] == v[..];
    count := count + 1;
  }

  /** The fill pass: allocates exactly the counted number of entries and
      writes the compacted spectrum into them; every write is in bounds. */
  method SparseFastXcorr(v: array<real>, eq: (real, real) -> bool) returns (entries: array<SparseEntry>)
    ensures fresh(entries)
    ensures entries[..] == Compacted(v[..], eq)
  {
    var count := CountSparseEntries(v, eq);
    entries := new SparseEntry[count](_ => SparseEntry(0, 0.0));
    entries[0] := SparseEntry(0, 0.0);
    var j := 1;
    var i := 1;
    FillStart(entries[..], v[..], eq);
    while i < v.Length
      invariant Filling(entries[..], v[..], i, j, eq)
    {
      ghost var before := entries[..];
      FillRoom(before, v[..], i, j, eq);
      if !eq(v[i], v[i - 1]) {
        entries[j] := SparseEntry(i, v[i]);
        FillStep(before, entries[..], v[..], i, j, eq);
        j := j + 1;
      } else {
        FillStep(before, entries[..], v[..], i, j, eq);
      }
      i := i + 1;
    }
    FillRoom(entries[..], v[..], i, j, eq);
    ghost var before := entries[..];
    entries[j] := SparseEntry(i, 0.0);
    FillClose(before, entries[..], v[..], i, j, eq);
  }

  /** The state of the fill loop after bins [1, i): the first j entries are
      bin 0 and the change points seen so far. */
  ghost predicate Filling(e: seq<SparseEntry>, v: seq<real>, i: int, j: int, eq: (real, real) -> bool)
  {
    && |e| == |ChangePoints(v, eq)| + 2
    && 1 <= i && (i <= |v| || i == 1)
    && j == 1 + |ChangePoints(v[..Seen(i, |v|)], eq)| && j <= |e|
    && e[..j] == [SparseEntry(0, 0.0)] + ChangePoints(v[..Seen(i, |v|)], eq)
  }

  /** The number of bins of an n-bin spectrum the fill loop has passed when
      its index is i. */
  function Seen(i: int, n: nat): nat
  {
    if 0 <= i <= n then i else n
  }

  lemma FillStart(e: seq<SparseEntry>, v: seq<real>, eq: (real, real) -> bool)
    requires |e| == |ChangePoints(v, eq)| + 2 && e[0] == SparseEntry(0, 0.0)
    ensures Filling(e, v, 1, 1, eq)
  {
    assert e[..1] == [e[0]];
  }

  /** The next write of the fill loop is in bounds. */
  lemma FillRoom(e: seq<SparseEntry>, v: seq<real>, i: int, j: int, eq: (real, real) -> bool)
    requires Filling(e, v, i, j, eq)
    ensures i < |v| && !eq(v[i], v[i - 1]) ==> j < |e| - 1
    ensures i >= |v| ==> j == |e| - 1 && i == EndBin(|v|)
  {
    if i < |v| {
      ChangePointsPrefix(v, i + 1, |v|, eq);
      assert v[..i + 1][..i] == v[..i];
      assert v[..|v|] == v;
    } else if |v| > 0 {
      assert v[..i] == v;
    }
  }

  /** One step of the fill loop keeps its state. */
  lemma FillStep(before: seq<SparseEntry>, after: seq<SparseEntry>, v: seq<real>, i: int, j: int, eq: (real, real) -> bool)
    requires Filling(before, v, i, j, eq) && 1 <= i < |v|
    requires if !eq(v[i], v[i - 1]) then j < |before| && after == before[j := SparseEntry(i, v[i])] else after == before
    ensures Filling(after, v, i + 1, if !eq(v[i], v[i - 1]) then j + 1 else j, eq)
  {
    assert v[..i + 1][..i] == v[..i];
    if !eq(v[i], v[i - 1]) {
      assert after[..j + 1] == before[..j] + [SparseEntry(i, v[i])];
    }
  }

  /** Writing the closing entry completes the compacted spectrum. */
  lemma FillClose(before: seq<SparseEntry>, after: seq<SparseEntry>, v: seq<real>, i: int, j: int, eq: (real, real) -> bool)
    requires Filling(before, v, i, j, eq) && i >= |v|
    requires j == |before| - 1 && after == before[j := SparseEntry(i, 0.0)]
    ensures after == Compacted(v, eq)
  {
    if |v| > 0 {
      assert v[..i] == v;
    }
    assert after == before[..j] + [SparseEntry(i, 0.0)];
  }

  /** The change points of a prefix are a prefix of the change points. */
  lemma {:induction false} ChangePointsPrefix(v: seq<real>, k: nat, m: nat, eq: (real, real) -> bool)
    requires k <= m <= |v|
    ensures |ChangePoints(v[..k], eq)| <= |ChangePoints(v[..m], eq)|
    ensures ChangePoints(v[..k], eq) == ChangePoints(v[..m], eq)[..|ChangePoints(v[..k], eq)|]
    decreases m
  {
    if k < m {
      ChangePointsPrefix(v, k, m - 1, eq);
      assert v[..m][..m - 1] == v[..m - 1];
    }
  }

  /** An entry is a change point exactly when its bin is in [1, |v|), its
      intensity is the value of that bin, and that value differs from the
      value of the bin before. */
  lemma {:induction false} ChangePointsMembership(v: seq<real>, eq: (real, real) -> bool)
    ensures forall e :: e in ChangePoints(v, eq) <==>
      1 <= e.bin < |v| && e.intensity == v[e.bin] && !eq(v[e.bin], v[e.bin - 1])
  {
    if |v| > 1 {
      var w := v[..|v| - 1];
      ChangePointsMembership(w, eq);
      forall e ensures e in ChangePoints(v, eq) <==>
        1 <= e.bin < |v| && e.intensity == v[e.bin] && !eq(v[e.bin], v[e.bin - 1])
      {
        if 1 <= e.bin < |v| - 1 {
          assert w[e.bin] == v[e.bin] && w[e.bin - 1] == v[e.bin - 1];
        }
      }
    }
  }

  /** The bins of the change points strictly increase. */
  lemma {:induction false} ChangePointsIncreasing(v: seq<real>, eq: (real, real) -> bool)
    ensures forall k, l :: 0 <= k < l < |ChangePoints(v, eq)| ==>
      ChangePoints(v, eq)[k].bin < ChangePoints(v, eq)[l].bin
  {
    if |v| > 1 {
      var w := v[..|v| - 1];
      ChangePointsIncreasing(w, eq);
      ChangePointsMembership(w, eq);
      var cw := ChangePoints(w, eq);
      assert forall k :: 0 <= k < |cw| ==> cw[k] in cw;
    }
  }

  /** The compacted spectrum starts with (0, 0), ends with the closing entry,
      has one entry per change point plus two, and its bins strictly increase. */
  lemma CompactedWellFormed(v: seq<real>, eq: (real, real) -> bool)
    ensures |Compacted(v, eq)| == |ChangePoints(v, eq)| + 2
    ensures Compacted(v, eq)[0] == SparseEntry(0, 0.0)
    ensures Compacted(v, eq)[|Compacted(v, eq)| - 1] == SparseEntry(EndBin(|v|), 0.0)
    ensures forall k, l :: 0 <= k < l < |Compacted(v, eq)| ==>
      Compacted(v, eq)[k].bin < Compacted(v, eq)[l].bin
  {
    var cp := ChangePoints(v, eq);
    var c := Compacted(v, eq);
    ChangePointsIncreasing(v, eq);
    ChangePointsMembership(v, eq);
    assert forall k :: 0 <= k < |cp| ==> cp[k] in cp;
    assert forall k :: 1 <= k < |c| - 1 ==> c[k] == cp[k - 1];
  }

  /** Reading a sparse spectrum back: the value at bin b is the intensity of
      the last entry whose bin is at most b (0 before the first entry). */
  function ValueAt(entries: seq<SparseEntry>, b: int): real
  {
    if |entries| == 0 then 0.0
    else if entries[|entries| - 1].bin <= b then entries[|entries| - 1].intensity
    else ValueAt(entries[..|entries| - 1], b)
  }

  /** With an exact comparison, and bin 0 holding 0 as Preprocess sets it,
      reading the compacted spectrum back gives every value of the dense one. */
  lemma DecodeCompacted(v: seq<real>, eq: (real, real) -> bool)
    requires |v| >= 1 && v[0] == 0.0
    requires forall x, y :: eq(x, y) ==> x == y
    ensures forall b :: 0 <= b < |v| ==> ValueAt(Compacted(v, eq), b) == v[b]
  {
    DecodePrefix(v, eq, |v|);
    assert v[..|v|] == v;
    var x := [SparseEntry(0, 0.0)] + ChangePoints(v, eq);
    assert Compacted(v, eq)[..|Compacted(v, eq)| - 1] == x;
  }

  lemma {:induction false} DecodePrefix(v: seq<real>, eq: (real, real) -> bool, k: nat)
    requires 1 <= k <= |v| && v[0] == 0.0
    requires forall x, y :: eq(x, y) ==> x == y
    ensures forall b :: 0 <= b < k ==> ValueAt([SparseEntry(0, 0.0)] + ChangePoints(v[..k], eq), b) == v[b]
  {
    if k > 1 {
      DecodePrefix(v, eq, k - 1);
      var w := v[..k - 1];
      assert v[..k][..k - 1] == w;
      var x := [SparseEntry(0, 0.0)] + ChangePoints(w, eq);
      var y := [SparseEntry(0, 0.0)] + ChangePoints(v[..k], eq);
      ChangePointsMembership(w, eq);
      assert x[|x| - 1].bin <= k - 2 by {
        if |x| > 1 {
          assert x[|x| - 1] in ChangePoints(w, eq);
        }
      }
      if !eq(v[k - 1], v[k - 2]) {
        assert y == x + [SparseEntry(k - 1, v[k - 1])];
        assert y[..|y| - 1] == x;
      } else {
        assert y == x;
        assert ValueAt(x, k - 1) == ValueAt(x, k - 2);
      }
    }
  }

  /** The Sp entries: each slot of the Sp table with intensity above
      floatZero, binned by truncating its ion, in table order. */
  function SpEntries(sp: seq<MsData>, floatZero: real): seq<SparseEntry>
  {
    if |sp| == 0 then []
    else
      var last := sp[|sp| - 1];
      SpEntries(sp[..|sp| - 1], floatZero)
      + (if last.intensity > floatZero then [SparseEntry(TruncToInt(last.ion), last.intensity)] else [])
  }

  /** The Sp fill: a table as long as the Sp table, zero-initialised, whose
      first `count` entries are the kept slots. */
  method SparseSpScore(sp: array<MsData>, floatZero: real) returns (entries: array<SparseEntry>, count: int)
    ensures fresh(entries) && entries.Length == sp.Length
    ensures 0 <= count <= sp.Length
    ensures entries[..count] == SpEntries(sp[..], floatZero)
    ensures forall k :: count <= k < entries.Length ==> entries[k] == SparseEntry(0, 0.0)
  {
    entries := new SparseEntry[sp.Length](_ => SparseEntry(0, 0.0));
    count := 0;
    var i := 0;
    while i < sp.Length
      invariant 0 <= count <= i <= sp.Length
      invariant entries[..count] == SpEntries(sp[..i], floatZero)
      invariant forall k :: count <= k < entries.Length ==> entries[k] == SparseEntry(0, 0.0)
    {
      assert sp[..i + 1][..i] == sp[..i];
      if sp[i].intensity > floatZero {
        entries[count] := SparseEntry(TruncToInt(sp[i].ion), sp[i].intensity);
        count := count + 1;
      }
      i := i + 1;
    }
    assert sp[..i] == sp[..];
  }

  /** An entry is kept exactly when some slot above floatZero produces it. */
  lemma {:induction false} SpEntriesMembership(sp: seq<MsData>, floatZero: real)
    ensures |SpEntries(sp, floatZero)| <= |sp|
    ensures forall e :: e in SpEntries(sp, floatZero) <==>
      exists i :: 0 <= i < |sp| && sp[i].intensity > floatZero && e == SparseEntry(TruncToInt(sp[i].ion), sp[i].intensity)
  {
    if |sp| > 0 {
      var w := sp[..|sp| - 1];
      SpEntriesMembership(w, floatZero);
      forall e | e in SpEntries(sp, floatZero)
        ensures exists i :: 0 <= i < |sp| && sp[i].intensity > floatZero && e == SparseEntry(TruncToInt(sp[i].ion), sp[i].intensity)
      {
        if e in SpEntries(w, floatZero) {
          var i :| 0 <= i < |w| && w[i].intensity > floatZero && e == SparseEntry(TruncToInt(w[i].ion), w[i].intensity);
          assert sp[i] == w[i];
        }
      }
      forall e, i | 0 <= i < |sp| && sp[i].intensity > floatZero && e == SparseEntry(TruncToInt(sp[i].ion), sp[i].intensity)
        ensures e in SpEntries(sp, floatZero)
      {
        if i < |w| {
          assert w[i] == sp[i];
        }
      }
    }
  }

  /** Every kept entry carries an intensity above floatZero. */
  lemma SpEntriesAboveZero(sp: seq<MsData>, floatZero: real)
    ensures forall k :: 0 <= k < |SpEntries(sp, floatZero)| ==> SpEntries(sp, floatZero)[k].intensity > floatZero
  {
    SpEntriesMembership(sp, floatZero);
    var s := SpEntries(sp, floatZero);
    assert forall k :: 0 <= k < |s| ==> s[k] in s;
  }
}
