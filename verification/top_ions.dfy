/** The first step of building the table of top ions Preprocess uses for Sp
    scoring: GetTopIons keeps the most intense bins of the binned spectrum
    and normalises them to 100. */
module TopIons {
  import opened CometTypes

  /** The smallest intensity of a non-empty table. */
  function MinIntensity(s: seq<MsData>): (m: real)
    requires |s| >= 1
    ensures forall k :: 0 <= k < |s| ==> m <= s[k].intensity
    ensures exists k :: 0 <= k < |s| && s[k].intensity == m
  {
    if |s| == 1 then s[0].intensity
    else
      var m := MinIntensity(s[..|s| - 1]);
      assert forall k :: 0 <= k < |s| - 1 ==> s[..|s| - 1][k] == s[k];
      if s[|s| - 1].intensity < m then s[|s| - 1].intensity else m
  }

  /** A slot of the top-ion table is either untouched (0, 0) or holds bin b
      of the binned spectrum as (b, raw[b]) with a positive intensity. */
  predicate SlotFromRaw(slot: MsData, raw: seq<real>)
  {
    slot == MsData(0.0, 0.0)
    || (0 <= slot.ion.Floor < |raw| && slot.ion == slot.ion.Floor as real
        && slot.intensity == raw[slot.ion.Floor] && slot.intensity > 0.0)
  }

  /** No two filled slots hold the same bin. */
  predicate DistinctBins(slots: seq<MsData>)
  {
    forall k, l :: 0 <= k < l < |slots| && slots[k].intensity > 0.0 && slots[l].intensity > 0.0 ==>
      slots[k].ion != slots[l].ion
  }

  /** Putting a bin not yet held into a slot keeps the filled slots distinct. */
  lemma DistinctAfterReplace(before: seq<MsData>, idx: int, slot: MsData)
    requires 0 <= idx < |before| && DistinctBins(before)
    requires forall k :: 0 <= k < |before| && before[k].intensity > 0.0 ==> before[k].ion < slot.ion
    ensures DistinctBins(before[idx := slot])
  {
    var after := before[idx := slot];
    forall k, l | 0 <= k < l < |after| && after[k].intensity > 0.0 && after[l].intensity > 0.0
      ensures after[k].ion != after[l].ion
    {
      if k != idx && l != idx {
        assert after[k] == before[k] && after[l] == before[l];
      }
    }
  }

  /** What the selection loop leaves in the table, before normalisation:
      every slot comes from the binned spectrum, no bin is held twice, and
      every bin more intense than the weakest slot is held. */
  predicate TopIonsOf(kept: seq<MsData>, raw: seq<real>)
    requires |kept| >= 1
  {
    && (forall k :: 0 <= k < |kept| ==> SlotFromRaw(kept[k], raw))
    && DistinctBins(kept)
    && (forall b :: 0 <= b < |raw| && raw[b] > MinIntensity(kept) ==> MsData(b as real, raw[b]) in kept)
  }

  /** The weakest slot: its intensity and the first index holding it. */
  method LowestSlot(slots: array<MsData>) returns (lowest: real, lowIdx: int)
    requires slots.Length >= 1
    ensures 0 <= lowIdx < slots.Length && lowest == slots[lowIdx].intensity
    ensures forall k :: 0 <= k < slots.Length ==> lowest <= slots[k].intensity
    ensures forall k :: 0 <= k < lowIdx ==> slots[k].intensity > lowest
  {
    lowest := slots[0].intensity;
    lowIdx := 0;
    var ii := 1;
    while ii < slots.Length
      invariant 1 <= ii <= slots.Length
      invariant 0 <= lowIdx < ii && lowest == slots[lowIdx].intensity
      invariant forall k :: 0 <= k < ii ==> lowest <= slots[k].intensity
      invariant forall k :: 0 <= k < lowIdx ==> slots[k].intensity > lowest
    {
      if slots[ii].intensity < lowest {
        lowest := slots[ii].intensity;
        lowIdx := ii;
      }
      ii := ii + 1;
    }
  }

  /** The state of the selection loop once bins 0..i-1 have been scanned:
      every slot comes from the binned spectrum, filled slots hold distinct
      bins below i, and every scanned bin above the weakest slot is held. */
  predicate Selection(t: seq<MsData>, raw: seq<real>, i: int, lowest: real)
  {
    && 0 <= i <= |raw|
    && (forall k :: 0 <= k < |t| ==> SlotFromRaw(t[k], raw))
    && (forall k :: 0 <= k < |t| && t[k].intensity > 0.0 ==> t[k].ion < i as real)
    && DistinctBins(t)
    && (forall b :: 0 <= b < i && raw[b] > lowest ==> MsData(b as real, raw[b]) in t)
  }

  /** The full state of the selection loop: the selection so far, the
      weakest slot (intensity `lowest`, first held at `lowIdx`) and the
      highest intensity stored, `top`, held at `topIdx`. */
  predicate SelectionLoop(t: seq<MsData>, raw: seq<real>, i: int, lowest: real, lowIdx: int, top: real, topIdx: int)
  {
    && Selection(t, raw, i, lowest)
    && 0 <= lowIdx < |t| && t[lowIdx].intensity == lowest && lowest >= 0.0
    && (forall k :: 0 <= k < |t| ==> lowest <= t[k].intensity)
    && 0 <= topIdx < |t| && t[topIdx].intensity == top
    && (forall k :: 0 <= k < |t| ==> t[k].intensity <= top)
  }

  /** A bin above the weakest slot replaces it; the new weakest slot is no
      weaker than the old one, so every bin held before and above it is
      still held. */
  lemma SelectionReplace(before: seq<MsData>, raw: seq<real>, i: int, lowest: real, idx: int, top: real, topIdx: int,
                         after: seq<MsData>, newLowest: real, newIdx: int, newTop: real, newTopIdx: int)
    requires SelectionLoop(before, raw, i, lowest, idx, top, topIdx) && i < |raw|
    requires raw[i] > lowest
    requires after == before[idx := MsData(i as real, raw[i])]
    requires 0 <= newIdx < |after| && after[newIdx].intensity == newLowest
    requires forall k :: 0 <= k < |after| ==> newLowest <= after[k].intensity
    requires if raw[i] > top then newTop == raw[i] && newTopIdx == idx else newTop == top && newTopIdx == topIdx
    ensures SelectionLoop(after, raw, i + 1, newLowest, newIdx, newTop, newTopIdx)
  {
    DistinctAfterReplace(before, idx, MsData(i as real, raw[i]));
    assert newLowest >= lowest by {
      if newIdx != idx {
        assert after[newIdx] == before[newIdx];
      }
    }
    forall b | 0 <= b < i + 1 && raw[b] > newLowest
      ensures MsData(b as real, raw[b]) in after
    {
      if b < i {
        var k :| 0 <= k < |before| && before[k] == MsData(b as real, raw[b]);
        assert after[k] == before[k];
      } else {
        assert after[idx] == MsData(b as real, raw[b]);
      }
    }
  }

  /** A bin no more intense than the weakest slot is skipped. */
  lemma SelectionSkip(t: seq<MsData>, raw: seq<real>, i: int, lowest: real, lowIdx: int, top: real, topIdx: int)
    requires SelectionLoop(t, raw, i, lowest, lowIdx, top, topIdx) && i < |raw| && raw[i] <= lowest
    ensures SelectionLoop(t, raw, i + 1, lowest, lowIdx, top, topIdx)
  {
  }

  /** The body of the selection loop for a bin more intense than the weakest
      slot: stores the bin in the weakest slot, raises `top` if needed, and
      finds the new weakest slot. */
  method ReplaceWeakest(slots: array<MsData>, bin: int, value: real, lowIdx: int, top: real, ghost topIdx: int)
    returns (newLowest: real, newLowIdx: int, newTop: real, ghost newTopIdx: int)
    requires 0 <= lowIdx < slots.Length
    modifies slots
    ensures slots[..] == old(slots[..])[lowIdx := MsData(bin as real, value)]
    ensures 0 <= newLowIdx < slots.Length && slots[newLowIdx].intensity == newLowest
    ensures forall k :: 0 <= k < slots.Length ==> newLowest <= slots[k].intensity
    ensures if value > top then newTop == value && newTopIdx == lowIdx else newTop == top && newTopIdx == topIdx
  {
    slots[lowIdx] := MsData(bin as real, value);
    newTop, newTopIdx := top, topIdx;
    if slots[lowIdx].intensity > top {
      newTop := slots[lowIdx].intensity;
      newTopIdx := lowIdx;
    }
    newLowest, newLowIdx := LowestSlot(slots);
  }

  /** One iteration of the selection loop, on bin i. */
  method SelectStep(raw: array<real>, slots: array<MsData>, i: int, lowest: real, lowIdx: int, top: real, ghost topIdx: int)
    returns (newLowest: real, newLowIdx: int, newTop: real, ghost newTopIdx: int)
    requires 0 <= i < raw.Length
    requires SelectionLoop(slots[..], raw[..], i, lowest, lowIdx, top, topIdx)
    modifies slots
    ensures SelectionLoop(slots[..], raw[..], i + 1, newLowest, newLowIdx, newTop, newTopIdx)
  {
    if raw[i] > lowest {
      ghost var before := slots[..];
      newLowest, newLowIdx, newTop, newTopIdx := ReplaceWeakest(slots, i, raw[i], lowIdx, top, topIdx);
      SelectionReplace(before, raw[..], i, lowest, lowIdx, top, topIdx,
                       slots[..], newLowest, newLowIdx, newTop, newTopIdx);
    } else {
      newLowest, newLowIdx, newTop, newTopIdx := lowest, lowIdx, top, topIdx;
      SelectionSkip(slots[..], raw[..], i, lowest, lowIdx, top, topIdx);
    }
  }

  /** The selection loop of GetTopIons: whenever a bin is more intense than
      the weakest slot, puts it in that slot and looks for the new weakest
      slot, keeping the highest intensity it has stored in `top`. */
  method SelectTopIons(raw: array<real>, slots: array<MsData>) returns (top: real)
    requires slots.Length >= 1
    requires forall k :: 0 <= k < slots.Length ==> slots[k] == MsData(0.0, 0.0)
    modifies slots
    ensures TopIonsOf(slots[..], raw[..])
    ensures forall k :: 0 <= k < slots.Length ==> slots[k].intensity <= top
    ensures exists k :: 0 <= k < slots.Length && slots[k].intensity == top
  {
    var lowIdx := 0;
    var lowest := 0.0;
    top := 0.0;
    ghost var topIdx := 0;
    var i := 0;
    while i < raw.Length
      invariant 0 <= i <= raw.Length
      invariant SelectionLoop(slots[..], raw[..], i, lowest, lowIdx, top, topIdx)
    {
      lowest, lowIdx, top, topIdx := SelectStep(raw, slots, i, lowest, lowIdx, top, topIdx);
      i := i + 1;
    }
    SelectionDone(slots[..], raw[..], lowest, lowIdx, top, topIdx);
  }

  /** After the last bin, the selection is a table of top ions. */
  lemma SelectionDone(t: seq<MsData>, raw: seq<real>, lowest: real, lowIdx: int, top: real, topIdx: int)
    requires SelectionLoop(t, raw, |raw|, lowest, lowIdx, top, topIdx)
    ensures TopIonsOf(t, raw)
  {
    assert MinIntensity(t) == lowest;
  }

  /** GetTopIons: selects the top ions of the binned spectrum, then divides
      every slot by the highest intensity seen and multiplies by 100, when
      that maximum is above floatZero. `kept` is the table before
      normalisation and `maxInten` the maximum the selection tracked. */
  method GetTopIons(raw: array<real>, slots: array<MsData>, floatZero: real)
    returns (ghost kept: seq<MsData>, ghost maxInten: real)
    requires slots.Length >= 1
    requires forall k :: 0 <= k < slots.Length ==> slots[k] == MsData(0.0, 0.0)
    requires floatZero >= 0.0
    modifies slots
    ensures |kept| == slots.Length && TopIonsOf(kept, raw[..])
    ensures forall k :: 0 <= k < |kept| ==> kept[k].intensity <= maxInten
    ensures exists k :: 0 <= k < |kept| && kept[k].intensity == maxInten
    ensures maxInten > floatZero ==>
      forall k :: 0 <= k < slots.Length ==>
        slots[k] == MsData(kept[k].ion, kept[k].intensity / maxInten * 100.0)
    ensures maxInten <= floatZero ==> slots[..] == kept
  {
    var top := SelectTopIons(raw, slots);
    kept := slots[..];
    maxInten := top;
    if top > floatZero {
      NormaliseSlots(slots, top);
    }
  }

  /** The normalisation loop of GetTopIons: divides every slot's intensity
      by the maximum and multiplies by 100. */
  method NormaliseSlots(slots: array<MsData>, maxInten: real)
    requires maxInten > 0.0
    modifies slots
    ensures forall k :: 0 <= k < slots.Length ==>
      slots[k] == MsData(old(slots[k]).ion, old(slots[k]).intensity / maxInten * 100.0)
  {
    var j := 0;
    while j < slots.Length
      invariant 0 <= j <= slots.Length
      invariant forall k :: 0 <= k < slots.Length ==>
        slots[k] == if k < j then MsData(old(slots[k]).ion, old(slots[k]).intensity / maxInten * 100.0) else old(slots[k])
    {
      slots[j] := slots[j].(intensity := slots[j].intensity / maxInten * 100.0);
      j := j + 1;
    }
  }

  /** After normalisation by the table's maximum, the most intense slot
      holds exactly 100 and no slot holds more. */
  lemma NormalisedPeakIs100(kept: seq<MsData>, maxInten: real, norm: seq<MsData>)
    requires maxInten > 0.0 && |norm| == |kept|
    requires forall k :: 0 <= k < |kept| ==> kept[k].intensity <= maxInten
    requires exists k :: 0 <= k < |kept| && kept[k].intensity == maxInten
    requires forall k :: 0 <= k < |kept| ==> norm[k].intensity == kept[k].intensity / maxInten * 100.0
    ensures forall k :: 0 <= k < |norm| ==> norm[k].intensity <= 100.0
    ensures exists k :: 0 <= k < |norm| && norm[k].intensity == 100.0
  {
    forall k | 0 <= k < |norm| ensures norm[k].intensity <= 100.0 {
      assert kept[k].intensity / maxInten <= 1.0;
    }
    var k :| 0 <= k < |kept| && kept[k].intensity == maxInten;
    assert kept[k].intensity / maxInten == 1.0;
    assert norm[k].intensity == 100.0;
  }
}
