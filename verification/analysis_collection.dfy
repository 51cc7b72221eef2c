/** The AnalysisCollection element of an mzIdentML document: a list of
    SpectrumIdentification records that starts out holding one placeholder
    record (id "null"), and one ProteinDetection record. Adding a record
    removes the placeholder and names records that have no id yet. */
module AnalysisCollections {
  import opened Decimal

  /** A SpectrumIdentification record. Only its id matters here; its other
      attributes are kept as an uninterpreted map. */
  datatype SpectrumIdentification = SpectrumIdentification(id: string, attributes: map<string, string>)

  /** The ProteinDetection record, handled as a whole. */
  datatype ProteinDetection = ProteinDetection(id: string, attributes: map<string, string>)

  /** The id a default-constructed record carries. */
  const Placeholder: string := "null"

  const DefaultSpectrumIdentification := SpectrumIdentification(Placeholder, map[])
  const DefaultProteinDetection := ProteinDetection(Placeholder, map[])

  /** The records kept when one is added: none if the first one is the
      placeholder, all of them otherwise. */
  function KeptRecords(s: seq<SpectrumIdentification>): seq<SpectrumIdentification>
    requires |s| >= 1
  {
    if s[0].id == Placeholder then [] else s
  }

  /** The id given to a record without one, when n records are kept. */
  function GeneratedId(n: nat): (id: string)
    ensures |id| >= 3 && id[..2] == "SI" && AllDigits(id[2..])
    ensures ParseNat(id[2..]) == n
    ensures id != Placeholder
  {
    ParseNatToString(n);
    assert ("SI" + NatToString(n))[2..] == NatToString(n);
    "SI" + NatToString(n)
  }

  /** The record as stored (and as the caller's copy becomes): a record
      still carrying the placeholder id is named after the number of kept
      records; any other record is stored as given. */
  function StoredRecord(c: SpectrumIdentification, n: nat): (r: SpectrumIdentification)
    ensures r.attributes == c.attributes
    ensures r.id != Placeholder
    ensures c.id != Placeholder ==> r == c
    ensures c.id == Placeholder ==> r.id == GeneratedId(n)
  {
    if c.id == Placeholder then c.(id := GeneratedId(n)) else c
  }

  /** The records after adding c to s. */
  function Added(s: seq<SpectrumIdentification>, c: SpectrumIdentification): seq<SpectrumIdentification>
    requires |s| >= 1
  {
    KeptRecords(s) + [StoredRecord(c, |KeptRecords(s)|)]
  }

  /** Adding keeps the collection non-empty, puts the new record last, and
      keeps every earlier record in order unless the first was the
      placeholder, in which case the new record is the only one. */
  lemma AddedShape(s: seq<SpectrumIdentification>, c: SpectrumIdentification)
    requires |s| >= 1
    ensures var r := Added(s, c);
      && |r| >= 1
      && r[|r| - 1].id != Placeholder
      && (s[0].id == Placeholder ==> r == [StoredRecord(c, 0)])
      && (s[0].id != Placeholder ==> |r| == |s| + 1 && r[..|s|] == s && r[|s|] == StoredRecord(c, |s|))
  {
    var r := Added(s, c);
    if s[0].id != Placeholder {
      assert r[..|s|] == s;
    }
  }

  /** The records after adding each of cs in turn. */
  function AddedAll(s: seq<SpectrumIdentification>, cs: seq<SpectrumIdentification>): (r: seq<SpectrumIdentification>)
    requires |s| >= 1
    ensures |r| >= 1
  {
    if |cs| == 0 then s else Added(AddedAll(s, cs[..|cs| - 1]), cs[|cs| - 1])
  }

  /** Starting from a fresh collection, the k-th added record lands at
      index k, and a record added without an id is named "SI<k>". */
  lemma {:induction false} AddedToFresh(cs: seq<SpectrumIdentification>)
    requires |cs| >= 1
    ensures AddedAll([DefaultSpectrumIdentification], cs) == seq(|cs|, k requires 0 <= k < |cs| => StoredRecord(cs[k], k))
  {
    var init := cs[..|cs| - 1];
    var last := cs[|cs| - 1];
    var prev := AddedAll([DefaultSpectrumIdentification], init);
    assert AddedAll([DefaultSpectrumIdentification], cs) == Added(prev, last);
    if |init| == 0 {
      assert KeptRecords(prev) == [];
    } else {
      AddedToFresh(init);
      assert prev[0] == StoredRecord(init[0], 0);
      assert KeptRecords(prev) == prev;
      assert |prev| == |cs| - 1;
      forall k | 0 <= k < |prev| ensures prev[k] == StoredRecord(cs[k], k) {
        assert init[k] == cs[k];
      }
    }
  }

  /** In a collection built from a fresh one, no record is the placeholder
      any more, and records added without an id get pairwise distinct ids. */
  lemma AddedToFreshIds(cs: seq<SpectrumIdentification>)
    requires |cs| >= 1
    ensures var r := AddedAll([DefaultSpectrumIdentification], cs);
      && |r| == |cs|
      && (forall k :: 0 <= k < |r| ==> r[k].id != Placeholder)
      && (forall k, l :: 0 <= k < l < |r| && cs[k].id == Placeholder && cs[l].id == Placeholder ==> r[k].id != r[l].id)
  {
    AddedToFresh(cs);
    var r := AddedAll([DefaultSpectrumIdentification], cs);
    forall k, l | 0 <= k < l < |r| && cs[k].id == Placeholder && cs[l].id == Placeholder
      ensures r[k].id != r[l].id
    {
      assert r[k].id == GeneratedId(k) && r[l].id == GeneratedId(l);
      NatToStringInjective(k, l);
      assert GeneratedId(k)[2..] == NatToString(k) && GeneratedId(l)[2..] == NatToString(l);
    }
  }

  class AnalysisCollection {
    /** The list of SpectrumIdentification records. */
    var spectrumIdentification: seq<SpectrumIdentification>
    var proteinDetection: ProteinDetection

    /** The list is never empty, so its first record can always be read. */
    ghost predicate Valid()
      reads this
    {
      |spectrumIdentification| >= 1
    }

    /** A new collection holds one default record and a default ProteinDetection. */
    constructor ()
      ensures Valid()
      ensures spectrumIdentification == [DefaultSpectrumIdentification]
      ensures proteinDetection == DefaultProteinDetection
    {
      spectrumIdentification := [DefaultSpectrumIdentification];
      proteinDetection := DefaultProteinDetection;
    }

    /** The copy constructor: copies the records of c one by one. The
        ProteinDetection record is not copied; it is a default one. */
    constructor Copy(c: AnalysisCollection)
      ensures spectrumIdentification == c.spectrumIdentification
      ensures c.Valid() ==> Valid()
      ensures proteinDetection == DefaultProteinDetection
    {
      var copied: seq<SpectrumIdentification> := [];
      for i := 0 to |c.spectrumIdentification|
        invariant copied == c.spectrumIdentification[..i]
      {
        copied := copied + [c.spectrumIdentification[i]];
      }
      spectrumIdentification := copied;
      proteinDetection := DefaultProteinDetection;
    }

    /** Assignment: unless c is this collection, replaces the records with a
        copy of those of c. The ProteinDetection record is left as it was. */
    method Assign(c: AnalysisCollection) returns (self: AnalysisCollection)
      modifies this`spectrumIdentification
      ensures self == this
      ensures c == this ==> spectrumIdentification == old(spectrumIdentification)
      ensures spectrumIdentification == old(c.spectrumIdentification)
      ensures c.Valid() ==> Valid()
    {
      if this != c {
        var copied: seq<SpectrumIdentification> := [];
        for i := 0 to |c.spectrumIdentification|
          invariant copied == c.spectrumIdentification[..i]
        {
          copied := copied + [c.spectrumIdentification[i]];
        }
        spectrumIdentification := copied;
      }
      return this;
    }

    /** Replaces the ProteinDetection record; the records are unchanged. */
    method AddProteinDetection(c: ProteinDetection)
      modifies this`proteinDetection
      ensures proteinDetection == c
      ensures spectrumIdentification == old(spectrumIdentification)
    {
      proteinDetection := c;
    }

    /** Adds a record: drops the placeholder if it is still first, names the
        record if it has no id, and appends it. `stored` is the record as
        appended, which is also what the caller's record becomes. */
    method AddSpectrumIdentification(c: SpectrumIdentification) returns (stored: SpectrumIdentification)
      requires Valid()
      modifies this`spectrumIdentification
      ensures Valid()
      ensures spectrumIdentification == Added(old(spectrumIdentification), c)
      ensures stored == spectrumIdentification[|spectrumIdentification| - 1]
      ensures stored == StoredRecord(c, |KeptRecords(old(spectrumIdentification))|)
    {
      if spectrumIdentification[0].id == Placeholder {
        spectrumIdentification := [];
      }
      stored := c;
      if c.id == Placeholder {
        stored := c.(id := "SI" + NatToString(|spectrumIdentification|));
      }
      spectrumIdentification := spectrumIdentification + [stored];
    }
  }
}
