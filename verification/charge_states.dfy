/** The z-lines PreprocessSpectrum adds to a spectrum that has none (or whose
    charges are overridden): either the "+1 versus +2/+3" rule, which looks at
    how much of the intensity lies below the precursor m/z, or every charge
    of a configured range. */
module ChargeStates {
  import opened CometTypes
  import opened PreprocessRules

  /** Total intensity of a list of peaks. */
  function TotalIntensity(peaks: seq<Peak>): real
  {
    if |peaks| == 0 then 0.0 else TotalIntensity(peaks[..|peaks| - 1]) + peaks[|peaks| - 1].intensity
  }

  /** Total intensity of the peaks whose m/z is below `mz`. */
  function IntensityBelow(peaks: seq<Peak>, mz: real): real
  {
    if |peaks| == 0 then 0.0
    else
      var last := peaks[|peaks| - 1];
      IntensityBelow(peaks[..|peaks| - 1], mz) + (if last.mz < mz then last.intensity else 0.0)
  }

  /** The "+1" verdict: there is no intensity at all (as `eq` judges a sum
      equal to 0), or more than 95% of it lies below the precursor m/z. The
      requirement that `eq` calls 0 equal to itself rules out a division by zero. */
  predicate LooksSinglyCharged(peaks: seq<Peak>, precursorMz: real, eq: (real, real) -> bool)
    requires eq(0.0, 0.0)
  {
    var total := TotalIntensity(peaks);
    eq(total, 0.0) || IntensityBelow(peaks, precursorMz) / total > 0.95
  }

  /** The z-line of charge z for precursor m/z `mz`. */
  function ZLine(mz: real, z: int, protonMass: real): ZState
  {
    ZState(z, ProtonatedMass(mz, z, protonMass))
  }

  /** The +1 versus +2/+3 rule: sums the intensity of all peaks and of those
      below the precursor m/z, then adds a +1 z-line when the spectrum looks
      singly charged and +2 and +3 z-lines otherwise. */
  method DefaultChargeStates(peaks: seq<Peak>, precursorMz: real, eq: (real, real) -> bool, protonMass: real)
    returns (added: seq<ZState>)
    requires eq(0.0, 0.0)
    ensures LooksSinglyCharged(peaks, precursorMz, eq) ==> added == [ZLine(precursorMz, 1, protonMass)]
    ensures !LooksSinglyCharged(peaks, precursorMz, eq) ==>
      added == [ZLine(precursorMz, 2, protonMass), ZLine(precursorMz, 3, protonMass)]
  {
    var i := 0;
    var sumBelow := 0.0;
    var sumTotal := 0.0;
    while i < |peaks|
      invariant 0 <= i <= |peaks|
      invariant sumTotal == TotalIntensity(peaks[..i])
      invariant sumBelow == IntensityBelow(peaks[..i], precursorMz)
    {
      assert peaks[..i + 1][..i] == peaks[..i];
      sumTotal := sumTotal + peaks[i].intensity;
      if peaks[i].mz < precursorMz {
        sumBelow := sumBelow + peaks[i].intensity;
      }
      i := i + 1;
    }
    assert peaks[..i] == peaks;
    if eq(sumTotal, 0.0) || sumBelow / sumTotal > 0.95 {
      added := [ZLine(precursorMz, 1, protonMass)];
    } else {
      added := [ZLine(precursorMz, 2, protonMass), ZLine(precursorMz, 3, protonMass)];
    }
  }

  /** The explicit rule: one z-line for every charge from startCharge to
      endCharge inclusive (none when the range is empty). */
  method ExplicitChargeStates(startCharge: int, endCharge: int, precursorMz: real, protonMass: real)
    returns (added: seq<ZState>)
    ensures |added| == if endCharge >= startCharge then endCharge - startCharge + 1 else 0
    ensures forall k :: 0 <= k < |added| ==> added[k] == ZLine(precursorMz, startCharge + k, protonMass)
  {
    added := [];
    var z := startCharge;
    while z <= endCharge
      invariant endCharge >= startCharge ==> startCharge <= z <= endCharge + 1
      invariant endCharge < startCharge ==> z == startCharge
      invariant |added| == z - startCharge
      invariant forall k :: 0 <= k < |added| ==> added[k] == ZLine(precursorMz, startCharge + k, protonMass)
    {
      added := added + [ZLine(precursorMz, z, protonMass)];
      z := z + 1;
    }
  }

  /** Every z-line of the explicit rule is consistent with the precursor
      m/z: converting its mass back at its charge gives that m/z. */
  lemma ExplicitLinesInvertToPrecursor(added: seq<ZState>, startCharge: int, precursorMz: real, protonMass: real)
    requires startCharge >= 1
    requires forall k :: 0 <= k < |added| ==> added[k] == ZLine(precursorMz, startCharge + k, protonMass)
    ensures forall k :: 0 <= k < |added| ==>
      added[k].charge >= 1 && PrecursorMz(added[k].mass, added[k].charge, protonMass) == precursorMz
  {
    forall k | 0 <= k < |added|
      ensures added[k].charge >= 1 && PrecursorMz(added[k].mass, added[k].charge, protonMass) == precursorMz
    {
      assert added[k].charge == startCharge + k;
      ProtonatedMassRoundTrip(precursorMz, startCharge + k, protonMass);
    }
  }

  /** A spectrum whose peaks all lie below the precursor m/z gets the +1
      z-line: all of its intensity is below, and with no intensity at all
      `eq` judges the total equal to 0. */
  lemma AllBelowIsSinglyCharged(peaks: seq<Peak>, precursorMz: real, eq: (real, real) -> bool)
    requires eq(0.0, 0.0)
    requires forall i :: 0 <= i < |peaks| ==> peaks[i].mz < precursorMz
    ensures LooksSinglyCharged(peaks, precursorMz, eq)
  {
    AllBelowSum(peaks, precursorMz);
  }

  lemma {:induction false} AllBelowSum(peaks: seq<Peak>, precursorMz: real)
    requires forall i :: 0 <= i < |peaks| ==> peaks[i].mz < precursorMz
    ensures IntensityBelow(peaks, precursorMz) == TotalIntensity(peaks)
  {
    if |peaks| > 0 {
      AllBelowSum(peaks[..|peaks| - 1], precursorMz);
    }
  }

  /** A spectrum with no peak below the precursor m/z, and which `eq` does
      not judge empty, gets the +2 and +3 z-lines. */
  lemma NoneBelowIsMultiplyCharged(peaks: seq<Peak>, precursorMz: real, eq: (real, real) -> bool)
    requires eq(0.0, 0.0)
    requires forall i :: 0 <= i < |peaks| ==> peaks[i].mz >= precursorMz
    requires !eq(TotalIntensity(peaks), 0.0)
    ensures !LooksSinglyCharged(peaks, precursorMz, eq)
  {
    NoneBelowSum(peaks, precursorMz);
  }

  lemma {:induction false} NoneBelowSum(peaks: seq<Peak>, precursorMz: real)
    requires forall i :: 0 <= i < |peaks| ==> peaks[i].mz >= precursorMz
    ensures IntensityBelow(peaks, precursorMz) == 0.0
  {
    if |peaks| > 0 {
      NoneBelowSum(peaks[..|peaks| - 1], precursorMz);
    }
  }

  /** The charge settings PreprocessSpectrum reads. */
  datatype ChargeConfig = ChargeConfig(overrideCharge: bool, startCharge: int, endCharge: int)

  /** The z-lines of a spectrum after the charge rules: a spectrum that
      already has z-lines keeps them unless charges are overridden; otherwise
      the new z-lines are appended (start charge 0 selects the default rule). */
  method AssignChargeStates(zStates: seq<ZState>, peaks: seq<Peak>, precursorMz: real, cfg: ChargeConfig,
                            eq: (real, real) -> bool, protonMass: real)
    returns (result: seq<ZState>)
    requires eq(0.0, 0.0)
    ensures |result| >= |zStates| && result[..|zStates|] == zStates
    ensures |zStates| != 0 && !cfg.overrideCharge ==> result == zStates
    ensures (|zStates| == 0 || cfg.overrideCharge) && cfg.startCharge == 0 ==>
      result[|zStates|..] == if LooksSinglyCharged(peaks, precursorMz, eq)
                             then [ZLine(precursorMz, 1, protonMass)]
                             else [ZLine(precursorMz, 2, protonMass), ZLine(precursorMz, 3, protonMass)]
    ensures (|zStates| == 0 || cfg.overrideCharge) && cfg.startCharge != 0 ==>
      && |result| - |zStates| == (if cfg.endCharge >= cfg.startCharge then cfg.endCharge - cfg.startCharge + 1 else 0)
      && forall k :: |zStates| <= k < |result| ==>
           result[k] == ZLine(precursorMz, cfg.startCharge + (k - |zStates|), protonMass)
  {
    result := zStates;
    if |zStates| == 0 || cfg.overrideCharge {
      var added;
      if cfg.startCharge == 0 {
        added := DefaultChargeStates(peaks, precursorMz, eq, protonMass);
      } else {
        added := ExplicitChargeStates(cfg.startCharge, cfg.endCharge, precursorMz, protonMass);
      }
      result := zStates + added;
      assert result[|zStates|..] == added;
    }
  }
}
