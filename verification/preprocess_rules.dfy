/** The decision rules and unit conversions of CometPreprocess: which spectra
    are searched, when the loading loop stops, how the precursor tolerance
    window is built, how charges map to masses, and the name of a spectrum's
    .out file. */
module PreprocessRules {
  import opened CometTypes
  import opened Decimal

  // ---------------------------------------------------------------------
  // Activation-method filter

  /** The activation a configured method name stands for, for the six names
      the filter recognises; None for every other name ("ALL" included). */
  function NamedActivation(activationMethod: string): (a: Option<Activation>)
    ensures a.Some? ==> a.value in {CID, HCD, ETD, ECD, PQD, IRMPD}
    ensures a.Some? <==> activationMethod in {"CID", "HCD", "ETD", "ECD", "PQD", "IRMPD"}
    ensures a == Some(CID) <==> activationMethod == "CID"
    ensures a == Some(HCD) <==> activationMethod == "HCD"
    ensures a == Some(ETD) <==> activationMethod == "ETD"
    ensures a == Some(ECD) <==> activationMethod == "ECD"
    ensures a == Some(PQD) <==> activationMethod == "PQD"
    ensures a == Some(IRMPD) <==> activationMethod == "IRMPD"
  {
    if activationMethod == "CID" then Some(CID)
    else if activationMethod == "HCD" then Some(HCD)
    else if activationMethod == "ETD" then Some(ETD)
    else if activationMethod == "ECD" then Some(ECD)
    else if activationMethod == "PQD" then Some(PQD)
    else if activationMethod == "IRMPD" then Some(IRMPD)
    else None
  }

  /** Whether a spectrum acquired with activation `act` is searched when the
      activation_method setting is `activationMethod`. A spectrum is rejected only when
      the setting names one of the six known methods, the spectrum's
      activation is known, and the two differ. */
  function CheckActivationMethodFilter(activationMethod: string, act: Activation): (search: bool)
    ensures search <==>
      activationMethod == "ALL" || act == NA || NamedActivation(activationMethod) == None || NamedActivation(activationMethod) == Some(act)
  {
    if activationMethod != "ALL" && act != NA then
      if activationMethod == "CID" && act != CID then false
      else if activationMethod == "HCD" && act != HCD then false
      else if activationMethod == "ETD" && act != ETD then false
      else if activationMethod == "ECD" && act != ECD then false
      else if activationMethod == "PQD" && act != PQD then false
      else if activationMethod == "IRMPD" && act != IRMPD then false
      else true
    else true
  }

  // ---------------------------------------------------------------------
  // Exit decision of the spectrum-loading loop

  /** Why the loading loop stops, or that it goes on. Only AllSpectraDone
      marks the whole input as processed. */
  datatype ExitReason = KeepLoading | StatusError | AllSpectraDone | BatchFull

  /** The settings the exit decision reads: whether the input is mzXML and
      the spectrum batch size (0 means no batching). */
  datatype ExitConfig = ExitConfig(inputIsMzXml: bool, spectrumBatchSize: int)

  /** The four conditions under which every spectrum of the input counts as processed. */
  predicate InputExhausted(cfg: ExitConfig, analysis: AnalysisType, scanNum: int, totalScans: int,
                           lastScan: int, readerLastScan: int)
  {
    || analysis == SpecificScan
    || (analysis == SpecificScanRange && lastScan > 0 && scanNum >= lastScan)
    || (analysis == EntireFile && cfg.inputIsMzXml && scanNum == 0)
    || (cfg.inputIsMzXml && totalScans > readerLastScan)
  }

  /** The decision CheckExit takes, tested in the order the source tests it. */
  function ExitDecision(statusError: bool, cfg: ExitConfig, analysis: AnalysisType, scanNum: int,
                        totalScans: int, lastScan: int, readerLastScan: int, numLoaded: int): (r: ExitReason)
    ensures statusError <==> r == StatusError
    ensures !statusError && analysis == SpecificScan ==> r == AllSpectraDone
    ensures r == AllSpectraDone <==>
      !statusError && InputExhausted(cfg, analysis, scanNum, totalScans, lastScan, readerLastScan)
    ensures r == BatchFull ==> cfg.spectrumBatchSize != 0 && numLoaded >= cfg.spectrumBatchSize
    ensures r == KeepLoading <==>
      && !statusError
      && !InputExhausted(cfg, analysis, scanNum, totalScans, lastScan, readerLastScan)
      && !(cfg.spectrumBatchSize != 0 && numLoaded >= cfg.spectrumBatchSize)
  {
    if statusError then StatusError
    else if analysis == SpecificScan then AllSpectraDone
    else if analysis == SpecificScanRange && lastScan > 0 && scanNum >= lastScan then AllSpectraDone
    else if analysis == EntireFile && cfg.inputIsMzXml && scanNum == 0 then AllSpectraDone
    else if cfg.inputIsMzXml && totalScans > readerLastScan then AllSpectraDone
    else if cfg.spectrumBatchSize != 0 && numLoaded >= cfg.spectrumBatchSize then BatchFull
    else KeepLoading
  }

  // ---------------------------------------------------------------------
  // Precursor mass tolerance

  /** The tolerance settings: units (0 amu, 1 mmu, otherwise ppm), type
      (1 means the tolerance is on m/z and scales with charge), the isotope
      error mode and the configured tolerance value. */
  datatype Tolerances = Tolerances(massToleranceUnits: int, massToleranceType: int,
                                   isotopeError: int, inputTolerance: real)

  /** The part of a query (`struct Query`) that preprocessing fills in. */
  datatype Query = Query(scanNumber: int, expPepMass: real, chargeState: int, maxFragCharge: int,
                         arraySize: int, retentionTime: real,
                         massTolerance: real, toleranceMinus: real, tolerancePlus: real)

  /** The outcome of AdjustMassTol: the updated query, and on failure the
      message the status object records. */
  datatype AdjustResult = Adjusted(query: Query) | IsotopeErrorRejected(query: Query, message: string)

  /** The configured tolerance converted to daltons at precursor mass `mass`. */
  function ToleranceInAmu(units: int, input: real, mass: real): (t: real)
    ensures units == 0 ==> t == input
    ensures units == 1 ==> 1000.0 * t == input
    ensures units != 0 && units != 1 ==> 1000000.0 * t == input * mass
  {
    if units == 0 then input
    else if units == 1 then input * 0.001
    else input * mass / 1000000.0
  }

  predicate SupportedIsotopeError(iso: int) {
    iso == 0 || iso == 1 || iso == 2
  }

  /** How far below the precursor mass the isotope-error mode widens the window. */
  function IsotopeBelow(iso: int, c13Diff: real, protonMass: real): real
    requires SupportedIsotopeError(iso)
  {
    if iso == 0 then 0.0 else if iso == 1 then 3.0 * c13Diff * protonMass else 8.1
  }

  /** How far above the precursor mass the isotope-error mode widens the window. */
  function IsotopeAbove(iso: int, c13Diff: real, protonMass: real): real
    requires SupportedIsotopeError(iso)
  {
    if iso == 0 then 0.0 else if iso == 1 then 1.0 * c13Diff * protonMass else 8.1
  }

  /** Sets the query's mass tolerance and the [minus, plus] window of
      candidate peptide masses. An isotope-error mode outside 0..2 is an
      error: the tolerance is still written but the window is not. */
  function AdjustMassTol(tol: Tolerances, q: Query, c13Diff: real, protonMass: real): (r: AdjustResult)
    ensures r.query.scanNumber == q.scanNumber && r.query.expPepMass == q.expPepMass
    ensures r.query.chargeState == q.chargeState && r.query.maxFragCharge == q.maxFragCharge
    ensures r.query.arraySize == q.arraySize && r.query.retentionTime == q.retentionTime
    ensures tol.massToleranceType != 1 ==>
      r.query.massTolerance == ToleranceInAmu(tol.massToleranceUnits, tol.inputTolerance, q.expPepMass)
    ensures tol.massToleranceType == 1 ==>
      r.query.massTolerance
        == ToleranceInAmu(tol.massToleranceUnits, tol.inputTolerance, q.expPepMass) * q.chargeState as real
    ensures r.Adjusted? <==> SupportedIsotopeError(tol.isotopeError)
    ensures r.Adjusted? ==>
      && r.query.toleranceMinus
           == q.expPepMass - r.query.massTolerance - IsotopeBelow(tol.isotopeError, c13Diff, protonMass)
      && r.query.tolerancePlus
           == q.expPepMass + r.query.massTolerance + IsotopeAbove(tol.isotopeError, c13Diff, protonMass)
    ensures r.IsotopeErrorRejected? ==>
      && r.query.toleranceMinus == q.toleranceMinus && r.query.tolerancePlus == q.tolerancePlus
      && r.message == " Error - iIsotopeError=" + IntToString(tol.isotopeError)
  {
    var t0 := ToleranceInAmu(tol.massToleranceUnits, tol.inputTolerance, q.expPepMass);
    var t := if tol.massToleranceType == 1 then t0 * q.chargeState as real else t0;
    var mass := q.expPepMass;
    var q1 := q.(massTolerance := t);
    if tol.isotopeError == 0 then
      Adjusted(q1.(toleranceMinus := mass - t, tolerancePlus := mass + t))
    else if tol.isotopeError == 1 then
      Adjusted(q1.(toleranceMinus := mass - t - 3.0 * c13Diff * protonMass,
                   tolerancePlus := mass + t + 1.0 * c13Diff * protonMass))
    else if tol.isotopeError == 2 then
      Adjusted(q1.(toleranceMinus := mass - t - 8.1, tolerancePlus := mass + t + 8.1))
    else
      IsotopeErrorRejected(q1, " Error - iIsotopeError=" + IntToString(tol.isotopeError))
  }

  /** Without isotope error the window holds exactly the masses within the
      tolerance of the precursor mass. */
  lemma WindowWithoutIsotopeError(tol: Tolerances, q: Query, c13Diff: real, protonMass: real, m: real)
    requires tol.isotopeError == 0
    ensures var r := AdjustMassTol(tol, q, c13Diff, protonMass);
      r.Adjusted? &&
      (r.query.toleranceMinus <= m <= r.query.tolerancePlus <==>
         -r.query.massTolerance <= m - q.expPepMass <= r.query.massTolerance)
  {
  }

  /** With a non-negative tolerance and non-negative isotope constants the
      window contains the precursor mass, and its width is twice the
      tolerance plus the isotope widening on either side. */
  lemma WindowContainsPrecursor(tol: Tolerances, q: Query, c13Diff: real, protonMass: real)
    requires SupportedIsotopeError(tol.isotopeError)
    requires AdjustMassTol(tol, q, c13Diff, protonMass).query.massTolerance >= 0.0
    requires c13Diff * protonMass >= 0.0
    ensures var w := AdjustMassTol(tol, q, c13Diff, protonMass).query;
      && w.toleranceMinus <= q.expPepMass <= w.tolerancePlus
      && w.tolerancePlus - w.toleranceMinus
           == 2.0 * w.massTolerance + IsotopeBelow(tol.isotopeError, c13Diff, protonMass)
                                    + IsotopeAbove(tol.isotopeError, c13Diff, protonMass)
  {
  }

  // ---------------------------------------------------------------------
  // Charge rules

  /** The singly protonated (MH+) mass of a precursor of m/z `mz` at charge
      `z`: the mass a z-line carries. */
  function ProtonatedMass(mz: real, z: int, protonMass: real): real
  {
    mz * z as real - (z - 1) as real * protonMass
  }

  /** The precursor m/z of an MH+ mass at charge z (the conversion the
      precursor-removal step of LoadIons uses). */
  function PrecursorMz(mass: real, z: int, protonMass: real): real
    requires z != 0
  {
    (mass + (z - 1) as real * protonMass) / z as real
  }

  /** Converting an m/z to an MH+ mass and back gives the m/z again, at any
      non-zero charge. */
  lemma ProtonatedMassRoundTrip(mz: real, z: int, protonMass: real)
    requires z != 0
    ensures PrecursorMz(ProtonatedMass(mz, z, protonMass), z, protonMass) == mz
  {
    var zr := z as real;
    assert ProtonatedMass(mz, z, protonMass) + (z - 1) as real * protonMass == mz * zr;
  }

  /** The largest fragment charge searched for a precursor of charge
      `precursorCharge`: 1 for a singly charged precursor, otherwise one less
      than the precursor charge but no more than the configured maximum. */
  function MaxFragCharge(precursorCharge: int, configuredMax: int): (r: int)
    ensures precursorCharge == 1 ==> r == 1
    ensures precursorCharge != 1 ==>
      && r <= precursorCharge - 1 && r <= configuredMax
      && (r == precursorCharge - 1 || r == configuredMax)
  {
    if precursorCharge == 1 then 1
    else if precursorCharge - 1 > configuredMax then configuredMax
    else precursorCharge - 1
  }

  // ---------------------------------------------------------------------
  // .out file names

  /** The part of a path after its last '/', or the whole path when it has none. */
  function LastPathSegment(path: string): (tail: string)
    ensures |tail| <= |path| && path[|path| - |tail|..] == tail
    ensures '/' !in tail
    ensures |tail| < |path| ==> path[|path| - |tail| - 1] == '/'
  {
    if |path| == 0 then ""
    else if path[|path| - 1] == '/' then ""
    else LastPathSegment(path[..|path| - 1]) + [path[|path| - 1]]
  }

  /** The name of the .out file of one spectrum and charge:
      `base/tail.SSSSS.SSSSS.Z.out`, with the scan number zero-padded to five
      digits and `tail` the last segment of the base name. */
  function OutFileName(baseName: string, scan: int, charge: int): string
  {
    baseName + "/" + LastPathSegment(baseName) + "." + IntToPaddedString(scan, 5) + "."
      + IntToPaddedString(scan, 5) + "." + IntToString(charge) + ".out"
  }

  /** A name of the form head.f.f.cs.out, read field by field: `head`, then
      `f`, a '.', `f` again, a '.', `cs` and ".out", each at its place. */
  predicate NameLayout(name: string, head: string, f: string, cs: string)
  {
    && |name| == |head| + 2 * |f| + |cs| + 6
    && name[..|head|] == head
    && name[|head|..|head| + |f|] == f
    && name[|head| + |f|] == '.'
    && name[|head| + |f| + 1..|head| + 2 * |f| + 1] == f
    && name[|head| + 2 * |f| + 1] == '.'
    && name[|head| + 2 * |f| + 2..|name| - 4] == cs
    && name[|name| - 4..] == ".out"
  }

  /** Reading a .out name back: it is the directory and base prefix, the
      scan field twice and the charge field, each at its place, then ".out";
      for a non-negative scan number the scan field is all digits, at least
      five of them, and denotes the scan number. */
  lemma OutFileNameFields(baseName: string, scan: int, charge: int)
    ensures NameLayout(OutFileName(baseName, scan, charge), baseName + "/" + LastPathSegment(baseName) + ".",
                       IntToPaddedString(scan, 5), IntToString(charge))
    ensures scan >= 0 ==>
      var f := IntToPaddedString(scan, 5);
      |f| >= 5 && AllDigits(f) && ParseNat(f) == scan
  {
    NameFields(baseName + "/" + LastPathSegment(baseName) + ".", IntToPaddedString(scan, 5), IntToString(charge));
    if scan >= 0 {
      PaddedRoundTrip(scan, 5);
    }
  }

  /** Every spectrum and charge gets its own .out file: for non-negative
      scan numbers and charges, two names are equal exactly when both the
      scan number and the charge are. */
  lemma OutFileNameInjective(baseName: string, scan1: int, charge1: int, scan2: int, charge2: int)
    requires scan1 >= 0 && charge1 >= 0 && scan2 >= 0 && charge2 >= 0
    ensures OutFileName(baseName, scan1, charge1) == OutFileName(baseName, scan2, charge2)
            <==> scan1 == scan2 && charge1 == charge2
  {
    var name := OutFileName(baseName, scan1, charge1);
    if name == OutFileName(baseName, scan2, charge2) {
      var head := baseName + "/" + LastPathSegment(baseName) + ".";
      var f1, f2 := IntToPaddedString(scan1, 5), IntToPaddedString(scan2, 5);
      var cs1, cs2 := IntToString(charge1), IntToString(charge2);
      OutFileNameFields(baseName, scan1, charge1);
      OutFileNameFields(baseName, scan2, charge2);
      SameLayout(name, head, f1, cs1, f2, cs2);
      NatToStringInjective(charge1, charge2);
    }
  }

  /** A name has one layout for a given head when the scan fields are digit
      strings: a shorter scan field would put its '.' where the longer one
      has a digit. */
  lemma SameLayout(name: string, head: string, f1: string, cs1: string, f2: string, cs2: string)
    requires NameLayout(name, head, f1, cs1) && NameLayout(name, head, f2, cs2)
    requires AllDigits(f1) && AllDigits(f2)
    ensures f1 == f2 && cs1 == cs2
  {
    if |f1| != |f2| {
      assert false;
    }
  }

  /** Any name built as head.f.f.cs.out has that layout. */
  lemma NameFields(head: string, f: string, cs: string)
    ensures NameLayout(head + f + "." + f + "." + cs + ".out", head, f, cs)
  {
    var name := head + f + "." + f + "." + cs + ".out";
    var a := head + f;
    var b := a + ".";
    var c := b + f;
    var d := c + ".";
    var e := d + cs;
    assert name == e + ".out";
    assert name[..|head|] == head;
    assert name[|head|..|a|] == f;
    assert name[|b|..|c|] == f;
    assert name[|d|..|e|] == cs;
  }

  /** The output settings that decide whether existing .out files are skipped. */
  datatype OutputOptions = OutputOptions(outputOutFiles: bool, skipAlreadyDone: bool, outputSqtStream: bool,
                                         outputSqtFile: bool, outputPepXmlFile: bool)

  /** Whether a spectrum and charge is still to be searched: false only when
      only .out files are written, already-searched spectra are skipped, and
      the .out file exists (`fileExists` stands for the fopen test). */
  function CheckExistOutFile(opts: OutputOptions, baseName: string, charge: int, scan: int,
                             fileExists: string -> bool): (search: bool)
    ensures !search <==>
      && opts.outputOutFiles && opts.skipAlreadyDone
      && !opts.outputSqtStream && !opts.outputSqtFile && !opts.outputPepXmlFile
      && fileExists(OutFileName(baseName, scan, charge))
  {
    if opts.outputOutFiles && opts.skipAlreadyDone && !opts.outputSqtStream && !opts.outputSqtFile
       && !opts.outputPepXmlFile
    then !fileExists(OutFileName(baseName, scan, charge))
    else true
  }
}
