/** The state CometPreprocess keeps between calls (its static flags) and the
    globals it updates (the running maximum fragment charge, the status
    error and the list of queries), with the operations that change them:
    Reset, CheckExit and the per-charge loop of PreprocessSpectrum. */
module CometPreprocessor {
  import opened CometTypes
  import opened PreprocessRules
  import opened ChargeStates

  /** The settings PreprocessSpectrum reads. */
  datatype PreprocessConfig = PreprocessConfig(
    charge: ChargeConfig,
    lowPeptideMass: real,
    highPeptideMass: real,
    maxPrecursorCharge: int,
    maxFragmentCharge: int,
    inverseBinWidth: real,
    tolerances: Tolerances,
    output: OutputOptions,
    baseName: string,
    protonMass: real,
    c13Diff: real)

  /** Whether a z-line becomes a query: its .out file is not to be skipped,
      its mass is inside the peptide mass range (or no lower bound is set,
      as `eq` judges the lower bound against 0), and its charge is allowed. */
  predicate QueryWanted(cfg: PreprocessConfig, scanNumber: int, z: ZState, fileExists: string -> bool,
                        eq: (real, real) -> bool)
  {
    && CheckExistOutFile(cfg.output, cfg.baseName, z.charge, scanNumber, fileExists)
    && (eq(cfg.lowPeptideMass, 0.0) || (z.mass >= cfg.lowPeptideMass && z.mass <= cfg.highPeptideMass))
    && z.charge <= cfg.maxPrecursorCharge
  }

  /** The query created for a wanted z-line, before its tolerance is set. */
  function NewQuery(cfg: PreprocessConfig, spec: Spectrum, z: ZState): (q: Query)
    ensures q.expPepMass == z.mass && q.chargeState == z.charge
    ensures q.maxFragCharge == MaxFragCharge(z.charge, cfg.maxFragmentCharge)
  {
    Query(spec.scanNumber, z.mass, z.charge, MaxFragCharge(z.charge, cfg.maxFragmentCharge),
          TruncToInt((z.mass + 100.0) * cfg.inverseBinWidth), 60.0 * spec.rTime, 0.0, 0.0, 0.0)
  }

  /** The queries the wanted z-lines of `zs` give, in order. */
  function PlannedQueries(cfg: PreprocessConfig, spec: Spectrum, zs: seq<ZState>, fileExists: string -> bool,
                          eq: (real, real) -> bool): seq<Query>
  {
    if |zs| == 0 then []
    else
      PlannedQueries(cfg, spec, zs[..|zs| - 1], fileExists, eq)
        + (if QueryWanted(cfg, spec.scanNumber, zs[|zs| - 1], fileExists, eq)
           then [NewQuery(cfg, spec, zs[|zs| - 1])] else [])
  }

  /** The planned queries with their tolerance windows set. */
  function AdjustedQueries(cfg: PreprocessConfig, qs: seq<Query>): seq<Query>
  {
    if |qs| == 0 then []
    else
      AdjustedQueries(cfg, qs[..|qs| - 1])
        + [AdjustMassTol(cfg.tolerances, qs[|qs| - 1], cfg.c13Diff, cfg.protonMass).query]
  }

  /** The running maximum fragment charge after the queries `qs` have been seen. */
  function RaisedMax(m: int, qs: seq<Query>): int
  {
    if |qs| == 0 then m
    else
      var prev := RaisedMax(m, qs[..|qs| - 1]);
      if qs[|qs| - 1].maxFragCharge > prev then qs[|qs| - 1].maxFragCharge else prev
  }

  /** The running maximum never decreases and bounds every query's fragment charge. */
  lemma {:induction false} RaisedMaxBounds(m: int, qs: seq<Query>)
    ensures RaisedMax(m, qs) >= m
    ensures forall k :: 0 <= k < |qs| ==> RaisedMax(m, qs) >= qs[k].maxFragCharge
    ensures RaisedMax(m, qs) == m || exists k :: 0 <= k < |qs| && RaisedMax(m, qs) == qs[k].maxFragCharge
  {
    if |qs| > 0 {
      var init := qs[..|qs| - 1];
      RaisedMaxBounds(m, init);
      if RaisedMax(m, init) != m {
        var k :| 0 <= k < |init| && RaisedMax(m, init) == init[k].maxFragCharge;
        assert qs[k] == init[k];
      }
      forall k | 0 <= k < |qs| - 1 ensures RaisedMax(m, qs) >= qs[k].maxFragCharge {
        assert qs[k] == init[k];
      }
    }
  }

  class Preprocessor {
    /** `_bDoneProcessingAllSpectra`: every spectrum of the input has been read. */
    var doneProcessingAllSpectra: bool
    /** `_bFirstScan`: the next read is the first of the input. */
    var firstScan: bool
    /** `g_massRange.iMaxFragmentCharge`: the largest fragment charge of any query. */
    var maxFragmentCharge: int
    /** The error flag and message of the global status object. */
    var statusError: bool
    var statusMessage: string
    /** `g_pvQuery`: the queries built so far. */
    var queries: seq<Query>

    constructor ()
      ensures !doneProcessingAllSpectra && !firstScan && maxFragmentCharge == 0
      ensures !statusError && statusMessage == "" && queries == []
    {
      doneProcessingAllSpectra := false;
      firstScan := false;
      maxFragmentCharge := 0;
      statusError := false;
      statusMessage := "";
      queries := [];
    }

    /** Prepares for a new input: the next read is the first, and nothing is done yet. */
    method Reset()
      modifies this`firstScan, this`doneProcessingAllSpectra
      ensures firstScan && !doneProcessingAllSpectra
    {
      firstScan := true;
      doneProcessingAllSpectra := false;
    }

    /** Whether every spectrum of the input has been read. */
    function DoneProcessingAllSpectra(): bool
      reads this
    {
      doneProcessingAllSpectra
    }

    /** Whether the loading loop stops after the current spectrum. Only a
        stop because the input is exhausted sets the done flag; a status
        error or a full batch stops the loop and leaves the flag as it was. */
    method CheckExit(cfg: ExitConfig, analysis: AnalysisType, scanNum: int, totalScans: int, lastScan: int,
                     readerLastScan: int, numLoaded: int) returns (exit: bool)
      modifies this`doneProcessingAllSpectra
      ensures var d := ExitDecision(statusError, cfg, analysis, scanNum, totalScans, lastScan, readerLastScan,
                                    numLoaded);
        && exit == (d != KeepLoading)
        && doneProcessingAllSpectra == (old(doneProcessingAllSpectra) || d == AllSpectraDone)
      ensures statusError ==> exit && doneProcessingAllSpectra == old(doneProcessingAllSpectra)
      ensures !statusError && analysis == SpecificScan ==> exit && doneProcessingAllSpectra
      ensures !statusError && !InputExhausted(cfg, analysis, scanNum, totalScans, lastScan, readerLastScan) ==>
        && exit == (cfg.spectrumBatchSize != 0 && numLoaded >= cfg.spectrumBatchSize)
        && doneProcessingAllSpectra == old(doneProcessingAllSpectra)
    {
      if statusError {
        return true;
      }
      if analysis == SpecificScan {
        doneProcessingAllSpectra := true;
        return true;
      }
      if analysis == SpecificScanRange {
        if lastScan > 0 {
          if scanNum >= lastScan {
            doneProcessingAllSpectra := true;
            return true;
          }
        }
      }
      if analysis == EntireFile && cfg.inputIsMzXml && scanNum == 0 {
        doneProcessingAllSpectra := true;
        return true;
      }
      if cfg.inputIsMzXml && totalScans > readerLastScan {
        doneProcessingAllSpectra := true;
        return true;
      }
      if cfg.spectrumBatchSize != 0 && numLoaded >= cfg.spectrumBatchSize {
        return true;
      }
      return false;
    }

    /** The charge handling of PreprocessSpectrum: assigns z-lines when the
        spectrum has none (or charges are overridden), then builds the
        queries of its wanted z-lines. */
    method PreprocessSpectrum(spec: Spectrum, cfg: PreprocessConfig, fileExists: string -> bool,
                              eq: (real, real) -> bool) returns (ok: bool, zStates: seq<ZState>)
      requires eq(0.0, 0.0)
      modifies this`maxFragmentCharge, this`statusError, this`statusMessage, this`queries
      ensures |zStates| >= |spec.zStates| && zStates[..|spec.zStates|] == spec.zStates
      ensures |spec.zStates| != 0 && !cfg.charge.overrideCharge ==> zStates == spec.zStates
      ensures (|spec.zStates| == 0 || cfg.charge.overrideCharge) && cfg.charge.startCharge == 0 ==>
        zStates[|spec.zStates|..] == if LooksSinglyCharged(spec.peaks, spec.precursorMz, eq)
                                     then [ZLine(spec.precursorMz, 1, cfg.protonMass)]
                                     else [ZLine(spec.precursorMz, 2, cfg.protonMass),
                                           ZLine(spec.precursorMz, 3, cfg.protonMass)]
      ensures (|spec.zStates| == 0 || cfg.charge.overrideCharge) && cfg.charge.startCharge != 0 ==>
        && |zStates| - |spec.zStates|
             == (if cfg.charge.endCharge >= cfg.charge.startCharge
                 then cfg.charge.endCharge - cfg.charge.startCharge + 1 else 0)
        && forall k :: |spec.zStates| <= k < |zStates| ==>
             zStates[k] == ZLine(spec.precursorMz, cfg.charge.startCharge + (k - |spec.zStates|), cfg.protonMass)
      ensures QueriesBuilt(cfg, PlannedQueries(cfg, spec, zStates, fileExists, eq), ok,
                           old(queries), old(maxFragmentCharge), old(statusError), old(statusMessage),
                           queries, maxFragmentCharge, statusError, statusMessage)
    {
      zStates := AssignChargeStates(spec.zStates, spec.peaks, spec.precursorMz, cfg.charge, eq, cfg.protonMass);
      ok := BuildQueries(spec, zStates, cfg, fileExists, eq);
    }

    /** One round of the z-line loop, on z-line z: plans and adds its query
        when it is wanted. Either the loop goes on with the plan extended to
        z-line z, or it stops, with the outcome of a failed loop. */
    method ConsiderZLine(spec: Spectrum, zStates: seq<ZState>, z: int, cfg: PreprocessConfig,
                         fileExists: string -> bool, eq: (real, real) -> bool,
                         ghost q0: seq<Query>, ghost m0: int, ghost err0: bool, ghost msg0: string,
                         ghost planned: seq<Query>)
      returns (stop: bool, ghost next: seq<Query>)
      requires 0 <= z < |zStates|
      requires Planning(cfg, spec, zStates, z, fileExists, eq, planned, q0, m0, queries, maxFragmentCharge)
      requires statusError == err0 && statusMessage == msg0
      modifies this`maxFragmentCharge, this`statusError, this`statusMessage, this`queries
      ensures !stop ==>
        && Planning(cfg, spec, zStates, z + 1, fileExists, eq, next, q0, m0, queries, maxFragmentCharge)
        && statusError == err0 && statusMessage == msg0
      ensures stop ==>
        QueriesBuilt(cfg, PlannedQueries(cfg, spec, zStates, fileExists, eq), false, q0, m0, err0, msg0,
                     queries, maxFragmentCharge, statusError, statusMessage)
    {
      var zs := zStates[z];
      var wanted := QueryWanted(cfg, spec.scanNumber, zs, fileExists, eq);
      next := planned;
      stop := false;
      if wanted {
        var q := NewQuery(cfg, spec, zs);
        var added := AddQuery(q, cfg, q0, m0, planned);
        if !added {
          RejectedFirst(cfg, spec, zStates, z, fileExists, eq, q, q0, m0, err0, msg0, maxFragmentCharge, statusMessage);
          return true, next;
        }
        next := planned + [q];
      }
      PlannedAdvance(cfg, spec, zStates, z, fileExists, eq, planned, wanted, next);
    }

    /** The handling of one wanted z-line's query: raises the running maximum
        fragment charge, sets the tolerance window and appends the query; an
        unsupported isotope-error mode instead records the error and appends
        nothing. `q0` and `m0` are the queries and the maximum before the
        z-line loop, `planned` the queries it has built so far. */
    method AddQuery(q: Query, cfg: PreprocessConfig, ghost q0: seq<Query>, ghost m0: int, ghost planned: seq<Query>)
      returns (added: bool)
      requires queries == q0 + AdjustedQueries(cfg, planned)
      requires maxFragmentCharge == RaisedMax(m0, planned)
      modifies this`maxFragmentCharge, this`statusError, this`statusMessage, this`queries
      ensures added == SupportedIsotopeError(cfg.tolerances.isotopeError)
      ensures maxFragmentCharge == RaisedMax(m0, planned + [q])
      ensures added ==>
        && queries == q0 + AdjustedQueries(cfg, planned + [q])
        && statusError == old(statusError) && statusMessage == old(statusMessage)
      ensures !added ==>
        && queries == old(queries) && statusError
        && statusMessage == AdjustMassTol(cfg.tolerances, q, cfg.c13Diff, cfg.protonMass).message
    {
      AppendStep(cfg, m0, planned, q);
      // g_massRange.iMaxFragmentCharge is the maximum over all queries.
      if q.maxFragCharge > maxFragmentCharge {
        maxFragmentCharge := q.maxFragCharge;
      }
      var r := AdjustMassTol(cfg.tolerances, q, cfg.c13Diff, cfg.protonMass);
      if r.IsotopeErrorRejected? {
        statusError := true;
        statusMessage := r.message;
        return false;
      }
      queries := queries + [r.query];
      return true;
    }

    /** The loop over the z-lines of PreprocessSpectrum: a query for every
        wanted z-line, raising the running maximum fragment charge and setting
        the tolerance window. An unsupported isotope-error mode fails at the
        first wanted z-line and records the error. */
    method BuildQueries(spec: Spectrum, zStates: seq<ZState>, cfg: PreprocessConfig, fileExists: string -> bool,
                        eq: (real, real) -> bool) returns (ok: bool)
      modifies this`maxFragmentCharge, this`statusError, this`statusMessage, this`queries
      ensures QueriesBuilt(cfg, PlannedQueries(cfg, spec, zStates, fileExists, eq), ok,
                           old(queries), old(maxFragmentCharge), old(statusError), old(statusMessage),
                           queries, maxFragmentCharge, statusError, statusMessage)
    {
      var z := 0;
      ghost var planned: seq<Query> := [];
      while z < |zStates|
        invariant 0 <= z <= |zStates|
        invariant Planning(cfg, spec, zStates, z, fileExists, eq, planned, old(queries), old(maxFragmentCharge),
                           queries, maxFragmentCharge)
        invariant statusError == old(statusError) && statusMessage == old(statusMessage)
      {
        var stop;
        stop, planned := ConsiderZLine(spec, zStates, z, cfg, fileExists, eq, old(queries), old(maxFragmentCharge),
                                       old(statusError), old(statusMessage), planned);
        if stop {
          ok := false;
          return;
        }
        z := z + 1;
      }
      ok := true;
      AllPlanned(cfg, spec, zStates, fileExists, eq, planned, old(queries), old(maxFragmentCharge),
                 old(statusError), old(statusMessage), queries, maxFragmentCharge);
    }
  }

  /** One more z-line adds at most its own query to the plan. */
  lemma PlannedStep(cfg: PreprocessConfig, spec: Spectrum, zs: seq<ZState>, z: nat,
                    fileExists: string -> bool, eq: (real, real) -> bool)
    requires z < |zs|
    ensures PlannedQueries(cfg, spec, zs[..z + 1], fileExists, eq)
      == PlannedQueries(cfg, spec, zs[..z], fileExists, eq)
         + (if QueryWanted(cfg, spec.scanNumber, zs[z], fileExists, eq) then [NewQuery(cfg, spec, zs[z])] else [])
  {
    assert zs[..z + 1][..z] == zs[..z];
  }

  /** The loop's plan after z-line z, from its plan before it. */
  lemma PlannedAdvance(cfg: PreprocessConfig, spec: Spectrum, zs: seq<ZState>, z: nat,
                       fileExists: string -> bool, eq: (real, real) -> bool,
                       prev: seq<Query>, wanted: bool, next: seq<Query>)
    requires z < |zs|
    requires prev == PlannedQueries(cfg, spec, zs[..z], fileExists, eq)
    requires wanted == QueryWanted(cfg, spec.scanNumber, zs[z], fileExists, eq)
    requires next == if wanted then prev + [NewQuery(cfg, spec, zs[z])] else prev
    ensures next == PlannedQueries(cfg, spec, zs[..z + 1], fileExists, eq)
  {
    PlannedStep(cfg, spec, zs, z, fileExists, eq);
  }

  /** Adjusting and the running maximum both extend query by query. */
  lemma AppendStep(cfg: PreprocessConfig, m: int, qs: seq<Query>, q: Query)
    ensures AdjustedQueries(cfg, qs + [q])
      == AdjustedQueries(cfg, qs) + [AdjustMassTol(cfg.tolerances, q, cfg.c13Diff, cfg.protonMass).query]
    ensures RaisedMax(m, qs + [q]) == if q.maxFragCharge > RaisedMax(m, qs) then q.maxFragCharge else RaisedMax(m, qs)
  {
    assert (qs + [q])[..|qs|] == qs;
  }

  /** The outcome of the z-line loop, for the planned queries `planned`:
      with a supported isotope-error mode every planned query is adjusted
      and appended and the running maximum covers them all; otherwise the
      loop succeeds only when nothing is planned, and else fails at the
      first planned query, raising the maximum for it alone and recording
      its message. `q0`, `m0`, `err0`, `msg0` are the state before the loop. */
  ghost predicate QueriesBuilt(cfg: PreprocessConfig, planned: seq<Query>, ok: bool,
                               q0: seq<Query>, m0: int, err0: bool, msg0: string,
                               queries: seq<Query>, m: int, err: bool, msg: string)
  {
    && (SupportedIsotopeError(cfg.tolerances.isotopeError) ==>
          && ok
          && queries == q0 + AdjustedQueries(cfg, planned)
          && m == RaisedMax(m0, planned)
          && err == err0 && msg == msg0)
    && (!SupportedIsotopeError(cfg.tolerances.isotopeError) ==>
          && ok == (planned == [])
          && queries == q0
          && m == (if ok then m0 else RaisedMax(m0, planned[..1]))
          && err == (err0 || !ok)
          && (!ok ==> msg == AdjustMassTol(cfg.tolerances, planned[0], cfg.c13Diff, cfg.protonMass).message))
  }

  /** The state of the z-line loop after the first z z-lines: `planned` is
      their plan, its adjusted queries follow the earlier ones, the running
      maximum covers it, and an unsupported isotope-error mode has planned
      nothing yet. */
  ghost predicate Planning(cfg: PreprocessConfig, spec: Spectrum, zs: seq<ZState>, z: int,
                           fileExists: string -> bool, eq: (real, real) -> bool, planned: seq<Query>,
                           q0: seq<Query>, m0: int, queries: seq<Query>, m: int)
  {
    && 0 <= z <= |zs|
    && planned == PlannedQueries(cfg, spec, zs[..z], fileExists, eq)
    && queries == q0 + AdjustedQueries(cfg, planned)
    && m == RaisedMax(m0, planned)
    && (!SupportedIsotopeError(cfg.tolerances.isotopeError) ==> planned == [] && queries == q0)
  }

  /** Once every z-line has been seen without failure, the loop has its
      promised outcome. */
  lemma AllPlanned(cfg: PreprocessConfig, spec: Spectrum, zs: seq<ZState>,
                   fileExists: string -> bool, eq: (real, real) -> bool, planned: seq<Query>,
                   q0: seq<Query>, m0: int, err0: bool, msg0: string, queries: seq<Query>, m: int)
    requires Planning(cfg, spec, zs, |zs|, fileExists, eq, planned, q0, m0, queries, m)
    ensures QueriesBuilt(cfg, PlannedQueries(cfg, spec, zs, fileExists, eq), true, q0, m0, err0, msg0,
                         queries, m, err0, msg0)
  {
    assert zs[..|zs|] == zs;
  }

  /** When the plan for the first z z-lines is empty and z-line z is wanted,
      its query heads the plan for all of them, so failing on it is the
      outcome the loop promises. */
  lemma RejectedFirst(cfg: PreprocessConfig, spec: Spectrum, zs: seq<ZState>, z: nat,
                      fileExists: string -> bool, eq: (real, real) -> bool, q: Query,
                      q0: seq<Query>, m0: int, err0: bool, msg0: string, m: int, message: string)
    requires z < |zs| && !SupportedIsotopeError(cfg.tolerances.isotopeError)
    requires PlannedQueries(cfg, spec, zs[..z], fileExists, eq) == []
    requires QueryWanted(cfg, spec.scanNumber, zs[z], fileExists, eq)
    requires q == NewQuery(cfg, spec, zs[z])
    requires m == RaisedMax(m0, [] + [q])
    requires message == AdjustMassTol(cfg.tolerances, q, cfg.c13Diff, cfg.protonMass).message
    ensures QueriesBuilt(cfg, PlannedQueries(cfg, spec, zs, fileExists, eq), false, q0, m0, err0, msg0,
                         q0, m, true, message)
  {
    PlannedStep(cfg, spec, zs, z, fileExists, eq);
    PlannedPrefix(cfg, spec, zs, z + 1, fileExists, eq);
    assert [] + [q] == [q];
  }

  /** The queries planned for a prefix of the z-lines are a prefix of those
      planned for all of them. */
  lemma {:induction false} PlannedPrefix(cfg: PreprocessConfig, spec: Spectrum, zs: seq<ZState>, n: nat,
                                         fileExists: string -> bool, eq: (real, real) -> bool)
    requires n <= |zs|
    ensures var all := PlannedQueries(cfg, spec, zs, fileExists, eq);
      var pre := PlannedQueries(cfg, spec, zs[..n], fileExists, eq);
      |pre| <= |all| && all[..|pre|] == pre
    decreases |zs|
  {
    if n < |zs| {
      assert zs[..n] == zs[..|zs| - 1][..n];
      PlannedPrefix(cfg, spec, zs[..|zs| - 1], n, fileExists, eq);
    } else {
      assert zs[..n] == zs;
    }
  }
}
