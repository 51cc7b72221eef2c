/** Value types shared by the model of Comet's spectrum preprocessing
    (CometSearch/CometPreprocess.cpp). Doubles and floats are `real`s: the
    model does not round. */
module CometTypes {

  datatype Option<T> = None | Some(value: T)

  /** One centroided peak of a spectrum: its m/z and its intensity. */
  datatype Peak = Peak(mz: real, intensity: real)

  /** A z-line of a spectrum: a precursor charge and the singly protonated
      (MH+) peptide mass it implies. */
  datatype ZState = ZState(charge: int, mass: real)

  /** A spectrum as the reader delivers it: scan number, precursor m/z,
      retention time in minutes, peaks and z-lines. */
  datatype Spectrum = Spectrum(scanNumber: int, precursorMz: real, rTime: real,
                               peaks: seq<Peak>, zStates: seq<ZState>)

  /** One slot of the table of top ions used for Sp scoring (`struct msdata`). */
  datatype MsData = MsData(ion: real, intensity: real)

  /** One entry of a sparse spectrum (`struct SparseMatrix`): a bin and its intensity. */
  datatype SparseEntry = SparseEntry(bin: int, intensity: real)

  /** MSToolkit's activation methods (the `mst*` enumeration); values the
      filter never names are folded into OtherActivation. */
  datatype Activation = NA | CID | HCD | ETD | ECD | PQD | IRMPD | OtherActivation(code: int)

  /** The kinds of search the driver runs (the `AnalysisType_*` constants). */
  datatype AnalysisType = SpecificScan | SpecificScanRange | EntireFile | OtherAnalysis

  /** C's conversion of a double to int: truncation toward zero. */
  function TruncToInt(r: real): (t: int)
    ensures r >= 0.0 ==> 0 <= t && t as real <= r < t as real + 1.0
    ensures r < 0.0 ==> t <= 0 && t as real - 1.0 < r <= t as real
  {
    if r >= 0.0 then r.Floor else -((-r).Floor)
  }
}
