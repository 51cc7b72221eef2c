# Comet spectrum preprocessing, modelled in Dafny

This project models the core of spectrum preprocessing in the Comet
peptide search engine (CometSearch/CometPreprocess.cpp, release 2014.01.1).
It covers these parts:

- which spectra are searched (the activation-method filter);
- when the spectrum-loading loop stops (CheckExit);
- the clear_mz_range option, which zeroes the peaks in an m/z window;
- how precursor charges are assigned (the +1 versus +2/+3 rule, or an
  explicit charge range);
- how a query is built for each wanted charge, including the running maximum
  fragment charge and the precursor tolerance window (AdjustMassTol);
- the name of a spectrum's .out file and the skip-if-already-searched test;
- compaction of the fast-xcorr array into a sparse array;
- selection of the top ions for Sp scoring (GetTopIons), the qsort comparator
  QsortByIon, and the StairStep smoothing of the Sp table;
- the Sp sparse fill.

It also models the AnalysisCollection element of MSToolkit's mzIdentML
writer (mzIMLTools/CAnalysisCollection.cpp, release 2019.01.3). That
element is a list of SpectrumIdentification records that starts with a
placeholder record with id "null". Adding a record drops the placeholder
and names unnamed records "SI<n>".

Modules:

- `CometTypes` (comet_types.dfy): shared value types (peaks, z-lines,
  spectra, Sp slots, sparse entries) and C's truncating double-to-int cast.
- `Decimal` (decimal.dfy): the text printf writes for "%d" and "%.5d",
  with a parser that inverts it.
- `PreprocessRules` (preprocess_rules.dfy): the pure decision rules and
  conversions.
- `ChargeStates` (charge_states.dfy): the charge rules of PreprocessSpectrum.
- `CometPreprocessor` (preprocessor.dfy): a `Preprocessor` class. It holds
  the static flags of CometPreprocess and the globals that PreprocessSpectrum
  updates: the query list, the maximum fragment charge and the status.
- `MzRangeClearing` (clear_mz_range.dfy): the clear_mz_range loop, in place
  on an array of peaks.
- `SparseSpectra` (sparse_spectra.dfy): the sparse count, the sparse fill
  and the Sp sparse fill, on arrays.
- `TopIons` (top_ions.dfy): GetTopIons, in place on the Sp table.
- `StairSteps` (stair_step.dfy): QsortByIon and StairStep, in place on the
  Sp table.
- `AnalysisCollections` (analysis_collection.dfy): the `AnalysisCollection`
  class.

Modelling conventions:

- Doubles and floats are `real`.
- The fuzzy comparison `isEqual` is a parameter `eq`.
- Configuration values and constants are parameters or fields of a config
  datatype: the proton mass, the C13 difference, FLOAT_ZERO, and the
  fragment bin size.
- NUM_SP_IONS is the length of the Sp table array.

## Model

| member | source | states |
|---|---|---|
| CometTypes.TruncToInt | tags/release_2014011/CometSearch/CometPreprocess.cpp:537 | the C (int) cast truncates toward zero: for a non-negative value it is the floor, for a negative value the ceiling |
| Decimal.NatToString | tags/release_2014011/CometSearch/CometPreprocess.cpp:834-839 | "%d" of a non-negative value is a non-empty digit string with no leading zero except for zero itself |
| Decimal.IntToString | tags/release_2014011/CometSearch/CometPreprocess.cpp:834-839 | "%d" of a negative value is a minus sign followed by the digits of its magnitude |
| Decimal.ZeroPad | tags/release_2014011/CometSearch/CometPreprocess.cpp:834-839 | "%.5d" pads with leading zeros up to the width, never truncates, and keeps the digits as its suffix |
| Decimal.IntToPaddedString | tags/release_2014011/CometSearch/CometPreprocess.cpp:834-839 | "%.5d" is the zero-padded magnitude, after a minus sign for a negative value |
| Decimal.ParseNatToString | tags/release_2014011/CometSearch/CometPreprocess.cpp:834-839 | parsing the printed digits of n gives n back |
| Decimal.NatToStringInjective | tags/release_2014011/CometSearch/CometPreprocess.cpp:834-839 | two values print the same text if and only if they are equal |
| Decimal.ParseNatLeadingZeros | tags/release_2014011/CometSearch/CometPreprocess.cpp:834-839 | leading zeros do not change the value a digit string denotes |
| Decimal.PaddedRoundTrip | tags/release_2014011/CometSearch/CometPreprocess.cpp:834-839 | the zero-padded scan field of a .out name is all digits and parses back to the scan number |
| PreprocessRules.NamedActivation | tags/release_2014011/CometSearch/CometPreprocess.cpp:591-617 | exactly the six names CID, HCD, ETD, ECD, PQD and IRMPD denote an activation method, and each name denotes its own: the result is CID if and only if the name is "CID", and likewise for the other five |
| PreprocessRules.CheckActivationMethodFilter | tags/release_2014011/CometSearch/CometPreprocess.cpp:586-620 | a spectrum is searched if and only if the setting is ALL, or the spectrum's activation is unknown, or the setting names none of the six methods, or it names the spectrum's own method |
| PreprocessRules.ExitDecision | tags/release_2014011/CometSearch/CometPreprocess.cpp:623-679 | a status error always stops the loop; the input counts as done if and only if there is no error and one of the four exhaustion conditions holds; a full batch stops only when the batch size is non-zero and reached; loading goes on if and only if none of these hold |
| PreprocessRules.ToleranceInAmu | tags/release_2014011/CometSearch/CometPreprocess.cpp:855-867 | the tolerance in daltons equals the input for amu, a thousandth of it for mmu, and input times mass over 10^6 for ppm |
| PreprocessRules.AdjustMassTol | tags/release_2014011/CometSearch/CometPreprocess.cpp:853-909 | only the tolerance fields of the query change; the tolerance is scaled by charge exactly for tolerance type 1; the window is set if and only if the isotope-error mode is 0, 1 or 2, with the exact widening of each mode; any other mode leaves the window unset and yields the error message with the mode in decimal |
| PreprocessRules.WindowWithoutIsotopeError | tags/release_2014011/CometSearch/CometPreprocess.cpp:874-881 | with isotope-error mode 0, a mass lies in the window if and only if it is within the tolerance of the precursor mass |
| PreprocessRules.WindowContainsPrecursor | tags/release_2014011/CometSearch/CometPreprocess.cpp:874-897 | with a non-negative tolerance, the window contains the precursor mass, and its width is twice the tolerance plus the isotope widening on each side |
| PreprocessRules.ProtonatedMassRoundTrip | tags/release_2014011/CometSearch/CometPreprocess.cpp:719-738 | converting a precursor m/z to the singly protonated (MH+) mass a z-line carries, and back with the conversion LoadIons uses (lines 950-952), gives the m/z again, at every non-zero charge |
| PreprocessRules.MaxFragCharge | tags/release_2014011/CometSearch/CometPreprocess.cpp:765-773 | a +1 precursor gets fragment charge 1; any other gets its charge minus one, capped at the configured maximum |
| PreprocessRules.LastPathSegment | tags/release_2014011/CometSearch/CometPreprocess.cpp:825-832 | the result is a suffix of the path that contains no '/' and is preceded by a '/' when it is not the whole path |
| PreprocessRules.OutFileName | tags/release_2014011/CometSearch/CometPreprocess.cpp:825-839 | the .out name is `base/tail.SSSSS.SSSSS.Z.out`: the base name, '/', the last segment of the base name, the scan number in "%.5d" twice and the charge in "%d", separated by '.'; its properties are the two lemmas below |
| PreprocessRules.OutFileNameFields | tags/release_2014011/CometSearch/CometPreprocess.cpp:834-839 | a .out name reads back field by field: the base-and-tail prefix, the scan field, '.', the scan field again, '.', the charge field and ".out", each at its place; for a non-negative scan number the scan field has at least five digits and denotes the scan number |
| PreprocessRules.OutFileNameInjective | tags/release_2014011/CometSearch/CometPreprocess.cpp:834-839 | for non-negative scan numbers and charges, two .out names are equal if and only if both the scan numbers and the charges are, so each spectrum and charge has its own file |
| PreprocessRules.CheckExistOutFile | tags/release_2014011/CometSearch/CometPreprocess.cpp:810-850 | a charge is skipped if and only if only .out output is on, skipping already-searched spectra is on, and its .out file exists |
| ChargeStates.DefaultChargeStates | tags/release_2014011/CometSearch/CometPreprocess.cpp:700-731 | the summing loop adds a +1 z-line if the spectrum has no intensity or more than 95% of its intensity lies below the precursor m/z, and +2 and +3 z-lines otherwise |
| ChargeStates.ExplicitChargeStates | tags/release_2014011/CometSearch/CometPreprocess.cpp:732-738 | one z-line for each charge from start to end inclusive, in order, each at that charge's MH+ mass; none when the range is empty |
| ChargeStates.ExplicitLinesInvertToPrecursor | tags/release_2014011/CometSearch/CometPreprocess.cpp:732-738 | every z-line of a positive explicit range maps back to the precursor m/z at its own charge |
| ChargeStates.AllBelowIsSinglyCharged | tags/release_2014011/CometSearch/CometPreprocess.cpp:706-730 | a spectrum whose peaks all lie below the precursor m/z is judged singly charged, including one with no intensity at all |
| ChargeStates.NoneBelowIsMultiplyCharged | tags/release_2014011/CometSearch/CometPreprocess.cpp:706-730 | a spectrum with no peak below the precursor m/z, whose total intensity eq does not judge zero, is judged multiply charged |
| ChargeStates.AssignChargeStates | tags/release_2014011/CometSearch/CometPreprocess.cpp:697-739 | existing z-lines are always kept as a prefix and are the whole result unless charges are overridden; otherwise the default or the explicit rule's z-lines follow them |
| CometPreprocessor.QueryWanted | tags/release_2014011/CometSearch/CometPreprocess.cpp:750-754 | a z-line becomes a query exactly when its .out file is not to be skipped, its mass is within the peptide mass range or the lower bound is judged zero, and its charge is at most the maximum precursor charge |
| CometPreprocessor.NewQuery | tags/release_2014011/CometSearch/CometPreprocess.cpp:756-773 | a new query carries the z-line's mass and charge, and the fragment-charge limit of that charge |
| CometPreprocessor.RaisedMaxBounds | tags/release_2014011/CometSearch/CometPreprocess.cpp:777-781 | the running maximum fragment charge never decreases, bounds every query's fragment charge, and is either the starting value or one of them |
| CometPreprocessor.Preprocessor.constructor | tags/release_2014011/CometSearch/CometPreprocess.cpp:22-24 | a fresh preprocessor has no queries, no error, maximum fragment charge 0 (as LoadAndPreprocessSpectra resets it at line 63) and both static flags clear, as zero-initialised statics are |
| CometPreprocessor.Preprocessor.Reset | tags/release_2014011/CometSearch/CometPreprocess.cpp:42-46 | after a reset the next scan is the first and the input is not done |
| CometPreprocessor.Preprocessor.CheckExit | tags/release_2014011/CometSearch/CometPreprocess.cpp:623-679 | the loop stops exactly when the exit decision is not to keep loading; only exhaustion of the input sets the done flag; an error or a full batch leaves it unchanged |
| CometPreprocessor.Preprocessor.PreprocessSpectrum | tags/release_2014011/CometSearch/CometPreprocess.cpp:682-806 | the spectrum's z-lines are kept as a prefix, and kept alone when there are some and the charge is not overridden; otherwise the charge rules append the +1 line (singly charged) or the +2 and +3 lines when no charge range is set, and one line per charge from the start to the end charge when one is; the query list, maximum fragment charge and status end as the z-line loop's outcome for the queries planned from the final z-lines |
| CometPreprocessor.Preprocessor.AddQuery | tags/release_2014011/CometSearch/CometPreprocess.cpp:777-801 | the maximum fragment charge is raised for the query in every case; with a supported isotope-error mode the adjusted query is appended and the status is unchanged; otherwise nothing is appended and the error and its message are recorded |
| CometPreprocessor.Preprocessor.BuildQueries | tags/release_2014011/CometSearch/CometPreprocess.cpp:745-803 | with a supported isotope-error mode, every wanted z-line's adjusted query is appended in order and the maximum covers them all; otherwise the loop fails at the first wanted z-line, after raising the maximum for it alone and recording its error, and succeeds untouched when no z-line is wanted; each round is Preprocessor.ConsiderZLine |
| CometPreprocessor.Preprocessor.ConsiderZLine | tags/release_2014011/CometSearch/CometPreprocess.cpp:747-802 | one round of the z-line loop either extends the loop state by this z-line's planned query, adjusted and appended, or stops with the failed loop's outcome |
| CometPreprocessor.PlannedPrefix | tags/release_2014011/CometSearch/CometPreprocess.cpp:745-803 | the queries planned for the first n z-lines are a prefix of those planned for all of them |
| MzRangeClearing.ScanLimit | tags/release_2014011/CometSearch/CometPreprocess.cpp:117-130 | the loop visits exactly the leading peaks up to the first peak beyond the window's end |
| MzRangeClearing.ClearMzRange | tags/release_2014011/CometSearch/CometPreprocess.cpp:112-131 | the peaks become the cleared spectrum and the count is the number of visited peaks in the window; an inactive window changes nothing |
| MzRangeClearing.ClearedKeepsOthers | tags/release_2014011/CometSearch/CometPreprocess.cpp:119-127 | clearing changes no m/z value and zeroes exactly the intensities of the cleared peaks |
| MzRangeClearing.NumClearedCountsCleared | tags/release_2014011/CometSearch/CometPreprocess.cpp:119-127 | the reported count equals the number of cleared peaks |
| MzRangeClearing.SortedClearsWholeWindow | tags/release_2014011/CometSearch/CometPreprocess.cpp:117-130 | on peaks sorted by m/z, a peak is cleared if and only if it lies in the window, so the early stop misses none |
| SparseSpectra.CountSparseEntries | tags/release_2014011/CometSearch/CometPreprocess.cpp:335-336 | the counting pass reserves one entry per change point plus two |
| SparseSpectra.SparseFastXcorr | tags/release_2014011/CometSearch/CometPreprocess.cpp:403-441 | the filled sparse array is (0, 0), then each change point in order, then a closing zero entry at the end bin |
| SparseSpectra.ChangePointsMembership | tags/release_2014011/CometSearch/CometPreprocess.cpp:428-435 | an entry is stored if and only if its bin is in range, its value is that bin's, and that value differs from the previous bin's |
| SparseSpectra.ChangePointsIncreasing | tags/release_2014011/CometSearch/CometPreprocess.cpp:428-435 | stored bins strictly increase |
| SparseSpectra.CompactedWellFormed | tags/release_2014011/CometSearch/CometPreprocess.cpp:403-441 | the sparse array has the reserved length, starts at (0, 0), ends with the closing entry, and its bins strictly increase |
| SparseSpectra.DecodeCompacted | tags/release_2014011/CometSearch/CometPreprocess.cpp:403-441 | when eq is exact and bin 0 holds 0, reading the sparse array back (the value of the last entry at or before a bin) recovers every value of the dense array |
| SparseSpectra.SparseSpScore | tags/release_2014011/CometSearch/CometPreprocess.cpp:532-541 | the first count entries are the Sp slots above FLOAT_ZERO, in order, binned by truncating the ion; the rest stay zero |
| SparseSpectra.SpEntriesMembership | tags/release_2014011/CometSearch/CometPreprocess.cpp:533-541 | an entry is stored if and only if some Sp slot above FLOAT_ZERO has that truncated ion and intensity, and at most one entry per slot |
| SparseSpectra.SpEntriesAboveZero | tags/release_2014011/CometSearch/CometPreprocess.cpp:535 | every stored Sp entry has an intensity above FLOAT_ZERO |
| TopIons.MinIntensity | tags/release_2014011/CometSearch/CometPreprocess.cpp:1196-1206 | the lowest slot intensity is at most every slot's and is some slot's |
| TopIons.LowestSlot | tags/release_2014011/CometSearch/CometPreprocess.cpp:1196-1206 | the scan returns the first slot of lowest intensity |
| TopIons.SelectTopIons | tags/release_2014011/CometSearch/CometPreprocess.cpp:1186-1208 | from a zeroed table, every slot ends empty or holding a bin of the spectrum at its intensity, no bin is held twice, every bin more intense than the weakest slot is held, and the returned maximum is the highest slot intensity; each step is TopIons.SelectStep |
| TopIons.SelectStep | tags/release_2014011/CometSearch/CometPreprocess.cpp:1188-1207 | one step of the selection loop keeps the loop state: the bins seen so far that beat the weakest slot are held, and the weakest slot and maximum are tracked |
| TopIons.ReplaceWeakest | tags/release_2014011/CometSearch/CometPreprocess.cpp:1190-1206 | the weakest slot is overwritten with the new bin and its intensity, the maximum is raised if the new intensity exceeds it, and the rescan returns a lowest slot |
| TopIons.GetTopIons | tags/release_2014011/CometSearch/CometPreprocess.cpp:1176-1215 | the selected table is the top-ion table of the spectrum; it is normalised to a highest intensity of 100 if and only if its maximum exceeds FLOAT_ZERO, and otherwise left as selected |
| TopIons.NormaliseSlots | tags/release_2014011/CometSearch/CometPreprocess.cpp:1210-1214 | every slot keeps its ion and has its intensity scaled to a percentage of the maximum |
| TopIons.NormalisedPeakIs100 | tags/release_2014011/CometSearch/CometPreprocess.cpp:1210-1214 | after normalisation no intensity exceeds 100 and the most intense slot is exactly 100 |
| StairSteps.QsortByIon | tags/release_2014011/CometSearch/CometPreprocess.cpp:1218-1226 | the comparator returns 1, -1 or 0 exactly when the first ion is greater than, less than or equal to the second |
| StairSteps.QsortByIonIsPreorder | tags/release_2014011/CometSearch/CometPreprocess.cpp:1218-1226 | the comparator is antisymmetric, transitive and total, as qsort requires |
| StairSteps.SortedByIonAscending | tags/release_2014011/CometSearch/CometPreprocess.cpp:508 | a table sorted by QsortByIon is exactly one whose ions ascend |
| StairSteps.RangeMax | tags/release_2014011/CometSearch/CometPreprocess.cpp:1245-1256 | a cluster's maximum bounds every slot of the cluster and is attained by one of them |
| StairSteps.StairStep | tags/release_2014011/CometSearch/CometPreprocess.cpp:1230-1264 | for a non-negative bin size, each slot but the last takes the highest intensity of its cluster of slots whose successive ions lie within the bin size; ions and the last slot are unchanged; each cluster is found by StairSteps.ScanCluster and raised by StairSteps.RaiseSlots |
| StairSteps.ScanCluster | tags/release_2014011/CometSearch/CometPreprocess.cpp:1241-1256 | the inner walk stops just past the end of the cluster starting at i (or at the last slot) and returns the cluster's highest intensity |
| StairSteps.RaiseSlots | tags/release_2014011/CometSearch/CometPreprocess.cpp:1259-1260 | the slots from the cluster start up to, not including, the walk's stop take the given intensity and keep their ions; no other slot changes |
| StairSteps.StairStepRaises | tags/release_2014011/CometSearch/CometPreprocess.cpp:1259-1260 | no intensity decreases, no ion changes, and each new intensity is that of a slot of the same cluster |
| StairSteps.StairStepFlatOnClusters | tags/release_2014011/CometSearch/CometPreprocess.cpp:1245-1260 | adjacent slots of one cluster, the last slot excepted, end with equal intensities |
| StairSteps.StairStepIdempotent | tags/release_2014011/CometSearch/CometPreprocess.cpp:1230-1264 | stair-stepping an already stair-stepped table changes nothing |
| AnalysisCollections.GeneratedId | branches/release_2019013/MSToolkit/src/mzIMLTools/CAnalysisCollection.cpp:50-54 | a generated id is "SI" followed by the decimal digits of the record count, which parse back to that count, and is never the placeholder |
| AnalysisCollections.StoredRecord | branches/release_2019013/MSToolkit/src/mzIMLTools/CAnalysisCollection.cpp:50-55 | a record keeps its attributes; a named record is stored unchanged; a placeholder-named record gets the generated id; no stored record is the placeholder |
| AnalysisCollections.AddedShape | branches/release_2019013/MSToolkit/src/mzIMLTools/CAnalysisCollection.cpp:46-55 | after an add, the list is non-empty and ends with a named record; a leading placeholder is replaced by the new record alone; otherwise the old records are kept in order and the new one follows |
| AnalysisCollections.AddedToFresh | branches/release_2019013/MSToolkit/src/mzIMLTools/CAnalysisCollection.cpp:18-55 | starting from a new collection, the k-th added record lands at index k and, if unnamed, is named SI<k> |
| AnalysisCollections.AddedToFreshIds | branches/release_2019013/MSToolkit/src/mzIMLTools/CAnalysisCollection.cpp:18-55 | in a collection built from a new one, no record is the placeholder and the generated ids are pairwise distinct |
| AnalysisCollections.AnalysisCollection.constructor | branches/release_2019013/MSToolkit/src/mzIMLTools/CAnalysisCollection.cpp:18-22 | a new collection holds one placeholder record and a default ProteinDetection |
| AnalysisCollections.AnalysisCollection.Copy | branches/release_2019013/MSToolkit/src/mzIMLTools/CAnalysisCollection.cpp:24-27 | the copy holds the same records in the same order; its ProteinDetection is a default one |
| AnalysisCollections.AnalysisCollection.Assign | branches/release_2019013/MSToolkit/src/mzIMLTools/CAnalysisCollection.cpp:33-40 | assignment returns the assigned object, leaves a self-assignment unchanged, copies the other collection's records in order, and leaves ProteinDetection alone |
| AnalysisCollections.AnalysisCollection.AddProteinDetection | branches/release_2019013/MSToolkit/src/mzIMLTools/CAnalysisCollection.cpp:42-44 | the ProteinDetection record is replaced and the records are untouched |
| AnalysisCollections.AnalysisCollection.AddSpectrumIdentification | branches/release_2019013/MSToolkit/src/mzIMLTools/CAnalysisCollection.cpp:46-55 | the list keeps at least one record and becomes the added list, and the record stored last is the caller's record named as the add names it |

## Left out

- The reader loop of LoadAndPreprocessSpectra, PreprocessThreadProc, the
  thread pool, mutexes and the memory pool are not modelled. Concurrency and
  I/O are outside a sequential model. Of that loop, the clear_mz_range step
  is modelled.
- PreloadIons, the mzXML/RAW reader and writeOut are not modelled. They are
  file I/O.
- The fopen test of CheckExistOutFile is the parameter `fileExists`.
- The numerics of Preprocess are not modelled: MakeCorrData, Smooth,
  PeakExtract, LoadIons and the fast-xcorr sums. They are floating-point
  signal processing. The sparse steps take the dense fast-xcorr array as
  their input.
- The neutral-loss sparse array is not modelled separately. It uses the same
  count and fill as the fast-xcorr array.
- bad_alloc handling and Allocate/Deallocate are not modelled. Allocation
  cannot fail in the model.
- The qsort call itself is not modelled. Only its comparator QsortByIon and
  the sortedness it establishes (SortedByIon) are modelled. StairStep takes
  the table as given.
- Doubles and floats are exact reals. The (float) casts in the Sp fill and
  the float accumulation in the fast-xcorr array round in the source and not
  in the model.
- isEqual is a parameter `eq`. Where a division by the total intensity
  follows an isEqual test, the model requires `eq(0, 0)`.
- DecodeCompacted holds only when `eq` is exact equality. With a tolerant
  comparison the sparse array is lossy, as in the source.
- The Windows `\\` branch of the .out file name is not modelled. Only the
  '/' separator is.
- logerr and other console and log output is not modelled.
- OutFileName: the fixed-size (SIZE_FILE) buffer the source's sprintf writes the name into is not modelled; the model's name is unbounded, while a long base name overflows that buffer in the source.
- PreprocessSpectrum returns the spectrum's final z-lines instead of
  updating the spectrum object in place.
- StairStep requires a non-negative fragment bin size. With a negative bin
  size the source's outer loop never advances.
- GetTopIons requires a non-negative FLOAT_ZERO and a zeroed Sp table. The
  caller zeroes every slot with a loop just before the call (lines 500-504).
- AnalysisCollections.DefaultSpectrumIdentification: the default id "null"
  of a new record is an assumption. The record class's constructor is not
  part of this model.
- AnalysisCollections.AnalysisCollection.AddSpectrumIdentification: the
  source renames the caller's record through its reference. The model
  returns the renamed record as `stored` instead.
- AnalysisCollections.AnalysisCollection.Copy and Assign do not copy the
  ProteinDetection record. That follows the source as written.
- The `%d` conversion of a size_t in the generated id is treated as the
  decimal value of the count.
- The C# MassSettingsControl and the rest of the repository are not part of
  this model.
