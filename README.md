# Spangy-Fet band statistics in Dafny

This project models the arithmetic at the core of the Spangy-Fet cortical-folding analysis. A spectral decomposition of mean curvature assigns a dominant frequency band to every vertex of a brain-surface mesh and groups the Laplacian eigenvalues into bands. From those outputs the analysis computes:

- the number of parcels of each band;
- the vertex and area coverage of a band;
- the wavelength of each band;
- the gyrification index.

It then assembles one result record per hemisphere surface file, and the batch driver spreads the files over an array job's tasks.

Modules, one per component of the source:

- `DominantBands` (`labels.dfy`): counting and maximum over the per-vertex label array.
- `BandParcels` (`parcels.dfy`): `calculate_parcels_per_band`. The band mask goes to a one-dimensional component labeller, so a parcel is a maximal run of consecutive array positions carrying the band. `ComponentIds` models the labelled array, and `RunCount` models the component count.
- `BandCoverage` (`coverage.dfy`): `calculate_band_coverage`, with its loop over faces.
- `BandWavelength` (`wavelength.dfy`): `calculate_band_wavelength`, with its loop over eigenvalue groups.
- `Gyrification` (`gyrification.dfy`): `get_gyrification_index`.
- `SubjectNaming` (`naming.dfy`): file name to hemisphere and participant/session identifiers.
- `BandSummary` (`summary.dfy`): power distribution, analyzed folding power, and the loops over bands 4, 5 and 6.
- `ResultRecord` (`record.dfy`): the result dictionary, its literal part and the per-band loop.
- `SpangyAnalysis` (`analysis.dfy`): `process_single_file` composed from the above, with the cases where it yields no record.
- `Batch` (`batch.dfy`): `main`, which filters the files, chunks them and collects the results.
- `Numerics` and `Wrappers`: support modules. They hold reals for floats, NumPy division and the error types.

Floating-point values are modelled as exact reals. A NumPy division by zero yields an infinity or NaN (`Numerics.Num`) and raises nothing. A Python float division by zero raises `ZeroDivisionError`, which `process_single_file`'s catch-all turns into a skipped file.

Points where the code behaves differently than one might expect:

- Parcels are runs in storage order, not mesh-connected regions. Permuting the vertices changes the count, as `BandParcels.StorageOrderMatters` shows.
- A mesh of zero area gives a NaN area percentage, not 0.
- A zero hull area raises, and the file is skipped.
- The per-face coverage is a scalar loop, not a vectorised reduction.

## Model

| member | source | states |
|---|---|---|
| `DominantBands.Count` | utils.py:118-119 | the number of vertices carrying the band is at most the vertex count, and is 0 exactly when no vertex carries it |
| `DominantBands.MaxLabel` | spangy_analysis.py:189 | np.max of a non-empty label array is one of the labels and bounds them all |
| `DominantBands.CountAll` | utils.py:118-119 | when every vertex carries the band, all of them are counted |
| `DominantBands.AboveMaxAbsent` | spangy_analysis.py:189-193 | no vertex carries a band above np.max of the labels |
| `BandParcels.ComponentIds` | utils.py:96 | the labelled array has one entry per vertex |
| `BandParcels.IsRunStart` | utils.py:96 | a position starts a run when it carries the band and its predecessor, if any, does not |
| `BandParcels.RunCount` | utils.py:88-98 | the number of run starts: the component count of the 1-D band mask |
| `BandParcels.Connected` | utils.py:96 | every position between two positions carries the band |
| `BandParcels.ComponentIdsRange` | utils.py:88-96 | the labelled array is 0 exactly off the band mask, and on it lies in 1..RunCount |
| `BandParcels.ComponentIdsConnected` | utils.py:96 | two masked positions share a component id iff every position between them carries the band (1-D connectivity) |
| `BandParcels.ComponentIdsOnto` | utils.py:96-98 | every id 1..RunCount labels some position, so RunCount is exactly the number of maximal runs |
| `BandParcels.RunCountBounds` | utils.py:88-98 | a band's parcel count is at most its vertex count, and is 0 iff the band is absent (so at least 1 when present) |
| `BandParcels.RunCountDependsOnMask` | utils.py:88 | the parcel count depends only on where the band occurs, so negative (sulcal) labels are never told apart for bands 0..levels-1 |
| `BandParcels.StorageOrderMatters` | utils.py:96 | the same labels in another storage order give 2 parcels or 1: runs are counted in array order, not over the mesh |
| `BandParcels.ParcelsPerBand` | utils.py:84-100 | exactly `levels` entries; entry b is band b's run count, is 0 iff band b is absent, and never exceeds its vertex count |
| `Numerics.NumpyDiv` | utils.py:120 | a NumPy division is finite iff the divisor is non-zero, and its quotient times the divisor gives back the dividend; 0/0 is NaN and x/0 is an infinity of x's sign |
| `Numerics.Percent` | utils.py:120 | times 100: finite iff the quotient is, NaN and the infinities kept |
| `Numerics.ZeroPercent` | utils.py:117-120 | 0 over a non-zero whole is 0 %, 0 over 0 is NaN |
| `Numerics.WholePercent` | utils.py:117-120 | a non-zero whole over itself is 100 % |
| `Numerics.FractionBounds` | utils.py:127-135 | a part between 0 and a positive whole gives a finite fraction in [0,1] |
| `Numerics.PercentBounds` | utils.py:127-135 | ... and a percentage in [0,100] |
| `Numerics.Sum` | spangy_analysis.py:114 | np.sum and the `+=` loops, left to right |
| `Numerics.SumNonNeg` | utils.py:127-133 | a sum of non-negative entries is non-negative |
| `Numerics.SumFront` | spangy_analysis.py:114 | the left-to-right sum splits off its first element |
| `Numerics.SumScaled` | spangy_analysis.py:66 | scaling every element scales the sum |
| `Numerics.ElementAtMostSum` | spangy_analysis.py:65-66 | in a sequence with no negative entry, each entry is at most the sum |
| `BandCoverage.CoveredAreaBounds` | utils.py:123-133 | the covered area is never negative and never exceeds the sum of all face areas |
| `BandCoverage.Touches` | utils.py:129 | some corner of the face carries the band |
| `BandCoverage.CoveredArea` | utils.py:123-133 | the summed areas of the faces with a corner on the band |
| `BandCoverage.CoverageOf` | utils.py:117-135 | the vertex count, its percentage of all vertices, the covered area and its percentage of the mesh area, both percentages NumPy divisions |
| `BandCoverage.SharedArea` | utils.py:127-133 | the summed areas of the faces touching both bands |
| `BandCoverage.UnionArea` | utils.py:127-133 | the summed areas of the faces touching either band |
| `BandCoverage.CoveredAreaAbsent` | utils.py:127-133 | a band no vertex carries covers area 0 |
| `BandCoverage.CoveredAreaFull` | utils.py:127-133 | a band every vertex carries covers the whole mesh area |
| `BandCoverage.CoveredAreaOverlap` | utils.py:127-133 | covered areas of two bands add up to the union area plus the shared area: a face touching both counts in full toward each |
| `BandCoverage.AbsentCoverage` | utils.py:117-135 | an absent band reports 0 vertices, 0 %, no area and 0 % of the area; on a zero-area mesh the last is NaN (no guard) |
| `BandCoverage.FullCoverage` | utils.py:117-135 | a band on every vertex of a mesh of positive area reports all vertices, 100 %, the whole area, 100 % |
| `BandCoverage.CoverageBounds` | utils.py:117-135 | the vertex percentage is in [0,100] for a non-empty label array and NaN for an empty one; the covered area lies between 0 and the mesh area; the area percentage is in [0,100] for positive mesh area and NaN for zero; an absent band has no vertices and no area |
| `BandCoverage.CalculateBandCoverage` | utils.py:117-136 | the face loop adds exactly the faces with a corner on the band; the vertex percentage is in [0,100] for a non-empty label array and NaN for an empty one; the area percentage is in [0,100] for positive mesh area and NaN for zero |
| `BandWavelength.Wavelength` | utils.py:49-60 | an empty group has wavelength 0; otherwise the wavelength is positive iff the mean frequency is, and then it is that mean's reciprocal |
| `BandWavelength.GroupSum` | utils.py:54-57 | the sum of the group's frequencies |
| `BandWavelength.MeanFrequency` | utils.py:57-58 | np.mean of the group's frequencies |
| `BandWavelength.GroupSumZero` | utils.py:54-57 | the frequency sum of a group is non-negative and is 0 iff every selected frequency is 0 |
| `BandWavelength.WavelengthZero` | utils.py:54-60 | a non-empty band has wavelength 0 exactly when all its frequencies are 0 |
| `BandWavelength.UniformGroup` | utils.py:54-58 | a group whose frequencies are all f > 0 has wavelength 1/f |
| `BandWavelength.BandWavelengths` | utils.py:46-64 | one wavelength per group, in group order, each that group's Wavelength |
| `Gyrification.GyrificationIndex` | utils.py:26-28 | fails with ZeroDivisionError iff the hull area is 0; otherwise returns the hull area unchanged and an index whose product with the hull area is the mesh area, at least 1 iff the mesh area is at least the hull area |
| `SubjectNaming.RemoveAll` | spangy_analysis.py:22 | removing the marker never lengthens the name |
| `SubjectNaming.RemoveAllNoMatch` | spangy_analysis.py:22 | a name without the marker is unchanged |
| `SubjectNaming.RemoveAllDeletesOccurrence` | spangy_analysis.py:22 | an occurrence after a marker-free stretch is deleted too, not only a leading one |
| `SubjectNaming.Hemisphere` | spangy_analysis.py:24 | 'left' iff the name ends with left.surf.gii, otherwise 'right' |
| `SubjectNaming.Split` | spangy_analysis.py:25 | split yields at least one field and no field contains the separator |
| `SubjectNaming.Join` | spangy_analysis.py:25 | fields joined with the separator between them |
| `SubjectNaming.SplitFree` | spangy_analysis.py:25 | a string without the separator splits into itself |
| `SubjectNaming.SplitFieldThenSep` | spangy_analysis.py:25 | a separator-free field, the separator and a rest split into the field followed by the rest's fields |
| `SubjectNaming.JoinSplit` | spangy_analysis.py:25 | joining the split fields with the separator gives the string back |
| `SubjectNaming.SplitJoin` | spangy_analysis.py:25-26 | splitting a join of separator-free fields gives the fields back |
| `SubjectNaming.DeriveIds` | spangy_analysis.py:22-26 | identifier derivation fails with IndexError iff the marker-free name has fewer than two underscore fields |
| `SubjectNaming.IdsRoundTrip` | spangy_analysis.py:22-26 | participant_session splits into fields 0 and 1 of the name plus the hemisphere, and the base identifier is it without the hemisphere |
| `SpangyAnalysis.LookupAge` | spangy_analysis.py:32-36 | the scan age of the first table row for the subject, and none iff no row matches |
| `BandSummary.PowerDistribution` | spangy_analysis.py:65-66 | one percentage per band: spectrum[i]/total*100 when the total is positive, all zeros otherwise |
| `BandSummary.PowerDistributionTotal` | spangy_analysis.py:65-66 | with positive total power the percentages sum to 100 |
| `BandSummary.PowerDistributionBounds` | spangy_analysis.py:65-66 | for non-negative powers each percentage lies in [0,100] |
| `BandSummary.AnalyzeFoldingPower` | spangy_analysis.py:114 | afp plus band 0's power is the total power (0 for an empty spectrum) |
| `BandSummary.ZeroFillAgrees` | spangy_analysis.py:189-196 | zero-filling a band above the highest label agrees with its coverage when the mesh has positive area; on a zero-area mesh the coverage would be NaN % |
| `BandSummary.CoverageOfReportedBands` | spangy_analysis.py:184-201 | exactly three entries for bands 4, 5, 6: the band's coverage if it does not exceed the highest label, zeros otherwise |
| `BandSummary.ReportedCoverage` | spangy_analysis.py:191-196 | a band's coverage when it does not exceed the highest label, zeros otherwise |
| `BandSummary.PowerOfReportedBands` | spangy_analysis.py:203-211 | exactly three entries: spectrum[b] and spectrum[b]/afp (NumPy division) when b < len(spectrum), zeros otherwise |
| `BandSummary.RelativePowerBounds` | spangy_analysis.py:203-211 | for non-negative powers and positive afp, the relative power of every band from 1 upward is finite and in [0,1] |
| `ResultRecord.Decimal` | spangy_analysis.py:250-253 | the rendering of a band number is non-empty, one digit exactly below 10, and ends in the last decimal digit |
| `ResultRecord.DecimalInjective` | spangy_analysis.py:250-253 | different band numbers render differently |
| `ResultRecord.BandKeyInjective` | spangy_analysis.py:250-253 | two per-band column names coincide only for the same prefix and the same band |
| `ResultRecord.BandKey` | spangy_analysis.py:250-253 | the column name f'{prefix}{i}' |
| `ResultRecord.FixedFieldsAsWritten` | spangy_analysis.py:220-246 | the literal as written, B5_number_of_vertices entered twice |
| `ResultRecord.FixedFields` | spangy_analysis.py:220-246 | the literal with band 6's count under B6_number_of_vertices |
| `ResultRecord.AsWrittenLosesBand5Count` | spangy_analysis.py:233-235 | as written, B5_number_of_vertices holds band 6's count, band 5's count is lost, and no B6_number_of_vertices column exists |
| `ResultRecord.FixedFieldsReportEachBand` | spangy_analysis.py:233-235 | with the key corrected, each of bands 4, 5, 6 has its own vertex-count column |
| `ResultRecord.AddBandStep` | spangy_analysis.py:249-253 | one pass of the band loop over the record equals the record extended by one more band |
| `ResultRecord.FixedFieldsIdentity` | spangy_analysis.py:221-224 | the record holds participant_session, gestational_age and gyrification_index |
| `ResultRecord.SessionColumn` | spangy_analysis.py:221 | the literal's participant_session column |
| `ResultRecord.AgeColumn` | spangy_analysis.py:222 | the literal's gestational_age column |
| `ResultRecord.IndexColumn` | spangy_analysis.py:224 | the literal's gyrification_index column |
| `ResultRecord.HullColumn` | spangy_analysis.py:225 | the literal's hull_area column |
| `ResultRecord.FoldingPowerColumn` | spangy_analysis.py:228 | the literal's analyze_folding_power column |
| `ResultRecord.RelativePowerColumns` | spangy_analysis.py:230-232 | the literal's three relative powers, each under its own band's key |
| `ResultRecord.VertexCountColumns` | spangy_analysis.py:233-235 | the corrected literal's three vertex counts, each under its own band's key |
| `ResultRecord.LiteralColumn` | spangy_analysis.py:220-253 | a literal column whose name does not start with 'b' survives the band loop unchanged |
| `ResultRecord.ExtendedIdentity` | spangy_analysis.py:220-253 | after the band loop the record still holds participant_session, gestational_age, gyrification_index, hull_area and analyze_folding_power |
| `ResultRecord.ExtendedRelativePowers` | spangy_analysis.py:230-253 | after the band loop the record still holds the three relative powers |
| `ResultRecord.ExtendedVertexCounts` | spangy_analysis.py:233-253 | after the band loop the record still holds the three vertex counts |
| `ResultRecord.FixedKeysAreNotBandKeys` | spangy_analysis.py:220-246 | no column of the literal starts with 'b' |
| `ResultRecord.BandFieldsKeys` | spangy_analysis.py:249-253 | every per-band column name starts with 'b' |
| `ResultRecord.BandFields` | spangy_analysis.py:249-253 | the four columns of bands 0..levels-1, a later band's entries written last |
| `ResultRecord.BandFieldsFrame` | spangy_analysis.py:249-253 | the last band's pass leaves every other column as it was |
| `ResultRecord.BandFieldsLast` | spangy_analysis.py:249-253 | the last band's pass writes its four values under its four keys |
| `ResultRecord.SameBandKeysDistinct` | spangy_analysis.py:250-253 | the four column names of one band are distinct |
| `ResultRecord.BandFieldsAt` | spangy_analysis.py:249-253 | band i's power, percentage, wavelength and parcel count sit under band i's own keys and no later band overwrites them |
| `ResultRecord.RecordColumns` | spangy_analysis.py:220-253 | the finished record keeps every literal column and has all four columns of every band 0..levels-1 |
| `ResultRecord.AddBandFields` | spangy_analysis.py:249-253 | the loop leaves the literal extended with the four columns of each band |
| `SpangyAnalysis.ProcessSingleFile` | spangy_analysis.py:18-261 | no record iff the name, with the smoothing marker removed, has no underscore, the subject is missing from the table, the directory holds no file of that stripped name, the hull area is 0 or the label array is empty; otherwise the record is exactly `FileRecord` of the derived participant_session, the first matching age and the gyrification index and hull area of the mesh, so every column the FileRecord lemmas describe holds its value |
| `SpangyAnalysis.AssembleRecord` | spangy_analysis.py:61-253 | for a file that passed every check, running the band analyses and the band loop gives exactly `FileRecord`: the literal built from the reported measures, then the four columns of every band |
| `SpangyAnalysis.MeshArea` | spangy_analysis.py:113 | the mesh area is the sum of the triangle areas, and never negative |
| `SpangyAnalysis.MeshFound` | spangy_analysis.py:38-39 | the file tested is the listed name with the smoothing marker removed |
| `SpangyAnalysis.SmoothedNameNeedsUnmarkedMesh` | spangy_analysis.py:22-41 | a listed name smooth_5_X (X without the marker) passes the mesh test iff X itself is in the directory, whether or not smooth_5_X is; without X the file is skipped |
| `SpangyAnalysis.Skipped` | spangy_analysis.py:18-261 | the cases in which process_single_file returns None: no second underscore field (IndexError, outer handler), no table row for the subject (inner bare except), no file of the stripped name in the directory (explicit return, no exception), a zero hull area (ZeroDivisionError, outer handler), an empty label array (np.max, outer handler) |
| `SpangyAnalysis.Wavelengths` | spangy_analysis.py:69 | band i's wavelength is calculate_band_wavelength of eigenvalue group i |
| `SpangyAnalysis.ParcelCounts` | spangy_analysis.py:125 | band i's parcel count is the run count of band i |
| `SpangyAnalysis.ReportedCoverages` | spangy_analysis.py:184-201 | bands 4, 5 and 6 in that order, each its coverage or zeros |
| `SpangyAnalysis.ReportedRelativePowers` | spangy_analysis.py:203-211 | bands 4, 5 and 6 in that order: power over afp when the spectrum has the band, 0 otherwise |
| `SpangyAnalysis.MeasuresOf` | spangy_analysis.py:110-235 | the measures that enter the literal; there are exactly three relative powers and three coverages |
| `SpangyAnalysis.FileRecord` | spangy_analysis.py:220-253 | the corrected literal of those measures, then the four columns of every band 0..levels-1 |
| `SpangyAnalysis.FileRecordIdentity` | spangy_analysis.py:220-228 | the record holds participant_session, gestational_age, gyrification_index, hull_area and analyze_folding_power with the file's own values; the band loop overwrites none of them |
| `SpangyAnalysis.FileRecordVertexCounts` | spangy_analysis.py:184-235 | in the corrected record, B4, B5 and B6_number_of_vertices hold the band's vertex count when the band does not exceed the highest label, and 0 otherwise |
| `SpangyAnalysis.MeasuredVertexCounts` | spangy_analysis.py:184-201 | the three reported vertex counts are bands 4, 5 and 6's counts, or 0 above the highest label |
| `SpangyAnalysis.FileRecordRelativePowers` | spangy_analysis.py:203-232 | B4, B5 and B6_band_relative_power hold the band's power over afp (a NumPy division) when the spectrum has the band, and 0 otherwise |
| `SpangyAnalysis.MeasuredRelativePowers` | spangy_analysis.py:203-211 | the three reported relative powers are those of bands 4, 5 and 6, or 0 past the spectrum |
| `SpangyAnalysis.FileRecordBands` | spangy_analysis.py:249-253 | every band 0..levels-1 has band_power_B{i}, band_power_pct_B{i}, band_wavelength_B{i} and band_parcels_B{i}, holding its power, its PowerDistribution share, its Wavelength and its RunCount |
| `SpangyAnalysis.BandColumns` | spangy_analysis.py:249-253 | the same four columns per band over any literal whose column names do not start with 'b' |
| `Batch.SurfaceFiles` | main.py:35 | exactly the listed names ending in left.surf.gii or right.surf.gii are kept |
| `Batch.IsSurfaceFile` | main.py:35 | the name ends in left.surf.gii or right.surf.gii |
| `Batch.SurfaceFilesAppend` | main.py:35 | filtering a concatenated listing concatenates the filtered parts, so the kept files stay in listing order |
| `Batch.ChunkSize` | main.py:61 | the chunk size is the ceiling of files over tasks |
| `Batch.ChunkBounds` | main.py:62-63 | a task starts at task_id times the chunk size, and its end never exceeds the number of files |
| `Batch.InChunk` | main.py:61-63 | a file index lies in the task's [start_idx, end_idx) |
| `Batch.InChunkIff` | main.py:61-63 | a file index lies in task t's chunk iff t*size <= k < (t+1)*size and k is a file index |
| `Batch.Slice` | main.py:69 | Python slicing with non-negative bounds: the sub-list when in range, empty when start passes end |
| `Batch.Chunk` | main.py:61-69 | all_files[start_idx:end_idx] for the task |
| `Batch.ChunkIsSlice` | main.py:61-69 | a task's files run from t*size to (t+1)*size, clipped to the list |
| `Batch.ChunksPartition` | main.py:61-69 | every file index falls in the range of exactly one task 0..n_tasks-1 |
| `Batch.ChunksCoverFiles` | main.py:61-69 | the chunks of all tasks, end to end in task order, are exactly the file list |
| `Batch.Chunks` | main.py:61-69 | the chunks of tasks 0..count-1, one per task |
| `Batch.ChunksPrefix` | main.py:61-69 | the chunks of the first count tasks, end to end, are the files up to count*size, clipped to the list |
| `Batch.Collected` | main.py:43-46 | the non-None results in processing order |
| `Batch.CollectedAppend` | main.py:43-46 | collecting two runs back to back is collecting each and appending |
| `Batch.MapOver` | main.py:43-44 | one outcome per file, each the per-file function's outcome for that file |
| `Batch.CollectedFromOutcomes` | main.py:43-46 | no more results than files are kept; a result is kept iff some file produced it |
| `Batch.ProcessFiles` | main.py:43-46 | the loop keeps the non-None results, in processing order |
| `Batch.CollectedByTask` | main.py:66-72 | the results of tasks 0..count-1, each collected over its own chunk, end to end |
| `Batch.MapOverConcat` | main.py:66-72 | collecting over chunks put end to end is collecting over all but the last, then over the last |
| `Batch.CollectedByTaskConcat` | main.py:66-72 | the tasks' results end to end are the results collected over their chunks end to end |
| `Batch.ArrayModeMatchesLocalMode` | main.py:39-72 | the same files are processed, in the same order: for one per-file function, the results of tasks 0..n_tasks-1 end to end equal local mode's |
| `Batch.RunBatch` | main.py:35-72 | local mode processes every surface file; task mode processes its chunk; a task count of 0 fails in the division |

## Left out

- Mesh loading, curvature, eigenpairs, the grouped spectrum and the local dominance map come from the surface-analysis library. They are inputs here (`SpangyAnalysis.Spectral`).
- Triangle areas come from cross-product norms, the mesh area from trimesh, and the convex hull and its area from trimesh. The mesh volume is also external. All of these are given non-negative reals. The mesh area is taken to be the sum of the face areas, which is how trimesh computes it.
- Eigenvalue frequencies `sqrt(eigVal / (2 pi))` are given non-negative reals. NaN frequencies from negative eigenvalues are not modelled.
- IEEE rounding is not modelled: all arithmetic is exact. Of NaN and infinity, only the outcomes of division by zero are modelled.
- Plotting is left out, including the plot-only frequency `sqrt(eigVal/2*pi)` at spangy_analysis.py:73. Also left out: printing, texture and `.npy` writing, CSV writing, `ensure_dir_exists`, `os.listdir`, the SLURM environment variables and the clock. The listing, the task pair and the processing time are parameters.
- directories.py and the snapshot and processing scripts (dpf_star.py, dpf_star_snapshots.py, spangy_snapshot_updated.py, dist_tex_snapshot.py, mean_curvature.py) are not part of this model.
- Of the ways process_single_file returns None, the model has these: a stripped name without an underscore (IndexError, caught by the outer handler), a subject missing from the table (caught by the inner bare except at spangy_analysis.py:32-36), no file of the stripped name in the directory (an explicit return at spangy_analysis.py:39-41, no exception), a zero hull area and an empty label array (both caught by the outer handler). Exceptions raised inside the libraries are not modelled.
- The directory listing is a parameter (`meshDir`). The mesh loaded from the stripped name at spangy_analysis.py:44 is the input `surface`; which file that is on disk is not modelled.
- Face indices out of range, group indices out of range or negative (NumPy wrap-around) and a spectrum whose length differs from the number of bands are excluded by `SpangyAnalysis.Consistent`. The loader and the decomposition guarantee these.
- Negative SLURM task ids (Python's negative slicing) are not modelled: the task id is a `nat`.
- Python's int/float distinction is kept only as far as the record's `Int` and `Float` values go. Vertex counts (np.sum over a boolean mask, utils.py:119) and parcel counts are integers in both. The model stores as reals several entries that the program leaves as the int 0. These are the zero-filled entries for bands 4 to 6 (spangy_analysis.py:196 and :210-211). They also include a band's area when no face touches it (`total_area = 0`, utils.py:123) and the wavelength of an empty or zero-frequency band (utils.py:50 and :60).
- The four parallel coverage lists are one list of `Coverage` records.
- The dictionary's key order is not modelled, so neither is the CSV column order: the record is a map.
- `if result:` in main also rejects an empty dict. A record is never empty, so the model keeps exactly the non-None results.
- Parcels are not counted over mesh adjacency, because the code has no such counter.
- SpangyAnalysis.ProcessSingleFile: builds the corrected literal (`ResultRecord.FixedFields`). Its record has band 5's count under B5_number_of_vertices and band 6's under B6_number_of_vertices. The program as written loses band 5's count and has no B6 column (see Findings, and `ResultRecord.FixedFieldsAsWritten`).
- SpangyAnalysis.AssembleRecord: builds the corrected literal too, for the same reason.

## Findings

| source | as written | input that shows it | evidently intended | confidence | as-written member | corrected member |
|---|---|---|---|---|---|---|
| spangy_analysis.py:233-235 | the record literal has the key `B5_number_of_vertices` twice, the second time with band 6's count, so band 6's count replaces band 5's and there is no `B6_number_of_vertices` column | any surface whose bands 5 and 6 carry different vertex counts, e.g. 120 and 80: the B5 column reads 80 | the third key is `B6_number_of_vertices`, following the B4/B5/B6 pattern of every other group in the literal | high; not executed | `ResultRecord.AsWrittenLosesBand5Count` (about `ResultRecord.FixedFieldsAsWritten`) | `ResultRecord.FixedFieldsReportEachBand` (about `ResultRecord.FixedFields`, which `SpangyAnalysis.ProcessSingleFile` uses) |
