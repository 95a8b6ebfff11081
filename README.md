# SanPedro Flood-MAR suitability: a Dafny model

The repository is a set of ArcPy scripts. They rank land in a watershed by how suitable it is for
flood managed aquifer recharge (Flood-MAR).

- **Preprocessing.** The thematic layers are prepared first: the DEM is filled and hydrologically
  conditioned into a stream network, and its drainage density and slope are computed. Precipitation
  is resampled and lithology is rasterised. Everything is written into `LayerPreprocessing.gdb`.
  A later run skips this work when the five layers it needs are already there.
- **Classification.** Each layer is classified against a schema table. The table rows for one layer
  are turned into ArcGIS's remap string: `"start end new;..."` for discrete classes, and
  `"old new;..."` for categories, with a label quoted when it holds a space.
- **Overlay.** The classified layers are combined as a weighted sum. Each weight is read from a
  table.
- **Flood-MAR score.** The flood and recharge suitability surfaces are each min–max normalised to
  [0, 1], and then multiplied cell by cell.

This project models that logic in Dafny and proves what the scripts promise about it.

**Modules**

- `Text`: Python's `str.strip`/`rstrip`/`lstrip` on the `isspace` character set, `join`, `split`,
  `count`, and `str(int)` with its parse.
- `Remap`: the remap grammar.
  - Its serialiser is stated declaratively.
  - Its reader splits on `;`, then on spaces outside single quotes.
  - The reader's lookup, under `missing_values='NODATA'`, is the categorical reclassification.
- `Classification`:
  - the schema frame and the row filter;
  - the column-wise `zip` of the discrete path and the row-wise `tolist` of the categorical path;
  - the two nested remap-building loops, as methods with loop invariants;
  - the three classification functions.
- `Engine`: the ArcPy engine.
  - Engine results are symbolic `Dataset` terms.
  - `Environment` is a class holding `arcpy.env`.
  - `Store` is a class holding geodatabases, saved rasters and features, and the save log.
- `HydrologicConditioning`: the per-cell `Con` stream rule, and the four persisted steps.
- `Preprocessing`:
  - Python's argument binding for the six calls `PreprocessLayers` makes;
  - the single-call step wrappers;
  - the set-up of the environment and the gdb;
  - the ordered write sequence with its names and dataflow.
- `RechargeSuitability`:
  - the cache-skip test and the driver that runs preprocessing or skips it;
  - the first-match weight lookup;
  - the per-cell weighted overlay.
- `FloodMAR`: minimum and maximum of a surface with NoData cells, min–max normalisation, and the
  product.

**Representations**

- A raster is a `seq<Option<real>>`, where `None` is NoData.
- A table is a sequence of rows, or a frame of columns.
- The store maps `Location(gdb, name)` to the dataset last saved there.
- A run of steps is specified as a sequence of `Output` writes. `Apply` folds them into the store
  and `Locations` lists them in the save log.

## Model

| member | source | states |
|---|---|---|
| Classification.Matches | arcpy/Classification.py:23 | the number of schema rows naming the layer, which is zero exactly when no row names it |
| Classification.KeepWhere | arcpy/Classification.py:23 | the boolean row mask keeps one element per matching row: every kept element comes from a row whose `layer` is `LayerName`, and every such row's element is kept |
| Classification.Filter | arcpy/Classification.py:23 | the filtered table has every column except `layer`, all of one height, and that height is the number of matching rows |
| Classification.FilterKeepsRows | arcpy/Classification.py:23-29 | the rows of the filtered table are exactly the original rows whose `layer` matches, in table order, with the `layer` column removed |
| Classification.TransposeKeep | arcpy/Classification.py:29 | filtering every column and then zipping gives the same rows as zipping and then filtering the rows |
| Classification.ValuesToList | arcpy/Classification.py:67 | `table.values.tolist()` has one row per table row and one entry per column |
| Classification.RenderRows | arcpy/Classification.py:37 | each token of the remap is the `str` of its cell |
| Classification.DiscreteRemap | arcpy/Classification.py:31-41 | the nested loop with `strip()` and `[:-1]` yields exactly the declarative serialisation of the rendered rows |
| Classification.CategoricalRemap | arcpy/Classification.py:69-84 | for text cells, the loop yields the serialisation of the rows after the quoting rule is applied to every token |
| Classification.CategoricalRemapAsWritten | arcpy/Classification.py:67-84 | the loop as written fails exactly when some cell is not text, because `" " in j` raises on a number; it fails at the first such cell in row-major order; otherwise it yields the quoted serialisation |
| Classification.IntegerClassesRaise | arcpy/Classification.py:75 | a lithology schema whose class column reads as integers fails at row 0, column 1; the same table with text classes gives `'Early Proterozoic granite' 1;Basalt 2` |
| Classification.UnknownLayerGivesEmptyRemap | arcpy/Classification.py:30-41 | a layer name no row carries gives an empty table, and both serialisers return `""` |
| Classification.DiscreteRemapShape | arcpy/Classification.py:33-41 | with clean tokens the discrete remap is the rows joined by `;`, each row being its tokens joined by single spaces, and it holds exactly rows − 1 semicolons |
| Classification.DiscreteRoundTrip | arcpy/Classification.py:26-41 | reading an all-integer discrete remap back gives the rendered rows, and every token parses as its original integer |
| Classification.ColumnwiseKeepsIntegers | arcpy/Classification.py:26-29 | on a row mixing floats and an integer class, the column-wise zip prints the class as `1`, while a row-wise `tolist` would print `1.0` |
| Classification.DiscreteClassification | arcpy/Classification.py:19-56 | sets overwriting on; the result is `Reclassify` of the raster with the discrete remap of the filtered rows and `missing_values='NODATA'`; it is saved at `Output` and nothing else changes |
| Classification.CategoricalClassification | arcpy/Classification.py:59-99 | the same, with the corrected quoted categorical remap (`str` of each cell first) of `table.values.tolist()` |
| Classification.ContinuousClassification | arcpy/Classification.py:102-117 | sets overwriting on; the result is `RescaleByFunction(Raster, Function, From, To)`, saved at `Output` |
| Classification.DefaultContinuousRange | arcpy/Classification.py:102 | without `From`/`To` the rescale range is 1 to 5 |
| Remap.SerialiseClean | arcpy/Classification.py:33-41 | when no token is empty or starts or ends with whitespace, stripping changes nothing: the remap is `;`-joined rows of space-joined tokens |
| Remap.SemicolonCount | arcpy/Classification.py:39-41 | when no token holds `;`, the remap has exactly one `;` fewer than it has rows, and none for an empty table |
| Remap.QuoteRows | arcpy/Classification.py:75-80 | each token containing a space becomes `'token'`, and every other token is unchanged |
| Remap.WordsRow | arcpy/Classification.py:75-80 | splitting a quoted, space-joined row on spaces outside quotes, with the quotes removed, gives back the row's tokens |
| Remap.RemapRoundTrip | arcpy/Classification.py:64-84 | for labels without `'` or `;`, the reader recovers the categorical remap's exact rows |
| Remap.EmptyRemap | arcpy/Classification.py:41 | an empty table serialises to `""` |
| Remap.LookupClass | arcpy/Classification.py:94 | a label's new value is that of the first remap entry naming it; it is `None` (NoData) exactly when no entry names it |
| Remap.UnlistedLabelIsNoData | arcpy/Classification.py:94 | a cell whose label matches no remap entry becomes NoData |
| Remap.GeologyRemapText | arcpy/Classification.py:64-65 | the two-row geology schema serialises to `'Early Proterozoic granite' 1;Basalt 2` |
| Remap.BasaltEverywhere | arcpy/Classification.py:94 | reclassifying an all-`Basalt` raster with that remap gives class `2` in every cell |
| Text.IntTextRoundTrip | arcpy/Classification.py:37 | `str` of an integer is an optional minus sign followed by digits, and it parses back to the same integer |
| Text.StripTrimmed | arcpy/Classification.py:39 | `strip()` and `rstrip()` leave a string that neither starts nor ends with whitespace unchanged |
| Engine.Store.Save | arcpy/Hydrologic_Conditioning.py:29 | `.save(path)` sets one raster or feature class at its location and appends it to the log |
| Engine.Store.CreateFileGDB | arcpy/Preprocessing.py:42 | adds exactly the geodatabase `folder/name` |
| Engine.Store.ListRasters | arcpy/RechargeSuitability.py:75-77 | the listing names exactly the rasters saved in the workspace gdb |
| HydrologicConditioning.Streams | arcpy/Hydrologic_Conditioning.py:40 | a stream cell is 1 exactly when its accumulation is at least 1000, the boundary included, and NoData exactly when it is below |
| HydrologicConditioning.StreamsMonotone | arcpy/Hydrologic_Conditioning.py:40 | raising accumulation never removes a stream cell |
| HydrologicConditioning.StreamCountBelow | arcpy/Hydrologic_Conditioning.py:40 | accumulation below 1000 everywhere gives no stream cell |
| HydrologicConditioning.SingleStreamCell | arcpy/Hydrologic_Conditioning.py:40 | one cell of 1500 among cells of 10 gives exactly one stream cell, at that place |
| HydrologicConditioning.ConditioningDataflow | arcpy/Hydrologic_Conditioning.py:27-47 | direction reads the filled DEM; accumulation reads the direction raster, not the DEM; the threshold reads the accumulation; the features read the streams and the same direction raster; no step reads a later result |
| HydrologicConditioning.HydrologicConditioning | arcpy/Hydrologic_Conditioning.py:20-50 | sets overwriting on, saves the four results in order at the four given locations, and returns the stream features |
| Preprocessing.KeywordError | arcpy/Preprocessing.py:74-84 | a call has no keyword error exactly when every keyword names a parameter that no positional argument already fills |
| Preprocessing.MissingFrom | arcpy/Preprocessing.py:54-104 | no required parameter is missing exactly when each one not filled positionally is given by keyword |
| Preprocessing.BindIff | arcpy/Preprocessing.py:54-104 | a call binds exactly when it has no more positional arguments than parameters, each keyword fits, and each required parameter is supplied |
| Preprocessing.AsWrittenBindings | arcpy/Preprocessing.py:54-104 | as written, the fill call passes 4 arguments to a 3-parameter function, and so do the resample (4 to 3) and the rasterise (5 to 4) calls; the slope call gets an unexpected `Mask_Geom`; the conditioning and drainage calls bind |
| Preprocessing.FixedBindings | arcpy/Preprocessing.py:54-104 | the corrected fill, slope, resample and rasterise calls bind |
| Preprocessing.DemPreprocessing | arcpy/DEM_PreProcessing.py:19-35 | sets overwriting on, saves `Fill(DEM)` at `Filled_DEM` and returns it |
| Preprocessing.DrainageDensity | arcpy/Drainage_Density.py:19-32 | sets the extent and mask to `Mask_Geom` and the snap raster to `Snap_Raster`, then saves the line density (1000 m radius, square kilometres) |
| Preprocessing.CalcSlope | arcpy/Slope.py:19-29 | saves the planar slope of the DEM in degrees |
| Preprocessing.ResampleRaster | arcpy/Resample_Raster.py:19-34 | sets the snap raster, then saves the bilinear resample at the snap raster's cell size |
| Preprocessing.FeatToRast | arcpy/Feat_to_Rast.py:19-34 | sets the snap raster, then saves the features rasterised on the value field |
| Preprocessing.SetUp | arcpy/Preprocessing.py:22-42 | sets the workspace, overwriting, the extent, the mask, the snap raster and WKID 32612; it creates `LayerPreprocessing.gdb` exactly when it was missing, and reuses an existing one |
| Preprocessing.PreprocessLayersAsWritten | arcpy/Preprocessing.py:19-54 | as written, the run fails with the arity error at its first step, after the set-up and before writing any output |
| Preprocessing.PreprocessLayers | arcpy/Preprocessing.py:19-104 | with the calls corrected, the store ends as the nine writes applied in order, and the log lists their nine locations |
| Preprocessing.RunSteps | arcpy/Preprocessing.py:54-104 | running the six steps applies the writes of `Writes` in order, and leaves the extent, mask and snap raster as the drainage step set them |
| Preprocessing.RunSurfaceSteps | arcpy/Preprocessing.py:54-64 | the fill and conditioning steps apply the first five writes, and return the filled DEM and the stream features |
| Preprocessing.RunLayerSteps | arcpy/Preprocessing.py:74-104 | the drainage, slope, precipitation and lithology steps apply the last four writes |
| Preprocessing.PreprocessNames | arcpy/Preprocessing.py:54-104 | the writes go, in order, to `Filled_SRTM`, `Flow_Direction`, `Flow_Accumulation`, `Streams_Raster`, `Stream_Features`, `Drainage_Density`, `Slope`, `Precipitation` and `Lithology` under the gdb; only `Stream_Features` is a feature class |
| Preprocessing.PreprocessDataflow | arcpy/Preprocessing.py:54-104 | each step reads only inputs or earlier results; conditioning and slope read the filled DEM; drainage reads the stream features; lithology is rasterised on `UNIT_NAME`; the raw DEM is read only by the fill |
| RechargeSuitability.AllIn | arcpy/RechargeSuitability.py:77 | `all(... in listing ...)` holds exactly when every required name is listed |
| RechargeSuitability.SkipIff | arcpy/RechargeSuitability.py:69-79 | preprocessing is skipped exactly when the gdb exists and all five of `Filled_SRTM`, `Drainage_Density`, `Slope`, `Precipitation` and `Lithology` are listed |
| RechargeSuitability.ListingOnlyMattersForRequired | arcpy/RechargeSuitability.py:77 | two listings that agree on the five required names give the same decision |
| RechargeSuitability.ReorderedOrExtendedListing | arcpy/RechargeSuitability.py:77 | reordering the listing does not change the decision, and extra rasters never turn a skip into a run |
| RechargeSuitability.CompletedRunFillsCache | arcpy/RechargeSuitability.py:77 | after a completed preprocessing run, all five required rasters are in the gdb |
| RechargeSuitability.CompleteCacheSkips | arcpy/RechargeSuitability.py:69-79 | a listing of a gdb that holds the five rasters makes the skip test true |
| RechargeSuitability.PrepareLayers | arcpy/RechargeSuitability.py:67-106 | with the corrected preprocessing, it runs once and in full exactly when the gdb is missing or lacks a required raster; otherwise the store is unchanged; afterwards the gdb holds the five layers, the five paths are the gdb plus fixed names, and the workspace is `ws` again |
| RechargeSuitability.RerunSkipsPreprocessing | arcpy/RechargeSuitability.py:67-96 | with the corrected preprocessing, a second run straight after the first skips preprocessing |
| RechargeSuitability.RechargeWeight | arcpy/RechargeSuitability.py:145-153 | the weight is the `rechargeWeight` of the first row naming the layer; a layer with no row fails, because `.values[0]` is taken on an empty selection |
| RechargeSuitability.Weights | arcpy/RechargeSuitability.py:145-153 | all the weights are found exactly when every layer has a row; the failure names the first layer that has none |
| RechargeSuitability.FirstRowWins | arcpy/RechargeSuitability.py:145-152 | with two `DEM` rows the first one's weight is taken, and a misspelt `Soils` fails |
| RechargeSuitability.WeightedCell | arcpy/RechargeSuitability.py:157 | a cell of the weighted sum has data exactly when every layer has data there |
| RechargeSuitability.SumScaled | arcpy/RechargeSuitability.py:157 | scaling every weight by k scales the sum by k |
| RechargeSuitability.ScaleWeights | arcpy/RechargeSuitability.py:157 | the same holds per cell, and NoData is unaffected |
| RechargeSuitability.SumZeroWeight | arcpy/RechargeSuitability.py:157 | a layer with weight 0 adds nothing to the sum, whatever its value |
| RechargeSuitability.ZeroWeightContributesNothing | arcpy/RechargeSuitability.py:157 | changing a zero-weight layer's cell value leaves the overlay cell as it was |
| RechargeSuitability.TwoLayerCell | arcpy/RechargeSuitability.py:157 | cells 3 and 1 with weights 2 and −1 give 5, and a NoData layer gives NoData |
| RechargeSuitability.Overlay | arcpy/RechargeSuitability.py:157 | every cell is the weighted sum over the layers at that cell, and it has data exactly when every layer does |
| RechargeSuitability.Suitability | arcpy/RechargeSuitability.py:143-157 | the calculation fails exactly when one of the nine layer names has no weight row; otherwise it is the overlay with the looked-up weights |
| FloodMAR.Minimum | arcpy/FloodMAR.py:57-59 | `.minimum` exists exactly when some cell has data, and it is the least data value |
| FloodMAR.Maximum | arcpy/FloodMAR.py:58-60 | `.maximum` exists exactly when some cell has data, and it is the greatest data value |
| FloodMAR.UnitBounds | arcpy/FloodMAR.py:64-65 | with min < max, (x − min)/(max − min) lies in [0, 1] for x in [min, max], is 0 at the minimum and 1 at the maximum |
| FloodMAR.UnitMonotone | arcpy/FloodMAR.py:64-65 | normalisation keeps the order of values |
| FloodMAR.UnitShift | arcpy/FloodMAR.py:64-65 | normalising a positively scaled and shifted value against the equally transformed bounds gives the same number |
| FloodMAR.Normalise | arcpy/FloodMAR.py:64-65 | NoData stays NoData, and every data cell becomes (x − lo)/(hi − lo) |
| FloodMAR.RescaledRange | arcpy/FloodMAR.py:57-65 | a surface normalised by its own min and max keeps its NoData cells, lies in [0, 1], maps the minimum cells to 0 and the maximum cells to 1, and keeps the order of cells |
| FloodMAR.AffineStatistics | arcpy/FloodMAR.py:57-60 | the min and max of a positively scaled and shifted surface are the transformed min and max |
| FloodMAR.RescaledAffineInvariant | arcpy/FloodMAR.py:57-65 | adding a constant to a surface, or scaling it by a positive factor, does not change its normalised surface |
| FloodMAR.Product | arcpy/FloodMAR.py:69 | each cell is the product of the two cells, with data exactly when both have data |
| FloodMAR.ProductProperties | arcpy/FloodMAR.py:69 | the product is symmetric, and a 0 in either factor gives 0 |
| FloodMAR.ProductInUnitRange | arcpy/FloodMAR.py:69 | the product of two [0, 1] surfaces lies in [0, 1] |
| FloodMAR.FloodMar | arcpy/FloodMAR.py:57-69 | the Flood-MAR surface has data exactly where both inputs do, and lies in [0, 1] |
| FloodMAR.FloodMarProperties | arcpy/FloodMAR.py:57-69 | the score is symmetric in the two surfaces; it is 0 at a minimal flood cell, 1 where both are maximal, and unchanged by rescaling or shifting the raw flood surface |

## Left out

- Engine algorithms are not modelled. Fill, D8 flow direction and accumulation, stream to feature, line density, slope, bilinear resampling, feature to raster, `RescaleByFunction` and `Reclassify`'s range-boundary rules are all uninterpreted `Dataset` terms. Their properties live in a library that is not part of this model. Only the categorical lookup of `Reclassify` is modelled (`Remap.ReclassifyCategorical`), because the code states it through `missing_values='NODATA'`.
- `Reclassify`'s discrete range matching is not modelled. The discrete remap is specified by its text, its shape and its round trip.
- Preprocessing.DemPreprocessing: `Z_limit in locals()` at arcpy/DEM_PreProcessing.py:26 tests whether the value is the name of a local variable. Any numeric or `None` limit therefore takes the plain `Fill(DEM)` branch, and that branch is the one modelled. A string limit spelling one of the three parameter names would take the other branch; that case is not modelled.
- Preprocessing.DrainageDensity: its overwrite of the global extent, mask and snap settings is modelled. It is not restored afterwards, and the model keeps it that way.
- arcpy/FloodSuitability.py is orchestration only and is not part of this model. It never computes the `Flooding_Suitability` layer, which arcpy/FloodMAR.py:53 reads, so `FloodMAR.FloodMar` takes both surfaces as arguments.
- The nine classification calls at arcpy/RechargeSuitability.py:122-139 and the saves at arcpy/RechargeSuitability.py:158 and arcpy/FloodMAR.py:70 are not modelled as steps. The overlay and the product are modelled on cell values.
- The gdb set-up at arcpy/RechargeSuitability.py:20-65 and arcpy/FloodMAR.py:43-50 is not modelled: paths, watershed names and the second `CreateFileGDB`.
- I/O is not modelled: prints, `GetMessages` formatting and pandas CSV parsing. Tables are taken as given rows, or as a frame of given columns.
- The spatial reference object is reduced to its WKID, 32612.
- Text.IntTextRoundTrip and Classification.AsFloat: IEEE floating point is not modelled. A float cell carries its printed text as given. The upcast of an integer by `tolist()` is written as its integer text plus `.0`, which matches Python's `repr` only for magnitudes up to 2^53, where the conversion to a float is exact.
- FloodMAR.Normalise, FloodMAR.Rescaled and FloodMAR.FloodMar require max > min, and require each surface to have data. The engine's behaviour when it divides by zero is not modelled.
- Classification.CategoricalClassification, RechargeSuitability.PrepareLayers, RechargeSuitability.RerunSkipsPreprocessing: these model the program with the two faults under "## Findings" corrected. The as-written failures, the `TypeError` of arcpy/Classification.py:75 on a non-text cell and the `TypeError` of arcpy/Preprocessing.py:54 after the gdb is created, are modelled only in Classification.CategoricalRemapAsWritten and Preprocessing.PreprocessLayersAsWritten.
- Engine.Store.CreateFileGDB is only called when the gdb is missing, so the engine's error on an existing gdb is not modelled.
- Engine.Store.ListRasters promises the listed set, not an order. The engine's order is unspecified, and the skip decision does not depend on it (`RechargeSuitability.ReorderedOrExtendedListing`).
- The code performs no validation of overlapping discrete ranges, and raises no error for an unknown layer name. The model adds neither: an unknown layer gives the empty remap.
- HydrologicConditioning.StreamsMonotone follows from the per-cell contract of `Streams` alone, so its proof is immediate.

## Findings

| source | as written | input that shows it | evidently intended | confidence | as-written member | corrected member |
|---|---|---|---|---|---|---|
| arcpy/Preprocessing.py:54 | `DEMPreProcessing(dem, f'{gdb}/Filled_SRTM', dem, extentFeat)` passes four positional arguments to a function of three parameters (arcpy/DEM_PreProcessing.py:19). Python raises `TypeError` before any output is written. Lines 94 and 104 exceed the arity of `ResampleRaster` and `FeatToRast` the same way. Line 84 also fails, but for its keyword: `CalcSlope` has no `Mask_Geom` parameter, and Python rejects the unexpected keyword before it counts the positional arguments. | any call of `PreprocessLayers` | the calls pass only the wrapped function's parameters, since the environment already holds the extent, mask and snap raster | not executed | Preprocessing.PreprocessLayersAsWritten, Preprocessing.AsWrittenBindings | Preprocessing.PreprocessLayers, Preprocessing.FixedBindings |
| arcpy/Classification.py:75 | `if " " in j` assumes every cell of the categorical table is a string. An integer class column raises `TypeError: argument of type 'int' is not iterable`. | the rows `['Early Proterozoic granite', 1]` and `['Basalt', 2]` | each token is converted with `str` before the test, as the discrete path does at line 37 | not executed; it depends on the column types the CSV is read with | Classification.CategoricalRemapAsWritten, Classification.IntegerClassesRaise | Classification.CategoricalRemap |
