/**
 * Layer preprocessing: the processing environment, the preprocessing
 * geodatabase, and the fixed sequence of steps that fill the elevation
 * surface, condition it, and derive the drainage density, slope,
 * precipitation and lithology layers, each written under a fixed name.
 *
 * The steps are called through small wrapper functions; how Python binds a
 * call's arguments to a wrapper's parameters decides whether the call runs
 * at all, so that binding is modelled too.
 */
module Preprocessing {
  import opened Wrappers
  import opened Engine
  import opened HydrologicConditioning

  // ----- Binding a call's arguments to a Python function's parameters -----

  /** A Python function's name and positional-or-keyword parameters; the last `defaults` of them have defaults. */
  datatype Signature = Signature(name: string, params: seq<string>, defaults: nat)

  /** A call: how many positional arguments, then the keyword arguments' names in call order. */
  datatype CallShape = CallShape(positional: nat, keywords: seq<string>)

  /** The `TypeError` a call raises before the function body runs. */
  datatype BindError =
    | UnexpectedKeyword(callee: string, keyword: string)
    | MultipleValues(callee: string, parameter: string)
    | TooManyPositional(callee: string, accepted: nat, given: nat)
    | MissingArguments(callee: string, missing: seq<string>)

  predicate ValidSignature(sig: Signature) {
    sig.defaults <= |sig.params|
  }

  function Min(a: nat, b: nat): nat {
    if a <= b then a else b
  }

  /** The parameters the positional arguments fill. */
  function PositionalParams(sig: Signature, call: CallShape): seq<string> {
    sig.params[..Min(call.positional, |sig.params|)]
  }

  /** A keyword argument that names a parameter no earlier argument has filled. */
  predicate KeywordFits(sig: Signature, call: CallShape, j: nat)
    requires j < |call.keywords|
  {
    call.keywords[j] in sig.params && call.keywords[j] !in PositionalParams(sig, call)
    && call.keywords[j] !in call.keywords[..j]
  }

  /**
   * The first keyword argument, from the `k`-th on, that names no parameter
   * or a parameter already filled.
   */
  function KeywordError(sig: Signature, call: CallShape, k: nat): (e: Option<BindError>)
    requires k <= |call.keywords|
    ensures e.None? <==> forall j :: k <= j < |call.keywords| ==> KeywordFits(sig, call, j)
    decreases |call.keywords| - k
  {
    if k == |call.keywords| then None
    else
      var kw := call.keywords[k];
      if kw !in sig.params then
        assert !KeywordFits(sig, call, k);
        Some(UnexpectedKeyword(sig.name, kw))
      else if kw in PositionalParams(sig, call) || kw in call.keywords[..k] then
        assert !KeywordFits(sig, call, k);
        Some(MultipleValues(sig.name, kw))
      else KeywordError(sig, call, k + 1)
  }

  /** The parameters without a default, from the `i`-th on, that no argument fills. */
  function MissingFrom(sig: Signature, call: CallShape, i: nat): (missing: seq<string>)
    requires ValidSignature(sig) && i <= |sig.params| - sig.defaults
    ensures |missing| == 0 <==>
      forall j :: i <= j < |sig.params| - sig.defaults && j >= call.positional ==> sig.params[j] in call.keywords
    decreases |sig.params| - sig.defaults - i
  {
    if i == |sig.params| - sig.defaults then []
    else
      (if i >= call.positional && sig.params[i] !in call.keywords then [sig.params[i]] else [])
      + MissingFrom(sig, call, i + 1)
  }

  /**
   * Binding as CPython does it: keyword arguments are checked first, then
   * the count of positional arguments, then the parameters left unfilled.
   * `None` means the call binds and the body runs.
   */
  function Bind(sig: Signature, call: CallShape): Option<BindError>
    requires ValidSignature(sig)
  {
    var keywordError := KeywordError(sig, call, 0);
    if keywordError.Some? then keywordError
    else if call.positional > |sig.params| then Some(TooManyPositional(sig.name, |sig.params|, call.positional))
    else
      var missing := MissingFrom(sig, call, 0);
      if |missing| > 0 then Some(MissingArguments(sig.name, missing)) else None
  }

  /**
   * A call binds exactly when it passes no more positional arguments than
   * there are parameters, every keyword names a parameter nothing else
   * filled, and every parameter without a default is filled.
   */
  lemma BindIff(sig: Signature, call: CallShape)
    requires ValidSignature(sig)
    ensures Bind(sig, call).None? <==>
      call.positional <= |sig.params|
      && (forall j :: 0 <= j < |call.keywords| ==> KeywordFits(sig, call, j))
      && (forall i :: call.positional <= i < |sig.params| - sig.defaults ==> sig.params[i] in call.keywords)
  {
    var missing := MissingFrom(sig, call, 0);
  }

  // ----- The wrappers' signatures and the calls made to them -----

  const DemSignature := Signature("DEMPreProcessing", ["DEM", "Filled_DEM", "Z_limit"], 1)
  const ConditioningSignature :=
    Signature("HydrologicConditioning", ["Filled_DEM", "FlowDir", "FlowAcc", "StreamsRast", "StreamsFeat"], 0)
  const DrainageSignature := Signature("DrainageDensity", ["Streams", "Drain_Density", "Snap_Raster", "Mask_Geom"], 0)
  const SlopeSignature := Signature("CalcSlope", ["DEM", "Slope"], 0)
  const ResampleSignature := Signature("ResampleRaster", ["Raster", "Output", "Snap_Raster"], 0)
  const RasteriseSignature := Signature("FeatToRast", ["Feat", "Value_Field", "Output", "Snap_Raster"], 0)

  /** `DEMPreProcessing(dem, f'{gdb}/Filled_SRTM', dem, extentFeat)` */
  const FillCall := CallShape(4, [])
  /** `HydrologicConditioning(filledDEM, ...four paths...)` */
  const ConditioningCall := CallShape(5, [])
  /** `DrainageDensity(streams, path, dem, Mask_Geom=extentFeat)` */
  const DrainageCall := CallShape(3, ["Mask_Geom"])
  /** `CalcSlope(filledDEM, path, dem, Mask_Geom=extentFeat)` */
  const SlopeCall := CallShape(3, ["Mask_Geom"])
  /** `ResampleRaster(precipitation, path, dem, extentFeat)` */
  const ResampleCall := CallShape(4, [])
  /** `FeatToRast(lithology, "UNIT_NAME", path, dem, extentFeat)` */
  const RasteriseCall := CallShape(5, [])

  /** The calls without the arguments the wrappers do not take. */
  const FixedFillCall := CallShape(2, [])
  const FixedSlopeCall := CallShape(2, [])
  const FixedResampleCall := CallShape(3, [])
  const FixedRasteriseCall := CallShape(4, [])

  /**
   * As written, the first step already raises: four positional arguments for
   * three parameters.  The slope call would raise for its keyword, and the
   * precipitation and lithology calls for one positional argument too many;
   * the conditioning and drainage calls bind.
   */
  lemma AsWrittenBindings()
    ensures Bind(DemSignature, FillCall) == Some(TooManyPositional("DEMPreProcessing", 3, 4))
    ensures Bind(ConditioningSignature, ConditioningCall) == None
    ensures Bind(DrainageSignature, DrainageCall) == None
    ensures Bind(SlopeSignature, SlopeCall) == Some(UnexpectedKeyword("CalcSlope", "Mask_Geom"))
    ensures Bind(ResampleSignature, ResampleCall) == Some(TooManyPositional("ResampleRaster", 3, 4))
    ensures Bind(RasteriseSignature, RasteriseCall) == Some(TooManyPositional("FeatToRast", 4, 5))
  {
    assert "Mask_Geom" !in SlopeSignature.params;
    assert DrainageSignature.params[3] == "Mask_Geom";
    assert "Mask_Geom" !in PositionalParams(DrainageSignature, DrainageCall);
  }

  /** Without the extra arguments every call binds. */
  lemma FixedBindings()
    ensures Bind(DemSignature, FixedFillCall) == None
    ensures Bind(SlopeSignature, FixedSlopeCall) == None
    ensures Bind(ResampleSignature, FixedResampleCall) == None
    ensures Bind(RasteriseSignature, FixedRasteriseCall) == None
  {
  }

  // ----- The wrapped engine steps -----

  const FillName := "Filled_SRTM"
  const FlowDirectionName := "Flow_Direction"
  const FlowAccumulationName := "Flow_Accumulation"
  const StreamsRasterName := "Streams_Raster"
  const StreamFeaturesName := "Stream_Features"
  const DrainageName := "Drainage_Density"
  const SlopeName := "Slope"
  const PrecipitationName := "Precipitation"
  const LithologyName := "Lithology"

  const PreprocessingGdbName := "LayerPreprocessing.gdb"

  /** WGS 1984 UTM zone 12N. */
  const Utm12N := 32612

  /** `DEMPreProcessing(DEM, Filled_DEM)`: the filled surface, saved. */
  method DemPreprocessing(env: Environment, store: Store, dem: Dataset, filledDem: Location)
    returns (outFill: Dataset)
    requires filledDem.gdb in store.gdbs
    modifies env`overwriteOutput, store`rasters, store`features, store`log
    ensures env.overwriteOutput && outFill == Filled(dem)
    ensures store.rasters == Apply(old(store.rasters), [Output(filledDem, outFill, RasterData)], RasterData)
    ensures store.features == old(store.features)
    ensures store.log == old(store.log) + [filledDem]
  {
    env.overwriteOutput := true;
    outFill := Filled(dem);
    store.Save(Output(filledDem, outFill, RasterData));
  }

  /**
   * `DrainageDensity(Streams, Drain_Density, Snap_Raster, Mask_Geom)`: the
   * extent, mask and snap raster set (and left set), then the line density
   * of the streams within 1000 map units, per square kilometre, saved.
   */
  method DrainageDensity(env: Environment, store: Store, streams: Dataset, drainDensity: Location,
                         snapRaster: string, maskGeom: string)
    returns (outDensity: Dataset)
    requires drainDensity.gdb in store.gdbs
    modifies env`overwriteOutput, env`extent, env`mask, env`snapRaster, store`rasters, store`features, store`log
    ensures env.overwriteOutput && env.extent == maskGeom && env.mask == maskGeom && env.snapRaster == snapRaster
    ensures outDensity == LineDensity(streams, snapRaster, 1000, "SQUARE_KILOMETERS")
    ensures store.rasters == Apply(old(store.rasters), [Output(drainDensity, outDensity, RasterData)], RasterData)
    ensures store.features == old(store.features)
    ensures store.log == old(store.log) + [drainDensity]
  {
    env.overwriteOutput := true;
    env.extent := maskGeom;
    env.mask := maskGeom;
    env.snapRaster := snapRaster;
    outDensity := LineDensity(streams, snapRaster, 1000, "SQUARE_KILOMETERS");
    store.Save(Output(drainDensity, outDensity, RasterData));
  }

  /** `CalcSlope(DEM, Slope)`: the planar slope in degrees, saved. */
  method CalcSlope(env: Environment, store: Store, dem: Dataset, slope: Location) returns (outSlope: Dataset)
    requires slope.gdb in store.gdbs
    modifies env`overwriteOutput, store`rasters, store`features, store`log
    ensures env.overwriteOutput && outSlope == SlopeOf(dem, "DEGREE", "PLANAR")
    ensures store.rasters == Apply(old(store.rasters), [Output(slope, outSlope, RasterData)], RasterData)
    ensures store.features == old(store.features)
    ensures store.log == old(store.log) + [slope]
  {
    env.overwriteOutput := true;
    outSlope := SlopeOf(dem, "DEGREE", "PLANAR");
    store.Save(Output(slope, outSlope, RasterData));
  }

  /** `ResampleRaster(Raster, Output, Snap_Raster)`: bilinear resampling to the snap raster's cell size. */
  method ResampleRaster(env: Environment, store: Store, raster: Dataset, output: Location, snapRaster: string)
    returns (outRaster: Dataset)
    requires output.gdb in store.gdbs
    modifies env`overwriteOutput, env`snapRaster, store`rasters, store`features, store`log
    ensures env.overwriteOutput && env.snapRaster == snapRaster
    ensures outRaster == Resampled(raster, snapRaster, "BILINEAR")
    ensures store.rasters == Apply(old(store.rasters), [Output(output, outRaster, RasterData)], RasterData)
    ensures store.features == old(store.features)
    ensures store.log == old(store.log) + [output]
  {
    env.overwriteOutput := true;
    env.snapRaster := snapRaster;
    outRaster := Resampled(raster, snapRaster, "BILINEAR");
    store.Save(Output(output, outRaster, RasterData));
  }

  /** `FeatToRast(Feat, Value_Field, Output, Snap_Raster)`: the features rasterised on a field at the snap raster's cell size. */
  method FeatToRast(env: Environment, store: Store, feat: Dataset, valueField: string, output: Location,
                    snapRaster: string)
    returns (outRaster: Dataset)
    requires output.gdb in store.gdbs
    modifies env`overwriteOutput, env`snapRaster, store`rasters, store`features, store`log
    ensures env.overwriteOutput && env.snapRaster == snapRaster
    ensures outRaster == Rasterised(feat, valueField, snapRaster)
    ensures store.rasters == Apply(old(store.rasters), [Output(output, outRaster, RasterData)], RasterData)
    ensures store.features == old(store.features)
    ensures store.log == old(store.log) + [output]
  {
    env.overwriteOutput := true;
    env.snapRaster := snapRaster;
    outRaster := Rasterised(feat, valueField, snapRaster);
    store.Save(Output(output, outRaster, RasterData));
  }

  // ----- The orchestration -----

  function PreprocessingGdb(workspace: string): string {
    workspace + "/" + PreprocessingGdbName
  }

  /**
   * Everything a completed run writes, in order: the filled surface, the
   * four conditioning results, then drainage density, slope, precipitation
   * and lithology, all under the preprocessing geodatabase.
   */
  function PreprocessWrites(workspace: string, dem: string, precipitation: string, lithology: string): seq<Output> {
    Writes(PreprocessingGdb(workspace), dem, precipitation, lithology)
  }

  /** The names a completed run writes, in the order it writes them. */
  lemma PreprocessNames(workspace: string, dem: string, precipitation: string, lithology: string)
    ensures var gdb := PreprocessingGdb(workspace);
      Locations(PreprocessWrites(workspace, dem, precipitation, lithology))
      == [Location(gdb, "Filled_SRTM"), Location(gdb, "Flow_Direction"), Location(gdb, "Flow_Accumulation"),
          Location(gdb, "Streams_Raster"), Location(gdb, "Stream_Features"), Location(gdb, "Drainage_Density"),
          Location(gdb, "Slope"), Location(gdb, "Precipitation"), Location(gdb, "Lithology")]
    ensures forall k :: 0 <= k < 9 ==>
      (PreprocessWrites(workspace, dem, precipitation, lithology)[k].kind == FeatureData <==> k == 4)
  {
  }

  /**
   * Each step consumes only the three inputs or an earlier step's result:
   * conditioning and slope read the filled surface, drainage density reads
   * the stream features, and the raw elevation enters only through the fill.
   */
  lemma PreprocessDataflow(workspace: string, dem: string, precipitation: string, lithology: string)
    ensures InOrder(PreprocessWrites(workspace, dem, precipitation, lithology),
                    {Input(dem), Input(precipitation), Input(lithology)})
    ensures var w := PreprocessWrites(workspace, dem, precipitation, lithology);
      Sources(w[1].data) == {w[0].data} && Sources(w[6].data) == {w[0].data}
      && Sources(w[5].data) == {w[4].data} && w[0].data == Filled(Input(dem))
    ensures precipitation != dem && lithology != dem ==>
      var w := PreprocessWrites(workspace, dem, precipitation, lithology);
      forall k :: 0 <= k < |w| && Input(dem) in Sources(w[k].data) ==> k == 0
  {
    var w := PreprocessWrites(workspace, dem, precipitation, lithology);
    var given := {Input(dem), Input(precipitation), Input(lithology)};
    var c := w[1..5];
    ConditioningDataflow(w[0].data, w[1].loc, w[2].loc, w[3].loc, w[4].loc);
    forall k, s | 0 <= k < |w| && s in Sources(w[k].data)
      ensures s in given || exists j :: 0 <= j < k && w[j].data == s
    {
      if k == 0 {
        assert s == Input(dem);
      } else if k == 1 {
        assert w[0].data == s;
      } else if k == 2 {
        assert w[1].data == s;
      } else if k == 3 {
        assert w[2].data == s;
      } else if k == 4 {
        if s == w[3].data {
          assert w[3].data == s;
        } else {
          assert w[1].data == s;
        }
      } else if k == 5 {
        assert w[4].data == s;
      } else if k == 6 {
        assert w[0].data == s;
      }
    }
  }

  /**
   * The environment and the geodatabase: workspace, overwriting, extent,
   * mask, snap raster and coordinate system set from the arguments, and
   * the preprocessing geodatabase created only when it is missing.
   */
  method SetUp(env: Environment, store: Store, workspace: string, extentFeat: string, dem: string)
    returns (gdb: string, created: bool)
    modifies env`workspace, env`overwriteOutput, env`extent, env`mask, env`snapRaster, env`outputCoordinateSystem
    modifies store`gdbs
    ensures gdb == PreprocessingGdb(workspace)
    ensures env.workspace == workspace && env.overwriteOutput && env.extent == extentFeat
    ensures env.mask == extentFeat && env.snapRaster == dem && env.outputCoordinateSystem == Utm12N
    ensures created <==> gdb !in old(store.gdbs)
    ensures store.gdbs == old(store.gdbs) + {gdb}
  {
    env.workspace := workspace;
    env.overwriteOutput := true;
    env.extent := extentFeat;
    env.mask := extentFeat;
    env.snapRaster := dem;
    gdb := workspace + "/" + PreprocessingGdbName;
    env.outputCoordinateSystem := Utm12N;
    if store.Exists(gdb) {
      created := false;
    } else {
      store.CreateFileGDB(workspace, PreprocessingGdbName);
      created := true;
    }
  }

  /**
   * `PreprocessLayers` as written: after the set-up, the call to the
   * three-parameter `DEMPreProcessing` with four positional arguments
   * raises, so nothing is written.
   */
  method PreprocessLayersAsWritten(env: Environment, store: Store, workspace: string, extentFeat: string,
                                   dem: string, precipitation: string, lithology: string)
    returns (r: Result<(), BindError>)
    modifies env`workspace, env`overwriteOutput, env`extent, env`mask, env`snapRaster, env`outputCoordinateSystem
    modifies store`gdbs
    ensures r == Failure(TooManyPositional("DEMPreProcessing", 3, 4))
    ensures store.gdbs == old(store.gdbs) + {PreprocessingGdb(workspace)}
    ensures env.workspace == workspace && env.extent == extentFeat && env.mask == extentFeat && env.snapRaster == dem
  {
    var gdb, created := SetUp(env, store, workspace, extentFeat, dem);
    AsWrittenBindings();
    var bound := Bind(DemSignature, FillCall);
    r := Failure(bound.value);
  }

  /**
   * `PreprocessLayers` with each wrapper called with the arguments it
   * takes: the set-up, then the nine outputs written in order.  The
   * environment ends with the extent and mask set to `extentFeat` and the
   * snap raster to `dem`, which the drainage and resampling steps set again.
   */
  method PreprocessLayers(env: Environment, store: Store, workspace: string, extentFeat: string,
                          dem: string, precipitation: string, lithology: string)
    modifies env`workspace, env`overwriteOutput, env`extent, env`mask, env`snapRaster, env`outputCoordinateSystem
    modifies store`gdbs, store`rasters, store`features, store`log
    ensures env.workspace == workspace && env.overwriteOutput && env.extent == extentFeat
    ensures env.mask == extentFeat && env.snapRaster == dem && env.outputCoordinateSystem == Utm12N
    ensures store.gdbs == old(store.gdbs) + {PreprocessingGdb(workspace)}
    ensures var w := PreprocessWrites(workspace, dem, precipitation, lithology);
      && store.rasters == Apply(old(store.rasters), w, RasterData)
      && store.features == Apply(old(store.features), w, FeatureData)
      && store.log == old(store.log) + Locations(w)
  {
    var gdb, created := SetUp(env, store, workspace, extentFeat, dem);
    FixedBindings();
    RunSteps(env, store, gdb, extentFeat, dem, precipitation, lithology);
  }

  /** The nine steps of a run, into the geodatabase `gdb` that the set-up made sure exists. */
  method RunSteps(env: Environment, store: Store, gdb: string, extentFeat: string,
                  dem: string, precipitation: string, lithology: string)
    requires gdb in store.gdbs
    modifies env`overwriteOutput, env`extent, env`mask, env`snapRaster
    modifies store`rasters, store`features, store`log
    ensures env.overwriteOutput && env.extent == extentFeat && env.mask == extentFeat && env.snapRaster == dem
    ensures var w := Writes(gdb, dem, precipitation, lithology);
      && store.rasters == Apply(old(store.rasters), w, RasterData)
      && store.features == Apply(old(store.features), w, FeatureData)
      && store.log == old(store.log) + Locations(w)
  {
    ghost var rasters0, features0, log0 := store.rasters, store.features, store.log;
    var filledDem, streams := RunSurfaceSteps(env, store, gdb, dem);
    ghost var done := SurfaceWrites(gdb, dem);
    ghost var next := LayerWrites(gdb, dem, precipitation, lithology, filledDem, streams);
    RunLayerSteps(env, store, gdb, extentFeat, dem, precipitation, lithology, filledDem, streams);
    Progress(rasters0, features0, log0, done, next);
  }

  /** The fill and the conditioning: what every later step reads. */
  function SurfaceWrites(gdb: string, dem: string): (w: seq<Output>)
    ensures |w| == 5
  {
    [Output(Location(gdb, FillName), Filled(Input(dem)), RasterData)]
    + ConditioningWrites(Filled(Input(dem)), Location(gdb, FlowDirectionName), Location(gdb, FlowAccumulationName),
                         Location(gdb, StreamsRasterName), Location(gdb, StreamFeaturesName))
  }

  /** The four layers derived from the filled surface `filled` and the stream features `streams`. */
  function LayerWrites(gdb: string, dem: string, precipitation: string, lithology: string,
                       filled: Dataset, streams: Dataset): seq<Output>
  {
    [Output(Location(gdb, DrainageName), LineDensity(streams, dem, 1000, "SQUARE_KILOMETERS"), RasterData),
     Output(Location(gdb, SlopeName), SlopeOf(filled, "DEGREE", "PLANAR"), RasterData),
     Output(Location(gdb, PrecipitationName), Resampled(Input(precipitation), dem, "BILINEAR"), RasterData),
     Output(Location(gdb, LithologyName), Rasterised(Input(lithology), "UNIT_NAME", dem), RasterData)]
  }

  /** `PreprocessWrites` with the geodatabase path given. */
  function Writes(gdb: string, dem: string, precipitation: string, lithology: string): seq<Output> {
    var surface := SurfaceWrites(gdb, dem);
    surface + LayerWrites(gdb, dem, precipitation, lithology, surface[0].data, surface[4].data)
  }

  /** Fill, then condition the filled surface; the filled surface and the stream features are handed on. */
  method RunSurfaceSteps(env: Environment, store: Store, gdb: string, dem: string)
    returns (filledDem: Dataset, streams: Dataset)
    requires gdb in store.gdbs
    modifies env`overwriteOutput, store`rasters, store`features, store`log
    ensures env.overwriteOutput
    ensures var w := SurfaceWrites(gdb, dem);
      && filledDem == w[0].data && streams == w[4].data
      && store.rasters == Apply(old(store.rasters), w, RasterData)
      && store.features == Apply(old(store.features), w, FeatureData)
      && store.log == old(store.log) + Locations(w)
  {
    ghost var rasters0, features0, log0 := store.rasters, store.features, store.log;
    filledDem := DemPreprocessing(env, store, Input(dem), Location(gdb, FillName));
    ghost var done := [Output(Location(gdb, FillName), filledDem, RasterData)];
    streams := HydrologicConditioning.HydrologicConditioning(env, store, filledDem,
      Location(gdb, FlowDirectionName), Location(gdb, FlowAccumulationName),
      Location(gdb, StreamsRasterName), Location(gdb, StreamFeaturesName));
    ghost var conditioning := ConditioningWrites(filledDem, Location(gdb, FlowDirectionName),
      Location(gdb, FlowAccumulationName), Location(gdb, StreamsRasterName), Location(gdb, StreamFeaturesName));
    Progress(rasters0, features0, log0, done, conditioning);
  }

  /** Drainage density, slope, precipitation and lithology, in that order. */
  method RunLayerSteps(env: Environment, store: Store, gdb: string, extentFeat: string, dem: string,
                       precipitation: string, lithology: string, filledDem: Dataset, streams: Dataset)
    requires gdb in store.gdbs
    modifies env`overwriteOutput, env`extent, env`mask, env`snapRaster
    modifies store`rasters, store`features, store`log
    ensures env.overwriteOutput && env.extent == extentFeat && env.mask == extentFeat && env.snapRaster == dem
    ensures var w := LayerWrites(gdb, dem, precipitation, lithology, filledDem, streams);
      && store.rasters == Apply(old(store.rasters), w, RasterData)
      && store.features == Apply(old(store.features), w, FeatureData)
      && store.log == old(store.log) + Locations(w)
  {
    ghost var rasters0, features0, log0 := store.rasters, store.features, store.log;
    var drainage := DrainageDensity(env, store, streams, Location(gdb, DrainageName), dem, extentFeat);
    ghost var done := [Output(Location(gdb, DrainageName), drainage, RasterData)];
    var slope := CalcSlope(env, store, filledDem, Location(gdb, SlopeName));
    Progress(rasters0, features0, log0, done, [Output(Location(gdb, SlopeName), slope, RasterData)]);
    done := done + [Output(Location(gdb, SlopeName), slope, RasterData)];
    var precip := ResampleRaster(env, store, Input(precipitation), Location(gdb, PrecipitationName), dem);
    Progress(rasters0, features0, log0, done, [Output(Location(gdb, PrecipitationName), precip, RasterData)]);
    done := done + [Output(Location(gdb, PrecipitationName), precip, RasterData)];
    var litho := FeatToRast(env, store, Input(lithology), "UNIT_NAME", Location(gdb, LithologyName), dem);
    Progress(rasters0, features0, log0, done, [Output(Location(gdb, LithologyName), litho, RasterData)]);
    done := done + [Output(Location(gdb, LithologyName), litho, RasterData)];
    assert done == LayerWrites(gdb, dem, precipitation, lithology, filledDem, streams);
  }

  /** Writing `done` and then `next` leaves the store as writing `done + next` does. */
  lemma Progress(rasters0: map<Location, Dataset>, features0: map<Location, Dataset>, log0: seq<Location>,
                 done: seq<Output>, next: seq<Output>)
    ensures Apply(Apply(rasters0, done, RasterData), next, RasterData) == Apply(rasters0, done + next, RasterData)
    ensures Apply(Apply(features0, done, FeatureData), next, FeatureData) == Apply(features0, done + next, FeatureData)
    ensures log0 + Locations(done) + Locations(next) == log0 + Locations(done + next)
  {
    ApplyAppend(rasters0, done, next, RasterData);
    ApplyAppend(features0, done, next, FeatureData);
    LocationsAppend(done, next);
  }
}
