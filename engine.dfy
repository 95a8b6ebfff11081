/**
 * The raster engine and its persistent store, as the model sees them.
 *
 * Engine operations (fill, flow direction, flow accumulation, thresholding,
 * stream vectorisation, line density, slope, resampling, rasterisation,
 * reclassification, rescaling) are opaque: a result is the term that names
 * the operation, its parameters and the datasets it was computed from.  Two
 * results are equal exactly when they were computed the same way from the
 * same inputs, which is what the dataflow properties need.
 *
 * The store holds file geodatabases and the datasets saved into them;
 * `Environment` holds the process-wide processing settings (`arcpy.env`).
 */
module Engine {

  /** A dataset saved as `name` inside the geodatabase at path `gdb`. */
  datatype Location = Location(gdb: string, name: string)

  /** The path string of a location, `f'{gdb}/{name}'`. */
  function PathOf(loc: Location): string {
    loc.gdb + "/" + loc.name
  }

  /** An engine result, named by how it was computed. */
  datatype Dataset =
    | Input(path: string)
    | Stored(loc: Location)
    | Filled(dem: Dataset)
    | FlowDirection(surface: Dataset, forceFlow: bool, flowType: string)
    | FlowAccumulation(direction: Dataset, flowType: string)
      /** `Con(accumulation, trueValue, NoData, "VALUE >= minimum")` */
    | Threshold(accumulation: Dataset, minimum: int, trueValue: int)
    | StreamFeatures(streams: Dataset, direction: Dataset, simplify: bool)
    | LineDensity(lines: Dataset, cellSizeOf: string, searchRadius: int, areaUnit: string)
    | SlopeOf(surface: Dataset, unit: string, technique: string)
    | Resampled(raster: Dataset, cellSizeOf: string, technique: string)
    | Rasterised(features: Dataset, valueField: string, cellSizeOf: string)
    | Reclassified(raster: Dataset, field: string, remap: string, missingToNoData: bool)
    | Rescaled(raster: Dataset, transfer: string, low: int, high: int)

  /** The datasets an engine result was computed from. */
  function Sources(d: Dataset): set<Dataset> {
    match d
    case Input(_) => {}
    case Stored(_) => {}
    case Filled(dem) => {dem}
    case FlowDirection(surface, _, _) => {surface}
    case FlowAccumulation(direction, _) => {direction}
    case Threshold(accumulation, _, _) => {accumulation}
    case StreamFeatures(streams, direction, _) => {streams, direction}
    case LineDensity(lines, _, _, _) => {lines}
    case SlopeOf(surface, _, _) => {surface}
    case Resampled(raster, _, _) => {raster}
    case Rasterised(features, _, _) => {features}
    case Reclassified(raster, _, _, _) => {raster}
    case Rescaled(raster, _, _, _) => {raster}
  }

  datatype Kind = RasterData | FeatureData

  /** A dataset written to a location, as a raster or as a feature class. */
  datatype Output = Output(loc: Location, data: Dataset, kind: Kind)

  /** The datasets of one kind after `writes`, in order, each replacing what its location held. */
  function Apply(m: map<Location, Dataset>, writes: seq<Output>, kind: Kind): map<Location, Dataset>
    decreases |writes|
  {
    if |writes| == 0 then m
    else
      var before := Apply(m, writes[..|writes| - 1], kind);
      var last := writes[|writes| - 1];
      if last.kind == kind then before[last.loc := last.data] else before
  }

  function Locations(writes: seq<Output>): (locs: seq<Location>)
    ensures |locs| == |writes| && forall k :: 0 <= k < |writes| ==> locs[k] == writes[k].loc
  {
    seq(|writes|, k requires 0 <= k < |writes| => writes[k].loc)
  }

  lemma LocationsAppend(a: seq<Output>, b: seq<Output>)
    ensures Locations(a + b) == Locations(a) + Locations(b)
  {
    var l := Locations(a + b);
    var r := Locations(a) + Locations(b);
    assert |l| == |r|;
    forall k | 0 <= k < |l| ensures l[k] == r[k] {
      if k < |a| {
        assert (a + b)[k] == a[k];
      } else {
        assert (a + b)[k] == b[k - |a|];
      }
    }
  }

  /** Writing `a` and then `b` is writing `a + b`. */
  lemma {:induction false} ApplyAppend(m: map<Location, Dataset>, a: seq<Output>, b: seq<Output>, kind: Kind)
    ensures Apply(m, a + b, kind) == Apply(Apply(m, a, kind), b, kind)
    decreases |b|
  {
    if |b| == 0 {
      assert a + b == a;
    } else {
      assert (a + b)[..|a + b| - 1] == a + b[..|b| - 1];
      ApplyAppend(m, a, b[..|b| - 1], kind);
    }
  }

  /**
   * After `writes`, a location holds the last dataset of that kind written
   * to it, and keeps its old dataset when none was.
   */
  lemma {:induction false} ApplyLast(m: map<Location, Dataset>, writes: seq<Output>, kind: Kind, loc: Location)
    ensures (exists k :: 0 <= k < |writes| && writes[k].loc == loc && writes[k].kind == kind) ==>
      loc in Apply(m, writes, kind)
    ensures (forall k :: 0 <= k < |writes| ==> writes[k].loc != loc || writes[k].kind != kind) ==>
      (loc in Apply(m, writes, kind) <==> loc in m) && (loc in m ==> Apply(m, writes, kind)[loc] == m[loc])
    decreases |writes|
  {
    if |writes| > 0 {
      var init := writes[..|writes| - 1];
      ApplyLast(m, init, kind, loc);
      if exists k :: 0 <= k < |writes| && writes[k].loc == loc && writes[k].kind == kind {
        var k :| 0 <= k < |writes| && writes[k].loc == loc && writes[k].kind == kind;
        if k < |writes| - 1 {
          assert init[k] == writes[k];
        }
      }
    }
  }

  /**
   * Every dataset an output was computed from was given to the sequence or
   * computed by an earlier output of it: each step's inputs are written
   * before the step runs.
   */
  predicate InOrder(writes: seq<Output>, given: set<Dataset>) {
    forall k, s :: 0 <= k < |writes| && s in Sources(writes[k].data) ==>
      s in given || exists j :: 0 <= j < k && writes[j].data == s
  }

  /** `arcpy.env`: the ambient settings every engine call reads. */
  class Environment {
    var workspace: string
    var overwriteOutput: bool
    var extent: string
    var mask: string
    var snapRaster: string
    var outputCoordinateSystem: int

    constructor (workspace: string)
      ensures this.workspace == workspace && !overwriteOutput
      ensures extent == "" && mask == "" && snapRaster == "" && outputCoordinateSystem == 0
    {
      this.workspace := workspace;
      overwriteOutput := false;
      extent, mask, snapRaster := "", "", "";
      outputCoordinateSystem := 0;
    }
  }

  /**
   * The file system as the scripts see it: the geodatabases that exist, the
   * rasters and feature classes saved in them, and every save in order.
   */
  class Store {
    var gdbs: set<string>
    var rasters: map<Location, Dataset>
    var features: map<Location, Dataset>
    var log: seq<Location>

    constructor ()
      ensures gdbs == {} && rasters == map[] && features == map[] && log == []
    {
      gdbs, rasters, features, log := {}, map[], map[], [];
    }

    /** `arcpy.Exists(path)` for a geodatabase path. */
    predicate Exists(path: string)
      reads this
    {
      path in gdbs
    }

    /** `CreateFileGDB(folder, name)`: the geodatabase `folder/name` exists afterwards. */
    method CreateFileGDB(folder: string, name: string)
      modifies this`gdbs
      ensures gdbs == old(gdbs) + {folder + "/" + name}
    {
      gdbs := gdbs + {folder + "/" + name};
    }

    /**
     * One output written to its location: `raster.save(path)` for a raster,
     * or a tool writing its output path; it replaces what was there.
     */
    method Save(o: Output)
      requires o.loc.gdb in gdbs
      modifies this`rasters, this`features, this`log
      ensures rasters == Apply(old(rasters), [o], RasterData)
      ensures features == Apply(old(features), [o], FeatureData)
      ensures log == old(log) + [o.loc]
    {
      if o.kind == RasterData {
        rasters := rasters[o.loc := o.data];
      } else {
        features := features[o.loc := o.data];
      }
      log := log + [o.loc];
    }

    /**
     * `arcpy.ListRasters()` with the workspace set to `gdb`: the names of the
     * rasters saved in it, each once, in an order the engine does not specify.
     */
    method ListRasters(gdb: string) returns (names: seq<string>)
      ensures forall n :: n in names <==> Location(gdb, n) in rasters
    {
      var remaining := set loc | loc in rasters && loc.gdb == gdb :: loc.name;
      ghost var all := remaining;
      names := [];
      while remaining != {}
        invariant remaining <= all
        invariant forall n :: n in names <==> n in all - remaining
        decreases remaining
      {
        var n :| n in remaining;
        names := names + [n];
        remaining := remaining - {n};
      }
      assert forall n :: n in all <==> Location(gdb, n) in rasters by {
        forall n | Location(gdb, n) in rasters ensures n in all {
          assert Location(gdb, n).gdb == gdb;
        }
      }
    }
  }
}
