/**
 * The recharge suitability driver: whether the layer preprocessing must
 * run, the layer paths it hands on, the layer weights read from the weight
 * table, and the weighted overlay of the classified layers.
 */
module RechargeSuitability {
  import opened Wrappers
  import opened Engine
  import Preprocessing

  // ----- The cache-skip test -----

  /** The rasters whose presence makes preprocessing unnecessary. */
  const RequiredRasters: seq<string> := ["Filled_SRTM", "Drainage_Density", "Slope", "Precipitation", "Lithology"]

  /** `all(items in listing for items in required)`, stopping at the first name not listed. */
  function AllIn(required: seq<string>, listing: seq<string>): (b: bool)
    ensures b <==> forall i :: 0 <= i < |required| ==> required[i] in listing
    decreases |required|
  {
    if |required| == 0 then true
    else if required[0] !in listing then false
    else AllIn(required[1..], listing)
  }

  /** Preprocessing is skipped when its geodatabase exists and every required raster is listed in it. */
  function SkipPreprocessing(gdbExists: bool, listing: seq<string>): bool {
    gdbExists && AllIn(RequiredRasters, listing)
  }

  /** The test, name by name: any one of the five missing, or the geodatabase missing, forces a run. */
  lemma SkipIff(gdbExists: bool, listing: seq<string>)
    ensures SkipPreprocessing(gdbExists, listing) <==>
      gdbExists && "Filled_SRTM" in listing && "Drainage_Density" in listing && "Slope" in listing
      && "Precipitation" in listing && "Lithology" in listing
  {
    assert RequiredRasters[0] == "Filled_SRTM" && RequiredRasters[1] == "Drainage_Density";
    assert RequiredRasters[2] == "Slope" && RequiredRasters[3] == "Precipitation" && RequiredRasters[4] == "Lithology";
  }

  /** Only which required names are listed matters: not the order of the listing, nor other rasters in it. */
  lemma ListingOnlyMattersForRequired(gdbExists: bool, listing: seq<string>, other: seq<string>)
    requires forall n :: n in RequiredRasters ==> (n in listing <==> n in other)
    ensures SkipPreprocessing(gdbExists, listing) == SkipPreprocessing(gdbExists, other)
  {
  }

  /** Reordering the listing or adding rasters to it keeps a skip a skip. */
  lemma ReorderedOrExtendedListing(gdbExists: bool, listing: seq<string>, reordered: seq<string>, extra: seq<string>)
    requires multiset(listing) == multiset(reordered)
    ensures SkipPreprocessing(gdbExists, listing) == SkipPreprocessing(gdbExists, reordered)
    ensures SkipPreprocessing(gdbExists, listing) ==> SkipPreprocessing(gdbExists, listing + extra)
  {
    forall n | n in RequiredRasters ensures n in listing <==> n in reordered {
      assert n in listing <==> n in multiset(listing);
      assert n in reordered <==> n in multiset(reordered);
    }
    ListingOnlyMattersForRequired(gdbExists, listing, reordered);
  }

  /** The cache at `gdb` is complete when all five required rasters are saved in it. */
  predicate CacheComplete(rasters: map<Location, Dataset>, gdb: string) {
    forall n :: n in RequiredRasters ==> Location(gdb, n) in rasters
  }

  /** A completed preprocessing run leaves the cache complete, whatever the geodatabase held before. */
  lemma CompletedRunFillsCache(m: map<Location, Dataset>, ws: string, dem: string, precipitation: string,
                               lithology: string)
    ensures CacheComplete(Apply(m, Preprocessing.PreprocessWrites(ws, dem, precipitation, lithology), RasterData),
                          Preprocessing.PreprocessingGdb(ws))
  {
    var gdb := Preprocessing.PreprocessingGdb(ws);
    var w := Preprocessing.PreprocessWrites(ws, dem, precipitation, lithology);
    Preprocessing.PreprocessNames(ws, dem, precipitation, lithology);
    var at := [0, 5, 6, 7, 8];
    forall i | 0 <= i < 5 ensures Location(gdb, RequiredRasters[i]) in Apply(m, w, RasterData) {
      var k := at[i];
      assert w[k].loc == Location(gdb, RequiredRasters[i]) && w[k].kind == RasterData;
      ApplyLast(m, w, RasterData, Location(gdb, RequiredRasters[i]));
    }
  }

  /** Any listing of a complete cache makes the next run skip preprocessing. */
  lemma CompleteCacheSkips(rasters: map<Location, Dataset>, gdb: string, listing: seq<string>)
    requires CacheComplete(rasters, gdb)
    requires forall n :: n in listing <==> Location(gdb, n) in rasters
    ensures SkipPreprocessing(true, listing)
  {
  }

  /**
   * Lines 69-106: with the workspace at `ws`, look for the preprocessing
   * geodatabase; when it exists, list its rasters and skip when all five
   * are there; otherwise run `PreprocessLayers` once with every argument.
   * Then the five layer paths are formed under that geodatabase and the
   * workspace is set back to `ws`.
   */
  method PrepareLayers(env: Environment, store: Store, ws: string, extentFeat: string,
                       dem: string, precipitation: string, lithology: string)
    returns (ran: bool, filledDem: string, slope: string, drainage: string, precip: string, litho: string)
    requires env.workspace == ws
    modifies env`workspace, env`overwriteOutput, env`extent, env`mask, env`snapRaster, env`outputCoordinateSystem
    modifies store`gdbs, store`rasters, store`features, store`log
    ensures var gdb := Preprocessing.PreprocessingGdb(ws);
      ran <==> !(gdb in old(store.gdbs) && CacheComplete(old(store.rasters), gdb))
    ensures var w := Preprocessing.PreprocessWrites(ws, dem, precipitation, lithology);
      if ran then
        && store.rasters == Apply(old(store.rasters), w, RasterData)
        && store.features == Apply(old(store.features), w, FeatureData)
        && store.log == old(store.log) + Locations(w)
      else
        store.rasters == old(store.rasters) && store.features == old(store.features) && store.log == old(store.log)
    ensures ran ==> store.gdbs == old(store.gdbs) + {Preprocessing.PreprocessingGdb(ws)}
    ensures !ran ==> store.gdbs == old(store.gdbs)
    ensures Preprocessing.PreprocessingGdb(ws) in store.gdbs
    ensures CacheComplete(store.rasters, Preprocessing.PreprocessingGdb(ws))
    ensures env.workspace == ws
    ensures var gdb := Preprocessing.PreprocessingGdb(ws);
      filledDem == gdb + "/Filled_SRTM" && slope == gdb + "/Slope" && drainage == gdb + "/Drainage_Density"
      && precip == gdb + "/Precipitation" && litho == gdb + "/Lithology"
  {
    ghost var gdb := Preprocessing.PreprocessingGdb(ws);
    ghost var rasters0 := store.rasters;
    if store.Exists(env.workspace + "/" + Preprocessing.PreprocessingGdbName) {
      env.workspace := ws + "/" + Preprocessing.PreprocessingGdbName;
      var listing := store.ListRasters(env.workspace);
      if AllIn(RequiredRasters, listing) {
        ran := false;
      } else {
        Preprocessing.PreprocessLayers(env, store, ws, extentFeat, dem, precipitation, lithology);
        ran := true;
      }
    } else {
      Preprocessing.PreprocessLayers(env, store, ws, extentFeat, dem, precipitation, lithology);
      ran := true;
    }
    if ran {
      CompletedRunFillsCache(rasters0, ws, dem, precipitation, lithology);
    }
    env.workspace := ws + "/" + Preprocessing.PreprocessingGdbName;
    filledDem := env.workspace + "/Filled_SRTM";
    slope := env.workspace + "/Slope";
    drainage := env.workspace + "/Drainage_Density";
    precip := env.workspace + "/Precipitation";
    litho := env.workspace + "/Lithology";
    env.workspace := ws;
  }

  /** Running the script twice: the second time the cache left by the first is found and nothing runs. */
  method RerunSkipsPreprocessing(env: Environment, store: Store, ws: string, extentFeat: string,
                                 dem: string, precipitation: string, lithology: string)
    returns (ranAgain: bool)
    requires env.workspace == ws
    modifies env`workspace, env`overwriteOutput, env`extent, env`mask, env`snapRaster, env`outputCoordinateSystem
    modifies store`gdbs, store`rasters, store`features, store`log
    ensures !ranAgain
  {
    var ran, a, b, c, d, e := PrepareLayers(env, store, ws, extentFeat, dem, precipitation, lithology);
    ranAgain, a, b, c, d, e := PrepareLayers(env, store, ws, extentFeat, dem, precipitation, lithology);
  }

  // ----- The layer weights -----

  /** One row of the layer weight table. */
  datatype WeightRow = WeightRow(layer: string, floodingWeight: real, rechargeWeight: real)

  /** `.values[0]` on an empty selection raises `IndexError`. */
  datatype LookupError = NoRowFor(layer: string)

  /** Row `i` is the first row of `layer`. */
  predicate FirstRow(table: seq<WeightRow>, layer: string, i: int) {
    0 <= i < |table| && table[i].layer == layer && forall j :: 0 <= j < i ==> table[j].layer != layer
  }

  /** `table[table['layer'] == layer]['rechargeWeight'].values[0]` */
  function RechargeWeight(table: seq<WeightRow>, layer: string): (r: Result<real, LookupError>)
    ensures r.Success? <==> exists i :: 0 <= i < |table| && table[i].layer == layer
    ensures r.Success? ==> exists i :: FirstRow(table, layer, i) && r.value == table[i].rechargeWeight
    ensures r.Failure? ==> r.error == NoRowFor(layer)
    decreases |table|
  {
    if |table| == 0 then Failure(NoRowFor(layer))
    else if table[0].layer == layer then Success(table[0].rechargeWeight)
    else
      var rest := RechargeWeight(table[1..], layer);
      if rest.Success? then
        ghost var i :| FirstRow(table[1..], layer, i) && rest.value == table[1..][i].rechargeWeight;
        assert FirstRow(table, layer, i + 1) by {
          forall j | 0 <= j < i + 1 ensures table[j].layer != layer {
            if j > 0 {
              assert table[j] == table[1..][j - 1];
            }
          }
        }
        rest
      else
        assert forall i :: 1 <= i < |table| ==> table[i] == table[1..][i - 1];
        rest
  }

  /** The layers weighted, in the order of the overlay. */
  const LayerNames: seq<string> := ["DEM", "Slope", "Lineaments", "Drainage", "Precip", "NDVI", "Lithology", "Soil", "LULC"]

  /** `names[i]` is the first of `names` without a row. */
  predicate FirstMissing(table: seq<WeightRow>, names: seq<string>, i: int) {
    0 <= i < |names| && RechargeWeight(table, names[i]).Failure?
    && forall j :: 0 <= j < i ==> RechargeWeight(table, names[j]).Success?
  }

  /** The weights of `names`, looked up in order; the first name without a row raises. */
  function Weights(table: seq<WeightRow>, names: seq<string>): (r: Result<seq<real>, LookupError>)
    ensures r.Success? <==> forall i :: 0 <= i < |names| ==> RechargeWeight(table, names[i]).Success?
    ensures r.Success? ==> |r.value| == |names|
    ensures r.Success? ==> forall i :: 0 <= i < |names| ==> r.value[i] == RechargeWeight(table, names[i]).value
    ensures r.Failure? ==> exists i :: FirstMissing(table, names, i) && r.error == NoRowFor(names[i])
    decreases |names|
  {
    if |names| == 0 then Success([])
    else
      var first := RechargeWeight(table, names[0]);
      if first.Failure? then
        assert FirstMissing(table, names, 0);
        Failure(first.error)
      else
        var rest := Weights(table, names[1..]);
        if rest.Failure? then
          ghost var i :| FirstMissing(table, names[1..], i) && rest.error == NoRowFor(names[1..][i]);
          MissingAfterFirst(table, names, i);
          Failure(rest.error)
        else
          assert forall i :: 1 <= i < |names| ==> names[i] == names[1..][i - 1];
          Success([first.value] + rest.value)
  }

  /** A layer missing after the first, found, layer is missing at one place further on. */
  lemma MissingAfterFirst(table: seq<WeightRow>, names: seq<string>, i: int)
    requires |names| > 0 && RechargeWeight(table, names[0]).Success? && FirstMissing(table, names[1..], i)
    ensures FirstMissing(table, names, i + 1) && names[i + 1] == names[1..][i]
  {
    forall j | 0 <= j < i + 1 ensures RechargeWeight(table, names[j]).Success? {
      if j > 0 {
        assert names[j] == names[1..][j - 1];
      }
    }
  }

  /** The recharge weights of the nine layers, in the order of lines 145-153. */
  function RechargeWeights(table: seq<WeightRow>): Result<seq<real>, LookupError> {
    Weights(table, LayerNames)
  }

  /** A repeated layer row is ignored after the first, and the weight table's `Soil` row does not answer for `Soils`. */
  lemma FirstRowWins()
    ensures var table := [WeightRow("DEM", 0.1, 0.2), WeightRow("Soil", 0.3, 0.4), WeightRow("DEM", 0.5, 0.9)];
      RechargeWeight(table, "DEM") == Success(0.2) && RechargeWeight(table, "Soils") == Failure(NoRowFor("Soils"))
  {
  }

  // ----- The weighted overlay -----

  /** `(v1 * w1) + (v2 * w2) + ...`, added left to right. */
  function Sum(values: seq<real>, weights: seq<real>): real
    requires |values| == |weights|
    decreases |values|
  {
    if |values| == 0 then 0.0
    else
      var n := |values| - 1;
      Sum(values[..n], weights[..n]) + values[n] * weights[n]
  }

  /** The values of cells that are all defined. */
  function Values(cells: seq<Option<real>>): (values: seq<real>)
    requires forall i :: 0 <= i < |cells| ==> cells[i].Some?
    ensures |values| == |cells| && forall i :: 0 <= i < |cells| ==> values[i] == cells[i].value
  {
    seq(|cells|, i requires 0 <= i < |cells| => cells[i].value)
  }

  /**
   * One cell of `(L1 * w1) + (L2 * w2) + ...`: NoData when any layer is
   * NoData there, and otherwise the weighted sum of the layers' values.
   */
  function WeightedCell(cells: seq<Option<real>>, weights: seq<real>): (r: Option<real>)
    requires |cells| == |weights|
    ensures r.Some? <==> forall i :: 0 <= i < |cells| ==> cells[i].Some?
  {
    if forall i :: 0 <= i < |cells| ==> cells[i].Some? then Some(Sum(Values(cells), weights)) else None
  }

  function Scaled(weights: seq<real>, k: real): (s: seq<real>)
    ensures |s| == |weights| && forall i :: 0 <= i < |weights| ==> s[i] == k * weights[i]
  {
    seq(|weights|, i requires 0 <= i < |weights| => k * weights[i])
  }

  lemma {:induction false} SumScaled(values: seq<real>, weights: seq<real>, k: real)
    requires |values| == |weights|
    ensures Sum(values, Scaled(weights, k)) == k * Sum(values, weights)
    decreases |values|
  {
    if |values| > 0 {
      var n := |values| - 1;
      assert forall j :: 0 <= j < n ==> Scaled(weights, k)[..n][j] == Scaled(weights[..n], k)[j];
      assert Scaled(weights, k)[..n] == Scaled(weights[..n], k);
      SumScaled(values[..n], weights[..n], k);
      assert values[n] * (k * weights[n]) == k * (values[n] * weights[n]);
    }
  }

  /** Scaling every weight by `k` scales the suitability by `k`. */
  lemma ScaleWeights(cells: seq<Option<real>>, weights: seq<real>, k: real)
    requires |cells| == |weights|
    ensures WeightedCell(cells, Scaled(weights, k)).Some? == WeightedCell(cells, weights).Some?
    ensures WeightedCell(cells, weights).Some? ==>
      WeightedCell(cells, Scaled(weights, k)).value == k * WeightedCell(cells, weights).value
  {
    if WeightedCell(cells, weights).Some? {
      SumScaled(Values(cells), weights, k);
      assert WeightedCell(cells, Scaled(weights, k)) == Some(Sum(Values(cells), Scaled(weights, k)));
      assert WeightedCell(cells, weights) == Some(Sum(Values(cells), weights));
    }
  }

  lemma {:induction false} SumZeroWeight(values: seq<real>, weights: seq<real>, i: nat, x: real)
    requires |values| == |weights| && i < |values| && weights[i] == 0.0
    ensures Sum(values[i := x], weights) == Sum(values, weights)
    decreases |values|
  {
    var n := |values| - 1;
    if i < n {
      assert values[i := x][..n] == values[..n][i := x];
      SumZeroWeight(values[..n], weights[..n], i, x);
    } else {
      assert values[i := x][..n] == values[..n];
    }
  }

  /** A layer of weight 0 contributes nothing: any defined value in its place gives the same sum. */
  lemma ZeroWeightContributesNothing(cells: seq<Option<real>>, weights: seq<real>, i: nat, x: real)
    requires |cells| == |weights| && i < |cells| && weights[i] == 0.0 && cells[i].Some?
    ensures WeightedCell(cells[i := Some(x)], weights) == WeightedCell(cells, weights)
  {
    if WeightedCell(cells, weights).Some? {
      var changed := cells[i := Some(x)];
      assert forall j :: 0 <= j < |changed| ==> changed[j].Some?;
      assert forall j :: 0 <= j < |changed| ==> Values(changed)[j] == Values(cells)[i := x][j];
      assert Values(changed) == Values(cells)[i := x];
      SumZeroWeight(Values(cells), weights, i, x);
      assert WeightedCell(changed, weights) == Some(Sum(Values(changed), weights));
      assert WeightedCell(cells, weights) == Some(Sum(Values(cells), weights));
    } else {
      var j :| 0 <= j < |cells| && cells[j].None?;
      assert cells[i := Some(x)][j].None?;
    }
  }

  /** Two layers weighted 2 and -1 over cells 3 and 1 give 5; NoData in either gives NoData. */
  lemma TwoLayerCell()
    ensures WeightedCell([Some(3.0), Some(1.0)], [2.0, -1.0]) == Some(5.0)
    ensures WeightedCell([Some(3.0), None], [2.0, -1.0]) == None
  {
    var cells := [Some(3.0), Some(1.0)];
    assert Values(cells) == [3.0, 1.0];
    assert [3.0, 1.0][..1] == [3.0] && [3.0][..0] == [];
    assert [2.0, -1.0][..1] == [2.0] && [2.0][..0] == [];
    assert Sum([3.0], [2.0]) == 6.0;
    assert Sum([3.0, 1.0], [2.0, -1.0]) == 5.0;
    assert [Some(3.0), None][1].None?;
  }

  /** The cells of every layer at position `c`. */
  function CellsAt(layers: seq<seq<Option<real>>>, c: nat): (cells: seq<Option<real>>)
    requires forall i :: 0 <= i < |layers| ==> c < |layers[i]|
    ensures |cells| == |layers| && forall i :: 0 <= i < |layers| ==> cells[i] == layers[i][c]
  {
    seq(|layers|, i requires 0 <= i < |layers| => layers[i][c])
  }

  /**
   * The overlay of equally sized layers: each cell is defined exactly where
   * every layer is, and then holds the weighted sum at that cell.
   */
  function Overlay(layers: seq<seq<Option<real>>>, weights: seq<real>, size: nat): (r: seq<Option<real>>)
    requires |layers| == |weights| && forall i :: 0 <= i < |layers| ==> |layers[i]| == size
    ensures |r| == size
    ensures forall c :: 0 <= c < size ==> (r[c].Some? <==> forall i :: 0 <= i < |layers| ==> layers[i][c].Some?)
    ensures forall c :: 0 <= c < size ==> r[c] == WeightedCell(CellsAt(layers, c), weights)
  {
    seq(size, c requires 0 <= c < size => WeightedCell(CellsAt(layers, c), weights))
  }

  /**
   * Line 157: the nine classified layers weighted by the table's recharge
   * weights; a missing weight row raises before any cell is computed.
   */
  function Suitability(layers: seq<seq<Option<real>>>, table: seq<WeightRow>, size: nat)
    : (r: Result<seq<Option<real>>, LookupError>)
    requires |layers| == |LayerNames| && forall i :: 0 <= i < |layers| ==> |layers[i]| == size
    ensures r.Failure? <==> exists i :: 0 <= i < |LayerNames| && RechargeWeight(table, LayerNames[i]).Failure?
    ensures r.Success? ==> r.value == Overlay(layers, RechargeWeights(table).value, size)
  {
    var weights := RechargeWeights(table);
    if weights.Failure? then Failure(weights.error) else Success(Overlay(layers, weights.value, size))
  }
}
