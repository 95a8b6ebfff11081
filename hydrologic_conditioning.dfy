/**
 * Hydrologic conditioning: flow direction from the filled elevation
 * surface, flow accumulation from that direction raster, the stream
 * threshold, and the stream network as features; each step's result is
 * saved before the next step runs.
 */
module HydrologicConditioning {
  import opened Wrappers
  import opened Engine

  /** The accumulation, in upstream cells, from which a cell is a stream. */
  const StreamMinimum: int := 1000

  /** The value a stream cell takes. */
  const StreamValue: int := 1

  /**
   * `Con(acc, 1, '', "VALUE >= 1000")` at one cell: the true value where the
   * clause holds, and the empty false value, NoData, elsewhere.
   */
  function StreamCell(acc: real): Option<real> {
    if acc >= StreamMinimum as real then Some(StreamValue as real) else None
  }

  /**
   * The stream raster: a cell is 1 exactly where its accumulation is at
   * least 1000 (the boundary included), and NoData everywhere else.
   */
  function Streams(acc: seq<real>): (streams: seq<Option<real>>)
    ensures |streams| == |acc|
    ensures forall c :: 0 <= c < |acc| ==> (streams[c] == Some(1.0) <==> acc[c] >= 1000.0)
    ensures forall c :: 0 <= c < |acc| ==> (streams[c].None? <==> acc[c] < 1000.0)
  {
    seq(|acc|, c requires 0 <= c < |acc| => StreamCell(acc[c]))
  }

  /** Raising accumulation never takes a stream cell away. */
  lemma StreamsMonotone(lower: seq<real>, higher: seq<real>)
    requires |lower| == |higher|
    requires forall c :: 0 <= c < |lower| ==> lower[c] <= higher[c]
    ensures forall c :: 0 <= c < |lower| ==> Streams(lower)[c].Some? ==> Streams(higher)[c].Some?
  {
  }

  /** The number of stream cells of a stream raster. */
  function StreamCount(streams: seq<Option<real>>): nat
    decreases |streams|
  {
    if |streams| == 0 then 0 else (if streams[0].Some? then 1 else 0) + StreamCount(streams[1..])
  }

  /** Cells below the threshold add no stream cell; each cell at or above it adds one. */
  lemma {:induction false} StreamCountBelow(acc: seq<real>)
    requires forall c :: 0 <= c < |acc| ==> acc[c] < 1000.0
    ensures StreamCount(Streams(acc)) == 0
    decreases |acc|
  {
    if |acc| > 0 {
      StreamCountBelow(acc[1..]);
      assert Streams(acc)[1..] == Streams(acc[1..]);
    }
  }

  /** One cell of 1500 among cells of 10 gives exactly one stream cell, at that place. */
  lemma SingleStreamCell(acc: seq<real>, at: nat)
    requires at < |acc| && acc[at] == 1500.0
    requires forall c :: 0 <= c < |acc| && c != at ==> acc[c] == 10.0
    ensures StreamCount(Streams(acc)) == 1 && Streams(acc)[at] == Some(1.0)
  {
    StreamCountBelow(acc[..at]);
    StreamCountBelow(acc[at + 1..]);
    var s := Streams(acc);
    assert s == Streams(acc[..at]) + [s[at]] + Streams(acc[at + 1..]);
    StreamCountAppend(Streams(acc[..at]) + [s[at]], Streams(acc[at + 1..]));
    StreamCountAppend(Streams(acc[..at]), [s[at]]);
  }

  lemma {:induction false} StreamCountAppend(a: seq<Option<real>>, b: seq<Option<real>>)
    ensures StreamCount(a + b) == StreamCount(a) + StreamCount(b)
    decreases |a|
  {
    if |a| == 0 {
      assert a + b == b;
    } else {
      assert (a + b)[1..] == a[1..] + b;
      StreamCountAppend(a[1..], b);
    }
  }

  /**
   * What the conditioning writes, in order: the D8 flow direction of the
   * filled surface (flow forced outward at the edges), the D8 accumulation
   * of that direction raster, the thresholded streams, and the simplified
   * stream features traced along the same direction raster.
   */
  function ConditioningWrites(filledDem: Dataset, flowDir: Location, flowAcc: Location,
                              streamsRast: Location, streamsFeat: Location): seq<Output>
  {
    var direction := FlowDirection(filledDem, true, "D8");
    var accumulation := FlowAccumulation(direction, "D8");
    var streams := Threshold(accumulation, StreamMinimum, StreamValue);
    [Output(flowDir, direction, RasterData),
     Output(flowAcc, accumulation, RasterData),
     Output(streamsRast, streams, RasterData),
     Output(streamsFeat, StreamFeatures(streams, direction, true), FeatureData)]
  }

  /**
   * Each step consumes only the filled surface or an earlier step's result;
   * the accumulation reads the direction raster, not the elevation, and the
   * features read the streams and that same direction raster.
   */
  lemma ConditioningDataflow(filledDem: Dataset, flowDir: Location, flowAcc: Location,
                             streamsRast: Location, streamsFeat: Location)
    ensures InOrder(ConditioningWrites(filledDem, flowDir, flowAcc, streamsRast, streamsFeat), {filledDem})
    ensures var w := ConditioningWrites(filledDem, flowDir, flowAcc, streamsRast, streamsFeat);
      Sources(w[0].data) == {filledDem} && Sources(w[1].data) == {w[0].data}
      && Sources(w[2].data) == {w[1].data} && Sources(w[3].data) == {w[2].data, w[0].data}
  {
    var w := ConditioningWrites(filledDem, flowDir, flowAcc, streamsRast, streamsFeat);
    forall k, s | 0 <= k < |w| && s in Sources(w[k].data)
      ensures s in {filledDem} || exists j :: 0 <= j < k && w[j].data == s
    {
      if k == 1 {
        assert w[0].data == s;
      } else if k == 2 {
        assert w[1].data == s;
      } else if k == 3 {
        if s == w[2].data {
          assert w[2].data == s;
        } else {
          assert w[0].data == s;
        }
      }
    }
  }

  /**
   * `HydrologicConditioning`: overwriting enabled, then the four results
   * written in order to the four locations given; the stream features
   * are returned.
   */
  method HydrologicConditioning(env: Environment, store: Store, filledDem: Dataset, flowDir: Location,
                                flowAcc: Location, streamsRast: Location, streamsFeat: Location)
    returns (outStreamsFeat: Dataset)
    requires flowDir.gdb in store.gdbs && flowAcc.gdb in store.gdbs
    requires streamsRast.gdb in store.gdbs && streamsFeat.gdb in store.gdbs
    modifies env`overwriteOutput, store`rasters, store`features, store`log
    ensures env.overwriteOutput
    ensures var w := ConditioningWrites(filledDem, flowDir, flowAcc, streamsRast, streamsFeat);
      && outStreamsFeat == w[3].data
      && store.rasters == Apply(old(store.rasters), w, RasterData)
      && store.features == Apply(old(store.features), w, FeatureData)
      && store.log == old(store.log) + Locations(w)
  {
    ghost var w := ConditioningWrites(filledDem, flowDir, flowAcc, streamsRast, streamsFeat);
    ghost var rasters0, features0, log0 := store.rasters, store.features, store.log;
    env.overwriteOutput := true;
    var outFlowDir := FlowDirection(filledDem, true, "D8");
    store.Save(Output(flowDir, outFlowDir, RasterData));
    var outFlowAcc := FlowAccumulation(outFlowDir, "D8");
    store.Save(Output(flowAcc, outFlowAcc, RasterData));
    var outStreamsRast := Threshold(outFlowAcc, StreamMinimum, StreamValue);
    store.Save(Output(streamsRast, outStreamsRast, RasterData));
    outStreamsFeat := StreamFeatures(outStreamsRast, outFlowDir, true);
    store.Save(Output(streamsFeat, outStreamsFeat, FeatureData));
    assert w == [w[0]] + [w[1]] + [w[2]] + [w[3]];
    ApplySteps(rasters0, w, RasterData);
    ApplySteps(features0, w, FeatureData);
  }

  /** Four writes one after another are the four writes at once. */
  lemma ApplySteps(m: map<Location, Dataset>, w: seq<Output>, kind: Kind)
    requires |w| == 4
    ensures Apply(m, w, kind)
         == Apply(Apply(Apply(Apply(m, [w[0]], kind), [w[1]], kind), [w[2]], kind), [w[3]], kind)
  {
    ApplyAppend(m, [w[0]], [w[1]], kind);
    ApplyAppend(m, [w[0], w[1]], [w[2]], kind);
    ApplyAppend(m, [w[0], w[1], w[2]], [w[3]], kind);
    assert [w[0]] + [w[1]] == [w[0], w[1]];
    assert [w[0], w[1]] + [w[2]] == [w[0], w[1], w[2]];
    assert [w[0], w[1], w[2]] + [w[3]] == w;
  }
}
