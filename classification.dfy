/**
 * Schema-driven reclassification: selecting one layer's rows from a
 * classification table, building the remap string the engine's Reclassify
 * reads, and issuing the Reclassify / RescaleByFunction call.
 *
 * A table is column-oriented, as a data frame is: the `layer` column and the
 * remaining columns, each a sequence of cells.  A cell keeps the Python type
 * the table was read with (`int`, `float` or `str`), because the discrete
 * and categorical paths treat the types differently.
 */
module Classification {
  import opened Wrappers
  import opened Text
  import opened Remap
  import opened Engine

  /** One table cell.  A float is carried as the text `str()` gives for it. */
  datatype Scalar = IntVal(i: int) | FloatVal(repr: string) | StrVal(s: string)

  /** Python `str(x)` of a cell. */
  function Str(x: Scalar): string {
    match x
    case IntVal(i) => IntText(i)
    case FloatVal(repr) => repr
    case StrVal(s) => s
  }

  /** A classification table: the `layer` column and the other columns, in their order. */
  datatype Frame = Frame(layer: seq<string>, columns: seq<seq<Scalar>>)

  predicate WellFormed(f: Frame) {
    forall c :: 0 <= c < |f.columns| ==> |f.columns[c]| == |f.layer|
  }

  /** The frame left after filtering: its row count and its columns (the `layer` column dropped). */
  datatype Table = Table(height: nat, columns: seq<seq<Scalar>>)

  predicate Rectangular(t: Table) {
    forall c :: 0 <= c < |t.columns| ==> |t.columns[c]| == t.height
  }

  /** How many rows name `layerName`; none exactly when no row does. */
  function Matches(layer: seq<string>, layerName: string): (n: nat)
    ensures n <= |layer|
    ensures n == 0 <==> forall k :: 0 <= k < |layer| ==> layer[k] != layerName
    decreases |layer|
  {
    if |layer| == 0 then 0
    else (if layer[0] == layerName then 1 else 0) + Matches(layer[1..], layerName)
  }

  /**
   * The entries of `xs` at the rows whose layer is `layerName`, in table
   * order: one per matching row, each taken from a matching row, and every
   * matching row's entry kept.
   */
  function KeepWhere<T>(layer: seq<string>, layerName: string, xs: seq<T>): (r: seq<T>)
    requires |xs| == |layer|
    ensures |r| == Matches(layer, layerName)
    ensures forall x :: x in r ==> exists k :: 0 <= k < |xs| && layer[k] == layerName && xs[k] == x
    ensures forall k :: 0 <= k < |xs| && layer[k] == layerName ==> xs[k] in r
    decreases |xs|
  {
    if |xs| == 0 then []
    else
      var rest := KeepWhere(layer[1..], layerName, xs[1..]);
      assert forall k :: 1 <= k < |xs| ==> xs[k] == xs[1..][k - 1] && layer[k] == layer[1..][k - 1];
      (if layer[0] == layerName then [xs[0]] else []) + rest
  }

  function KeepColumns(layer: seq<string>, layerName: string, cols: seq<seq<Scalar>>): (r: seq<seq<Scalar>>)
    requires forall c :: 0 <= c < |cols| ==> |cols[c]| == |layer|
    ensures |r| == |cols|
    ensures forall c :: 0 <= c < |r| ==> |r[c]| == Matches(layer, layerName)
  {
    seq(|cols|, c requires 0 <= c < |cols| => KeepWhere(layer, layerName, cols[c]))
  }

  /**
   * `ReclassTable[ReclassTable['layer'] == LayerName].drop('layer', axis=1)`:
   * every column filtered to the rows of that layer.
   */
  function Filter(f: Frame, layerName: string): (t: Table)
    requires WellFormed(f)
    ensures Rectangular(t) && |t.columns| == |f.columns|
    ensures t.height == Matches(f.layer, layerName)
  {
    Table(Matches(f.layer, layerName), KeepColumns(f.layer, layerName, f.columns))
  }

  /** The rows of `height`-long columns. */
  function Transpose(cols: seq<seq<Scalar>>, height: nat): (rows: seq<seq<Scalar>>)
    requires forall c :: 0 <= c < |cols| ==> |cols[c]| == height
    ensures |rows| == height && forall k :: 0 <= k < height ==> |rows[k]| == |cols|
  {
    seq(height, k requires 0 <= k < height => seq(|cols|, c requires 0 <= c < |cols| => cols[c][k]))
  }

  /** The frame's rows, without their `layer` cell. */
  function Rows(f: Frame): seq<seq<Scalar>>
    requires WellFormed(f)
  {
    Transpose(f.columns, |f.layer|)
  }

  /**
   * `list(list(x) for x in zip(*(t[c].values.tolist() for c in t.columns)))`:
   * each column converted on its own, so every cell keeps its column's type.
   * `zip()` of no columns is empty whatever the row count.
   */
  function Zip(t: Table): seq<seq<Scalar>>
    requires Rectangular(t)
  {
    if |t.columns| == 0 then [] else Transpose(t.columns, t.height)
  }

  predicate Numeric(x: Scalar) {
    x.IntVal? || x.FloatVal?
  }

  /** A Python `int` converted to `float`, as `str()` prints it. */
  function AsFloat(x: Scalar): Scalar {
    if x.IntVal? then FloatVal(IntText(x.i) + ".0") else x
  }

  /**
   * `t.values.tolist()`: row by row over the whole table, which takes one
   * common type for all cells; when every cell is a number and one is a
   * float, every `int` becomes a `float`.
   */
  function ValuesToList(t: Table): (rows: seq<seq<Scalar>>)
    requires Rectangular(t)
    ensures |rows| == t.height && forall k :: 0 <= k < t.height ==> |rows[k]| == |t.columns|
  {
    var cols := t.columns;
    seq(t.height, k requires 0 <= k < t.height =>
      seq(|cols|, c requires 0 <= c < |cols| => if CommonFloat(t) then AsFloat(cols[c][k]) else cols[c][k]))
  }

  /** Every cell is a number and some cell is a float, so the common type is `float`. */
  predicate CommonFloat(t: Table)
    requires Rectangular(t)
  {
    (forall c, k :: 0 <= c < |t.columns| && 0 <= k < t.height ==> Numeric(t.columns[c][k]))
    && (exists c, k :: 0 <= c < |t.columns| && 0 <= k < t.height && t.columns[c][k].FloatVal?)
  }

  /** Filtering the columns and then zipping them gives exactly the frame's rows of that layer, in order. */
  lemma FilterKeepsRows(f: Frame, layerName: string)
    requires WellFormed(f) && |f.columns| > 0
    ensures Zip(Filter(f, layerName)) == KeepWhere(f.layer, layerName, Rows(f))
  {
    TransposeKeep(f.layer, layerName, f.columns);
  }

  /** Filtering commutes with turning columns into rows. */
  lemma {:induction false} TransposeKeep(layer: seq<string>, layerName: string, cols: seq<seq<Scalar>>)
    requires forall c :: 0 <= c < |cols| ==> |cols[c]| == |layer|
    ensures Transpose(KeepColumns(layer, layerName, cols), Matches(layer, layerName))
         == KeepWhere(layer, layerName, Transpose(cols, |layer|))
    decreases |layer|
  {
    if |layer| > 0 {
      var tl := seq(|cols|, c requires 0 <= c < |cols| => cols[c][1..]);
      TransposeKeep(layer[1..], layerName, tl);
      var all := Transpose(cols, |layer|);
      TransposeTail(cols, |layer|, tl);
      var kc := KeepColumns(layer, layerName, cols);
      var kc' := KeepColumns(layer[1..], layerName, tl);
      KeepColumnsStep(layer, layerName, cols, tl);
      if layer[0] == layerName {
        TransposeCons(kc, Matches(layer, layerName), kc');
        assert Transpose(kc, Matches(layer, layerName))[0] == all[0];
      } else {
        assert kc == kc';
      }
    }
  }

  /** Filtering columns: the first row's cell if it matches, then the filtered tails. */
  lemma KeepColumnsStep(layer: seq<string>, layerName: string, cols: seq<seq<Scalar>>, tl: seq<seq<Scalar>>)
    requires |layer| > 0 && forall c :: 0 <= c < |cols| ==> |cols[c]| == |layer|
    requires |tl| == |cols| && forall c :: 0 <= c < |cols| ==> tl[c] == cols[c][1..]
    ensures layer[0] == layerName ==> forall c :: 0 <= c < |cols| ==>
      KeepColumns(layer, layerName, cols)[c][0] == cols[c][0]
      && KeepColumns(layer, layerName, cols)[c][1..] == KeepColumns(layer[1..], layerName, tl)[c]
    ensures layer[0] != layerName ==> KeepColumns(layer, layerName, cols) == KeepColumns(layer[1..], layerName, tl)
  {
    var kc := KeepColumns(layer, layerName, cols);
    var kc' := KeepColumns(layer[1..], layerName, tl);
    forall c | 0 <= c < |cols|
      ensures kc[c] == (if layer[0] == layerName then [cols[c][0]] else []) + kc'[c]
    {
      assert cols[c][1..] == tl[c];
    }
    if layer[0] != layerName {
      forall c | 0 <= c < |cols| ensures kc[c] == kc'[c] {
        assert [] + kc'[c] == kc'[c];
      }
    }
  }

  /** The rows of height-`h` columns: the first row, then the rows of the columns' tails. */
  lemma TransposeTail(cols: seq<seq<Scalar>>, h: nat, tl: seq<seq<Scalar>>)
    requires h > 0 && forall c :: 0 <= c < |cols| ==> |cols[c]| == h
    requires |tl| == |cols| && forall c :: 0 <= c < |cols| ==> tl[c] == cols[c][1..]
    ensures Transpose(cols, h) == [Transpose(cols, h)[0]] + Transpose(tl, h - 1)
  {
    var all := Transpose(cols, h);
    var rest := Transpose(tl, h - 1);
    forall k | 1 <= k < h ensures all[k] == rest[k - 1] {
      forall c | 0 <= c < |cols| ensures all[k][c] == rest[k - 1][c] {
        assert tl[c][k - 1] == cols[c][k];
      }
    }
    assert all[1..] == rest;
  }

  /** Columns that each gained a first row gain that row on top. */
  lemma TransposeCons(kc: seq<seq<Scalar>>, h: nat, kc': seq<seq<Scalar>>)
    requires h > 0 && |kc| == |kc'|
    requires forall c :: 0 <= c < |kc| ==> |kc[c]| == h && kc[c][1..] == kc'[c]
    ensures Transpose(kc, h) == [Transpose(kc, h)[0]] + Transpose(kc', h - 1)
  {
    TransposeTail(kc, h, kc');
  }

  /** A layer the table does not name selects nothing, and both remaps are then `""`. */
  lemma UnknownLayerGivesEmptyRemap(f: Frame, layerName: string)
    requires WellFormed(f)
    requires forall k :: 0 <= k < |f.layer| ==> f.layer[k] != layerName
    ensures Filter(f, layerName).height == 0
    ensures Serialise(RenderRows(Zip(Filter(f, layerName)))) == ""
    ensures Serialise(QuoteRows(RenderRows(ValuesToList(Filter(f, layerName))))) == ""
  {
    var t := Filter(f, layerName);
    assert Zip(t) == [];
    assert ValuesToList(t) == [];
  }

  /** Every cell as `str()` prints it. */
  function RenderRows(rows: seq<seq<Scalar>>): (texts: seq<seq<string>>)
    ensures |texts| == |rows|
    ensures forall i :: 0 <= i < |rows| ==> |texts[i]| == |rows[i]|
    ensures forall i, j :: 0 <= i < |rows| && 0 <= j < |rows[i]| ==> texts[i][j] == Str(rows[i][j])
  {
    seq(|rows|, i requires 0 <= i < |rows| =>
      seq(|rows[i]|, j requires 0 <= j < |rows[i]| => Str(rows[i][j])))
  }

  // ----- The state of the remap-building loops -----

  /** The tokens of a row so far, each followed by one space: `remap + str(j) + " "` repeated. */
  function Spaced(tokens: seq<string>): string
    decreases |tokens|
  {
    if |tokens| == 0 then "" else Spaced(tokens[..|tokens| - 1]) + tokens[|tokens| - 1] + " "
  }

  /** The remap after the rows in `done`: each finished row ends in `;`. */
  function Accumulated(done: seq<seq<string>>): string {
    if |done| == 0 then "" else Serialise(done) + ";"
  }

  /** Python `s[:-1]`, which leaves `""` as it is. */
  function DropLast(s: string): (r: string)
    ensures |s| > 0 ==> r == s[..|s| - 1]
    ensures |s| == 0 ==> r == ""
  {
    if |s| == 0 then "" else s[..|s| - 1]
  }

  lemma {:induction false} SpacedJoin(tokens: seq<string>)
    ensures Spaced(tokens) == if |tokens| == 0 then "" else Join(' ', tokens) + " "
    decreases |tokens|
  {
    if |tokens| > 1 {
      var init := tokens[..|tokens| - 1];
      SpacedJoin(init);
      JoinSnoc(' ', init, tokens[|tokens| - 1]);
      assert init + [tokens[|tokens| - 1]] == tokens;
    } else if |tokens| == 1 {
      assert tokens[..0] == [];
    }
  }

  /** A remap never starts with whitespace. */
  lemma {:induction false} SerialiseStart(rows: seq<seq<string>>)
    ensures |Serialise(rows)| == 0 || !IsSpace(Serialise(rows)[0])
    decreases |rows|
  {
    if |rows| > 1 {
      SerialiseStart(rows[..|rows| - 1]);
    }
  }

  /** A row's trailing space goes with the rest of its trailing whitespace. */
  lemma SpacedStrip(row: seq<string>)
    ensures RStrip(Spaced(row)) == RStrip(Join(' ', row))
    ensures Strip(Spaced(row)) == Strip(Join(' ', row))
  {
    SpacedJoin(row);
    if |row| > 0 {
      RStripSpace(Join(' ', row));
    }
  }

  /** Appending a row to a non-empty remap: `;`, then the row with its end stripped. */
  lemma SerialiseSnoc(done: seq<seq<string>>, row: seq<string>)
    requires |done| > 0
    ensures Serialise(done + [row]) == Serialise(done) + ";" + RStrip(Join(' ', row))
  {
    assert (done + [row])[..|done|] == done;
    assert (done + [row])[|done|] == row;
  }

  /** One pass of the outer loop: the row's tokens, then `remap.strip() + ';'`. */
  lemma AccumulateRow(done: seq<seq<string>>, row: seq<string>)
    ensures Strip(Accumulated(done) + Spaced(row)) + ";" == Accumulated(done + [row])
  {
    var spaced := Spaced(row);
    SpacedStrip(row);
    if |done| == 0 {
      assert done + [row] == [row];
      assert Accumulated(done) + spaced == spaced;
    } else {
      var a := Serialise(done) + ";";
      assert Accumulated(done) == a;
      RStripAfter(a, spaced);
      var s := a + RStrip(Join(' ', row));
      assert RStrip(a + spaced) == s;
      SerialiseStart(done);
      assert s[0] == (if |Serialise(done)| == 0 then ';' else Serialise(done)[0]);
      assert LStrip(s) == s;
      SerialiseSnoc(done, row);
    }
  }

  /** One pass of the inner loop: one more token and its space. */
  lemma SpacedStep(tokens: seq<string>, j: nat)
    requires j < |tokens|
    ensures Spaced(tokens[..j + 1]) == Spaced(tokens[..j]) + tokens[j] + " "
  {
    assert tokens[..j + 1][..j] == tokens[..j];
  }

  /** Appending token `j` and its space extends the row so far by that token. */
  lemma AppendToken(remap: string, before: string, tokens: seq<string>, j: nat)
    requires j < |tokens| && remap == before + Spaced(tokens[..j])
    ensures remap + tokens[j] + " " == before + Spaced(tokens[..j + 1])
  {
    SpacedStep(tokens, j);
  }

  /** Both branches of the quoting test append the quoted token and a space. */
  lemma QuoteAppend(remap: string, cell: string)
    ensures ' ' in cell ==> remap + "'" + cell + "'" + " " == remap + Quote(cell) + " "
    ensures ' ' !in cell ==> remap + cell + " " == remap + Quote(cell) + " "
  {
  }

  /** Either branch of the quoting test extends the row so far by token `j`. */
  lemma QuotedStep(remap: string, before: string, tokens: seq<string>, j: nat, cell: string)
    requires j < |tokens| && remap == before + Spaced(tokens[..j]) && tokens[j] == Quote(cell)
    ensures ' ' in cell ==> remap + "'" + cell + "'" + " " == before + Spaced(tokens[..j + 1])
    ensures ' ' !in cell ==> remap + cell + " " == before + Spaced(tokens[..j + 1])
  {
    AppendToken(remap, before, tokens, j);
    QuoteAppend(remap, cell);
  }

  /** Cell `j` of row `i` as the categorical loop writes it. */
  lemma QuotedCell(rows: seq<seq<Scalar>>, i: nat, j: nat)
    requires i < |rows| && j < |rows[i]|
    ensures QuoteRows(RenderRows(rows))[i][j] == Quote(Str(rows[i][j]))
  {
  }

  /** One pass of the outer loop over row `i` of the token texts. */
  lemma OuterStep(texts: seq<seq<string>>, i: nat)
    requires i < |texts|
    ensures Strip(Accumulated(texts[..i]) + Spaced(texts[i])) + ";" == Accumulated(texts[..i + 1])
  {
    TakeOneMore(texts, i);
    AccumulateRow(texts[..i], texts[i]);
  }

  lemma TakeOneMore<T>(s: seq<T>, i: nat)
    requires i < |s|
    ensures s[..i] + [s[i]] == s[..i + 1]
  {
  }

  /** The last row's `;` is cut, or nothing when there were no rows. */
  lemma DropFinal(rows: seq<seq<string>>)
    ensures DropLast(Accumulated(rows)) == Serialise(rows)
  {
    if |rows| > 0 {
      assert (Serialise(rows) + ";")[..|Serialise(rows)|] == Serialise(rows);
    }
  }

  // ----- The two loops of the source -----

  /**
   * The discrete remap loop: every cell printed with `str()`, a space
   * after each, the row stripped and ended with `;`, the last `;` cut.
   */
  method DiscreteRemap(nestedList: seq<seq<Scalar>>) returns (remap: string)
    ensures remap == Serialise(RenderRows(nestedList))
  {
    ghost var texts := RenderRows(nestedList);
    remap := "";
    var i := 0;
    while i < |nestedList|
      invariant 0 <= i <= |nestedList|
      invariant remap == Accumulated(texts[..i])
    {
      var row := nestedList[i];
      var j := 0;
      while j < |row|
        invariant 0 <= j <= |row|
        invariant remap == Accumulated(texts[..i]) + Spaced(texts[i][..j])
      {
        AppendToken(remap, Accumulated(texts[..i]), texts[i], j);
        remap := remap + Str(row[j]) + " ";
        j := j + 1;
      }
      assert texts[i][..j] == texts[i];
      OuterStep(texts, i);
      remap := Strip(remap) + ";";
      i := i + 1;
    }
    assert texts[..i] == texts;
    DropFinal(texts);
    remap := DropLast(remap);
  }

  /** `" " in j` on a cell that is not a `str`. */
  datatype TypeError = NotIterable(row: nat, column: nat)

  predicate AllText(rows: seq<seq<Scalar>>) {
    forall i, j :: 0 <= i < |rows| && 0 <= j < |rows[i]| ==> rows[i][j].StrVal?
  }

  /** Every cell before row `row`, column `column` (row by row) is a `str`. */
  predicate TextBefore(rows: seq<seq<Scalar>>, row: nat, column: nat) {
    forall a, b :: 0 <= a < |rows| && 0 <= b < |rows[a]| && (a < row || (a == row && b < column)) ==> rows[a][b].StrVal?
  }

  /** `e` names the first cell, row by row, that is not a `str`. */
  predicate FirstNonText(rows: seq<seq<Scalar>>, e: TypeError) {
    e.row < |rows| && e.column < |rows[e.row]| && !rows[e.row][e.column].StrVal?
    && TextBefore(rows, e.row, e.column)
  }

  /**
   * The categorical remap loop as written: it tests `" " in j` and
   * concatenates `j` itself, so the first cell (row by row) that is not a
   * `str` raises; otherwise each token holding a space is quoted.
   */
  method CategoricalRemapAsWritten(nestedList: seq<seq<Scalar>>) returns (r: Result<string, TypeError>)
    ensures r.Failure? <==> !AllText(nestedList)
    ensures r.Success? ==> r.value == Serialise(QuoteRows(RenderRows(nestedList)))
    ensures r.Failure? ==> FirstNonText(nestedList, r.error)
  {
    ghost var quoted := QuoteRows(RenderRows(nestedList));
    var remap := "";
    var i := 0;
    while i < |nestedList|
      invariant 0 <= i <= |nestedList|
      invariant remap == Accumulated(quoted[..i])
      invariant TextBefore(nestedList, i, 0)
    {
      var row := nestedList[i];
      ghost var before := remap;
      ghost var tokens := quoted[i];
      var j := 0;
      while j < |row|
        invariant 0 <= j <= |row|
        invariant remap == before + Spaced(tokens[..j])
        invariant TextBefore(nestedList, i, j)
      {
        if !row[j].StrVal? {
          NotText(nestedList, i, j);
          return Failure(NotIterable(i, j));
        }
        var cell := row[j].s;
        QuotedCell(nestedList, i, j);
        QuotedStep(remap, before, tokens, j, cell);
        if ' ' in cell {
          remap := remap + "'" + cell + "'" + " ";
        } else {
          remap := remap + cell + " ";
        }
        TextNext(nestedList, i, j);
        j := j + 1;
      }
      assert tokens[..j] == tokens;
      OuterStep(quoted, i);
      TextRowDone(nestedList, i);
      remap := Strip(remap) + ";";
      i := i + 1;
    }
    assert quoted[..i] == quoted;
    TextAll(nestedList);
    DropFinal(quoted);
    return Success(DropLast(remap));
  }

  lemma NotText(rows: seq<seq<Scalar>>, i: nat, j: nat)
    requires i < |rows| && j < |rows[i]| && !rows[i][j].StrVal? && TextBefore(rows, i, j)
    ensures !AllText(rows) && FirstNonText(rows, NotIterable(i, j))
  {
  }

  lemma TextNext(rows: seq<seq<Scalar>>, i: nat, j: nat)
    requires i < |rows| && j < |rows[i]| && rows[i][j].StrVal? && TextBefore(rows, i, j)
    ensures TextBefore(rows, i, j + 1)
  {
  }

  lemma TextRowDone(rows: seq<seq<Scalar>>, i: nat)
    requires i < |rows| && TextBefore(rows, i, |rows[i]|)
    ensures TextBefore(rows, i + 1, 0)
  {
  }

  lemma TextAll(rows: seq<seq<Scalar>>)
    requires TextBefore(rows, |rows|, 0)
    ensures AllText(rows)
  {
  }

  /**
   * The categorical remap loop with each cell printed by `str()` first, as
   * the discrete loop does: it never raises, and quotes each token that
   * holds a space.
   */
  method CategoricalRemap(nestedList: seq<seq<Scalar>>) returns (remap: string)
    ensures remap == Serialise(QuoteRows(RenderRows(nestedList)))
  {
    ghost var quoted := QuoteRows(RenderRows(nestedList));
    remap := "";
    var i := 0;
    while i < |nestedList|
      invariant 0 <= i <= |nestedList|
      invariant remap == Accumulated(quoted[..i])
    {
      var row := nestedList[i];
      ghost var before := remap;
      ghost var tokens := quoted[i];
      var j := 0;
      while j < |row|
        invariant 0 <= j <= |row|
        invariant remap == before + Spaced(tokens[..j])
      {
        var cell := Str(row[j]);
        QuotedCell(nestedList, i, j);
        QuotedStep(remap, before, tokens, j, cell);
        if ' ' in cell {
          remap := remap + "'" + cell + "'" + " ";
        } else {
          remap := remap + cell + " ";
        }
        j := j + 1;
      }
      assert tokens[..j] == tokens;
      OuterStep(quoted, i);
      remap := Strip(remap) + ";";
      i := i + 1;
    }
    assert quoted[..i] == quoted;
    DropFinal(quoted);
    remap := DropLast(remap);
  }

  // ----- Properties of the remaps -----

  predicate AllIntegers(rows: seq<seq<Scalar>>) {
    forall i, j :: 0 <= i < |rows| && 0 <= j < |rows[i]| ==> rows[i][j].IntVal?
  }

  /**
   * A discrete remap of integer rows reads back as those rows, and each
   * token reads back as its integer: the new value is written as an integer.
   */
  lemma DiscreteRoundTrip(rows: seq<seq<Scalar>>)
    requires |rows| > 0 && AllIntegers(rows)
    requires forall i :: 0 <= i < |rows| ==> |rows[i]| > 0
    ensures Parse(Serialise(RenderRows(rows))) == RenderRows(rows)
    ensures forall i, j :: 0 <= i < |rows| && 0 <= j < |rows[i]| ==>
      ParseInt(Parse(Serialise(RenderRows(rows)))[i][j]) == Some(rows[i][j].i)
  {
    var texts := RenderRows(rows);
    forall i, j | 0 <= i < |texts| && 0 <= j < |texts[i]|
      ensures ' ' !in texts[i][j] && '\'' !in texts[i][j] && ';' !in texts[i][j]
      ensures |texts[i][j]| > 0 && Trimmed(texts[i][j])
      ensures ParseInt(texts[i][j]) == Some(rows[i][j].i)
    {
      IntTextRoundTrip(rows[i][j].i);
    }
    assert RoundTripSafe(texts);
    assert QuoteRows(texts) == texts by {
      forall i | 0 <= i < |texts| ensures QuoteRow(texts[i]) == texts[i] {
        forall j | 0 <= j < |texts[i]| ensures Quote(texts[i][j]) == texts[i][j] {
        }
      }
    }
    RemapRoundTrip(texts);
  }

  /**
   * With clean tokens the discrete remap is the rows joined by `;`, and it
   * holds one `;` fewer than there are rows when no token holds one.
   */
  lemma DiscreteRemapShape(rows: seq<seq<Scalar>>)
    requires CleanTokens(RenderRows(rows)) && NoSemicolons(RenderRows(rows))
    ensures Serialise(RenderRows(rows)) == Join(';', RowTexts(RenderRows(rows)))
    ensures Count(';', Serialise(RenderRows(rows))) == if |rows| == 0 then 0 else |rows| - 1
  {
    SerialiseClean(RenderRows(rows));
    SemicolonCount(RenderRows(rows));
  }

  /** The categorical schema as the table holds it, with the class column read as integers. */
  const GeologyTable: seq<seq<Scalar>> :=
    [[StrVal(Granite), IntVal(1)], [StrVal("Basalt"), IntVal(2)]]

  /**
   * With an integer class column the loop as written raises at the first
   * class value, while printing each cell first gives the intended remap.
   */
  lemma IntegerClassesRaise()
    ensures !AllText(GeologyTable) && FirstNonText(GeologyTable, NotIterable(0, 1))
    ensures Serialise(QuoteRows(RenderRows(GeologyTable))) == "'" + Granite + "' 1;Basalt 2"
  {
    assert GeologyTable[0][0].StrVal? && GeologyTable[0][1] == IntVal(1);
    assert DigitChar(1) == '1' && DigitChar(2) == '2';
    assert IntText(1) == "1" && IntText(2) == "2";
    var texts := RenderRows(GeologyTable);
    assert texts[0] == [Granite, "1"];
    assert texts[1] == ["Basalt", "2"];
    assert texts == GeologySchema;
    GeologyRemapText();
  }

  /** The discrete table `0.0 2.5 1`: a float bound column and an integer class column. */
  const MixedTable: Table := Table(1, [[FloatVal("0.0")], [FloatVal("2.5")], [IntVal(1)]])

  /**
   * Converting column by column keeps the class an integer; converting the
   * whole table at once would have printed it as a float.
   */
  lemma ColumnwiseKeepsIntegers()
    ensures Rectangular(MixedTable)
    ensures Serialise(RenderRows(Zip(MixedTable))) == "0.0 2.5 1"
    ensures Serialise(RenderRows(ValuesToList(MixedTable))) == "0.0 2.5 1.0"
  {
    MixedZipped();
    MixedListed();
    assert Join(' ', ["1"]) == "1";
    assert Join(' ', ["2.5", "1"]) == "2.5 1";
    assert Join(' ', ["0.0", "2.5", "1"]) == "0.0 2.5 1";
    StripTrimmed("0.0 2.5 1");
    assert Join(' ', ["1.0"]) == "1.0";
    assert Join(' ', ["2.5", "1.0"]) == "2.5 1.0";
    assert Join(' ', ["0.0", "2.5", "1.0"]) == "0.0 2.5 1.0";
    StripTrimmed("0.0 2.5 1.0");
  }

  /** Zipped column by column, the class stays the integer 1. */
  lemma MixedZipped()
    ensures Rectangular(MixedTable)
    ensures RenderRows(Zip(MixedTable)) == [["0.0", "2.5", "1"]]
  {
    var cols := MixedTable.columns;
    assert cols[0][0] == FloatVal("0.0") && cols[1][0] == FloatVal("2.5") && cols[2][0] == IntVal(1);
    assert DigitChar(1) == '1';
    assert IntText(1) == "1";
    var z := Zip(MixedTable);
    assert |z| == 1 && |z[0]| == 3;
    assert z[0] == [FloatVal("0.0"), FloatVal("2.5"), IntVal(1)];
    var zt := RenderRows(z);
    assert zt[0][0] == "0.0" && zt[0][1] == "2.5" && zt[0][2] == Str(IntVal(1)) == "1";
    assert zt[0] == ["0.0", "2.5", "1"];
  }

  /** Listed row by row, the whole table is float and the class prints as `1.0`. */
  lemma MixedListed()
    ensures Rectangular(MixedTable)
    ensures RenderRows(ValuesToList(MixedTable)) == [["0.0", "2.5", "1.0"]]
  {
    var cols := MixedTable.columns;
    assert cols[0][0] == FloatVal("0.0") && cols[1][0] == FloatVal("2.5") && cols[2][0] == IntVal(1);
    assert DigitChar(1) == '1';
    assert IntText(1) == "1";
    assert CommonFloat(MixedTable) by {
      assert cols[0][0].FloatVal?;
    }
    var v := ValuesToList(MixedTable);
    assert |v| == 1 && |v[0]| == 3;
    assert v[0][0] == FloatVal("0.0");
    assert v[0][1] == FloatVal("2.5");
    assert v[0][2] == AsFloat(IntVal(1)) == FloatVal("1" + ".0");
    assert "1" + ".0" == "1.0";
    assert v[0] == [FloatVal("0.0"), FloatVal("2.5"), FloatVal("1.0")];
    var vt := RenderRows(v);
    assert vt[0] == ["0.0", "2.5", "1.0"];
  }

  // ----- The classification calls -----

  /**
   * `DiscreteClassification`: the layer's rows, zipped column by column,
   * serialised, and handed to Reclassify with unmatched values made NoData;
   * the result is saved to `output` and returned.
   */
  method DiscreteClassification(env: Environment, store: Store, raster: Dataset, reclassTable: Frame,
                                layerName: string, output: Location, value: string := "VALUE")
    returns (outRaster: Dataset)
    requires WellFormed(reclassTable) && output.gdb in store.gdbs
    modifies env`overwriteOutput, store`rasters, store`features, store`log
    ensures env.overwriteOutput
    ensures outRaster == Reclassified(raster, value, Serialise(RenderRows(Zip(Filter(reclassTable, layerName)))), true)
    ensures store.rasters == old(store.rasters)[output := outRaster] && store.features == old(store.features)
    ensures store.log == old(store.log) + [output]
  {
    var table := Filter(reclassTable, layerName);
    var nestedList := Zip(table);
    var remap := DiscreteRemap(nestedList);
    env.overwriteOutput := true;
    outRaster := Reclassified(raster, value, remap, true);
    store.Save(Output(output, outRaster, RasterData));
  }

  /**
   * `CategoricalClassification`, with each cell printed before quoting: the
   * layer's rows, converted row by row, quoted and serialised, and handed to
   * Reclassify with unmatched labels made NoData; the result is saved.
   */
  method CategoricalClassification(env: Environment, store: Store, raster: Dataset, reclassTable: Frame,
                                   layerName: string, output: Location, value: string := "VALUE")
    returns (outRaster: Dataset)
    requires WellFormed(reclassTable) && output.gdb in store.gdbs
    modifies env`overwriteOutput, store`rasters, store`features, store`log
    ensures env.overwriteOutput
    ensures outRaster == Reclassified(raster, value,
      Serialise(QuoteRows(RenderRows(ValuesToList(Filter(reclassTable, layerName))))), true)
    ensures store.rasters == old(store.rasters)[output := outRaster] && store.features == old(store.features)
    ensures store.log == old(store.log) + [output]
  {
    var table := Filter(reclassTable, layerName);
    var nestedList := ValuesToList(table);
    var remap := CategoricalRemap(nestedList);
    env.overwriteOutput := true;
    outRaster := Reclassified(raster, value, remap, true);
    store.Save(Output(output, outRaster, RasterData));
  }

  /** `ContinuousClassification`: RescaleByFunction onto `fromValue`..`toValue`, by default 1 to 5. */
  method ContinuousClassification(env: Environment, store: Store, raster: Dataset, transfer: string,
                                  layerName: string, output: Location, fromValue: int := 1, toValue: int := 5)
    returns (outRaster: Dataset)
    requires output.gdb in store.gdbs
    modifies env`overwriteOutput, store`rasters, store`features, store`log
    ensures env.overwriteOutput
    ensures outRaster == Rescaled(raster, transfer, fromValue, toValue)
    ensures store.rasters == old(store.rasters)[output := outRaster] && store.features == old(store.features)
    ensures store.log == old(store.log) + [output]
  {
    env.overwriteOutput := true;
    outRaster := Rescaled(raster, transfer, fromValue, toValue);
    store.Save(Output(output, outRaster, RasterData));
  }

  /** A call that leaves `From` and `To` out rescales onto 1 to 5. */
  method DefaultContinuousRange(env: Environment, store: Store, raster: Dataset, transfer: string, output: Location)
    returns (outRaster: Dataset)
    requires output.gdb in store.gdbs
    modifies env`overwriteOutput, store`rasters, store`features, store`log
    ensures outRaster == Rescaled(raster, transfer, 1, 5)
  {
    outRaster := ContinuousClassification(env, store, raster, transfer, "layer", output);
  }
}
