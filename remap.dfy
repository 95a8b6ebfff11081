/**
 * The remap grammar that Reclassify reads: entries separated by `;`, the
 * tokens of an entry separated by single spaces, and a token that holds a
 * space wrapped in single quotes so that it stays one token.
 *
 * `Serialise` is what the nested loops of the classification functions
 * produce (see the Classification module, whose methods are proved to
 * compute it); `Parse` is the reading of that string back into entries and
 * tokens, and the lemmas here relate the two.
 */
module Remap {
  import opened Wrappers
  import opened Text

  /**
   * The remap built from rows of token texts.  Each row contributes its
   * tokens joined by single spaces; the first row is trimmed at both ends and
   * every later row at its end only (the loop strips the whole string built
   * so far, whose start is the first row's); rows are separated by `;` and
   * there is no trailing `;`.  No rows give `""`.
   */
  function Serialise(rows: seq<seq<string>>): string
    decreases |rows|
  {
    if |rows| == 0 then ""
    else if |rows| == 1 then Strip(Join(' ', rows[0]))
    else Serialise(rows[..|rows| - 1]) + ";" + RStrip(Join(' ', rows[|rows| - 1]))
  }

  /** Each row's tokens joined by single spaces. */
  function RowTexts(rows: seq<seq<string>>): (texts: seq<string>)
    ensures |texts| == |rows|
    ensures forall k :: 0 <= k < |rows| ==> texts[k] == Join(' ', rows[k])
  {
    seq(|rows|, k requires 0 <= k < |rows| => Join(' ', rows[k]))
  }

  /** Every token is non-empty and starts and ends with a non-space. */
  predicate CleanTokens(rows: seq<seq<string>>) {
    forall i, j :: 0 <= i < |rows| && 0 <= j < |rows[i]| ==> |rows[i][j]| > 0 && Trimmed(rows[i][j])
  }

  /** No token holds a `;`. */
  predicate NoSemicolons(rows: seq<seq<string>>) {
    forall i, j :: 0 <= i < |rows| && 0 <= j < |rows[i]| ==> ';' !in rows[i][j]
  }

  /**
   * With clean tokens the stripping changes nothing: the remap is exactly the
   * rows joined by `;`, each row its tokens joined by single spaces.
   */
  lemma {:induction false} SerialiseClean(rows: seq<seq<string>>)
    requires CleanTokens(rows)
    ensures Serialise(rows) == Join(';', RowTexts(rows))
    decreases |rows|
  {
    if |rows| == 1 {
      CleanRowUnstripped(rows, 0);
      assert RowTexts(rows) == [Join(' ', rows[0])];
    } else if |rows| > 1 {
      var init := rows[..|rows| - 1];
      var last := Join(' ', rows[|rows| - 1]);
      CleanPrefix(rows);
      SerialiseClean(init);
      CleanRowUnstripped(rows, |rows| - 1);
      RowTextsSnoc(rows);
      JoinSnoc(';', RowTexts(init), last);
      assert Serialise(rows) == Serialise(init) + ";" + last;
    }
  }

  lemma RowTextsSnoc(rows: seq<seq<string>>)
    requires |rows| > 0
    ensures RowTexts(rows) == RowTexts(rows[..|rows| - 1]) + [Join(' ', rows[|rows| - 1])]
  {
    var init := rows[..|rows| - 1];
    assert forall k :: 0 <= k < |init| ==> init[k] == rows[k];
  }

  /** Stripping leaves the text of a row of clean tokens unchanged. */
  lemma CleanRowUnstripped(rows: seq<seq<string>>, i: nat)
    requires CleanTokens(rows) && i < |rows|
    ensures Strip(Join(' ', rows[i])) == Join(' ', rows[i])
    ensures RStrip(Join(' ', rows[i])) == Join(' ', rows[i])
  {
    var row := rows[i];
    assert forall k :: 0 <= k < |row| ==> Trimmed(row[k]) && |row[k]| > 0;
    JoinTrimmed(' ', row);
    StripTrimmed(Join(' ', row));
  }

  lemma CleanPrefix(rows: seq<seq<string>>)
    requires CleanTokens(rows) && |rows| > 0
    ensures CleanTokens(rows[..|rows| - 1])
  {
    var init := rows[..|rows| - 1];
    forall i, j | 0 <= i < |init| && 0 <= j < |init[i]|
      ensures |init[i][j]| > 0 && Trimmed(init[i][j])
    {
      assert init[i] == rows[i];
    }
  }

  /** The text of one row holds no `;` when none of its tokens does. */
  lemma RowAvoidsSemicolon(row: seq<string>)
    requires forall j :: 0 <= j < |row| ==> ';' !in row[j]
    ensures ';' !in Strip(Join(' ', row)) && ';' !in RStrip(Join(' ', row))
  {
    JoinAvoids(' ', row, ';');
    StripKeepsOnly(Join(' ', row), ';');
  }

  /**
   * When no token holds a `;`, the remap holds exactly one `;` fewer than
   * there are rows (and none for an empty table).
   */
  lemma {:induction false} SemicolonCount(rows: seq<seq<string>>)
    requires NoSemicolons(rows)
    ensures Count(';', Serialise(rows)) == if |rows| == 0 then 0 else |rows| - 1
    decreases |rows|
  {
    if |rows| == 1 {
      RowAvoidsSemicolon(rows[0]);
      CountAbsent(';', Strip(Join(' ', rows[0])));
    } else if |rows| > 1 {
      var init, last := rows[..|rows| - 1], rows[|rows| - 1];
      assert NoSemicolons(init) by {
        forall i, j | 0 <= i < |init| && 0 <= j < |init[i]| ensures ';' !in init[i][j] {
          assert init[i] == rows[i];
        }
      }
      SemicolonCount(init);
      RowAvoidsSemicolon(last);
      var tail := RStrip(Join(' ', last));
      CountAbsent(';', tail);
      CountAppend(';', Serialise(init), ";");
      CountAppend(';', Serialise(init) + ";", tail);
    }
  }

  /** A categorical token as written into the remap: in single quotes when it holds a space. */
  function Quote(t: string): string {
    if ' ' in t then "'" + t + "'" else t
  }

  function QuoteRow(row: seq<string>): (q: seq<string>)
    ensures |q| == |row| && forall j :: 0 <= j < |row| ==> q[j] == Quote(row[j])
  {
    seq(|row|, j requires 0 <= j < |row| => Quote(row[j]))
  }

  function QuoteRows(rows: seq<seq<string>>): (q: seq<seq<string>>)
    ensures |q| == |rows| && forall i :: 0 <= i < |rows| ==> q[i] == QuoteRow(rows[i])
  {
    seq(|rows|, i requires 0 <= i < |rows| => QuoteRow(rows[i]))
  }

  /**
   * Reads one remap entry: splits it into tokens on the spaces outside
   * single quotes and drops the quotes.  `quoted` says whether a quote is
   * open and `current` holds the token read so far.
   */
  function Tokens(s: string, quoted: bool, current: string): (r: seq<string>)
    ensures |r| > 0
    decreases |s|
  {
    if |s| == 0 then [current]
    else if s[0] == '\'' then Tokens(s[1..], !quoted, current)
    else if s[0] == ' ' && !quoted then [current] + Tokens(s[1..], false, "")
    else Tokens(s[1..], quoted, current + [s[0]])
  }

  function Words(entry: string): seq<string> {
    Tokens(entry, false, "")
  }

  /** Reads a remap: split on `;`, then each entry into its unquoted tokens. */
  function Parse(remap: string): (entries: seq<seq<string>>)
    ensures |entries| == |Split(remap, ';')|
  {
    var pieces := Split(remap, ';');
    seq(|pieces|, k requires 0 <= k < |pieces| => Words(pieces[k]))
  }

  /** Text without quotes (and, outside a quote, without spaces) is read as part of the current token. */
  lemma {:induction false} TokensPlain(t: string, rest: string, quoted: bool, current: string)
    requires '\'' !in t && (quoted || ' ' !in t)
    ensures Tokens(t + rest, quoted, current) == Tokens(rest, quoted, current + t)
    decreases |t|
  {
    if |t| == 0 {
      assert t + rest == rest;
      assert current + t == current;
    } else {
      assert (t + rest)[1..] == t[1..] + rest;
      TokensPlain(t[1..], rest, quoted, current + [t[0]]);
      assert current + [t[0]] + t[1..] == current + t;
    }
  }

  /** A quoted token (quoted only if it holds a space) is read back as the original token. */
  lemma TokenQuoted(t: string, rest: string, current: string)
    requires '\'' !in t
    ensures Tokens(Quote(t) + rest, false, current) == Tokens(rest, false, current + t)
  {
    if ' ' in t {
      var s := "'" + t + "'" + rest;
      assert Quote(t) + rest == s;
      assert s[1..] == t + ("'" + rest);
      TokensPlain(t, "'" + rest, true, current);
      assert ("'" + rest)[1..] == rest;
    } else {
      TokensPlain(t, rest, false, current);
    }
  }

  /** One row written with quoting and single spaces reads back as its tokens. */
  lemma {:induction false} WordsRow(row: seq<string>)
    requires |row| > 0
    requires forall j :: 0 <= j < |row| ==> '\'' !in row[j]
    ensures Words(Join(' ', QuoteRow(row))) == row
    decreases |row|
  {
    var q := QuoteRow(row);
    if |row| == 1 {
      assert Join(' ', q) + "" == Quote(row[0]);
      TokenQuoted(row[0], "", "");
      assert "" + row[0] == row[0];
    } else {
      assert q[1..] == QuoteRow(row[1..]);
      WordsRow(row[1..]);
      var j := Join(' ', q[1..]);
      assert Join(' ', q) == Quote(row[0]) + ([' '] + j);
      TokenQuoted(row[0], [' '] + j, "");
      assert "" + row[0] == row[0];
      assert ([' '] + j)[1..] == j;
      assert [row[0]] + row[1..] == row;
    }
  }

  /**
   * The labels a categorical remap can carry faithfully: no `'` or `;` in a
   * category, at least one token per row and at least one row, and a label with
   * no space (so left unquoted) neither empty nor starting or ending with
   * whitespace.
   */
  predicate RoundTripSafe(rows: seq<seq<string>>) {
    && |rows| > 0
    && (forall i :: 0 <= i < |rows| ==> |rows[i]| > 0)
    && forall i, j :: 0 <= i < |rows| && 0 <= j < |rows[i]| ==>
         && '\'' !in rows[i][j]
         && ';' !in rows[i][j]
         && (' ' in rows[i][j] || (|rows[i][j]| > 0 && Trimmed(rows[i][j])))
  }

  /** Quoting makes every safe token clean: non-empty and not starting or ending with whitespace. */
  lemma QuotedClean(rows: seq<seq<string>>)
    requires RoundTripSafe(rows)
    ensures CleanTokens(QuoteRows(rows))
  {
    var q := QuoteRows(rows);
    forall i, j | 0 <= i < |q| && 0 <= j < |q[i]| ensures |q[i][j]| > 0 && Trimmed(q[i][j]) {
      var t := rows[i][j];
      assert q[i][j] == Quote(t);
      if ' ' in t {
        var w := "'" + t + "'";
        assert w[0] == '\'' && w[|w| - 1] == '\'';
      }
    }
  }

  /** No row text of the quoted rows holds a `;`. */
  lemma QuotedTextsAvoidSemicolon(rows: seq<seq<string>>)
    requires RoundTripSafe(rows)
    ensures forall k :: 0 <= k < |rows| ==> ';' !in RowTexts(QuoteRows(rows))[k]
  {
    var q := QuoteRows(rows);
    forall k | 0 <= k < |rows| ensures ';' !in RowTexts(q)[k] {
      forall j | 0 <= j < |q[k]| ensures ';' !in q[k][j] {
        assert q[k][j] == Quote(rows[k][j]);
      }
      JoinAvoids(' ', q[k], ';');
    }
  }

  /**
   * Token round trip: writing categorical rows into the remap (quoting the
   * tokens that hold a space) and reading it back (split on `;`, split on
   * spaces outside quotes, unquote) recovers the rows.
   */
  lemma RemapRoundTrip(rows: seq<seq<string>>)
    requires RoundTripSafe(rows)
    ensures Parse(Serialise(QuoteRows(rows))) == rows
  {
    var q := QuoteRows(rows);
    QuotedClean(rows);
    SerialiseClean(q);
    var texts := RowTexts(q);
    QuotedTextsAvoidSemicolon(rows);
    SplitJoin(texts, ';');
    assert Split(Serialise(q), ';') == texts;
    var parsed := Parse(Serialise(q));
    forall k | 0 <= k < |rows| ensures parsed[k] == rows[k] {
      assert parsed[k] == Words(texts[k]);
      assert texts[k] == Join(' ', QuoteRow(rows[k]));
      WordsRow(rows[k]);
    }
  }

  /** The remap of an empty table is `""`. */
  lemma EmptyRemap()
    ensures Serialise(QuoteRows([])) == "" && Serialise([]) == ""
  {
  }

  /** An entry names a label when it is exactly `label class`. */
  predicate Names(entry: seq<string>, category: string) {
    |entry| == 2 && entry[0] == category
  }

  /**
   * Reclassify on one cell of a categorical raster: the class of the first
   * entry that names the cell's label; under `missing_values='NODATA'` a
   * label that no entry names becomes NoData.
   */
  function LookupClass(entries: seq<seq<string>>, category: string): (r: Option<string>)
    ensures r.None? <==> forall k :: 0 <= k < |entries| ==> !Names(entries[k], category)
    ensures r.Some? ==> exists k :: 0 <= k < |entries| && Names(entries[k], category) && r.value == entries[k][1]
                                  && forall j :: 0 <= j < k ==> !Names(entries[j], category)
    decreases |entries|
  {
    if |entries| == 0 then None
    else if Names(entries[0], category) then Some(entries[0][1])
    else
      var r := LookupClass(entries[1..], category);
      assert forall k :: 1 <= k < |entries| ==> entries[k] == entries[1..][k - 1];
      r
  }

  /** Reclassify of a categorical raster with a remap string, cell by cell; NoData stays NoData. */
  function ReclassifyCategorical(remap: string, raster: seq<Option<string>>): (out: seq<Option<string>>)
    ensures |out| == |raster|
  {
    var entries := Parse(remap);
    seq(|raster|, c requires 0 <= c < |raster| =>
      if raster[c].Some? then LookupClass(entries, raster[c].value) else None)
  }

  /** A two-label lithology schema: one label that holds spaces, one that does not. */
  const GeologySchema: seq<seq<string>> := [[Granite, "1"], ["Basalt", "2"]]

  /** Its lithology label that holds spaces. */
  const Granite: string := "Early Proterozoic granite"

  lemma GeologySafe()
    ensures RoundTripSafe(GeologySchema)
  {
    GeologyLabel();
    GeologyPlainTokens();
    var g := GeologySchema;
    forall i, j | 0 <= i < |g| && 0 <= j < |g[i]|
      ensures '\'' !in g[i][j] && ';' !in g[i][j] && (' ' in g[i][j] || (|g[i][j]| > 0 && Trimmed(g[i][j])))
    {
      if i == 0 && j == 0 {
        assert g[i][j] == Granite;
      } else {
        assert g[i][j] in ["1", "2", "Basalt"];
      }
    }
  }

  /** The label with spaces holds neither a quote nor a `;`. */
  lemma GeologyLabel()
    ensures ' ' in Granite && '\'' !in Granite && ';' !in Granite
  {
    assert Granite[5] == ' ';
  }

  /** The other tokens are clean and hold neither a quote nor a `;`. */
  lemma GeologyPlainTokens()
    ensures forall t :: t in ["1", "2", "Basalt"] ==> |t| > 0 && Trimmed(t) && '\'' !in t && ';' !in t && ' ' !in t
  {
  }

  /** Quoting wraps the label with spaces and leaves the other tokens alone. */
  lemma GeologyQuoted()
    ensures QuoteRows(GeologySchema) == [["'" + Granite + "'", "1"], ["Basalt", "2"]]
  {
    GeologyLabel();
    assert ' ' !in "1" && ' ' !in "2" && ' ' !in "Basalt";
    var q := QuoteRows(GeologySchema);
    var r0, r1 := QuoteRow([Granite, "1"]), QuoteRow(["Basalt", "2"]);
    assert r0[0] == Quote(Granite) == "'" + Granite + "'" && r0[1] == Quote("1") == "1";
    assert r1[0] == Quote("Basalt") == "Basalt" && r1[1] == Quote("2") == "2";
    assert r0 == ["'" + Granite + "'", "1"] && r1 == ["Basalt", "2"];
    assert q == [r0, r1];
  }

  /** Its remap quotes the label with spaces and leaves the other one alone. */
  lemma GeologyRemapText()
    ensures Serialise(QuoteRows(GeologySchema)) == "'" + Granite + "' 1;Basalt 2"
  {
    GeologyQuoted();
    var quotedLabel := "'" + Granite + "'";
    var q: seq<seq<string>> := [[quotedLabel, "1"], ["Basalt", "2"]];
    var t0, t1 := quotedLabel + " 1", "Basalt 2";
    assert Join(' ', q[0]) == t0;
    assert Join(' ', q[1]) == t1;
    assert Trimmed(t0) by {
      assert t0[0] == '\'' && t0[|t0| - 1] == '1';
    }
    assert Trimmed(t1) by {
      assert t1[0] == 'B' && t1[|t1| - 1] == '2';
    }
    StripTrimmed(t0);
    StripTrimmed(t1);
    assert q[..1] == [q[0]];
    assert Serialise(q) == t0 + ";" + t1;
    assert "'" + Granite + "' 1;Basalt 2" == quotedLabel + (" 1" + ";" + t1);
  }

  /**
   * A raster holding only the label `Basalt`, classified with that remap,
   * is the class `2` in every cell and NoData in none.
   */
  lemma BasaltEverywhere(raster: seq<Option<string>>)
    requires forall c :: 0 <= c < |raster| ==> raster[c] == Some("Basalt")
    ensures forall c :: 0 <= c < |raster| ==>
      ReclassifyCategorical(Serialise(QuoteRows(GeologySchema)), raster)[c] == Some("2")
  {
    GeologySafe();
    RemapRoundTrip(GeologySchema);
    var entries := Parse(Serialise(QuoteRows(GeologySchema)));
    assert entries == GeologySchema;
    assert !Names(GeologySchema[0], "Basalt") by {
      assert GeologySchema[0][0][0] != "Basalt"[0];
    }
    assert Names(GeologySchema[1], "Basalt");
    assert LookupClass(GeologySchema, "Basalt") == Some("2");
  }

  /** A labelled cell whose label no entry names is NoData after reclassification. */
  lemma UnlistedLabelIsNoData(remap: string, raster: seq<Option<string>>, c: nat)
    requires c < |raster| && raster[c].Some?
    requires forall k :: 0 <= k < |Parse(remap)| ==> !Names(Parse(remap)[k], raster[c].value)
    ensures ReclassifyCategorical(remap, raster)[c] == None
  {
  }
}
