/**
 * `parse_cities`: the list of location queries, built from the inline
 * `--cities` string and the rows of the `--cities-file` table.
 */
module Cities {
  import opened Wrappers
  import opened Text

  /**
   * One record of `csv.DictReader`: column name to cell. A row shorter than the
   * header gets `None` in its missing cells; a column absent from the header is
   * absent from the map.
   */
  type CsvRow = map<string, Option<string>>

  /** `NoCities` is the `sys.exit` when nothing was found; `ShortRow` the crash of `.strip()` on a `None` cell. */
  datatype CityError = NoCities | ShortRow

  /** An entry the parser keeps: non-empty, stripped, and free of the inline separator. */
  predicate IsQueryEntry(q: string) {
    q != "" && IsStripped(q) && ';' !in q
  }

  /** `[c.strip() for c in chunks if c.strip()]`, written from the last chunk back as the loop builds it. */
  function KeepStripped(chunks: seq<string>): seq<string> {
    if chunks == [] then []
    else
      var t := Strip(chunks[|chunks| - 1]);
      KeepStripped(chunks[..|chunks| - 1]) + (if t != "" then [t] else [])
  }

  /** The queries of an inline `--cities` value: its `;`-separated pieces, stripped, blank ones dropped. */
  function InlineQueries(cities: string): seq<string> {
    KeepStripped(Split(cities, ';'))
  }

  /** Filtering distributes over concatenation: pieces keep their order. */
  lemma {:induction false} KeepStrippedAppend(a: seq<string>, b: seq<string>)
    ensures KeepStripped(a + b) == KeepStripped(a) + KeepStripped(b)
    decreases |b|
  {
    if b != [] {
      var b', ab := b[..|b| - 1], a + b;
      assert ab[..|ab| - 1] == a + b';
      assert ab[|ab| - 1] == b[|b| - 1];
      KeepStrippedAppend(a, b');
    } else {
      assert a + b == a;
    }
  }

  /** Each inline query is non-empty, stripped and contains no `;`. */
  lemma {:induction false} InlineQueriesAreEntries(cities: string)
    ensures forall k :: 0 <= k < |InlineQueries(cities)| ==> IsQueryEntry(InlineQueries(cities)[k])
  {
    KeptAreEntries(Split(cities, ';'));
  }

  lemma {:induction false} KeptAreEntries(chunks: seq<string>)
    requires forall k :: 0 <= k < |chunks| ==> ';' !in chunks[k]
    ensures forall k :: 0 <= k < |KeepStripped(chunks)| ==> IsQueryEntry(KeepStripped(chunks)[k])
  {
    if chunks != [] {
      var last := chunks[|chunks| - 1];
      KeptAreEntries(chunks[..|chunks| - 1]);
      StripSpec(last);
    }
  }

  /** A stripped string is its own strip. */
  lemma StrippedIsFixed(s: string)
    requires IsStripped(s)
    ensures Strip(s) == s
  {
    assert StripLeft(s) == s;
    assert StripRight(s) == s;
  }

  /** Keeping stripped pieces changes nothing when every piece is already an entry. */
  lemma {:induction false} KeepEntries(xs: seq<string>)
    requires forall k :: 0 <= k < |xs| ==> IsQueryEntry(xs[k])
    ensures KeepStripped(xs) == xs
  {
    if xs != [] {
      KeepEntries(xs[..|xs| - 1]);
      StrippedIsFixed(xs[|xs| - 1]);
    }
  }

  /**
   * Round trip: joining entries with `;` and parsing the result gives the same
   * entries back, in the same order.
   */
  lemma InlineRoundTrip(xs: seq<string>)
    requires forall k :: 0 <= k < |xs| ==> IsQueryEntry(xs[k])
    ensures InlineQueries(Join(xs, ';')) == xs
  {
    if xs == [] {
      assert Split("", ';') == [""];
    } else {
      SplitJoin(xs, ';');
      KeepEntries(xs);
    }
  }

  /** A cell of a row, stripped; `row.get(column, "")` when the column is absent from the header. */
  function Cell(row: CsvRow, column: string): Result<string, CityError> {
    if column !in row then Ok("")
    else match row[column]
      case None => Err(ShortRow)
      case Some(v) => Ok(Strip(v))
  }

  /** `[x for x in parts if x]` */
  function NonEmpty(parts: seq<string>): (r: seq<string>)
    ensures |r| <= |parts|
    ensures forall k :: 0 <= k < |r| ==> r[k] != ""
    ensures forall x :: x in r <==> x in parts && x != ""
  {
    if parts == [] then []
    else (if parts[0] != "" then [parts[0]] else []) + NonEmpty(parts[1..])
  }

  /** The filter keeps order: filtering a concatenation concatenates the filtered halves. */
  lemma {:induction false} NonEmptyAppend(a: seq<string>, b: seq<string>)
    ensures NonEmpty(a + b) == NonEmpty(a) + NonEmpty(b)
  {
    if a != [] {
      assert (a + b)[1..] == a[1..] + b;
      NonEmptyAppend(a[1..], b);
    } else {
      assert a + b == b;
    }
  }

  /** The query of one table row: name, state and country joined with `,`, blank parts left out. */
  function RowQuery(row: CsvRow): Result<string, CityError> {
    var name :- Cell(row, "name");
    var state :- Cell(row, "state");
    var country :- Cell(row, "country");
    Ok(Join(NonEmpty([name, state, country]), ','))
  }

  /** Joining non-empty parts gives the empty string exactly when there are no parts. */
  lemma JoinEmpty(parts: seq<string>, sep: char)
    requires forall k :: 0 <= k < |parts| ==> parts[k] != ""
    ensures Join(parts, sep) == "" <==> parts == []
  {
    if |parts| >= 2 {
      assert |Join(parts, sep)| >= |parts[0]| + 1;
    }
  }

  /**
   * A row gives a query exactly when all its cells are present; the query is empty
   * exactly when the three stripped cells are blank, and when none of them holds a
   * comma, splitting it on `,` gives back the non-blank cells in order.
   */
  lemma RowQuerySpec(row: CsvRow)
    ensures RowQuery(row).Ok?
        <==> Cell(row, "name").Ok? && Cell(row, "state").Ok? && Cell(row, "country").Ok?
    ensures RowQuery(row).Ok? ==>
              var parts := [Cell(row, "name").value, Cell(row, "state").value, Cell(row, "country").value];
              && (RowQuery(row).value == "" <==> parts == ["", "", ""])
              && ((forall k :: 0 <= k < 3 ==> ',' !in parts[k]) && parts != ["", "", ""]
                  ==> Split(RowQuery(row).value, ',') == NonEmpty(parts))
  {
    if RowQuery(row).Ok? {
      var parts := [Cell(row, "name").value, Cell(row, "state").value, Cell(row, "country").value];
      var kept := NonEmpty(parts);
      JoinEmpty(kept, ',');
      NonEmptyIsEmpty(parts);
      if (forall k :: 0 <= k < 3 ==> ',' !in parts[k]) && parts != ["", "", ""] {
        NonEmptyKeepsSubset(parts, ',');
        SplitJoin(kept, ',');
      }
    }
  }

  lemma {:induction false} NonEmptyIsEmpty(parts: seq<string>)
    ensures NonEmpty(parts) == [] <==> forall k :: 0 <= k < |parts| ==> parts[k] == ""
  {
    if parts != [] {
      NonEmptyIsEmpty(parts[1..]);
      assert forall k :: 1 <= k < |parts| ==> parts[k] == parts[1..][k - 1];
    }
  }

  lemma {:induction false} NonEmptyKeepsSubset(parts: seq<string>, c: char)
    requires forall k :: 0 <= k < |parts| ==> c !in parts[k]
    ensures forall k :: 0 <= k < |NonEmpty(parts)| ==> c !in NonEmpty(parts)[k]
  {
    if parts != [] {
      NonEmptyKeepsSubset(parts[1..], c);
    }
  }

  lemma StripCuritibaCells()
    ensures Strip("Curitiba") == "Curitiba" && Strip("BR") == "BR"
  {
    StrippedIsFixed("Curitiba");
    StrippedIsFixed("BR");
  }

  lemma StripBlankCell()
    ensures Strip(" ") == ""
  {
    assert StripLeft(" ") == StripLeft("");
  }

  lemma JoinCuritibaParts()
    ensures Join(NonEmpty(["Curitiba", "", "BR"]), ',') == "Curitiba,BR"
  {
    var parts := ["Curitiba", "", "BR"];
    assert NonEmpty(parts[2..]) == ["BR"];
    assert NonEmpty(parts[1..]) == ["BR"];
  }

  /** name="Curitiba", no state column, country="BR" gives "Curitiba,BR". */
  lemma CuritibaWithoutState()
    ensures RowQuery(map["name" := Some("Curitiba"), "country" := Some("BR")]) == Ok("Curitiba,BR")
  {
    StripCuritibaCells();
    JoinCuritibaParts();
  }

  /** A blank state cell is left out the same way. */
  lemma CuritibaBlankState()
    ensures RowQuery(map["name" := Some("Curitiba"), "state" := Some(" "), "country" := Some("BR")]) == Ok("Curitiba,BR")
  {
    StripCuritibaCells();
    StripBlankCell();
    JoinCuritibaParts();
  }

  /** The queries of the table rows, in row order; a row that joins to "" is skipped. */
  function FileQueries(rows: seq<CsvRow>): Result<seq<string>, CityError> {
    if rows == [] then Ok([])
    else
      var before :- FileQueries(rows[..|rows| - 1]);
      var q :- RowQuery(rows[|rows| - 1]);
      Ok(before + (if q != "" then [q] else []))
  }

  /** Once a prefix of the table fails, the whole table fails. */
  lemma {:induction false} FileQueriesFailFast(rows: seq<CsvRow>, j: nat)
    requires j <= |rows|
    requires FileQueries(rows[..j]).Err?
    ensures FileQueries(rows).Err?
    decreases |rows| - j
  {
    if j < |rows| {
      var init := rows[..|rows| - 1];
      assert init[..j] == rows[..j];
      FileQueriesFailFast(init, j);
    } else {
      assert rows[..j] == rows;
    }
  }

  /** Every query taken from the table is non-empty. */
  lemma {:induction false} FileQueriesNonBlank(rows: seq<CsvRow>)
    requires FileQueries(rows).Ok?
    ensures forall k :: 0 <= k < |FileQueries(rows).value| ==> FileQueries(rows).value[k] != ""
  {
    if rows != [] {
      FileQueriesNonBlank(rows[..|rows| - 1]);
    }
  }

  /** The result of `parse_cities`: inline queries first, then the table's. */
  function CityQueries(cities: Option<string>, file: Option<seq<CsvRow>>): Result<seq<string>, CityError> {
    var inline := if cities.Some? then InlineQueries(cities.value) else [];
    var fromFile :- if file.Some? then FileQueries(file.value) else Ok([]);
    if inline + fromFile == [] then Err(NoCities) else Ok(inline + fromFile)
  }

  /**
   * What `parse_cities` promises: on success a non-empty list whose inline entries
   * come first, followed by the table's; "no cities" exactly when both sources
   * give nothing; a short row fails the whole call.
   */
  lemma CityQueriesSpec(cities: Option<string>, file: Option<seq<CsvRow>>)
    ensures var r := CityQueries(cities, file);
            var inline := if cities.Some? then InlineQueries(cities.value) else [];
            && (r.Ok? ==> r.value != [] && r.value[..|inline|] == inline
                          && (file.Some? ==> r.value[|inline|..] == FileQueries(file.value).value)
                          && (file.None? ==> r.value == inline))
            && (r == Err(ShortRow) <==> file.Some? && FileQueries(file.value).Err?)
            && (r == Err(NoCities) <==> inline == [] && (file.None? || FileQueries(file.value) == Ok([])))
  {
    if file.Some? && FileQueries(file.value).Err? {
      FileQueriesIsShortRow(file.value);
    }
  }

  lemma {:induction false} FileQueriesIsShortRow(rows: seq<CsvRow>)
    requires FileQueries(rows).Err?
    ensures FileQueries(rows) == Err(ShortRow)
  {
    if rows != [] && FileQueries(rows[..|rows| - 1]).Err? {
      FileQueriesIsShortRow(rows[..|rows| - 1]);
    }
  }

  /** The first loop of `parse_cities`: strip each `;`-separated chunk and keep the non-blank ones. */
  method CollectInline(cities: string) returns (out: seq<string>)
    ensures out == InlineQueries(cities)
  {
    out := [];
    var chunks := Split(cities, ';');
    var i := 0;
    while i < |chunks|
      invariant 0 <= i <= |chunks|
      invariant out == KeepStripped(chunks[..i])
    {
      var chunk := Strip(chunks[i]);
      if chunk != "" {
        out := out + [chunk];
      }
      assert chunks[..i + 1][..i] == chunks[..i];
      i := i + 1;
    }
    assert chunks[..i] == chunks;
  }

  /** The second loop of `parse_cities`: append the query of each table row that has one. */
  method CollectFile(out0: seq<string>, rows: seq<CsvRow>) returns (r: Result<seq<string>, CityError>)
    ensures FileQueries(rows).Err? ==> r == Err(ShortRow)
    ensures FileQueries(rows).Ok? ==> r == Ok(out0 + FileQueries(rows).value)
  {
    var out := out0;
    var j := 0;
    while j < |rows|
      invariant 0 <= j <= |rows|
      invariant FileQueries(rows[..j]).Ok?
      invariant out == out0 + FileQueries(rows[..j]).value
    {
      assert rows[..j + 1][..j] == rows[..j];
      var q := RowQuery(rows[j]);
      if q.Err? {
        FileQueriesFailFast(rows, j + 1);
        FileQueriesIsShortRow(rows);
        return Err(ShortRow);
      }
      if q.value != "" {
        out := out + [q.value];
      }
      j := j + 1;
    }
    assert rows[..j] == rows;
    return Ok(out);
  }

  /** `parse_cities`: inline chunks first, then the table rows; an empty result stops the run. */
  method ParseCities(cities: Option<string>, file: Option<seq<CsvRow>>) returns (r: Result<seq<string>, CityError>)
    ensures r == CityQueries(cities, file)
  {
    ghost var inline := if cities.Some? then InlineQueries(cities.value) else [];
    var out: seq<string> := [];
    if cities.Some? && cities.value != "" {
      out := CollectInline(cities.value);
    } else if cities.Some? {
      assert Split("", ';') == [""];
    }
    assert out == inline;
    if file.Some? {
      r := CollectFile(out, file.value);
      if r.Err? {
        FileQueriesIsShortRow(file.value);
        return;
      }
      out := r.value;
      assert out == inline + FileQueries(file.value).value;
    } else {
      assert out == inline + [];
    }
    if out == [] {
      return Err(NoCities);
    }
    return Ok(out);
  }
}
