/**
 * What the script leaves on disk: the `raw/` directory of JSON dumps and the
 * cumulative `weather.csv` table, and the per-city loop of `main` that fills them.
 */
module Output {
  import opened Wrappers
  import opened JsonValues
  import opened Normalise

  /** A line of `weather.csv`: the header pandas writes from the frame's columns, or one data row. */
  datatype Line = Header | RowLine(row: Row)

  function RowLines(rows: seq<Row>): seq<Line> {
    seq(|rows|, k requires 0 <= k < |rows| => RowLine(rows[k]))
  }

  /**
   * The table after one `to_csv` call: on a new file (mode "w") the header and the
   * rows; on an existing file (mode "a") the old lines and the rows, no header.
   */
  function Appended(existed: bool, lines: seq<Line>, rows: seq<Row>): seq<Line> {
    if existed then lines + RowLines(rows) else [Header] + RowLines(rows)
  }

  function HeaderCount(lines: seq<Line>): nat {
    if lines == [] then 0 else HeaderCount(lines[..|lines| - 1]) + (if lines[|lines| - 1].Header? then 1 else 0)
  }

  lemma {:induction false} HeaderCountAppend(a: seq<Line>, b: seq<Line>)
    ensures HeaderCount(a + b) == HeaderCount(a) + HeaderCount(b)
    decreases |b|
  {
    if b != [] {
      var b' := b[..|b| - 1];
      assert (a + b)[..|a + b| - 1] == a + b';
      HeaderCountAppend(a, b');
    } else {
      assert a + b == a;
    }
  }

  lemma {:induction false} RowLinesHaveNoHeader(rows: seq<Row>)
    ensures HeaderCount(RowLines(rows)) == 0
  {
    if rows != [] {
      assert RowLines(rows)[..|rows| - 1] == RowLines(rows[..|rows| - 1]);
      RowLinesHaveNoHeader(rows[..|rows| - 1]);
    }
  }

  /**
   * Header once: a new file gets exactly one header, in its first line; an append
   * to an existing file adds none and keeps every earlier line where it was.
   */
  lemma AppendedSpec(existed: bool, lines: seq<Line>, rows: seq<Row>)
    ensures var out := Appended(existed, lines, rows);
            && (existed ==> out[..|lines|] == lines && HeaderCount(out) == HeaderCount(lines))
            && (!existed ==> out[0] == Header && HeaderCount(out) == 1)
            && |out| == (if existed then |lines| else 1) + |rows|
            && out[|out| - |rows|..] == RowLines(rows)
  {
    RowLinesHaveNoHeader(rows);
    HeaderCountAppend(lines, RowLines(rows));
    HeaderCountAppend([Header], RowLines(rows));
    assert HeaderCount([Header]) == 1 by {
      assert [Header][..0] == [];
    }
  }

  /** Two appends to the same table are one append of both batches, in order. */
  lemma AppendedTwice(existed: bool, lines: seq<Line>, rows1: seq<Row>, rows2: seq<Row>)
    ensures Appended(true, Appended(existed, lines, rows1), rows2) == Appended(existed, lines, rows1 + rows2)
  {
    RowLinesConcat(rows1, rows2);
    if existed {
      assert (lines + RowLines(rows1)) + RowLines(rows2) == lines + (RowLines(rows1) + RowLines(rows2));
    } else {
      assert ([Header] + RowLines(rows1)) + RowLines(rows2) == [Header] + (RowLines(rows1) + RowLines(rows2));
    }
  }

  lemma RowLinesConcat(a: seq<Row>, b: seq<Row>)
    ensures RowLines(a + b) == RowLines(a) + RowLines(b)
  {
    forall k | 0 <= k < |a| + |b| ensures RowLines(a + b)[k] == (RowLines(a) + RowLines(b))[k] {
      if k < |a| {
        assert (a + b)[k] == a[k];
      } else {
        assert (a + b)[k] == b[k - |a|];
      }
    }
  }

  /** `q.replace(",", "_")` */
  function Sanitise(q: string): (r: string)
    ensures |r| == |q|
    ensures forall k :: 0 <= k < |q| ==> r[k] == if q[k] == ',' then '_' else q[k]
  {
    if q == [] then [] else [if q[0] == ',' then '_' else q[0]] + Sanitise(q[1..])
  }

  /** The raw dump's file name under `raw/`: the sanitised query, then the UTC stamp. */
  function RawFileName(q: string, stamp: string): string {
    Sanitise(q) + "_" + stamp + ".json"
  }

  /** The sanitised stem holds no comma, and a query without commas is its own stem. */
  lemma SanitiseSpec(q: string)
    ensures ',' !in Sanitise(q)
    ensures ',' !in q ==> Sanitise(q) == q
  {
    forall k | 0 <= k < |q| ensures Sanitise(q)[k] != ',' { }
  }

  /** The output directory's contents. */
  datatype DirState = DirState(raw: map<string, Bundle>, tableExists: bool, table: seq<Line>)

  /** A table that does not exist has no lines. */
  predicate ValidState(d: DirState) {
    !d.tableExists ==> d.table == []
  }

  /** The result of one city's `fetch_city` call: the fetch time, both payloads and the stamp taken afterwards; or a failure. */
  datatype Fetch = Fetched(fetchedAt: string, current: Json, forecast: Json, stamp: string) | FetchFailed

  datatype AbortReason = NetworkError | BadPayload

  /** `main` either finishes, or stops at a city with the exception that ended it. */
  datatype RunOutcome = Completed | Aborted(city: nat, reason: AbortReason)

  /** The bundle `fetch_city` assembles for a query. */
  function Pack(q: string, f: Fetch): Bundle
    requires f.Fetched?
  {
    Bundle(q, f.fetchedAt, f.current, f.forecast)
  }

  /**
   * How a bundle becomes rows. The run below is stated for any normaliser; the
   * script's is `BundleRows`, which `OutputDir.Run` uses.
   */
  type Normaliser = Bundle -> Result<seq<Row>, PayloadError>

  /** One pass of the loop in `main`: fetch, dump the raw bundle, append its rows. */
  function Step(d: DirState, i: nat, q: string, f: Fetch, normalise: Normaliser): (DirState, RunOutcome) {
    match f
    case FetchFailed => (d, Aborted(i, NetworkError))
    case Fetched(_, _, _, stamp) =>
      var b := Pack(q, f);
      var saved := d.(raw := d.raw[RawFileName(q, stamp) := b]);
      match normalise(b)
      case Err(_) => (saved, Aborted(i, BadPayload))
      case Ok(rows) => (saved.(tableExists := true, table := Appended(d.tableExists, d.table, rows)), Completed)
  }

  /** The first `n` passes of the loop, stopping at the first failure. */
  function RunPrefix(d: DirState, cities: seq<string>, fetches: seq<Fetch>, n: nat, normalise: Normaliser): (DirState, RunOutcome)
    requires n <= |cities| == |fetches|
  {
    if n == 0 then (d, Completed)
    else
      var (before, outcome) := RunPrefix(d, cities, fetches, n - 1, normalise);
      if outcome.Aborted? then (before, outcome)
      else Step(before, n - 1, cities[n - 1], fetches[n - 1], normalise)
  }

  /** Every one of the first `n` fetches and normalisations succeeds. */
  predicate AllSucceed(cities: seq<string>, fetches: seq<Fetch>, n: nat, normalise: Normaliser)
    requires n <= |cities| == |fetches|
  {
    forall k :: 0 <= k < n ==> fetches[k].Fetched? && normalise(Pack(cities[k], fetches[k])).Ok?
  }

  /** Every city's rows, in processing order. */
  function AllRows(cities: seq<string>, fetches: seq<Fetch>, n: nat, normalise: Normaliser): seq<Row>
    requires n <= |cities| == |fetches|
    requires AllSucceed(cities, fetches, n, normalise)
  {
    if n == 0 then []
    else AllRows(cities, fetches, n - 1, normalise) + normalise(Pack(cities[n - 1], fetches[n - 1])).value
  }

  /**
   * Append-only across a run, whatever its outcome: the table's earlier lines stay
   * a prefix, an existing table keeps existing, and no raw file disappears.
   */
  lemma {:induction false} RunIsAppendOnly(d: DirState, cities: seq<string>, fetches: seq<Fetch>, n: nat, normalise: Normaliser)
    requires n <= |cities| == |fetches|
    requires ValidState(d)
    ensures var after := RunPrefix(d, cities, fetches, n, normalise).0;
            && ValidState(after)
            && |d.table| <= |after.table| && after.table[..|d.table|] == d.table
            && (d.tableExists ==> after.tableExists)
            && d.raw.Keys <= after.raw.Keys
  {
    if n > 0 {
      RunIsAppendOnly(d, cities, fetches, n - 1, normalise);
      var (before, outcome) := RunPrefix(d, cities, fetches, n - 1, normalise);
      if outcome.Completed? && fetches[n - 1].Fetched? {
        var b := Pack(cities[n - 1], fetches[n - 1]);
        if normalise(b).Ok? {
          var after := Appended(before.tableExists, before.table, normalise(b).value);
          if before.tableExists {
            assert after[..|before.table|] == before.table;
            assert after[..|d.table|] == before.table[..|d.table|];
          }
        }
      }
    }
  }

  /**
   * A run in which every city succeeds: the table is the old one with all
   * cities' rows appended in processing order, and a header is added only when
   * the table was new.
   */
  lemma {:induction false} RunAllSucceed(d: DirState, cities: seq<string>, fetches: seq<Fetch>, n: nat, normalise: Normaliser)
    requires n <= |cities| == |fetches|
    requires ValidState(d)
    requires AllSucceed(cities, fetches, n, normalise)
    ensures var (after, outcome) := RunPrefix(d, cities, fetches, n, normalise);
            && outcome == Completed
            && (n > 0 ==> after.tableExists && after.table == Appended(d.tableExists, d.table, AllRows(cities, fetches, n, normalise)))
            && (n == 0 ==> after.table == d.table)
  {
    if n > 0 {
      RunAllSucceed(d, cities, fetches, n - 1, normalise);
      var before := RunPrefix(d, cities, fetches, n - 1, normalise).0;
      var rows := normalise(Pack(cities[n - 1], fetches[n - 1])).value;
      StepAppends(before, n - 1, cities[n - 1], fetches[n - 1], normalise);
      var after := RunPrefix(d, cities, fetches, n, normalise).0;
      assert after.table == Appended(before.tableExists, before.table, rows);
      if n > 1 {
        AppendedTwice(d.tableExists, d.table, AllRows(cities, fetches, n - 1, normalise), rows);
      } else {
        assert AllRows(cities, fetches, n, normalise) == rows;
      }
    }
  }

  /** A pass whose fetch and normalisation succeed appends that city's rows. */
  lemma StepAppends(d: DirState, i: nat, q: string, f: Fetch, normalise: Normaliser)
    requires f.Fetched? && normalise(Pack(q, f)).Ok?
    ensures Step(d, i, q, f, normalise).1 == Completed
    ensures Step(d, i, q, f, normalise).0.tableExists
    ensures Step(d, i, q, f, normalise).0.table == Appended(d.tableExists, d.table, normalise(Pack(q, f)).value)
  {
  }

  /**
   * Two cities into a fresh directory: exactly one header, first, followed by the
   * first city's rows (its current row, then its forecast rows) and then the second's.
   */
  lemma TwoCitiesFreshTable(raw: map<string, Bundle>, q1: string, q2: string, f1: Fetch, f2: Fetch)
    requires f1.Fetched? && f2.Fetched?
    requires BundleRows(Pack(q1, f1)).Ok? && BundleRows(Pack(q2, f2)).Ok?
    ensures var (after, outcome) := RunPrefix(DirState(raw, false, []), [q1, q2], [f1, f2], 2, BundleRows);
            && outcome == Completed
            && after.table == [Header] + RowLines(BundleRows(Pack(q1, f1)).value + BundleRows(Pack(q2, f2)).value)
            && HeaderCount(after.table) == 1
  {
    var cities, fetches := [q1, q2], [f1, f2];
    var d := DirState(raw, false, []);
    RunAllSucceed(d, cities, fetches, 2, BundleRows);
    assert AllRows(cities, fetches, 1, BundleRows) == [] + BundleRows(Pack(q1, f1)).value;
    assert AllRows(cities, fetches, 2, BundleRows) == BundleRows(Pack(q1, f1)).value + BundleRows(Pack(q2, f2)).value;
    AppendedSpec(false, [], AllRows(cities, fetches, 2, BundleRows));
  }

  /**
   * After a prefix that completed, one more pass either completes the next
   * prefix or, when it aborts, decides the whole run.
   */
  lemma RunPrefixNext(d: DirState, cities: seq<string>, fetches: seq<Fetch>, i: nat, normalise: Normaliser,
                      after: DirState, outcome: RunOutcome)
    requires i < |cities| == |fetches|
    requires RunPrefix(d, cities, fetches, i, normalise).1 == Completed
    requires (after, outcome) == Step(RunPrefix(d, cities, fetches, i, normalise).0, i, cities[i], fetches[i], normalise)
    ensures outcome.Completed? ==> RunPrefix(d, cities, fetches, i + 1, normalise) == (after, Completed)
    ensures outcome.Aborted? ==> RunPrefix(d, cities, fetches, |cities|, normalise) == (after, outcome)
  {
    if outcome.Aborted? {
      AbortIsFinal(d, cities, fetches, i + 1, |cities|, normalise);
    }
  }

  /** Once a pass fails, later passes change nothing. */
  lemma {:induction false} AbortIsFinal(d: DirState, cities: seq<string>, fetches: seq<Fetch>, i: nat, n: nat, normalise: Normaliser)
    requires i <= n <= |cities| == |fetches|
    requires RunPrefix(d, cities, fetches, i, normalise).1.Aborted?
    ensures RunPrefix(d, cities, fetches, n, normalise) == RunPrefix(d, cities, fetches, i, normalise)
    decreases n - i
  {
    if i < n {
      assert RunPrefix(d, cities, fetches, i + 1, normalise) == RunPrefix(d, cities, fetches, i, normalise);
      AbortIsFinal(d, cities, fetches, i + 1, n, normalise);
    }
  }

  /** The output directory that `main` writes into. */
  class OutputDir {
    var raw: map<string, Bundle>
    var tableExists: bool
    var table: seq<Line>

    ghost predicate Valid()
      reads this
    {
      ValidState(State())
    }

    function State(): DirState
      reads this
    {
      DirState(raw, tableExists, table)
    }

    /** A directory as found at the start of a run (a re-run finds the earlier output). */
    constructor (raw0: map<string, Bundle>, existed0: bool, table0: seq<Line>)
      requires ValidState(DirState(raw0, existed0, table0))
      ensures Valid() && State() == DirState(raw0, existed0, table0)
    {
      raw, tableExists, table := raw0, existed0, table0;
    }

    /** `json.dump` of the bundle into `raw/<name>` (an existing file of that name is overwritten). */
    method SaveRaw(name: string, b: Bundle)
      requires Valid()
      modifies this
      ensures Valid()
      ensures raw == old(raw)[name := b] && tableExists == old(tableExists) && table == old(table)
    {
      raw := raw[name := b];
    }

    /** `append_to_csv`: normalise the bundle, then write its rows, with the header only if the table is new. */
    method AppendToCsv(b: Bundle) returns (r: Result<seq<Row>, PayloadError>)
      requires Valid()
      modifies this
      ensures Valid() && raw == old(raw)
      ensures r == BundleRows(b)
      ensures r.Ok? ==> tableExists && table == Appended(old(tableExists), old(table), r.value)
      ensures r.Err? ==> tableExists == old(tableExists) && table == old(table)
    {
      r := NormaliseRows(b);
      if r.Ok? {
        table := Appended(tableExists, table, r.value);
        tableExists := true;
      }
    }

    /** One pass of the loop in `main` for the `i`-th city `q`, whose fetch gave `f`. */
    method ProcessCity(i: nat, q: string, f: Fetch) returns (outcome: RunOutcome)
      requires Valid()
      modifies this
      ensures Valid()
      ensures State() == Step(old(State()), i, q, f, BundleRows).0
      ensures outcome == Step(old(State()), i, q, f, BundleRows).1
    {
      match f
      case FetchFailed =>
        outcome := Aborted(i, NetworkError);
      case Fetched(fetchedAt, current, forecast, stamp) =>
        var pack := Bundle(q, fetchedAt, current, forecast);
        SaveRaw(RawFileName(q, stamp), pack);
        var rows := AppendToCsv(pack);
        outcome := if rows.Err? then Aborted(i, BadPayload) else Completed;
    }

    /** The loop of `main` over the parsed cities; `fetches[i]` is what the provider answered for `cities[i]`. */
    method Run(cities: seq<string>, fetches: seq<Fetch>) returns (outcome: RunOutcome)
      requires Valid() && |fetches| == |cities|
      modifies this
      ensures Valid()
      ensures (State(), outcome) == RunPrefix(old(State()), cities, fetches, |cities|, BundleRows)
    {
      ghost var start := State();
      var i := 0;
      while i < |cities|
        invariant 0 <= i <= |cities|
        invariant RunPrefix(start, cities, fetches, i, BundleRows) == (State(), Completed)
        invariant Valid()
      {
        outcome := ProcessCity(i, cities[i], fetches[i]);
        RunPrefixNext(start, cities, fetches, i, BundleRows, State(), outcome);
        if outcome.Aborted? {
          return;
        }
        i := i + 1;
      }
      outcome := Completed;
    }
  }
}
