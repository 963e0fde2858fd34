/**
 * The row-building half of `append_to_csv`: a fetch bundle (the current-weather
 * payload and the forecast payload of one city) flattened into table rows.
 */
module Normalise {
  import opened Wrappers
  import opened JsonValues

  /** What `fetch_city` returns for one city: the query, the UTC fetch time, and both decoded payloads. */
  datatype Bundle = Bundle(query: string, fetchedAt: string, current: Json, forecast: Json)

  /** The columns that differ by kind: `rain_1h` on the current row, `rain_3h` and `pop` on forecast rows. */
  datatype Precipitation = Rain1h(rain1h: Json) | Rain3h(rain3h: Json, pop: Json)

  /** The location columns `name`, `lat`, `lon`. */
  datatype Place = Place(name: Json, lat: Json, lon: Json)

  /** The observation columns `temp_c`, `humidity`, `pressure`, `wind_speed`, `weather`, `weather_desc`. */
  datatype Readings = Readings(tempC: Json, humidity: Json, pressure: Json, windSpeed: Json, weather: Json, weatherDesc: Json)

  /**
   * One flat table row. `ts` holds the payload's raw `dt` value (0 when missing);
   * the script prints it as an ISO UTC time. Absent values are `JNull`.
   */
  datatype Row = Row(
    ts: Json,
    cityQuery: string,
    fetchedAt: string,
    kind: string,
    place: Place,
    readings: Readings,
    precipitation: Precipitation)

  const CurrentKind := "current"
  const ForecastKind := "forecast"

  /** A row of the given bundle tagged "current", carrying `rain_1h`. */
  predicate IsCurrentRowOf(row: Row, b: Bundle) {
    row.kind == CurrentKind && row.precipitation.Rain1h? && row.cityQuery == b.query && row.fetchedAt == b.fetchedAt
  }

  /** A row of the given bundle tagged "forecast", carrying `rain_3h` and `pop`. */
  predicate IsForecastRowOf(row: Row, b: Bundle) {
    row.kind == ForecastKind && row.precipitation.Rain3h? && row.cityQuery == b.query && row.fetchedAt == b.fetchedAt
  }

  /** `d.get("dt", 0)` */
  function DtOf(d: map<string, Json>): Json {
    if "dt" in d then d["dt"] else JNum(0.0)
  }

  /** The readings of an observation (the current payload or one forecast entry). */
  function ReadingsOf(d: map<string, Json>): Result<Readings, PayloadError> {
    var main :- DictOrEmpty(d, "main");
    var wind :- DictOrEmpty(d, "wind");
    var w :- FirstWeather(d);
    Ok(Readings(Get(main, "temp"), Get(main, "humidity"), Get(main, "pressure"),
                Get(wind, "speed"), Get(w, "main"), Get(w, "description")))
  }

  /** Name and position of the current payload: `cur.get("name")`, `cur.get("coord", {}).get(...)`. */
  function CurrentPlace(cur: map<string, Json>): Result<Place, PayloadError> {
    var coord :- DictAt(cur, "coord");
    Ok(Place(Get(cur, "name"), Get(coord, "lat"), Get(coord, "lon")))
  }

  /** Name and position of a forecast row, from the forecast's `city` object. */
  function ForecastPlace(fct: map<string, Json>): Result<Place, PayloadError> {
    var city :- DictOrEmpty(fct, "city");
    var coord :- DictAt(city, "coord");
    Ok(Place(Get(city, "name"), Get(coord, "lat"), Get(coord, "lon")))
  }

  /** The row for a truthy current-weather object. */
  function CurrentRow(b: Bundle, cur: map<string, Json>): Result<Row, PayloadError> {
    var place :- CurrentPlace(cur);
    var readings :- ReadingsOf(cur);
    var rain :- DictOrEmpty(cur, "rain");
    Ok(Row(DtOf(cur), b.query, b.fetchedAt, CurrentKind, place, readings, Rain1h(Get(rain, "1h"))))
  }

  /** The row for one entry of the forecast `list`. */
  function ForecastRow(b: Bundle, fct: map<string, Json>, item: Json): Result<Row, PayloadError> {
    if !item.JObj? then Err(Malformed)
    else
      var place :- ForecastPlace(fct);
      var readings :- ReadingsOf(item.fields);
      var rain :- DictOrEmpty(item.fields, "rain");
      Ok(Row(DtOf(item.fields), b.query, b.fetchedAt, ForecastKind, place, readings,
             Rain3h(Get(rain, "3h"), Get(item.fields, "pop"))))
  }

  /** At most one current row: none when the payload is falsy (`city_pack.get("current", {}) or {}`). */
  function CurrentRows(b: Bundle): Result<seq<Row>, PayloadError> {
    if !Truthy(b.current) then Ok([])
    else if !b.current.JObj? then Err(Malformed)
    else
      var row :- CurrentRow(b, b.current.fields);
      Ok([row])
  }

  /** `city_pack.get("forecast", {}) or {}`, which must then answer `.get`. */
  function ForecastObject(b: Bundle): Result<map<string, Json>, PayloadError> {
    if !Truthy(b.forecast) then Ok(map[])
    else if b.forecast.JObj? then Ok(b.forecast.fields)
    else Err(Malformed)
  }

  /** `fct.get("list") or []`, which must then be iterable into dicts: a list. */
  function ForecastItems(fct: map<string, Json>): Result<seq<Json>, PayloadError> {
    var list := Get(fct, "list");
    if !Truthy(list) then Ok([])
    else if list.JArr? then Ok(list.items)
    else Err(Malformed)
  }

  /** The forecast entries the loop walks over. */
  function ForecastList(b: Bundle): Result<seq<Json>, PayloadError> {
    var fct :- ForecastObject(b);
    ForecastItems(fct)
  }

  /** One forecast row per entry, in list order (written from the last entry back, as the loop appends). */
  function ForecastRows(b: Bundle, fct: map<string, Json>, items: seq<Json>): Result<seq<Row>, PayloadError> {
    if items == [] then Ok([])
    else
      var before :- ForecastRows(b, fct, items[..|items| - 1]);
      var row :- ForecastRow(b, fct, items[|items| - 1]);
      Ok(before + [row])
  }

  /** The rows of the forecast loop. */
  function ForecastPart(b: Bundle): Result<seq<Row>, PayloadError> {
    var fct :- ForecastObject(b);
    var items :- ForecastItems(fct);
    ForecastRows(b, fct, items)
  }

  /** All rows of one bundle: the current row first, then the forecast rows. */
  function BundleRows(b: Bundle): Result<seq<Row>, PayloadError> {
    var cur :- CurrentRows(b);
    var fore :- ForecastPart(b);
    Ok(cur + fore)
  }

  /** Number of current rows a bundle yields: one exactly when its current payload is truthy. */
  function CurrentCount(b: Bundle): nat {
    if Truthy(b.current) then 1 else 0
  }

  /** A forecast entry's row carries the forecast tag and the bundle's query and fetch time. */
  lemma ForecastRowTagged(b: Bundle, fct: map<string, Json>, item: Json)
    requires ForecastRow(b, fct, item).Ok?
    ensures IsForecastRowOf(ForecastRow(b, fct, item).value, b)
  {
  }

  /** The forecast rows are, position by position, the rows of the list entries, all tagged "forecast". */
  lemma {:induction false} ForecastRowsSpec(b: Bundle, fct: map<string, Json>, items: seq<Json>)
    requires ForecastRows(b, fct, items).Ok?
    ensures |ForecastRows(b, fct, items).value| == |items|
    ensures forall k :: 0 <= k < |items| ==>
              && ForecastRow(b, fct, items[k]) == Ok(ForecastRows(b, fct, items).value[k])
              && IsForecastRowOf(ForecastRows(b, fct, items).value[k], b)
  {
    if items != [] {
      var init := items[..|items| - 1];
      ForecastRowsSpec(b, fct, init);
      ForecastRowTagged(b, fct, items[|items| - 1]);
      forall k | 0 <= k < |init| ensures items[k] == init[k] { }
    }
  }

  /** Once an entry fails, the whole list fails. */
  lemma {:induction false} ForecastRowsFailFast(b: Bundle, fct: map<string, Json>, items: seq<Json>, j: nat)
    requires j <= |items|
    requires ForecastRows(b, fct, items[..j]).Err?
    ensures ForecastRows(b, fct, items).Err?
    decreases |items| - j
  {
    if j < |items| {
      var init := items[..|items| - 1];
      assert init[..j] == items[..j];
      ForecastRowsFailFast(b, fct, init, j);
    } else {
      assert items[..j] == items;
    }
  }

  /** The forecast loop yields one row per list entry, in list order. */
  lemma ForecastPartSpec(b: Bundle)
    requires ForecastPart(b).Ok?
    ensures ForecastObject(b).Ok? && ForecastList(b).Ok?
    ensures |ForecastPart(b).value| == |ForecastList(b).value|
    ensures forall k :: 0 <= k < |ForecastList(b).value| ==>
              && ForecastRow(b, ForecastObject(b).value, ForecastList(b).value[k]) == Ok(ForecastPart(b).value[k])
              && IsForecastRowOf(ForecastPart(b).value[k], b)
  {
    var fct := ForecastObject(b).value;
    var items := ForecastItems(fct).value;
    assert ForecastList(b) == Ok(items);
    assert ForecastPart(b) == ForecastRows(b, fct, items);
    ForecastRowsSpec(b, fct, items);
  }

  /** One current row, tagged "current", exactly when the current payload is truthy. */
  lemma CurrentRowsSpec(b: Bundle)
    requires CurrentRows(b).Ok?
    ensures |CurrentRows(b).value| == CurrentCount(b)
    ensures CurrentCount(b) == 1 ==>
              IsCurrentRowOf(CurrentRows(b).value[0], b) && CurrentRow(b, b.current.fields) == Ok(CurrentRows(b).value[0])
  {
  }

  /**
   * Row count, order and tags: the current row (present exactly when the current
   * payload is truthy) comes first and is tagged "current"; after it come the
   * rows of the forecast list entries, in list order, tagged "forecast"; every
   * row carries the bundle's query and fetch time unchanged.
   */
  lemma BundleRowsShape(b: Bundle, rows: seq<Row>)
    requires BundleRows(b) == Ok(rows)
    ensures ForecastList(b).Ok?
    ensures |rows| == CurrentCount(b) + |ForecastList(b).value|
    ensures CurrentCount(b) == 1 ==> IsCurrentRowOf(rows[0], b) && CurrentRow(b, b.current.fields) == Ok(rows[0])
    ensures forall k :: 0 <= k < |ForecastList(b).value| ==>
              && IsForecastRowOf(rows[CurrentCount(b) + k], b)
              && ForecastRow(b, ForecastObject(b).value, ForecastList(b).value[k]) == Ok(rows[CurrentCount(b) + k])
  {
    BundleRowsParts(b);
    var cur, fore := CurrentRows(b).value, ForecastPart(b).value;
    CurrentRowsSpec(b);
    ForecastPartSpec(b);
    var n := CurrentCount(b);
    assert |cur| == n;
    forall k | 0 <= k < |fore| ensures rows[n + k] == fore[k] { }
  }

  /** The rows of a bundle are its current rows followed by its forecast rows. */
  lemma BundleRowsParts(b: Bundle)
    requires BundleRows(b).Ok?
    ensures CurrentRows(b).Ok? && ForecastPart(b).Ok?
    ensures BundleRows(b).value == CurrentRows(b).value + ForecastPart(b).value
  {
  }

  /** `(d.get(k, {}) or {})` succeeds: the value is falsy or a dict. */
  predicate DictOrEmptyOk(d: map<string, Json>, k: string) {
    !Truthy(Get(d, k)) || Get(d, k).JObj?
  }

  /** `d.get(k, {})` then `.get` succeeds: the key is missing or holds a dict. */
  predicate DictAtOk(d: map<string, Json>, k: string) {
    k !in d || d[k].JObj?
  }

  /** `(d.get("weather", [{}]) or [{}])[0].get` succeeds. */
  predicate WeatherOk(d: map<string, Json>) {
    var v := Get(d, "weather");
    !Truthy(v) || (v.JArr? && v.items[0].JObj?)
  }

  /** The nested objects an observation (current payload or forecast entry) is read through. */
  predicate ObservationOk(d: map<string, Json>) {
    DictOrEmptyOk(d, "main") && DictOrEmptyOk(d, "wind") && DictOrEmptyOk(d, "rain") && WeatherOk(d)
  }

  /** The forecast's `city` object, `{}` when falsy. */
  function CityOf(fct: map<string, Json>): map<string, Json>
    requires DictOrEmptyOk(fct, "city")
  {
    if Truthy(Get(fct, "city")) then Get(fct, "city").fields else map[]
  }

  predicate CurrentOk(cur: Json) {
    !Truthy(cur) || (cur.JObj? && DictAtOk(cur.fields, "coord") && ObservationOk(cur.fields))
  }

  /** The forecast's `city` is consulted only when the list has entries. */
  predicate ForecastOk(fct: Json) {
    !Truthy(fct)
    || (fct.JObj?
        && var list := Get(fct.fields, "list");
        && (!Truthy(list)
            || (list.JArr?
                && DictOrEmptyOk(fct.fields, "city")
                && DictAtOk(CityOf(fct.fields), "coord")
                && forall k :: 0 <= k < |list.items| ==> list.items[k].JObj? && ObservationOk(list.items[k].fields))))
  }

  /** The payload shapes the normaliser tolerates. */
  predicate Tolerated(b: Bundle) {
    CurrentOk(b.current) && ForecastOk(b.forecast)
  }

  lemma {:induction false} ForecastRowsOkIff(b: Bundle, fct: map<string, Json>, items: seq<Json>)
    ensures ForecastRows(b, fct, items).Ok?
        <==> (forall k :: 0 <= k < |items| ==> ForecastRow(b, fct, items[k]).Ok?)
  {
    if items != [] {
      var init := items[..|items| - 1];
      ForecastRowsOkIff(b, fct, init);
      assert forall k :: 0 <= k < |init| ==> items[k] == init[k];
      if ForecastRows(b, fct, items).Ok? {
        ForecastRowsSpec(b, fct, items);
      }
    }
  }

  /** The current row fails exactly on a wrongly typed `coord`, `main`, `wind`, `rain` or `weather`. */
  lemma CurrentRowsOkIff(b: Bundle)
    ensures CurrentRows(b).Ok? <==> CurrentOk(b.current)
  {
  }

  /** A forecast entry fails exactly when it is not a dict or one of its nested values has the wrong type. */
  lemma ForecastRowOkIff(b: Bundle, fct: map<string, Json>, item: Json)
    requires DictOrEmptyOk(fct, "city") && DictAtOk(CityOf(fct), "coord")
    ensures ForecastRow(b, fct, item).Ok? <==> item.JObj? && ObservationOk(item.fields)
  {
  }

  /** The forecast loop fails exactly outside the tolerated forecast shapes. */
  lemma ForecastPartOkIff(b: Bundle)
    ensures ForecastPart(b).Ok? <==> ForecastOk(b.forecast)
  {
    if ForecastObject(b).Ok? && ForecastItems(ForecastObject(b).value).Ok? {
      var fct := ForecastObject(b).value;
      var items := ForecastItems(fct).value;
      assert ForecastPart(b) == ForecastRows(b, fct, items);
      ForecastRowsOkIff(b, fct, items);
      if items != [] {
        if DictOrEmptyOk(fct, "city") && DictAtOk(CityOf(fct), "coord") {
          forall k | 0 <= k < |items|
            ensures ForecastRow(b, fct, items[k]).Ok? <==> items[k].JObj? && ObservationOk(items[k].fields)
          {
            ForecastRowOkIff(b, fct, items[k]);
          }
        } else {
          assert !ForecastRow(b, fct, items[0]).Ok?;
        }
      }
    }
  }

  /**
   * Normalisation fails exactly on a bundle outside the tolerated shapes: a present
   * nested value of the wrong type. Missing or empty nested objects never fail it.
   */
  lemma BundleRowsOkIff(b: Bundle)
    ensures BundleRows(b).Ok? <==> Tolerated(b)
  {
    CurrentRowsOkIff(b);
    ForecastPartOkIff(b);
  }

  /**
   * A missing (or null, or empty) `main`, `wind`, `rain`, `weather` or `coord`
   * gives absent values in the current row, not an error.
   */
  lemma CurrentMissingFieldsAbsent(b: Bundle, cur: map<string, Json>)
    requires DictAtOk(cur, "coord") && ObservationOk(cur)
    ensures CurrentRow(b, cur).Ok?
    ensures var row := CurrentRow(b, cur).value;
            && (!Truthy(Get(cur, "main")) ==>
                  row.readings.tempC == JNull && row.readings.humidity == JNull && row.readings.pressure == JNull)
            && (!Truthy(Get(cur, "wind")) ==> row.readings.windSpeed == JNull)
            && (!Truthy(Get(cur, "rain")) ==> row.precipitation == Rain1h(JNull))
            && (!Truthy(Get(cur, "weather")) ==> row.readings.weather == JNull && row.readings.weatherDesc == JNull)
            && ("coord" !in cur ==> row.place.lat == JNull && row.place.lon == JNull)
            && ("name" !in cur ==> row.place.name == JNull)
  {
  }

  /** The same defaulting for a forecast entry; a missing `pop` or `city` is absent too. */
  lemma ForecastMissingFieldsAbsent(b: Bundle, fct: map<string, Json>, it: map<string, Json>)
    requires DictOrEmptyOk(fct, "city") && DictAtOk(CityOf(fct), "coord") && ObservationOk(it)
    ensures ForecastRow(b, fct, JObj(it)).Ok?
    ensures var row := ForecastRow(b, fct, JObj(it)).value;
            && (!Truthy(Get(it, "main")) ==>
                  row.readings.tempC == JNull && row.readings.humidity == JNull && row.readings.pressure == JNull)
            && (!Truthy(Get(it, "wind")) ==> row.readings.windSpeed == JNull)
            && (!Truthy(Get(it, "rain")) ==> row.precipitation.rain3h == JNull)
            && ("pop" !in it ==> row.precipitation.pop == JNull)
            && (!Truthy(Get(it, "weather")) ==> row.readings.weather == JNull && row.readings.weatherDesc == JNull)
            && (!Truthy(Get(fct, "city")) ==> row.place == Place(JNull, JNull, JNull))
  {
  }

  /** The current-weather block of `append_to_csv`. */
  method CurrentStep(b: Bundle) returns (r: Result<seq<Row>, PayloadError>)
    ensures r == CurrentRows(b)
  {
    var cur := if Truthy(b.current) then b.current else JObj(map[]);
    if !Truthy(cur) {
      return Ok([]);
    }
    if !cur.JObj? {
      return Err(Malformed);
    }
    var row := CurrentRow(b, cur.fields);
    if row.Err? {
      assert row.error.Malformed?;
      return Err(Malformed);
    }
    return Ok([row.value]);
  }

  /** The forecast loop of `append_to_csv`. */
  method ForecastLoop(b: Bundle) returns (r: Result<seq<Row>, PayloadError>)
    ensures r == ForecastPart(b)
  {
    var fct := if Truthy(b.forecast) then b.forecast else JObj(map[]);
    if !fct.JObj? {
      return Err(Malformed);
    }
    var list := Get(fct.fields, "list");
    var entries := if Truthy(list) then list else JArr([]);
    if !entries.JArr? {
      return Err(Malformed);
    }
    var items := entries.items;
    assert ForecastObject(b) == Ok(fct.fields);
    assert ForecastItems(fct.fields) == Ok(items);
    var rows: seq<Row> := [];
    var i := 0;
    while i < |items|
      invariant 0 <= i <= |items|
      invariant ForecastRows(b, fct.fields, items[..i]) == Ok(rows)
    {
      assert items[..i + 1][..i] == items[..i];
      var row := ForecastRow(b, fct.fields, items[i]);
      if row.Err? {
        ForecastRowsFailFast(b, fct.fields, items, i + 1);
        var e := ForecastRows(b, fct.fields, items).error;
        assert e.Malformed?;
        return Err(Malformed);
      }
      rows := rows + [row.value];
      i := i + 1;
    }
    assert items[..i] == items;
    return Ok(rows);
  }

  /** The row-building part of `append_to_csv`: the current row, then one row per forecast entry. */
  method NormaliseRows(b: Bundle) returns (r: Result<seq<Row>, PayloadError>)
    ensures r == BundleRows(b)
  {
    var cur := CurrentStep(b);
    if cur.Err? {
      assert cur.error.Malformed?;
      return Err(Malformed);
    }
    var fore := ForecastLoop(b);
    if fore.Err? {
      assert fore.error.Malformed?;
      return Err(Malformed);
    }
    return Ok(cur.value + fore.value);
  }
}
