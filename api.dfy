/**
 * `api.py`: the request logic of the REST API over the `measurements` table. The
 * web framework, rate limiting and SQL execution are outside the model; what is
 * modelled is the key check, the SQL text and parameter lists the read endpoints
 * build, the row `add_measurement` stores and the 404 rule of `delete_measurement`.
 */
module Api {
  import opened Base
  import opened Timestamp
  import opened Measurements

  /** An endpoint's answer: a value, or an `HTTPException` with its status code. */
  datatype Reply<T> = Ok(value: T) | HttpError(status: nat)

  /**
   * `verify_api_key`: with no key configured on the server every request fails with
   * 500, whatever header it carries; otherwise a header other than the key fails
   * with 401 and the matching key is passed on.
   */
  function VerifyApiKey(serverKey: string, supplied: string): (r: Reply<string>)
    ensures serverKey == "" ==> r == HttpError(500)
    ensures serverKey != "" && supplied != serverKey ==> r == HttpError(401)
    ensures r.Ok? <==> serverKey != "" && supplied == serverKey
    ensures r.Ok? ==> r.value == supplied
  {
    if serverKey == "" then HttpError(500)
    else if supplied != serverKey then HttpError(401)
    else Ok(supplied)
  }

  /** The key check fails for every header exactly when no key is configured. */
  lemma UnconfiguredKeyRejectsAll(serverKey: string)
    ensures (forall supplied :: VerifyApiKey(serverKey, supplied).HttpError?) <==> serverKey == ""
  {
    if serverKey != "" {
      assert VerifyApiKey(serverKey, serverKey).Ok?;
    }
  }

  // ---------------------------------------------------------------------------
  // Placeholders in SQL text
  // ---------------------------------------------------------------------------

  /** The number of `%s` markers the driver fills, scanning left to right. */
  function Placeholders(s: string): nat
  {
    if |s| < 2 then 0
    else if s[0] == '%' && s[1] == 's' then 1 + Placeholders(s[2..])
    else Placeholders(s[1..])
  }

  predicate NoPercent(s: string)
  {
    forall i :: 0 <= i < |s| ==> s[i] != '%'
  }

  /** The text does not end in a `%` that the next piece could complete. */
  predicate EndsClean(s: string)
  {
    s == [] || s[|s| - 1] != '%'
  }

  lemma {:induction false} PlainHasNone(p: string)
    requires NoPercent(p)
    ensures Placeholders(p) == 0
  {
    if |p| >= 2 {
      assert NoPercent(p[1..]);
      PlainHasNone(p[1..]);
    }
  }

  /** Counting placeholders is additive across a boundary that does not split a `%s`. */
  lemma {:induction false} PlaceholdersConcat(q: string, r: string)
    requires EndsClean(q)
    ensures Placeholders(q + r) == Placeholders(q) + Placeholders(r)
  {
    if q == [] {
      assert q + r == r;
    } else if |q| == 1 {
      if |q + r| >= 2 {
        assert (q + r)[1..] == r;
      }
    } else if q[0] == '%' && q[1] == 's' {
      assert (q + r)[2..] == q[2..] + r;
      PlaceholdersConcat(q[2..], r);
    } else {
      assert (q + r)[1..] == q[1..] + r;
      PlaceholdersConcat(q[1..], r);
    }
  }

  /** Plain text in front of a string adds no placeholder. */
  lemma PlainPrefix(p: string, r: string)
    requires NoPercent(p)
    ensures Placeholders(p + r) == Placeholders(r)
  {
    PlaceholdersConcat(p, r);
    PlainHasNone(p);
  }

  /** A clause of plain text closed by its `%s` holds exactly one placeholder. */
  lemma ClauseCount(clause: string)
    requires NoPercent(clause)
    ensures Placeholders(clause + "%s") == 1 && EndsClean(clause + "%s")
  {
    PlainPrefix(clause, "%s");
    assert Placeholders("%s") == 1;
  }

  /** The optional filter clauses, each closed by its `%s`, the city's first. */
  function Clauses(cityClause: string, stationClause: string, byCity: bool, byStation: bool): string
  {
    (if byCity then cityClause + "%s" else "") + (if byStation then stationClause + "%s" else "")
  }

  lemma ClausesCount(cityClause: string, stationClause: string, byCity: bool, byStation: bool)
    requires NoPercent(cityClause) && NoPercent(stationClause)
    ensures Placeholders(Clauses(cityClause, stationClause, byCity, byStation))
         == (if byCity then 1 else 0) + (if byStation then 1 else 0)
    ensures EndsClean(Clauses(cityClause, stationClause, byCity, byStation))
  {
    var a := if byCity then cityClause + "%s" else "";
    var b := if byStation then stationClause + "%s" else "";
    if byCity {
      ClauseCount(cityClause);
    }
    if byStation {
      ClauseCount(stationClause);
    }
    PlaceholdersConcat(a, b);
    assert Clauses(cityClause, stationClause, byCity, byStation) == a + b;
  }

  /**
   * A select with optional filters and a final plain `tail`: one placeholder per
   * filter, plus one more when the tail is closed by a `%s` (`limited`).
   */
  lemma QueryCount(select: string, cityClause: string, stationClause: string, tail: string,
                   byCity: bool, byStation: bool, limited: bool)
    requires NoPercent(select) && NoPercent(cityClause) && NoPercent(stationClause) && NoPercent(tail)
    ensures Placeholders(select + Clauses(cityClause, stationClause, byCity, byStation)
                         + (if limited then tail + "%s" else tail))
         == (if byCity then 1 else 0) + (if byStation then 1 else 0) + (if limited then 1 else 0)
  {
    var f := Clauses(cityClause, stationClause, byCity, byStation);
    var t := if limited then tail + "%s" else tail;
    ClausesCount(cityClause, stationClause, byCity, byStation);
    if limited {
      ClauseCount(tail);
    } else {
      PlainHasNone(tail);
    }
    PlaceholdersConcat(f, t);
    PlainPrefix(select, f + t);
    assert select + f + t == select + (f + t);
  }

  // ---------------------------------------------------------------------------
  // Read endpoints
  // ---------------------------------------------------------------------------

  /** A value passed with the query, in the order of its `%s`. */
  datatype Param = CityParam(city: string) | StationParam(id: int) | LimitParam(limit: int)

  const Select: string := "SELECT * FROM measurements WHERE 1=1"
  const CityClause: string := " AND city = "
  const StationClause: string := " AND station_id = "
  const NewestFirst: string := " ORDER BY datetime_utc DESC LIMIT "
  const NewestOne: string := " ORDER BY datetime_utc DESC LIMIT 1"

  /** None of the fixed fragments of the query text holds a `%`. */
  lemma FragmentsPlain()
    ensures NoPercent(Select) && NoPercent(CityClause) && NoPercent(StationClause)
    ensures NoPercent(NewestFirst) && NoPercent(NewestOne)
  {
  }

  /** `if city:` — an absent or empty city adds no filter. */
  predicate CityFilter(city: Option<string>)
  {
    city.Some? && city.value != ""
  }

  /** `if station_id:` — an absent id or id 0 adds no filter. */
  predicate StationFilter(stationId: Option<int>)
  {
    stationId.Some? && stationId.value != 0
  }

  /** The filter parameters, city before station. */
  function Filters(city: Option<string>, stationId: Option<int>): (ps: seq<Param>)
    ensures |ps| == (if CityFilter(city) then 1 else 0) + (if StationFilter(stationId) then 1 else 0)
    ensures CityFilter(city) ==> ps[0] == CityParam(city.value)
    ensures StationFilter(stationId) ==> ps[|ps| - 1] == StationParam(stationId.value)
    ensures forall p :: p in ps ==> !p.LimitParam?
  {
    (if CityFilter(city) then [CityParam(city.value)] else [])
    + (if StationFilter(stationId) then [StationParam(stationId.value)] else [])
  }

  /** The `WHERE` conditions the filters add to the query text. */
  function FilterText(city: Option<string>, stationId: Option<int>): string
  {
    Clauses(CityClause, StationClause, CityFilter(city), StationFilter(stationId))
  }

  /** A query and the values for its placeholders. */
  datatype Query = Query(text: string, params: seq<Param>)

  /**
   * The part `get_measurements` and `get_latest_measurement` share: the select,
   * grown by one clause and one parameter for each filter given.
   */
  method FilteredSelect(city: Option<string>, stationId: Option<int>) returns (q: Query)
    ensures q.text == Select + FilterText(city, stationId)
    ensures q.params == Filters(city, stationId)
  {
    var query := Select;
    var params: seq<Param> := [];
    ghost var cityPart: string := "";
    ghost var stationPart: string := "";
    if CityFilter(city) {
      query := query + CityClause + "%s";
      cityPart := CityClause + "%s";
      AppendAssoc(Select, CityClause, "%s");
      params := params + [CityParam(city.value)];
    }
    assert query == Select + cityPart;
    if StationFilter(stationId) {
      AppendAssoc(query, StationClause, "%s");
      query := query + StationClause + "%s";
      stationPart := StationClause + "%s";
      params := params + [StationParam(stationId.value)];
    }
    assert query == (Select + cityPart) + stationPart;
    AppendAssoc(Select, cityPart, stationPart);
    q := Query(query, params);
  }

  /**
   * `get_measurements`: after the key check, the newest `limit` rows under the
   * filters. There is one parameter per placeholder, and the limit is the last.
   */
  method GetMeasurements(serverKey: string, supplied: string, limit: int,
                         city: Option<string>, stationId: Option<int>) returns (r: Reply<Query>)
    ensures VerifyApiKey(serverKey, supplied).HttpError? ==> r == HttpError(VerifyApiKey(serverKey, supplied).status)
    ensures VerifyApiKey(serverKey, supplied).Ok? ==> r.Ok?
    ensures r.Ok? ==> Placeholders(r.value.text) == |r.value.params|
    ensures r.Ok? ==> r.value.params == Filters(city, stationId) + [LimitParam(limit)]
    ensures r.Ok? ==> r.value.text == Select + FilterText(city, stationId) + NewestFirst + "%s"
  {
    var auth := VerifyApiKey(serverKey, supplied);
    if auth.HttpError? {
      return HttpError(auth.status);
    }
    var q := FilteredSelect(city, stationId);
    FragmentsPlain();
    QueryCount(Select, CityClause, StationClause, NewestFirst, CityFilter(city), StationFilter(stationId), true);
    assert Select + FilterText(city, stationId) + NewestFirst + "%s"
        == Select + FilterText(city, stationId) + (NewestFirst + "%s");
    r := Ok(Query(q.text + NewestFirst + "%s", q.params + [LimitParam(limit)]));
  }

  /**
   * `get_latest_measurement`: the same filters with a literal `LIMIT 1` and no limit
   * parameter. `found` is the row the database returns, if any; none gives 404.
   */
  method GetLatestMeasurement(serverKey: string, supplied: string, city: Option<string>,
                              stationId: Option<int>, found: Option<StoredRow>)
    returns (q: Option<Query>, r: Reply<StoredRow>)
    ensures VerifyApiKey(serverKey, supplied).HttpError? ==>
              q.None? && r == HttpError(VerifyApiKey(serverKey, supplied).status)
    ensures VerifyApiKey(serverKey, supplied).Ok? ==> q.Some?
    ensures q.Some? ==> Placeholders(q.value.text) == |q.value.params|
    ensures q.Some? ==> q.value.params == Filters(city, stationId)
    ensures q.Some? ==> q.value.text == Select + FilterText(city, stationId) + NewestOne
    ensures q.Some? ==> (r == HttpError(404) <==> found.None?)
    ensures q.Some? && found.Some? ==> r == Ok(found.value)
  {
    var auth := VerifyApiKey(serverKey, supplied);
    if auth.HttpError? {
      return None, HttpError(auth.status);
    }
    var filtered := FilteredSelect(city, stationId);
    FragmentsPlain();
    QueryCount(Select, CityClause, StationClause, NewestOne, CityFilter(city), StationFilter(stationId), false);
    q := Some(Query(filtered.text + NewestOne, filtered.params));
    if found.None? {
      return q, HttpError(404);
    }
    r := Ok(found.value);
  }

  // ---------------------------------------------------------------------------
  // Write endpoints
  // ---------------------------------------------------------------------------

  /** The request body of `POST /measurements`, after validation. */
  datatype MeasurementInput = MeasurementInput(
    datetime: Option<DateTime>,
    city: string,
    lat: real,
    lon: real,
    pm25: Option<real>,
    pm10: Option<real>,
    temperature: Option<real>,
    humidity: Option<real>,
    pressure: Option<real>,
    aqi: Option<real>,
    stationId: Option<int>)

  /**
   * The row `add_measurement` inserts: the supplied time or, without one, the
   * current time `now`, with its hour and minute in the hour and minute columns and
   * every other column from the body.
   */
  function RowFor(data: MeasurementInput, now: DateTime): (r: StoredRow)
    ensures r.datetime == (if data.datetime.Some? then data.datetime.value else now)
    ensures Consistent(r)
    ensures r.city == data.city && r.lat == Some(data.lat) && r.lon == Some(data.lon)
    ensures r.pm25 == data.pm25 && r.pm10 == data.pm10 && r.temperature == data.temperature
    ensures r.humidity == data.humidity && r.pressure == data.pressure && r.aqi == data.aqi
    ensures r.stationId == data.stationId
  {
    var dt := if data.datetime.Some? then data.datetime.value else now;
    StoredRow(dt, data.city, Some(data.lat), Some(data.lon), Some(dt.hour), Some(dt.minute),
              data.pm25, data.pm10, data.temperature, data.humidity, data.pressure, data.aqi,
              data.stationId)
  }

  /** A body without a time takes the clock's; a body with one ignores the clock. */
  lemma RowTimeSource(data: MeasurementInput, now: DateTime, later: DateTime)
    ensures data.datetime.None? ==> RowFor(data, now).datetime == now
    ensures data.datetime.Some? ==> RowFor(data, now) == RowFor(data, later)
  {
  }

  /** What `add_measurement` answers: the new row's id and its time. */
  datatype Added = Added(id: nat, datetime: DateTime)

  /**
   * The table as the API sees it: rows by their `AUTO_INCREMENT` id, and the next
   * id the server hands out.
   */
  class Table {
    var rows: map<nat, StoredRow>
    var nextId: nat

    /** Every row's id was handed out before. */
    predicate Valid()
      reads this
    {
      forall id :: id in rows ==> id < nextId
    }

    constructor ()
      ensures Valid() && rows == map[] && nextId == 1
    {
      rows := map[];
      nextId := 1;
    }

    /**
     * `add_measurement` after the key check. `accepted` is whether the insert and its
     * commit succeed; when they do not, the transaction is rolled back and the
     * answer is 500.
     */
    method AddMeasurement(data: MeasurementInput, now: DateTime, accepted: bool) returns (r: Reply<Added>)
      requires Valid()
      modifies this
      ensures Valid()
      ensures accepted ==> r == Ok(Added(old(nextId), RowFor(data, now).datetime))
      ensures accepted ==> rows == old(rows)[old(nextId) := RowFor(data, now)] && nextId == old(nextId) + 1
      ensures !accepted ==> r == HttpError(500) && rows == old(rows) && nextId == old(nextId)
      ensures r.Ok? ==> r.value.id !in old(rows) && Consistent(rows[r.value.id])
    {
      if !accepted {
        return HttpError(500);
      }
      var row := RowFor(data, now);
      var id := nextId;
      rows := rows[id := row];
      nextId := nextId + 1;
      r := Ok(Added(id, row.datetime));
    }

    /**
     * `delete_measurement` after the key check: the row goes, and the answer is 404
     * exactly when no row had that id.
     */
    method DeleteMeasurement(id: int) returns (r: Reply<int>)
      requires Valid()
      modifies this`rows
      ensures Valid()
      ensures r == HttpError(404) <==> !(id >= 0 && id as nat in old(rows))
      ensures r.Ok? ==> r.value == id
      ensures r.Ok? || r == HttpError(404)
      ensures rows == if id >= 0 then old(rows) - {id as nat} else old(rows)
    {
      if id < 0 || id as nat !in rows {
        return HttpError(404);
      }
      rows := rows - {id as nat};
      r := Ok(id);
    }
  }
}
