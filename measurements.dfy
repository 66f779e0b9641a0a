/**
 * The canonical air-quality record, its row in the flat CSV file, and its row in
 * the `measurements` table.
 */
module Measurements {
  import opened Base
  import opened Decimal
  import opened Timestamp

  /**
   * One reading. Optional fields are `None` when the provider did not report them,
   * which is different from a reported 0.
   */
  datatype Measurement = Measurement(
    timestamp: DateTime,
    city: string,
    latitude: real,
    longitude: real,
    pm25: Option<real>,
    pm10: Option<real>,
    temperature: Option<real>,
    humidity: Option<real>,
    pressure: Option<real>,
    aqi: Option<real>,
    stationId: Option<int>)

  /** The derived `hour_utc` property. */
  function HourUtc(m: Measurement): (h: nat)
    ensures Valid(m.timestamp) ==> h < 24
  {
    m.timestamp.hour
  }

  /** The derived `minute_utc` property. */
  function MinuteUtc(m: Measurement): (mi: nat)
    ensures Valid(m.timestamp) ==> mi < 60
  {
    m.timestamp.minute
  }

  /** The six optional columns, in file order: PM25, PM10, TEMPERATURE, HUMIDITY, PRESSURE, AQI. */
  function Optionals(m: Measurement): (o: seq<Option<real>>)
    ensures |o| == 6
  {
    [m.pm25, m.pm10, m.temperature, m.humidity, m.pressure, m.aqi]
  }

  /**
   * How floating-point numbers become text and back: Python's `str(float)` and
   * `float(str)`. The model does not fix a rendering; properties that need the
   * two to agree ask for it only at the values a row actually holds.
   */
  datatype Numerals = Numerals(show: real -> string, read: string -> Option<real>)

  /** `float(str(x)) == x` at this one value, and `str(x)` is not the empty string. */
  predicate ShowsBack(n: Numerals, x: real)
  {
    n.show(x) != "" && n.read(n.show(x)) == Some(x)
  }

  /** A present optional value shows back; an absent one asks nothing. */
  predicate OptionShowsBack(n: Numerals, o: Option<real>)
  {
    o.Some? ==> ShowsBack(n, o.value)
  }

  /** Every present optional field of `m` shows back. */
  predicate OptionalsShowBack(n: Numerals, m: Measurement)
  {
    forall k :: 0 <= k < 6 ==> OptionShowsBack(n, Optionals(m)[k])
  }

  /** Every number that `to_csv_row` writes for `m` shows back. */
  predicate FaithfulFor(n: Numerals, m: Measurement)
  {
    ShowsBack(n, m.latitude) && ShowsBack(n, m.longitude) && OptionalsShowBack(n, m)
  }

  /** The header row, `AirlyCollector.CSV_HEADERS`. */
  const CsvHeaders: seq<string> :=
    ["datetime_utc", "city", "lat", "lon", "hour_utc", "minute_utc",
     "PM25", "PM10", "TEMPERATURE", "HUMIDITY", "PRESSURE", "AQI"]

  /** An optional column: the value's text, or the empty string for `None`. */
  function OptionalCell(o: Option<real>, n: Numerals): string
  {
    if o.Some? then n.show(o.value) else ""
  }

  /** `Measurement.to_csv_row`, as `csv.writer` renders each cell. */
  function ToCsvRow(m: Measurement, n: Numerals): (row: seq<string>)
    ensures |row| == |CsvHeaders| == 12
  {
    [ Format(m.timestamp), m.city, n.show(m.latitude), n.show(m.longitude),
      ShowNat(HourUtc(m)), ShowNat(MinuteUtc(m)),
      OptionalCell(m.pm25, n), OptionalCell(m.pm10, n), OptionalCell(m.temperature, n),
      OptionalCell(m.humidity, n), OptionalCell(m.pressure, n), OptionalCell(m.aqi, n) ]
  }

  /**
   * The fixed columns line up with the header: the timestamp cell reads back as the
   * whole-second timestamp, the hour and minute cells as the timestamp's hour and
   * minute, and the city and coordinates are the measurement's.
   */
  lemma CsvRowLayout(m: Measurement, n: Numerals)
    requires Valid(m.timestamp) && ShowsBack(n, m.latitude) && ShowsBack(n, m.longitude)
    ensures var row := ToCsvRow(m, n);
      && Parse(row[0]) == Some(WholeSeconds(m.timestamp))
      && row[1] == m.city
      && n.read(row[2]) == Some(m.latitude) && n.read(row[3]) == Some(m.longitude)
      && ParseInt(row[4]) == Some(m.timestamp.hour)
      && ParseInt(row[5]) == Some(m.timestamp.minute)
  {
    var row := ToCsvRow(m, n);
    assert row[0] == Format(m.timestamp);
    ParseFormat(m.timestamp);
    assert row[4] == ShowNat(m.timestamp.hour) && row[5] == ShowNat(m.timestamp.minute);
    ParseShowNat(m.timestamp.hour);
    ParseShowNat(m.timestamp.minute);
  }

  /**
   * Each optional column is empty exactly when its field is absent, so a reported 0
   * is written as a number, and a non-empty cell reads back as the field's value.
   */
  lemma CsvOptionalColumns(m: Measurement, n: Numerals)
    requires OptionalsShowBack(n, m)
    ensures var row := ToCsvRow(m, n);
      forall k :: 0 <= k < 6 ==>
        && (row[6 + k] == "" <==> Optionals(m)[k].None?)
        && (row[6 + k] != "" ==> n.read(row[6 + k]) == Optionals(m)[k])
  {
    var row := ToCsvRow(m, n);
    var opts := Optionals(m);
    forall k | 0 <= k < 6
      ensures row[6 + k] == "" <==> opts[k].None?
      ensures row[6 + k] != "" ==> n.read(row[6 + k]) == opts[k]
    {
      assert row[6 + k] == OptionalCell(opts[k], n);
      OptionalCellReadsBack(opts[k], n);
    }
  }

  lemma OptionalCellReadsBack(o: Option<real>, n: Numerals)
    requires OptionShowsBack(n, o)
    ensures OptionalCell(o, n) == "" <==> o.None?
    ensures OptionalCell(o, n) != "" ==> n.read(OptionalCell(o, n)) == o
  {
  }

  /** One row of the `measurements` table, without the generated `id` and `created_at`. */
  datatype StoredRow = StoredRow(
    datetime: DateTime,
    city: string,
    lat: Option<real>,
    lon: Option<real>,
    hour: Option<int>,
    minute: Option<int>,
    pm25: Option<real>,
    pm10: Option<real>,
    temperature: Option<real>,
    humidity: Option<real>,
    pressure: Option<real>,
    aqi: Option<real>,
    stationId: Option<int>)

  /** The hour and minute columns agree with the timestamp column. */
  predicate Consistent(r: StoredRow)
  {
    r.hour == Some(r.datetime.hour as int) && r.minute == Some(r.datetime.minute as int)
  }
}
