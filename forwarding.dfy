/** The JSON document the collector posts to the HSBI Smart Data API. */
module Forwarding {
  import opened Base
  import opened Timestamp
  import opened Measurements
  import opened Configuration

  /**
   * The payload's fifteen keys; `massPm2_5` is the key `mass_pm2_5` and so on.
   * Only the temperature, humidity, pressure and mass fields carry measured values.
   */
  datatype HsbiPayload = HsbiPayload(
    id: int,
    ts: string,
    pos: string,
    temp: real,
    hum: real,
    pres: real,
    massPm2_5: real,
    massPm10: real,
    massPm1_0: real,
    massPm4: real,
    numberPm0_5: int,
    numberPm1_0: int,
    numberPm2_5: int,
    numberPm4: int,
    numberPm10: int)

  /** Python's `value or 0` on an optional number: `None` (and 0 itself) give 0. */
  function OrZero(o: Option<real>): (r: real)
    ensures o.None? ==> r == 0.0
    ensures o.Some? ==> r == o.value
  {
    if o.Some? && o.value != 0.0 then o.value else 0.0
  }

  /** The `pos` string: a well-known-text 3D point built from the configured position. */
  function PointZ(c: Config, n: Numerals): string
  {
    "POINTZ(" + n.show(c.latitude) + " " + n.show(c.longitude) + " " + n.show(c.hsbiAltitude) + ")"
  }

  /**
   * The payload for one measurement. Absent numeric fields are sent as 0,
   * `mass_pm1_0` is 0.7 times the PM2.5 value, `mass_pm4` repeats PM10, and the
   * `number_*` fields are always 0.
   */
  function PayloadOf(c: Config, n: Numerals, m: Measurement): (p: HsbiPayload)
    ensures p.id == c.hsbiSensorId && p.pos == PointZ(c, n)
    ensures p.temp == (if m.temperature.Some? then m.temperature.value else 0.0)
    ensures p.hum == (if m.humidity.Some? then m.humidity.value else 0.0)
    ensures p.pres == (if m.pressure.Some? then m.pressure.value else 0.0)
    ensures p.massPm2_5 == (if m.pm25.Some? then m.pm25.value else 0.0)
    ensures p.massPm10 == (if m.pm10.Some? then m.pm10.value else 0.0)
    ensures p.massPm1_0 == p.massPm2_5 * 0.7 && p.massPm4 == p.massPm10
    ensures p.numberPm0_5 == p.numberPm1_0 == p.numberPm2_5 == p.numberPm4 == p.numberPm10 == 0
  {
    HsbiPayload(
      c.hsbiSensorId,
      Format(m.timestamp),
      PointZ(c, n),
      OrZero(m.temperature),
      OrZero(m.humidity),
      OrZero(m.pressure),
      OrZero(m.pm25),
      OrZero(m.pm10),
      OrZero(m.pm25) * 0.7,
      OrZero(m.pm10),
      0, 0, 0, 0, 0)
  }

  /** The `ts` field uses the file's timestamp format, so it reads back as the whole-second time. */
  lemma PayloadTimestamp(c: Config, n: Numerals, m: Measurement)
    requires Valid(m.timestamp)
    ensures Parse(PayloadOf(c, n, m).ts) == Some(WholeSeconds(m.timestamp))
  {
    ParseFormat(m.timestamp);
  }

  /**
   * Unlike the CSV row, the payload cannot tell a field that was not reported from
   * one reported as 0: both produce the same document.
   */
  lemma PayloadConflatesAbsentAndZero(c: Config, n: Numerals, m: Measurement)
    ensures PayloadOf(c, n, m.(pm25 := None)) == PayloadOf(c, n, m.(pm25 := Some(0.0)))
    ensures PayloadOf(c, n, m.(pm10 := None)) == PayloadOf(c, n, m.(pm10 := Some(0.0)))
    ensures PayloadOf(c, n, m.(temperature := None)) == PayloadOf(c, n, m.(temperature := Some(0.0)))
    ensures PayloadOf(c, n, m.(humidity := None)) == PayloadOf(c, n, m.(humidity := Some(0.0)))
    ensures PayloadOf(c, n, m.(pressure := None)) == PayloadOf(c, n, m.(pressure := Some(0.0)))
  {
  }

  /** The CSV row keeps that distinction: the two rows differ in the PM2.5 column. */
  lemma CsvKeepsAbsentApartFromZero(m: Measurement, n: Numerals)
    requires n.show(0.0) != ""
    ensures ToCsvRow(m.(pm25 := None), n) != ToCsvRow(m.(pm25 := Some(0.0)), n)
  {
    assert ToCsvRow(m.(pm25 := None), n)[6] == "";
    assert ToCsvRow(m.(pm25 := Some(0.0)), n)[6] == n.show(0.0);
  }
}
