/**
 * The provider's JSON answer and the rules `parse_measurement` uses to turn it into
 * a `Measurement`.
 */
module Normalizer {
  import opened Base
  import opened Timestamp
  import opened Measurements
  import opened Configuration

  /** One element of a `values` list: `{"name": ..., "value": ...}`; a JSON null value is `None`. */
  datatype Reading = Reading(name: string, value: Option<real>)

  /** One element of an `indexes` list; `None` when it has no `value` key or the value is null. */
  datatype IndexEntry = IndexEntry(value: Option<real>)

  /**
   * A `current` or `history` element. `None` for `values` or `indexes` means the key
   * is absent; `otherKeys` records whether the object has any further key, which
   * matters only for whether the object is empty (falsy).
   */
  datatype Source = Source(values: Option<seq<Reading>>, indexes: Option<seq<IndexEntry>>, otherKeys: bool)

  /**
   * The response body. `None` for `current` or `history` means the key is absent or
   * null. An empty body (Python-falsy) has neither section, so the early `if not data`
   * check and the section checks reject the same inputs.
   */
  datatype Payload = Payload(current: Option<Source>, history: Option<seq<Source>>)

  /** Python truthiness of a source object: it has at least one key. */
  predicate NonEmpty(s: Source)
  {
    s.values.Some? || s.indexes.Some? || s.otherKeys
  }

  /** `current` is used when its `values` list is non-empty. */
  predicate CurrentUsable(p: Payload)
  {
    p.current.Some? && p.current.value.values.Some? && |p.current.value.values.value| > 0
  }

  /**
   * The source selection: `current` if it carries values, otherwise the first
   * `history` element when the list is non-empty and that element is a non-empty
   * object, otherwise nothing.
   */
  function SelectSource(p: Payload): (r: Option<Source>)
    ensures CurrentUsable(p) ==> r == p.current
    ensures (!CurrentUsable(p) && p.history.Some? && |p.history.value| > 0 && NonEmpty(p.history.value[0]))
            ==> r == Some(p.history.value[0])
    ensures r.None? <==> !CurrentUsable(p) && (p.history.None? || |p.history.value| == 0 || !NonEmpty(p.history.value[0]))
  {
    if CurrentUsable(p) then p.current
    else if p.history.Some? && |p.history.value| > 0 then
      var first := p.history.value[0];
      if NonEmpty(first) then Some(first) else None
    else None
  }

  /** `source.get("values", [])`. */
  function ReadingsOf(s: Source): seq<Reading>
  {
    if s.values.Some? then s.values.value else []
  }

  /** The `values` dictionary after the loop has stored each reading in order. */
  function Flatten(rs: seq<Reading>): map<string, Option<real>>
  {
    if rs == [] then map[]
    else Flatten(rs[..|rs| - 1])[rs[|rs| - 1].name := rs[|rs| - 1].value]
  }

  /** `values.get(name)`. */
  function Lookup(values: map<string, Option<real>>, name: string): Option<real>
  {
    if name in values then values[name] else None
  }

  /** The `value` of the first `indexes` entry, when there is one. */
  function FirstIndexValue(s: Source): Option<real>
  {
    if s.indexes.Some? && |s.indexes.value| > 0 then s.indexes.value[0].value else None
  }

  /** The measurement built from a chosen source: location and station from the configuration. */
  function MeasurementFrom(c: Config, s: Source, now: DateTime): (m: Measurement)
    ensures m.timestamp == now && m.city == c.cityName && m.stationId == Some(c.installationId)
    ensures m.latitude == c.latitude && m.longitude == c.longitude
  {
    var values := Flatten(ReadingsOf(s));
    Measurement(now, c.cityName, c.latitude, c.longitude,
                Lookup(values, "PM25"), Lookup(values, "PM10"), Lookup(values, "TEMPERATURE"),
                Lookup(values, "HUMIDITY"), Lookup(values, "PRESSURE"),
                FirstIndexValue(s), Some(c.installationId))
  }

  /** `parse_measurement` as a whole: no data when no source is selected. */
  function Normalize(c: Config, p: Payload, now: DateTime): (r: Option<Measurement>)
    ensures r.None? <==> SelectSource(p).None?
    ensures r.Some? ==> r.value == MeasurementFrom(c, SelectSource(p).value, now)
  {
    match SelectSource(p)
    case None => None
    case Some(s) => Some(MeasurementFrom(c, s, now))
  }

  /**
   * A name is in the flattened map exactly when some reading carries it, and then it
   * holds the value of the last such reading.
   */
  lemma {:induction false} FlattenLastWins(rs: seq<Reading>, name: string)
    ensures name in Flatten(rs) <==> exists i :: 0 <= i < |rs| && rs[i].name == name
    ensures forall i :: 0 <= i < |rs| && rs[i].name == name
                        && (forall j :: i < j < |rs| ==> rs[j].name != name)
                        ==> Flatten(rs)[name] == rs[i].value
  {
    if rs != [] {
      var init := rs[..|rs| - 1];
      var last := rs[|rs| - 1];
      FlattenLastWins(init, name);
      if last.name != name {
        forall i | 0 <= i < |rs| && rs[i].name == name
          ensures i < |rs| - 1 && init[i].name == name
        {
        }
        forall i | 0 <= i < |init| && init[i].name == name
          ensures rs[i].name == name
        {
        }
      }
    }
  }

  /** The measurement's fields are last-wins lookups in the readings. */
  lemma NormalizedFieldsAreLastReadings(c: Config, s: Source, now: DateTime, i: nat)
    requires i < |ReadingsOf(s)|
    requires forall j :: i < j < |ReadingsOf(s)| ==> ReadingsOf(s)[j].name != ReadingsOf(s)[i].name
    ensures var m := MeasurementFrom(c, s, now);
      var r := ReadingsOf(s)[i];
      && (r.name == "PM25" ==> m.pm25 == r.value)
      && (r.name == "PM10" ==> m.pm10 == r.value)
      && (r.name == "TEMPERATURE" ==> m.temperature == r.value)
      && (r.name == "HUMIDITY" ==> m.humidity == r.value)
      && (r.name == "PRESSURE" ==> m.pressure == r.value)
  {
    FlattenLastWins(ReadingsOf(s), ReadingsOf(s)[i].name);
  }

  /** A field whose name no reading carries stays absent. */
  lemma UnreportedFieldIsAbsent(rs: seq<Reading>, name: string)
    requires forall i :: 0 <= i < |rs| ==> rs[i].name != name
    ensures Lookup(Flatten(rs), name) == None
  {
    FlattenLastWins(rs, name);
  }

  predicate KnownName(name: string)
  {
    name in {"PM25", "PM10", "TEMPERATURE", "HUMIDITY", "PRESSURE"}
  }

  /** A reading under any other name never reaches the measurement. */
  lemma UnknownReadingIgnored(c: Config, s: Source, now: DateTime, extra: Reading)
    requires !KnownName(extra.name)
    ensures MeasurementFrom(c, s.(values := Some(ReadingsOf(s) + [extra])), now) == MeasurementFrom(c, s, now)
  {
    var rs := ReadingsOf(s);
    assert (rs + [extra])[..|rs|] == rs;
  }
}
