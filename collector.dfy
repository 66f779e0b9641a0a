/**
 * One collection cycle of `AirlyCollector`: fetch, normalize, then hand the
 * measurement to each enabled sink in turn.
 */
module Collector {
  import opened Base
  import opened Timestamp
  import opened Measurements
  import opened Configuration
  import opened Forwarding
  import opened CsvFiles
  import opened Normalizer

  /** What the collector does to the outside world, in the order it does it. */
  datatype Event =
    | AirlyRequest                    // the GET to the provider is issued
    | DatabaseSink(m: Measurement)    // `save_to_database` is called
    | CsvSink(m: Measurement)         // `save_to_csv` is called
    | HsbiSink(m: Measurement)        // `send_to_hsbi` is called
    | HsbiPost(payload: HsbiPayload)  // the POST to the forwarding endpoint is issued

  /**
   * How the CSV append ends: the row is written; `open` raises, so nothing is
   * created; or `open` succeeds (creating a missing file) and a later write, flush
   * or close raises.
   */
  datatype CsvWrite = Written | OpenFailed | WriteFailed

  /**
   * How the outside world answers during one cycle: whether the database stored
   * the row, how the CSV append ended, and whether the forwarding endpoint
   * accepted the POST.
   */
  datatype SinkOutcomes = SinkOutcomes(databaseSaved: bool, csv: CsvWrite, hsbiAccepted: bool)

  /**
   * The CSV file after `save_to_csv` with the given outcome. A failed write leaves
   * the file `open` created, without the header or the row; partly written lines
   * are not modelled.
   */
  function CsvAfter(file: Option<seq<Line>>, row: Line, w: CsvWrite): (r: Option<seq<Line>>)
    ensures w == Written ==> r == Some(AppendRow(file, row))
    ensures w == OpenFailed ==> r == file
    ensures w == WriteFailed ==> r.Some? && (file.Some? ==> r == file) && (file.None? ==> r.value == [])
  {
    match w
    case Written => Some(AppendRow(file, row))
    case OpenFailed => file
    case WriteFailed => Some(if file.None? then [] else file.value)
  }

  /** `fetch_from_airly`: no request at all without an API key; otherwise the transport's answer. */
  function Fetched(c: Config, response: Option<Payload>): (r: Option<Payload>)
    ensures c.airlyApiKey == "" ==> r.None?
    ensures c.airlyApiKey != "" ==> r == response
  {
    if c.airlyApiKey == "" then None else response
  }

  function FetchEvents(c: Config): (r: seq<Event>)
    ensures r == [] <==> c.airlyApiKey == ""
  {
    if c.airlyApiKey == "" then [] else [AirlyRequest]
  }

  /** The measurement a cycle delivers, if fetching and normalizing both succeed. */
  function CycleMeasurement(c: Config, response: Option<Payload>, now: DateTime): (r: Option<Measurement>)
    ensures c.airlyApiKey == "" || response.None? ==> r.None?
  {
    match Fetched(c, response)
    case None => None
    case Some(p) => Normalize(c, p, now)
  }

  /** The forwarding sink: the POST is issued only when an endpoint URL is configured. */
  function HsbiEvents(c: Config, n: Numerals, m: Measurement): (r: seq<Event>)
    ensures HsbiSink(m) in r
    ensures HsbiPost(PayloadOf(c, n, m)) in r <==> c.hsbiApiUrl != ""
  {
    [HsbiSink(m)] + (if c.hsbiApiUrl != "" then [HsbiPost(PayloadOf(c, n, m))] else [])
  }

  /** Position of each kind of event within a cycle. */
  function Rank(e: Event): nat
  {
    match e
    case AirlyRequest => 0
    case DatabaseSink(_) => 1
    case CsvSink(_) => 2
    case HsbiSink(_) => 3
    case HsbiPost(_) => 4
  }

  /**
   * The sink calls for one measurement: each enabled sink exactly once, in the order
   * database, CSV, forwarding, whatever the outcome of the earlier ones.
   */
  function SinkEvents(c: Config, n: Numerals, m: Measurement): (r: seq<Event>)
    ensures DatabaseSink(m) in r <==> c.enableDatabase
    ensures CsvSink(m) in r <==> c.enableCsv
    ensures HsbiSink(m) in r <==> c.enableHsbi
  {
    (if c.enableDatabase then [DatabaseSink(m)] else [])
    + (if c.enableCsv then [CsvSink(m)] else [])
    + (if c.enableHsbi then HsbiEvents(c, n, m) else [])
  }

  /** Events appear in strictly increasing rank. */
  predicate Ordered(r: seq<Event>)
  {
    forall i, j :: 0 <= i < j < |r| ==> Rank(r[i]) < Rank(r[j])
  }

  /** Every event ranks in `lo..hi-1`. */
  predicate RanksIn(r: seq<Event>, lo: nat, hi: nat)
  {
    forall i :: 0 <= i < |r| ==> lo <= Rank(r[i]) < hi
  }

  lemma OrderedConcat(a: seq<Event>, b: seq<Event>, lo: nat, mid: nat, hi: nat)
    requires lo <= mid <= hi
    requires Ordered(a) && Ordered(b) && RanksIn(a, lo, mid) && RanksIn(b, mid, hi)
    ensures Ordered(a + b) && RanksIn(a + b, lo, hi)
  {
    var r := a + b;
    forall i, j | 0 <= i < j < |r|
      ensures Rank(r[i]) < Rank(r[j])
    {
      if j < |a| {
        assert r[i] == a[i] && r[j] == a[j];
      } else if i >= |a| {
        assert r[i] == b[i - |a|] && r[j] == b[j - |a|];
      } else {
        assert r[i] == a[i] && r[j] == b[j - |a|];
      }
    }
    forall i | 0 <= i < |r|
      ensures lo <= Rank(r[i]) < hi
    {
      if i < |a| {
        assert r[i] == a[i];
      } else {
        assert r[i] == b[i - |a|];
      }
    }
  }

  lemma HsbiEventsOrdered(c: Config, n: Numerals, m: Measurement)
    ensures Ordered(HsbiEvents(c, n, m)) && RanksIn(HsbiEvents(c, n, m), 3, 5)
  {
    var sink: seq<Event> := [HsbiSink(m)];
    var post: seq<Event> := if c.hsbiApiUrl != "" then [HsbiPost(PayloadOf(c, n, m))] else [];
    assert Ordered(post) && RanksIn(post, 4, 5);
    OrderedConcat(sink, post, 3, 4, 5);
  }

  /** The sink calls come in the order database, CSV, forwarding sink, POST. */
  lemma SinkEventsOrdered(c: Config, n: Numerals, m: Measurement)
    ensures Ordered(SinkEvents(c, n, m)) && RanksIn(SinkEvents(c, n, m), 1, 5)
  {
    var db: seq<Event> := if c.enableDatabase then [DatabaseSink(m)] else [];
    var csv: seq<Event> := if c.enableCsv then [CsvSink(m)] else [];
    var hsbi := if c.enableHsbi then HsbiEvents(c, n, m) else [];
    assert Ordered(db) && RanksIn(db, 1, 2);
    assert Ordered(csv) && RanksIn(csv, 2, 3);
    HsbiEventsOrdered(c, n, m);
    assert SinkEvents(c, n, m) == db + csv + hsbi;
    OrderedConcat(db, csv, 1, 2, 3);
    OrderedConcat(db + csv, hsbi, 1, 3, 5);
  }

  /**
   * Within a cycle each event happens at most once and they come in the order:
   * request, database, CSV, forwarding sink, POST.
   */
  lemma CycleEventsOrdered(c: Config, n: Numerals, response: Option<Payload>, now: DateTime)
    ensures Ordered(CycleEvents(c, n, response, now))
  {
    var fetch := FetchEvents(c);
    assert Ordered(fetch) && RanksIn(fetch, 0, 1);
    var cm := CycleMeasurement(c, response, now);
    var sinks: seq<Event> := if cm.Some? then SinkEvents(c, n, cm.value) else [];
    if cm.Some? {
      SinkEventsOrdered(c, n, cm.value);
    }
    OrderedConcat(fetch, sinks, 0, 1, 5);
    assert CycleEvents(c, n, response, now) == fetch + sinks;
  }

  /** Every event of a cycle; no sink is called when there is no measurement. */
  function CycleEvents(c: Config, n: Numerals, response: Option<Payload>, now: DateTime): (r: seq<Event>)
    ensures CycleMeasurement(c, response, now).None? ==> r == FetchEvents(c)
    ensures CycleMeasurement(c, response, now).Some? ==> r == [AirlyRequest] + SinkEvents(c, n, CycleMeasurement(c, response, now).value)
  {
    FetchEvents(c) + match CycleMeasurement(c, response, now)
                     case None => []
                     case Some(m) => SinkEvents(c, n, m)
  }

  /**
   * The cycle's verdict: a measurement was obtained and every enabled database or
   * CSV sink succeeded. The forwarding sink's outcome plays no part.
   */
  predicate CycleSuccess(c: Config, response: Option<Payload>, now: DateTime, out: SinkOutcomes)
    ensures CycleSuccess(c, response, now, out) ==>
              c.airlyApiKey != "" && response.Some? && SelectSource(response.value).Some?
  {
    && CycleMeasurement(c, response, now).Some?
    && (c.enableDatabase ==> out.databaseSaved)
    && (c.enableCsv ==> out.csv == Written)
  }

  /** The CSV file after a cycle: one row more exactly when the CSV sink ran and could write. */
  function CycleFile(c: Config, n: Numerals, file: Option<seq<Line>>, response: Option<Payload>,
                     now: DateTime, out: SinkOutcomes): (r: Option<seq<Line>>)
    ensures r != file ==> c.enableCsv && out.csv != OpenFailed && CycleMeasurement(c, response, now).Some?
  {
    match CycleMeasurement(c, response, now)
    case Some(m) => if c.enableCsv then CsvAfter(file, ToCsvRow(m, n), out.csv) else file
    case None => file
  }

  /** Failing to fetch or to normalize ends the cycle unsuccessfully before any sink runs. */
  lemma NoDataInvokesNoSink(c: Config, n: Numerals, file: Option<seq<Line>>, response: Option<Payload>,
                            now: DateTime, out: SinkOutcomes)
    requires Fetched(c, response).None? || Normalize(c, Fetched(c, response).value, now).None?
    ensures !CycleSuccess(c, response, now, out)
    ensures forall e :: e in CycleEvents(c, n, response, now) ==> e == AirlyRequest
    ensures CycleFile(c, n, file, response, now, out) == file
  {
  }

  /** Two cycles that differ only in the forwarding outcome report the same result. */
  lemma ForwardingNeverDecides(c: Config, response: Option<Payload>, now: DateTime,
                               out: SinkOutcomes, accepted: bool)
    ensures CycleSuccess(c, response, now, out) == CycleSuccess(c, response, now, out.(hsbiAccepted := accepted))
  {
  }

  /** A failing enabled mandatory sink fails the cycle even when the other one succeeded. */
  lemma MandatorySinkFailureFailsCycle(c: Config, response: Option<Payload>, now: DateTime, out: SinkOutcomes)
    requires (c.enableDatabase && !out.databaseSaved) || (c.enableCsv && out.csv != Written)
    ensures !CycleSuccess(c, response, now, out)
  {
  }

  /**
   * A write that fails after `open` has created the file leaves it empty, so the next
   * successful append writes no header: its row is read back as the header and the
   * file yields no record.
   */
  lemma FailedFirstWriteHidesNextRow(c: Config, n: Numerals, response1: Option<Payload>, now1: DateTime,
                                     out1: SinkOutcomes, response2: Option<Payload>, now2: DateTime,
                                     out2: SinkOutcomes)
    requires c.enableCsv
    requires CycleMeasurement(c, response1, now1).Some? && CycleMeasurement(c, response2, now2).Some?
    requires out1.csv == WriteFailed && out2.csv == Written
    ensures CycleFile(c, n, None, response1, now1, out1) == Some([])
    ensures !CycleSuccess(c, response1, now1, out1)
    ensures var f2 := CycleFile(c, n, CycleFile(c, n, None, response1, now1, out1), response2, now2, out2);
      f2.Some? && Records(f2.value) == []
  {
    var m2 := CycleMeasurement(c, response2, now2).value;
    EmptyExistingFileLosesRow(ToCsvRow(m2, n));
  }

  /** The collector: its fixed configuration, the CSV file it appends to, and what it has done so far. */
  class AirlyCollector {
    const config: Config
    const numerals: Numerals
    var csvFile: Option<seq<Line>>
    var trace: seq<Event>

    constructor (config: Config, numerals: Numerals, csvFile: Option<seq<Line>>)
      ensures this.config == config && this.numerals == numerals
      ensures this.csvFile == csvFile && trace == []
    {
      this.config := config;
      this.numerals := numerals;
      this.csvFile := csvFile;
      trace := [];
    }

    /** `fetch_from_airly`; `response` is the transport's answer, `None` for any request error. */
    method FetchFromAirly(response: Option<Payload>) returns (data: Option<Payload>)
      modifies this`trace
      ensures data == Fetched(config, response)
      ensures trace == old(trace) + FetchEvents(config)
    {
      if config.airlyApiKey == "" {
        return None;
      }
      trace := trace + [AirlyRequest];
      data := response;
    }

    /** `parse_measurement`, with the clock reading `now` passed in. */
    method ParseMeasurement(data: Payload, now: DateTime) returns (m: Option<Measurement>)
      ensures m == Normalize(config, data, now)
    {
      var source: Source;
      if CurrentUsable(data) {
        source := data.current.value;
      } else if data.history.Some? && |data.history.value| > 0 && NonEmpty(data.history.value[0]) {
        source := data.history.value[0];
      } else {
        return None;
      }
      var readings := ReadingsOf(source);
      var values: map<string, Option<real>> := map[];
      var i := 0;
      while i < |readings|
        invariant 0 <= i <= |readings|
        invariant values == Flatten(readings[..i])
      {
        assert readings[..i + 1][..i] == readings[..i];
        values := values[readings[i].name := readings[i].value];
        i := i + 1;
      }
      assert readings[..|readings|] == readings;
      var aqi: Option<real> := None;
      if source.indexes.Some? && |source.indexes.value| > 0 {
        aqi := source.indexes.value[0].value;
      }
      m := Some(Measurement(now, config.cityName, config.latitude, config.longitude,
                            Lookup(values, "PM25"), Lookup(values, "PM10"), Lookup(values, "TEMPERATURE"),
                            Lookup(values, "HUMIDITY"), Lookup(values, "PRESSURE"),
                            aqi, Some(config.installationId)));
    }

    /** `save_to_database`; whether the database stored the row is the input `saved`. */
    method SaveToDatabase(m: Measurement, saved: bool) returns (ok: bool)
      modifies this`trace
      ensures ok == saved
      ensures trace == old(trace) + [DatabaseSink(m)]
    {
      trace := trace + [DatabaseSink(m)];
      ok := saved;
    }

    /** `save_to_csv`; `w` says where, if anywhere, an `IOError` is raised. */
    method SaveToCsv(m: Measurement, w: CsvWrite) returns (ok: bool)
      modifies this`csvFile, this`trace
      ensures ok == (w == Written)
      ensures csvFile == CsvAfter(old(csvFile), ToCsvRow(m, numerals), w)
      ensures trace == old(trace) + [CsvSink(m)]
    {
      trace := trace + [CsvSink(m)];
      if w == OpenFailed {
        return false;
      }
      var existed := csvFile.Some?;
      var lines: seq<Line> := if existed then csvFile.value else [];
      csvFile := Some(lines);
      if w == WriteFailed {
        return false;
      }
      var row := ToCsvRow(m, numerals);
      if !existed {
        lines := lines + [CsvHeaders];
      }
      lines := lines + [row];
      assert lines == AppendRow(old(csvFile), row);
      csvFile := Some(lines);
      ok := true;
    }

    /** `send_to_hsbi`; `accepted` is whether the POST succeeded. */
    method SendToHsbi(m: Measurement, accepted: bool) returns (ok: bool)
      modifies this`trace
      ensures ok == (config.hsbiApiUrl != "" && accepted)
      ensures trace == old(trace) + HsbiEvents(config, numerals, m)
    {
      trace := trace + [HsbiSink(m)];
      if config.hsbiApiUrl == "" {
        return false;
      }
      var payload := PayloadOf(config, numerals, m);
      trace := trace + [HsbiPost(payload)];
      ok := accepted;
    }

    /**
     * The sink half of `collect_once`: each enabled sink in the order database, CSV,
     * forwarding; the verdict ignores the forwarding outcome.
     */
    method RunSinks(m: Measurement, out: SinkOutcomes) returns (success: bool)
      modifies this`csvFile, this`trace
      ensures success == ((config.enableDatabase ==> out.databaseSaved) && (config.enableCsv ==> out.csv == Written))
      ensures trace == old(trace) + SinkEvents(config, numerals, m)
      ensures csvFile == if config.enableCsv then CsvAfter(old(csvFile), ToCsvRow(m, numerals), out.csv)
                         else old(csvFile)
    {
      ghost var dbPart: seq<Event> := if config.enableDatabase then [DatabaseSink(m)] else [];
      ghost var csvPart: seq<Event> := if config.enableCsv then [CsvSink(m)] else [];
      ghost var hsbiPart: seq<Event> := if config.enableHsbi then HsbiEvents(config, numerals, m) else [];
      success := true;
      if config.enableDatabase {
        var saved := SaveToDatabase(m, out.databaseSaved);
        success := saved;
      }
      assert trace == old(trace) + dbPart && csvFile == old(csvFile);
      if config.enableCsv {
        var written := SaveToCsv(m, out.csv);
        success := success && written;
      }
      assert trace == old(trace) + dbPart + csvPart;
      if config.enableHsbi {
        var _ := SendToHsbi(m, out.hsbiAccepted);
      }
      assert trace == old(trace) + dbPart + csvPart + hsbiPart;
      AppendAssoc(old(trace), dbPart, csvPart);
      AppendAssoc(old(trace), dbPart + csvPart, hsbiPart);
    }

    /** `collect_once`: the cycle's verdict, its events and the file it leaves behind. */
    method CollectOnce(response: Option<Payload>, now: DateTime, out: SinkOutcomes) returns (success: bool)
      modifies this`csvFile, this`trace
      ensures success == CycleSuccess(config, response, now, out)
      ensures trace == old(trace) + CycleEvents(config, numerals, response, now)
      ensures csvFile == CycleFile(config, numerals, old(csvFile), response, now, out)
    {
      var data := FetchFromAirly(response);
      if data.None? {
        return false;
      }
      var measurement := ParseMeasurement(data.value, now);
      if measurement.None? {
        return false;
      }
      assert CycleMeasurement(config, response, now) == measurement;
      success := RunSinks(measurement.value, out);
      AppendAssoc(old(trace), FetchEvents(config), SinkEvents(config, numerals, measurement.value));
    }
  }
}
