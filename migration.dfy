/**
 * `db_setup.py`: moving the CSV backup into the `measurements` table, and the
 * guarded maintenance steps `clear_table` and `setup_all`.
 *
 * The table is a sequence of rows. A connection sees the committed rows followed
 * by what its own open transaction has inserted; `migrate_csv` commits once, after
 * the whole file.
 */
module Migration {
  import opened Base
  import opened Decimal
  import opened Timestamp
  import opened Measurements
  import opened CsvFiles

  /**
   * What one run is told: whether to probe for duplicates, the station id for rows
   * without one, and how numbers are read from text (`float`).
   */
  datatype Settings = Settings(skipDuplicates: bool, defaultStationId: int, numerals: Numerals)

  /** The duplicate probe's key: `datetime_utc = %s AND city = %s`. */
  datatype Key = Key(datetime: DateTime, city: string)

  function KeyOf(r: StoredRow): Key
  {
    Key(r.datetime, r.city)
  }

  /** Some row of `store` has key `k`. */
  predicate HasKey(store: seq<StoredRow>, k: Key)
  {
    exists i :: 0 <= i < |store| && KeyOf(store[i]) == k
  }

  lemma HasKeyPrefix(a: seq<StoredRow>, b: seq<StoredRow>, k: Key)
    requires a <= b && HasKey(a, k)
    ensures HasKey(b, k)
  {
    var i :| 0 <= i < |a| && KeyOf(a[i]) == k;
    assert b[i] == a[i];
  }

  /**
   * The key of a record: `datetime_utc` parsed with `%Y-%m-%d %H:%M:%S`, and `city`.
   * A missing column (`KeyError`), a missing cell (`TypeError` from `strptime`) or a
   * malformed timestamp fails. A missing city cell also fails: such a row can never
   * match the probe (`city = NULL`) and its insert breaks `NOT NULL`, so it is skipped
   * whichever way it goes.
   */
  function ParseKey(rec: Record): (k: Option<Key>)
    ensures k.Some? ==> Valid(k.value.datetime) && k.value.datetime.microsecond == 0
  {
    if "datetime_utc" !in rec || rec["datetime_utc"].None? then None
    else
      match Parse(rec["datetime_utc"].value)
      case None => None
      case Some(dt) =>
        if "city" !in rec || rec["city"].None? then None
        else Some(Key(dt, rec["city"].value))
  }

  /**
   * `float(row[name]) if row[name] else None`: an empty or missing cell gives `None`
   * (the outer `Some`), a missing column or text that is not a number fails (`None`).
   */
  function RealCell(rec: Record, name: string, n: Numerals): (r: Option<Option<real>>)
    ensures name in rec && (rec[name] == None || rec[name] == Some("")) ==> r == Some(None)
    ensures name in rec && rec[name].Some? && rec[name].value != "" ==>
              r == (if n.read(rec[name].value).Some? then Some(n.read(rec[name].value)) else None)
    ensures name !in rec ==> r.None?
  {
    if name !in rec then None
    else if rec[name].None? || rec[name].value == "" then Some(None)
    else
      match n.read(rec[name].value)
      case None => None
      case Some(x) => Some(Some(x))
  }

  /** `int(row[name]) if row[name] else None`, with the same failures as `RealCell`. */
  function IntCell(rec: Record, name: string): (r: Option<Option<int>>)
    ensures name in rec && (rec[name] == None || rec[name] == Some("")) ==> r == Some(None)
    ensures name in rec && rec[name].Some? && rec[name].value != "" ==>
              r == (if ParseInt(rec[name].value).Some? then Some(ParseInt(rec[name].value)) else None)
    ensures name !in rec ==> r.None?
  {
    if name !in rec then None
    else if rec[name].None? || rec[name].value == "" then Some(None)
    else
      match ParseInt(rec[name].value)
      case None => None
      case Some(v) => Some(Some(v))
  }

  /**
   * The station column: when `row.get('station_id')` is falsy (no such column, no
   * cell, empty cell) the default id, otherwise the cell read as an integer.
   */
  function StationCell(rec: Record, default: int): (r: Option<int>)
    ensures "station_id" !in rec ==> r == Some(default)
    ensures "station_id" in rec && (rec["station_id"] == None || rec["station_id"] == Some("")) ==>
              r == Some(default)
    ensures "station_id" in rec && rec["station_id"].Some? && rec["station_id"].value != "" ==>
              r == ParseInt(rec["station_id"].value)
  {
    if "station_id" !in rec || rec["station_id"].None? || rec["station_id"].value == "" then Some(default)
    else ParseInt(rec["station_id"].value)
  }

  /** The `values` tuple for a record whose key parsed; any conversion error fails it. */
  function ParseValues(rec: Record, k: Key, s: Settings): (r: Option<StoredRow>)
    ensures r.Some? ==> KeyOf(r.value) == k && r.value.stationId.Some?
    ensures (|| RealCell(rec, "lat", s.numerals).None? || RealCell(rec, "lon", s.numerals).None?
             || IntCell(rec, "hour_utc").None? || IntCell(rec, "minute_utc").None?
             || StationCell(rec, s.defaultStationId).None?) ==> r.None?
  {
    var lat :- RealCell(rec, "lat", s.numerals);
    var lon :- RealCell(rec, "lon", s.numerals);
    var hour :- IntCell(rec, "hour_utc");
    var minute :- IntCell(rec, "minute_utc");
    var pm25 :- RealCell(rec, "PM25", s.numerals);
    var pm10 :- RealCell(rec, "PM10", s.numerals);
    var temperature :- RealCell(rec, "TEMPERATURE", s.numerals);
    var humidity :- RealCell(rec, "HUMIDITY", s.numerals);
    var pressure :- RealCell(rec, "PRESSURE", s.numerals);
    var aqi :- RealCell(rec, "AQI", s.numerals);
    var station :- StationCell(rec, s.defaultStationId);
    Some(StoredRow(k.datetime, k.city, lat, lon, hour, minute,
                   pm25, pm10, temperature, humidity, pressure, aqi, Some(station)))
  }

  /** The row a record describes, ignoring the table. */
  function ParseRow(rec: Record, s: Settings): (r: Option<StoredRow>)
    ensures r.Some? ==> ParseKey(rec) == Some(KeyOf(r.value))
  {
    var k :- ParseKey(rec);
    ParseValues(rec, k, s)
  }

  /**
   * Whether the table takes a row: the `NOT NULL` columns must be present and the
   * database must not reject it for any other reason (`refuses`: out-of-range
   * `TINYINT` or `DECIMAL` values and the like).
   */
  predicate Accepts(r: StoredRow, refuses: StoredRow -> bool)
  {
    r.lat.Some? && r.lon.Some? && r.hour.Some? && r.minute.Some? && !refuses(r)
  }

  /** What happens to one record. */
  datatype Outcome = Inserted(row: StoredRow) | Duplicate | Skipped

  /**
   * The loop body of `migrate_csv` against the rows the connection sees. The key is
   * parsed first, then the probe is made, and only then are the numbers converted, so
   * a record whose key exists counts as a duplicate however malformed its numbers.
   */
  function Classify(rec: Record, store: seq<StoredRow>, s: Settings, refuses: StoredRow -> bool): (o: Outcome)
    ensures ParseKey(rec).None? ==> o == Skipped
    ensures ParseKey(rec).Some? && s.skipDuplicates && HasKey(store, ParseKey(rec).value) ==> o == Duplicate
    ensures o == Duplicate ==> s.skipDuplicates && ParseKey(rec).Some? && HasKey(store, ParseKey(rec).value)
    ensures o.Inserted? <==> ParseRow(rec, s).Some? && Accepts(ParseRow(rec, s).value, refuses)
                             && !(s.skipDuplicates && HasKey(store, ParseKey(rec).value))
    ensures o.Inserted? ==> o.row == ParseRow(rec, s).value
  {
    match ParseKey(rec)
    case None => Skipped
    case Some(k) =>
      if s.skipDuplicates && HasKey(store, k) then Duplicate
      else
        match ParseValues(rec, k, s)
        case None => Skipped
        case Some(row) => if Accepts(row, refuses) then Inserted(row) else Skipped
  }

  /** `rows_imported`, `rows_duplicate`, `rows_skipped`. */
  datatype Tally = Tally(imported: nat, duplicate: nat, skipped: nat)

  /** The rows the connection sees and the counters, part way through a run. */
  datatype Run = Run(store: seq<StoredRow>, tally: Tally)

  function Stored(store: seq<StoredRow>, o: Outcome): seq<StoredRow>
  {
    if o.Inserted? then store + [o.row] else store
  }

  function Count(t: Tally, o: Outcome): Tally
  {
    match o
    case Inserted(_) => t.(imported := t.imported + 1)
    case Duplicate => t.(duplicate := t.duplicate + 1)
    case Skipped => t.(skipped := t.skipped + 1)
  }

  function Apply(r: Run, o: Outcome): Run
  {
    Run(Stored(r.store, o), Count(r.tally, o))
  }

  /** One record processed against the rows the connection sees so far. */
  function Step(r: Run, rec: Record, s: Settings, refuses: StoredRow -> bool): Run
  {
    Apply(r, Classify(rec, r.store, s, refuses))
  }

  /**
   * The records processed in order, starting from the rows in `base`. Every record is
   * counted exactly once, and the table grows by exactly the imported rows.
   */
  function Migrate(recs: seq<Record>, base: seq<StoredRow>, s: Settings, refuses: StoredRow -> bool): (r: Run)
    ensures r.tally.imported + r.tally.duplicate + r.tally.skipped == |recs|
    ensures |r.store| == |base| + r.tally.imported
    ensures base <= r.store
  {
    if recs == [] then Run(base, Tally(0, 0, 0))
    else
      Step(Migrate(recs[..|recs| - 1], base, s, refuses), recs[|recs| - 1], s, refuses)
  }

  /** Processing more records only adds rows after the ones already there. */
  lemma {:induction false} MigrateGrows(recs: seq<Record>, base: seq<StoredRow>, s: Settings,
                                        refuses: StoredRow -> bool, p: nat)
    requires p <= |recs|
    ensures Migrate(recs[..p], base, s, refuses).store <= Migrate(recs, base, s, refuses).store
  {
    if p < |recs| {
      var init := recs[..|recs| - 1];
      assert recs[..p] == init[..p];
      MigrateGrows(init, base, s, refuses, p);
    } else {
      assert recs[..p] == recs;
    }
  }

  /** No row from position `from` on repeats the key of any row before it. */
  predicate KeysFreshFrom(st: seq<StoredRow>, from: nat)
  {
    forall i, j :: 0 <= i < j < |st| && from <= j ==> KeyOf(st[i]) != KeyOf(st[j])
  }

  /**
   * With the probe on, no imported row repeats the key of a row before it, whether
   * that row was already in the table or imported earlier in the same run.
   */
  lemma {:induction false} DedupKeysFresh(recs: seq<Record>, base: seq<StoredRow>, s: Settings,
                                          refuses: StoredRow -> bool)
    requires s.skipDuplicates
    ensures KeysFreshFrom(Migrate(recs, base, s, refuses).store, |base|)
  {
    if recs != [] {
      var init := recs[..|recs| - 1];
      var prev := Migrate(init, base, s, refuses);
      DedupKeysFresh(init, base, s, refuses);
      var o := Classify(recs[|recs| - 1], prev.store, s, refuses);
      var st := Migrate(recs, base, s, refuses).store;
      assert st == Stored(prev.store, o);
      if o.Inserted? {
        var rec := recs[|recs| - 1];
        assert ParseRow(rec, s).Some? && o.row == ParseRow(rec, s).value;
        assert ParseKey(rec) == Some(KeyOf(o.row));
        assert !HasKey(prev.store, KeyOf(o.row));
        forall i, j | 0 <= i < j < |st| && |base| <= j
          ensures KeyOf(st[i]) != KeyOf(st[j])
        {
          if j == |prev.store| {
            assert st[i] == prev.store[i] && st[j] == o.row;
            assert KeyOf(prev.store[i]) != KeyOf(o.row);
          } else {
            assert st[i] == prev.store[i] && st[j] == prev.store[j];
          }
        }
      }
    }
  }

  /** Whether a record would be imported into a table that lacks its key. */
  predicate Insertable(rec: Record, s: Settings, refuses: StoredRow -> bool)
  {
    ParseRow(rec, s).Some? && Accepts(ParseRow(rec, s).value, refuses)
  }

  /** The rows of the insertable records, in file order. */
  function Admitted(recs: seq<Record>, s: Settings, refuses: StoredRow -> bool): (rows: seq<StoredRow>)
    ensures |rows| <= |recs|
  {
    if recs == [] then []
    else
      var last := recs[|recs| - 1];
      Admitted(recs[..|recs| - 1], s, refuses)
        + (if Insertable(last, s, refuses) then [ParseRow(last, s).value] else [])
  }

  /**
   * With the probe off, nothing counts as a duplicate and every record that parses
   * and that the table accepts is inserted, in file order.
   */
  lemma {:induction false} WithoutDedupAllAdmitted(recs: seq<Record>, base: seq<StoredRow>, s: Settings,
                                                   refuses: StoredRow -> bool)
    requires !s.skipDuplicates
    ensures Migrate(recs, base, s, refuses).store == base + Admitted(recs, s, refuses)
    ensures Migrate(recs, base, s, refuses).tally.duplicate == 0
  {
    if recs != [] {
      var init := recs[..|recs| - 1];
      WithoutDedupAllAdmitted(init, base, s, refuses);
      var prev := Migrate(init, base, s, refuses);
      var last := recs[|recs| - 1];
      var o := Classify(last, prev.store, s, refuses);
      assert Migrate(recs, base, s, refuses) == Apply(prev, o);
      if o.Inserted? {
        assert Insertable(last, s, refuses);
        assert Admitted(recs, s, refuses) == Admitted(init, s, refuses) + [o.row];
        AppendAssoc(base, Admitted(init, s, refuses), [o.row]);
      } else {
        assert !Insertable(last, s, refuses);
      }
    }
  }

  /**
   * One record of a second run against the table the first run left: it is never
   * inserted, and if the first run imported it or found it a duplicate, it is now a
   * duplicate.
   */
  lemma RerunStep(rec: Record, now: seq<StoredRow>, final: seq<StoredRow>, s: Settings,
                  refuses: StoredRow -> bool)
    requires s.skipDuplicates
    requires Stored(now, Classify(rec, now, s, refuses)) <= final
    ensures var first := Classify(rec, now, s, refuses);
      var again := Classify(rec, final, s, refuses);
      && !again.Inserted?
      && (first.Inserted? || first.Duplicate? ==> again.Duplicate?)
  {
    var first := Classify(rec, now, s, refuses);
    if first.Inserted? {
      var k := KeyOf(first.row);
      assert final[|now|] == first.row;
      assert HasKey(final, k);
    } else if first.Duplicate? {
      HasKeyPrefix(now, final, ParseKey(rec).value);
    }
  }

  /**
   * A second run over the first `p` records against the table the first full run
   * left inserts nothing, and finds at least as many duplicates as the first run
   * imported and found duplicates among those records.
   */
  lemma {:induction false} RerunPrefix(recs: seq<Record>, base: seq<StoredRow>, s: Settings,
                                       refuses: StoredRow -> bool, p: nat)
    requires s.skipDuplicates && p <= |recs|
    ensures var first := Migrate(recs, base, s, refuses);
      var again := Migrate(recs[..p], first.store, s, refuses);
      var partial := Migrate(recs[..p], base, s, refuses);
      && again.store == first.store
      && again.tally.imported == 0
      && again.tally.duplicate >= partial.tally.imported + partial.tally.duplicate
  {
    if p > 0 {
      var first := Migrate(recs, base, s, refuses);
      RerunPrefix(recs, base, s, refuses, p - 1);
      var pre := recs[..p - 1];
      assert recs[..p][..p - 1] == pre;
      var rec := recs[p - 1];
      var partial := Migrate(pre, base, s, refuses);
      MigrateGrows(recs, base, s, refuses, p);
      RerunStep(rec, partial.store, first.store, s, refuses);
    }
  }

  /**
   * Re-running the migration with the probe on over the same file inserts nothing
   * new, leaves the table as the first run left it, and counts every row the first
   * run imported or found duplicate as a duplicate.
   */
  lemma RerunInsertsNothing(recs: seq<Record>, base: seq<StoredRow>, s: Settings, refuses: StoredRow -> bool)
    requires s.skipDuplicates
    ensures var first := Migrate(recs, base, s, refuses);
      var again := Migrate(recs, first.store, s, refuses);
      && again.store == first.store
      && again.tally.imported == 0
      && again.tally.duplicate >= first.tally.imported + first.tally.duplicate
  {
    RerunPrefix(recs, base, s, refuses, |recs|);
    assert recs[..|recs|] == recs;
  }

  /** `rec` has column `name` holding `text`. */
  predicate Holds(rec: Record, name: string, text: string)
  {
    name in rec && rec[name] == Some(text)
  }

  /** The fixed columns of a row the CSV sink wrote, as `DictReader` reads them back. */
  lemma CsvRecordFixedCells(m: Measurement, n: Numerals)
    ensures var line := ToCsvRow(m, n);
      var rec := DictRow(CsvHeaders, line);
      && Holds(rec, "datetime_utc", line[0]) && Holds(rec, "city", line[1])
      && Holds(rec, "lat", line[2]) && Holds(rec, "lon", line[3])
      && Holds(rec, "hour_utc", line[4]) && Holds(rec, "minute_utc", line[5])
  {
    var line := ToCsvRow(m, n);
    HeadersDistinct();
    DictRowAt(CsvHeaders, line, 0);
    DictRowAt(CsvHeaders, line, 1);
    DictRowAt(CsvHeaders, line, 2);
    DictRowAt(CsvHeaders, line, 3);
    DictRowAt(CsvHeaders, line, 4);
    DictRowAt(CsvHeaders, line, 5);
  }

  /** The file has no `station_id` column, so its records have no such key. */
  lemma CsvRecordHasNoStation(m: Measurement, n: Numerals)
    ensures "station_id" !in DictRow(CsvHeaders, ToCsvRow(m, n))
  {
    DictRowKeys(CsvHeaders, ToCsvRow(m, n), "station_id");
  }

  /** The optional columns of a row the CSV sink wrote, as `DictReader` reads them back. */
  lemma CsvRecordOptionalCells(m: Measurement, n: Numerals)
    ensures var line := ToCsvRow(m, n);
      var rec := DictRow(CsvHeaders, line);
      && Holds(rec, "PM25", line[6]) && Holds(rec, "PM10", line[7])
      && Holds(rec, "TEMPERATURE", line[8]) && Holds(rec, "HUMIDITY", line[9])
      && Holds(rec, "PRESSURE", line[10]) && Holds(rec, "AQI", line[11])
  {
    var line := ToCsvRow(m, n);
    HeadersDistinct();
    DictRowAt(CsvHeaders, line, 6);
    DictRowAt(CsvHeaders, line, 7);
    DictRowAt(CsvHeaders, line, 8);
    DictRowAt(CsvHeaders, line, 9);
    DictRowAt(CsvHeaders, line, 10);
    DictRowAt(CsvHeaders, line, 11);
  }

  /** An optional column the CSV sink wrote converts back to the field it came from. */
  lemma OptionalCellMigratesBack(rec: Record, name: string, o: Option<real>, n: Numerals)
    requires OptionShowsBack(n, o)
    requires Holds(rec, name, OptionalCell(o, n))
    ensures RealCell(rec, name, n) == Some(o)
  {
    OptionalCellReadsBack(o, n);
  }

  /** A present number the CSV sink wrote converts back to itself. */
  lemma RealCellMigratesBack(rec: Record, name: string, x: real, n: Numerals)
    requires ShowsBack(n, x)
    requires Holds(rec, name, n.show(x))
    ensures RealCell(rec, name, n) == Some(Some(x))
  {
  }

  /** An hour or minute the CSV sink wrote converts back to itself. */
  lemma IntCellMigratesBack(rec: Record, name: string, v: nat)
    requires Holds(rec, name, ShowNat(v))
    ensures IntCell(rec, name) == Some(Some(v as int))
  {
    ParseShowNat(v);
  }

  /**
   * A row written by the CSV sink comes back with its city, coordinates, hour,
   * minute and optional fields, its timestamp cut to whole seconds, and the default
   * station id, since the file has no `station_id` column; the result is consistent.
   */
  lemma CsvRowMigratesBack(m: Measurement, s: Settings)
    requires Valid(m.timestamp) && FaithfulFor(s.numerals, m)
    ensures var row := ParseRow(DictRow(CsvHeaders, ToCsvRow(m, s.numerals)), s);
      && row == Some(StoredRow(WholeSeconds(m.timestamp), m.city,
                               Some(m.latitude), Some(m.longitude),
                               Some(m.timestamp.hour), Some(m.timestamp.minute),
                               m.pm25, m.pm10, m.temperature, m.humidity, m.pressure, m.aqi,
                               Some(s.defaultStationId)))
      && Consistent(row.value)
  {
    var n := s.numerals;
    var line := ToCsvRow(m, n);
    var rec := DictRow(CsvHeaders, line);
    CsvRecordFixedCells(m, n);
    CsvRecordOptionalCells(m, n);
    CsvRecordHasNoStation(m, n);
    CsvRowLayout(m, n);
    assert OptionShowsBack(n, Optionals(m)[0]) && OptionShowsBack(n, Optionals(m)[1]);
    assert OptionShowsBack(n, Optionals(m)[2]) && OptionShowsBack(n, Optionals(m)[3]);
    assert OptionShowsBack(n, Optionals(m)[4]) && OptionShowsBack(n, Optionals(m)[5]);
    var k := Key(WholeSeconds(m.timestamp), m.city);
    assert ParseKey(rec) == Some(k);
    RealCellMigratesBack(rec, "lat", m.latitude, n);
    RealCellMigratesBack(rec, "lon", m.longitude, n);
    IntCellMigratesBack(rec, "hour_utc", m.timestamp.hour);
    IntCellMigratesBack(rec, "minute_utc", m.timestamp.minute);
    OptionalCellMigratesBack(rec, "PM25", m.pm25, n);
    OptionalCellMigratesBack(rec, "PM10", m.pm10, n);
    OptionalCellMigratesBack(rec, "TEMPERATURE", m.temperature, n);
    OptionalCellMigratesBack(rec, "HUMIDITY", m.humidity, n);
    OptionalCellMigratesBack(rec, "PRESSURE", m.pressure, n);
    OptionalCellMigratesBack(rec, "AQI", m.aqi, n);
  }

  /**
   * The table as one connection sees it. `committed` is durable; `pending` holds the
   * rows the connection's open transaction has inserted. `refuses` is the server's
   * verdict on a row beyond the `NOT NULL` columns.
   */
  class Database {
    var committed: seq<StoredRow>
    var pending: seq<StoredRow>
    var connectAttempts: nat
    var commits: nat
    const refuses: StoredRow -> bool

    constructor (rows: seq<StoredRow>, refuses: StoredRow -> bool)
      ensures committed == rows && pending == [] && connectAttempts == 0 && commits == 0
      ensures this.refuses == refuses
    {
      committed := rows;
      pending := [];
      connectAttempts := 0;
      commits := 0;
      this.refuses := refuses;
    }

    /** What a `SELECT` on this connection sees. */
    function Visible(): seq<StoredRow>
      reads this
    {
      committed + pending
    }

    /** `get_db_connection`; `up` is whether the server answers. A new connection has no open transaction. */
    method Connect(up: bool) returns (ok: bool)
      modifies this
      ensures ok == up
      ensures connectAttempts == old(connectAttempts) + 1
      ensures committed == old(committed) && commits == old(commits)
      ensures pending == if up then [] else old(pending)
    {
      connectAttempts := connectAttempts + 1;
      if up {
        pending := [];
      }
      ok := up;
    }

    /** The duplicate probe `SELECT id ... WHERE datetime_utc = %s AND city = %s LIMIT 1`. */
    predicate HasRow(k: Key)
      reads this
    {
      HasKey(Visible(), k)
    }

    /** `INSERT INTO measurements ...`: the row joins the open transaction, or the statement fails. */
    method Insert(r: StoredRow) returns (ok: bool)
      modifies this`pending
      ensures ok == Accepts(r, refuses)
      ensures pending == old(pending) + (if ok then [r] else [])
    {
      ok := Accepts(r, refuses);
      if ok {
        pending := pending + [r];
      }
    }

    /** `connection.commit()`; `works` is false when the commit raises. */
    method Commit(works: bool) returns (ok: bool)
      modifies this`committed, this`pending, this`commits
      ensures ok == works && commits == old(commits) + 1
      ensures works ==> committed == old(committed) + old(pending) && pending == []
      ensures !works ==> committed == old(committed) && pending == old(pending)
    {
      commits := commits + 1;
      if works {
        committed := committed + pending;
        pending := [];
      }
      ok := works;
    }

    /** `connection.rollback()`: the open transaction's rows are dropped. */
    method Rollback()
      modifies this`pending
      ensures pending == []
    {
      pending := [];
    }

    /** `TRUNCATE TABLE measurements` and its commit; `works` is false when either raises. */
    method Truncate(works: bool) returns (ok: bool)
      modifies this`committed, this`pending
      ensures ok == works
      ensures works ==> committed == [] && pending == []
      ensures !works ==> committed == old(committed) && pending == old(pending)
    {
      if works {
        committed := [];
        pending := [];
      }
      ok := works;
    }
  }

  /** The reader raises once it has yielded `after` records, before the end of the file. */
  predicate Interrupted(readFailsAfter: Option<nat>, records: nat)
  {
    readFailsAfter.Some? && readFailsAfter.value <= records
  }

  /**
   * One pass of the loop in `migrate_csv`: parse the key, probe, convert, insert, and
   * bump the matching counter. The rows the connection sees and the counters move as
   * `Classify` says.
   */
  method ImportRecord(db: Database, rec: Record, s: Settings, tally: Tally) returns (t: Tally)
    modifies db`pending
    ensures Run(db.Visible(), t) == Step(Run(old(db.Visible()), tally), rec, s, db.refuses)
  {
    var key := ParseKey(rec);
    if key.None? {
      t := tally.(skipped := tally.skipped + 1);
    } else if s.skipDuplicates && db.HasRow(key.value) {
      t := tally.(duplicate := tally.duplicate + 1);
    } else {
      var row := ParseValues(rec, key.value, s);
      if row.None? {
        t := tally.(skipped := tally.skipped + 1);
      } else {
        var inserted := db.Insert(row.value);
        if inserted {
          t := tally.(imported := tally.imported + 1);
        } else {
          t := tally.(skipped := tally.skipped + 1);
        }
      }
    }
  }

  /** One more record: `Migrate` on a longer prefix applies that record's outcome. */
  lemma MigrateSnoc(recs: seq<Record>, i: nat, base: seq<StoredRow>, s: Settings, refuses: StoredRow -> bool)
    requires i < |recs|
    ensures Migrate(recs[..i + 1], base, s, refuses) == Step(Migrate(recs[..i], base, s, refuses), recs[i], s, refuses)
  {
    assert recs[..i + 1][..i] == recs[..i];
  }

  /**
   * The `for row in reader` loop: every record in turn, until reading raises after
   * `readFailsAfter` records. When it completes, the rows the connection sees and the
   * counters are those of `Migrate` from the committed rows.
   */
  method ImportRecords(db: Database, recs: seq<Record>, s: Settings, readFailsAfter: Option<nat>)
    returns (completed: bool, tally: Tally)
    requires db.pending == []
    modifies db`pending
    ensures completed <==> !Interrupted(readFailsAfter, |recs|)
    ensures completed ==> Run(db.Visible(), tally) == Migrate(recs, db.committed, s, db.refuses)
  {
    tally := Tally(0, 0, 0);
    ghost var base := db.committed;
    var i := 0;
    while i < |recs| && readFailsAfter != Some(i)
      invariant i <= |recs| && db.committed == base
      invariant readFailsAfter.Some? ==> i <= readFailsAfter.value
      invariant Run(db.Visible(), tally) == Migrate(recs[..i], base, s, db.refuses)
    {
      MigrateSnoc(recs, i, base, s, db.refuses);
      tally := ImportRecord(db, recs[i], s, tally);
      i := i + 1;
    }
    completed := readFailsAfter != Some(i);
    if completed {
      assert recs[..i] == recs;
    }
  }

  /**
   * `migrate_csv`. `file` is the CSV file (`None` when the path does not exist), `up`
   * whether the server answers, `readFailsAfter` when reading the file raises, and
   * `commitOk` whether the final commit succeeds. On success the table holds what
   * `Migrate` computes from the committed rows and the counters are its tally; on any
   * failure after connecting the open transaction is rolled back.
   */
  method MigrateCsv(db: Database, file: Option<seq<Line>>, up: bool, s: Settings,
                    readFailsAfter: Option<nat>, commitOk: bool)
    returns (ok: bool, tally: Tally)
    modifies db
    ensures file.None? ==> !ok && unchanged(db)
    ensures file.Some? ==> db.connectAttempts == old(db.connectAttempts) + 1
    ensures ok <==> file.Some? && up && !Interrupted(readFailsAfter, |Records(file.value)|) && commitOk
    ensures ok ==> var run := Migrate(Records(file.value), old(db.committed), s, db.refuses);
                   db.committed == run.store && tally == run.tally
    ensures !ok ==> db.committed == old(db.committed)
    ensures db.commits == old(db.commits) +
              (if file.Some? && up && !Interrupted(readFailsAfter, |Records(file.value)|) then 1 else 0)
    ensures file.Some? && up ==> db.pending == []
  {
    tally := Tally(0, 0, 0);
    if file.None? {
      return false, tally;
    }
    var connected := db.Connect(up);
    if !connected {
      return false, tally;
    }
    var recs := Records(file.value);
    var completed;
    completed, tally := ImportRecords(db, recs, s, readFailsAfter);
    if !completed {
      db.Rollback();
      return false, tally;
    }
    var committed := db.Commit(commitOk);
    if !committed {
      db.Rollback();
      return false, tally;
    }
    ok := true;
  }

  /** `clear_table`: without confirmation nothing is touched, not even a connection. */
  method ClearTable(db: Database, confirm: bool, up: bool, truncateOk: bool) returns (ok: bool)
    modifies db
    ensures !confirm ==> !ok && unchanged(db)
    ensures confirm ==> db.connectAttempts == old(db.connectAttempts) + 1
    ensures ok <==> confirm && up && truncateOk
    ensures ok ==> db.committed == [] && db.pending == []
    ensures !ok ==> db.committed == old(db.committed)
  {
    if !confirm {
      return false;
    }
    var connected := db.Connect(up);
    if !connected {
      return false;
    }
    ok := db.Truncate(truncateOk);
  }

  /** The steps `setup_all` runs. */
  datatype SetupStep = CreateDatabase | CreateSchema | ShowStatus

  /**
   * `setup_all`: creating the database, then the schema, stopping at the first that
   * fails; the status is shown only after both succeed. `databaseOk` and `schemaOk`
   * are the outcomes of `create_database` and `create_schema`.
   */
  method SetupAll(databaseOk: bool, schemaOk: bool) returns (ok: bool, steps: seq<SetupStep>)
    ensures ok <==> databaseOk && schemaOk
    ensures |steps| > 0 && steps[0] == CreateDatabase
    ensures CreateSchema in steps <==> databaseOk
    ensures ShowStatus in steps <==> ok
    ensures ok ==> steps == [CreateDatabase, CreateSchema, ShowStatus]
  {
    steps := [CreateDatabase];
    if !databaseOk {
      return false, steps;
    }
    steps := steps + [CreateSchema];
    if !schemaOk {
      return false, steps;
    }
    steps := steps + [ShowStatus];
    ok := true;
  }
}
