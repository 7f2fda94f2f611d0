/**
  The CSV sink of firmware/CsvWriter.py. The file is a sequence of rows
  of fields: the constructor writes the header, `AddRow` appends one row per
  call over the nine fixed columns, or nothing when the row cannot be built.
  Field quoting is the `csv` module's business and is left out: a row is
  the list of field texts.
 */
module Csv {
  import opened Values

  /** The fixed schema of the CSV file, in column order. */
  const Columns: seq<string> :=
    ["timestamp", "temperature", "humidity", "vocIndex", "co2", "pm1.0", "pm2.5", "pm4.0", "pm10"]

  // ---------------------------------------------------------------------
  // The file name

  /** A UTC calendar time, as `datetime.utcnow()` gives it. */
  datatype DateTime = DateTime(year: nat, month: nat, day: nat, hour: nat, minute: nat, second: nat)

  predicate ValidDateTime(t: DateTime) {
    1 <= t.year <= 9999 && 1 <= t.month <= 12 && 1 <= t.day <= 31
    && t.hour < 24 && t.minute < 60 && t.second < 60
  }

  function Pow10(n: nat): (p: nat)
    ensures p >= 1
  {
    if n == 0 then 1 else 10 * Pow10(n - 1)
  }

  /** `n` in decimal, zero-padded on the left to `width` digits. */
  function Pad(n: nat, width: nat): string {
    var s := NatToString(n);
    if |s| >= width then s else Zeros(width - |s|) + s
  }

  function Zeros(n: nat): (z: string)
    ensures |z| == n && forall i :: 0 <= i < n ==> z[i] == '0'
  {
    if n == 0 then "" else Zeros(n - 1) + "0"
  }

  /** `strftime("%Y_%m_%d-%H_%M_%S")`. */
  function Stamp(t: DateTime): string {
    Triple(Pad(t.year, 4), Pad(t.month, 2), Pad(t.day, 2)) + "-"
      + Triple(Pad(t.hour, 2), Pad(t.minute, 2), Pad(t.second, 2))
  }

  /** Three fields joined by underscores, as in `%Y_%m_%d` and `%H_%M_%S`. */
  function Triple(a: string, b: string, c: string): string {
    a + "_" + b + "_" + c
  }

  /** `"/aq/data/{fn}_{hwid}_{ts}.csv"`. */
  function CsvFilename(friendlyName: string, hwid: Scalar, t: DateTime): string {
    "/aq/data/" + friendlyName + "_" + Render(hwid) + "_" + Stamp(t) + ".csv"
  }

  /** Leading zeros do not change the value. */
  lemma {:induction false} ZerosValue(k: nat, s: string)
    ensures DecimalValue(Zeros(k) + s) == DecimalValue(s)
    decreases |s|, k
  {
    if s == [] {
      if k > 0 {
        assert Zeros(k) + s == Zeros(k - 1) + "0";
        assert (Zeros(k - 1) + "0")[..k - 1] == Zeros(k - 1) + [];
        ZerosValue(k - 1, []);
      }
    } else {
      var t := Zeros(k) + s;
      assert t[..|t| - 1] == Zeros(k) + s[..|s| - 1];
      ZerosValue(k, s[..|s| - 1]);
    }
  }

  /** A number below `10^width` takes at most `width` digits when `width > 0`. */
  lemma {:induction false} NatToStringLength(n: nat, width: nat)
    requires width > 0 && n < Pow10(width)
    ensures |NatToString(n)| <= width
    decreases width
  {
    if n >= 10 {
      assert n / 10 < Pow10(width - 1);
      NatToStringLength(n / 10, width - 1);
    }
  }

  /** Zero-padding takes exactly `width` characters and reads back as `n`. */
  lemma PadRoundTrip(n: nat, width: nat)
    requires width > 0 && n < Pow10(width)
    ensures |Pad(n, width)| == width && DecimalValue(Pad(n, width)) == n
  {
    NatToStringLength(n, width);
    NatToStringValue(n);
    ZerosValue(width - |NatToString(n)|, NatToString(n));
  }

  /** Where the fields of three underscore-joined fields sit. */
  lemma TripleLayout(a: string, b: string, c: string)
    requires |b| == 2 && |c| == 2
    ensures var s := Triple(a, b, c);
      && |s| == |a| + 6 && s[|a|] == '_' && s[|a| + 3] == '_'
      && s[..|a|] == a && s[|a| + 1..|a| + 3] == b && s[|a| + 4..] == c
  {
    var s := Triple(a, b, c);
    assert s == (a + "_" + b) + ("_" + c);
    assert (a + "_" + b)[|a| + 1..] == b;
  }

  /** A slice of a slice. */
  lemma SliceOfSlice(s: string, i: nat, j: nat, k: nat, l: nat)
    requires i <= j <= |s| && k <= l <= j - i
    ensures s[i..j][k..l] == s[i + k..i + l]
  {
    forall m | 0 <= m < l - k ensures s[i..j][k..l][m] == s[i + k..i + l][m] {
      assert s[i..j][k + m] == s[i + k + m];
    }
  }

  /** Where the fields of a time stamp sit. */
  lemma StampLayout(y: string, mo: string, d: string, h: string, mi: string, se: string)
    requires |y| == 4 && |mo| == 2 && |d| == 2 && |h| == 2 && |mi| == 2 && |se| == 2
    ensures var s := Triple(y, mo, d) + "-" + Triple(h, mi, se);
      && |s| == 19
      && s[4] == '_' && s[7] == '_' && s[10] == '-' && s[13] == '_' && s[16] == '_'
      && s[0..4] == y && s[5..7] == mo && s[8..10] == d && s[11..13] == h && s[14..16] == mi && s[17..19] == se
  {
    var x := Triple(y, mo, d);
    var z := Triple(h, mi, se);
    var s := x + "-" + z;
    TripleLayout(y, mo, d);
    TripleLayout(h, mi, se);
    assert s[0..10] == x && s[11..19] == z;
    SliceOfSlice(s, 0, 10, 0, 4);
    SliceOfSlice(s, 0, 10, 5, 7);
    SliceOfSlice(s, 0, 10, 8, 10);
    SliceOfSlice(s, 11, 19, 0, 2);
    SliceOfSlice(s, 11, 19, 3, 5);
    SliceOfSlice(s, 11, 19, 6, 8);
    assert x[8..10] == x[8..] && z[6..8] == z[6..];
  }

  /** The time stamp of a file name is 19 characters with the separators
      at fixed places, and each field reads back as the calendar value. */
  lemma StampRoundTrip(t: DateTime)
    requires ValidDateTime(t)
    ensures var s := Stamp(t);
      && |s| == 19
      && s[4] == '_' && s[7] == '_' && s[10] == '-' && s[13] == '_' && s[16] == '_'
      && DecimalValue(s[0..4]) == t.year && DecimalValue(s[5..7]) == t.month
      && DecimalValue(s[8..10]) == t.day && DecimalValue(s[11..13]) == t.hour
      && DecimalValue(s[14..16]) == t.minute && DecimalValue(s[17..19]) == t.second
  {
    PadRoundTrip(t.year, 4);
    PadRoundTrip(t.month, 2);
    PadRoundTrip(t.day, 2);
    PadRoundTrip(t.hour, 2);
    PadRoundTrip(t.minute, 2);
    PadRoundTrip(t.second, 2);
    StampLayout(Pad(t.year, 4), Pad(t.month, 2), Pad(t.day, 2), Pad(t.hour, 2), Pad(t.minute, 2), Pad(t.second, 2));
  }

  // ---------------------------------------------------------------------
  // One row

  /** `{'timestamp': int(...)}`, the dictionary each row starts from. */
  function Seed(timestamp: int): Dict<Scalar> {
    [("timestamp", Num(IntToString(timestamp)))]
  }

  /** The loop of `addRow`: each sensor's metrics, its `sensor` tag popped,
      merged with `update` in iteration order. A top-level value that is not
      a dictionary has no `pop` and aborts the row (None). */
  function Flatten(body: Snapshot, seed: Dict<Scalar>): Option<Dict<Scalar>>
    decreases |body|
  {
    if body == [] then Some(seed)
    else
      var init := Flatten(body[..|body| - 1], seed);
      var e := body[|body| - 1].1;
      if init.None? || e.Leaf? then None
      else Some(Update(init.value, Remove(e.fields, "sensor")))
  }

  /** An independent reading of last-write-wins: the value of `k` in the
      last sensor that has it, or the seed's when none has. */
  function LastValue(body: Snapshot, k: string, seed: Dict<Scalar>): Option<Scalar>
    decreases |body|
  {
    if body == [] then Get(seed, k)
    else
      var e := body[|body| - 1].1;
      if e.Group? && k != "sensor" && k in Keys(e.fields) then Get(e.fields, k)
      else LastValue(body[..|body| - 1], k, seed)
  }

  /** A field of the row: `csv` writes None and a missing column as empty. */
  function Field(v: Option<Scalar>): string {
    match v
    case None => ""
    case Some(Null) => ""
    case Some(x) => Render(x)
  }

  /** Every key of the row dictionary is a column (`writerow` raises otherwise). */
  predicate InSchema(f: Dict<Scalar>) {
    forall i :: 0 <= i < |f| ==> f[i].0 in Columns
  }

  /** `writerow` of a row dictionary: its value for each column in order. */
  function Fields(f: Dict<Scalar>): (r: seq<string>)
    ensures |r| == |Columns|
  {
    seq(|Columns|, i requires 0 <= i < |Columns| => Field(Get(f, Columns[i])))
  }

  /** The row `addRow` appends for a snapshot, if any. */
  function RowOf(s: Snapshot, timestamp: int): Option<seq<string>> {
    var f := Flatten(Stripped(s), Seed(timestamp));
    if f.None? || !InSchema(f.value) then None else Some(Fields(f.value))
  }

  /** Every sensor dictionary of a snapshot has distinct keys, as a Python
      dict does. */
  predicate GroupsWellFormed(s: Snapshot) {
    forall p :: p in s && p.1.Group? ==> WellFormed(p.1.fields)
  }

  lemma {:induction false} FlattenWellFormed(body: Snapshot, seed: Dict<Scalar>)
    requires WellFormed(seed) && Flatten(body, seed).Some?
    ensures WellFormed(Flatten(body, seed).value)
    decreases |body|
  {
    if body != [] {
      FlattenWellFormed(body[..|body| - 1], seed);
      UpdateWellFormed(Flatten(body[..|body| - 1], seed).value, Remove(body[|body| - 1].1.fields, "sensor"));
    }
  }

  /** Last-write-wins: the row dictionary holds, for each key, the value of
      the last sensor that has it. */
  lemma {:induction false} FlattenGet(body: Snapshot, seed: Dict<Scalar>, k: string)
    requires GroupsWellFormed(body) && Flatten(body, seed).Some?
    ensures Get(Flatten(body, seed).value, k) == LastValue(body, k, seed)
    decreases |body|
  {
    if body != [] {
      var init := body[..|body| - 1];
      assert body[|body| - 1] in body;
      assert forall p :: p in init ==> p in body;
      var e := body[|body| - 1].1;
      var m := Remove(e.fields, "sensor");
      FlattenGet(init, seed, k);
      RemoveWellFormed(e.fields, "sensor");
      UpdateGet(Flatten(init, seed).value, m, k);
    }
  }

  /** The row dictionary fails exactly when some top-level value is not a
      dictionary. */
  lemma {:induction false} FlattenFails(body: Snapshot, seed: Dict<Scalar>)
    ensures Flatten(body, seed).None? <==> exists i :: 0 <= i < |body| && body[i].1.Leaf?
    decreases |body|
  {
    if body != [] {
      var init := body[..|body| - 1];
      FlattenFails(init, seed);
      if Flatten(init, seed).None? {
        var i :| 0 <= i < |init| && init[i].1.Leaf?;
        assert body[i] == init[i];
      }
      if exists i :: 0 <= i < |body| && body[i].1.Leaf? {
        var i :| 0 <= i < |body| && body[i].1.Leaf?;
        if i < |init| { assert init[i] == body[i]; }
      }
    }
  }

  /** The `i`-th sensor reports metric `k`. */
  predicate Reports(body: Snapshot, i: int, k: string) {
    0 <= i < |body| && k != "sensor" && body[i].1.Group? && k in Keys(body[i].1.fields)
  }

  lemma ReportsInit(body: Snapshot, i: int, k: string)
    requires body != [] && i < |body| - 1
    ensures Reports(body[..|body| - 1], i, k) == Reports(body, i, k)
  {
    if 0 <= i { assert body[..|body| - 1][i] == body[i]; }
  }

  /** A sensor of the whole body reports `k` when one of the earlier ones
      does or the last one does. */
  lemma ReportsSnoc(body: Snapshot, init: Snapshot, k: string)
    requires body != [] && init == body[..|body| - 1]
    ensures (exists i :: Reports(body, i, k)) <==> (exists i :: Reports(init, i, k)) || Reports(body, |init|, k)
  {
    if exists i :: Reports(init, i, k) {
      var i :| Reports(init, i, k);
      ReportsInit(body, i, k);
    }
    if exists i :: Reports(body, i, k) {
      var i :| Reports(body, i, k);
      if i < |init| { ReportsInit(body, i, k); }
    }
  }

  /** The keys of the row dictionary: the seed's and every sensor's
      metrics, never a `sensor` tag unless the seed has one. */
  lemma {:induction false} FlattenKeys(body: Snapshot, seed: Dict<Scalar>, k: string)
    requires Flatten(body, seed).Some?
    ensures k in Keys(Flatten(body, seed).value) <==> k in Keys(seed) || exists i :: Reports(body, i, k)
    decreases |body|
  {
    if body != [] {
      var n := |body| - 1;
      var init := body[..n];
      var e := body[n].1;
      FlattenKeys(init, seed, k);
      var f := Flatten(init, seed).value;
      assert k in Keys(Flatten(body, seed).value) <==> k in Keys(f) || Reports(body, n, k) by {
        UpdateKeys(f, Remove(e.fields, "sensor"));
        RemoveKeys(e.fields, "sensor");
      }
      ReportsSnoc(body, init, k);
    }
  }

  /** A prefix that fails makes the whole loop fail. */
  lemma {:induction false} FlattenPrefixFails(body: Snapshot, seed: Dict<Scalar>, i: nat)
    requires i <= |body| && Flatten(body[..i], seed).None?
    ensures Flatten(body, seed).None?
    decreases |body| - i
  {
    if i < |body| {
      assert body[..i + 1][..i] == body[..i];
      FlattenPrefixFails(body, seed, i + 1);
    } else {
      assert body[..i] == body;
    }
  }

  // ---------------------------------------------------------------------
  // The writer

  class CsvWriter {
    const hardwareId: Scalar
    const friendlyName: string
    const csvFilename: string
    const csvColumns: seq<string> := Columns
    /** The file's rows, header first. */
    var rows: seq<seq<string>>

    /** Name the file after the friendly name, the hardware id and the
        start time, and write the header row. */
    constructor (friendlyName: string, hwid: Scalar, now: DateTime)
      ensures this.friendlyName == friendlyName && hardwareId == hwid
      ensures csvFilename == CsvFilename(friendlyName, hwid, now)
      ensures rows == [Columns]
    {
      this.friendlyName := friendlyName;
      hardwareId := hwid;
      csvFilename := "/aq/data/" + friendlyName + "_" + Render(hwid) + "_" + Stamp(now) + ".csv";
      rows := [csvColumns];
    }

    /** `addRow(sensorData)`: append the snapshot's row, or nothing when it
        cannot be built; `timestamp` is the whole seconds of the clock. */
    method AddRow(sensorData: Snapshot, timestamp: int)
      modifies this
      ensures rows == old(rows) + (if RowOf(sensorData, timestamp).Some? then [RowOf(sensorData, timestamp).value] else [])
    {
      var data := Remove(sensorData, "geohash");
      data := Remove(data, "hardwareId");
      assert data == Stripped(sensorData);
      var row := Seed(timestamp);
      var i := 0;
      while i < |data|
        invariant 0 <= i <= |data|
        invariant Flatten(data[..i], Seed(timestamp)) == Some(row)
      {
        assert data[..i + 1][..i] == data[..i];
        if data[i].1.Leaf? {
          FlattenPrefixFails(data, Seed(timestamp), i + 1);
          return;
        }
        row := Update(row, Remove(data[i].1.fields, "sensor"));
        i := i + 1;
      }
      assert data[..i] == data;
      if exists j :: 0 <= j < |row| && row[j].0 !in csvColumns {
        return;
      }
      rows := rows + [seq(|csvColumns|, j requires 0 <= j < |csvColumns| => Field(Get(row, csvColumns[j])))];
    }
  }

  // ---------------------------------------------------------------------
  // Properties of a row

  /** A row, when there is one, has a field per column, each the column's
      value under last-write-wins, and the `timestamp` column holds the
      clock unless a sensor reports a `timestamp` metric. */
  lemma RowFields(s: Snapshot, timestamp: int)
    requires GroupsWellFormed(s) && RowOf(s, timestamp).Some?
    ensures var r := RowOf(s, timestamp).value;
      && |r| == |Columns|
      && (forall i :: 0 <= i < |Columns| ==> r[i] == Field(LastValue(Stripped(s), Columns[i], Seed(timestamp))))
  {
    var body := Stripped(s);
    RemoveElements(s, "geohash");
    RemoveElements(Remove(s, "geohash"), "hardwareId");
    assert GroupsWellFormed(body);
    forall i | 0 <= i < |Columns| {
      FlattenGet(body, Seed(timestamp), Columns[i]);
    }
  }

  /** A sensor reports a metric outside the schema. */
  predicate Unknown(body: Snapshot, i: int, k: string) {
    Reports(body, i, k) && k !in Columns
  }

  /** No row is appended when some top-level value other than `geohash`
      and `hardwareId` is not a dictionary (`pop` raises) ... */
  lemma RowAbsentLeaf(s: Snapshot, timestamp: int)
    ensures (exists i :: 0 <= i < |Stripped(s)| && Stripped(s)[i].1.Leaf?) ==> RowOf(s, timestamp).None?
  {
    FlattenFails(Stripped(s), Seed(timestamp));
  }

  /** ... or when a sensor reports a metric outside the nine columns
      (`writerow` raises) ... */
  lemma RowAbsentUnknown(s: Snapshot, timestamp: int, i: int, k: string)
    requires Unknown(Stripped(s), i, k)
    ensures RowOf(s, timestamp).None?
  {
    var body := Stripped(s);
    var f := Flatten(body, Seed(timestamp));
    if f.Some? {
      FlattenKeys(body, Seed(timestamp), k);
      var j :| 0 <= j < |f.value| && f.value[j].0 == k;
    }
  }

  /** ... and in no other case. */
  lemma RowPresent(s: Snapshot, timestamp: int)
    requires RowOf(s, timestamp).None?
    requires forall i :: 0 <= i < |Stripped(s)| ==> Stripped(s)[i].1.Group?
    ensures exists i, k :: Unknown(Stripped(s), i, k)
  {
    var body := Stripped(s);
    FlattenFails(body, Seed(timestamp));
    var f := Flatten(body, Seed(timestamp)).value;
    var j :| 0 <= j < |f| && f[j].0 !in Columns;
    var k := f[j].0;
    assert k in Keys(f);
    FlattenKeys(body, Seed(timestamp), k);
    var i :| Reports(body, i, k);
    assert Unknown(body, i, k);
  }

  /** The row does not depend on `geohash` or `hardwareId`. */
  lemma RowIgnoresLabels(s: Snapshot, timestamp: int, k: string, v: Entry)
    requires k == "geohash" || k == "hardwareId"
    ensures RowOf(Set(s, k, v), timestamp) == RowOf(s, timestamp)
  {
    StrippedSet(s, k, v);
  }

  /** The row dictionary of the single-sensor example. */
  lemma ExampleFlatten(timestamp: int)
    ensures Flatten(Stripped([("THV", Group([("sensor", Str("THV")), ("temperature", Num("21.0"))]))]), Seed(timestamp))
         == Some([("timestamp", Num(IntToString(timestamp))), ("temperature", Num("21.0"))])
  {
    var g: Dict<Scalar> := [("sensor", Str("THV")), ("temperature", Num("21.0"))];
    var s: Snapshot := [("THV", Group(g))];
    assert Remove(s, "geohash") == s;
    assert Remove(s, "hardwareId") == s;
    assert Remove(g, "sensor") == [("temperature", Num("21.0"))];
    var seed := Seed(timestamp);
    var t: Dict<Scalar> := [("temperature", Num("21.0"))];
    assert Update(seed, t) == Update(Set(seed, "temperature", Num("21.0")), []);
    assert "temperature" !in Keys(seed);
    SetNew(seed, "temperature", Num("21.0"));
    assert s[..0] == [];
    assert Stripped(s) == s;
    assert t[1..] == [];
    assert Update(seed, t) == seed + t;
    assert Flatten(s, seed) == Some(seed + t);
    assert seed + t == [("timestamp", Num(IntToString(timestamp))), ("temperature", Num("21.0"))];
  }

  /** The fields of the example's row dictionary. */
  lemma ExampleFields(timestamp: int)
    ensures var f: Dict<Scalar> := [("timestamp", Num(IntToString(timestamp))), ("temperature", Num("21.0"))];
      && InSchema(f)
      && Fields(f) == [IntToString(timestamp), "21.0", "", "", "", "", "", "", ""]
  {
    var f: Dict<Scalar> := [("timestamp", Num(IntToString(timestamp))), ("temperature", Num("21.0"))];
    assert Keys(f) == ["timestamp", "temperature"];
    var row := Fields(f);
    forall i | 2 <= i < |Columns| ensures row[i] == "" {
      assert Columns[i] !in Keys(f);
    }
    assert f[1..] == [("temperature", Num("21.0"))];
    assert Get(f, "temperature") == Some(Num("21.0"));
    assert row[0] == IntToString(timestamp) && row[1] == "21.0";
    assert row == [IntToString(timestamp), "21.0", "", "", "", "", "", "", ""];
  }

  /** `{temperature: 21.0}` fills only `timestamp` and `temperature`. */
  lemma RowExample(timestamp: int)
    ensures RowOf([("THV", Group([("sensor", Str("THV")), ("temperature", Num("21.0"))]))], timestamp)
         == Some([IntToString(timestamp), "21.0", "", "", "", "", "", "", ""])
  {
    ExampleFlatten(timestamp);
    ExampleFields(timestamp);
  }
}
