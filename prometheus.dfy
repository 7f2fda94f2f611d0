/**
  The remote-write encoder and transport of firmware/PrometheusWriter.py.

  `writeData` strips `geohash` and `hardwareId` from a copy of the
  snapshot, turns every remaining (sensor, metric) pair into one time
  series with eight labels and one sample, rebuilds the endpoint URL with
  the credentials as userinfo, posts, and records the outcome in the
  shared remote-write timestamps. Protocol-buffer serialisation and snappy
  compression are left abstract: the model stops at the WriteRequest value.

  Label values go into protocol-buffer string fields and sample values
  into a double field; assigning anything else (None, a number to a string
  field, a string to the double) raises TypeError, which the outer
  `except` of `writeData` catches, so nothing is posted.
 */
module Prometheus {
  import opened Values
  import Url
  import Store

  // ---------------------------------------------------------------------
  // The write request

  datatype Label = Label(name: string, value: string)
  datatype Sample = Sample(value: string, timestamp: int)
  datatype TimeSeries = TimeSeries(labels: seq<Label>, samples: seq<Sample>)
  datatype WriteRequest = WriteRequest(timeseries: seq<TimeSeries>)

  /** The label names every series carries, in the order they are added. */
  const LabelOrder: seq<string> :=
    ["__name__", "geohash", "friendlyname", "hwid", "sensor", "location", "project", "tag"]

  /** One (sensor, metric) pair of the stripped snapshot: the sensor's
      popped `sensor` tag, the metric key and its value. */
  datatype Reading = Reading(sensorType: Option<Scalar>, metric: string, value: Scalar)

  /** What the labels of every series are made of besides the reading:
      the popped `geohash`, the writer's friendly name and hardware id, and
      the optional additional labels. */
  datatype BaseLabels = BaseLabels(geohash: Option<Entry>, friendlyName: Setting, hwid: Scalar,
                                   location: Option<Scalar>, project: Option<Scalar>, tag: Option<Scalar>)

  /** `metric.replace('.', '_')`. */
  function Sanitize(m: string): (r: string)
    ensures |r| == |m|
    ensures forall k :: 0 <= k < |m| ==> r[k] == (if m[k] == '.' then '_' else m[k])
  {
    if m == [] then [] else [if m[0] == '.' then '_' else m[0]] + Sanitize(m[1..])
  }

  /** `calendar.timegm(dt.utctimetuple())` for a UTC instant given in
      microseconds since the epoch: whole seconds, rounded down. */
  function Dt2Ts(utcMicros: int): (secs: int)
    ensures secs * 1000000 <= utcMicros < (secs + 1) * 1000000
  {
    utcMicros / 1000000
  }

  /** A sample's timestamp: whole UTC seconds times 1000. */
  function SampleTime(utcMicros: int): (ms: int)
    ensures ms % 1000 == 0
    ensures ms <= utcMicros / 1000 < ms + 1000
  {
    Dt2Ts(utcMicros) * 1000
  }

  /** The text a protocol-buffer string field accepts. */
  function ProtoText(x: Option<Scalar>): Option<string> {
    match x
    case Some(Str(s)) => Some(s)
    case _ => None
  }

  function GeohashText(g: Option<Entry>): Option<string> {
    match g
    case Some(Leaf(Str(s))) => Some(s)
    case _ => None
  }

  /** An additional label: configured text, or the field's default `""`
      when it was not configured (the label is added before the attribute
      read that fails, and that AttributeError is swallowed). */
  function ExtraText(x: Option<Scalar>): Option<string> {
    match x
    case None => Some("")
    case Some(Str(s)) => Some(s)
    case Some(_) => None
  }

  /** Every label and the sample of a reading's series can be assigned. */
  predicate ReadingOk(r: Reading, b: BaseLabels) {
    && GeohashText(b.geohash).Some? && b.friendlyName.Text? && b.hwid.Str?
    && ProtoText(r.sensorType).Some?
    && ExtraText(b.location).Some? && ExtraText(b.project).Some? && ExtraText(b.tag).Some?
    && r.value.Num?
  }

  /** The shape every encoded series has: the eight labels in their fixed
      order, a `__name__` free of dots, and exactly one sample, stamped on
      a whole second. */
  predicate WellShaped(s: TimeSeries) {
    && |s.labels| == |LabelOrder|
    && (forall j :: 0 <= j < |LabelOrder| ==> s.labels[j].name == LabelOrder[j])
    && '.' !in s.labels[0].value
    && |s.samples| == 1
    && s.samples[0].timestamp % 1000 == 0
  }

  function SeriesOf(r: Reading, b: BaseLabels, ts: int): (s: TimeSeries)
    requires ReadingOk(r, b)
  {
    TimeSeries(
      [ Label("__name__", Sanitize(r.metric)),
        Label("geohash", GeohashText(b.geohash).value),
        Label("friendlyname", b.friendlyName.t),
        Label("hwid", b.hwid.s),
        Label("sensor", ProtoText(r.sensorType).value),
        Label("location", ExtraText(b.location).value),
        Label("project", ExtraText(b.project).value),
        Label("tag", ExtraText(b.tag).value) ],
      [Sample(r.value.text, ts)])
  }

  lemma SeriesShape(r: Reading, b: BaseLabels, ts: int)
    requires ReadingOk(r, b) && ts % 1000 == 0
    ensures WellShaped(SeriesOf(r, b, ts))
  {
    var n := SeriesOf(r, b, ts).labels[0].value;
    assert forall k :: 0 <= k < |n| ==> n[k] != '.';
  }

  /** The readings of one top-level entry: a sensor's metrics after its
      `sensor` tag is popped, in dictionary order. */
  function SensorReadings(e: Entry): (rs: seq<Reading>)
    ensures e.Group? ==> |rs| == |Remove(e.fields, "sensor")|
  {
    match e
    case Leaf(_) => []
    case Group(sd) =>
      var ms := Remove(sd, "sensor");
      seq(|ms|, k requires 0 <= k < |ms| => Reading(Get(sd, "sensor"), ms[k].0, ms[k].1))
  }

  /** All (sensor, metric) pairs of the stripped snapshot, in iteration order. */
  function Readings(s: Snapshot): seq<Reading> {
    if s == [] then [] else Readings(s[..|s| - 1]) + SensorReadings(s[|s| - 1].1)
  }

  /** Every remaining top-level entry is a sensor dictionary (`sd.pop` on
      anything else raises AttributeError). */
  predicate AllGroups(s: Snapshot) {
    forall i :: 0 <= i < |s| ==> s[i].1.Group?
  }

  /** The number of metrics left after each sensor's `sensor` tag is popped. */
  function MetricCount(s: Snapshot): nat {
    if s == [] then 0
    else (match s[0].1 case Group(sd) => |Remove(sd, "sensor")| case Leaf(_) => 0) + MetricCount(s[1..])
  }

  lemma {:induction false} MetricCountSnoc(s: Snapshot)
    requires s != []
    ensures MetricCount(s) == MetricCount(s[..|s| - 1]) + |SensorReadings(s[|s| - 1].1)|
  {
    if |s| > 1 {
      MetricCountSnoc(s[1..]);
      assert s[1..][..|s[1..]| - 1] == s[..|s| - 1][1..];
    }
  }

  lemma {:induction false} ReadingsCount(s: Snapshot)
    ensures |Readings(s)| == MetricCount(s)
  {
    if s != [] {
      ReadingsCount(s[..|s| - 1]);
      MetricCountSnoc(s);
    }
  }

  /** `Readings` of a prefix one entry longer. */
  lemma ReadingsSnoc(s: Snapshot, i: nat)
    requires i < |s|
    ensures Readings(s[..i + 1]) == Readings(s[..i]) + SensorReadings(s[i].1)
  {
    assert s[..i + 1][..i] == s[..i];
  }

  /** The readings of a prefix of the snapshot come first, in order. */
  lemma {:induction false} ReadingsPrefix(s: Snapshot, i: nat)
    requires i <= |s|
    ensures Readings(s[..i]) <= Readings(s)
    decreases |s| - i
  {
    if i < |s| {
      ReadingsSnoc(s, i);
      ReadingsPrefix(s, i + 1);
    } else {
      assert s[..i] == s;
    }
  }

  predicate AllOk(rs: seq<Reading>, b: BaseLabels) {
    forall k :: 0 <= k < |rs| ==> ReadingOk(rs[k], b)
  }

  /** One series per reading, the k-th stamped from the k-th clock read. */
  function SeriesList(rs: seq<Reading>, b: BaseLabels, clock: nat -> int): (ts: seq<TimeSeries>)
    requires AllOk(rs, b)
    ensures |ts| == |rs|
  {
    seq(|rs|, k requires 0 <= k < |rs| => SeriesOf(rs[k], b, SampleTime(clock(k))))
  }

  lemma SeriesListSnoc(rs: seq<Reading>, r: Reading, b: BaseLabels, clock: nat -> int)
    requires AllOk(rs, b) && ReadingOk(r, b)
    ensures AllOk(rs + [r], b)
    ensures SeriesList(rs + [r], b, clock) == SeriesList(rs, b, clock) + [SeriesOf(r, b, SampleTime(clock(|rs|)))]
  {
    var xs := rs + [r];
    assert AllOk(xs, b) by {
      forall k | 0 <= k < |xs| ensures ReadingOk(xs[k], b) {
        if k < |rs| { assert xs[k] == rs[k]; }
      }
    }
    var l := SeriesList(xs, b, clock);
    var m := SeriesList(rs, b, clock) + [SeriesOf(r, b, SampleTime(clock(|rs|)))];
    forall k | 0 <= k < |l| ensures l[k] == m[k] {
      if k < |rs| { assert xs[k] == rs[k]; }
    }
  }

  /** Encoding of a stripped snapshot: one series per reading, the k-th
      sample timestamped from the k-th clock read; None when some entry is
      not a sensor dictionary (`sd.pop` raises AttributeError) or some label
      or value cannot be assigned (TypeError). */
  function Encode(s: Snapshot, b: BaseLabels, clock: nat -> int): (w: Option<WriteRequest>)
    ensures w.Some? ==> |w.value.timeseries| == |Readings(s)|
  {
    var rs := Readings(s);
    if AllGroups(s) && AllOk(rs, b) then Some(WriteRequest(SeriesList(rs, b, clock))) else None
  }

  /** One series per metric left after each sensor's `sensor` tag is
      popped, each with the eight labels in order, a dot-free `__name__`
      and one sample on a whole second. */
  lemma EncodeShape(s: Snapshot, b: BaseLabels, clock: nat -> int)
    requires Encode(s, b, clock).Some?
    ensures |Encode(s, b, clock).value.timeseries| == MetricCount(s)
    ensures forall k :: 0 <= k < |Encode(s, b, clock).value.timeseries| ==>
      WellShaped(Encode(s, b, clock).value.timeseries[k])
  {
    ReadingsCount(s);
    var ts := Encode(s, b, clock).value.timeseries;
    forall k | 0 <= k < |ts| ensures WellShaped(ts[k]) {
      SeriesShape(Readings(s)[k], b, SampleTime(clock(k)));
    }
  }

  /** The encoding fails exactly when some entry is not a sensor
      dictionary or some reading cannot be assigned. */
  lemma EncodeFails(s: Snapshot, b: BaseLabels, clock: nat -> int)
    ensures Encode(s, b, clock).None? <==>
      !AllGroups(s) || exists k :: 0 <= k < |Readings(s)| && !ReadingOk(Readings(s)[k], b)
  {
    ReadingsCount(s);
  }

  /** What a series carries. */
  lemma SeriesContent(r: Reading, b: BaseLabels, ts: int)
    requires ReadingOk(r, b)
    ensures var t := SeriesOf(r, b, ts);
      && |t.labels| == |LabelOrder|
      && t.labels[0].value == Sanitize(r.metric)
      && Some(t.labels[1].value) == GeohashText(b.geohash)
      && Text(t.labels[2].value) == b.friendlyName
      && Str(t.labels[3].value) == b.hwid
      && Some(Str(t.labels[4].value)) == r.sensorType
      && Some(t.labels[5].value) == ExtraText(b.location)
      && Some(t.labels[6].value) == ExtraText(b.project)
      && Some(t.labels[7].value) == ExtraText(b.tag)
      && t.samples == [Sample(r.value.text, ts)]
  {
  }

  /** What the k-th series of an encoding carries: the k-th reading's metric
      key with its dots replaced, its sensor type and value, the writer's
      labels, each extra label's configured text (empty when unconfigured), and the k-th
      clock read in whole seconds times 1000. */
  lemma EncodeSeries(s: Snapshot, b: BaseLabels, clock: nat -> int, k: nat)
    requires Encode(s, b, clock).Some? && k < |Encode(s, b, clock).value.timeseries|
    ensures var t := Encode(s, b, clock).value.timeseries[k];
      var r := Readings(s)[k];
      && |t.labels| == |LabelOrder|
      && t.labels[0].value == Sanitize(r.metric)
      && Some(t.labels[1].value) == GeohashText(b.geohash)
      && Text(t.labels[2].value) == b.friendlyName
      && Str(t.labels[3].value) == b.hwid
      && Some(Str(t.labels[4].value)) == r.sensorType
      && Some(t.labels[5].value) == ExtraText(b.location)
      && Some(t.labels[6].value) == ExtraText(b.project)
      && Some(t.labels[7].value) == ExtraText(b.tag)
      && t.samples == [Sample(r.value.text, SampleTime(clock(k)))]
  {
    ReadingsCount(s);
    assert Encode(s, b, clock).value.timeseries[k] == SeriesOf(Readings(s)[k], b, SampleTime(clock(k)));
    SeriesContent(Readings(s)[k], b, SampleTime(clock(k)));
  }

  /** `pm2.5`, one of the CSV columns, is exported as `pm2_5`. */
  lemma SanitizeExample()
    ensures Sanitize("pm2.5") == "pm2_5"
  {
    var r := Sanitize("pm2.5");
    assert r[3] == '_';
    assert r == ['p', 'm', '2', '_', '5'];
  }

  /** One more reading of the sensor being encoded. */
  lemma SensorStep(done: seq<Reading>, here: seq<Reading>, j: nat, b: BaseLabels, clock: nat -> int)
    requires j < |here| && AllOk(done + here[..j], b)
    ensures ReadingOk(here[j], b) ==>
      && AllOk(done + here[..j + 1], b)
      && SeriesList(done + here[..j + 1], b, clock)
         == SeriesList(done + here[..j], b, clock) + [SeriesOf(here[j], b, SampleTime(clock(|done| + j)))]
    ensures !ReadingOk(here[j], b) ==> !AllOk(done + here, b)
  {
    assert done + here[..j + 1] == (done + here[..j]) + [here[j]];
    if ReadingOk(here[j], b) {
      SeriesListSnoc(done + here[..j], here[j], b, clock);
    } else {
      assert (done + here)[|done| + j] == here[j];
    }
  }

  /** The inner loop of `writeData`: one series per metric of a sensor
      dictionary, appended after the series already built; `ok` is false
      when some label or the value of one of them cannot be assigned. */
  method AppendSensor(done: seq<Reading>, sd: Dict<Scalar>, b: BaseLabels, clock: nat -> int,
                      series: seq<TimeSeries>)
    returns (ok: bool, series': seq<TimeSeries>)
    requires AllOk(done, b) && series == SeriesList(done, b, clock)
    ensures ok <==> AllOk(done + SensorReadings(Group(sd)), b)
    ensures ok ==> series' == SeriesList(done + SensorReadings(Group(sd)), b, clock)
  {
    var sensorType := Get(sd, "sensor");
    var metrics := Remove(sd, "sensor");
    ghost var here := SensorReadings(Group(sd));
    assert done + here[..0] == done;
    series' := series;
    var j := 0;
    while j < |metrics|
      invariant 0 <= j <= |metrics| == |here|
      invariant AllOk(done + here[..j], b)
      invariant series' == SeriesList(done + here[..j], b, clock)
    {
      var r := Reading(sensorType, metrics[j].0, metrics[j].1);
      assert r == here[j];
      SensorStep(done, here, j, b, clock);
      if !ReadingOk(r, b) {
        return false, series';
      }
      series' := series' + [SeriesOf(r, b, SampleTime(clock(|series'|)))];
      j := j + 1;
    }
    assert here[..j] == here;
    return true, series';
  }

  /** A reading of a prefix that cannot be assigned makes the whole
      encoding fail; so does an entry that is not a sensor dictionary. */
  lemma PrefixFails(s: Snapshot, i: nat, b: BaseLabels, clock: nat -> int)
    requires i <= |s|
    requires !AllOk(Readings(s[..i]), b) || (i < |s| && s[i].1.Leaf?)
    ensures Encode(s, b, clock) == None
  {
    if !AllOk(Readings(s[..i]), b) {
      ReadingsPrefix(s, i);
      var k :| 0 <= k < |Readings(s[..i])| && !ReadingOk(Readings(s[..i])[k], b);
      assert Readings(s)[k] == Readings(s[..i])[k];
    }
  }

  lemma AllGroupsSnoc(s: Snapshot, i: nat)
    requires i < |s| && AllGroups(s[..i]) && s[i].1.Group?
    ensures AllGroups(s[..i + 1])
  {
    assert forall m :: 0 <= m < i ==> s[..i + 1][m] == s[..i][m];
  }

  /** One pass of the outer loop of `writeData`: the series of entry `i`;
      `ok` is false when the encoding fails there. */
  method AddEntry(s: Snapshot, i: nat, b: BaseLabels, clock: nat -> int, series: seq<TimeSeries>)
    returns (ok: bool, series': seq<TimeSeries>)
    requires i < |s| && AllGroups(s[..i]) && AllOk(Readings(s[..i]), b)
    requires series == SeriesList(Readings(s[..i]), b, clock)
    ensures !ok ==> Encode(s, b, clock) == None
    ensures ok ==> AllGroups(s[..i + 1]) && AllOk(Readings(s[..i + 1]), b)
    ensures ok ==> series' == SeriesList(Readings(s[..i + 1]), b, clock)
  {
    if s[i].1.Leaf? {
      PrefixFails(s, i, b, clock);
      return false, series;
    }
    ReadingsSnoc(s, i);
    ok, series' := AppendSensor(Readings(s[..i]), s[i].1.fields, b, clock, series);
    if !ok {
      PrefixFails(s, i + 1, b, clock);
      return;
    }
    AllGroupsSnoc(s, i);
  }

  /** The nested loops of `writeData` that fill the request, series by
      series and sample by sample. */
  method BuildRequest(s: Snapshot, b: BaseLabels, clock: nat -> int) returns (w: Option<WriteRequest>)
    ensures w == Encode(s, b, clock)
  {
    var series: seq<TimeSeries> := [];
    var i := 0;
    while i < |s|
      invariant 0 <= i <= |s|
      invariant AllGroups(s[..i]) && AllOk(Readings(s[..i]), b)
      invariant series == SeriesList(Readings(s[..i]), b, clock)
    {
      var ok;
      ok, series := AddEntry(s, i, b, clock, series);
      if !ok {
        return None;
      }
      i := i + 1;
    }
    assert s[..i] == s;
    return Some(WriteRequest(series));
  }

  // ---------------------------------------------------------------------
  // Posting and the remote-write timestamps

  /** How one call of `writeData` ended. */
  datatype WriteOutcome =
    | NoSensorData
    | FormatFailed
    | Posted(request: WriteRequest, url: string, result: PostResult)

  lemma StrippedEmpty(s: Snapshot)
    ensures Stripped(s) == [] ==> forall k :: k in Keys(s) ==> k == "geohash" || k == "hardwareId"
    ensures (forall k :: k in Keys(s) ==> k == "geohash" || k == "hardwareId") ==> Stripped(s) == []
  {
    var g := Remove(s, "geohash");
    RemoveKeys(s, "geohash");
    RemoveEmpty(g, "hardwareId");
    assert Stripped(s) == Remove(g, "hardwareId");
    if forall k :: k in Keys(s) ==> k == "geohash" || k == "hardwareId" {
      forall j | j in Keys(g) ensures j == "hardwareId" {
        assert j in Keys(s);
      }
      assert Remove(g, "hardwareId") == [];
    }
    if Stripped(s) == [] {
      forall k | k in Keys(s) ensures k == "geohash" || k == "hardwareId" {
        if k != "geohash" { assert k in Keys(g); }
      }
    }
  }

  /** A key other than `geohash` and `hardwareId` keeps its value at some
      position of the stripped snapshot. */
  lemma StrippedIndex(snapshot: Snapshot, k: string)
    requires k != "geohash" && k != "hardwareId" && k in Keys(snapshot)
    ensures exists i :: 0 <= i < |Stripped(snapshot)| && Some(Stripped(snapshot)[i].1) == Get(snapshot, k)
  {
    var rest := Stripped(snapshot);
    assert Get(rest, k) == Get(snapshot, k);
    GetIndex(rest, k);
  }

  /** A sensor with a metric contributes a reading carrying its `sensor` tag. */
  lemma GroupReading(s: Snapshot, i: nat)
    requires i < |s| && s[i].1.Group? && Remove(s[i].1.fields, "sensor") != []
    ensures exists j :: 0 <= j < |Readings(s)| && Readings(s)[j].sensorType == Get(s[i].1.fields, "sensor")
  {
    ReadingsSnoc(s, i);
    ReadingsPrefix(s, i + 1);
    var sr := SensorReadings(s[i].1);
    var j := |Readings(s[..i])|;
    assert Readings(s[..i + 1]) == Readings(s[..i]) + sr;
    assert Readings(s)[j] == sr[0];
  }

  /** The timestamp a call records: success for a 2xx response, failure
      for any other response, none when nothing was posted or the post
      raised. */
  function StampKey(o: WriteOutcome): Option<string> {
    match o
    case Posted(_, _, Status(c)) => Some(if IsSuccess(c) then "remoteWriteSuccess" else "remoteWriteFail")
    case _ => None
  }

  /** The shared timestamps after a call that finished at `now` seconds;
      an empty dictionary is falsy and is left alone. */
  function StatsAfter(ts: map<string, int>, o: WriteOutcome, now: int): map<string, int> {
    if |ts| > 0 && StampKey(o).Some? then ts[StampKey(o).value := now] else ts
  }

  /** Which timestamp a call records, case by case. */
  lemma StampKeyCases(o: WriteOutcome)
    ensures StampKey(o) == Some("remoteWriteSuccess") <==>
      o.Posted? && o.result.Status? && 200 <= o.result.code <= 299
    ensures StampKey(o) == Some("remoteWriteFail") <==>
      o.Posted? && o.result.Status? && !(200 <= o.result.code <= 299)
    ensures StampKey(o) == None <==> !o.Posted? || o.result.TransportError?
  {
  }

  /** A call sets at most its own timestamp to `now`, and only when the
      dictionary is non-empty; every other entry keeps its value. */
  lemma StatsOnlyStamp(ts: map<string, int>, o: WriteOutcome, now: int)
    ensures var r := StatsAfter(ts, o, now);
      && (forall k :: k in r <==> k in ts || (|ts| > 0 && StampKey(o) == Some(k)))
      && (forall k :: k in ts && !(|ts| > 0 && StampKey(o) == Some(k)) ==> r[k] == ts[k])
      && (|ts| > 0 && StampKey(o).Some? ==> r[StampKey(o).value] == now)
  {
  }

  /** The shared `remoteWriteTimestamps` dictionary. */
  class RemoteWriteStats {
    var timestamps: map<string, int>

    constructor (initial: map<string, int>)
      ensures timestamps == initial
    {
      timestamps := initial;
    }
  }

  class PrometheusWriter {
    const configDict: Dict<Setting>
    const hardwareId: Scalar
    const friendlyName: Setting
    const locationLabel: Option<Scalar>
    const projectLabel: Option<Scalar>
    const tagLabel: Option<Scalar>
    const remoteWriteTimestamps: RemoteWriteStats?

    /** `friendlyname` must be configured (the lookup raises KeyError
        otherwise); an extra label is kept only when its key is present. */
    constructor (configDict: Dict<Setting>, hwid: Scalar, additionalLabels: Dict<Scalar>,
                 remoteWriteTimestamps: RemoteWriteStats?)
      requires "friendlyname" in Keys(configDict)
      ensures this.configDict == configDict && hardwareId == hwid
      ensures Some(friendlyName) == Get(configDict, "friendlyname")
      ensures locationLabel == Get(additionalLabels, "location")
      ensures projectLabel == Get(additionalLabels, "project")
      ensures tagLabel == Get(additionalLabels, "tag")
      ensures this.remoteWriteTimestamps == remoteWriteTimestamps
    {
      this.configDict := configDict;
      hardwareId := hwid;
      friendlyName := Get(configDict, "friendlyname").value;
      this.remoteWriteTimestamps := remoteWriteTimestamps;
      locationLabel := Get(additionalLabels, "location");
      projectLabel := Get(additionalLabels, "project");
      tagLabel := Get(additionalLabels, "tag");
    }

    function Base(geohash: Option<Entry>): BaseLabels {
      BaseLabels(geohash, friendlyName, hardwareId, locationLabel, projectLabel, tagLabel)
    }

    /** The endpoint with `instance` and `key` as userinfo; None when one of
        the three settings is missing, the url is not text, or `urlparse`
        refuses it. */
    function Target(): Option<string> {
      var instance := Get(configDict, "instance");
      var key := Get(configDict, "key");
      var url := Get(configDict, "url");
      if instance.Some? && key.Some? && url.Some? && url.value.Text? && Url.CheckedParse(url.value.t).Some? then
        Some(Url.TargetUrl(url.value.t, FormatSetting(instance.value), FormatSetting(key.value)))
      else None
    }

    /** What `writeData` does with a snapshot, the clock reads and the
        transport's answer. */
    function Outcome(snapshot: Snapshot, clock: nat -> int, post: PostResult): WriteOutcome {
      var rest := Stripped(snapshot);
      if rest == [] then NoSensorData
      else
        var request := Encode(rest, Base(Get(snapshot, "geohash")), clock);
        if request.None? || Target().None? then FormatFailed
        else Posted(request.value, Target().value, post)
    }

    /** The body of the outer `try` of `writeData` up to the post: pops on
        a copy of the snapshot, the request, the endpoint. */
    method Prepare(snapshot: Snapshot, clock: nat -> int, post: PostResult) returns (outcome: WriteOutcome)
      ensures outcome == Outcome(snapshot, clock, post)
    {
      var sensorDataArray := snapshot;
      var location := Get(sensorDataArray, "geohash");
      sensorDataArray := Remove(sensorDataArray, "geohash");
      sensorDataArray := Remove(sensorDataArray, "hardwareId");
      assert sensorDataArray == Stripped(snapshot);
      if sensorDataArray == [] {
        return NoSensorData;
      }
      var request := BuildRequest(sensorDataArray, Base(location), clock);
      if request.None? {
        return FormatFailed;
      }
      var username := Get(configDict, "instance");
      var password := Get(configDict, "key");
      var baseUrl := Get(configDict, "url");
      if username.None? || password.None? || baseUrl.None? || !baseUrl.value.Text? {
        return FormatFailed;
      }
      var splitUrl := Url.CheckedParse(baseUrl.value.t);
      if splitUrl.None? {
        return FormatFailed;
      }
      var url := Url.TargetUrl(baseUrl.value.t, FormatSetting(username.value), FormatSetting(password.value));
      assert Target() == Some(url);
      return Posted(request.value, url, post);
    }

    /** The status check after the post: the verdict's timestamp is set to
        `int(datetime.now().timestamp())` when the dictionary is non-empty. */
    method Record(outcome: WriteOutcome, nowMicros: int)
      modifies remoteWriteTimestamps
      ensures remoteWriteTimestamps != null ==>
        remoteWriteTimestamps.timestamps
          == StatsAfter(old(remoteWriteTimestamps.timestamps), outcome, TruncDiv(nowMicros, 1000000))
    {
      if outcome.Posted? && outcome.result.Status? && remoteWriteTimestamps != null
         && |remoteWriteTimestamps.timestamps| > 0 {
        var now := TruncDiv(nowMicros, 1000000);
        if 200 <= outcome.result.code <= 299 {
          remoteWriteTimestamps.timestamps := remoteWriteTimestamps.timestamps["remoteWriteSuccess" := now];
        } else {
          remoteWriteTimestamps.timestamps := remoteWriteTimestamps.timestamps["remoteWriteFail" := now];
        }
      }
    }

    /** `writeData`: the store is only read, and the shared timestamps
        record the call's verdict. */
    method WriteData(store: Store.ReadingStore, clock: nat -> int, post: PostResult, nowMicros: int)
      returns (outcome: WriteOutcome)
      modifies remoteWriteTimestamps
      ensures outcome == Outcome(store.data, clock, post)
      ensures remoteWriteTimestamps != null ==>
        remoteWriteTimestamps.timestamps
          == StatsAfter(old(remoteWriteTimestamps.timestamps), outcome, TruncDiv(nowMicros, 1000000))
    {
      outcome := Prepare(store.data, clock, post);
      Record(outcome, nowMicros);
    }

    /** Nothing is built or posted exactly when the snapshot holds no key
        besides `geohash` and `hardwareId`. */
    lemma NothingToWrite(snapshot: Snapshot, clock: nat -> int, post: PostResult)
      ensures Outcome(snapshot, clock, post) == NoSensorData ==>
        forall k :: k in Keys(snapshot) ==> k == "geohash" || k == "hardwareId"
      ensures (forall k :: k in Keys(snapshot) ==> k == "geohash" || k == "hardwareId") ==>
        Outcome(snapshot, clock, post) == NoSensorData
    {
      assert Outcome(snapshot, clock, post) == NoSensorData <==> Stripped(snapshot) == [];
      StrippedEmpty(snapshot);
    }

    /** The `hardwareId` of the snapshot plays no part: the `hwid` label is
        the constructor's. */
    lemma SnapshotHwidIgnored(snapshot: Snapshot, v: Entry, clock: nat -> int, post: PostResult)
      ensures Outcome(Set(snapshot, "hardwareId", v), clock, post) == Outcome(snapshot, clock, post)
    {
      StrippedSet(snapshot, "hardwareId", v);
      assert Get(Set(snapshot, "hardwareId", v), "geohash") == Get(snapshot, "geohash");
    }

    /** A posted request: one series per metric left after the pops, each
        well shaped and labelled with the constructor's hardware id. */
    lemma PostedRequest(snapshot: Snapshot, clock: nat -> int, post: PostResult)
      requires Outcome(snapshot, clock, post).Posted?
      ensures var ts := Outcome(snapshot, clock, post).request.timeseries;
        && |ts| == MetricCount(Stripped(snapshot))
        && (forall k :: 0 <= k < |ts| ==> WellShaped(ts[k]) && Str(ts[k].labels[3].value) == hardwareId)
    {
      var rest := Stripped(snapshot);
      var b := Base(Get(snapshot, "geohash"));
      EncodeShape(rest, b, clock);
      var ts := Encode(rest, b, clock).value.timeseries;
      forall k | 0 <= k < |ts| ensures Str(ts[k].labels[3].value) == hardwareId {
        EncodeSeries(rest, b, clock, k);
      }
    }

    /** Reparsing the posted URL gives back the configured scheme, netloc
        and path, with `instance:key@` in front of the netloc and the query,
        parameters and fragment dropped, whenever the credentials hold none
        of `/?#` (the key is put in as it is, unescaped). */
    lemma PostedUrlRoundTrip(snapshot: Snapshot, clock: nat -> int, post: PostResult)
      requires Outcome(snapshot, clock, post).Posted?
      requires var u := Url.UrlParse(Get(configDict, "url").value.t);
        u.scheme != "" && (u.path == "" || u.path[0] == '/')
      requires Url.NoneOf(FormatSetting(Get(configDict, "instance").value), {'/', '?', '#'})
      requires Url.NoneOf(FormatSetting(Get(configDict, "key").value), {'/', '?', '#'})
      ensures var u := Url.UrlParse(Get(configDict, "url").value.t);
        Url.UrlParse(Outcome(snapshot, clock, post).url)
        == Url.Parsed(u.scheme, FormatSetting(Get(configDict, "instance").value) + ":"
                                + FormatSetting(Get(configDict, "key").value) + "@" + u.netloc,
                      u.path, "", "", "")
    {
      Url.TargetUrlRoundTrip(Get(configDict, "url").value.t, FormatSetting(Get(configDict, "instance").value),
                             FormatSetting(Get(configDict, "key").value));
    }

    /** With a metric to send, a `geohash` that is missing or not text makes
        the `geohash` label assignment raise TypeError: nothing is posted. */
    lemma GeohashNotTextFails(snapshot: Snapshot, clock: nat -> int, post: PostResult)
      requires MetricCount(Stripped(snapshot)) > 0
      requires var g := Get(snapshot, "geohash"); !(g.Some? && g.value.Leaf? && g.value.v.Str?)
      ensures Outcome(snapshot, clock, post) == FormatFailed
    {
      var rest := Stripped(snapshot);
      var b := Base(Get(snapshot, "geohash"));
      ReadingsCount(rest);
      EncodeFails(rest, b, clock);
      assert !ReadingOk(Readings(rest)[0], b);
    }

    /** A top-level value other than `geohash` and `hardwareId` that is not
        a dictionary has no `pop` (AttributeError): nothing is posted. */
    lemma NonDictFails(snapshot: Snapshot, clock: nat -> int, post: PostResult, k: string)
      requires k != "geohash" && k != "hardwareId"
      requires k in Keys(snapshot) && Get(snapshot, k).value.Leaf?
      ensures Outcome(snapshot, clock, post) == FormatFailed
    {
      StrippedIndex(snapshot, k);
      EncodeFails(Stripped(snapshot), Base(Get(snapshot, "geohash")), clock);
    }

    /** A sensor dictionary with a metric whose `sensor` tag is missing or
        not text makes the `sensor` label assignment raise TypeError:
        nothing is posted. */
    lemma SensorTagFails(snapshot: Snapshot, clock: nat -> int, post: PostResult, k: string)
      requires k != "geohash" && k != "hardwareId"
      requires k in Keys(snapshot) && Get(snapshot, k).value.Group?
      requires Remove(Get(snapshot, k).value.fields, "sensor") != []
      requires var t := Get(Get(snapshot, k).value.fields, "sensor"); !(t.Some? && t.value.Str?)
      ensures Outcome(snapshot, clock, post) == FormatFailed
    {
      var rest := Stripped(snapshot);
      var b := Base(Get(snapshot, "geohash"));
      StrippedIndex(snapshot, k);
      var i :| 0 <= i < |rest| && Some(rest[i].1) == Get(snapshot, k);
      GroupReading(rest, i);
      var j :| 0 <= j < |Readings(rest)| && Readings(rest)[j].sensorType == Get(rest[i].1.fields, "sensor");
      assert !ReadingOk(Readings(rest)[j], b);
      EncodeFails(rest, b, clock);
    }

    /** A url whose authority holds an unpaired square bracket makes
        `urlparse` raise ValueError: nothing is posted. */
    lemma UnparsableUrlFails(snapshot: Snapshot, clock: nat -> int, post: PostResult)
      requires Stripped(snapshot) != []
      requires Get(configDict, "url").Some? && Get(configDict, "url").value.Text?
      requires !Url.BracketsBalanced(Url.UrlParse(Get(configDict, "url").value.t).netloc)
      ensures Outcome(snapshot, clock, post) == FormatFailed
    {
    }
  }
}
