/**
  The offline buffer and batch uploader of firmware/LokiHandler.py.

  The buffer is one directory of `<timestamp>.json` files, each holding a
  snapshot as a JSON object. `UploadLogFiles` walks the directory in the
  order the operating system lists it, turns every regular file into one
  push-API payload (one stream, one `[ts, line]` value), posts it, and
  deletes the file only when the post got a 2xx response. JSON text is left
  abstract: a file holds either the object it was written from or something
  that is not a JSON object.
 */
module Loki {
  import opened Values
  import Url

  // ---------------------------------------------------------------------
  // The directory and the payloads

  /** A directory entry: a sub-directory, or a regular file whose content
      parses to a JSON object (Some) or does not (None). */
  datatype Node = Dir | File(record: Option<Snapshot>)

  /** One stream of a push payload: its label set and its `[ts, line]` values. */
  datatype Stream = Stream(labels: Dict<Entry>, values: seq<(string, string)>)

  /** One post: the endpoint and the payload's streams. */
  datatype Push = Push(url: string, streams: seq<Stream>)

  /** The names of the regular files of a directory. */
  function FileNames(dir: map<string, Node>): set<string> {
    set n | n in dir && dir[n].File?
  }

  /** The regular files among some listed names. */
  function FilesIn(dir: map<string, Node>, names: seq<string>): set<string> {
    set n | n in names && n in dir && dir[n].File?
  }

  /** `order` is a listing of the whole directory: every entry exactly once. */
  predicate Listing(dir: map<string, Node>, order: seq<string>) {
    && Distinct(order)
    && (forall k :: 0 <= k < |order| ==> order[k] in dir)
    && (forall n :: n in dir ==> n in order)
  }

  lemma FilesInSnoc(dir: map<string, Node>, names: seq<string>, i: nat)
    requires i < |names| && Distinct(names)
    ensures names[i] !in names[..i]
    ensures names[i] !in FilesIn(dir, names[..i])
    ensures FilesIn(dir, names[..i + 1])
      == FilesIn(dir, names[..i]) + (if names[i] in dir && dir[names[i]].File? then {names[i]} else {})
  {
    assert names[..i + 1] == names[..i] + [names[i]];
  }

  lemma ListingFiles(dir: map<string, Node>, order: seq<string>)
    requires Listing(dir, order)
    ensures FilesIn(dir, order) == FileNames(dir)
  {
  }

  // ---------------------------------------------------------------------
  // File names

  /** The characters `strip('.json')` removes: a set, not a suffix. */
  const JsonChars: set<char> := {'.', 'j', 's', 'o', 'n'}

  function StripLeft(s: string, cs: set<char>): (r: string)
    ensures |r| <= |s| && r == s[|s| - |r|..]
    ensures r == [] || r[0] !in cs
  {
    if s != [] && s[0] in cs then StripLeft(s[1..], cs) else s
  }

  function StripRight(s: string, cs: set<char>): (r: string)
    ensures |r| <= |s| && r == s[..|r|]
    ensures r == [] || r[|r| - 1] !in cs
  {
    if s != [] && s[|s| - 1] in cs then StripRight(s[..|s| - 1], cs) else s
  }

  /** `str.strip(chars)`: leading, then trailing characters of the set removed. */
  function Strip(s: string, cs: set<char>): string {
    StripRight(StripLeft(s, cs), cs)
  }

  /** Characters of the set appended at the end are all stripped again. */
  lemma {:induction false} StripRightAppend(x: string, y: string, cs: set<char>)
    requires forall k :: 0 <= k < |y| ==> y[k] in cs
    ensures StripRight(x + y, cs) == StripRight(x, cs)
    decreases |y|
  {
    if y != [] {
      assert (x + y)[..|x + y| - 1] == x + y[..|y| - 1];
      StripRightAppend(x, y[..|y| - 1], cs);
    } else {
      assert x + y == x;
    }
  }

  /** The name `WriteLogFile` gives a record strips back to the timestamp's
      decimal text, for every integer timestamp. */
  lemma StripTimestamp(ts: int)
    ensures Strip(IntToString(ts) + ".json", JsonChars) == IntToString(ts)
  {
    var t := IntToString(ts);
    assert t[0] !in JsonChars;
    assert (t + ".json")[0] == t[0];
    StripRightAppend(t, ".json", JsonChars);
    assert t[|t| - 1] !in JsonChars;
  }

  /** `strip` works on characters, not on a suffix: a name made only of
      the characters of `.json` strips to nothing. */
  lemma {:induction false} StripAll(s: string, cs: set<char>)
    requires forall k :: 0 <= k < |s| ==> s[k] in cs
    ensures Strip(s, cs) == ""
  {
    if s != [] {
      StripAll(s[1..], cs);
    }
  }

  lemma StripExample()
    ensures Strip("son.json", JsonChars) == ""
  {
    StripAll("son.json", JsonChars);
  }

  // ---------------------------------------------------------------------
  // Rendering

  /** `repr()` of a scalar inside a dictionary. */
  function ReprScalar(x: Scalar): string {
    match x
    case Str(s) => "'" + s + "'"
    case Num(t) => t
    case Null => "None"
  }

  function ReprItems(d: Dict<Scalar>): string {
    if d == [] then ""
    else
      var item := "'" + d[0].0 + "': " + ReprScalar(d[0].1);
      if |d| == 1 then item else item + ", " + ReprItems(d[1..])
  }

  /** `"{}".format()` of a record value. */
  function RenderEntry(e: Entry): string {
    match e
    case Leaf(x) => Render(x)
    case Group(d) => "{" + ReprItems(d) + "}"
  }

  /** `"{}={} ".format(metric, value)`. */
  function Pair(k: string, v: Scalar): string {
    k + "=" + Render(v) + " "
  }

  /** The rendered metrics of one sensor, concatenated in order. */
  function SensorLine(ms: Dict<Scalar>): string {
    if ms == [] then "" else SensorLine(ms[..|ms| - 1]) + Pair(ms[|ms| - 1].0, ms[|ms| - 1].1)
  }

  /** The metric part of the log line; None when an entry is not a sensor
      dictionary (AttributeError) or has no `sensor` tag (KeyError). */
  function MetricLine(body: Snapshot): Option<string> {
    if body == [] then Some("") else Join(MetricLine(body[..|body| - 1]), EntryLine(body[|body| - 1].1))
  }

  /** Two pieces of a line, or a failure if either failed. */
  function Join(x: Option<string>, y: Option<string>): Option<string> {
    if x.Some? && y.Some? then Some(x.value + y.value) else None
  }

  lemma JoinAssoc(x: Option<string>, y: Option<string>, z: Option<string>)
    ensures Join(Join(x, y), z) == Join(x, Join(y, z))
  {
    if x.Some? && y.Some? && z.Some? {
      assert (x.value + y.value) + z.value == x.value + (y.value + z.value);
    }
  }

  /** The rendering of one remaining record entry. */
  function EntryLine(e: Entry): Option<string> {
    match e
    case Leaf(_) => None
    case Group(d) => if "sensor" in Keys(d) then Some(SensorLine(Remove(d, "sensor"))) else None
  }

  /** Metrics are rendered independently of each other, in order. */
  lemma {:induction false} SensorLineAppend(a: Dict<Scalar>, b: Dict<Scalar>)
    ensures SensorLine(a + b) == SensorLine(a) + SensorLine(b)
    decreases |b|
  {
    if b == [] {
      assert a + b == a;
    } else {
      var b' := b[..|b| - 1];
      var p := Pair(b[|b| - 1].0, b[|b| - 1].1);
      assert SensorLine(a + b) == SensorLine(a + b') + p by {
        assert (a + b)[..|a + b| - 1] == a + b';
        assert (a + b)[|a + b| - 1] == b[|b| - 1];
      }
      SensorLineAppend(a, b');
      assert SensorLine(b) == SensorLine(b') + p;
      Assoc(SensorLine(a), SensorLine(b'), p);
    }
  }

  lemma Assoc(x: string, y: string, z: string)
    ensures (x + y) + z == x + (y + z)
  {
  }

  /** One metric renders as `key=value ` with a trailing space. */
  lemma SensorLineSingle(k: string, v: Scalar)
    ensures SensorLine([(k, v)]) == k + "=" + Render(v) + " "
  {
    assert [(k, v)][..0] == [];
  }

  /** Sensor entries are rendered independently of each other, in order;
      a failing entry makes the whole line fail. */
  lemma {:induction false} MetricLineAppend(a: Snapshot, b: Snapshot)
    ensures MetricLine(a + b) == Join(MetricLine(a), MetricLine(b))
    decreases |b|
  {
    if b == [] {
      assert a + b == a;
      if MetricLine(a).Some? {
        assert MetricLine(a).value + "" == MetricLine(a).value;
      }
    } else {
      var b' := b[..|b| - 1];
      assert (a + b)[..|a + b| - 1] == a + b';
      assert (a + b)[|a + b| - 1] == b[|b| - 1];
      MetricLineAppend(a, b');
      JoinAssoc(MetricLine(a), MetricLine(b'), EntryLine(b[|b| - 1].1));
    }
  }

  /** A sensor entry with its `sensor` tag renders as its other metrics. */
  lemma MetricLineSingle(name: string, d: Dict<Scalar>)
    requires "sensor" in Keys(d)
    ensures MetricLine([(name, Group(d))]) == Some(SensorLine(Remove(d, "sensor")))
  {
    assert [(name, Group(d))][..0] == [];
    assert "" + SensorLine(Remove(d, "sensor")) == SensorLine(Remove(d, "sensor"));
  }

  lemma SensorLineSnoc(ms: Dict<Scalar>, j: nat)
    requires j < |ms|
    ensures SensorLine(ms[..j + 1]) == SensorLine(ms[..j]) + Pair(ms[j].0, ms[j].1)
  {
    assert ms[..j + 1][..j] == ms[..j];
  }

  lemma MetricLineSnoc(body: Snapshot, i: nat)
    requires i < |body|
    ensures MetricLine(body[..i + 1]) == Join(MetricLine(body[..i]), EntryLine(body[i].1))
  {
    assert body[..i + 1][..i] == body[..i];
  }

  /** The inner loop over one sensor's metrics: `datastring += "{}={} "`. */
  method AppendMetrics(datastring: string, metrics: Dict<Scalar>) returns (out: string)
    ensures out == datastring + SensorLine(metrics)
  {
    out := datastring;
    var j := 0;
    while j < |metrics|
      invariant 0 <= j <= |metrics|
      invariant out == datastring + SensorLine(metrics[..j])
    {
      SensorLineSnoc(metrics, j);
      ghost var before := out;
      out := out + Pair(metrics[j].0, metrics[j].1);
      assert out == datastring + (SensorLine(metrics[..j]) + Pair(metrics[j].0, metrics[j].1)) by {
        assert before == datastring + SensorLine(metrics[..j]);
      }
      j := j + 1;
    }
    assert metrics[..j] == metrics;
  }

  /** A failing prefix makes the whole line fail. */
  lemma MetricLinePrefixFails(body: Snapshot, i: nat)
    requires i <= |body| && MetricLine(body[..i]).None?
    ensures MetricLine(body).None?
  {
    MetricLineAppend(body[..i], body[i..]);
    assert body[..i] + body[i..] == body;
  }

  /** The outer loop of `UploadLogFiles` over the record's remaining entries. */
  method RenderLine(body: Snapshot) returns (line: Option<string>)
    ensures line == MetricLine(body)
  {
    var datastring := "";
    var i := 0;
    while i < |body|
      invariant 0 <= i <= |body|
      invariant MetricLine(body[..i]) == Some(datastring)
    {
      MetricLineSnoc(body, i);
      if body[i].1.Leaf? || "sensor" !in Keys(body[i].1.fields) {
        MetricLinePrefixFails(body, i + 1);
        return None;
      }
      datastring := AppendMetrics(datastring, Remove(body[i].1.fields, "sensor"));
      i := i + 1;
    }
    assert body[..i] == body;
    return Some(datastring);
  }

  // ---------------------------------------------------------------------
  // One record

  /** A stream label taken from the record when its key is present. */
  function LabelFrom(r: Snapshot, key: string, name: string): Dict<Entry> {
    if key in Keys(r) then [(name, Get(r, key).value)] else []
  }

  /** The stream's label set: `friendlyname`, `hardwareId` renamed `hwid`,
      `location` and `project`, each only when the record has it. */
  function StreamLabels(r: Snapshot): Dict<Entry> {
    LabelFrom(r, "friendlyname", "friendlyname") + LabelFrom(r, "hardwareId", "hwid")
      + LabelFrom(r, "location", "location") + LabelFrom(r, "project", "project")
  }

  /** What is left of a record once the labels and `geohash` are popped. */
  function Body(r: Snapshot): Snapshot {
    Remove(Remove(Remove(Remove(Remove(r, "friendlyname"), "hardwareId"), "location"), "project"), "geohash")
  }

  /** The stream labels are exactly the four label keys the record has,
      `hardwareId` appearing as `hwid`; nothing else is added. */
  lemma StreamLabelsGet(r: Snapshot, name: string)
    ensures Get(StreamLabels(r), name) ==
      if name == "friendlyname" then Get(r, "friendlyname")
      else if name == "hwid" then Get(r, "hardwareId")
      else if name == "location" then Get(r, "location")
      else if name == "project" then Get(r, "project")
      else None
  {
    var a := LabelFrom(r, "friendlyname", "friendlyname");
    var b := LabelFrom(r, "hardwareId", "hwid");
    var c := LabelFrom(r, "location", "location");
    var d := LabelFrom(r, "project", "project");
    GetAppend(a + b + c, d, name);
    GetAppend(a + b, c, name);
    GetAppend(a, b, name);
  }

  lemma {:induction false} GetAppend<V>(x: Dict<V>, y: Dict<V>, k: string)
    ensures Get(x + y, k) == if k in Keys(x) then Get(x, k) else Get(y, k)
  {
    if x != [] {
      assert (x + y)[1..] == x[1..] + y;
      assert Keys(x) == [x[0].0] + Keys(x[1..]);
      GetAppend(x[1..], y, k);
    } else {
      assert x + y == y;
    }
  }

  lemma {:induction false} KeysAppend<V>(x: Dict<V>, y: Dict<V>)
    ensures Keys(x + y) == Keys(x) + Keys(y)
  {
    if x != [] {
      assert (x + y)[1..] == x[1..] + y;
      KeysAppend(x[1..], y);
    } else {
      assert x + y == y;
    }
  }

  /** Popping one key does not change the label taken from another. */
  lemma LabelFromRemove(r: Snapshot, j: string, key: string, name: string)
    requires j != key
    ensures LabelFrom(Remove(r, j), key, name) == LabelFrom(r, key, name)
  {
    RemoveKeys(r, j);
  }

  /** `if key in datapoint: stream[name] = datapoint.pop(key)`. */
  method PopLabel(labels: Dict<Entry>, datapoint: Snapshot, key: string, name: string)
    returns (labels': Dict<Entry>, datapoint': Snapshot)
    requires name !in Keys(labels)
    ensures labels' == labels + LabelFrom(datapoint, key, name)
    ensures datapoint' == Remove(datapoint, key)
  {
    if key in Keys(datapoint) {
      SetNew(labels, name, Get(datapoint, key).value);
      labels' := Set(labels, name, Get(datapoint, key).value);
      datapoint' := Remove(datapoint, key);
    } else {
      RemoveAbsent(datapoint, key);
      labels', datapoint' := labels, datapoint;
    }
  }

  /** The keys of one label: its name when the record has the key. */
  lemma LabelFromKeys(r: Snapshot, key: string, name: string)
    ensures Keys(LabelFrom(r, key, name)) == if key in Keys(r) then [name] else []
  {
  }

  /** Each label pop sees the key as the record had it, and adds a name
      not taken yet. */
  lemma PopOrder(record: Snapshot)
    ensures var r1 := Remove(record, "friendlyname");
      var r2 := Remove(r1, "hardwareId");
      var r3 := Remove(r2, "location");
      var a := LabelFrom(record, "friendlyname", "friendlyname");
      var b := LabelFrom(record, "hardwareId", "hwid");
      var c := LabelFrom(record, "location", "location");
      && LabelFrom(r1, "hardwareId", "hwid") == b
      && LabelFrom(r2, "location", "location") == c
      && LabelFrom(r3, "project", "project") == LabelFrom(record, "project", "project")
      && "hwid" !in Keys(a) && "location" !in Keys(a + b) && "project" !in Keys(a + b + c)
  {
    var r1 := Remove(record, "friendlyname");
    var r2 := Remove(r1, "hardwareId");
    LabelFromRemove(record, "friendlyname", "hardwareId", "hwid");
    LabelFromRemove(record, "friendlyname", "location", "location");
    LabelFromRemove(r1, "hardwareId", "location", "location");
    LabelFromRemove(record, "friendlyname", "project", "project");
    LabelFromRemove(r1, "hardwareId", "project", "project");
    LabelFromRemove(r2, "location", "project", "project");
    LabelNamesFresh(record);
  }

  lemma LabelNamesFresh(record: Snapshot)
    ensures var a := LabelFrom(record, "friendlyname", "friendlyname");
      var b := LabelFrom(record, "hardwareId", "hwid");
      var c := LabelFrom(record, "location", "location");
      "hwid" !in Keys(a) && "location" !in Keys(a + b) && "project" !in Keys(a + b + c)
  {
    var a := LabelFrom(record, "friendlyname", "friendlyname");
    var b := LabelFrom(record, "hardwareId", "hwid");
    var c := LabelFrom(record, "location", "location");
    LabelFromKeys(record, "friendlyname", "friendlyname");
    LabelFromKeys(record, "hardwareId", "hwid");
    LabelFromKeys(record, "location", "location");
    KeysAppend(a, b);
    KeysAppend(a + b, c);
  }

  /** The four label pops of `UploadLogFiles`. */
  method PopLabels(record: Snapshot) returns (labels: Dict<Entry>, datapoint: Snapshot)
    ensures labels == StreamLabels(record)
    ensures datapoint == Remove(Remove(Remove(Remove(record, "friendlyname"), "hardwareId"), "location"), "project")
  {
    PopOrder(record);
    ghost var a := LabelFrom(record, "friendlyname", "friendlyname");
    ghost var b := LabelFrom(record, "hardwareId", "hwid");
    ghost var c := LabelFrom(record, "location", "location");
    labels, datapoint := PopLabel([], record, "friendlyname", "friendlyname");
    assert labels == a;
    labels, datapoint := PopLabel(labels, datapoint, "hardwareId", "hwid");
    assert labels == a + b;
    labels, datapoint := PopLabel(labels, datapoint, "location", "location");
    assert labels == a + b + c;
    labels, datapoint := PopLabel(labels, datapoint, "project", "project");
  }

  /** The label pops of `UploadLogFiles` and the `geohash` pop. */
  method SplitRecord(record: Snapshot) returns (labels: Dict<Entry>, datapoint: Snapshot, geohash: Option<Entry>)
    ensures labels == StreamLabels(record) && datapoint == Body(record)
    ensures geohash == Get(record, "geohash")
  {
    labels, datapoint := PopLabels(record);
    assert Get(datapoint, "geohash") == Get(record, "geohash");
    geohash := None;
    if "geohash" in Keys(datapoint) {
      geohash := Get(datapoint, "geohash");
      datapoint := Remove(datapoint, "geohash");
    } else {
      RemoveAbsent(datapoint, "geohash");
    }
  }

  /** The log line of a record, given the `geohash` in force: the metric
      part, then `geohash=` and the value; None when the metric part fails
      or no `geohash` has been seen yet (UnboundLocalError). */
  function LogLine(record: Snapshot, geohash: Option<Entry>): Option<string> {
    var m := MetricLine(Body(record));
    if m.Some? && geohash.Some? then Some(m.value + "geohash=" + RenderEntry(geohash.value)) else None
  }

  /** The `geohash` in force after a record: its own, or the one carried
      over from the records before it. */
  function Carried(record: Snapshot, geohash: Option<Entry>): Option<Entry> {
    if "geohash" in Keys(record) then Get(record, "geohash") else geohash
  }

  /** The endpoint with the instance and the form-encoded key as userinfo. */
  function LokiUrl(url: string, instance: string, key: string): string {
    Url.TargetUrl(url, instance, Url.QuotePlus(key))
  }

  /** The payload of one record: one stream, one `[ts, line]` value. */
  function PushOf(name: string, record: Snapshot, line: string, endpoint: string): Push {
    Push(endpoint, [Stream(StreamLabels(record), [(Strip(name, JsonChars), line)])])
  }

  // ---------------------------------------------------------------------
  // The walk over the directory

  /** The loop-carried state of `UploadLogFiles`: the two counters, the
      `geohash` in force, the files deleted, the names posted and the
      payloads in post order, and whether an exception escaped. */
  datatype Progress = Progress(success: nat, fail: nat, geohash: Option<Entry>, removed: set<string>,
                               posted: seq<string>, pushes: seq<Push>, raised: bool)

  /** One directory entry. The k-th post gets `respond(k)`. */
  function Visit(p: Progress, name: string, node: Node, endpoint: string,
                 respond: nat -> PostResult): Progress
  {
    if p.raised || node.Dir? then p
    else if node.record.None? then p.(raised := true)
    else
      var record := node.record.value;
      var g := Carried(record, p.geohash);
      var line := LogLine(record, g);
      if line.None? then p.(raised := true)
      else Deliver(p.(geohash := g), name, PushOf(name, record, line.value, endpoint), respond(|p.pushes|))
  }

  /** The post of one payload and what its response does to the counters. */
  function Deliver(p: Progress, name: string, push: Push, r: PostResult): Progress {
    var q := p.(posted := p.posted + [name], pushes := p.pushes + [push]);
    match r
    case TransportError => q.(raised := true)
    case Status(c) =>
      if IsSuccess(c) then q.(success := p.success + 1, removed := p.removed + {name})
      else q.(fail := p.fail + 1)
  }

  /** The walk over the listed names, in listing order. */
  function Run(dir: map<string, Node>, names: seq<string>, endpoint: string,
               respond: nat -> PostResult): Progress
    requires forall k :: 0 <= k < |names| ==> names[k] in dir
  {
    if names == [] then Progress(0, 0, None, {}, [], [], false)
    else
      var last := names[|names| - 1];
      Visit(Run(dir, names[..|names| - 1], endpoint, respond), last, dir[last], endpoint, respond)
  }

  /** The walk over one more name is one more visit. */
  lemma RunSnoc(dir: map<string, Node>, names: seq<string>, i: nat, endpoint: string,
                respond: nat -> PostResult)
    requires i < |names| && forall k :: 0 <= k < |names| ==> names[k] in dir
    ensures Run(dir, names[..i + 1], endpoint, respond)
         == Visit(Run(dir, names[..i], endpoint, respond), names[i], dir[names[i]], endpoint, respond)
  {
    assert names[..i + 1][..i] == names[..i];
  }

  /** Once an exception escapes, the rest of the listing is not visited. */
  lemma {:induction false} RunRaisedStays(dir: map<string, Node>, names: seq<string>, i: nat, endpoint: string,
                                          respond: nat -> PostResult)
    requires i <= |names| && forall k :: 0 <= k < |names| ==> names[k] in dir
    requires Run(dir, names[..i], endpoint, respond).raised
    ensures Run(dir, names, endpoint, respond) == Run(dir, names[..i], endpoint, respond)
  {
    if i < |names| {
      var init := names[..|names| - 1];
      assert init[..i] == names[..i];
      RunRaisedStays(dir, init, i, endpoint, respond);
    } else {
      assert names[..i] == names;
    }
  }

  /** The posts so far: one name per payload, each payload one stream with
      one value, all to the same endpoint. */
  predicate Shaped(p: Progress, endpoint: string) {
    && |p.posted| == |p.pushes|
    && (forall k :: 0 <= k < |p.pushes| ==>
          && p.pushes[k].url == endpoint
          && |p.pushes[k].streams| == 1
          && |p.pushes[k].streams[0].values| == 1)
  }

  /** A visit posts either nothing or exactly the visited regular file. */
  lemma VisitShaped(p: Progress, name: string, node: Node, endpoint: string, respond: nat -> PostResult)
    requires Shaped(p, endpoint)
    ensures var q := Visit(p, name, node, endpoint, respond);
      && Shaped(q, endpoint)
      && (q.posted == p.posted || (node.File? && q.posted == p.posted + [name]))
  {
    if !p.raised && node.File? && node.record.Some? {
      var record := node.record.value;
      var g := Carried(record, p.geohash);
      var line := LogLine(record, g);
      if line.Some? {
        var push := PushOf(name, record, line.value, endpoint);
        ShapedSame(p, p.(geohash := g), endpoint);
        DeliverShaped(p.(geohash := g), name, push, respond(|p.pushes|), endpoint);
      }
    }
  }

  lemma ShapedSame(p: Progress, q: Progress, endpoint: string)
    requires Shaped(p, endpoint) && q.posted == p.posted && q.pushes == p.pushes
    ensures Shaped(q, endpoint)
  {
  }

  /** Delivering a single-value payload to the endpoint keeps the posts shaped. */
  lemma DeliverShaped(p: Progress, name: string, push: Push, r: PostResult, endpoint: string)
    requires Shaped(p, endpoint)
    requires push.url == endpoint && |push.streams| == 1 && |push.streams[0].values| == 1
    ensures Shaped(Deliver(p, name, push, r), endpoint)
    ensures Deliver(p, name, push, r).posted == p.posted + [name]
  {
    var q := p.(posted := p.posted + [name], pushes := p.pushes + [push]);
    ShapedSnoc(p, name, push, endpoint);
    ShapedSame(q, Deliver(p, name, push, r), endpoint);
  }

  /** Appending one single-value payload to the endpoint keeps the posts shaped. */
  lemma ShapedSnoc(p: Progress, name: string, push: Push, endpoint: string)
    requires Shaped(p, endpoint)
    requires push.url == endpoint && |push.streams| == 1 && |push.streams[0].values| == 1
    ensures Shaped(p.(posted := p.posted + [name], pushes := p.pushes + [push]), endpoint)
  {
    var ps := p.pushes + [push];
    forall k | 0 <= k < |ps|
      ensures ps[k].url == endpoint && |ps[k].streams| == 1 && |ps[k].streams[0].values| == 1
    {
      if k < |p.pushes| { assert ps[k] == p.pushes[k]; }
    }
  }

  /** Every post is of a regular file of the listing, and carries one
      stream with one value, sent to the same endpoint. */
  lemma {:induction false} RunPushes(dir: map<string, Node>, names: seq<string>, endpoint: string,
                                     respond: nat -> PostResult)
    requires forall k :: 0 <= k < |names| ==> names[k] in dir
    ensures var p := Run(dir, names, endpoint, respond);
      && Shaped(p, endpoint)
      && (forall k :: 0 <= k < |p.posted| ==> p.posted[k] in names && dir[p.posted[k]].File?)
  {
    if names != [] {
      var init := names[..|names| - 1];
      var last := names[|names| - 1];
      RunPushes(dir, init, endpoint, respond);
      var p := Run(dir, init, endpoint, respond);
      VisitShaped(p, last, dir[last], endpoint, respond);
      var q := Run(dir, names, endpoint, respond);
      assert q == Visit(p, last, dir[last], endpoint, respond);
      forall k | 0 <= k < |q.posted| ensures q.posted[k] in names && dir[q.posted[k]].File? {
        if k < |p.posted| {
          assert q.posted[k] == p.posted[k];
          var j :| 0 <= j < |init| && init[j] == p.posted[k];
          assert names[j] == init[j];
        } else {
          assert q.posted[k] == last;
        }
      }
    }
  }

  /** One regular file with a parsed record: the `geohash` in force is the
      record's own or the one carried over; with none in force, or a body
      that does not render, the upload aborts; otherwise exactly one payload
      is posted, carrying the record's labels and the value
      `[name stripped, metric part + "geohash=" + value]`. */
  lemma VisitRecord(p: Progress, name: string, record: Snapshot, endpoint: string, respond: nat -> PostResult)
    requires !p.raised
    ensures var q := Visit(p, name, File(Some(record)), endpoint, respond);
      var g := if "geohash" in Keys(record) then Get(record, "geohash") else p.geohash;
      var m := MetricLine(Body(record));
      && (g.None? || m.None? ==> q == p.(raised := true))
      && (g.Some? && m.Some? ==>
          && q.geohash == g
          && q.posted == p.posted + [name]
          && q.pushes == p.pushes + [Push(endpoint, [Stream(StreamLabels(record),
                                                          [(Strip(name, JsonChars), m.value + "geohash=" + RenderEntry(g.value))])])])
  {
    var g := Carried(record, p.geohash);
    var m := MetricLine(Body(record));
    var line := LogLine(record, g);
    if g.Some? && m.Some? {
      assert line == Some(m.value + "geohash=" + RenderEntry(g.value));
      DeliverFields(p.(geohash := g), name, PushOf(name, record, line.value, endpoint), respond(|p.pushes|));
    } else {
      assert line.None?;
    }
  }

  /** A delivery appends the name and the payload and keeps the `geohash`. */
  lemma DeliverFields(p: Progress, name: string, push: Push, r: PostResult)
    ensures var q := Deliver(p, name, push, r);
      q.geohash == p.geohash && q.posted == p.posted + [name] && q.pushes == p.pushes + [push]
  {
  }

  /** A post that the endpoint accepted. */
  predicate Accepted(r: PostResult) {
    r.Status? && IsSuccess(r.code)
  }

  /** How a visit of `name` changed the progress, given whether it is a
      regular file and whether its post, if any, was accepted. */
  predicate Stepped(p: Progress, q: Progress, name: string, isFile: bool, accepted: bool) {
    && (!isFile ==> q == p)
    && (q.raised ==> q.success == p.success && q.fail == p.fail && q.removed == p.removed)
    && (q.raised ==> q.posted == p.posted || q.posted == p.posted + [name])
    && (!q.raised && isFile ==> q.posted == p.posted + [name])
    && (!q.raised && isFile && accepted ==>
          q.success == p.success + 1 && q.fail == p.fail && q.removed == p.removed + {name})
    && (!q.raised && isFile && !accepted ==>
          q.success == p.success && q.fail == p.fail + 1 && q.removed == p.removed)
    && (q.posted == p.posted + [name] ==> (name in q.removed <==> accepted))
  }

  /** What one visit does to the counters, the deletions and the posts. */
  lemma VisitCases(p: Progress, name: string, node: Node, endpoint: string, respond: nat -> PostResult)
    requires !p.raised && name !in p.removed
    ensures Stepped(p, Visit(p, name, node, endpoint, respond), name, node.File?, Accepted(respond(|p.pushes|)))
  {
  }

  /** The bookkeeping of a walk over distinct names. */
  predicate Accounted(dir: map<string, Node>, names: seq<string>, p: Progress, respond: nat -> PostResult) {
    && Distinct(p.posted)
    && (forall k :: 0 <= k < |p.posted| ==> p.posted[k] in names)
    && (forall n :: n in p.removed ==> n in p.posted)
    && (forall k :: 0 <= k < |p.posted| ==> (p.posted[k] in p.removed <==> Accepted(respond(k))))
    && p.success == |p.removed|
    && (!p.raised ==> p.success + p.fail == |FilesIn(dir, names)| == |p.posted|)
  }

  /** Once raised, the bookkeeping holds over any longer listing. */
  lemma AccountedRaised(dir: map<string, Node>, init: seq<string>, last: string, p: Progress,
                        respond: nat -> PostResult)
    requires Accounted(dir, init, p, respond) && p.raised
    ensures Accounted(dir, init + [last], p, respond)
  {
    forall k | 0 <= k < |p.posted| ensures p.posted[k] in init + [last] {
      var j :| 0 <= j < |init| && init[j] == p.posted[k];
      assert (init + [last])[j] == init[j];
    }
  }

  /** A posted name added after the others keeps the posted names distinct. */
  lemma PostedSnoc(init: seq<string>, last: string, posted: seq<string>, respond: nat -> PostResult,
                   removed: set<string>, removed': set<string>)
    requires Distinct(posted) && last !in posted
    requires forall k :: 0 <= k < |posted| ==> posted[k] in init
    requires forall k :: 0 <= k < |posted| ==> (posted[k] in removed <==> Accepted(respond(k)))
    requires removed' - {last} == removed - {last}
    requires last in removed' <==> Accepted(respond(|posted|))
    ensures Distinct(posted + [last])
    ensures forall k :: 0 <= k < |posted + [last]| ==> (posted + [last])[k] in init + [last]
    ensures forall k :: 0 <= k < |posted + [last]| ==>
              ((posted + [last])[k] in removed' <==> Accepted(respond(k)))
  {
    var q := posted + [last];
    forall i, j | 0 <= i < j < |q| ensures q[i] != q[j] {
      if j == |posted| { assert q[i] == posted[i]; } else { assert q[i] == posted[i] && q[j] == posted[j]; }
    }
    forall k | 0 <= k < |q| ensures q[k] in init + [last] && (q[k] in removed' <==> Accepted(respond(k))) {
      if k < |posted| {
        assert q[k] == posted[k] && posted[k] != last;
        assert posted[k] in removed' - {last} <==> posted[k] in removed - {last};
        var j :| 0 <= j < |init| && init[j] == posted[k];
        assert (init + [last])[j] == init[j];
      } else {
        assert q[k] == last == (init + [last])[|init|];
      }
    }
  }

  /** A visit that posted nothing keeps the bookkeeping. */
  lemma AccountedSkip(dir: map<string, Node>, init: seq<string>, last: string,
                      respond: nat -> PostResult, p: Progress, q: Progress)
    requires last in dir && last !in init
    requires Accounted(dir, init, p, respond) && !p.raised
    requires Stepped(p, q, last, dir[last].File?, Accepted(respond(|p.pushes|)))
    requires q.posted == p.posted
    requires FilesIn(dir, init + [last])
      == FilesIn(dir, init) + (if dir[last].File? then {last} else {})
    ensures Accounted(dir, init + [last], q, respond)
  {
    AccountedRaised(dir, init, last, p.(raised := true), respond);
    assert q.removed == p.removed && q.success == p.success;
    assert !q.raised ==> !dir[last].File? && q == p;
  }

  /** A visit that posted the file keeps the bookkeeping. */
  lemma AccountedPost(dir: map<string, Node>, init: seq<string>, last: string,
                      respond: nat -> PostResult, p: Progress, q: Progress)
    requires last in dir && last !in init && last !in p.posted && last !in p.removed
    requires Accounted(dir, init, p, respond) && |p.posted| == |p.pushes| && !p.raised
    requires Stepped(p, q, last, dir[last].File?, Accepted(respond(|p.pushes|)))
    requires q.posted == p.posted + [last]
    requires FilesIn(dir, init + [last])
      == FilesIn(dir, init) + (if dir[last].File? then {last} else {})
    ensures Accounted(dir, init + [last], q, respond)
  {
    PostedSnoc(init, last, p.posted, respond, p.removed, q.removed);
    assert dir[last].File?;
    if !q.raised && Accepted(respond(|p.pushes|)) {
      assert q.removed == p.removed + {last};
    } else {
      assert q.removed == p.removed;
    }
  }

  /** Over a listing without repeats: each file is posted at most once, a
      file is deleted exactly when its post was accepted, `success` counts
      the deleted files, and a walk that ran to the end posted every regular
      file once, so `success + fail` is the number of regular files. */
  lemma {:induction false} RunAccounted(dir: map<string, Node>, names: seq<string>, endpoint: string,
                                        respond: nat -> PostResult)
    requires Distinct(names) && forall k :: 0 <= k < |names| ==> names[k] in dir
    ensures Accounted(dir, names, Run(dir, names, endpoint, respond), respond)
  {
    if names != [] {
      var init := names[..|names| - 1];
      var last := names[|names| - 1];
      assert names == init + [last];
      RunAccounted(dir, init, endpoint, respond);
      RunPushes(dir, init, endpoint, respond);
      var p := Run(dir, init, endpoint, respond);
      if p.raised {
        AccountedRaised(dir, init, last, p, respond);
      } else {
        FilesInSnoc(dir, names, |names| - 1);
        assert names[..|names| - 1 + 1] == names;
        assert last !in p.posted;
        VisitCases(p, last, dir[last], endpoint, respond);
        var q := Run(dir, names, endpoint, respond);
        if q.posted == p.posted {
          AccountedSkip(dir, init, last, respond, p, q);
        } else {
          AccountedPost(dir, init, last, respond, p, q);
        }
      }
    }
  }

  /** The Loki endpoint parses back into the base URL's scheme, host and
      path with `instance:quote_plus(key)` as userinfo, whatever the key;
      the password decodes back to the key's UTF-8 bytes. */
  lemma LokiUrlRoundTrip(url: string, instance: string, key: string)
    requires Url.UrlParse(url).scheme != ""
    requires Url.UrlParse(url).path == "" || Url.UrlParse(url).path[0] == '/'
    requires Url.NoneOf(instance, {'/', '?', '#'})
    ensures var u := Url.UrlParse(url);
      Url.UrlParse(LokiUrl(url, instance, key))
      == Url.Parsed(u.scheme, instance + ":" + Url.QuotePlus(key) + "@" + u.netloc, u.path, "", "", "")
    ensures Url.UnquoteBytes(Url.QuotePlus(key)) == Some(Url.Utf8String(key))
  {
    Url.QuotePlusDelimiterFree(key);
    Url.TargetUrlRoundTrip(url, instance, Url.QuotePlus(key));
    Url.UnquoteQuotePlus(key);
  }

  /** A file that `WriteLogFile` named after a timestamp is posted with that
      timestamp as the value's `ts`. */
  lemma PushTimestamp(timestamp: int, record: Snapshot, line: string, endpoint: string)
    ensures PushOf(IntToString(timestamp) + ".json", record, line, endpoint).streams[0].values
         == [(IntToString(timestamp), line)]
  {
    StripTimestamp(timestamp);
  }

  /** An upload over a full listing: `success` is the number of files
      deleted, only regular files are deleted, each deleted file's post got
      a 2xx response and each posted file whose post was accepted is
      deleted, and a walk that ran to the end counted every regular file of
      the directory once, as `GetFileCount` reports. */
  lemma UploadAccounts(dir: map<string, Node>, order: seq<string>, endpoint: string, respond: nat -> PostResult)
    requires Listing(dir, order)
    ensures var p := Run(dir, order, endpoint, respond);
      && p.success == |p.removed|
      && p.removed <= FileNames(dir)
      && Distinct(p.posted)
      && (forall k :: 0 <= k < |p.posted| ==> (p.posted[k] in p.removed <==> Accepted(respond(k))))
      && (!p.raised ==> p.success + p.fail == |FileNames(dir)| == |p.pushes|)
  {
    RunAccounted(dir, order, endpoint, respond);
    RunPushes(dir, order, endpoint, respond);
    ListingFiles(dir, order);
    var p := Run(dir, order, endpoint, respond);
    forall n | n in p.removed ensures n in FileNames(dir) {
      var k :| 0 <= k < |p.posted| && p.posted[k] == n;
    }
  }

  // ---------------------------------------------------------------------
  // The handler

  /** What `UploadLogFiles` gave back: the two counters, or an exception. */
  datatype UploadResult = Counts(success: nat, fail: nat) | Raised

  /** The body of the loop for one regular file: the label pops, the metric
      line, the `geohash` suffix and the payload. */
  method BuildPush(name: string, record: Snapshot, geohash: Option<Entry>, endpoint: string)
    returns (push: Option<Push>, carried: Option<Entry>)
    ensures carried == Carried(record, geohash)
    ensures push.Some? <==> LogLine(record, carried).Some?
    ensures push.Some? ==> push.value == PushOf(name, record, LogLine(record, carried).value, endpoint)
  {
    var labels, datapoint, own := SplitRecord(record);
    carried := if own.Some? then own else geohash;
    var metrics := RenderLine(datapoint);
    if metrics.None? || carried.None? {
      return None, carried;
    }
    var line := metrics.value + "geohash=" + RenderEntry(carried.value);
    push := Some(Push(endpoint, [Stream(labels, [(Strip(name, JsonChars), line)])]));
  }

  /** The body of the `UploadLogFiles` loop for one directory entry. */
  method VisitEntry(p: Progress, name: string, node: Node, endpoint: string, respond: nat -> PostResult)
    returns (q: Progress)
    requires !p.raised
    ensures q == Visit(p, name, node, endpoint, respond)
  {
    q := p;
    if node.Dir? {
      return;
    }
    if node.record.None? {
      return p.(raised := true);
    }
    var push, carried := BuildPush(name, node.record.value, p.geohash, endpoint);
    if push.None? {
      return p.(raised := true);
    }
    q := p.(geohash := carried, posted := p.posted + [name], pushes := p.pushes + [push.value]);
    var response := respond(|p.pushes|);
    if response.TransportError? {
      q := q.(raised := true);
    } else if IsSuccess(response.code) {
      q := q.(success := p.success + 1, removed := p.removed + {name});
    } else {
      q := q.(fail := p.fail + 1);
    }
  }

  /** The next name of a listing without repeats has not been handled
      yet, and the names handled stay among those seen. */
  lemma NextNameFresh(order: seq<string>, i: nat, removed: set<string>)
    requires i < |order| && Distinct(order)
    requires forall n :: n in removed ==> n in order[..i]
    ensures order[i] !in removed
    ensures forall n :: n in removed + {order[i]} ==> n in order[..i + 1]
  {
    forall k | 0 <= k < i ensures order[..i][k] != order[i] { }
    assert order[..i + 1] == order[..i] + [order[i]];
  }

  /** The buffer directory and the files that `WriteLogFile` put outside
      it (a directory path without a trailing '/' is used as a prefix). */
  class LokiHandler {
    const dataDirectory: string
    var present: bool
    var entries: map<string, Node>
    var strays: map<string, Snapshot>

    /** A handler over the directory as it stands. */
    constructor (path: string, found: bool, contents: map<string, Node>)
      requires found || contents == map[]
      ensures dataDirectory == path && present == found && entries == contents && strays == map[]
    {
      dataDirectory := path;
      present := found;
      entries := contents;
      strays := map[];
    }

    /** `WriteLogFile(data, timestamp)`: create the directory, write the
        snapshot to `<path><timestamp>.json`. Any failure is logged and
        swallowed; `fails` stands for the file system refusing. */
    method WriteLogFile(data: Snapshot, timestamp: int, fails: bool)
      modifies this
      ensures var name := IntToString(timestamp) + ".json";
        if fails || dataDirectory == "" then
          present == old(present) && entries == old(entries) && strays == old(strays)
        else
          && present
          && (if dataDirectory[|dataDirectory| - 1] == '/' then
                && strays == old(strays)
                && entries == (if name in old(entries) && old(entries)[name].Dir? then old(entries)
                               else old(entries)[name := File(Some(data))])
              else
                && entries == old(entries)
                && strays == old(strays)[dataDirectory + name := data])
    {
      if fails || dataDirectory == "" {
        return;
      }
      present := true;
      var name := IntToString(timestamp) + ".json";
      if dataDirectory[|dataDirectory| - 1] == '/' {
        if !(name in entries && entries[name].Dir?) {
          entries := entries[name := File(Some(data))];
        }
      } else {
        strays := strays[dataDirectory + name := data];
      }
    }

    /** `GetFileCount()`: the regular files of the directory; scanning a
        missing directory raises (None). */
    method GetFileCount(order: seq<string>) returns (count: Option<nat>)
      requires present ==> Listing(entries, order)
      ensures count == if present then Some(|FileNames(entries)|) else None
    {
      if !present {
        return None;
      }
      var n := 0;
      var i := 0;
      while i < |order|
        invariant 0 <= i <= |order|
        invariant n == |FilesIn(entries, order[..i])|
      {
        FilesInSnoc(entries, order, i);
        if entries[order[i]].File? {
          n := n + 1;
        }
        i := i + 1;
      }
      assert order[..i] == order;
      ListingFiles(entries, order);
      return Some(n);
    }
  
    /** `UploadLogFiles(instance, key, url)`: walk the directory in listing
        order, post each regular file, delete it on a 2xx response. The k-th
        post gets `respond(k)`. The returned payloads are the posts in order.
        When `urlparse` refuses the url, the first regular file raises before
        anything is posted: loading or rendering its record fails, or the
        walk reaches the parse. */
    method UploadLogFiles(instance: string, key: string, url: string, order: seq<string>,
                          respond: nat -> PostResult)
      returns (result: UploadResult, pushes: seq<Push>)
      requires present ==> Listing(entries, order)
      modifies this
      ensures present == old(present) && strays == old(strays)
      ensures !old(present) ==> result == Raised && pushes == [] && entries == old(entries)
      ensures old(present) && Url.CheckedParse(url).None? ==>
        && entries == old(entries) && pushes == []
        && result == (if FileNames(old(entries)) == {} then Counts(0, 0) else Raised)
      ensures old(present) && Url.CheckedParse(url).Some? ==>
        var p := Run(old(entries), order, LokiUrl(url, instance, key), respond);
        && entries == old(entries) - p.removed
        && pushes == p.pushes
        && result == (if p.raised then Raised else Counts(p.success, p.fail))
    {
      if !present {
        return Raised, [];
      }
      if Url.CheckedParse(url).None? {
        var found := FindFile(order);
        return (if found then Raised else Counts(0, 0)), [];
      }
      result, pushes := UploadTo(LokiUrl(url, instance, key), order, respond);
    }

    /** The walk until its first regular file: whether there is one. */
    method FindFile(order: seq<string>) returns (found: bool)
      requires Listing(entries, order)
      ensures found <==> FileNames(entries) != {}
    {
      found := false;
      var i := 0;
      while i < |order| && !found
        invariant 0 <= i <= |order|
        invariant found <==> FilesIn(entries, order[..i]) != {}
      {
        FilesInSnoc(entries, order, i);
        found := entries[order[i]].File?;
        i := i + 1;
      }
      ListingFiles(entries, order);
      if found {
        var n :| n in FilesIn(entries, order[..i]);
        assert n in order;
      } else {
        assert order[..i] == order;
      }
    }

    /** One pass of the `UploadLogFiles` loop: post the entry, delete it
        when the post was accepted. */
    method UploadEntry(p: Progress, name: string, endpoint: string, respond: nat -> PostResult)
      returns (q: Progress)
      requires !p.raised && name in entries && name !in p.removed
      modifies this
      ensures q == Visit(p, name, old(entries)[name], endpoint, respond)
      ensures present == old(present) && strays == old(strays)
      ensures q.removed == p.removed ==> entries == old(entries)
      ensures q.removed != p.removed ==> q.removed == p.removed + {name} && entries == old(entries) - {name}
    {
      q := VisitEntry(p, name, entries[name], endpoint, respond);
      VisitCases(p, name, entries[name], endpoint, respond);
      if name in q.removed {
        entries := entries - {name};
      }
    }

    /** The `i`-th pass of the `UploadLogFiles` loop over the listing of `dir`. */
    method UploadStep(ghost dir: map<string, Node>, p: Progress, order: seq<string>, i: nat,
                      endpoint: string, respond: nat -> PostResult)
      returns (q: Progress)
      requires i < |order| && Listing(dir, order) && !p.raised
      requires p == Run(dir, order[..i], endpoint, respond)
      requires forall n :: n in p.removed ==> n in order[..i]
      requires entries == dir - p.removed
      modifies this
      ensures q == Run(dir, order[..i + 1], endpoint, respond)
      ensures forall n :: n in q.removed ==> n in order[..i + 1]
      ensures entries == dir - q.removed
      ensures present == old(present) && strays == old(strays)
    {
      var name := order[i];
      NextNameFresh(order, i, p.removed);
      assert entries[name] == dir[name];
      q := UploadEntry(p, name, endpoint, respond);
      if q.removed != p.removed {
        assert (dir - p.removed) - {name} == dir - q.removed;
      }
      RunSnoc(dir, order, i, endpoint, respond);
    }

    /** The walk of `UploadLogFiles` once the endpoint is built. */
    method UploadTo(endpoint: string, order: seq<string>, respond: nat -> PostResult)
      returns (result: UploadResult, pushes: seq<Push>)
      requires present && Listing(entries, order)
      modifies this
      ensures present && strays == old(strays)
      ensures var p := Run(old(entries), order, endpoint, respond);
        && entries == old(entries) - p.removed
        && pushes == p.pushes
        && result == (if p.raised then Raised else Counts(p.success, p.fail))
    {
      var p := Progress(0, 0, None, {}, [], [], false);
      var i := 0;
      while i < |order| && !p.raised
        invariant 0 <= i <= |order|
        invariant p == Run(old(entries), order[..i], endpoint, respond)
        invariant forall n :: n in p.removed ==> n in order[..i]
        invariant entries == old(entries) - p.removed
        invariant present && strays == old(strays)
      {
        p := UploadStep(old(entries), p, order, i, endpoint, respond);
        i := i + 1;
      }
      if p.raised {
        RunRaisedStays(old(entries), order, i, endpoint, respond);
        result := Raised;
      } else {
        assert order[..i] == order;
        result := Counts(p.success, p.fail);
      }
      pushes := p.pushes;
    }
  }
}
