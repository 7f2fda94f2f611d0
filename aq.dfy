/**
  The data shaping of firmware/aq.py, the application's entry point: the
  merges into the shared snapshot, the per-worker Prometheus configuration
  (friendly-name override and the 300-second floor on the push interval),
  and the list of worker threads `main` starts. The threads, their sleep
  loops and the websocket server are not modelled; each step is.
 */
module Aq {
  import opened Values
  import Store
  import Prometheus

  // ---------------------------------------------------------------------
  // Merges into the shared snapshot

  /** `mainboard.getSerialNumber()`: a `{'hardwareId': ...}` dictionary,
      or -1 when the serial number cannot be read. */
  datatype SerialNumber = Unreadable | Serial(id: Snapshot)

  /** `if hwid != -1: sensorData.update(hwid)`. */
  method MergeSerial(store: Store.ReadingStore, hwid: SerialNumber)
    modifies store
    ensures store.data == if hwid.Serial? then Update(old(store.data), hwid.id) else old(store.data)
  {
    if hwid.Serial? {
      store.Merge(hwid.id);
    }
  }

  /** One pass of `sensorsUpdateThread`: merge the module readings, then
      the location. */
  method SensorsUpdateStep(store: Store.ReadingStore, readings: Snapshot, location: Snapshot)
    modifies store
    ensures store.data == Update(Update(old(store.data), readings), location)
  {
    store.Merge(readings);
    store.Merge(location);
  }

  /** After a pass, a key holds the location's value if the location has
      it, else the readings' value if they have it, else its old value. */
  lemma SensorsUpdateGet(d: Snapshot, readings: Snapshot, location: Snapshot, k: string)
    requires WellFormed(readings) && WellFormed(location)
    ensures Get(Update(Update(d, readings), location), k)
         == if k in Keys(location) then Get(location, k)
            else if k in Keys(readings) then Get(readings, k)
            else Get(d, k)
  {
    UpdateGet(Update(d, readings), location, k);
    UpdateGet(d, readings, k);
  }

  /** A pass never removes a key: the old keys stay, in place, and the
      only keys added are the readings' and the location's. */
  lemma SensorsUpdateKeys(d: Snapshot, readings: Snapshot, location: Snapshot)
    ensures Keys(d) <= Keys(Update(Update(d, readings), location))
    ensures forall k :: k in Keys(Update(Update(d, readings), location)) <==>
      k in Keys(d) || k in Keys(readings) || k in Keys(location)
  {
    UpdateKeys(d, readings);
    UpdateKeys(Update(d, readings), location);
  }

  // ---------------------------------------------------------------------
  // `int()` of a configuration value

  /** `int()` of a string of decimal digits. */
  function ParseNat(t: string): (r: Option<nat>)
    ensures r.Some? <==> t != [] && forall i :: 0 <= i < |t| ==> IsDigit(t[i])
  {
    if t != [] && forall i :: 0 <= i < |t| ==> IsDigit(t[i]) then Some(DecimalValue(t)) else None
  }

  /** `int()` of a string: an optional sign, then decimal digits; anything
      else raises ValueError (None). */
  function ParseInt(t: string): Option<int> {
    if t != [] && (t[0] == '-' || t[0] == '+') then
      match ParseNat(t[1..])
      case None => None
      case Some(n) =>
        var v: int := if t[0] == '-' then -(n as int) else n;
        Some(v)
    else
      match ParseNat(t)
      case None => None
      case Some(n) => Some(n)
  }

  /** `int(x)` of a TOML value: an integer is itself, text is parsed. */
  function IntOf(x: Setting): Option<int> {
    match x
    case Int(i) => Some(i)
    case Text(t) => ParseInt(t)
  }

  /** `int(str(i)) == i`. */
  lemma ParseIntRoundTrip(i: int)
    ensures ParseInt(IntToString(i)) == Some(i)
  {
    if i < 0 {
      ParseNegative(-i);
    } else {
      ParseNatOfString(i);
      assert IsDigit(NatToString(i)[0]);
    }
  }

  lemma ParseNegative(n: nat)
    requires n > 0
    ensures ParseInt("-" + NatToString(n)) == Some(-(n as int))
  {
    var t := "-" + NatToString(n);
    assert t[1..] == NatToString(n);
    ParseNatOfString(n);
  }

  /** `int()` reads back what `str()` wrote for a natural number. */
  lemma ParseNatOfString(n: nat)
    ensures ParseNat(NatToString(n)) == Some(n)
  {
    NatToStringValue(n);
  }

  /** Text that is not an integer is refused. */
  lemma ParseIntRejects()
    ensures ParseInt("") == None && ParseInt("-") == None && ParseInt("5m") == None && ParseInt("3.5") == None
  {
    assert !IsDigit("5m"[1]);
    assert !IsDigit("3.5"[1]);
  }

  // ---------------------------------------------------------------------
  // The worker's configuration

  /** The shortest interval between two remote writes, in seconds. */
  const MinInterval: int := 300

  /** `if int(interval) < 300: interval = 300`; None when `int()` raises.
      A value at or above the floor is kept as it was written. */
  function ClampInterval(x: Setting): Option<Setting> {
    match IntOf(x)
    case None => None
    case Some(i) => Some(if i < MinInterval then Int(MinInterval) else x)
  }

  /** The effective interval is `max(int(interval), 300)`, and an interval
      already at or above 300 is left untouched. */
  lemma ClampIsMax(x: Setting)
    ensures ClampInterval(x).Some? <==> IntOf(x).Some?
    ensures ClampInterval(x).Some? ==>
      IntOf(ClampInterval(x).value) == Some(if IntOf(x).value < MinInterval then MinInterval else IntOf(x).value)
    ensures ClampInterval(x).Some? ==> IntOf(ClampInterval(x).value).value >= MinInterval
    ensures IntOf(x).Some? && IntOf(x).value >= MinInterval ==> ClampInterval(x) == Some(x)
  {
  }

  /** Clamping twice is clamping once. */
  lemma ClampIdempotent(x: Setting)
    requires ClampInterval(x).Some?
    ensures ClampInterval(ClampInterval(x).value) == ClampInterval(x)
  {
  }

  /** The worker's table after `localConfig.update({'friendlyname': ...})`
      and the clamp, and the interval it sleeps for (None when `interval`
      is missing or not an integer, which ends the worker after the
      friendly name was already written). */
  function Configure(c: Dict<Setting>, friendlyName: string): (Dict<Setting>, Option<Setting>) {
    var named := Set(c, "friendlyname", Text(friendlyName));
    var interval := Get(named, "interval");
    if interval.None? || ClampInterval(interval.value).None? then (named, None)
    else if ClampInterval(interval.value).value == interval.value then (named, interval)
    else (Set(named, "interval", ClampInterval(interval.value).value), ClampInterval(interval.value))
  }

  /** The friendly name is always overridden, and every other key except
      `interval` keeps its value. */
  lemma ConfigureNames(c: Dict<Setting>, friendlyName: string)
    ensures Get(Configure(c, friendlyName).0, "friendlyname") == Some(Text(friendlyName))
    ensures forall k :: k != "friendlyname" && k != "interval" ==>
      Get(Configure(c, friendlyName).0, k) == Get(c, k)
  {
  }

  /** The worker gets an interval exactly when `interval` is configured as
      an integer; it is then at least 300, is `max(int(interval), 300)`,
      and is what the table holds. */
  lemma ConfigureInterval(c: Dict<Setting>, friendlyName: string)
    ensures Configure(c, friendlyName).1.Some? <==>
      Get(c, "interval").Some? && IntOf(Get(c, "interval").value).Some?
    ensures var (table, interval) := Configure(c, friendlyName);
      interval.Some? ==>
        && Get(table, "interval") == interval
        && IntOf(interval.value).value >= MinInterval
        && IntOf(interval.value).value == if IntOf(Get(c, "interval").value).value < MinInterval then MinInterval
                                          else IntOf(Get(c, "interval").value).value
  {
    if Get(c, "interval").Some? {
      ClampIsMax(Get(c, "interval").value);
    }
  }

  /** One worker's configuration table; the worker updates it in place
      (`localConfig = config` aliases the table `main` handed over). */
  class WorkerConfig {
    var entries: Dict<Setting>

    constructor (entries: Dict<Setting>)
      ensures this.entries == entries
    {
      this.entries := entries;
    }
  }

  /** The set-up of `prometheusUpdateThread`: override the friendly name,
      clamp the interval, build the writer. No writer when the interval
      cannot be read. */
  method StartPrometheusWorker(config: WorkerConfig, friendlyName: string, hwid: Scalar)
    returns (writer: Prometheus.PrometheusWriter?, interval: Option<Setting>)
    modifies config
    ensures (config.entries, interval) == Configure(old(config.entries), friendlyName)
    ensures writer != null <==> interval.Some?
    ensures writer != null ==> fresh(writer) && writer.configDict == config.entries && writer.hardwareId == hwid
    ensures writer != null ==> writer.friendlyName == Text(friendlyName) && writer.remoteWriteTimestamps == null
  {
    config.entries := Set(config.entries, "friendlyname", Text(friendlyName));
    var current := Get(config.entries, "interval");
    if current.None? {
      return null, None;
    }
    var i := IntOf(current.value);
    if i.None? {
      return null, None;
    }
    if i.value < MinInterval {
      config.entries := Set(config.entries, "interval", Int(MinInterval));
      interval := Some(Int(MinInterval));
    } else {
      interval := current;
    }
    assert Get(config.entries, "friendlyname") == Some(Text(friendlyName));
    writer := new Prometheus.PrometheusWriter(config.entries, hwid, [], null);
  }

  // ---------------------------------------------------------------------
  // The threads `main` starts

  /** A value of the `[prometheus]` table: a setting, or one remote's table. */
  datatype ConfigEntry = Value(setting: Setting) | Table(table: Dict<Setting>)

  datatype Target = SensorsUpdate | MqttUpdate | CsvUpdate | PrometheusUpdate(config: ConfigEntry)

  /** A started thread: its name and what it runs. */
  datatype Thread = Thread(name: string, target: Target)

  const PrometheusThreadPrefix: string := "prometheusUpdateThread_"

  /** The fixed threads, in start order; the CSV one only when enabled. */
  function FixedThreads(csvEnabled: bool): seq<Thread> {
    [Thread("sensorsUpdateThread", SensorsUpdate), Thread("mqttUpdateThread", MqttUpdate)]
      + (if csvEnabled then [Thread("csvUpdateThread", CsvUpdate)] else [])
  }

  /** One Prometheus thread per entry of the table left after the pop. */
  function PrometheusThreads(workers: Dict<ConfigEntry>): (ts: seq<Thread>)
    ensures |ts| == |workers|
  {
    seq(|workers|, i requires 0 <= i < |workers| =>
      Thread(PrometheusThreadPrefix + workers[i].0, PrometheusUpdate(workers[i].1)))
  }

  lemma PrometheusThreadsSnoc(workers: Dict<ConfigEntry>, i: nat)
    requires i < |workers|
    ensures PrometheusThreads(workers[..i + 1]) == PrometheusThreads(workers[..i])
      + [Thread(PrometheusThreadPrefix + workers[i].0, PrometheusUpdate(workers[i].1))]
  {
    var l := PrometheusThreads(workers[..i + 1]);
    var r := PrometheusThreads(workers[..i])
      + [Thread(PrometheusThreadPrefix + workers[i].0, PrometheusUpdate(workers[i].1))];
    forall k | 0 <= k < |l| ensures l[k] == r[k] {
      assert workers[..i + 1][k] == workers[k];
    }
  }

  /** The thread start-up of `main`. */
  method StartThreads(csvEnabled: bool, prometheusConfig: Dict<ConfigEntry>)
    returns (started: seq<Thread>, prometheusThreads: seq<Thread>)
    ensures prometheusThreads == PrometheusThreads(Remove(prometheusConfig, "friendlyname"))
    ensures started == FixedThreads(csvEnabled) + prometheusThreads
  {
    started := [Thread("sensorsUpdateThread", SensorsUpdate), Thread("mqttUpdateThread", MqttUpdate)];
    if csvEnabled {
      started := started + [Thread("csvUpdateThread", CsvUpdate)];
    }
    var workers := Remove(prometheusConfig, "friendlyname");
    prometheusThreads := [];
    var i := 0;
    while i < |workers|
      invariant 0 <= i <= |workers|
      invariant prometheusThreads == PrometheusThreads(workers[..i])
      invariant started == FixedThreads(csvEnabled) + prometheusThreads
    {
      var t := Thread(PrometheusThreadPrefix + workers[i].0, PrometheusUpdate(workers[i].1));
      PrometheusThreadsSnoc(workers, i);
      assert started + [t] == FixedThreads(csvEnabled) + (prometheusThreads + [t]);
      prometheusThreads := prometheusThreads + [t];
      started := started + [t];
      i := i + 1;
    }
    assert workers[..i] == workers;
  }

  /** The CSV thread is started exactly when CSV logging is enabled. */
  lemma CsvThreadIffEnabled(csvEnabled: bool, prometheusConfig: Dict<ConfigEntry>)
    ensures var started := FixedThreads(csvEnabled) + PrometheusThreads(Remove(prometheusConfig, "friendlyname"));
      (exists i :: 0 <= i < |started| && started[i].target == CsvUpdate) <==> csvEnabled
  {
    var started := FixedThreads(csvEnabled) + PrometheusThreads(Remove(prometheusConfig, "friendlyname"));
    if csvEnabled {
      assert started[2].target == CsvUpdate;
    }
  }

  /** With distinct keys, the number of Prometheus workers is the size of
      the table less the popped `friendlyname`. */
  lemma WorkerCount(prometheusConfig: Dict<ConfigEntry>)
    requires WellFormed(prometheusConfig)
    ensures |PrometheusThreads(Remove(prometheusConfig, "friendlyname"))|
         == if "friendlyname" in Keys(prometheusConfig) then |prometheusConfig| - 1 else |prometheusConfig|
  {
    RemoveLength(prometheusConfig, "friendlyname");
  }

  /** Each remote of the table, that is each key other than
      `friendlyname`, gets a thread named after it that carries its table. */
  lemma WorkerPerRemote(prometheusConfig: Dict<ConfigEntry>, k: string)
    requires WellFormed(prometheusConfig)
    requires k in Keys(prometheusConfig) && k != "friendlyname"
    ensures Thread(PrometheusThreadPrefix + k, PrometheusUpdate(Get(prometheusConfig, k).value))
         in PrometheusThreads(Remove(prometheusConfig, "friendlyname"))
  {
    var w := Remove(prometheusConfig, "friendlyname");
    RemoveWellFormed(prometheusConfig, "friendlyname");
    assert k in Keys(w);
    var i :| 0 <= i < |w| && w[i].0 == k;
    GetAt(w, i);
    assert Get(w, k) == Get(prometheusConfig, k);
    var ts := PrometheusThreads(w);
    assert 0 <= i < |ts| && ts[i] == Thread(PrometheusThreadPrefix + k, PrometheusUpdate(Get(prometheusConfig, k).value));
  }

  /** Every Prometheus thread belongs to a remote of the table: none is
      started for `friendlyname`. */
  lemma WorkerFromRemote(prometheusConfig: Dict<ConfigEntry>, i: nat)
    requires i < |PrometheusThreads(Remove(prometheusConfig, "friendlyname"))|
    ensures var t := PrometheusThreads(Remove(prometheusConfig, "friendlyname"))[i];
      exists k :: k in Keys(prometheusConfig) && k != "friendlyname" && t.name == PrometheusThreadPrefix + k
  {
    var w := Remove(prometheusConfig, "friendlyname");
    RemoveKeys(prometheusConfig, "friendlyname");
    var k := w[i].0;
    assert k in Keys(w);
    assert k in Keys(prometheusConfig) && k != "friendlyname";
    var t := PrometheusThreads(w)[i];
    assert t.name == PrometheusThreadPrefix + k;
    assert k in Keys(prometheusConfig) && k != "friendlyname" && t.name == PrometheusThreadPrefix + k;
  }
}
