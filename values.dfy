/**
  Values shared by every sink: the scalars a reading holds, the reading
  snapshot, and Python's insertion-ordered dictionary with the three
  operations the firmware uses on it (`d[k]`/`get`, `pop`, `update`).
  A dictionary is a sequence of key/value pairs; a Python dict always has
  distinct keys, which is what `WellFormed` says.
 */
module Values {

  datatype Option<T> = None | Some(value: T) {
    function GetOr(default: T): T {
      match this
      case Some(v) => v
      case None => default
    }
  }

  /** A scalar of a reading or record: a string, a number (kept as the text
      Python's `str()` prints for it) or None / JSON null. */
  datatype Scalar = Str(s: string) | Num(text: string) | Null

  /** An insertion-ordered dictionary with string keys. */
  type Dict<V> = seq<(string, V)>

  /** A top-level value of the snapshot: a scalar (`hardwareId`, `geohash`,
      record labels) or one sensor's metric dictionary. */
  datatype Entry = Leaf(v: Scalar) | Group(fields: Dict<Scalar>)

  /** The shared reading snapshot (`sensorData` in the firmware). */
  type Snapshot = Dict<Entry>

  /** The keys of a dictionary, in iteration order. */
  function Keys<V>(d: Dict<V>): (ks: seq<string>)
    ensures |ks| == |d|
    ensures forall i :: 0 <= i < |d| ==> ks[i] == d[i].0
  {
    if d == [] then [] else [d[0].0] + Keys(d[1..])
  }

  predicate Distinct(ks: seq<string>) {
    forall i, j :: 0 <= i < j < |ks| ==> ks[i] != ks[j]
  }

  /** Every Python dict has distinct keys. */
  predicate WellFormed<V>(d: Dict<V>) {
    Distinct(Keys(d))
  }

  /** `d.get(k)`: the value stored under `k`, if any. */
  function Get<V>(d: Dict<V>, k: string): (r: Option<V>)
    ensures r.Some? <==> k in Keys(d)
  {
    if d == [] then None
    else if d[0].0 == k then Some(d[0].1)
    else Get(d[1..], k)
  }

  /** The dictionary after `d.pop(k, None)`: `k` is gone, the rest keeps its order. */
  function Remove<V>(d: Dict<V>, k: string): (r: Dict<V>)
    ensures k !in Keys(r)
    ensures |r| <= |d|
    ensures forall j :: j != k ==> Get(r, j) == Get(d, j)
  {
    if d == [] then []
    else if d[0].0 == k then Remove(d[1..], k)
    else [d[0]] + Remove(d[1..], k)
  }

  /** `d[k] = v`: an existing key keeps its position, a new key goes last. */
  function Set<V>(d: Dict<V>, k: string, v: V): (r: Dict<V>)
    ensures Get(r, k) == Some(v)
    ensures forall j :: j != k ==> Get(r, j) == Get(d, j)
  {
    if d == [] then [(k, v)]
    else if d[0].0 == k then [(k, v)] + d[1..]
    else [d[0]] + Set(d[1..], k, v)
  }

  /** `d.update(e)`: the pairs of `e` are stored one after another. */
  function Update<V>(d: Dict<V>, e: Dict<V>): Dict<V>
    decreases |e|
  {
    if e == [] then d else Update(Set(d, e[0].0, e[0].1), e[1..])
  }

  // ---------------------------------------------------------------------
  // Properties of the dictionary operations

  lemma {:induction false} SetKeys<V>(d: Dict<V>, k: string, v: V)
    ensures Keys(Set(d, k, v)) == if k in Keys(d) then Keys(d) else Keys(d) + [k]
  {
    if d != [] && d[0].0 != k {
      SetKeys(d[1..], k, v);
      assert Keys(d) == [d[0].0] + Keys(d[1..]);
    }
  }

  lemma SetWellFormed<V>(d: Dict<V>, k: string, v: V)
    requires WellFormed(d)
    ensures WellFormed(Set(d, k, v))
  {
    SetKeys(d, k, v);
  }

  /** The tail of a well-formed dictionary is well formed and misses its head key. */
  lemma WellFormedTail<V>(d: Dict<V>)
    requires WellFormed(d) && d != []
    ensures WellFormed(d[1..]) && d[0].0 !in Keys(d[1..])
  {
    assert Keys(d) == [d[0].0] + Keys(d[1..]);
  }

  lemma {:induction false} RemoveWellFormed<V>(d: Dict<V>, k: string)
    requires WellFormed(d)
    ensures WellFormed(Remove(d, k))
    ensures forall j :: j in Keys(Remove(d, k)) <==> j in Keys(d) && j != k
  {
    if d != [] {
      WellFormedTail(d);
      RemoveWellFormed(d[1..], k);
      if d[0].0 != k {
        assert Keys([d[0]] + Remove(d[1..], k)) == [d[0].0] + Keys(Remove(d[1..], k));
      }
    }
  }

  /** Every key of a well-formed dictionary maps to the value paired with it. */
  lemma {:induction false} GetAt<V>(d: Dict<V>, i: nat)
    requires WellFormed(d) && i < |d|
    ensures Get(d, d[i].0) == Some(d[i].1)
  {
    if i > 0 {
      assert Keys(d)[0] != Keys(d)[i];
      WellFormedTail(d);
      GetAt(d[1..], i - 1);
    }
  }

  /** A key that `get` finds sits at some position, holding the value found. */
  lemma {:induction false} GetIndex<V>(d: Dict<V>, k: string)
    requires k in Keys(d)
    ensures exists i :: 0 <= i < |d| && d[i].0 == k && Get(d, k) == Some(d[i].1)
  {
    if d[0].0 != k {
      assert Keys(d) == [d[0].0] + Keys(d[1..]);
      GetIndex(d[1..], k);
      var i :| 0 <= i < |d[1..]| && d[1..][i].0 == k && Get(d[1..], k) == Some(d[1..][i].1);
      assert d[i + 1] == d[1..][i];
    }
  }

  /** Last-write-wins: after `d.update(e)` a key of `e` holds `e`'s value and
      every other key holds what it held before. */
  lemma {:induction false} UpdateGet<V>(d: Dict<V>, e: Dict<V>, k: string)
    requires WellFormed(e)
    ensures Get(Update(d, e), k) == if k in Keys(e) then Get(e, k) else Get(d, k)
    decreases |e|
  {
    if e != [] {
      assert Keys(e) == [e[0].0] + Keys(e[1..]);
      WellFormedTail(e);
      UpdateGet(Set(d, e[0].0, e[0].1), e[1..], k);
    }
  }

  /** `update` never removes a key and never moves one: the old keys are a
      prefix of the new ones, and the keys are exactly the old ones and `e`'s. */
  lemma {:induction false} UpdateKeys<V>(d: Dict<V>, e: Dict<V>)
    ensures Keys(d) <= Keys(Update(d, e))
    ensures forall k :: k in Keys(Update(d, e)) <==> k in Keys(d) || k in Keys(e)
    decreases |e|
  {
    if e != [] {
      assert Keys(e) == [e[0].0] + Keys(e[1..]);
      var d' := Set(d, e[0].0, e[0].1);
      SetKeys(d, e[0].0, e[0].1);
      UpdateKeys(d', e[1..]);
    }
  }

  lemma UpdateWellFormed<V>(d: Dict<V>, e: Dict<V>)
    requires WellFormed(d)
    ensures WellFormed(Update(d, e))
    decreases |e|
  {
    if e != [] {
      SetWellFormed(d, e[0].0, e[0].1);
      UpdateWellFormed(Set(d, e[0].0, e[0].1), e[1..]);
    }
  }

  /** `pop` removes the key and keeps every other key, even where keys repeat. */
  lemma {:induction false} RemoveKeys<V>(d: Dict<V>, k: string)
    ensures forall j :: j in Keys(Remove(d, k)) <==> j in Keys(d) && j != k
  {
    if d != [] {
      RemoveKeys(d[1..], k);
      assert Keys(d) == [d[0].0] + Keys(d[1..]);
      if d[0].0 != k {
        assert Keys([d[0]] + Remove(d[1..], k)) == [d[0].0] + Keys(Remove(d[1..], k));
      }
    }
  }

  /** `pop` only drops pairs. */
  lemma {:induction false} RemoveElements<V>(d: Dict<V>, k: string)
    ensures forall x :: x in Remove(d, k) ==> x in d
  {
    if d != [] {
      RemoveElements(d[1..], k);
    }
  }

  /** Popping an absent key changes nothing. */
  lemma {:induction false} RemoveAbsent<V>(d: Dict<V>, k: string)
    requires k !in Keys(d)
    ensures Remove(d, k) == d
  {
    if d != [] {
      assert Keys(d) == [d[0].0] + Keys(d[1..]);
      RemoveAbsent(d[1..], k);
    }
  }

  /** Storing under a new key appends the pair. */
  lemma {:induction false} SetNew<V>(d: Dict<V>, k: string, v: V)
    requires k !in Keys(d)
    ensures Set(d, k, v) == d + [(k, v)]
  {
    if d != [] {
      assert Keys(d) == [d[0].0] + Keys(d[1..]);
      SetNew(d[1..], k, v);
    }
  }

  /** Nothing is left after popping `k` exactly when `k` was the only key. */
  lemma RemoveEmpty<V>(d: Dict<V>, k: string)
    ensures Remove(d, k) == [] <==> forall j :: j in Keys(d) ==> j == k
  {
    RemoveKeys(d, k);
    if Remove(d, k) != [] {
      assert Keys(Remove(d, k))[0] in Keys(Remove(d, k));
    }
  }

  /** Removing a key drops exactly one pair when the key is present. */
  lemma {:induction false} RemoveLength<V>(d: Dict<V>, k: string)
    requires WellFormed(d)
    ensures |Remove(d, k)| == if k in Keys(d) then |d| - 1 else |d|
  {
    if d != [] {
      WellFormedTail(d);
      RemoveLength(d[1..], k);
      assert Keys(d) == [d[0].0] + Keys(d[1..]);
    }
  }

  /** Whatever was stored under `k`, removing `k` gives the same dictionary. */
  lemma {:induction false} RemoveSet<V>(d: Dict<V>, k: string, v: V)
    ensures Remove(Set(d, k, v), k) == Remove(d, k)
  {
    if d != [] && d[0].0 != k {
      RemoveSet(d[1..], k, v);
    }
  }

  /** Storing under one key and removing another commute. */
  lemma {:induction false} RemoveSetOther<V>(d: Dict<V>, k: string, v: V, j: string)
    requires j != k
    ensures Remove(Set(d, k, v), j) == Set(Remove(d, j), k, v)
  {
    if d != [] && d[0].0 != k {
      RemoveSetOther(d[1..], k, v, j);
    }
  }

  // ---------------------------------------------------------------------
  // The label keys every sink pops

  /** The snapshot with `geohash` and `hardwareId` popped: what the
      Prometheus and CSV sinks iterate over. */
  function Stripped(s: Snapshot): (r: Snapshot)
    ensures "geohash" !in Keys(r) && "hardwareId" !in Keys(r)
    ensures forall k :: k != "geohash" && k != "hardwareId" ==> Get(r, k) == Get(s, k)
  {
    RemoveKeys(Remove(s, "geohash"), "hardwareId");
    Remove(Remove(s, "geohash"), "hardwareId")
  }

  /** Whatever the snapshot holds under `geohash` or `hardwareId` is gone
      after the pops. */
  lemma StrippedSet(s: Snapshot, k: string, v: Entry)
    requires k == "geohash" || k == "hardwareId"
    ensures Stripped(Set(s, k, v)) == Stripped(s)
  {
    if k == "geohash" {
      RemoveSet(s, "geohash", v);
    } else {
      RemoveSetOther(s, "hardwareId", v, "geohash");
      RemoveSet(Remove(s, "geohash"), "hardwareId", v);
    }
  }

  // ---------------------------------------------------------------------
  // HTTP

  /** What `requests.post` gave back: a response's status code, or an
      exception raised before any response arrived. */
  datatype PostResult = Status(code: int) | TransportError

  /** Both sinks count only a 2xx status as success (`response.ok` would
      also let 3xx through). */
  predicate IsSuccess(code: int) {
    200 <= code <= 299
  }

  // ---------------------------------------------------------------------
  // Text

  /** A configuration value read from the device's TOML file: text or an integer. */
  datatype Setting = Text(t: string) | Int(i: int)

  /** `"{}".format()` of a configuration value. */
  function FormatSetting(x: Setting): string {
    match x
    case Text(t) => t
    case Int(i) => IntToString(i)
  }

  /** `str()` / `"{}".format()` of a scalar. */
  function Render(x: Scalar): string {
    match x
    case Str(s) => s
    case Num(t) => t
    case Null => "None"
  }

  predicate IsDigit(c: char) { '0' <= c <= '9' }

  function DigitChar(d: nat): (c: char)
    requires d < 10
    ensures IsDigit(c)
  {
    ['0', '1', '2', '3', '4', '5', '6', '7', '8', '9'][d]
  }

  /** `str(n)` for a natural number: its decimal digits, no leading zero. */
  function NatToString(n: nat): (s: string)
    ensures |s| > 0 && forall i :: 0 <= i < |s| ==> IsDigit(s[i])
    ensures n > 0 ==> s[0] != '0'
    decreases n
  {
    if n < 10 then [DigitChar(n)] else NatToString(n / 10) + [DigitChar(n % 10)]
  }

  /** `str(i)` for an integer. */
  function IntToString(i: int): (s: string)
    ensures |s| > 0
    ensures i >= 0 ==> forall k :: 0 <= k < |s| ==> IsDigit(s[k])
    ensures i < 0 ==> s[0] == '-' && forall k :: 1 <= k < |s| ==> IsDigit(s[k])
  {
    if i < 0 then "-" + NatToString(-i) else NatToString(i)
  }

  /** The value of a string of decimal digits. */
  function DecimalValue(s: string): nat {
    if s == [] then 0
    else
      var c := s[|s| - 1];
      DecimalValue(s[..|s| - 1]) * 10 + (if IsDigit(c) then (c as int - '0' as int) else 0)
  }

  lemma DigitCharValue(d: nat)
    requires d < 10
    ensures DigitChar(d) as int - '0' as int == d
  {
  }

  /** The decimal digits of `n` read back as `n`. */
  lemma {:induction false} NatToStringValue(n: nat)
    ensures DecimalValue(NatToString(n)) == n
    decreases n
  {
    DigitCharValue(n % 10);
    if n >= 10 {
      NatToStringValue(n / 10);
      var s := NatToString(n);
      assert s[..|s| - 1] == NatToString(n / 10);
    } else {
      assert NatToString(n)[..0] == [];
    }
  }

  /** Python's `int(x)` on a real quantity held as a whole count of `unit`s:
      truncation toward zero (Dafny's `/` is Euclidean, so negatives are
      written out). */
  function TruncDiv(x: int, unit: nat): (q: int)
    requires unit > 0
    ensures x >= 0 ==> q * unit <= x < (q + 1) * unit
    ensures x < 0 ==> (q - 1) * unit < x <= q * unit
  {
    if x >= 0 then x / unit else -((-x) / unit)
  }
}
