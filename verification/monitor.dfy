/** The threshold-violation and movement detector (hooks/use-alert-monitoring.ts).

    One monitor instance owns two pieces of state: the set of active alert keys
    `"{deviceId}-{type}"` and the last position of every online device. Each
    device snapshot runs one pass over the devices in order; for each device it
    checks the four metrics and then movement. Every alert it tries to create is
    an `addAlert` write; whether that write resolves or throws is the answer of
    the pass's oracle `ok` for the alert written. */
module AlertMonitor {
  import opened Wrappers
  import opened Types

  /** Movement beyond this many meters raises a location alert. */
  const MovementLimit: real := 5.0

  /** What the monitor calls but the model does not define: `calculateDistance`
      (a haversine over floats, NaN for NaN input), `Number.prototype.toString`
      and `toFixed(2)`. */
  datatype Env = Env(distance: (Num, Num, Num, Num) -> Num, numText: real -> string, fixed2: real -> string)

  datatype Position = Position(lat: Num, lon: Num)

  /** The monitor's state: active alert keys and cached positions. */
  datatype Monitor = Monitor(active: set<string>, positions: map<string, Position>)

  /** A freshly mounted monitor. */
  const Fresh: Monitor := Monitor({}, map[])

  /** The result of processing part of a snapshot: the new state and the
      alerts whose writes were attempted, in order. */
  datatype Step = Step(monitor: Monitor, writes: seq<AlertDraft>)

  /** The de-duplication key of an alert type on a device. */
  function Key(deviceId: string, k: Kind): string {
    deviceId + "-" + KindName(k)
  }

  function PositionOf(d: Device): Position {
    Position(d.latitude, d.longitude)
  }

  // ---------------------------------------------------------------------------
  // Keys
  // ---------------------------------------------------------------------------

  lemma NoDashInKindName(k: Kind)
    ensures '-' !in KindName(k)
  {
  }

  /** The index of the last '-' in `x`, or -1 when there is none. */
  function LastDash(x: string): int
    decreases |x|
  {
    if |x| == 0 then -1 else if x[|x| - 1] == '-' then |x| - 1 else LastDash(x[..|x| - 1])
  }

  /** In `a + "-" + tail` with no '-' in `tail`, the last '-' is the one after `a`. */
  lemma {:induction false} LastDashOf(a: string, tail: string)
    requires '-' !in tail
    ensures LastDash(a + "-" + tail) == |a|
    decreases |tail|
  {
    var x := a + "-" + tail;
    if |tail| == 0 {
      assert x[|x| - 1] == '-';
    } else {
      assert x[|x| - 1] == tail[|tail| - 1];
      assert x[..|x| - 1] == a + "-" + tail[..|tail| - 1];
      LastDashOf(a, tail[..|tail| - 1]);
    }
  }

  /** Alert keys never collide: a key determines its device and its type. */
  lemma KeyInjective(a: string, ka: Kind, b: string, kb: Kind)
    ensures Key(a, ka) == Key(b, kb) <==> a == b && ka == kb
  {
    if Key(a, ka) == Key(b, kb) {
      var x := Key(a, ka);
      NoDashInKindName(ka);
      NoDashInKindName(kb);
      LastDashOf(a, KindName(ka));
      LastDashOf(b, KindName(kb));
      assert a == x[..|a|] == b;
      assert KindName(ka) == x[|a| + 1..] == KindName(kb);
    }
  }

  // ---------------------------------------------------------------------------
  // Counting the writes of a pass
  // ---------------------------------------------------------------------------

  /** The alert is of type `k` on device `id`. */
  predicate About(a: AlertDraft, id: string, k: Kind) {
    a.deviceId == id && a.kind == k
  }

  /** The number of writes attempted for type `k` on device `id`. */
  function CountFor(ws: seq<AlertDraft>, id: string, k: Kind): nat
    decreases |ws|
  {
    if |ws| == 0 then 0 else (if About(ws[0], id, k) then 1 else 0) + CountFor(ws[1..], id, k)
  }

  /** The number of those writes that resolved. */
  function SuccessesFor(ws: seq<AlertDraft>, id: string, k: Kind, ok: AlertDraft -> bool): nat
    decreases |ws|
  {
    if |ws| == 0 then 0 else (if About(ws[0], id, k) && ok(ws[0]) then 1 else 0) + SuccessesFor(ws[1..], id, k, ok)
  }

  lemma {:induction false} CountsAppend(a: seq<AlertDraft>, b: seq<AlertDraft>, id: string, k: Kind, ok: AlertDraft -> bool)
    ensures CountFor(a + b, id, k) == CountFor(a, id, k) + CountFor(b, id, k)
    ensures SuccessesFor(a + b, id, k, ok) == SuccessesFor(a, id, k, ok) + SuccessesFor(b, id, k, ok)
    decreases |a|
  {
    if |a| == 0 {
      assert a + b == b;
    } else {
      assert (a + b)[1..] == a[1..] + b;
      CountsAppend(a[1..], b, id, k, ok);
    }
  }

  /** Successes never exceed attempts, and equal them when every write resolves. */
  lemma {:induction false} SuccessesAtMostCount(ws: seq<AlertDraft>, id: string, k: Kind, ok: AlertDraft -> bool)
    ensures SuccessesFor(ws, id, k, ok) <= CountFor(ws, id, k)
    ensures (forall a :: ok(a)) ==> SuccessesFor(ws, id, k, ok) == CountFor(ws, id, k)
    decreases |ws|
  {
    if |ws| > 0 {
      SuccessesAtMostCount(ws[1..], id, k, ok);
    }
  }

  /** The writes of `ws` that resolved, in order: the alerts the store received. */
  function Resolved(ws: seq<AlertDraft>, ok: AlertDraft -> bool): (r: seq<AlertDraft>)
    ensures |r| <= |ws|
    ensures forall i :: 0 <= i < |r| ==> ok(r[i]) && r[i] in ws
    decreases |ws|
  {
    if |ws| == 0 then []
    else if ok(ws[0]) then [ws[0]] + Resolved(ws[1..], ok)
    else Resolved(ws[1..], ok)
  }

  /** The resolved writes of a type on a device are counted by `SuccessesFor`. */
  lemma {:induction false} ResolvedCount(ws: seq<AlertDraft>, id: string, k: Kind, ok: AlertDraft -> bool)
    ensures CountFor(Resolved(ws, ok), id, k) == SuccessesFor(ws, id, k, ok)
    decreases |ws|
  {
    if |ws| > 0 {
      ResolvedCount(ws[1..], id, k, ok);
      if ok(ws[0]) {
        assert ([ws[0]] + Resolved(ws[1..], ok))[1..] == Resolved(ws[1..], ok);
      }
    }
  }

  /** Every write in `ws` is an unacknowledged alert created at `now`. */
  predicate AllStamped(ws: seq<AlertDraft>, now: int)
    decreases |ws|
  {
    |ws| == 0 || (ws[0].createdAt == now && !ws[0].acknowledged && AllStamped(ws[1..], now))
  }

  lemma {:induction false} StampedAppend(a: seq<AlertDraft>, b: seq<AlertDraft>, now: int)
    requires AllStamped(a, now) && AllStamped(b, now)
    ensures AllStamped(a + b, now)
    decreases |a|
  {
    if |a| == 0 {
      assert a + b == b;
    } else {
      assert (a + b)[1..] == a[1..] + b;
      StampedAppend(a[1..], b, now);
    }
  }

  // ---------------------------------------------------------------------------
  // One metric
  // ---------------------------------------------------------------------------

  /** The reading is in violation exactly when it lies outside the closed interval [min, max]. */
  predicate Violates(v: real, b: Bounds)
    ensures Violates(v, b) <==> !(b.min <= v <= b.max)
  {
    v > b.max || v < b.min
  }

  /** Human-readable metric name and unit used in alert messages. */
  function Label(m: Metric): string {
    match m
    case Temperature => "Temperature"
    case Humidity => "Humidity"
    case WindSpeed => "Wind speed"
    case GasLevel => "Gas level"
  }

  function Unit(m: Metric): string {
    match m
    case Temperature => "°C"
    case Humidity => "%"
    case WindSpeed => " m/s"
    case GasLevel => " ppm"
  }

  function ExceededMessage(m: Metric, bound: real, numText: real -> string): string {
    Label(m) + " exceeded maximum threshold of " + numText(bound) + Unit(m)
  }

  function BelowMessage(m: Metric, bound: real, numText: real -> string): string {
    Label(m) + " below minimum threshold of " + numText(bound) + Unit(m)
  }

  /** The alert raised for a breached metric. Its threshold is a bound the
      reading actually breaches, chosen max-first: above `max` reports `max`
      (even when it is also below `min`), otherwise it reports `min`. The
      message follows the same choice. */
  function MetricDraft(d: Device, m: Metric, now: int, env: Env): (a: AlertDraft)
    requires Violates(Reading(d, m), BoundsOf(d.thresholds, m))
    ensures About(a, d.id, m) && a.deviceName == d.name
    ensures a.value == Reading(d, m) && a.createdAt == now && !a.acknowledged
    ensures var b := BoundsOf(d.thresholds, m);
            || (a.value > b.max && a.threshold == b.max && a.message == ExceededMessage(m, b.max, env.numText))
            || (a.value <= b.max && a.value < b.min && a.threshold == b.min && a.message == BelowMessage(m, b.min, env.numText))
  {
    var v := Reading(d, m);
    var b := BoundsOf(d.thresholds, m);
    AlertDraft(
      d.id, d.name, m, v,
      if v > b.max then b.max else b.min,
      if v > b.max then ExceededMessage(m, b.max, env.numText) else BelowMessage(m, b.min, env.numText),
      now, false)
  }

  /** Misconfigured bounds (`min > max`) with a reading above both: the alert
      reports the maximum. */
  lemma MaxFirstWhenMisconfigured(d: Device, m: Metric, now: int, env: Env)
    requires var b := BoundsOf(d.thresholds, m); b.min > b.max && Reading(d, m) > b.max
    ensures MetricDraft(d, m, now, env).threshold == BoundsOf(d.thresholds, m).max
  {
  }

  /** One metric of one device. A breach with no active key issues exactly one
      write; the key is added only if that write resolves. A breach whose key is
      active does nothing. A reading back in range drops only that key. */
  function CheckMetric(active: set<string>, d: Device, m: Metric, now: int, env: Env, ok: AlertDraft -> bool): (r: Step)
    ensures r.monitor.positions == map[]
    ensures |r.writes| <= 1
    ensures (|r.writes| == 1) <==> (Violates(Reading(d, m), BoundsOf(d.thresholds, m)) && Key(d.id, m) !in active)
    ensures |r.writes| == 1 ==> r.writes[0] == MetricDraft(d, m, now, env)
    ensures (Key(d.id, m) in r.monitor.active)
              <==> (Violates(Reading(d, m), BoundsOf(d.thresholds, m)) && (Key(d.id, m) in active || (|r.writes| == 1 && ok(r.writes[0]))))
    ensures r.monitor.active - {Key(d.id, m)} == active - {Key(d.id, m)}
  {
    var key := Key(d.id, m);
    if Violates(Reading(d, m), BoundsOf(d.thresholds, m)) then
      if key in active then Step(Monitor(active, map[]), [])
      else
        var a := MetricDraft(d, m, now, env);
        Step(Monitor(if ok(a) then active + {key} else active, map[]), [a])
    else Step(Monitor(active - {key}, map[]), [])
  }

  // ---------------------------------------------------------------------------
  // Movement
  // ---------------------------------------------------------------------------

  /** The distance an online device moved since its cached position, when that
      position exists and the distance is a number. */
  function Moved(mon: Monitor, d: Device, env: Env): Option<real> {
    if d.status == Online && d.id in mon.positions then
      var p := mon.positions[d.id];
      match env.distance(p.lat, p.lon, d.latitude, d.longitude)
      case Val(x) => Some(x)
      case NaN => None
    else None
  }

  function LocationDraft(d: Device, distance: real, now: int, env: Env): (a: AlertDraft)
    ensures About(a, d.id, Location) && a.deviceName == d.name && a.value == distance
    ensures a.threshold == MovementLimit && a.createdAt == now && !a.acknowledged
  {
    AlertDraft(d.id, d.name, Location, distance, MovementLimit,
               "Device moved " + env.fixed2(distance) + " meters from its previous location", now, false)
  }

  /** Movement check of one device. Offline devices are untouched. An online
      device with a cached position that moved strictly more than 5 meters
      issues one write when its location key is absent. Its position is cached
      whether or not an alert fired, and its location key is never removed. */
  function CheckLocation(mon: Monitor, d: Device, now: int, env: Env, ok: AlertDraft -> bool): (r: Step)
    ensures d.status == Offline ==> r == Step(mon, [])
    ensures d.status == Online ==> r.monitor.positions == mon.positions[d.id := PositionOf(d)]
    ensures |r.writes| <= 1
    ensures (|r.writes| == 1)
              <==> (Moved(mon, d, env).Some? && Moved(mon, d, env).value > MovementLimit && Key(d.id, Location) !in mon.active)
    ensures |r.writes| == 1 ==> r.writes[0] == LocationDraft(d, Moved(mon, d, env).value, now, env)
    ensures (Key(d.id, Location) in r.monitor.active)
              <==> (Key(d.id, Location) in mon.active || (|r.writes| == 1 && ok(r.writes[0])))
    ensures r.monitor.active - {Key(d.id, Location)} == mon.active - {Key(d.id, Location)}
  {
    if d.status == Offline then Step(mon, [])
    else
      var key := Key(d.id, Location);
      var positions := mon.positions[d.id := PositionOf(d)];
      var moved := Moved(mon, d, env);
      if moved.Some? && moved.value > MovementLimit && key !in mon.active then
        var a := LocationDraft(d, moved.value, now, env);
        Step(Monitor(if ok(a) then mon.active + {key} else mon.active, positions), [a])
      else Step(Monitor(mon.active, positions), [])
  }

  // ---------------------------------------------------------------------------
  // One device, one pass
  // ---------------------------------------------------------------------------

  /** The metrics in the order the monitor checks them. */
  const Metrics: seq<Metric> := [Temperature, Humidity, WindSpeed, GasLevel]

  /** The position of `m` in `Metrics`. */
  function MetricIndex(m: Metric): (i: int)
    ensures 0 <= i < |Metrics| && Metrics[i] == m
  {
    match m
    case Temperature => 0
    case Humidity => 1
    case WindSpeed => 2
    case GasLevel => 3
  }

  /** The four metrics are checked once each. */
  lemma MetricsDistinct(j: int)
    requires 0 <= j < |Metrics|
    ensures forall i :: 0 <= i < |Metrics| && i != j ==> Metrics[i] != Metrics[j]
  {
  }

  /** The metric checks `ms` of one device, in order. */
  function CheckMetrics(active: set<string>, d: Device, ms: seq<Metric>, now: int, env: Env, ok: AlertDraft -> bool): (r: Step)
    ensures r.monitor.positions == map[]
    ensures |r.writes| <= |ms|
    ensures AllStamped(r.writes, now)
    decreases |ms|
  {
    if |ms| == 0 then Step(Monitor(active, map[]), [])
    else
      var first := CheckMetric(active, d, ms[0], now, env, ok);
      var rest := CheckMetrics(first.monitor.active, d, ms[1..], now, env, ok);
      StampedAppend(first.writes, rest.writes, now);
      Step(rest.monitor, first.writes + rest.writes)
  }

  /** The five checks of one device, in the source's order: temperature,
      humidity, wind speed, gas level, then movement. At most one write per
      check; positions change only for an online device. */
  function CheckDevice(mon: Monitor, d: Device, now: int, env: Env, ok: AlertDraft -> bool): (r: Step)
    ensures |r.writes| <= 5
    ensures AllStamped(r.writes, now)
    ensures d.status == Online ==> r.monitor.positions == mon.positions[d.id := PositionOf(d)]
    ensures d.status == Offline ==> r.monitor.positions == mon.positions
  {
    var g := CheckMetrics(mon.active, d, Metrics, now, env, ok);
    var l := CheckLocation(Monitor(g.monitor.active, mon.positions), d, now, env, ok);
    StampedAppend(g.writes, l.writes, now);
    Step(l.monitor, g.writes + l.writes)
  }

  /** The devices of a snapshot, in array order. */
  function RunPass(mon: Monitor, ds: seq<Device>, now: int, env: Env, ok: AlertDraft -> bool): (r: Step)
    ensures |r.writes| <= 5 * |ds|
    ensures AllStamped(r.writes, now)
    decreases |ds|
  {
    if |ds| == 0 then Step(mon, [])
    else
      var first := CheckDevice(mon, ds[0], now, env, ok);
      var rest := RunPass(first.monitor, ds[1..], now, env, ok);
      StampedAppend(first.writes, rest.writes, now);
      Step(rest.monitor, first.writes + rest.writes)
  }

  /** One run of the monitoring effect on a device snapshot taken at `now`:
      an empty device list runs nothing. */
  function OnSnapshot(mon: Monitor, ds: seq<Device>, now: int, env: Env, ok: AlertDraft -> bool): (r: Step)
    ensures |ds| == 0 ==> r == Step(mon, [])
    ensures AllStamped(r.writes, now)
  {
    if |ds| > 0 then RunPass(mon, ds, now, env, ok) else Step(mon, [])
  }

  // ---------------------------------------------------------------------------
  // Facts about one device step
  // ---------------------------------------------------------------------------

  /** A metric check writes only for its own device and type. */
  lemma CheckMetricCounts(active: set<string>, d: Device, m: Metric, now: int, env: Env, ok: AlertDraft -> bool, id: string, k: Kind)
    ensures var r := CheckMetric(active, d, m, now, env, ok);
            && CountFor(r.writes, id, k) == (if id == d.id && k == m then |r.writes| else 0)
            && SuccessesFor(r.writes, id, k, ok) == (if id == d.id && k == m && |r.writes| == 1 && ok(r.writes[0]) then 1 else 0)
  {
    var r := CheckMetric(active, d, m, now, env, ok);
    if |r.writes| == 1 {
      assert r.writes[1..] == [];
    }
  }

  /** A movement check writes only for its own device's location. */
  lemma CheckLocationCounts(mon: Monitor, d: Device, now: int, env: Env, ok: AlertDraft -> bool, id: string, k: Kind)
    ensures var r := CheckLocation(mon, d, now, env, ok);
            && CountFor(r.writes, id, k) == (if id == d.id && k == Location then |r.writes| else 0)
            && SuccessesFor(r.writes, id, k, ok) == (if id == d.id && k == Location && |r.writes| == 1 && ok(r.writes[0]) then 1 else 0)
  {
    var r := CheckLocation(mon, d, now, env, ok);
    if |r.writes| == 1 {
      assert r.writes[1..] == [];
    }
  }

  /** A metric check leaves every other key as it was. */
  lemma CheckMetricOtherKey(active: set<string>, d: Device, m: Metric, now: int, env: Env, ok: AlertDraft -> bool, key: string)
    requires key != Key(d.id, m)
    ensures key in CheckMetric(active, d, m, now, env, ok).monitor.active <==> key in active
  {
    var r := CheckMetric(active, d, m, now, env, ok);
    assert key in r.monitor.active - {Key(d.id, m)} <==> key in active - {Key(d.id, m)};
  }

  /** A movement check leaves every other key as it was. */
  lemma CheckLocationOtherKey(mon: Monitor, d: Device, now: int, env: Env, ok: AlertDraft -> bool, key: string)
    requires key != Key(d.id, Location)
    ensures key in CheckLocation(mon, d, now, env, ok).monitor.active <==> key in mon.active
  {
    var r := CheckLocation(mon, d, now, env, ok);
    assert key in r.monitor.active - {Key(d.id, Location)} <==> key in mon.active - {Key(d.id, Location)};
  }

  /** Metric checks leave alone every key that is not one of theirs. */
  lemma {:induction false} CheckMetricsFrame(active: set<string>, d: Device, ms: seq<Metric>, now: int, env: Env, ok: AlertDraft -> bool,
                                           id: string, k: Kind)
    requires id != d.id || forall i :: 0 <= i < |ms| ==> ms[i] != k
    ensures var r := CheckMetrics(active, d, ms, now, env, ok);
            && (Key(id, k) in r.monitor.active <==> Key(id, k) in active)
            && CountFor(r.writes, id, k) == 0 && SuccessesFor(r.writes, id, k, ok) == 0
    decreases |ms|
  {
    if |ms| > 0 {
      var first := CheckMetric(active, d, ms[0], now, env, ok);
      var rest := CheckMetrics(first.monitor.active, d, ms[1..], now, env, ok);
      KeyInjective(id, k, d.id, ms[0]);
      CheckMetricOtherKey(active, d, ms[0], now, env, ok, Key(id, k));
      CheckMetricCounts(active, d, ms[0], now, env, ok, id, k);
      CheckMetricsFrame(first.monitor.active, d, ms[1..], now, env, ok, id, k);
      CountsAppend(first.writes, rest.writes, id, k, ok);
    }
  }

  /** Among distinct metric checks, metric `ms[j]` behaves as its own check alone. */
  lemma {:induction false} CheckMetricsOwn(active: set<string>, d: Device, ms: seq<Metric>, now: int, env: Env, ok: AlertDraft -> bool, j: int)
    requires 0 <= j < |ms| && forall i :: 0 <= i < |ms| && i != j ==> ms[i] != ms[j]
    ensures var r := CheckMetrics(active, d, ms, now, env, ok);
            var m := ms[j];
            var key := Key(d.id, m);
            var breached := Violates(Reading(d, m), BoundsOf(d.thresholds, m));
            && CountFor(r.writes, d.id, m) == (if breached && key !in active then 1 else 0)
            && (key in r.monitor.active <==> breached && (key in active || SuccessesFor(r.writes, d.id, m, ok) > 0))
    decreases |ms|
  {
    var first := CheckMetric(active, d, ms[0], now, env, ok);
    var rest := CheckMetrics(first.monitor.active, d, ms[1..], now, env, ok);
    CheckMetricCounts(active, d, ms[0], now, env, ok, d.id, ms[j]);
    if j == 0 {
      CheckMetricsFrame(first.monitor.active, d, ms[1..], now, env, ok, d.id, ms[0]);
    } else {
      KeyInjective(d.id, ms[0], d.id, ms[j]);
      CheckMetricOtherKey(active, d, ms[0], now, env, ok, Key(d.id, ms[j]));
      CheckMetricsOwn(first.monitor.active, d, ms[1..], now, env, ok, j - 1);
    }
    CountsAppend(first.writes, rest.writes, d.id, ms[j], ok);
  }

  /** In the four metric checks of a device, metric `m` behaves as its own check alone. */
  lemma AllMetricsOwn(active: set<string>, d: Device, now: int, env: Env, ok: AlertDraft -> bool, m: Metric)
    ensures var r := CheckMetrics(active, d, Metrics, now, env, ok);
            var key := Key(d.id, m);
            var breached := Violates(Reading(d, m), BoundsOf(d.thresholds, m));
            && CountFor(r.writes, d.id, m) == (if breached && key !in active then 1 else 0)
            && (key in r.monitor.active <==> breached && (key in active || SuccessesFor(r.writes, d.id, m, ok) > 0))
  {
    MetricsDistinct(MetricIndex(m));
    CheckMetricsOwn(active, d, Metrics, now, env, ok, MetricIndex(m));
  }

  /** A device step touches only its own keys and writes only its own alerts. */
  lemma CheckDeviceOthers(mon: Monitor, d: Device, now: int, env: Env, ok: AlertDraft -> bool, id: string, k: Kind)
    requires id != d.id
    ensures var r := CheckDevice(mon, d, now, env, ok);
            && (Key(id, k) in r.monitor.active <==> Key(id, k) in mon.active)
            && CountFor(r.writes, id, k) == 0 && SuccessesFor(r.writes, id, k, ok) == 0
  {
    var g := CheckMetrics(mon.active, d, Metrics, now, env, ok);
    var l := CheckLocation(Monitor(g.monitor.active, mon.positions), d, now, env, ok);
    CheckMetricsFrame(mon.active, d, Metrics, now, env, ok, id, k);
    KeyInjective(id, k, d.id, Location);
    CheckLocationOtherKey(Monitor(g.monitor.active, mon.positions), d, now, env, ok, Key(id, k));
    CheckLocationCounts(Monitor(g.monitor.active, mon.positions), d, now, env, ok, id, k);
    CountsAppend(g.writes, l.writes, id, k, ok);
  }

  /** Within a device step, metric `m` of that device behaves as `CheckMetric` alone. */
  lemma CheckDeviceMetric(mon: Monitor, d: Device, now: int, env: Env, ok: AlertDraft -> bool, m: Metric)
    ensures var r := CheckDevice(mon, d, now, env, ok);
            var key := Key(d.id, m);
            var breached := Violates(Reading(d, m), BoundsOf(d.thresholds, m));
            && CountFor(r.writes, d.id, m) == (if breached && key !in mon.active then 1 else 0)
            && (key in r.monitor.active <==> breached && (key in mon.active || SuccessesFor(r.writes, d.id, m, ok) > 0))
  {
    var g := CheckMetrics(mon.active, d, Metrics, now, env, ok);
    var l := CheckLocation(Monitor(g.monitor.active, mon.positions), d, now, env, ok);
    AllMetricsOwn(mon.active, d, now, env, ok, m);
    KeyInjective(d.id, m, d.id, Location);
    CheckLocationOtherKey(Monitor(g.monitor.active, mon.positions), d, now, env, ok, Key(d.id, m));
    CheckLocationCounts(Monitor(g.monitor.active, mon.positions), d, now, env, ok, d.id, m);
    CountsAppend(g.writes, l.writes, d.id, m, ok);
  }

  /** Within a device step, the location key only grows, and at most one
      location write for the device resolves, only while the key was absent. */
  lemma CheckDeviceLocation(mon: Monitor, d: Device, now: int, env: Env, ok: AlertDraft -> bool)
    ensures var r := CheckDevice(mon, d, now, env, ok);
            var key := Key(d.id, Location);
            && (key in mon.active ==> key in r.monitor.active)
            && (if key in mon.active then 1 else 0) + SuccessesFor(r.writes, d.id, Location, ok)
               <= (if key in r.monitor.active then 1 else 0)
  {
    var g := CheckMetrics(mon.active, d, Metrics, now, env, ok);
    var l := CheckLocation(Monitor(g.monitor.active, mon.positions), d, now, env, ok);
    CheckMetricsFrame(mon.active, d, Metrics, now, env, ok, d.id, Location);
    CheckLocationCounts(Monitor(g.monitor.active, mon.positions), d, now, env, ok, d.id, Location);
    CountsAppend(g.writes, l.writes, d.id, Location, ok);
  }

  // ---------------------------------------------------------------------------
  // Facts about a whole pass
  // ---------------------------------------------------------------------------

  /** `ds[j]` is the only device of the snapshot carrying its id. */
  predicate UniqueAt(ds: seq<Device>, j: int) {
    0 <= j < |ds| && forall i :: 0 <= i < |ds| && i != j ==> ds[i].id != ds[j].id
  }

  /** A pass over devices none of which carries `id` leaves that device's keys alone. */
  lemma {:induction false} PassOthers(mon: Monitor, ds: seq<Device>, now: int, env: Env, ok: AlertDraft -> bool, id: string, k: Kind)
    requires forall i :: 0 <= i < |ds| ==> ds[i].id != id
    ensures var r := RunPass(mon, ds, now, env, ok);
            && (Key(id, k) in r.monitor.active <==> Key(id, k) in mon.active)
            && CountFor(r.writes, id, k) == 0 && SuccessesFor(r.writes, id, k, ok) == 0
    decreases |ds|
  {
    if |ds| > 0 {
      var first := CheckDevice(mon, ds[0], now, env, ok);
      var rest := RunPass(first.monitor, ds[1..], now, env, ok);
      CheckDeviceOthers(mon, ds[0], now, env, ok, id, k);
      PassOthers(first.monitor, ds[1..], now, env, ok, id, k);
      CountsAppend(first.writes, rest.writes, id, k, ok);
    }
  }

  /** The contract of a metric key over a pass, as `PassMetricKey` states it. */
  predicate MetricKeyContract(before: Monitor, after: Step, d: Device, m: Metric, ok: AlertDraft -> bool) {
    var key := Key(d.id, m);
    var breached := Violates(Reading(d, m), BoundsOf(d.thresholds, m));
    && CountFor(after.writes, d.id, m) == (if breached && key !in before.active then 1 else 0)
    && (key in after.monitor.active <==> breached && (key in before.active || SuccessesFor(after.writes, d.id, m, ok) > 0))
  }

  /** The device whose key is tracked comes first in the pass. */
  lemma PassMetricKeyHead(mon: Monitor, ds: seq<Device>, now: int, env: Env, ok: AlertDraft -> bool, m: Metric)
    requires UniqueAt(ds, 0)
    ensures MetricKeyContract(mon, RunPass(mon, ds, now, env, ok), ds[0], m, ok)
  {
    var first := CheckDevice(mon, ds[0], now, env, ok);
    var rest := RunPass(first.monitor, ds[1..], now, env, ok);
    CheckDeviceMetric(mon, ds[0], now, env, ok, m);
    PassOthers(first.monitor, ds[1..], now, env, ok, ds[0].id, m);
    CountsAppend(first.writes, rest.writes, ds[0].id, m, ok);
  }

  /** A device other than `d` at the head of the pass does not disturb the
      contract of `d`'s metric key over the rest of the pass. */
  lemma PassMetricKeyStep(mon: Monitor, ds: seq<Device>, now: int, env: Env, ok: AlertDraft -> bool, d: Device, m: Metric)
    requires 0 < |ds| && ds[0].id != d.id
    requires var first := CheckDevice(mon, ds[0], now, env, ok);
             MetricKeyContract(first.monitor, RunPass(first.monitor, ds[1..], now, env, ok), d, m, ok)
    ensures MetricKeyContract(mon, RunPass(mon, ds, now, env, ok), d, m, ok)
  {
    var first := CheckDevice(mon, ds[0], now, env, ok);
    var rest := RunPass(first.monitor, ds[1..], now, env, ok);
    CheckDeviceOthers(mon, ds[0], now, env, ok, d.id, m);
    CountsAppend(first.writes, rest.writes, d.id, m, ok);
  }

  /** The per-pass contract of a metric key. For the only device with its id:
      a breach with no active key issues exactly one write and anything else
      issues none; afterwards the key is active iff the metric is breached and
      the key was already active or the write resolved. */
  lemma {:induction false} PassMetricKey(mon: Monitor, ds: seq<Device>, now: int, env: Env, ok: AlertDraft -> bool, j: int, m: Metric)
    requires UniqueAt(ds, j)
    ensures MetricKeyContract(mon, RunPass(mon, ds, now, env, ok), ds[j], m, ok)
    decreases |ds|
  {
    if j == 0 {
      PassMetricKeyHead(mon, ds, now, env, ok, m);
    } else {
      var first := CheckDevice(mon, ds[0], now, env, ok);
      assert UniqueAt(ds[1..], j - 1);
      PassMetricKey(first.monitor, ds[1..], now, env, ok, j - 1, m);
      assert ds[1..][j - 1] == ds[j];
      PassMetricKeyStep(mon, ds, now, env, ok, ds[j], m);
    }
  }

  /** Over any pass, a device's location key is never removed, and a location
      write for it resolves at most once, only while the key was absent. */
  lemma {:induction false} PassLocationKey(mon: Monitor, ds: seq<Device>, now: int, env: Env, ok: AlertDraft -> bool, id: string)
    ensures var r := RunPass(mon, ds, now, env, ok);
            var key := Key(id, Location);
            && (key in mon.active ==> key in r.monitor.active)
            && (if key in mon.active then 1 else 0) + SuccessesFor(r.writes, id, Location, ok)
               <= (if key in r.monitor.active then 1 else 0)
    decreases |ds|
  {
    if |ds| > 0 {
      var first := CheckDevice(mon, ds[0], now, env, ok);
      var rest := RunPass(first.monitor, ds[1..], now, env, ok);
      if ds[0].id == id {
        CheckDeviceLocation(mon, ds[0], now, env, ok);
      } else {
        CheckDeviceOthers(mon, ds[0], now, env, ok, id, Location);
      }
      PassLocationKey(first.monitor, ds[1..], now, env, ok, id);
      CountsAppend(first.writes, rest.writes, id, Location, ok);
    }
  }

  /** No online device in `ds` carries `id`. */
  predicate NoOnline(ds: seq<Device>, id: string) {
    forall i :: 0 <= i < |ds| && ds[i].status == Online ==> ds[i].id != id
  }

  /** `ds[i]` is the last device of the snapshot carrying its id. */
  predicate LastWithId(ds: seq<Device>, i: int) {
    0 <= i < |ds| && forall j :: i < j < |ds| ==> ds[j].id != ds[i].id
  }

  /** A pass leaves the cache entry of an id that no online device carries
      exactly as it was, present or absent. */
  lemma {:induction false} PassKeepsPosition(mon: Monitor, ds: seq<Device>, now: int, env: Env, ok: AlertDraft -> bool, id: string)
    requires NoOnline(ds, id)
    ensures var p := RunPass(mon, ds, now, env, ok).monitor.positions;
            && (id in p <==> id in mon.positions)
            && (id in p ==> p[id] == mon.positions[id])
    decreases |ds|
  {
    if |ds| > 0 {
      var first := CheckDevice(mon, ds[0], now, env, ok);
      assert NoOnline(ds[1..], id);
      PassKeepsPosition(first.monitor, ds[1..], now, env, ok, id);
    }
  }

  /** A pass caches the position of the device `ds[i]` when it is online and
      no later device carries its id. */
  lemma {:induction false} PassCachesPosition(mon: Monitor, ds: seq<Device>, now: int, env: Env, ok: AlertDraft -> bool, i: int)
    requires LastWithId(ds, i) && ds[i].status == Online
    ensures var p := RunPass(mon, ds, now, env, ok).monitor.positions;
            ds[i].id in p && p[ds[i].id] == PositionOf(ds[i])
    decreases |ds|
  {
    var first := CheckDevice(mon, ds[0], now, env, ok);
    if i > 0 {
      assert LastWithId(ds[1..], i - 1);
      PassCachesPosition(first.monitor, ds[1..], now, env, ok, i - 1);
    } else {
      assert NoOnline(ds[1..], ds[0].id);
      PassKeepsPosition(first.monitor, ds[1..], now, env, ok, ds[0].id);
    }
  }

  // ---------------------------------------------------------------------------
  // Consecutive passes
  // ---------------------------------------------------------------------------

  /** A run of passes, pass `p` on snapshot `snaps[p]` taken at `times[p]`
      with write outcomes `oks[p]`: the final state, every write attempted and
      the writes that resolved (the alerts stored), in order. */
  datatype Run = Run(monitor: Monitor, attempted: seq<AlertDraft>, stored: seq<AlertDraft>)

  function RunAll(mon: Monitor, snaps: seq<seq<Device>>, times: seq<int>, env: Env, oks: seq<AlertDraft -> bool>): (r: Run)
    requires |times| == |snaps| == |oks|
    ensures |snaps| == 0 ==> r == Run(mon, [], [])
    ensures |r.stored| <= |r.attempted|
    decreases |snaps|
  {
    if |snaps| == 0 then Run(mon, [], [])
    else
      var first := OnSnapshot(mon, snaps[0], times[0], env, oks[0]);
      var rest := RunAll(first.monitor, snaps[1..], times[1..], env, oks[1..]);
      Run(rest.monitor, first.writes + rest.attempted, Resolved(first.writes, oks[0]) + rest.stored)
  }

  /** Snapshot `p` holds the device `id` exactly once, at `js[p]`, and its
      metric `m` is in breach there. */
  predicate BreachedThroughout(snaps: seq<seq<Device>>, js: seq<int>, id: string, m: Metric) {
    |js| == |snaps|
    && forall p :: 0 <= p < |snaps| ==>
         && UniqueAt(snaps[p], js[p]) && snaps[p][js[p]].id == id
         && Violates(Reading(snaps[p][js[p]], m), BoundsOf(snaps[p][js[p]].thresholds, m))
  }

  lemma BreachedThroughoutTail(snaps: seq<seq<Device>>, js: seq<int>, id: string, m: Metric)
    requires BreachedThroughout(snaps, js, id, m) && 0 < |snaps|
    ensures BreachedThroughout(snaps[1..], js[1..], id, m)
  {
    forall p | 0 <= p < |snaps| - 1
      ensures && UniqueAt(snaps[1..][p], js[1..][p]) && snaps[1..][p][js[1..][p]].id == id
              && Violates(Reading(snaps[1..][p][js[1..][p]], m), BoundsOf(snaps[1..][p][js[1..][p]].thresholds, m))
    {
      assert snaps[1..][p] == snaps[p + 1] && js[1..][p] == js[p + 1];
    }
  }

  /** Every oracle of the run resolves every write. */
  ghost predicate AllResolve(oks: seq<AlertDraft -> bool>) {
    forall p, a :: 0 <= p < |oks| ==> oks[p](a)
  }

  lemma AllResolveTail(oks: seq<AlertDraft -> bool>)
    requires AllResolve(oks) && 0 < |oks|
    ensures AllResolve(oks[1..]) && forall a :: oks[0](a)
  {
    forall p, a | 0 <= p < |oks| - 1 ensures oks[1..][p](a) {
      assert oks[1..][p] == oks[p + 1];
    }
  }

  /** A pass in which the device's metric is breached and every write
      resolves ends with the key active, having written the alert once if the
      key was absent and not at all if it was active. */
  lemma BreachWithResolvingWrites(mon: Monitor, ds: seq<Device>, now: int, env: Env, ok: AlertDraft -> bool, j: int, m: Metric)
    requires UniqueAt(ds, j) && Violates(Reading(ds[j], m), BoundsOf(ds[j].thresholds, m))
    requires forall a :: ok(a)
    ensures var r := RunPass(mon, ds, now, env, ok);
            && Key(ds[j].id, m) in r.monitor.active
            && CountFor(r.writes, ds[j].id, m) == (if Key(ds[j].id, m) in mon.active then 0 else 1)
  {
    PassMetricKey(mon, ds, now, env, ok, j, m);
    SuccessesAtMostCount(RunPass(mon, ds, now, env, ok).writes, ds[j].id, m, ok);
  }

  /** While a metric stays in breach across consecutive snapshots and writes
      resolve, exactly one alert is written for it, however many snapshots
      arrive: one if its key was absent at the start, none if it was active. */
  lemma {:induction false} OneAlertPerBreach(mon: Monitor, snaps: seq<seq<Device>>, times: seq<int>, env: Env, oks: seq<AlertDraft -> bool>,
                                            js: seq<int>, id: string, m: Metric)
    requires |times| == |snaps| == |oks| && 0 < |snaps|
    requires BreachedThroughout(snaps, js, id, m) && AllResolve(oks)
    ensures CountFor(RunAll(mon, snaps, times, env, oks).attempted, id, m) == (if Key(id, m) in mon.active then 0 else 1)
    decreases |snaps|
  {
    var first := OnSnapshot(mon, snaps[0], times[0], env, oks[0]);
    var rest := RunAll(first.monitor, snaps[1..], times[1..], env, oks[1..]);
    AllResolveTail(oks);
    BreachWithResolvingWrites(mon, snaps[0], times[0], env, oks[0], js[0], m);
    if |snaps| > 1 {
      BreachedThroughoutTail(snaps, js, id, m);
      OneAlertPerBreach(first.monitor, snaps[1..], times[1..], env, oks[1..], js[1..], id, m);
    }
    CountsAppend(first.writes, rest.attempted, id, m, oks[0]);
  }

  /** A reading back in range re-arms its key: after a recovery snapshot, the
      next breach writes a new alert. */
  lemma RecoveryRearms(mon: Monitor, ds1: seq<Device>, j1: int, ds2: seq<Device>, j2: int, t1: int, t2: int, env: Env,
                       ok1: AlertDraft -> bool, ok2: AlertDraft -> bool, m: Metric)
    requires UniqueAt(ds1, j1) && UniqueAt(ds2, j2) && ds1[j1].id == ds2[j2].id
    requires !Violates(Reading(ds1[j1], m), BoundsOf(ds1[j1].thresholds, m))
    requires Violates(Reading(ds2[j2], m), BoundsOf(ds2[j2].thresholds, m))
    ensures var mid := OnSnapshot(mon, ds1, t1, env, ok1);
            && Key(ds1[j1].id, m) !in mid.monitor.active
            && CountFor(OnSnapshot(mid.monitor, ds2, t2, env, ok2).writes, ds1[j1].id, m) == 1
  {
    PassMetricKey(mon, ds1, t1, env, ok1, j1, m);
    var mid := OnSnapshot(mon, ds1, t1, env, ok1);
    PassMetricKey(mid.monitor, ds2, t2, env, ok2, j2, m);
  }

  /** A breach whose write throws leaves the key absent, so the next snapshot
      that still breaches writes the alert again. */
  lemma FailedWriteRetried(mon: Monitor, ds1: seq<Device>, j1: int, ds2: seq<Device>, j2: int, t1: int, t2: int, env: Env,
                           ok1: AlertDraft -> bool, ok2: AlertDraft -> bool, m: Metric)
    requires UniqueAt(ds1, j1) && UniqueAt(ds2, j2) && ds1[j1].id == ds2[j2].id
    requires Key(ds1[j1].id, m) !in mon.active
    requires Violates(Reading(ds2[j2], m), BoundsOf(ds2[j2].thresholds, m))
    requires SuccessesFor(OnSnapshot(mon, ds1, t1, env, ok1).writes, ds1[j1].id, m, ok1) == 0
    ensures CountFor(OnSnapshot(OnSnapshot(mon, ds1, t1, env, ok1).monitor, ds2, t2, env, ok2).writes, ds1[j1].id, m) == 1
  {
    PassMetricKey(mon, ds1, t1, env, ok1, j1, m);
    var mid := OnSnapshot(mon, ds1, t1, env, ok1);
    PassMetricKey(mid.monitor, ds2, t2, env, ok2, j2, m);
  }

  /** Over any run, at most one location alert for a device is ever stored,
      and none if its location key was already active; the key is never
      removed. */
  lemma {:induction false} AtMostOneLocationAlert(mon: Monitor, snaps: seq<seq<Device>>, times: seq<int>, env: Env,
                                                 oks: seq<AlertDraft -> bool>, id: string)
    requires |times| == |snaps| == |oks|
    ensures var r := RunAll(mon, snaps, times, env, oks);
            && (Key(id, Location) in mon.active ==> Key(id, Location) in r.monitor.active)
            && (if Key(id, Location) in mon.active then 1 else 0) + CountFor(r.stored, id, Location)
               <= (if Key(id, Location) in r.monitor.active then 1 else 0)
    decreases |snaps|
  {
    if |snaps| > 0 {
      var first := OnSnapshot(mon, snaps[0], times[0], env, oks[0]);
      var rest := RunAll(first.monitor, snaps[1..], times[1..], env, oks[1..]);
      if |snaps[0]| > 0 {
        PassLocationKey(mon, snaps[0], times[0], env, oks[0], id);
      }
      ResolvedCount(first.writes, id, Location, oks[0]);
      AtMostOneLocationAlert(first.monitor, snaps[1..], times[1..], env, oks[1..], id);
      CountsAppend(Resolved(first.writes, oks[0]), rest.stored, id, Location, oks[0]);
    }
  }
}
