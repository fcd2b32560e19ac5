/** The two record types every component works on: a monitored `Device` and the
    `Alert` raised against it (types/device.ts), with the value types they are made of. */
module Types {
  import opened Wrappers

  /** The five alert types. The first four are also the metrics a device reports. */
  datatype Kind = Temperature | Humidity | WindSpeed | GasLevel | Location

  /** The four numeric metrics of a device. */
  type Metric = k: Kind | !k.Location? witness Temperature

  /** The string tag the source stores in `Alert.type` and uses in alert keys. */
  function KindName(k: Kind): string {
    match k
    case Temperature => "temperature"
    case Humidity => "humidity"
    case WindSpeed => "windSpeed"
    case GasLevel => "gasLevel"
    case Location => "location"
  }

  /** The alert type a tag names, if any (the partner of `KindName`). */
  function ParseKind(s: string): (r: Option<Kind>)
    ensures r.Some? ==> KindName(r.value) == s
    ensures r.None? ==> forall k: Kind :: KindName(k) != s
  {
    if s == "temperature" then Some(Temperature)
    else if s == "humidity" then Some(Humidity)
    else if s == "windSpeed" then Some(WindSpeed)
    else if s == "gasLevel" then Some(GasLevel)
    else if s == "location" then Some(Location)
    else None
  }

  /** Device status is one of exactly two values. */
  datatype Status = Online | Offline

  /** A JavaScript number that may be NaN. Coordinates use it, because the
      add-device form stores whatever `parseFloat` returns. */
  datatype Num = NaN | Val(r: real)

  /** A `{min, max}` threshold pair. Nothing requires `min <= max`. */
  datatype Bounds = Bounds(min: real, max: real)

  datatype Thresholds = Thresholds(temperature: Bounds, humidity: Bounds, windSpeed: Bounds, gasLevel: Bounds)

  /** A monitored device; `lastUpdated` is a time in milliseconds. */
  datatype Device = Device(
    id: string,
    name: string,
    temperature: real,
    humidity: real,
    windSpeed: real,
    gasLevel: real,
    latitude: Num,
    longitude: Num,
    status: Status,
    lastUpdated: int,
    thresholds: Thresholds)

  /** The current reading of metric `m`. */
  function Reading(d: Device, m: Metric): real {
    match m
    case Temperature => d.temperature
    case Humidity => d.humidity
    case WindSpeed => d.windSpeed
    case GasLevel => d.gasLevel
  }

  /** The threshold pair configured for metric `m`. */
  function BoundsOf(t: Thresholds, m: Metric): Bounds {
    match m
    case Temperature => t.temperature
    case Humidity => t.humidity
    case WindSpeed => t.windSpeed
    case GasLevel => t.gasLevel
  }

  /** The one out-of-range test every page shares: strictly below `min` or strictly above `max`. */
  predicate OutOfRange(v: real, b: Bounds) {
    v < b.min || v > b.max
  }

  /** Metric `m` of device `d` breaches its own thresholds. */
  predicate InViolation(d: Device, m: Metric) {
    OutOfRange(Reading(d, m), BoundsOf(d.thresholds, m))
  }

  /** An alert as written by its creator, before the store assigns an id
      (`Omit<Alert, 'id'>`). */
  datatype AlertDraft = AlertDraft(
    deviceId: string,
    deviceName: string,
    kind: Kind,
    value: real,
    threshold: real,
    message: string,
    createdAt: int,
    acknowledged: bool)

  /** A stored alert. `acknowledged` is always present; `acknowledgedAt` is optional. */
  datatype Alert = Alert(
    id: string,
    deviceId: string,
    deviceName: string,
    kind: Kind,
    value: real,
    threshold: real,
    message: string,
    createdAt: int,
    acknowledged: bool,
    acknowledgedAt: Option<int>)

  /** The stored form of a draft under the id the store assigned. */
  function Stored(id: string, a: AlertDraft): Alert {
    Alert(id, a.deviceId, a.deviceName, a.kind, a.value, a.threshold, a.message, a.createdAt, a.acknowledged, None)
  }

  /** A `Partial<Device>` update: every present field replaces the stored one.
      (`id` and `lastUpdated` are set by the stores themselves.) */
  datatype DevicePatch = DevicePatch(
    name: Option<string>,
    temperature: Option<real>,
    humidity: Option<real>,
    windSpeed: Option<real>,
    gasLevel: Option<real>,
    latitude: Option<Num>,
    longitude: Option<Num>,
    status: Option<Status>,
    thresholds: Option<Thresholds>)

  /** The update `{status}` the liveness evaluator sends. */
  function StatusPatch(s: Status): DevicePatch {
    DevicePatch(None, None, None, None, None, None, None, Some(s), None)
  }

  /** The update `{thresholds}` the thresholds editor sends. */
  function ThresholdsPatch(t: Thresholds): DevicePatch {
    DevicePatch(None, None, None, None, None, None, None, None, Some(t))
  }

  /** `{...d, ...p}`: the fields present in `p` win, all others are kept. */
  function Merge(d: Device, p: DevicePatch): Device {
    Device(
      d.id,
      p.name.GetOr(d.name),
      p.temperature.GetOr(d.temperature),
      p.humidity.GetOr(d.humidity),
      p.windSpeed.GetOr(d.windSpeed),
      p.gasLevel.GetOr(d.gasLevel),
      p.latitude.GetOr(d.latitude),
      p.longitude.GetOr(d.longitude),
      p.status.GetOr(d.status),
      d.lastUpdated,
      p.thresholds.GetOr(d.thresholds))
  }

  /** A device as submitted for creation (`Omit<Device, 'id' | 'lastUpdated'>`). */
  datatype DeviceDraft = DeviceDraft(
    name: string,
    temperature: real,
    humidity: real,
    windSpeed: real,
    gasLevel: real,
    latitude: Num,
    longitude: Num,
    status: Status,
    thresholds: Thresholds)

  /** The device a store creates from a draft, under `id`, stamped at `now`. */
  function Created(id: string, d: DeviceDraft, now: int): Device {
    Device(id, d.name, d.temperature, d.humidity, d.windSpeed, d.gasLevel, d.latitude, d.longitude, d.status, now, d.thresholds)
  }
}
