/** The three ways the pages classify one reading against its `{min, max}` pair: the
    thresholds page (app/thresholds/page.tsx), the device detail modal
    (components/devices/device-detail-modal.tsx) and the enhanced detail modal
    (components/devices/enhanced-device-detail-modal.tsx). They test in different
    orders, and only the last has a middle band. */
module Classifiers {
  import opened Types
  import AlertMonitor
  import Dashboard

  // ---------------------------------------------------------------------------
  // The thresholds page
  // ---------------------------------------------------------------------------

  datatype Verdict = Violation | Normal

  /** `getThresholdStatus` of the thresholds page. */
  function ThresholdStatus(v: real, b: Bounds): (r: Verdict)
    ensures r == Normal <==> b.min <= v <= b.max
  {
    if v < b.min || v > b.max then Violation else Normal
  }

  /** The thresholds page flags a metric exactly when the monitor would alert on it. */
  lemma ThresholdsPageAgreesWithMonitor(d: Device, m: Metric)
    ensures ThresholdStatus(Reading(d, m), BoundsOf(d.thresholds, m)) == Violation
            <==> AlertMonitor.Violates(Reading(d, m), BoundsOf(d.thresholds, m))
  {
  }

  // ---------------------------------------------------------------------------
  // The detail modal: below is checked first
  // ---------------------------------------------------------------------------

  datatype SensorStatus = BelowThreshold | AboveThreshold | InRange

  /** `getSensorStatus`: "Below Threshold", "Above Threshold" or "Normal". */
  function SensorStatusOf(v: real, b: Bounds): (r: SensorStatus)
    ensures r == BelowThreshold <==> v < b.min
    ensures r == AboveThreshold <==> b.min <= v && v > b.max
    ensures r == InRange <==> b.min <= v <= b.max
  {
    if v < b.min then BelowThreshold
    else if v > b.max then AboveThreshold
    else InRange
  }

  /** With the bounds the wrong way round, a reading between them is "below" for the
      modal while the monitor's alert names the upper bound as the one exceeded. */
  lemma ModalAndMonitorDisagree(d: Device, m: Metric, now: int, env: AlertMonitor.Env)
    requires var b := BoundsOf(d.thresholds, m); b.max < Reading(d, m) < b.min
    ensures SensorStatusOf(Reading(d, m), BoundsOf(d.thresholds, m)) == BelowThreshold
    ensures AlertMonitor.MetricDraft(d, m, now, env).threshold == BoundsOf(d.thresholds, m).max
  {
    AlertMonitor.MaxFirstWhenMisconfigured(d, m, now, env);
  }

  // ---------------------------------------------------------------------------
  // The enhanced detail modal: critical, warning, normal
  // ---------------------------------------------------------------------------

  datatype Severity = Critical | Warning | Fine

  /** The enhanced modal's `getThresholdStatus`. The warning band is in range, below
      110% of the minimum and above 90% of the maximum. */
  function SeverityOf(v: real, b: Bounds): (r: Severity)
    ensures r == Critical <==> v < b.min || v > b.max
    ensures r == Warning <==> b.min <= v <= b.max && v < 1.1 * b.min && v > 0.9 * b.max
    ensures r == Fine <==> b.min <= v <= b.max && !(v < 1.1 * b.min && v > 0.9 * b.max)
  {
    if v < b.min || v > b.max then Critical
    else if v < b.min * 1.1 && v > b.max * 0.9 then Warning
    else Fine
  }

  /** A non-positive minimum leaves no room for a warning: below 110% of such a
      minimum is already below the minimum. */
  lemma NoWarningWithoutPositiveMin(v: real, b: Bounds)
    requires b.min <= 0.0
    ensures SeverityOf(v, b) != Warning
  {
  }

  /** A warning needs a positive minimum and a reading in range near it. With the
      usual bounds, say 0 to 100 for humidity, it never appears. */
  lemma WarningBand(v: real, b: Bounds)
    requires SeverityOf(v, b) == Warning
    ensures 0.0 < b.min && b.min <= v < 1.1 * b.min
  {
  }

  /** The four statuses the enhanced modal shows, each from its own metric and bounds. */
  datatype DeviceSeverity = DeviceSeverity(temperature: Severity, humidity: Severity, windSpeed: Severity, gasLevel: Severity)

  function Of(s: DeviceSeverity, m: Metric): Severity {
    match m
    case Temperature => s.temperature
    case Humidity => s.humidity
    case WindSpeed => s.windSpeed
    case GasLevel => s.gasLevel
  }

  function DeviceSeverityOf(d: Device): (s: DeviceSeverity)
    ensures forall m: Metric :: Of(s, m) == SeverityOf(Reading(d, m), BoundsOf(d.thresholds, m))
  {
    DeviceSeverity(
      SeverityOf(d.temperature, d.thresholds.temperature),
      SeverityOf(d.humidity, d.thresholds.humidity),
      SeverityOf(d.windSpeed, d.thresholds.windSpeed),
      SeverityOf(d.gasLevel, d.thresholds.gasLevel))
  }

  /** The modal shows a critical metric exactly for the devices the dashboard counts
      as outside their limits. */
  lemma ModalCriticalMatchesDashboard(d: Device)
    ensures (exists m: Metric :: Of(DeviceSeverityOf(d), m) == Critical) <==> Dashboard.OutsideLimits(d)
  {
    Dashboard.OutsideLimitsIsSomeViolation(d);
    var s := DeviceSeverityOf(d);
    if Dashboard.OutsideLimits(d) {
      var m: Metric :| InViolation(d, m);
      assert Of(s, m) == Critical;
    }
  }
}
