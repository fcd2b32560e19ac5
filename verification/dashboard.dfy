/** The dashboard's figures (app/page.tsx): active alerts, online and offline devices,
    devices outside their limits, and the recent-alerts card. */
module Dashboard {
  import opened Types
  import opened Lists
  import Notifier

  /** `activeAlerts`: the unacknowledged alerts. */
  function ActiveAlerts(alerts: seq<Alert>): nat {
    Count(alerts, Notifier.IsUnread)
  }

  predicate IsOnline(d: Device) {
    d.status == Online
  }

  predicate IsOffline(d: Device) {
    d.status == Offline
  }

  /** `onlineDevices`. */
  function OnlineDevices(devices: seq<Device>): nat {
    Count(devices, IsOnline)
  }

  /** The offline figure, shown as the total less the online one. */
  function OfflineFigure(devices: seq<Device>): (n: int)
    ensures n == Count(devices, IsOffline)
  {
    CountComplement(devices, IsOnline, IsOffline);
    |devices| - OnlineDevices(devices)
  }

  /** The test the dashboard writes out inline: eight comparisons, two per metric. */
  predicate OutsideLimits(d: Device) {
    || d.temperature > d.thresholds.temperature.max
    || d.temperature < d.thresholds.temperature.min
    || d.humidity > d.thresholds.humidity.max
    || d.humidity < d.thresholds.humidity.min
    || d.windSpeed > d.thresholds.windSpeed.max
    || d.windSpeed < d.thresholds.windSpeed.min
    || d.gasLevel > d.thresholds.gasLevel.max
    || d.gasLevel < d.thresholds.gasLevel.min
  }

  /** The inline test is the shared out-of-range test applied to each metric. */
  lemma OutsideLimitsIsSomeViolation(d: Device)
    ensures OutsideLimits(d) <==> exists m: Metric :: InViolation(d, m)
  {
    if OutsideLimits(d) {
      if OutOfRange(d.temperature, d.thresholds.temperature) {
        assert InViolation(d, Temperature);
      } else if OutOfRange(d.humidity, d.thresholds.humidity) {
        assert InViolation(d, Humidity);
      } else if OutOfRange(d.windSpeed, d.thresholds.windSpeed) {
        assert InViolation(d, WindSpeed);
      } else {
        assert InViolation(d, GasLevel);
      }
    }
  }

  /** `criticalDevices`: never more than there are devices. */
  function CriticalDevices(devices: seq<Device>): (n: nat)
    ensures n <= |devices|
  {
    Count(devices, OutsideLimits)
  }

  /** With no device outside its limits the figure is zero, and with one it is not. */
  lemma CriticalDevicesZero(devices: seq<Device>)
    ensures CriticalDevices(devices) == 0 <==> forall i :: 0 <= i < |devices| ==> !OutsideLimits(devices[i])
  {
    FilterHead(devices, OutsideLimits);
  }

  /** The recent-alerts card: the first three unacknowledged alerts, in list order. */
  function RecentAlerts(alerts: seq<Alert>): (r: seq<Alert>)
    ensures |r| <= 3 && |r| <= ActiveAlerts(alerts)
    ensures forall i :: 0 <= i < |r| ==> !r[i].acknowledged && r[i] in alerts
    ensures ActiveAlerts(alerts) > 0 ==> |r| > 0
    ensures |r| == if ActiveAlerts(alerts) < 3 then ActiveAlerts(alerts) else 3
    ensures forall i :: 0 <= i < |r| ==> r[i] == Filter(alerts, Notifier.IsUnread)[i]
  {
    Take(Filter(alerts, Notifier.IsUnread), 3)
  }

  /** The caption under a warning figure: the `busy` text while the figure counts
      something, the `calm` one when it is zero. The active-alerts card pairs
      "Requires immediate attention" with "All systems normal"; the critical-devices
      card pairs "Outside threshold limits" with "All within limits". */
  function Caption(count: nat, busy: string, calm: string): (s: string)
    requires busy != calm
    ensures s == busy <==> count > 0
    ensures s == calm <==> count == 0
  {
    if count > 0 then busy else calm
  }
}
