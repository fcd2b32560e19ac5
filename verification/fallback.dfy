/** `FirebaseFallbackService` (lib/firebase-fallback.ts): the in-memory stand-in for
    Firestore. Devices and alerts are plain lists; device listeners are numbered
    callbacks that a change to the device list notifies. Unlike the Firestore
    service, deleting a device also deletes its alerts. */
module Fallback {
  import opened Wrappers
  import opened Types
  import opened Strings
  import Lists

  /** The service's static state. */
  datatype Mock = Mock(devices: seq<Device>, alerts: seq<Alert>, listeners: seq<nat>)

  /** The state after a call, and whether the call notified the device listeners. */
  datatype Changed = Changed(mock: Mock, notified: bool)

  // ---------------------------------------------------------------------------
  // Devices
  // ---------------------------------------------------------------------------

  /** The id a device added at `now` receives. */
  function NewDeviceId(now: int): (id: string)
    ensures StartsWith(id, "device_")
  {
    "device_" + IntToString(now)
  }

  /** Devices added at different (non-negative) times get different ids. */
  lemma NewDeviceIdsDiffer(t1: nat, t2: nat)
    requires t1 != t2
    ensures NewDeviceId(t1) != NewDeviceId(t2)
  {
    var p := "device_";
    if NewDeviceId(t1) == NewDeviceId(t2) {
      assert NewDeviceId(t1)[|p|..] == IntToString(t1);
      assert NewDeviceId(t2)[|p|..] == IntToString(t2);
      NatToStringInjective(t1, t2);
    }
  }

  /** `addDevice`: appends the new device, leaves the others as they were, and notifies. */
  function AddDevice(m: Mock, draft: DeviceDraft, now: int): (r: Changed)
    ensures r.notified
    ensures |r.mock.devices| == |m.devices| + 1
    ensures r.mock.devices[..|m.devices|] == m.devices
    ensures r.mock.devices[|m.devices|] == Created(NewDeviceId(now), draft, now)
    ensures r.mock.alerts == m.alerts && r.mock.listeners == m.listeners
  {
    var devices := m.devices + [Created(NewDeviceId(now), draft, now)];
    assert devices[..|m.devices|] == m.devices;
    Changed(m.(devices := devices), true)
  }

  /** `updateDevice`: merges the patch into the first device with that id and restamps
      it; an unknown id changes nothing and notifies no one. */
  function UpdateDevice(m: Mock, id: string, patch: DevicePatch, now: int): (r: Changed)
    ensures r.notified <==> exists i :: 0 <= i < |m.devices| && m.devices[i].id == id
    ensures !r.notified ==> r.mock == m
    ensures r.notified ==> |r.mock.devices| == |m.devices|
                           && r.mock.alerts == m.alerts && r.mock.listeners == m.listeners
                           && exists k :: 0 <= k < |m.devices| && m.devices[k].id == id
                                          && (forall i :: 0 <= i < k ==> m.devices[i].id != id)
                                          && r.mock.devices[k] == Merge(m.devices[k], patch).(lastUpdated := now)
                                          && forall i :: 0 <= i < |m.devices| && i != k ==> r.mock.devices[i] == m.devices[i]
  {
    match Lists.FindIndex(m.devices, (d: Device) => d.id == id)
    case None => Changed(m, false)
    case Some(k) =>
      Changed(m.(devices := m.devices[k := Merge(m.devices[k], patch).(lastUpdated := now)]), true)
  }

  /** `deleteDevice`: removes the device and every alert raised for it, keeps all other
      devices and alerts in their order, and notifies even when nothing matched. */
  function DeleteDevice(m: Mock, id: string): (r: Changed)
    ensures r.notified
    ensures forall d :: d in r.mock.devices <==> d in m.devices && d.id != id
    ensures forall a :: a in r.mock.alerts <==> a in m.alerts && a.deviceId != id
    ensures Lists.IsSubsequence(r.mock.devices, m.devices)
    ensures Lists.IsSubsequence(r.mock.alerts, m.alerts)
    ensures forall d :: multiset(r.mock.devices)[d] == if d.id != id then multiset(m.devices)[d] else 0
    ensures forall a :: multiset(r.mock.alerts)[a] == if a.deviceId != id then multiset(m.alerts)[a] else 0
    ensures r.mock.listeners == m.listeners
  {
    var keepDevice := (d: Device) => d.id != id;
    var keepAlert := (a: Alert) => a.deviceId != id;
    Lists.FilterMultiplicity(m.devices, keepDevice);
    Lists.FilterMultiplicity(m.alerts, keepAlert);
    Changed(Mock(Lists.Filter(m.devices, keepDevice), Lists.Filter(m.alerts, keepAlert), m.listeners), true)
  }

  /** Deleting a device leaves no alert that names it. */
  lemma DeleteLeavesNoOrphans(m: Mock, id: string)
    ensures forall i :: 0 <= i < |DeleteDevice(m, id).mock.alerts| ==> DeleteDevice(m, id).mock.alerts[i].deviceId != id
  {
    var r := DeleteDevice(m, id).mock.alerts;
    forall i | 0 <= i < |r|
      ensures r[i].deviceId != id
    {
      assert r[i] in r;
    }
  }

  // ---------------------------------------------------------------------------
  // Alerts
  // ---------------------------------------------------------------------------

  /** `acknowledgeAlert`: marks the first alert with that id acknowledged at `now`; an
      unknown id is a no-op; the device listeners are not notified either way. */
  function AcknowledgeAlert(m: Mock, id: string, now: int): (r: Changed)
    ensures !r.notified
    ensures r.mock.devices == m.devices && r.mock.listeners == m.listeners
    ensures |r.mock.alerts| == |m.alerts|
    ensures (forall i :: 0 <= i < |m.alerts| ==> m.alerts[i].id != id) ==> r.mock == m
    ensures forall k :: Lists.FindIndex(m.alerts, (a: Alert) => a.id == id) == Some(k) ==>
              && r.mock.alerts[k] == m.alerts[k].(acknowledged := true, acknowledgedAt := Some(now))
              && forall i :: 0 <= i < |m.alerts| && i != k ==> r.mock.alerts[i] == m.alerts[i]
  {
    match Lists.FindIndex(m.alerts, (a: Alert) => a.id == id)
    case None => Changed(m, false)
    case Some(k) =>
      Changed(m.(alerts := m.alerts[k := m.alerts[k].(acknowledged := true, acknowledgedAt := Some(now))]), false)
  }

  // ---------------------------------------------------------------------------
  // The simulated readings
  // ---------------------------------------------------------------------------

  /** One tick's random walk for one device: the new temperature after rounding, the
      change in humidity, the wind speed after its change and rounding but before the
      clamp at zero, and the whole-number change in gas level. */
  datatype Jitter = Jitter(temperature: real, humidity: real, windSpeed: real, gasLevel: int)

  function Max(a: real, b: real): real {
    if a < b then b else a
  }

  function Min(a: real, b: real): real {
    if a < b then a else b
  }

  /** The device after one tick: online devices take a step of their random walk and
      are stamped `now`; offline devices are left exactly as they are. */
  function Walk(d: Device, j: Jitter, now: int): (r: Device)
    ensures d.status == Offline ==> r == d
    ensures d.status == Online ==> && 0.0 <= r.humidity <= 100.0
                                   && 0.0 <= r.windSpeed
                                   && 0.0 <= r.gasLevel
                                   && r.lastUpdated == now
                                   && r == d.(temperature := r.temperature, humidity := r.humidity, windSpeed := r.windSpeed,
                                              gasLevel := r.gasLevel, lastUpdated := now)
  {
    if d.status == Online then
      d.(temperature := j.temperature,
         humidity := Max(0.0, Min(100.0, d.humidity + j.humidity)),
         windSpeed := Max(0.0, j.windSpeed),
         gasLevel := Max(0.0, d.gasLevel + j.gasLevel as real),
         lastUpdated := now)
    else d
  }

  /** The five-second interval: every device walks with its own jitter. */
  function Tick(m: Mock, now: int, jitter: nat -> Jitter): (r: Mock)
    ensures |r.devices| == |m.devices| && r.alerts == m.alerts && r.listeners == m.listeners
    ensures forall i :: 0 <= i < |m.devices| ==> r.devices[i] == Walk(m.devices[i], jitter(i), now)
  {
    m.(devices := seq(|m.devices|, i requires 0 <= i < |m.devices| => Walk(m.devices[i], jitter(i), now)))
  }

  // ---------------------------------------------------------------------------
  // Listeners
  // ---------------------------------------------------------------------------

  /** `subscribeToDevices(callback)`: registers the callback, which at once receives
      the current devices. */
  function SubscribeToDevices(m: Mock, callback: nat): (r: (Mock, seq<Device>))
    ensures r.0.listeners == m.listeners + [callback] && r.0.devices == m.devices && r.0.alerts == m.alerts
    ensures r.1 == m.devices
  {
    (m.(listeners := m.listeners + [callback]), m.devices)
  }

  /** The unsubscribe function it returns: removes exactly that callback (every
      registration of it) and keeps the other listeners in order. */
  function Unsubscribe(m: Mock, callback: nat): (r: Mock)
    ensures forall l :: l in r.listeners <==> l in m.listeners && l != callback
    ensures Lists.IsSubsequence(r.listeners, m.listeners)
    ensures forall l :: multiset(r.listeners)[l] == if l != callback then multiset(m.listeners)[l] else 0
    ensures r.devices == m.devices && r.alerts == m.alerts
  {
    Lists.FilterMultiplicity(m.listeners, (l: nat) => l != callback);
    m.(listeners := Others(m.listeners, callback))
  }

  /** The listeners other than `callback`, in their order. */
  function Others(ls: seq<nat>, callback: nat): seq<nat> {
    Lists.Filter(ls, (l: nat) => l != callback)
  }

  /** Subscribing and then unsubscribing a callback that was not registered before
      restores the listener list. */
  lemma {:induction false} SubscribeThenUnsubscribe(m: Mock, callback: nat)
    requires callback !in m.listeners
    ensures Unsubscribe(SubscribeToDevices(m, callback).0, callback) == m
  {
    OthersAppend(m.listeners, callback);
  }

  lemma {:induction false} OthersAppend(ls: seq<nat>, callback: nat)
    requires callback !in ls
    ensures Others(ls + [callback], callback) == ls
    decreases |ls|
  {
    if |ls| == 0 {
      assert Others([callback][1..], callback) == [];
    } else {
      assert (ls + [callback])[1..] == ls[1..] + [callback];
      OthersAppend(ls[1..], callback);
      assert [ls[0]] + ls[1..] == ls;
    }
  }
}
