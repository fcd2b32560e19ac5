/** The connection state of the data hook (hooks/use-safe-firebase-data.ts): it starts
    connecting, goes to `connected` on the first device snapshot, and to `fallback`
    when the service is missing, its set-up throws, or ten seconds pass without data.
    Timers and listener callbacks are events fed to a step function. */
module Connection {
  import opened Wrappers
  import opened Types
  import opened FirestoreStore

  datatype Status = Connecting | Connected | Fallback

  /** The hook's state. `timer` says whether the ten-second timeout is still pending;
      `devicesFeed` and `alertsFeed` whether the corresponding listener was installed. */
  datatype State = State(
    devices: seq<Device>, alerts: seq<Alert>, loading: bool, error: Option<string>,
    status: Status, timer: bool, devicesFeed: bool, alertsFeed: bool)

  /** The state before the effect runs. */
  const Initial: State := State([], [], true, None, Connecting, false, false, false)

  /** How far the set-up got: no service at all, a throw (after or before the device
      listener was installed), or both listeners installed. */
  datatype Setup = NoService | Threw(devicesInstalled: bool) | Subscribed

  const InitError: string := "Failed to initialize data"

  /** The spinner shows exactly while the hook is still connecting, and a pending
      timeout means no device data has arrived yet. */
  predicate Consistent(s: State) {
    (s.loading <==> s.status == Connecting) && (s.timer ==> s.status != Connected)
  }

  /** `initializeData`, which runs without waiting up to the subscriptions. A throw
      falls back and records the error but leaves the timeout pending. */
  function Init(setup: Setup): (s: State)
    ensures Consistent(s)
    ensures s.devices == [] && s.alerts == []
    ensures s.status == Connecting <==> setup.Subscribed?
    ensures s.status == Fallback <==> !setup.Subscribed?
    ensures s.error.Some? <==> setup.Threw?
    ensures s.timer <==> !setup.NoService?
    ensures s.devicesFeed <==> setup.Subscribed? || setup == Threw(true)
    ensures s.alertsFeed <==> setup.Subscribed?
  {
    match setup
    case NoService => Initial.(loading := false, status := Fallback)
    case Threw(installed) =>
      Initial.(loading := false, status := Fallback, error := Some(InitError), timer := true, devicesFeed := installed)
    case Subscribed => Initial.(timer := true, devicesFeed := true, alertsFeed := true)
  }

  /** What can happen after set-up: a listener delivers, the timeout fires, or the
      five-second health check reports. */
  datatype Event =
    | DeviceSnapshot(ds: seq<Device>)
    | AlertSnapshot(received: seq<Alert>)
    | Timeout
    | HealthCheck(d: Diagnosis)

  /** One event. A device snapshot cancels the timeout and connects, whatever the
      status was; the timeout falls back only if it is still pending; alert snapshots
      touch the alerts only; the health check's verdict is only logged. */
  function Step(s: State, e: Event): (t: State)
    ensures Consistent(s) ==> Consistent(t)
    ensures t.devicesFeed == s.devicesFeed && t.alertsFeed == s.alertsFeed && t.error == s.error
    ensures e.DeviceSnapshot? && s.devicesFeed ==>
              t == s.(devices := e.ds, loading := false, status := Connected, timer := false)
    ensures e.AlertSnapshot? ==> t == (if s.alertsFeed then s.(alerts := e.received) else s)
    ensures e.Timeout? ==> t == (if s.timer then s.(loading := false, status := Fallback, timer := false) else s)
    ensures e.HealthCheck? ==> t == s
    ensures !e.AlertSnapshot? ==> t.alerts == s.alerts
    ensures !e.DeviceSnapshot? ==> t.devices == s.devices
    ensures !s.timer ==> !t.timer
    ensures !s.loading ==> !t.loading
  {
    match e
    case DeviceSnapshot(ds) =>
      if s.devicesFeed then s.(devices := ds, loading := false, status := Connected, timer := false) else s
    case AlertSnapshot(received) => if s.alertsFeed then s.(alerts := received) else s
    case Timeout => if s.timer then s.(loading := false, status := Fallback, timer := false) else s
    case HealthCheck(_) => s
  }

  function Run(s: State, events: seq<Event>): (t: State)
    decreases |events|
  {
    if |events| == 0 then s else Run(Step(s, events[0]), events[1..])
  }

  /** Every reachable state is consistent: loading is shown exactly while connecting. */
  lemma {:induction false} RunConsistent(s: State, events: seq<Event>)
    requires Consistent(s)
    ensures Consistent(Run(s, events))
    decreases |events|
  {
    if |events| != 0 {
      RunConsistent(Step(s, events[0]), events[1..]);
    }
  }

  /** Once device data has arrived the hook stays connected and never shows the spinner
      again: the timeout it cancelled cannot fall back later. */
  lemma {:induction false} ConnectedIsFinal(s: State, events: seq<Event>)
    requires Consistent(s) && s.status == Connected
    ensures Run(s, events).status == Connected && !Run(s, events).loading
    decreases |events|
  {
    if |events| != 0 {
      ConnectedIsFinal(Step(s, events[0]), events[1..]);
    }
  }

  /** Loading, once over, never resumes. */
  lemma {:induction false} LoadingSettles(s: State, events: seq<Event>)
    requires !s.loading
    ensures !Run(s, events).loading
    decreases |events|
  {
    if |events| != 0 {
      LoadingSettles(Step(s, events[0]), events[1..]);
    }
  }

  /** The first device snapshot after a successful set-up connects and cancels the
      timeout, so a later timeout changes nothing. */
  lemma FirstSnapshotConnects(ds: seq<Device>, later: seq<Event>)
    ensures Step(Init(Subscribed), DeviceSnapshot(ds)).status == Connected
    ensures Run(Step(Init(Subscribed), DeviceSnapshot(ds)), later).status == Connected
  {
    ConnectedIsFinal(Step(Init(Subscribed), DeviceSnapshot(ds)), later);
  }

  /** Ten seconds without data fall back. */
  lemma SilenceFallsBack()
    ensures Step(Init(Subscribed), Timeout).status == Fallback
    ensures !Step(Init(Subscribed), Timeout).loading
  {
  }

  /** Nothing guards the snapshot handler: data arriving after the fallback connects
      again, even when the set-up threw once the device listener was in place. */
  lemma FallbackReconnects(ds: seq<Device>)
    ensures Step(Step(Init(Subscribed), Timeout), DeviceSnapshot(ds)).status == Connected
    ensures Step(Init(Threw(true)), DeviceSnapshot(ds)).status == Connected
  {
  }

  /** Alert snapshots and health checks leave the connection status and loading flag
      alone, whatever their content. */
  lemma {:induction false} QuietEventsKeepStatus(s: State, events: seq<Event>)
    requires forall i :: 0 <= i < |events| ==> events[i].AlertSnapshot? || events[i].HealthCheck?
    ensures Run(s, events).status == s.status && Run(s, events).loading == s.loading
    ensures Run(s, events).devices == s.devices
    decreases |events|
  {
    if |events| != 0 {
      QuietEventsKeepStatus(Step(s, events[0]), events[1..]);
    }
  }
}
