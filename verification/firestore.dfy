/** `FirebaseService` (lib/firebase-service.ts) over an in-memory picture of the two
    Firestore collections. Every call goes through `retryOperation` with its default
    of three attempts; what happens on the way to the server is an oracle `faults`,
    where `faults(i)` is the error attempt `i` throws, or `None` when the attempt
    reaches the store. A failed attempt leaves the store unchanged. */
module FirestoreStore {
  import opened Wrappers
  import opened Types
  import opened Strings
  import opened Retry

  /** A value an SDK call throws: an `Error` with its message, or anything else. */
  datatype Thrown = Error(message: string) | NonError

  /** What Firestore throws when `updateDoc` names a document that does not exist. */
  const NoDocument: Thrown := Error("No document to update")

  /** The store: device documents by id, and the alert documents in the order the
      `orderBy('createdAt', 'desc')` query lists them. */
  datatype Db = Db(devices: map<string, Device>, alerts: seq<Alert>)

  /** Every device document is listed under its own id. */
  predicate Keyed(db: Db) {
    forall id :: id in db.devices ==> db.devices[id].id == id
  }

  /** What a service call leaves behind: the store afterwards, and the value the call
      resolved with or the error it threw. */
  datatype Outcome<+T> = Outcome(db: Db, result: Result<T, Option<Thrown>>)

  /** `faults(i)`: the error attempt `i` runs into before reaching the store, if any. */
  type Faults = nat -> Option<Thrown>

  /** Some attempt the retry loop is allowed to make gets through to the store. */
  predicate GetsThrough(faults: Faults) {
    exists k :: 0 <= k < DefaultRetries && faults(k).None?
  }

  /** The per-attempt outcome of a write whose target is (or is not) `present`. */
  function Attempts(faults: Faults, present: bool): nat -> Result<(), Thrown> {
    (i: nat) => if faults(i).Some? then Err(faults(i).value) else if present then Ok(()) else Err(NoDocument)
  }

  /** A write through `retryOperation` with the default three attempts succeeds
      exactly when its target is present and some attempt gets through. */
  lemma WriteSucceeds(faults: Faults, present: bool)
    ensures RetryRun(Attempts(faults, present), DefaultRetries).outcome.Ok? <==> present && GetsThrough(faults)
  {
    var op := Attempts(faults, present);
    var r := RetryRun(op, DefaultRetries);
    if r.outcome.Ok? {
      assert op(r.calls - 1).Ok?;
      assert faults(r.calls - 1).None?;
    }
    if present && GetsThrough(faults) {
      var k :| 0 <= k < DefaultRetries && faults(k).None?;
      SucceedsIfSomeAttemptDoes(op, DefaultRetries, k);
    }
  }

  /** The error a failed write rethrows. */
  function Rethrown(faults: Faults, present: bool): Option<Thrown> {
    var r := RetryRun(Attempts(faults, present), DefaultRetries);
    if r.outcome.Err? then r.outcome.error else None
  }

  // ---------------------------------------------------------------------------
  // Devices
  // ---------------------------------------------------------------------------

  /** `addDevice`: the store picks a fresh document id; the document is stamped `now`. */
  function AddDevice(db: Db, draft: DeviceDraft, newId: string, now: int, faults: Faults): (r: Outcome<string>)
    requires newId !in db.devices
    ensures r.result.Ok? <==> GetsThrough(faults)
    ensures r.result.Ok? ==> (r.result.value == newId
                              && r.db.devices == db.devices[newId := Created(newId, draft, now)]
                              && r.db.alerts == db.alerts)
    ensures r.result.Err? ==> r.db == db
  {
    WriteSucceeds(faults, true);
    if RetryRun(Attempts(faults, true), DefaultRetries).outcome.Ok? then
      Outcome(db.(devices := db.devices[newId := Created(newId, draft, now)]), Ok(newId))
    else Outcome(db, Err(Rethrown(faults, true)))
  }

  /** `updateDevice`: the patch merged into the stored device, always together with
      `lastUpdated = now`. An unknown id fails on every attempt. */
  function UpdateDevice(db: Db, id: string, patch: DevicePatch, now: int, faults: Faults): (r: Outcome<()>)
    ensures r.result.Ok? <==> id in db.devices && GetsThrough(faults)
    ensures r.result.Ok? ==> (r.db.devices.Keys == db.devices.Keys
                              && r.db.devices[id] == Merge(db.devices[id], patch).(lastUpdated := now)
                              && r.db.devices[id].lastUpdated == now
                              && (forall other :: other in db.devices && other != id ==> r.db.devices[other] == db.devices[other])
                              && r.db.alerts == db.alerts)
    ensures r.result.Err? ==> r.db == db
  {
    WriteSucceeds(faults, id in db.devices);
    if RetryRun(Attempts(faults, id in db.devices), DefaultRetries).outcome.Ok? then
      Outcome(db.(devices := db.devices[id := Merge(db.devices[id], patch).(lastUpdated := now)]), Ok(()))
    else Outcome(db, Err(Rethrown(faults, id in db.devices)))
  }

  /** `deleteDevice`: removes the device document only. Alerts that name the device
      stay, and deleting a missing document is not an error. */
  function DeleteDevice(db: Db, id: string, faults: Faults): (r: Outcome<()>)
    ensures r.result.Ok? <==> GetsThrough(faults)
    ensures r.result.Ok? ==> r.db.devices == db.devices - {id} && r.db.alerts == db.alerts
    ensures r.result.Err? ==> r.db == db
  {
    WriteSucceeds(faults, true);
    if RetryRun(Attempts(faults, true), DefaultRetries).outcome.Ok? then
      Outcome(db.(devices := db.devices - {id}), Ok(()))
    else Outcome(db, Err(Rethrown(faults, true)))
  }

  // ---------------------------------------------------------------------------
  // Alerts
  // ---------------------------------------------------------------------------

  /** `getAlerts`: the listing, or an empty list when every attempt failed (the error
      is logged and swallowed). */
  function GetAlerts(db: Db, faults: Faults): (r: seq<Alert>)
    ensures GetsThrough(faults) ==> r == db.alerts
    ensures !GetsThrough(faults) ==> r == []
  {
    WriteSucceeds(faults, true);
    if RetryRun(Attempts(faults, true), DefaultRetries).outcome.Ok? then db.alerts else []
  }

  predicate HasAlert(alerts: seq<Alert>, id: string) {
    exists i :: 0 <= i < |alerts| && alerts[i].id == id
  }

  /** The alert marked acknowledged at `now`. */
  function Acknowledged(a: Alert, now: int): (r: Alert)
    ensures r.acknowledged && r.acknowledgedAt == Some(now)
  {
    a.(acknowledged := true, acknowledgedAt := Some(now))
  }

  /** The listing with every document called `id` acknowledged at `now`. */
  function AcknowledgeIn(alerts: seq<Alert>, id: string, now: int): (r: seq<Alert>)
    ensures |r| == |alerts|
    ensures forall i :: 0 <= i < |alerts| ==> r[i] == if alerts[i].id == id then Acknowledged(alerts[i], now) else alerts[i]
  {
    seq(|alerts|, i requires 0 <= i < |alerts| => if alerts[i].id == id then Acknowledged(alerts[i], now) else alerts[i])
  }

  /** Acknowledging an alert a second time only moves its `acknowledgedAt`. */
  lemma AcknowledgeAgain(alerts: seq<Alert>, id: string, t1: int, t2: int)
    ensures AcknowledgeIn(AcknowledgeIn(alerts, id, t1), id, t2) == AcknowledgeIn(alerts, id, t2)
  {
    var once := AcknowledgeIn(alerts, id, t1);
    var twice := AcknowledgeIn(once, id, t2);
    forall i | 0 <= i < |alerts|
      ensures twice[i] == AcknowledgeIn(alerts, id, t2)[i]
    {
      assert once[i].id == alerts[i].id;
    }
  }

  /** `acknowledgeAlert`: sets `acknowledged` and `acknowledgedAt = now` on the alert;
      an unknown id fails on every attempt. */
  function AcknowledgeAlert(db: Db, id: string, now: int, faults: Faults): (r: Outcome<()>)
    ensures r.result.Ok? <==> HasAlert(db.alerts, id) && GetsThrough(faults)
    ensures r.result.Ok? ==> r.db.alerts == AcknowledgeIn(db.alerts, id, now) && r.db.devices == db.devices
    ensures r.result.Err? ==> r.db == db
  {
    WriteSucceeds(faults, HasAlert(db.alerts, id));
    if RetryRun(Attempts(faults, HasAlert(db.alerts, id)), DefaultRetries).outcome.Ok? then
      Outcome(db.(alerts := AcknowledgeIn(db.alerts, id, now)), Ok(()))
    else Outcome(db, Err(Rethrown(faults, HasAlert(db.alerts, id))))
  }

  /** The listing without the documents whose id is in `ids`, order kept. */
  function Without(alerts: seq<Alert>, ids: set<string>): (r: seq<Alert>)
    ensures |r| <= |alerts|
    ensures forall a :: a in r <==> a in alerts && a.id !in ids
  {
    if |alerts| == 0 then []
    else if alerts[0].id in ids then Without(alerts[1..], ids)
    else [alerts[0]] + Without(alerts[1..], ids)
  }

  /** Removing two batches of ids one after the other removes their union. */
  lemma {:induction false} WithoutTwice(alerts: seq<Alert>, a: set<string>, b: set<string>)
    ensures Without(Without(alerts, a), b) == Without(alerts, a + b)
    decreases |alerts|
  {
    if |alerts| != 0 {
      WithoutTwice(alerts[1..], a, b);
      if alerts[0].id !in a {
        assert Without(alerts, a)[1..] == Without(alerts[1..], a);
      }
    }
  }

  /** `deleteAlert`: removes the alert document; a missing one is not an error. */
  function DeleteAlert(db: Db, id: string, faults: Faults): (r: Outcome<()>)
    ensures r.result.Ok? <==> GetsThrough(faults)
    ensures r.result.Ok? ==> r.db.alerts == Without(db.alerts, {id}) && r.db.devices == db.devices
    ensures r.result.Err? ==> r.db == db
  {
    WriteSucceeds(faults, true);
    if RetryRun(Attempts(faults, true), DefaultRetries).outcome.Ok? then
      Outcome(db.(alerts := Without(db.alerts, {id})), Ok(()))
    else Outcome(db, Err(Rethrown(faults, true)))
  }

  // ---------------------------------------------------------------------------
  // checkAndFixIssues
  // ---------------------------------------------------------------------------

  /** The verdict of the connection check. */
  datatype Diagnosis =
    | NotInitialised
    | Healthy
    | Failed(error: string, retryable: bool)

  predicate MentionsNetwork(t: Thrown) {
    t.Error? && (Contains(t.message, "network") || Contains(t.message, "timeout"))
  }

  predicate MentionsPermission(t: Thrown) {
    t.Error? && Contains(t.message, "permission")
  }

  /** `checkAndFixIssues`, given whether the database handle exists and how the test
      read of the devices collection ended. Only a permission problem that is not also
      a network problem is reported as not worth retrying. */
  function CheckAndFixIssues(initialised: bool, probe: Result<nat, Thrown>): (r: Diagnosis)
    ensures r.NotInitialised? <==> !initialised
    ensures r.Healthy? <==> initialised && probe.Ok?
    ensures r.Failed? <==> initialised && probe.Err?
    ensures r.Failed? ==> (r.retryable <==> MentionsNetwork(probe.error) || !MentionsPermission(probe.error))
  {
    if !initialised then NotInitialised
    else match probe
      case Ok(_) => Healthy
      case Err(t) =>
        if MentionsNetwork(t) then Failed("Network issue, please check connection", true)
        else if MentionsPermission(t) then Failed("Permission denied, please check Firebase rules", false)
        else Failed("Unknown error occurred", true)
  }

  /** The network test comes first: a message naming both a timeout and a permission
      problem is still retryable. */
  lemma NetworkBeforePermission(message: string)
    requires Contains(message, "timeout") && Contains(message, "permission")
    ensures CheckAndFixIssues(true, Err(Error(message))) == Failed("Network issue, please check connection", true)
  {
  }
}
