/** The `useDeviceManagement` hook (hooks/use-device-management.ts): the liveness
    evaluator that flips a device's status by the age of its last update, the
    schedule it runs on, and the bulk clear and refresh of alerts, all against the
    Firestore service of `FirestoreStore`. */
module DeviceManagement {
  import opened Wrappers
  import opened Types
  import opened FirestoreStore
  import Lists

  /** Five minutes, in milliseconds. */
  const OfflineThreshold: int := 5 * 60 * 1000

  /** The evaluator re-runs every minute. */
  const StatusInterval: int := 60 * 1000

  // ---------------------------------------------------------------------------
  // The liveness evaluator
  // ---------------------------------------------------------------------------

  /** The status the age of the last update calls for: offline once more than five
      minutes have passed, online at exactly five minutes or less. */
  function Expected(d: Device, now: int): Status {
    if now - d.lastUpdated > OfflineThreshold then Offline else Online
  }

  /** The status update the evaluator sends for `d`, if any. */
  function Target(d: Device, now: int): (r: Option<Status>)
    ensures r.None? <==> d.status == Expected(d, now)
    ensures r.Some? ==> r.value == Expected(d, now) && r.value != d.status
  {
    if d.status == Online && now - d.lastUpdated > OfflineThreshold then Some(Offline)
    else if d.status == Offline && now - d.lastUpdated <= OfflineThreshold then Some(Online)
    else
      assert d.status == Online ==> Expected(d, now) == Online;
      assert d.status == Offline ==> Expected(d, now) == Offline;
      None
  }

  /** One `updateDevice(id, {status})` call of a pass. */
  datatype StatusWrite = StatusWrite(id: string, status: Status)

  /** The devices of `ds` whose status disagrees with their age, in list order. */
  function Due(ds: seq<Device>, now: int): seq<Device> {
    Lists.Filter(ds, (d: Device) => Target(d, now).Some?)
  }

  /** The writes a pass over `ds` makes, in list order: one for each device whose
      status disagrees with its age, none for the others. */
  function Planned(ds: seq<Device>, now: int): (r: seq<StatusWrite>)
    ensures |r| <= |ds|
    ensures forall w :: w in r <==> exists i :: 0 <= i < |ds| && ds[i].id == w.id && Target(ds[i], now) == Some(w.status)
  {
    if |ds| == 0 then []
    else
      var rest := Planned(ds[1..], now);
      assert forall i :: 0 < i < |ds| ==> ds[i] == ds[1..][i - 1];
      match Target(ds[0], now)
      case Some(s) => [StatusWrite(ds[0].id, s)] + rest
      case None => rest
  }

  /** The writes follow the due devices one for one and in the same order, so no
      device is written twice and none out of turn. */
  lemma {:induction false} PlannedFollowsDue(ds: seq<Device>, now: int)
    ensures |Planned(ds, now)| == |Due(ds, now)|
    ensures forall k :: 0 <= k < |Planned(ds, now)| ==>
              Planned(ds, now)[k] == StatusWrite(Due(ds, now)[k].id, Target(Due(ds, now)[k], now).value)
  {
    FollowsByInduction(ds, now);
  }

  lemma {:induction false} FollowsByInduction(ds: seq<Device>, now: int)
    ensures Follows(Planned(ds, now), Due(ds, now), now)
    decreases |ds|
  {
    if |ds| > 0 {
      FollowsByInduction(ds[1..], now);
      FollowsStep(ds, now);
    }
  }

  /** `ws` are, one for one and in order, the writes due for the devices `due`. */
  predicate Follows(ws: seq<StatusWrite>, due: seq<Device>, now: int) {
    && |ws| == |due|
    && forall k :: 0 <= k < |ws| ==> Target(due[k], now).Some? && ws[k] == StatusWrite(due[k].id, Target(due[k], now).value)
  }

  /** One device more at the front keeps `Follows`. */
  lemma FollowsStep(ds: seq<Device>, now: int)
    requires |ds| > 0 && Follows(Planned(ds[1..], now), Due(ds[1..], now), now)
    ensures Follows(Planned(ds, now), Due(ds, now), now)
  {
    if Target(ds[0], now).Some? {
      FollowsWrite(ds, now);
    } else {
      assert Planned(ds, now) == Planned(ds[1..], now);
      assert Due(ds, now) == Due(ds[1..], now);
    }
  }

  /** The case of `FollowsStep` where the front device is due. */
  lemma FollowsWrite(ds: seq<Device>, now: int)
    requires |ds| > 0 && Target(ds[0], now).Some?
    requires Follows(Planned(ds[1..], now), Due(ds[1..], now), now)
    ensures Follows(Planned(ds, now), Due(ds, now), now)
  {
    DueCons(ds, now);
    FollowsCons(Planned(ds[1..], now), Due(ds[1..], now), ds[0], now);
  }

  /** A due front device heads the due list. */
  lemma DueCons(ds: seq<Device>, now: int)
    requires |ds| > 0 && Target(ds[0], now).Some?
    ensures Due(ds, now) == [ds[0]] + Due(ds[1..], now)
  {
  }

  /** `Follows` extends by a due device and its write. */
  lemma FollowsCons(ws: seq<StatusWrite>, due: seq<Device>, d: Device, now: int)
    requires Follows(ws, due, now) && Target(d, now).Some?
    ensures Follows([StatusWrite(d.id, Target(d, now).value)] + ws, [d] + due, now)
  {
    var r := [StatusWrite(d.id, Target(d, now).value)] + ws;
    forall k | 0 < k < |r|
      ensures Target(([d] + due)[k], now).Some? && r[k] == StatusWrite(([d] + due)[k].id, Target(([d] + due)[k], now).value)
    {
      assert r[k] == ws[k - 1] && ([d] + due)[k] == due[k - 1];
    }
  }




  /** The store after a pass, and the writes the pass attempted. */
  datatype Pass = Pass(db: Db, writes: seq<StatusWrite>)

  /** `updateDeviceStatusAutomatically` from device `j` of the snapshot `ds` on;
      `faults(j)` governs the write for device `j`. A failed write is logged and the
      loop goes on. */
  function EvaluateFrom(db: Db, ds: seq<Device>, now: int, faults: nat -> Faults, j: nat): (r: Pass)
    requires j <= |ds|
    ensures r.writes == Planned(ds[j..], now)
    ensures r.db.alerts == db.alerts
    ensures r.db.devices.Keys == db.devices.Keys
    ensures forall id :: id in db.devices && (forall i :: j <= i < |ds| ==> ds[i].id != id) ==> r.db.devices[id] == db.devices[id]
    decreases |ds| - j
  {
    if j == |ds| then Pass(db, [])
    else
      assert ds[j..][1..] == ds[j + 1..];
      match Target(ds[j], now)
      case None => EvaluateFrom(db, ds, now, faults, j + 1)
      case Some(s) =>
        var o := UpdateDevice(db, ds[j].id, StatusPatch(s), now, faults(j));
        var rest := EvaluateFrom(o.db, ds, now, faults, j + 1);
        Pass(rest.db, [StatusWrite(ds[j].id, s)] + rest.writes)
  }

  /** One pass of the evaluator over the snapshot `ds` at time `now`. Which writes it
      attempts depends only on the snapshot and the clock, never on which writes fail. */
  function Evaluate(db: Db, ds: seq<Device>, now: int, faults: nat -> Faults): (r: Pass)
    ensures r.writes == Planned(ds, now)
    ensures r.db.alerts == db.alerts && r.db.devices.Keys == db.devices.Keys
  {
    assert ds[0..] == ds;
    EvaluateFrom(db, ds, now, faults, 0)
  }

  /** No two devices of the snapshot share an id. */
  predicate UniqueDeviceIds(ds: seq<Device>) {
    forall i, k :: 0 <= i < |ds| && 0 <= k < |ds| && ds[i].id == ds[k].id ==> i == k
  }

  /** The stored device once a status write for it succeeded at `now`. */
  function Written(d: Device, s: Status, now: int): (r: Device)
    ensures r.status == s && r.lastUpdated == now && r.id == d.id
  {
    Merge(d, StatusPatch(s)).(lastUpdated := now)
  }

  /** A pass whose write for device `j` gets through stores the new status for that
      device, stamped with the pass's clock. */
  lemma {:induction false} EvaluateWrites(db: Db, ds: seq<Device>, now: int, faults: nat -> Faults, from: nat, j: nat)
    requires from <= j < |ds| && UniqueDeviceIds(ds)
    requires ds[j].id in db.devices && Target(ds[j], now).Some? && GetsThrough(faults(j))
    ensures EvaluateFrom(db, ds, now, faults, from).db.devices[ds[j].id]
            == Written(db.devices[ds[j].id], Target(ds[j], now).value, now)
    decreases j - from
  {
    if from < j {
      var id := ds[j].id;
      match Target(ds[from], now)
      case None =>
        EvaluateWrites(db, ds, now, faults, from + 1, j);
      case Some(s) =>
        var o := UpdateDevice(db, ds[from].id, StatusPatch(s), now, faults(from));
        assert ds[from].id != id;
        assert o.db.devices[id] == db.devices[id];
        EvaluateWrites(o.db, ds, now, faults, from + 1, j);
    } else {
      var o := UpdateDevice(db, ds[j].id, StatusPatch(Target(ds[j], now).value), now, faults(j));
      assert o.db.devices[ds[j].id] == Written(db.devices[ds[j].id], Target(ds[j], now).value, now);
    }
  }

  /** The offline/online oscillation. A device marked offline at `t1` has, through the
      write itself, a `lastUpdated` of `t1`; any pass within the next five minutes over a
      snapshot showing the stored device therefore sends it back online. */
  lemma OfflineComesBackOnline(db: Db, ds: seq<Device>, t1: int, faults: nat -> Faults, j: nat,
                               ds2: seq<Device>, t2: int, faults2: nat -> Faults, k: nat)
    requires j < |ds| && UniqueDeviceIds(ds) && Keyed(db)
    requires ds[j].id in db.devices && Target(ds[j], t1) == Some(Offline) && GetsThrough(faults(j))
    requires k < |ds2| && ds2[k] == Evaluate(db, ds, t1, faults).db.devices[ds[j].id]
    requires t1 <= t2 <= t1 + OfflineThreshold
    ensures Target(ds2[k], t2) == Some(Online)
    ensures StatusWrite(ds[j].id, Online) in Evaluate(Evaluate(db, ds, t1, faults).db, ds2, t2, faults2).writes
  {
    var first := Evaluate(db, ds, t1, faults);
    assert ds[0..] == ds;
    EvaluateWrites(db, ds, t1, faults, 0, j);
    var d1 := first.db.devices[ds[j].id];
    assert d1 == Written(db.devices[ds[j].id], Offline, t1);
    assert d1.status == Offline && d1.lastUpdated == t1;
    assert Target(ds2[k], t2) == Some(Online);
    var second := Evaluate(first.db, ds2, t2, faults2);
    assert second.writes == Planned(ds2, t2);
    assert ds2[k].id == ds[j].id;
  }

  // ---------------------------------------------------------------------------
  // When the evaluator runs
  // ---------------------------------------------------------------------------

  /** The times the device list was set: mount first, then every change. The effect
      runs a pass at each of them and restarts a one-minute interval. */
  predicate Increasing(changes: seq<int>) {
    forall i :: 0 < i < |changes| ==> changes[i - 1] < changes[i]
  }

  /** A pass at `t` belongs to the interval started at change `j`: it is that change
      itself or a whole number of minutes after it, before the next change. */
  predicate RunOf(changes: seq<int>, j: int, t: int) {
    0 <= j < |changes| && changes[j] <= t && (t - changes[j]) % StatusInterval == 0
    && (j + 1 == |changes| || t < changes[j + 1])
  }

  ghost predicate RunsAt(changes: seq<int>, t: int) {
    exists j :: RunOf(changes, j, t)
  }

  /** The index of the last change at or before `t`. */
  function LastChange(changes: seq<int>, t: int): (j: nat)
    requires 0 < |changes| && Increasing(changes) && changes[0] <= t
    ensures j < |changes| && changes[j] <= t
    ensures j + 1 == |changes| || t < changes[j + 1]
    decreases |changes|
  {
    if changes[|changes| - 1] <= t then |changes| - 1
    else LastChange(changes[..|changes| - 1], t)
  }

  /** Every mount or change of the device list runs a pass at once. */
  lemma RunsAtEveryChange(changes: seq<int>, j: nat)
    requires j < |changes| && Increasing(changes)
    ensures RunsAt(changes, changes[j])
  {
    assert (changes[j] - changes[j]) % StatusInterval == 0;
    if j + 1 < |changes| {
      assert changes[j] < changes[j + 1];
    }
    assert RunOf(changes, j, changes[j]);
  }

  /** From mount on, no minute goes by without a pass. */
  lemma NoMinuteWithoutPass(changes: seq<int>, t: int)
    requires 0 < |changes| && Increasing(changes) && changes[0] <= t
    ensures exists r :: RunsAt(changes, r) && t - StatusInterval < r <= t
  {
    var j := LastChange(changes, t);
    var q := (t - changes[j]) / StatusInterval;
    var r := changes[j] + q * StatusInterval;
    assert t - changes[j] == q * StatusInterval + (t - changes[j]) % StatusInterval;
    assert (r - changes[j]) % StatusInterval == 0;
    assert RunOf(changes, j, r);
    assert RunsAt(changes, r);
  }

  // ---------------------------------------------------------------------------
  // Bulk clear and refresh of alerts
  // ---------------------------------------------------------------------------

  /** Firestore document ids are unique within the alerts collection. */
  predicate UniqueAlertIds(alerts: seq<Alert>) {
    forall i, k :: 0 <= i < |alerts| && 0 <= k < |alerts| && alerts[i].id == alerts[k].id ==> i == k
  }

  /** `allAlerts.filter(alert => alert.acknowledged)`. */
  function AcknowledgedOnly(alerts: seq<Alert>): (r: seq<Alert>)
    ensures forall a :: a in r <==> a in alerts && a.acknowledged
    ensures Lists.IsSubsequence(r, alerts)
    ensures forall a :: multiset(r)[a] == if a.acknowledged then multiset(alerts)[a] else 0
  {
    var acknowledged := (a: Alert) => a.acknowledged;
    Lists.FilterMultiplicity(alerts, acknowledged);
    Lists.Filter(alerts, acknowledged)
  }

  /** The ids of `s[k..m]`. */
  function IdsOf(s: seq<Alert>, k: int, m: int): set<string>
    requires 0 <= k <= m <= |s|
  {
    set i | k <= i < m :: s[i].id
  }

  /** The index of the first delete from `k` on that fails on every attempt, or `n`
      when none does. */
  function FirstFailure(faults: nat -> Faults, k: nat, n: nat): (f: nat)
    requires k <= n
    ensures k <= f <= n
    ensures forall i :: k <= i < f ==> GetsThrough(faults(i))
    ensures f < n ==> !GetsThrough(faults(f))
    decreases n - k
  {
    if k == n || !GetsThrough(faults(k)) then k else FirstFailure(faults, k + 1, n)
  }

  /** Deleting `targets[k..]` one at a time; `faults(i)` governs the delete of
      `targets[i]`. The first failing delete aborts the rest and rethrows, so exactly
      the targets before it are gone. */
  function DeleteEach(db: Db, targets: seq<Alert>, faults: nat -> Faults, k: nat): (r: Outcome<()>)
    requires k <= |targets|
    ensures r.db.devices == db.devices
    ensures r.result.Ok? <==> FirstFailure(faults, k, |targets|) == |targets|
    ensures r.db.alerts == Without(db.alerts, IdsOf(targets, k, FirstFailure(faults, k, |targets|)))
    decreases |targets| - k
  {
    if k == |targets| then
      WithoutNothing(db.alerts, targets, k);
      Outcome(db, Ok(()))
    else
      var o := DeleteAlert(db, targets[k].id, faults(k));
      if o.result.Err? then
        WithoutNothing(db.alerts, targets, k);
        Outcome(o.db, Err(o.result.error))
      else
        var rest := DeleteEach(o.db, targets, faults, k + 1);
        WithoutStep(db.alerts, targets, k, FirstFailure(faults, k + 1, |targets|));
        rest
  }

  /** Deleting `targets[k]` and then the ids of `targets[k + 1..m]` deletes the ids of `targets[k..m]`. */
  lemma WithoutStep(alerts: seq<Alert>, targets: seq<Alert>, k: nat, m: nat)
    requires k < m <= |targets|
    ensures Without(Without(alerts, {targets[k].id}), IdsOf(targets, k + 1, m)) == Without(alerts, IdsOf(targets, k, m))
  {
    WithoutTwice(alerts, {targets[k].id}, IdsOf(targets, k + 1, m));
    assert {targets[k].id} + IdsOf(targets, k + 1, m) == IdsOf(targets, k, m);
  }

  /** Removing the ids of an empty stretch of targets keeps the listing. */
  lemma {:induction false} WithoutNothing(alerts: seq<Alert>, targets: seq<Alert>, k: nat)
    requires k <= |targets|
    ensures Without(alerts, IdsOf(targets, k, k)) == alerts
    decreases |alerts|
  {
    assert IdsOf(targets, k, k) == {};
    if |alerts| != 0 {
      WithoutNothing(alerts[1..], targets, k);
      assert [alerts[0]] + alerts[1..] == alerts;
    }
  }

  /** `clearAcknowledgedAlerts`: fetch the alerts, then delete the acknowledged ones in
      listing order. Unacknowledged alerts are never touched; if every delete goes
      through, exactly the unacknowledged alerts remain. A fetch that fails on every
      attempt yields an empty list, so nothing is deleted and nothing is thrown. */
  function ClearAcknowledged(db: Db, fetchFaults: Faults, deleteFaults: nat -> Faults): (r: Outcome<()>)
    requires UniqueAlertIds(db.alerts)
    ensures r.db.devices == db.devices
    ensures forall a :: a in r.db.alerts ==> a in db.alerts
    ensures forall a :: a in db.alerts && !a.acknowledged ==> a in r.db.alerts
    ensures r.result.Ok? && GetsThrough(fetchFaults) ==> forall a :: a in r.db.alerts <==> a in db.alerts && !a.acknowledged
    ensures !GetsThrough(fetchFaults) ==> r == Outcome(db, Ok(()))
    ensures GetsThrough(fetchFaults) ==>
              var targets := AcknowledgedOnly(db.alerts);
              var f := FirstFailure(deleteFaults, 0, |targets|);
              && (r.result.Ok? <==> f == |targets|)
              && r.db.alerts == Without(db.alerts, IdsOf(targets, 0, f))
  {
    var targets := AcknowledgedOnly(GetAlerts(db, fetchFaults));
    var r := DeleteEach(db, targets, deleteFaults, 0);
    DeleteEachKeeps(db, targets, deleteFaults);
    if !GetsThrough(fetchFaults) then
      assert targets == [];
      r
    else r
  }

  /** The facts `ClearAcknowledged` needs about deleting `targets` in turn. */
  lemma DeleteEachKeeps(db: Db, targets: seq<Alert>, faults: nat -> Faults)
    requires UniqueAlertIds(db.alerts)
    requires forall a :: a in targets ==> a in db.alerts && a.acknowledged
    ensures var r := DeleteEach(db, targets, faults, 0);
            && (forall a :: a in r.db.alerts ==> a in db.alerts)
            && (forall a :: a in db.alerts && !a.acknowledged ==> a in r.db.alerts)
            && (r.result.Ok? && (forall a :: a in db.alerts && a.acknowledged ==> a in targets)
                ==> forall a :: a in r.db.alerts <==> a in db.alerts && !a.acknowledged)
            && (targets == [] ==> r == Outcome(db, Ok(())))
  {
    ClearKeepsExactly(db.alerts, targets, FirstFailure(faults, 0, |targets|));
    if targets == [] {
      WithoutNothing(db.alerts, targets, 0);
    }
  }

  /** Deleting the ids of some acknowledged alerts of a listing with unique ids keeps
      every unacknowledged alert; deleting all of them keeps only those. */
  lemma ClearKeepsExactly(alerts: seq<Alert>, targets: seq<Alert>, m: nat)
    requires UniqueAlertIds(alerts) && m <= |targets|
    requires forall a :: a in targets ==> a in alerts && a.acknowledged
    ensures forall a :: a in alerts && !a.acknowledged ==> a in Without(alerts, IdsOf(targets, 0, m))
    ensures ((forall a :: a in alerts && a.acknowledged ==> a in targets) && m == |targets|)
            ==> forall a :: a in Without(alerts, IdsOf(targets, 0, m)) <==> a in alerts && !a.acknowledged
  {
    forall a, i | a in alerts && !a.acknowledged && 0 <= i < m
      ensures targets[i].id != a.id
    {
      var x :| 0 <= x < |alerts| && alerts[x] == a;
      var y :| 0 <= y < |alerts| && alerts[y] == targets[i];
      assert x != y;
    }
    if (forall a :: a in alerts && a.acknowledged ==> a in targets) && m == |targets| {
      forall a | a in alerts && a.acknowledged
        ensures a.id in IdsOf(targets, 0, m)
      {
        var i :| 0 <= i < |targets| && targets[i] == a;
      }
    }
  }

  /** What the hook exposes. */
  datatype View = View(devices: seq<Device>, alerts: seq<Alert>, loading: bool)

  /** `refreshAlerts`: the shown alerts become the fresh listing and loading ends.
      Because `getAlerts` swallows its own errors, its `catch` never runs: a fetch that
      fails on every attempt blanks the list. */
  function RefreshAlerts(v: View, db: Db, faults: Faults): (r: View)
    ensures !r.loading && r.devices == v.devices
    ensures GetsThrough(faults) ==> r.alerts == db.alerts
    ensures !GetsThrough(faults) ==> r.alerts == []
  {
    View(v.devices, GetAlerts(db, faults), false)
  }

  /** Every attempt fails. */
  function AllFail(i: nat): Option<Thrown> {
    Some(NonError)
  }

  /** A refresh during an outage empties a list that was showing alerts. */
  lemma RefreshOutageBlanks(v: View, db: Db)
    requires v.alerts != []
    ensures RefreshAlerts(v, db, AllFail).alerts == [] != v.alerts
  {
    assert !GetsThrough(AllFail);
  }

  /** What the `catch` evidently intends: a failed fetch keeps the alerts shown. */
  function RefreshAlertsKeeping(v: View, db: Db, faults: Faults): (r: View)
    ensures !r.loading && r.devices == v.devices
    ensures GetsThrough(faults) ==> r.alerts == db.alerts
    ensures !GetsThrough(faults) ==> r.alerts == v.alerts
  {
    View(v.devices, if GetsThrough(faults) then db.alerts else v.alerts, false)
  }
}
