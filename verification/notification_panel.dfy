/** The notification panel (components/layout/enhanced-notification-panel.tsx): it
    converts the stored alerts into notifications with a level and a priority, counts
    and filters them, sorts them by priority and age, and acknowledges them in bulk. */
module NotificationPanel {
  import opened Wrappers
  import opened Types
  import opened Strings
  import opened JsonValues
  import opened Lists
  import opened FirestoreStore
  import Notifier

  // ---------------------------------------------------------------------------
  // Conversion
  // ---------------------------------------------------------------------------

  datatype Level = Critical | Warning | Info

  /** A notification as the panel keeps it. */
  datatype Entry = Entry(
    id: string,
    level: Level,
    title: string,
    message: string,
    timestamp: int,
    deviceId: string,
    deviceName: string,
    isRead: bool,
    priority: nat)

  /** Temperature and location alerts are critical, humidity and wind warnings, and
      everything else (the gas level) information. */
  function LevelOf(k: Kind): (l: Level)
    ensures l == Critical <==> k == Temperature || k == Location
    ensures l == Warning <==> k == Humidity || k == WindSpeed
    ensures l == Info <==> k == GasLevel
  {
    match k
    case Temperature => Critical
    case Location => Critical
    case Humidity => Warning
    case WindSpeed => Warning
    case GasLevel => Info
  }

  /** Priority 1 is the most urgent. */
  function PriorityOf(l: Level): (p: nat)
    ensures 1 <= p <= 3
    ensures p == 1 <==> l == Critical
    ensures p == 2 <==> l == Warning
  {
    match l
    case Critical => 1
    case Warning => 2
    case Info => 3
  }

  /** The type's name with its first letter capitalised, then " Alert". */
  function Title(k: Kind): (t: string)
    ensures |t| == |KindName(k)| + 6
    ensures t[|KindName(k)|..] == " Alert"
    ensures t[0] == UpperChar(KindName(k)[0]) && t[1..|KindName(k)|] == KindName(k)[1..]
  {
    var name := KindName(k);
    [UpperChar(name[0])] + name[1..] + " Alert"
  }

  /** The title gives the type back: lowering its first letter and dropping " Alert"
      restores the type's name. */
  lemma TitleReadsBack(k: Kind)
    ensures [LowerChar(Title(k)[0])] + Title(k)[1..|Title(k)| - 6] == KindName(k)
  {
    var name := KindName(k);
    assert LowerChar(UpperChar(name[0])) == name[0];
    assert [name[0]] + name[1..] == name;
  }

  /** Different types get different titles. */
  lemma TitleNamesType(k: Kind, k2: Kind)
    requires Title(k) == Title(k2)
    ensures k == k2
  {
    TitleReadsBack(k);
    TitleReadsBack(k2);
    KindNamesDiffer(k, k2);
  }

  /** No two types share a name. */
  lemma KindNamesDiffer(k: Kind, k2: Kind)
    requires KindName(k) == KindName(k2)
    ensures k == k2
  {
    assert ParseKind(KindName(k)) == Some(k);
  }

  function Convert(a: Alert): (e: Entry)
    ensures e.id == a.id && e.message == a.message && e.timestamp == a.createdAt
    ensures e.deviceId == a.deviceId && e.deviceName == a.deviceName && e.isRead == a.acknowledged
    ensures e.level == LevelOf(a.kind) && e.priority == PriorityOf(e.level) && e.title == Title(a.kind)
  {
    Entry(a.id, LevelOf(a.kind), Title(a.kind), a.message, a.createdAt, a.deviceId, a.deviceName, a.acknowledged, PriorityOf(LevelOf(a.kind)))
  }

  /** `firebaseAlerts.map(...)`: one notification per alert, in the same order. */
  function ConvertAll(alerts: seq<Alert>): (r: seq<Entry>)
    ensures |r| == |alerts|
    ensures forall i :: 0 <= i < |alerts| ==> r[i] == Convert(alerts[i])
  {
    seq(|alerts|, i requires 0 <= i < |alerts| => Convert(alerts[i]))
  }

  // ---------------------------------------------------------------------------
  // Counts, filter and badge
  // ---------------------------------------------------------------------------

  predicate IsUnread(e: Entry) {
    !e.isRead
  }

  predicate IsRead(e: Entry) {
    e.isRead
  }

  predicate IsCritical(e: Entry) {
    e.level == Critical
  }

  predicate IsUnreadCritical(e: Entry) {
    e.level == Critical && !e.isRead
  }

  function UnreadCount(es: seq<Entry>): nat {
    Count(es, IsUnread)
  }

  function CriticalCount(es: seq<Entry>): nat {
    Count(es, IsUnreadCritical)
  }

  /** The critical figure never exceeds the unread one. */
  lemma CriticalWithinUnread(es: seq<Entry>)
    ensures CriticalCount(es) <= UnreadCount(es)
  {
    CountMonotone(es, IsUnreadCritical, IsUnread);
  }

  /** The unread figure is the number of unacknowledged alerts. */
  lemma {:induction false} UnreadCountsUnacknowledged(alerts: seq<Alert>)
    ensures UnreadCount(ConvertAll(alerts)) == Count(alerts, Notifier.IsUnread)
    decreases |alerts|
  {
    if |alerts| != 0 {
      assert ConvertAll(alerts)[1..] == ConvertAll(alerts[1..]);
      UnreadCountsUnacknowledged(alerts[1..]);
    }
  }

  /** With "critical only" the panel lists exactly the critical notifications, in
      order; otherwise it lists all of them. */
  function Shown(es: seq<Entry>, criticalOnly: bool): (r: seq<Entry>)
    ensures IsSubsequence(r, es)
    ensures criticalOnly ==> (forall i :: 0 <= i < |r| ==> r[i].level == Critical)
                             && (forall i :: 0 <= i < |es| && es[i].level == Critical ==> es[i] in r)
    ensures !criticalOnly ==> r == es
    ensures criticalOnly ==> forall e :: multiset(r)[e] == if e.level == Critical then multiset(es)[e] else 0
  {
    SubsequenceOfItself(es);
    FilterMultiplicity(es, IsCritical);
    if criticalOnly then Filter(es, IsCritical) else es
  }

  /** The bell's badge: nothing without unread notifications, the count up to 99,
      and "99+" beyond. */
  function Badge(unread: nat): (r: Option<string>)
    ensures r.None? <==> unread == 0
    ensures r.Some? ==> (r.value == "99+" <==> unread > 99)
  {
    if unread == 0 then None
    else if unread > 99 then Some("99+")
    else
      assert !IsDigit("99+"[2]);
      Some(NatToString(unread))
  }

  /** A badge that shows a number shows the unread count itself. */
  lemma BadgeReadsBack(unread: nat)
    requires 0 < unread <= 99
    ensures AllDigits(Badge(unread).value) && DigitsValue(Badge(unread).value) == unread
  {
    NatToStringRoundTrip(unread);
  }

  // ---------------------------------------------------------------------------
  // Sorting
  // ---------------------------------------------------------------------------

  /** `a` may come before `b`: higher priority first, then newer first. */
  predicate Before(a: Entry, b: Entry) {
    a.priority < b.priority || (a.priority == b.priority && a.timestamp >= b.timestamp)
  }

  predicate Sorted(es: seq<Entry>) {
    forall i, j :: 0 <= i < j < |es| ==> Before(es[i], es[j])
  }

  /** `x` inserted ahead of the first entry it may precede. */
  function Insert(x: Entry, es: seq<Entry>): (r: seq<Entry>)
    ensures multiset(r) == multiset(es) + multiset{x}
    decreases |es|
  {
    if |es| == 0 || Before(x, es[0]) then [x] + es
    else
      assert es == [es[0]] + es[1..];
      [es[0]] + Insert(x, es[1..])
  }

  /** Inserting into a sorted list keeps it sorted. */
  lemma {:induction false} InsertKeepsSorted(x: Entry, es: seq<Entry>)
    requires Sorted(es)
    ensures Sorted(Insert(x, es))
    decreases |es|
  {
    if |es| != 0 && !Before(x, es[0]) {
      var rest := Insert(x, es[1..]);
      InsertKeepsSorted(x, es[1..]);
      forall j | 0 <= j < |rest|
        ensures Before(es[0], rest[j])
      {
        var y := rest[j];
        assert y in multiset(rest);
        if y != x {
          assert y in multiset(es[1..]);
          var k :| 0 <= k < |es[1..]| && es[1..][k] == y;
          assert es[k + 1] == y;
        }
      }
    }
  }

  /** The panel's sort: by priority, and newest first within a priority. */
  function Sort(es: seq<Entry>): (r: seq<Entry>)
    ensures Sorted(r)
    ensures multiset(r) == multiset(es)
    decreases |es|
  {
    if |es| == 0 then []
    else
      assert es == [es[0]] + es[1..];
      InsertKeepsSorted(es[0], Sort(es[1..]));
      Insert(es[0], Sort(es[1..]))
  }

  /** The first three read notifications of the sorted list, for the resolved section. */
  function Resolved(sorted: seq<Entry>): (r: seq<Entry>)
    ensures |r| <= 3
    ensures forall i :: 0 <= i < |r| ==> r[i].isRead && r[i] in sorted
    ensures |r| == if Count(sorted, IsRead) < 3 then Count(sorted, IsRead) else 3
    ensures forall i :: 0 <= i < |r| ==> r[i] == Filter(sorted, IsRead)[i]
  {
    Take(Filter(sorted, IsRead), 3)
  }

  // ---------------------------------------------------------------------------
  // Relative times
  // ---------------------------------------------------------------------------

  /** How long ago something happened, in the largest unit that fits. */
  datatype Ago = JustNow | MinutesAgo(m: nat) | HoursAgo(h: nat) | DaysAgo(d: nat)

  const Minute: int := 60 * 1000
  const Hour: int := 60 * Minute
  const Day: int := 24 * Hour

  /** `formatTimeAgo` for a difference of `diff` milliseconds, with the whole number
      of units that have fully passed. */
  function AgoOf(diff: int): (r: Ago)
    ensures r == JustNow <==> diff < Minute
    ensures r.MinutesAgo? ==> 1 <= r.m < 60 && r.m * Minute <= diff < (r.m + 1) * Minute
    ensures r.HoursAgo? ==> 1 <= r.h < 24 && r.h * Hour <= diff < (r.h + 1) * Hour
    ensures r.DaysAgo? ==> 1 <= r.d && r.d * Day <= diff < (r.d + 1) * Day
  {
    var minutes := diff / Minute;
    if minutes < 1 then JustNow
    else if minutes < 60 then MinutesAgo(minutes)
    else
      var hours := minutes / 60;
      assert hours * 60 <= minutes < (hours + 1) * 60;
      assert hours * Hour == hours * 60 * Minute;
      assert (hours + 1) * Hour == (hours + 1) * 60 * Minute;
      MulMono(hours * 60, minutes, Minute);
      MulMono(minutes + 1, (hours + 1) * 60, Minute);
      if hours < 24 then HoursAgo(hours)
      else
        var days := hours / 24;
        assert days * 24 <= hours < (days + 1) * 24;
        assert days * Day == days * 24 * Hour;
        assert (days + 1) * Day == (days + 1) * 24 * Hour;
        MulMono(days * 24, hours, Hour);
        MulMono(hours + 1, (days + 1) * 24, Hour);
        DaysAgo(days)
  }

  lemma MulMono(a: int, b: int, c: nat)
    requires a <= b
    ensures a * c <= b * c
  {
  }

  /** The text shown. */
  function TimeAgoText(diff: int): string {
    match AgoOf(diff)
    case JustNow => "Just now"
    case MinutesAgo(m) => NatToString(m) + "m ago"
    case HoursAgo(h) => NatToString(h) + "h ago"
    case DaysAgo(d) => NatToString(d) + "d ago"
  }

  /** The displayed unit only ever grows with age. */
  lemma AgoMonotone(d1: int, d2: int)
    requires d1 <= d2
    ensures AgoOf(d1).MinutesAgo? ==> !AgoOf(d2).JustNow?
    ensures AgoOf(d1).HoursAgo? ==> AgoOf(d2).HoursAgo? || AgoOf(d2).DaysAgo?
    ensures AgoOf(d1).DaysAgo? ==> AgoOf(d2).DaysAgo?
  {
  }

  // ---------------------------------------------------------------------------
  // Bulk acknowledgement
  // ---------------------------------------------------------------------------

  /** The first id from `k` on whose acknowledgement fails, or `|ids|` when none does. */
  function AckStop(alerts: seq<Alert>, ids: seq<string>, faults: nat -> Faults, k: nat): (f: nat)
    requires k <= |ids|
    ensures k <= f <= |ids|
    ensures forall j :: k <= j < f ==> HasAlert(alerts, ids[j]) && GetsThrough(faults(j))
    ensures f < |ids| ==> !(HasAlert(alerts, ids[f]) && GetsThrough(faults(f)))
    decreases |ids| - k
  {
    if k == |ids| || !(HasAlert(alerts, ids[k]) && GetsThrough(faults(k))) then k
    else AckStop(alerts, ids, faults, k + 1)
  }

  /** The alert differs from `a` at most in its acknowledgement. */
  predicate SameButAck(a: Alert, b: Alert) {
    b == a.(acknowledged := b.acknowledged, acknowledgedAt := b.acknowledgedAt)
  }

  /** Acknowledging `ids[k..]` one after another; `now(j)` and `faults(j)` are the time
      and the faults of the `j`-th call. The first failure ends the loop and is
      reported. Only acknowledgements change: nothing is deleted. */
  function AcknowledgeEach(db: Db, ids: seq<string>, now: nat -> int, faults: nat -> Faults, k: nat): (r: Outcome<()>)
    requires k <= |ids|
    ensures r.db.devices == db.devices && |r.db.alerts| == |db.alerts|
    ensures r.result.Ok? <==> AckStop(db.alerts, ids, faults, k) == |ids|
    ensures forall i :: 0 <= i < |db.alerts| ==> SameButAck(db.alerts[i], r.db.alerts[i])
    ensures forall i :: 0 <= i < |db.alerts| ==>
              (r.db.alerts[i].acknowledged <==> db.alerts[i].acknowledged || db.alerts[i].id in ids[k..AckStop(db.alerts, ids, faults, k)])
    decreases |ids| - k
  {
    if k == |ids| then Outcome(db, Ok(()))
    else
      var o := AcknowledgeAlert(db, ids[k], now(k), faults(k));
      if o.result.Err? then Outcome(o.db, Err(o.result.error))
      else
        var rest := AcknowledgeEach(o.db, ids, now, faults, k + 1);
        SameIds(db.alerts, ids[k], now(k), ids, faults, k + 1);
        assert AckStop(db.alerts, ids, faults, k) == AckStop(db.alerts, ids, faults, k + 1);
        AckStepAlerts(db.alerts, ids[k], now(k), rest.db.alerts, ids, k, AckStop(db.alerts, ids, faults, k));
        rest
  }

  /** One successful acknowledgement followed by the rest of the loop: the alerts end up
      as the loop from `k` promises. */
  lemma AckStepAlerts(alerts: seq<Alert>, id: string, t: int, final: seq<Alert>, ids: seq<string>, k: nat, stop: nat)
    requires k < stop <= |ids| && ids[k] == id && |final| == |alerts|
    requires forall i :: 0 <= i < |alerts| ==> SameButAck(AcknowledgeIn(alerts, id, t)[i], final[i])
    requires forall i :: 0 <= i < |alerts| ==>
               (final[i].acknowledged <==> AcknowledgeIn(alerts, id, t)[i].acknowledged || AcknowledgeIn(alerts, id, t)[i].id in ids[k + 1..stop])
    ensures forall i :: 0 <= i < |alerts| ==> SameButAck(alerts[i], final[i])
    ensures forall i :: 0 <= i < |alerts| ==> (final[i].acknowledged <==> alerts[i].acknowledged || alerts[i].id in ids[k..stop])
  {
    var acked := AcknowledgeIn(alerts, id, t);
    assert ids[k..stop] == [id] + ids[k + 1..stop];
    forall i | 0 <= i < |alerts|
      ensures SameButAck(alerts[i], final[i])
      ensures final[i].acknowledged <==> alerts[i].acknowledged || alerts[i].id in ids[k..stop]
    {
      assert acked[i].id == alerts[i].id;
    }
  }

  /** Acknowledging keeps every alert id, so the stopping point is the same. */
  lemma SameIds(alerts: seq<Alert>, id: string, now: int, ids: seq<string>, faults: nat -> Faults, k: nat)
    requires k <= |ids|
    ensures AckStop(AcknowledgeIn(alerts, id, now), ids, faults, k) == AckStop(alerts, ids, faults, k)
    decreases |ids| - k
  {
    var acked := AcknowledgeIn(alerts, id, now);
    forall x
      ensures HasAlert(acked, x) == HasAlert(alerts, x)
    {
      if HasAlert(alerts, x) {
        var i :| 0 <= i < |alerts| && alerts[i].id == x;
        assert acked[i].id == x;
      }
      if HasAlert(acked, x) {
        var i :| 0 <= i < |acked| && acked[i].id == x;
        assert alerts[i].id == x;
      }
    }
    if k < |ids| {
      SameIds(alerts, id, now, ids, faults, k + 1);
    }
  }

  /** `markAllAsRead` (and `clearAllAlerts`, which does the same): acknowledge the
      unread notifications of the panel's whole list, not only those shown, in list
      order. */
  function MarkAllAsRead(db: Db, entries: seq<Entry>, now: nat -> int, faults: nat -> Faults): (r: Outcome<()>)
    ensures r.db.devices == db.devices && |r.db.alerts| == |db.alerts|
    ensures forall i :: 0 <= i < |db.alerts| ==> SameButAck(db.alerts[i], r.db.alerts[i])
  {
    AcknowledgeEach(db, UnreadIds(entries), now, faults, 0)
  }

  /** The ids of the unread notifications, in order. */
  function UnreadIds(es: seq<Entry>): (ids: seq<string>)
    ensures |ids| == UnreadCount(es)
    ensures forall i :: 0 <= i < |es| && !es[i].isRead ==> es[i].id in ids
    ensures forall i :: 0 <= i < |ids| ==> ids[i] == Filter(es, IsUnread)[i].id
  {
    var unread := Filter(es, IsUnread);
    var ids := seq(|unread|, i requires 0 <= i < |unread| => unread[i].id);
    assert forall i :: 0 <= i < |unread| ==> ids[i] == unread[i].id;
    ids
  }

  /** Every unread notification of the current listing names a stored alert. */
  lemma UnreadIdsStored(alerts: seq<Alert>)
    ensures forall j :: 0 <= j < |UnreadIds(ConvertAll(alerts))| ==> HasAlert(alerts, UnreadIds(ConvertAll(alerts))[j])
  {
    var es := ConvertAll(alerts);
    var unread := Filter(es, IsUnread);
    var ids := UnreadIds(es);
    forall j | 0 <= j < |ids|
      ensures HasAlert(alerts, ids[j])
    {
      assert ids[j] == unread[j].id;
      assert unread[j] in es;
      var i :| 0 <= i < |es| && es[i] == unread[j];
      assert alerts[i].id == ids[j];
    }
  }

  /** When every call gets through and the panel is current, marking all as read
      leaves no unacknowledged alert. */
  lemma MarkAllClearsEverything(db: Db, now: nat -> int, faults: nat -> Faults)
    requires forall j: nat :: GetsThrough(faults(j))
    ensures forall i :: 0 <= i < |db.alerts| ==> MarkAllAsRead(db, ConvertAll(db.alerts), now, faults).db.alerts[i].acknowledged
  {
    UnreadIdsStored(db.alerts);
    UnreadAlertsListed(db.alerts);
    AcknowledgeEachListed(db, UnreadIds(ConvertAll(db.alerts)), now, faults);
  }

  /** When every call gets through and every id names a stored alert, the loop
      acknowledges every alert whose id it was given. */
  lemma AcknowledgeEachListed(db: Db, ids: seq<string>, now: nat -> int, faults: nat -> Faults)
    requires forall j: nat :: GetsThrough(faults(j))
    requires forall j :: 0 <= j < |ids| ==> HasAlert(db.alerts, ids[j])
    ensures forall i :: 0 <= i < |db.alerts| && db.alerts[i].id in ids ==> AcknowledgeEach(db, ids, now, faults, 0).db.alerts[i].acknowledged
  {
    assert AckStop(db.alerts, ids, faults, 0) == |ids|;
    assert ids[0..|ids|] == ids;
  }

  /** Every unacknowledged alert's id is among the ids `markAllAsRead` sends. */
  lemma UnreadAlertsListed(alerts: seq<Alert>)
    ensures forall i :: 0 <= i < |alerts| && !alerts[i].acknowledged ==> alerts[i].id in UnreadIds(ConvertAll(alerts))
  {
    var es := ConvertAll(alerts);
    forall i | 0 <= i < |alerts| && !alerts[i].acknowledged
      ensures alerts[i].id in UnreadIds(es)
    {
      assert !es[i].isRead;
    }
  }

  // ---------------------------------------------------------------------------
  // Notification settings
  // ---------------------------------------------------------------------------

  /** The panel's own settings as the page first renders them. */
  const DefaultNotificationSettings: map<string, Json> :=
    map["soundEnabled" := JBool(true), "volume" := JNum(75.0), "desktopNotifications" := JBool(true),
        "emailNotifications" := JBool(false), "showCriticalOnly" := JBool(false)]

  /** On mount the stored `notificationSettings` replace the defaults outright when
      they parse; otherwise the defaults stay. */
  function LoadSettings(saved: Option<string>, parse: string -> Option<Json>): (s: Json)
    ensures (saved.None? || saved == Some("") || parse(saved.value).None?) ==> s == JObj(DefaultNotificationSettings)
    ensures (saved.Some? && saved.value != "" && parse(saved.value).Some?) ==> s == parse(saved.value).value
  {
    if saved.Some? && saved.value != "" then parse(saved.value).GetOr(JObj(DefaultNotificationSettings))
    else JObj(DefaultNotificationSettings)
  }

  /** `updateSettings(partial)`: the partial settings win over the current ones, and
      the result is stored at once. */
  function UpdateSettings(current: map<string, Json>, partial: map<string, Json>, stringify: Json -> string): (r: (map<string, Json>, string))
    ensures r.0.Keys == current.Keys + partial.Keys
    ensures forall k :: k in partial ==> r.0[k] == partial[k]
    ensures forall k :: k in current && k !in partial ==> r.0[k] == current[k]
    ensures r.1 == stringify(JObj(r.0))
  {
    var merged := map k | k in current.Keys + partial.Keys :: if k in partial then partial[k] else current[k];
    (merged, stringify(JObj(merged)))
  }

  /** Switching the sound off in the panel silences the alert toasts, provided JSON
      text round-trips. */
  lemma SoundOffSilencesToasts(current: map<string, Json>, stringify: Json -> string, parse: string -> Option<Json>, audio: bool)
    requires var r := UpdateSettings(current, map["soundEnabled" := JBool(false)], stringify);
             r.1 != "" && parse(r.1) == Some(JObj(r.0))
    ensures !Notifier.ToastSound(Some(UpdateSettings(current, map["soundEnabled" := JBool(false)], stringify).1), parse, audio)
  {
  }

  /** Whether the list shows critical notifications only: a truthy `showCriticalOnly`.
      Reading a property of `null` throws a `TypeError`, which ends the render; any
      other value without the key reads `undefined`, which is falsy. */
  function CriticalOnly(settings: Json): (r: Result<bool, string>)
    ensures r.Err? <==> settings == JNull
    ensures r.Ok? ==> (r.value <==> settings.JObj? && "showCriticalOnly" in settings.fields && Truthy(settings.fields["showCriticalOnly"]))
  {
    if settings == JNull then Err("TypeError")
    else
      match Member(Some(settings), "showCriticalOnly")
      case None => Ok(false)
      case Some(v) => Ok(Truthy(v))
  }

  /** A stored `null` parses, replaces the defaults, and then breaks the filter,
      while the defaults themselves show every notification. */
  lemma StoredNullBreaksFilter(saved: Option<string>, parse: string -> Option<Json>)
    ensures CriticalOnly(JObj(DefaultNotificationSettings)) == Ok(false)
    ensures (saved.Some? && saved.value != "" && parse(saved.value) == Some(JNull))
            <==> CriticalOnly(LoadSettings(saved, parse)).Err?
  {
    assert "showCriticalOnly" in DefaultNotificationSettings;
  }
}
