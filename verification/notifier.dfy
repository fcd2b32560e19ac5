/** The two notifiers mounted side by side (components/alerts/alarm-system.tsx and
    components/alerts/alert-notification.tsx). Each watches the alert list and fires
    once for the newest unacknowledged alert if it is recent enough: the alarm within
    10 seconds, the toast within 5. Each remembers the last alert it fired for. */
module Notifier {
  import opened Wrappers
  import opened Types
  import opened JsonValues
  import opened Lists
  import Settings

  /** The alarm fires for alerts younger than 10 seconds. */
  const AlarmWindow: int := 10000

  /** The toast fires for alerts younger than 5 seconds. */
  const ToastWindow: int := 5000

  predicate IsUnread(a: Alert) {
    !a.acknowledged
  }

  /** `alerts.filter(a => !a.acknowledged)[0]`, the alert either notifier considers. */
  function Candidate(alerts: seq<Alert>): Option<Alert> {
    var unread := Filter(alerts, IsUnread);
    if |unread| == 0 then None else Some(unread[0])
  }

  /** The candidate is the first unacknowledged alert in list order, and there is none
      exactly when every alert is acknowledged. */
  lemma CandidateIsFirstUnread(alerts: seq<Alert>)
    ensures Candidate(alerts).None? <==> forall i :: 0 <= i < |alerts| ==> alerts[i].acknowledged
    ensures Candidate(alerts).Some? ==>
              exists i :: 0 <= i < |alerts| && alerts[i] == Candidate(alerts).value && !alerts[i].acknowledged
                          && forall j :: 0 <= j < i ==> alerts[j].acknowledged
  {
    FilterHead(alerts, IsUnread);
  }

  /** What a notifier did on one change of the alert list: the id it now remembers,
      and the alert it fired for, if any. A firing always shows a toast; `sound` says
      whether it also played a sound. */
  datatype Firing = Firing(alert: Alert, sound: bool)

  datatype Reaction = Reaction(lastFired: Option<string>, fired: Option<Firing>)

  /** The effect both notifiers run, with its window and whether sound is on and
      playable at this moment. */
  function React(window: int, lastFired: Option<string>, alerts: seq<Alert>, now: int, sound: bool): (r: Reaction)
    ensures r.fired.Some? <==> && Candidate(alerts).Some?
                               && lastFired != Some(Candidate(alerts).value.id)
                               && now - Candidate(alerts).value.createdAt < window
    ensures r.fired.Some? ==> && r.fired.value == Firing(Candidate(alerts).value, sound)
                              && r.lastFired == Some(Candidate(alerts).value.id)
    ensures r.fired.None? ==> r.lastFired == lastFired
  {
    match Candidate(alerts)
    case None => Reaction(lastFired, None)
    case Some(a) =>
      if lastFired != Some(a.id) && now - a.createdAt < window then Reaction(Some(a.id), Some(Firing(a, sound)))
      else Reaction(lastFired, None)
  }

  /** Having fired for an alert, a notifier stays silent while that alert remains the
      candidate, whatever the time. */
  lemma NoRefire(window: int, lastFired: Option<string>, alerts: seq<Alert>, now: int, sound: bool, later: seq<Alert>, afterwards: int, sound2: bool)
    requires React(window, lastFired, alerts, now, sound).fired.Some?
    requires Candidate(later) == Candidate(alerts)
    ensures React(window, React(window, lastFired, alerts, now, sound).lastFired, later, afterwards, sound2).fired.None?
  {
  }

  /** The notifier over a series of alert lists, each with the time it arrived and
      whether sound was on: the firings in order, and the id remembered at the end. */
  datatype Change = Change(alerts: seq<Alert>, now: int, sound: bool)

  datatype History = History(lastFired: Option<string>, fired: seq<Firing>)

  function Watch(window: int, lastFired: Option<string>, changes: seq<Change>): (h: History)
    ensures |h.fired| <= |changes|
    decreases |changes|
  {
    if |changes| == 0 then History(lastFired, [])
    else
      var c := changes[0];
      var r := React(window, lastFired, c.alerts, c.now, c.sound);
      var rest := Watch(window, r.lastFired, changes[1..]);
      History(rest.lastFired, (if r.fired.Some? then [r.fired.value] else []) + rest.fired)
  }

  /** While the candidate stays the same alert, a notifier fires for it at most once;
      if it has already fired for it, not at all. */
  lemma {:induction false} OncePerCandidate(window: int, lastFired: Option<string>, changes: seq<Change>, a: Alert)
    requires forall i :: 0 <= i < |changes| ==> Candidate(changes[i].alerts) == Some(a)
    ensures |Watch(window, lastFired, changes).fired| <= 1
    ensures lastFired == Some(a.id) ==> |Watch(window, lastFired, changes).fired| == 0
    decreases |changes|
  {
    if |changes| != 0 {
      var c := changes[0];
      var r := React(window, lastFired, c.alerts, c.now, c.sound);
      OncePerCandidate(window, r.lastFired, changes[1..], a);
    }
  }

  /** The toast's window lies inside the alarm's: given the same memory, a change that
      makes the toast fire makes the alarm fire too. */
  lemma ToastImpliesAlarm(lastFired: Option<string>, alerts: seq<Alert>, now: int, s1: bool, s2: bool)
    ensures React(ToastWindow, lastFired, alerts, now, s1).fired.Some? ==> React(AlarmWindow, lastFired, alerts, now, s2).fired.Some?
  {
  }

  /** An alert between 5 and 10 seconds old sounds the alarm but shows no toast. */
  lemma OnlyAlarmBetweenWindows(a: Alert, now: int, s1: bool, s2: bool)
    requires !a.acknowledged && 5000 <= now - a.createdAt < 10000
    ensures React(AlarmWindow, None, [a], now, s1).fired.Some?
    ensures React(ToastWindow, None, [a], now, s2).fired.None?
  {
    assert Filter([a], IsUnread) == [a] by {
      FilterKeepsAll([a], IsUnread);
    }
  }

  /** Whether the alarm's sound is switched on: `notifications.alarmSound ?? true` of
      the stored `systemSettings`, taken as a JavaScript condition. No stored entry, an
      empty one, or one that does not parse leaves it on. `parse` is `JSON.parse`. */
  function AlarmSoundEnabled(saved: Option<string>, parse: string -> Option<Json>): bool {
    if saved.Some? && saved.value != "" then
      match parse(saved.value)
      case None => true
      case Some(j) => Truthy(Coalesce(Member(Member(Some(j), "notifications"), "alarmSound"), JBool(true)))
    else true
  }

  /** The alarm is muted exactly when the stored settings parse and hold, at
      `notifications.alarmSound`, a value other than `null` that is falsy. */
  lemma AlarmMutedExactly(saved: Option<string>, parse: string -> Option<Json>)
    ensures !AlarmSoundEnabled(saved, parse) <==>
            && saved.Some? && saved.value != "" && parse(saved.value).Some?
            && var x := GetIn(parse(saved.value).value, ["notifications", "alarmSound"]);
               x.Some? && x.value != JNull && !Truthy(x.value)
  {
    if saved.Some? && saved.value != "" && parse(saved.value).Some? {
      assert ["notifications", "alarmSound"][1..] == ["alarmSound"];
      assert ["alarmSound"][1..] == [];
    }
  }

  /** Switching the alarm sound off in the settings panel and saving mutes the alarm,
      provided JSON text round-trips. */
  lemma SavedSettingsMuteAlarm(p: Settings.Panel, stringify: Json -> string, parse: string -> Option<Json>)
    requires GetIn(Settings.View(p), ["notifications", "alarmSound"]) == Some(JBool(false))
    requires parse(stringify(Settings.View(p))) == Some(Settings.View(p)) && stringify(Settings.View(p)) != ""
    ensures !AlarmSoundEnabled(Settings.Save(p, stringify).stored, parse)
  {
    AlarmMutedExactly(Settings.Save(p, stringify).stored, parse);
  }

  /** The alarm plays when its sound is on and the audio context was created. */
  function AlarmSound(saved: Option<string>, parse: string -> Option<Json>, audioContext: bool): (r: bool)
    ensures r ==> audioContext
    ensures saved.None? ==> r == audioContext
  {
    AlarmSoundEnabled(saved, parse) && audioContext
  }

  /** The toast's sound: `soundEnabled ?? true` of the stored `notificationSettings`,
      and only if the audio element exists. */
  function ToastSound(saved: Option<string>, parse: string -> Option<Json>, audioElement: bool): (r: bool)
    ensures r ==> audioElement
    ensures (saved.None? || saved == Some("") || parse(saved.value).None?) ==> r == audioElement
    ensures (&& saved.Some? && saved.value != "" && parse(saved.value).Some?
             && GetIn(parse(saved.value).value, ["soundEnabled"]) == Some(JBool(false))) ==> !r
  {
    var enabled :=
      if saved.Some? && saved.value != "" then
        match parse(saved.value)
        case None => true
        case Some(j) => Truthy(Coalesce(Member(Some(j), "soundEnabled"), JBool(true)))
      else true;
    assert ["soundEnabled"][1..] == [];
    enabled && audioElement
  }

  /** The toast is silent exactly when there is no audio element, or the stored
      settings parse and hold, at `soundEnabled`, a value other than `null` that is falsy. */
  lemma ToastMutedExactly(saved: Option<string>, parse: string -> Option<Json>, audioElement: bool)
    ensures !ToastSound(saved, parse, audioElement) <==>
            || !audioElement
            || (&& saved.Some? && saved.value != "" && parse(saved.value).Some?
                && var x := GetIn(parse(saved.value).value, ["soundEnabled"]);
                   x.Some? && x.value != JNull && !Truthy(x.value))
  {
    if saved.Some? && saved.value != "" && parse(saved.value).Some? {
      assert ["soundEnabled"][1..] == [];
    }
  }

  /** The icon of a toast. */
  datatype Icon = Thermometer | Droplet | Wind | Bolt | Warning

  /** `getIcon`: each metric has its own icon, and anything else gets the warning sign. */
  function IconOf(k: Kind): (i: Icon)
    ensures i == Warning <==> k == Location
  {
    match k
    case Temperature => Thermometer
    case Humidity => Droplet
    case WindSpeed => Wind
    case GasLevel => Bolt
    case Location => Warning
  }

  /** Different metrics never share an icon. */
  lemma IconsDistinguishMetrics(m1: Metric, m2: Metric)
    requires IconOf(m1) == IconOf(m2)
    ensures m1 == m2
  {
  }

  /** The alarm toast shows the same icon for a metric and none for a location alert. */
  function AlarmIcon(k: Kind): (i: Option<Icon>)
    ensures i.None? <==> k == Location
    ensures i.Some? ==> i.value == IconOf(k)
  {
    if k == Location then None else Some(IconOf(k))
  }
}
