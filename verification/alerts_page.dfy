/** The alerts page (app/alerts/page.tsx): the search and the two filters over the
    alert list, the active-alert badge and summary, the per-row acknowledge action,
    and the label a camel-case alert type is shown with. */
module AlertsPage {
  import opened Wrappers
  import opened Types
  import opened Strings
  import opened Lists
  import Notifier

  /** The type filter's value: every type, or one type. */
  datatype TypeFilter = AllTypes | OfType(kind: Kind)

  /** The status filter's value. */
  datatype StatusFilter = AnyStatus | AcknowledgedOnly | UnacknowledgedOnly

  /** The options the type select offers: there is none for location alerts. */
  const TypeOptions: seq<TypeFilter> :=
    [AllTypes, OfType(Temperature), OfType(Humidity), OfType(WindSpeed), OfType(GasLevel)]

  /** The device name or the message holds the search term, ignoring case. */
  predicate MatchesSearch(a: Alert, term: string) {
    Contains(Lower(a.deviceName), Lower(term)) || Contains(Lower(a.message), Lower(term))
  }

  predicate MatchesType(a: Alert, f: TypeFilter) {
    f.AllTypes? || a.kind == f.kind
  }

  predicate MatchesStatus(a: Alert, f: StatusFilter) {
    match f
    case AnyStatus => true
    case AcknowledgedOnly => a.acknowledged
    case UnacknowledgedOnly => !a.acknowledged
  }

  predicate Listed(a: Alert, term: string, tf: TypeFilter, sf: StatusFilter) {
    MatchesSearch(a, term) && MatchesType(a, tf) && MatchesStatus(a, sf)
  }

  /** `filteredAlerts`: the alerts that pass all three tests, in their original order. */
  function Filtered(alerts: seq<Alert>, term: string, tf: TypeFilter, sf: StatusFilter): (r: seq<Alert>)
    ensures IsSubsequence(r, alerts)
    ensures forall i :: 0 <= i < |r| ==> Listed(r[i], term, tf, sf)
    ensures forall i :: 0 <= i < |alerts| && Listed(alerts[i], term, tf, sf) ==> alerts[i] in r
    ensures forall a :: multiset(r)[a] == if Listed(a, term, tf, sf) then multiset(alerts)[a] else 0
  {
    var listed := (a: Alert) => Listed(a, term, tf, sf);
    FilterMultiplicity(alerts, listed);
    Filter(alerts, listed)
  }

  /** With an empty search and both filters on "all", every alert is listed. */
  lemma EverythingByDefault(alerts: seq<Alert>)
    ensures Filtered(alerts, "", AllTypes, AnyStatus) == alerts
  {
    forall i | 0 <= i < |alerts|
      ensures Listed(alerts[i], "", AllTypes, AnyStatus)
    {
      assert Lower("") == "";
      ContainsEmpty(Lower(alerts[i].deviceName));
    }
    FilterKeepsAll(alerts, (a: Alert) => Listed(a, "", AllTypes, AnyStatus));
  }

  /** A location alert passes the type filter only when it is set to all types. */
  lemma LocationOnlyUnderAllTypes(a: Alert, f: TypeFilter)
    requires a.kind == Location && f in TypeOptions && MatchesType(a, f)
    ensures f == AllTypes
  {
  }

  /** The active badge: the number of unacknowledged alerts. */
  function ActiveCount(alerts: seq<Alert>): nat {
    Count(alerts, Notifier.IsUnread)
  }

  /** The active badge and the number of acknowledged alerts add up to the total. */
  lemma ActivePlusAcknowledged(alerts: seq<Alert>)
    ensures ActiveCount(alerts) + |Filtered(alerts, "", AllTypes, AcknowledgedOnly)| == |alerts|
  {
    forall i | 0 <= i < |alerts|
      ensures Listed(alerts[i], "", AllTypes, AcknowledgedOnly) == !Notifier.IsUnread(alerts[i])
    {
      assert Lower("") == "";
      ContainsEmpty(Lower(alerts[i].deviceName));
    }
    CountComplement(alerts, Notifier.IsUnread, (a: Alert) => Listed(a, "", AllTypes, AcknowledgedOnly));
  }

  /** The summary card: the first six unacknowledged alerts, in list order. */
  function Summary(alerts: seq<Alert>): (r: seq<Alert>)
    ensures |r| <= 6 && |r| <= ActiveCount(alerts)
    ensures forall i :: 0 <= i < |r| ==> !r[i].acknowledged && r[i] in alerts
    ensures ActiveCount(alerts) <= 6 ==> |r| == ActiveCount(alerts)
    ensures |r| == if ActiveCount(alerts) < 6 then ActiveCount(alerts) else 6
    ensures forall i :: 0 <= i < |r| ==> r[i] == Filter(alerts, Notifier.IsUnread)[i]
  {
    Take(Filter(alerts, Notifier.IsUnread), 6)
  }

  /** A table row: the alert, the label of its type, and the id its acknowledge
      button would send, if it has one. */
  datatype Row = Row(alert: Alert, typeLabel: string, acknowledge: Option<string>)

  function RowOf(a: Alert): Row {
    Row(a, TypeLabel(KindName(a.kind)), if a.acknowledged then None else Some(a.id))
  }

  /** Every row is one listed alert, and only unacknowledged rows offer the action,
      which names the row's own alert. */
  function Rows(listed: seq<Alert>): (rows: seq<Row>)
    ensures |rows| == |listed|
    ensures forall i :: 0 <= i < |rows| ==> rows[i].alert == listed[i]
    ensures forall i :: 0 <= i < |rows| ==> (rows[i].acknowledge.Some? <==> !listed[i].acknowledged)
    ensures forall i :: 0 <= i < |rows| && rows[i].acknowledge.Some? ==> rows[i].acknowledge.value == listed[i].id
  {
    seq(|listed|, i requires 0 <= i < |listed| => RowOf(listed[i]))
  }

  // ---------------------------------------------------------------------------
  // The type label
  // ---------------------------------------------------------------------------

  predicate NoUpper(s: string) {
    forall i :: 0 <= i < |s| ==> !IsUpper(s[i])
  }

  /** `replace(/([A-Z])/g, ' $1')`: a space in front of every capital letter. */
  function SpaceBeforeUpper(s: string): (r: string)
    ensures |r| >= |s|
    ensures |s| == 1 && IsUpper(s[0]) ==> r == [' ', s[0]]
    ensures |s| == 1 && !IsUpper(s[0]) ==> r == s
    decreases |s|
  {
    if |s| == 0 then ""
    else (if IsUpper(s[0]) then [' ', s[0]] else [s[0]]) + SpaceBeforeUpper(s[1..])
  }

  /** The replacement works character by character, so it distributes over joining. */
  lemma {:induction false} SpaceBeforeUpperAppend(a: string, b: string)
    ensures SpaceBeforeUpper(a + b) == SpaceBeforeUpper(a) + SpaceBeforeUpper(b)
    decreases |a|
  {
    if |a| == 0 {
      assert a + b == b;
    } else {
      assert (a + b)[1..] == a[1..] + b;
      SpaceBeforeUpperAppend(a[1..], b);
    }
  }

  /** Without capitals, nothing is inserted. */
  lemma {:induction false} SpaceBeforeUpperNoUpper(s: string)
    requires NoUpper(s)
    ensures SpaceBeforeUpper(s) == s
    decreases |s|
  {
    if |s| != 0 {
      SpaceBeforeUpperNoUpper(s[1..]);
      assert [s[0]] + s[1..] == s;
    }
  }

  /** The label of an alert type: spaced at the capitals, then trimmed. */
  function TypeLabel(name: string): string {
    Trim(SpaceBeforeUpper(name))
  }

  /** A lower-case name without surrounding space is shown as it is. */
  lemma LowerCaseLabelUnchanged(name: string)
    requires NoUpper(name)
    requires |name| == 0 || (!IsSpace(name[0]) && !IsSpace(name[|name| - 1]))
    ensures TypeLabel(name) == name
  {
    SpaceBeforeUpperNoUpper(name);
    TrimUnchanged(name);
  }

  /** A camel-case name of two words is split into the two words with a space between. */
  lemma CamelCaseLabel(head: string, c: char, tail: string)
    requires NoUpper(head) && NoUpper(tail) && IsUpper(c)
    requires 0 < |head| && !IsSpace(head[0])
    requires |tail| == 0 || !IsSpace(tail[|tail| - 1])
    ensures TypeLabel(head + [c] + tail) == head + " " + [c] + tail
  {
    CamelCaseSpaced(head, c, tail);
    var r := head + " " + [c] + tail;
    assert r[0] == head[0];
    assert r[|r| - 1] == if |tail| == 0 then c else tail[|tail| - 1];
    TrimUnchanged(r);
  }

  /** The spacing step of `CamelCaseLabel`, before trimming. */
  lemma CamelCaseSpaced(head: string, c: char, tail: string)
    requires NoUpper(head) && NoUpper(tail) && IsUpper(c)
    ensures SpaceBeforeUpper(head + [c] + tail) == head + " " + [c] + tail
  {
    SpaceBeforeUpperAppend(head + [c], tail);
    SpaceBeforeUpperAppend(head, [c]);
    SpaceBeforeUpperNoUpper(head);
    SpaceBeforeUpperNoUpper(tail);
    assert SpaceBeforeUpper([c]) == [' ', c];
  }

  /** The camel-case types are shown as two words. */
  lemma WindSpeedLabel()
    ensures TypeLabel(KindName(WindSpeed)) == "wind Speed"
  {
    CamelCaseLabel("wind", 'S', "peed");
    assert "wind" + ['S'] + "peed" == "windSpeed";
    assert "wind" + " " + ['S'] + "peed" == "wind Speed";
  }

  lemma GasLevelLabel()
    ensures TypeLabel(KindName(GasLevel)) == "gas Level"
  {
    CamelCaseLabel("gas", 'L', "evel");
    assert "gas" + ['L'] + "evel" == "gasLevel";
    assert "gas" + " " + ['L'] + "evel" == "gas Level";
  }

  /** The lower-case types are shown as they are stored. */
  lemma TemperatureLabel()
    ensures TypeLabel(KindName(Temperature)) == "temperature"
  {
    LowerCaseWord("temperature");
  }

  lemma HumidityLabel()
    ensures TypeLabel(KindName(Humidity)) == "humidity"
  {
    LowerCaseWord("humidity");
  }

  lemma LocationLabel()
    ensures TypeLabel(KindName(Location)) == "location"
  {
    LowerCaseWord("location");
  }

  lemma LowerCaseWord(w: string)
    requires LowerWord(w)
    ensures TypeLabel(w) == w
  {
    LowerWordNoUpper(w);
    LowerCaseLabelUnchanged(w);
  }

  predicate LowerWord(w: string)
    decreases |w|
  {
    |w| == 0 || ('a' <= w[0] <= 'z' && LowerWord(w[1..]))
  }

  lemma {:induction false} LowerWordNoUpper(w: string)
    requires LowerWord(w)
    ensures NoUpper(w) && (|w| == 0 || (!IsSpace(w[0]) && !IsSpace(w[|w| - 1])))
    decreases |w|
  {
    if |w| != 0 {
      LowerWordNoUpper(w[1..]);
      if |w| > 1 {
        assert w[|w| - 1] == w[1..][|w| - 2];
      }
      forall i | 0 <= i < |w|
        ensures !IsUpper(w[i])
      {
        if i > 0 {
          assert w[i] == w[1..][i - 1];
        }
      }
    }
  }
}
