/** The system settings panel (components/layout/enhanced-settings-panel.tsx).
    JavaScript objects are shared by reference, and the panel's edits mutate nested
    objects in place, so the model keeps an explicit heap of the nested objects. The
    four sub-records of the module-level `defaultSettings` are heap objects 0 to 3;
    they live as long as the page does. */
module Settings {
  import opened Wrappers
  import opened Strings
  import opened JsonValues

  /** A top-level entry of a settings object: a plain JSON value, or a reference to a
      nested object on the heap. */
  datatype Field = Value(v: Json) | Ref(r: nat)

  /** The nested objects that are shared by reference. */
  type Heap = map<nat, map<string, Json>>

  const DefaultNotifications: map<string, Json> :=
    map["enabled" := JBool(true), "sound" := JBool(true), "volume" := JNum(75.0),
        "desktop" := JBool(true), "email" := JBool(false), "alarmSound" := JBool(true)]

  const DefaultUnits: map<string, Json> :=
    map["temperature" := JStr("celsius"), "windSpeed" := JStr("kmh"), "dateFormat" := JStr("DD/MM/YYYY")]

  const DefaultBackup: map<string, Json> :=
    map["autoBackup" := JBool(true), "backupFrequency" := JStr("weekly"), "exportFormat" := JStr("json")]

  const DefaultSecurity: map<string, Json> :=
    map["sessionTimeout" := JNum(60.0), "twoFactorAuth" := JBool(false), "loginNotifications" := JBool(true)]

  /** The heap as the page loads: the default sub-records as written in the source. */
  const InitialHeap: Heap := map[0 := DefaultNotifications, 1 := DefaultUnits, 2 := DefaultBackup, 3 := DefaultSecurity]

  /** `defaultSettings` itself: its scalar entries, and references to its sub-records. */
  const DefaultTop: map<string, Field> :=
    map["language" := Value(JStr("en")), "notifications" := Ref(0), "dataRetention" := Value(JNum(30.0)),
        "refreshRate" := Value(JNum(5.0)), "units" := Ref(1), "backup" := Ref(2), "security" := Ref(3)]

  /** The panel: the heap, the current settings object, the unsaved-changes flag, and
      the `systemSettings` entry of `localStorage`. */
  datatype Panel = Panel(heap: Heap, settings: map<string, Field>, unsaved: bool, stored: Option<string>)

  function Resolve(heap: Heap, f: Field): Json {
    match f
    case Value(v) => v
    case Ref(r) => if r in heap then JObj(heap[r]) else JNull
  }

  /** What the current settings object reads as. */
  function View(p: Panel): (j: Json)
    ensures j.JObj? && j.fields.Keys == p.settings.Keys
  {
    JObj(map k | k in p.settings :: Resolve(p.heap, p.settings[k]))
  }

  /** Every reference points into the heap, and no two top-level keys share an object. */
  predicate Separate(p: Panel) {
    && (forall k :: k in p.settings && p.settings[k].Ref? ==> p.settings[k].r in p.heap)
    && (forall k1, k2 :: k1 in p.settings && k2 in p.settings && p.settings[k1].Ref? && p.settings[k1] == p.settings[k2] ==> k1 == k2)
  }

  /** `{ ...defaultSettings, ...parsed }`: every key of a parsed object replaces the
      default entry wholesale, nested sub-records included. */
  function Spread(top: map<string, Field>, parsed: Json): (r: map<string, Field>)
    ensures parsed.JObj? ==> r.Keys == top.Keys + parsed.fields.Keys
    ensures parsed.JObj? ==> forall k :: k in parsed.fields ==> r[k] == Value(parsed.fields[k])
    ensures parsed.JObj? ==> forall k :: k in top && k !in parsed.fields ==> r[k] == top[k]
    ensures !parsed.JObj? ==> r == top
  {
    if parsed.JObj? then
      map k | k in top.Keys + parsed.fields.Keys :: if k in parsed.fields then Value(parsed.fields[k]) else top[k]
    else top
  }

  /** The panel as it mounts: the defaults, merged with the stored settings when they
      are present and parse. `parse` is `JSON.parse`, `None` when it throws. */
  function Mount(heap: Heap, stored: Option<string>, parse: string -> Option<Json>): (p: Panel)
    ensures !p.unsaved && p.stored == stored && p.heap == heap
    ensures stored.None? || stored == Some("") || parse(stored.value).None? ==> p.settings == DefaultTop
    ensures stored.Some? && stored.value != "" && parse(stored.value).Some? ==> p.settings == Spread(DefaultTop, parse(stored.value).value)
  {
    var settings :=
      if stored.Some? && stored.value != "" then
        match parse(stored.value)
        case Some(j) => Spread(DefaultTop, j)
        case None => DefaultTop
      else DefaultTop;
    Panel(heap, settings, false, stored)
  }

  /** On a fresh page the defaults read as written: the alarm sound is on, the volume
      is 75 and the refresh rate is 5 seconds. */
  lemma Defaults()
    ensures GetIn(View(Mount(InitialHeap, None, _ => None)), ["notifications", "alarmSound"]) == Some(JBool(true))
    ensures GetIn(View(Mount(InitialHeap, None, _ => None)), ["notifications", "volume"]) == Some(JNum(75.0))
    ensures GetIn(View(Mount(InitialHeap, None, _ => None)), ["refreshRate"]) == Some(JNum(5.0))
  {
    var v := View(Mount(InitialHeap, None, _ => None));
    assert v.fields["notifications"] == JObj(DefaultNotifications);
    assert ["notifications", "alarmSound"][1..] == ["alarmSound"];
    assert ["notifications", "volume"][1..] == ["volume"];
    assert ["alarmSound"][1..] == [];
    assert ["volume"][1..] == [];
    assert ["refreshRate"][1..] == [];
  }

  /** A stored `notifications` object replaces the whole default sub-record: any
      notification setting it lacks reads as missing, not as its default. */
  lemma StoredGroupReplacesDefaults(heap: Heap, s: string, parse: string -> Option<Json>, f: map<string, Json>, n: map<string, Json>, key: string)
    requires s != "" && parse(s) == Some(JObj(f)) && "notifications" in f && f["notifications"] == JObj(n) && key !in n
    ensures GetIn(View(Mount(heap, Some(s), parse)), ["notifications", key]) == None
  {
    var v := View(Mount(heap, Some(s), parse));
    assert v.fields["notifications"] == JObj(n);
    assert ["notifications", key][1..] == [key];
  }

  /** `updateSettings` with the path already split at the dots. The top-level object
      is copied, but the walk down the path follows the references, so a nested
      assignment writes into the shared object itself. `None` is the TypeError a
      strict-mode assignment into a non-object throws. */
  function UpdatePath(p: Panel, keys: seq<string>, v: Json): (r: Option<Panel>)
    requires 1 <= |keys|
    ensures r.Some? ==> r.value.unsaved && r.value.stored == p.stored
  {
    if |keys| == 1 then Some(p.(settings := p.settings[keys[0] := Value(v)], unsaved := true))
    else if keys[0] !in p.settings then None
    else match p.settings[keys[0]]
      case Value(j) =>
        (match SetIn(j, keys[1..], v)
         case None => None
         case Some(c) => Some(p.(settings := p.settings[keys[0] := Value(c)], unsaved := true)))
      case Ref(o) =>
        if o !in p.heap then None
        else match SetIn(JObj(p.heap[o]), keys[1..], v)
          case None => None
          case Some(c) => Some(p.(heap := p.heap[o := c.fields], unsaved := true))
  }

  /** `updateSettings(path, value)`. */
  function Update(p: Panel, path: string, v: Json): Option<Panel> {
    UpdatePath(p, Split(path, '.'), v)
  }

  /** As far as the current settings are concerned, an update is the assignment along
      its path: it fails exactly when that assignment would, and otherwise the
      settings read as the assigned value. With `SetThenGet` this means the leaf reads
      `v` and every path that parts ways with it reads as before. */
  lemma UpdateAssignsPath(p: Panel, keys: seq<string>, v: Json)
    requires 1 <= |keys| && Separate(p)
    ensures UpdatePath(p, keys, v).Some? <==> SetIn(View(p), keys, v).Some?
    ensures UpdatePath(p, keys, v).Some? ==> View(UpdatePath(p, keys, v).value) == SetIn(View(p), keys, v).value
  {
    var k := keys[0];
    if |keys| == 1 {
      ReplaceTop(p, k, v);
    } else if k in p.settings {
      assert View(p).fields[k] == Resolve(p.heap, p.settings[k]);
      match p.settings[k]
      case Value(j) =>
        if SetIn(j, keys[1..], v).Some? {
          ReplaceTop(p, k, SetIn(j, keys[1..], v).value);
        }
      case Ref(o) =>
        if SetIn(JObj(p.heap[o]), keys[1..], v).Some? {
          WriteShared(p, k, o, SetIn(JObj(p.heap[o]), keys[1..], v).value.fields);
        }
    }
  }

  /** Replacing a top-level entry by a plain value. */
  lemma ReplaceTop(p: Panel, k: string, c: Json)
    ensures View(p.(settings := p.settings[k := Value(c)], unsaved := true)) == JObj(View(p).fields[k := c])
  {
    var q := p.(settings := p.settings[k := Value(c)], unsaved := true);
    assert View(q).fields == View(p).fields[k := c];
  }

  /** Writing into the object that only `k` refers to. */
  lemma WriteShared(p: Panel, k: string, o: nat, f: map<string, Json>)
    requires Separate(p) && k in p.settings && p.settings[k] == Ref(o)
    ensures View(p.(heap := p.heap[o := f], unsaved := true)) == JObj(View(p).fields[k := JObj(f)])
  {
    var q := p.(heap := p.heap[o := f], unsaved := true);
    forall k2 | k2 in p.settings
      ensures View(q).fields[k2] == View(p).fields[k := JObj(f)][k2]
    {
      if k2 != k && p.settings[k2].Ref? {
        assert p.settings[k2].r != o;
      }
    }
    assert View(q).fields == View(p).fields[k := JObj(f)];
  }

  /** `saveSettings`: the current settings are stored, and nothing is unsaved.
      `stringify` is `JSON.stringify`. */
  function Save(p: Panel, stringify: Json -> string): (r: Panel)
    ensures r.stored == Some(stringify(View(p))) && !r.unsaved
    ensures View(r) == View(p)
  {
    p.(stored := Some(stringify(View(p))), unsaved := false)
  }

  /** Saving and mounting again, with a faithful round trip through JSON text, brings
      back every stored value. */
  lemma SaveThenMount(p: Panel, stringify: Json -> string, parse: string -> Option<Json>, k: string)
    requires parse(stringify(View(p))) == Some(View(p)) && stringify(View(p)) != "" && k in p.settings
    ensures GetIn(View(Mount(p.heap, Save(p, stringify).stored, parse)), [k]) == GetIn(View(p), [k])
  {
    assert [k][1..] == [];
  }

  /** `resetSettings`: back to `defaultSettings`, marked unsaved. */
  function Reset(p: Panel): (r: Panel)
    ensures r.settings == DefaultTop && r.unsaved && r.heap == p.heap && r.stored == p.stored
  {
    p.(settings := DefaultTop, unsaved := true)
  }

  /** `importSettings`: the same shallow merge over the defaults, marked unsaved; a
      file that does not parse changes neither the settings nor the flag. */
  function Import(p: Panel, text: string, parse: string -> Option<Json>): (r: Panel)
    ensures parse(text).None? ==> r == p
    ensures parse(text).Some? ==> r.settings == Spread(DefaultTop, parse(text).value) && r.unsaved
    ensures r.heap == p.heap && r.stored == p.stored
  {
    match parse(text)
    case None => p
    case Some(j) => p.(settings := Spread(DefaultTop, j), unsaved := true)
  }

  /** Switching the alarm sound off and then resetting does not bring it back on: the
      edit went into the default sub-record itself. */
  lemma ResetAfterNestedEdit()
    ensures var p := Mount(InitialHeap, None, _ => None);
            var edited := UpdatePath(p, ["notifications", "alarmSound"], JBool(false));
            && edited.Some?
            && GetIn(View(Reset(edited.value)), ["notifications", "alarmSound"]) == Some(JBool(false))
  {
    var p := Mount(InitialHeap, None, _ => None);
    assert ["notifications", "alarmSound"][1..] == ["alarmSound"];
    assert ["alarmSound"][1..] == [];
    var edited := UpdatePath(p, ["notifications", "alarmSound"], JBool(false)).value;
    assert edited.heap[0] == DefaultNotifications["alarmSound" := JBool(false)];
    assert View(Reset(edited)).fields["notifications"] == JObj(edited.heap[0]);
  }

  // ---------------------------------------------------------------------------
  // The evident intent: an update copies along its path
  // ---------------------------------------------------------------------------

  /** `updateSettings` copying every object it passes through, so that no shared
      object is ever written. */
  function UpdatePathCopying(p: Panel, keys: seq<string>, v: Json): (r: Option<Panel>)
    requires 1 <= |keys|
    ensures r.Some? ==> r.value.heap == p.heap && r.value.unsaved && r.value.stored == p.stored
    ensures r.Some? <==> SetIn(View(p), keys, v).Some?
    ensures r.Some? ==> View(r.value) == SetIn(View(p), keys, v).value
  {
    match SetIn(View(p), keys, v)
    case None => None
    case Some(c) =>
      var settings := map k | k in c.fields :: Value(c.fields[k]);
      var q := p.(settings := settings, unsaved := true);
      assert View(q).fields == c.fields;
      Some(q)
  }

  /** With copying updates the heap keeps the defaults as loaded, so a reset after any
      edit restores them. */
  lemma CopyingResetRestores(p: Panel, keys: seq<string>, v: Json)
    requires 1 <= |keys| && p.heap == InitialHeap && UpdatePathCopying(p, keys, v).Some?
    ensures View(Reset(UpdatePathCopying(p, keys, v).value)) == View(Mount(InitialHeap, None, _ => None))
  {
  }

  /** The example above, with copying updates: the alarm sound is on again. */
  lemma CopyingResetAfterNestedEdit()
    ensures var p := Mount(InitialHeap, None, _ => None);
            var edited := UpdatePathCopying(p, ["notifications", "alarmSound"], JBool(false));
            && edited.Some?
            && GetIn(View(Reset(edited.value)), ["notifications", "alarmSound"]) == Some(JBool(true))
  {
    var p := Mount(InitialHeap, None, _ => None);
    assert ["notifications", "alarmSound"][1..] == ["alarmSound"];
    assert ["alarmSound"][1..] == [];
    assert View(p).fields["notifications"] == JObj(DefaultNotifications);
    var edited := UpdatePathCopying(p, ["notifications", "alarmSound"], JBool(false)).value;
    assert View(Reset(edited)).fields["notifications"] == JObj(DefaultNotifications);
  }
}
