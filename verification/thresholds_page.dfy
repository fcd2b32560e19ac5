/** The thresholds editor (app/thresholds/page.tsx): opening it on a device copies the
    eight bounds into text fields; saving parses them back and sends them as one
    `{thresholds}` update. The editor closes only when the update succeeds. */
module ThresholdsPage {
  import opened Wrappers
  import opened Types
  import opened FirestoreStore

  /** The eight text fields, two per metric. */
  datatype Form = Form(
    tempMin: string, tempMax: string,
    humidityMin: string, humidityMax: string,
    windMin: string, windMax: string,
    gasMin: string, gasMax: string)

  const EmptyForm: Form := Form("", "", "", "", "", "", "", "")

  /** The device being edited, if any, and the fields. */
  datatype Page = Page(editing: Option<Device>, form: Form)

  /** The toast a save ends with, if it got as far as the store. */
  datatype Notice = Saved | SaveFailed | NotANumber

  /** The two fields of metric `m`. */
  function FieldsOf(f: Form, m: Metric): (string, string) {
    match m
    case Temperature => (f.tempMin, f.tempMax)
    case Humidity => (f.humidityMin, f.humidityMax)
    case WindSpeed => (f.windMin, f.windMax)
    case GasLevel => (f.gasMin, f.gasMax)
  }

  /** `handleEditDevice`: every bound is written into its own field as text (`show` is
      `Number.prototype.toString`). */
  function EditDevice(p: Page, d: Device, show: real -> string): (r: Page)
    ensures r.editing == Some(d)
    ensures forall m: Metric :: FieldsOf(r.form, m) == (show(BoundsOf(d.thresholds, m).min), show(BoundsOf(d.thresholds, m).max))
  {
    var t := d.thresholds;
    Page(Some(d), Form(
      show(t.temperature.min), show(t.temperature.max),
      show(t.humidity.min), show(t.humidity.max),
      show(t.windSpeed.min), show(t.windSpeed.max),
      show(t.gasLevel.min), show(t.gasLevel.max)))
  }

  /** The thresholds the fields spell, each field read back into its own metric and
      bound; `None` if any of them is not a number. No field is checked against its
      partner: a minimum above the maximum is taken as it is. */
  function ParseForm(f: Form, parse: string -> Num): (r: Option<Thresholds>)
    ensures r.Some? <==> forall m: Metric :: parse(FieldsOf(f, m).0).Val? && parse(FieldsOf(f, m).1).Val?
    ensures r.Some? ==> forall m: Metric :: BoundsOf(r.value, m) == Bounds(parse(FieldsOf(f, m).0).r, parse(FieldsOf(f, m).1).r)
  {
    var ns := [parse(f.tempMin), parse(f.tempMax), parse(f.humidityMin), parse(f.humidityMax),
               parse(f.windMin), parse(f.windMax), parse(f.gasMin), parse(f.gasMax)];
    if forall i :: 0 <= i < |ns| ==> ns[i].Val? then
      Some(Thresholds(
        Bounds(ns[0].r, ns[1].r), Bounds(ns[2].r, ns[3].r),
        Bounds(ns[4].r, ns[5].r), Bounds(ns[6].r, ns[7].r)))
    else
      assert exists m: Metric :: !(parse(FieldsOf(f, m).0).Val? && parse(FieldsOf(f, m).1).Val?) by {
        var i :| 0 <= i < |ns| && !ns[i].Val?;
        if i < 2 { assert !(parse(FieldsOf(f, Temperature).0).Val? && parse(FieldsOf(f, Temperature).1).Val?); }
        else if i < 4 { assert !(parse(FieldsOf(f, Humidity).0).Val? && parse(FieldsOf(f, Humidity).1).Val?); }
        else if i < 6 { assert !(parse(FieldsOf(f, WindSpeed).0).Val? && parse(FieldsOf(f, WindSpeed).1).Val?); }
        else { assert !(parse(FieldsOf(f, GasLevel).0).Val? && parse(FieldsOf(f, GasLevel).1).Val?); }
      }
      None
  }

  /** `handleSaveThresholds`: with no device being edited nothing happens; otherwise
      the parsed thresholds go to the store as a `{thresholds}` update, and the
      editor closes only if it succeeds. */
  function SaveThresholds(p: Page, db: Db, parse: string -> Num, now: int, faults: Faults): (r: (Page, Db, Option<Notice>))
    ensures p.editing.None? ==> r == (p, db, None)
    ensures r.1 != db ==> p.editing.Some? && ParseForm(p.form, parse).Some?
    ensures r.2 == Some(Saved) <==> r.0.editing.None? && p.editing.Some?
    ensures r.2 == Some(Saved) ==> && p.editing.Some? && ParseForm(p.form, parse).Some?
                                   && r.1 == UpdateDevice(db, p.editing.value.id, ThresholdsPatch(ParseForm(p.form, parse).value), now, faults).db
    ensures r.2 != Some(Saved) ==> r.0 == p
    ensures p.editing.Some? && ParseForm(p.form, parse).Some? ==>
              (r.2 == Some(Saved) <==> p.editing.value.id in db.devices && GetsThrough(faults))
  {
    match p.editing
    case None => (p, db, None)
    case Some(d) =>
      match ParseForm(p.form, parse)
      case None => (p, db, Some(NotANumber))
      case Some(t) =>
        var o := UpdateDevice(db, d.id, ThresholdsPatch(t), now, faults);
        if o.result.Ok? then (p.(editing := None), o.db, Some(Saved)) else (p, o.db, Some(SaveFailed))
  }

  /** Opening the editor and saving at once stores the device's own thresholds, when
      the text of a number reads back as that number, and restamps the device. */
  lemma EditThenSaveKeepsThresholds(p: Page, db: Db, d: Device, show: real -> string, parse: string -> Num, now: int, faults: Faults)
    requires forall x: real :: parse(show(x)) == Val(x)
    requires d.id in db.devices && GetsThrough(faults)
    ensures var r := SaveThresholds(EditDevice(p, d, show), db, parse, now, faults);
            && r.2 == Some(Saved)
            && r.1.devices[d.id].thresholds == d.thresholds
            && r.1.devices[d.id].lastUpdated == now
  {
    var e := EditDevice(p, d, show);
    var t := ParseForm(e.form, parse).value;
    assert BoundsOf(t, Temperature) == d.thresholds.temperature;
    assert BoundsOf(t, Humidity) == d.thresholds.humidity;
    assert BoundsOf(t, WindSpeed) == d.thresholds.windSpeed;
    assert BoundsOf(t, GasLevel) == d.thresholds.gasLevel;
  }
}
