/** The add-device dialog (components/devices/add-device-dialog.tsx): it checks the
    three required fields, builds the new device from the form with defaults for
    whatever is left empty, and sends it to the store through the server action
    (actions/device-actions.ts), which turns a thrown error into `success: false`. */
module AddDevice {
  import opened Wrappers
  import opened Types
  import opened FirestoreStore

  /** The form's fifteen text fields. */
  datatype Form = Form(
    name: string, latitude: string, longitude: string,
    temperature: string, humidity: string, windSpeed: string, gasLevel: string,
    tempMin: string, tempMax: string, humidityMin: string, humidityMax: string,
    windMin: string, windMax: string, gasMin: string, gasMax: string)

  const EmptyForm: Form := Form("", "", "", "", "", "", "", "", "", "", "", "", "", "", "")

  /** The bounds a device gets for every field left empty. */
  const DefaultThresholds: Thresholds :=
    Thresholds(Bounds(-10.0, 50.0), Bounds(0.0, 100.0), Bounds(0.0, 30.0), Bounds(0.0, 1000.0))

  /** `parseFloat(x) || d`: the number, unless it is NaN or zero, which are both falsy. */
  function OrDefault(n: Num, d: real): (r: real)
    ensures n.Val? && n.r != 0.0 ==> r == n.r
    ensures n.NaN? || n == Val(0.0) ==> r == d
  {
    if n.Val? && n.r != 0.0 then n.r else d
  }

  /** The three required fields are filled in. */
  predicate Complete(f: Form) {
    f.name != "" && f.latitude != "" && f.longitude != ""
  }

  /** The device the form describes. `parse` is `parseFloat`. The coordinates are taken
      as parsed, NaN included; the readings default to 0 and the bounds to
      `DefaultThresholds`; the status is always online. */
  function Draft(f: Form, parse: string -> Num): (d: DeviceDraft)
    ensures d.name == f.name && d.status == Online
    ensures d.latitude == parse(f.latitude) && d.longitude == parse(f.longitude)
    ensures d.temperature == OrDefault(parse(f.temperature), 0.0) && d.humidity == OrDefault(parse(f.humidity), 0.0)
    ensures d.windSpeed == OrDefault(parse(f.windSpeed), 0.0) && d.gasLevel == OrDefault(parse(f.gasLevel), 0.0)
    ensures d.thresholds.temperature == Bounds(OrDefault(parse(f.tempMin), -10.0), OrDefault(parse(f.tempMax), 50.0))
    ensures d.thresholds.humidity == Bounds(OrDefault(parse(f.humidityMin), 0.0), OrDefault(parse(f.humidityMax), 100.0))
    ensures d.thresholds.windSpeed == Bounds(OrDefault(parse(f.windMin), 0.0), OrDefault(parse(f.windMax), 30.0))
    ensures d.thresholds.gasLevel == Bounds(OrDefault(parse(f.gasMin), 0.0), OrDefault(parse(f.gasMax), 1000.0))
  {
    DeviceDraft(
      f.name,
      OrDefault(parse(f.temperature), 0.0),
      OrDefault(parse(f.humidity), 0.0),
      OrDefault(parse(f.windSpeed), 0.0),
      OrDefault(parse(f.gasLevel), 0.0),
      parse(f.latitude),
      parse(f.longitude),
      Online,
      Thresholds(
        Bounds(OrDefault(parse(f.tempMin), -10.0), OrDefault(parse(f.tempMax), 50.0)),
        Bounds(OrDefault(parse(f.humidityMin), 0.0), OrDefault(parse(f.humidityMax), 100.0)),
        Bounds(OrDefault(parse(f.windMin), 0.0), OrDefault(parse(f.windMax), 30.0)),
        Bounds(OrDefault(parse(f.gasMin), 0.0), OrDefault(parse(f.gasMax), 1000.0))))
  }

  /** Empty bound fields give the default bounds. */
  lemma EmptyBoundsGiveDefaults(f: Form, parse: string -> Num)
    requires parse("") == NaN
    requires f.tempMin == f.tempMax == f.humidityMin == f.humidityMax == ""
    requires f.windMin == f.windMax == f.gasMin == f.gasMax == ""
    ensures Draft(f, parse).thresholds == DefaultThresholds
  {
  }

  /** A maximum entered as 0 is replaced like an empty one: 0 for the temperature
      maximum yields 50. */
  lemma ZeroMaximumIsReplaced(f: Form, parse: string -> Num)
    requires parse(f.tempMax) == Val(0.0)
    ensures Draft(f, parse).thresholds.temperature.max == 50.0
  {
  }

  /** The dialog: open or not, submitting or not, and the fields. */
  datatype Dialog = Dialog(open: bool, submitting: bool, form: Form)

  /** The toast a submission ends with. */
  datatype Notice = MissingFields | Added | AddFailed

  /** `handleSubmit`. An incomplete form is refused without calling the store. A
      successful add closes the dialog and empties the form; a failed one keeps both.
      `newId` is the id the store assigns and `now` the time of the write. */
  function Submit(dlg: Dialog, db: Db, parse: string -> Num, newId: string, now: int, faults: Faults): (r: (Dialog, Db, Notice))
    requires newId !in db.devices
    ensures !r.0.submitting
    ensures r.2 == MissingFields <==> !Complete(dlg.form)
    ensures r.2 == MissingFields ==> r.0 == dlg.(submitting := false) && r.1 == db
    ensures Complete(dlg.form) ==> (r.2 == Added <==> GetsThrough(faults))
    ensures r.2 == Added ==> && r.0 == Dialog(false, false, EmptyForm)
                             && r.1.devices == db.devices[newId := Created(newId, Draft(dlg.form, parse), now)]
                             && r.1.alerts == db.alerts
    ensures r.2 == AddFailed ==> r.0 == dlg.(submitting := false) && r.1 == db
  {
    if !Complete(dlg.form) then (dlg.(submitting := false), db, MissingFields)
    else
      var o := FirestoreStore.AddDevice(db, Draft(dlg.form, parse), newId, now, faults);
      if o.result.Ok? then (Dialog(false, false, EmptyForm), o.db, Added)
      else (dlg.(submitting := false), o.db, AddFailed)
  }

  /** A device added through the dialog starts online with its readings inside the
      default bounds when only the required fields were filled in. */
  lemma MinimalDeviceStartsInRange(f: Form, parse: string -> Num)
    requires parse("") == NaN
    requires f.temperature == f.humidity == f.windSpeed == f.gasLevel == ""
    requires f.tempMin == f.tempMax == f.humidityMin == f.humidityMax == ""
    requires f.windMin == f.windMax == f.gasMin == f.gasMax == ""
    ensures var d := Created("", Draft(f, parse), 0);
            d.status == Online && forall m: Metric :: !InViolation(d, m)
  {
  }
}
