/** The devices page (app/devices/page.tsx): the name search and the remove action. */
module DevicesPage {
  import opened Wrappers
  import opened Types
  import opened Strings
  import opened Lists
  import opened FirestoreStore

  /** The device's name holds the search term, ignoring case. */
  predicate NameMatches(d: Device, term: string) {
    Contains(Lower(d.name), Lower(term))
  }

  /** `filteredDevices`, which both the table and the card list render: the devices
      whose name matches, in their original order. */
  function FilteredDevices(devices: seq<Device>, term: string): (r: seq<Device>)
    ensures IsSubsequence(r, devices)
    ensures forall i :: 0 <= i < |r| ==> NameMatches(r[i], term)
    ensures forall i :: 0 <= i < |devices| && NameMatches(devices[i], term) ==> devices[i] in r
    ensures forall d :: multiset(r)[d] == if NameMatches(d, term) then multiset(devices)[d] else 0
  {
    var matches := (d: Device) => NameMatches(d, term);
    FilterMultiplicity(devices, matches);
    Filter(devices, matches)
  }

  /** An empty search keeps every device. */
  lemma EmptySearchKeepsAll(devices: seq<Device>)
    ensures FilteredDevices(devices, "") == devices
  {
    forall i | 0 <= i < |devices|
      ensures NameMatches(devices[i], "")
    {
      assert Lower("") == "";
      ContainsEmpty(Lower(devices[i].name));
    }
    FilterKeepsAll(devices, (d: Device) => NameMatches(d, ""));
  }

  /** The toast a removal ends with. */
  datatype Notice = Removed(deviceName: string) | RemoveFailed

  /** `handleRemoveDevice`: deletes the row's device and reports the outcome; a
      failure is reported, not rethrown. The device's alerts stay in the store. */
  function RemoveDevice(db: Db, id: string, name: string, faults: Faults): (r: (Db, Notice))
    ensures r.1 == Removed(name) <==> GetsThrough(faults)
    ensures r.1 == RemoveFailed <==> !GetsThrough(faults)
    ensures r.0 == DeleteDevice(db, id, faults).db
    ensures r.0.alerts == db.alerts
    ensures GetsThrough(faults) ==> r.0.devices == db.devices - {id}
  {
    var o := DeleteDevice(db, id, faults);
    (o.db, if o.result.Ok? then Removed(name) else RemoveFailed)
  }
}
