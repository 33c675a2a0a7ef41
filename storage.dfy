/** The local record store: the `waste_locations` array of reported waste sites, read, appended to,
    filtered and cleared as a whole. */
module Storage {
  import opened Wrappers
  import opened Seqs
  import Text

  const WasteLocationsKey := "waste_locations"

  /** An accelerometer reading. */
  datatype Vector = Vector(x: real, y: real, z: real)

  /** The fields a caller supplies for a new record; coordinates and readings are opaque payload. */
  datatype LocationInput = LocationInput(
    description: string, photos: seq<string>, latitude: real, longitude: real,
    noiseLevel: Option<real>, lightLevel: Option<real>, accelerometer: Option<Vector>)

  /** A stored record: the caller's fields plus a generated id and an ISO timestamp. */
  datatype WasteLocation = WasteLocation(id: string, timestamp: string, fields: LocationInput)

  /** What the storage key holds: nothing, text that does not parse as a record array, or records. */
  datatype StoredList = Missing | Unparseable | Parsed(records: seq<WasteLocation>)

  /** `getWasteLocations`: the stored records, or `[]` when nothing is stored or parsing fails. */
  function Locations(s: StoredList): seq<WasteLocation>
  {
    if s.Parsed? then s.records else []
  }

  /** The record `saveWasteLocation` builds: id `Date.now().toString()`, timestamp the ISO clock. */
  function NewLocation(fields: LocationInput, now: nat, isoNow: string): WasteLocation
  {
    WasteLocation(Text.NatToString(now), isoNow, fields)
  }

  /** `filter(location => location.id !== id)`. */
  function WithoutId(rs: seq<WasteLocation>, id: string): seq<WasteLocation>
  {
    Filter(rs, (r: WasteLocation) => r.id != id)
  }

  /** The stored list after `saveWasteLocation`. */
  function AfterSave(s: StoredList, fields: LocationInput, now: nat, isoNow: string): StoredList
  {
    Parsed(Locations(s) + [NewLocation(fields, now, isoNow)])
  }

  /** The stored list after `deleteWasteLocation`. */
  function AfterDelete(s: StoredList, id: string): StoredList
  {
    Parsed(WithoutId(Locations(s), id))
  }

  /** Saving appends exactly one record after the existing ones, carrying every input field, the
      generated id and the timestamp. */
  lemma SaveAppends(s: StoredList, fields: LocationInput, now: nat, isoNow: string)
    ensures var rs := Locations(AfterSave(s, fields, now, isoNow));
      && rs == Locations(s) + [NewLocation(fields, now, isoNow)]
      && |rs| == |Locations(s)| + 1
      && rs[..|Locations(s)|] == Locations(s)
      && rs[|rs| - 1].fields == fields
      && rs[|rs| - 1].id == Text.NatToString(now)
      && rs[|rs| - 1].timestamp == isoNow
  {
  }

  /** `getWasteLocations` hides why nothing was read: a missing slot, unparseable text and an empty
      array read alike, and every save or delete that follows behaves alike on them. */
  lemma UnreadableIsEmpty(fields: LocationInput, now: nat, isoNow: string, id: string)
    ensures Locations(Missing) == Locations(Unparseable) == Locations(Parsed([])) == []
    ensures AfterSave(Missing, fields, now, isoNow) == AfterSave(Unparseable, fields, now, isoNow)
      == AfterSave(Parsed([]), fields, now, isoNow)
    ensures AfterDelete(Missing, id) == AfterDelete(Unparseable, id) == AfterDelete(Parsed([]), id) == Parsed([])
  {
    assert WithoutId([], id) == [];
  }

  /** Saving over text that does not parse starts a fresh list holding only the new record. */
  lemma SaveOverUnparseable(fields: LocationInput, now: nat, isoNow: string)
    ensures Locations(AfterSave(Unparseable, fields, now, isoNow)) == [NewLocation(fields, now, isoNow)]
  {
  }

  /** Deleting an id leaves no record with it, keeps every other record (the filter keeps their
      order), and leaves the records unchanged when none has the id. */
  lemma DeleteEffect(s: StoredList, id: string)
    ensures var rs := Locations(AfterDelete(s, id));
      && (forall i :: 0 <= i < |rs| ==> rs[i].id != id && rs[i] in Locations(s))
      && (forall i :: 0 <= i < |Locations(s)| ==> (Locations(s)[i] in rs <==> Locations(s)[i].id != id))
    ensures (forall i :: 0 <= i < |Locations(s)| ==> Locations(s)[i].id != id) ==>
      Locations(AfterDelete(s, id)) == Locations(s)
  {
    if forall i :: 0 <= i < |Locations(s)| ==> Locations(s)[i].id != id {
      FilterAllPass(Locations(s), (r: WasteLocation) => r.id != id);
    }
  }

  /** Deleting the same id twice is deleting it once. */
  lemma DeleteIdempotent(s: StoredList, id: string)
    ensures AfterDelete(AfterDelete(s, id), id) == AfterDelete(s, id)
  {
    FilterIdempotent(Locations(s), (r: WasteLocation) => r.id != id);
  }

  /** Deleting a record just saved under a fresh id restores the earlier records. */
  lemma SaveThenDelete(s: StoredList, fields: LocationInput, now: nat, isoNow: string)
    requires forall i :: 0 <= i < |Locations(s)| ==> Locations(s)[i].id != Text.NatToString(now)
    ensures Locations(AfterDelete(AfterSave(s, fields, now, isoNow), Text.NatToString(now))) == Locations(s)
  {
    var p := (r: WasteLocation) => r.id != Text.NatToString(now);
    FilterAppend(Locations(s), [NewLocation(fields, now, isoNow)], p);
    FilterAllPass(Locations(s), p);
    assert Filter([NewLocation(fields, now, isoNow)], p) == [];
  }

  /** The device's `waste_locations` storage slot. */
  class RecordStore {
    var stored: StoredList

    constructor (initial: StoredList)
      ensures stored == initial
    {
      stored := initial;
    }

    /** `saveWasteLocation`: read, append one record, write the whole array back. */
    method SaveWasteLocation(fields: LocationInput, now: nat, isoNow: string)
      modifies this
      ensures stored == AfterSave(old(stored), fields, now, isoNow)
    {
      var existingData := Locations(stored);
      var newLocation := NewLocation(fields, now, isoNow);
      stored := Parsed(existingData + [newLocation]);
    }

    /** `getWasteLocations`. */
    function GetWasteLocations(): seq<WasteLocation>
      reads this
    {
      Locations(stored)
    }

    /** `deleteWasteLocation`: read, filter the id out, write back. */
    method DeleteWasteLocation(id: string)
      modifies this
      ensures stored == AfterDelete(old(stored), id)
    {
      var existingData := Locations(stored);
      stored := Parsed(WithoutId(existingData, id));
    }

    /** `clearAllWasteLocations`: remove the key. */
    method ClearAllWasteLocations()
      modifies this
      ensures stored == Missing
      ensures GetWasteLocations() == []
    {
      stored := Missing;
    }
  }
}
