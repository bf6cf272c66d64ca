/** The admin dashboard: toggling a slot's occupancy, deleting a lot, the
    edit form's submission and the revenue total over all reservations. */
module AdminParking {
  import opened Common
  import opened RestApi

  // ---------------------------------------------------------------------------
  // toggleSlot

  /** A slot counts as free when its `isOccupied` is falsy. */
  predicate IsFree(slot: Slot) {
    !Truthy(slot.isOccupied)
  }

  /** `newSlots.filter((s) => !s.isOccupied).length`. */
  function CountFree(slots: seq<Slot>): (n: nat)
    ensures n <= |slots|
  {
    if slots == [] then 0 else (if IsFree(slots[0]) then 1 else 0) + CountFree(slots[1..])
  }

  /** The free slots, in order: `CountFree` is their number. */
  lemma {:induction false} CountFreeIsFilter(slots: seq<Slot>)
    ensures CountFree(slots) == |Filter(slots, IsFree)|
  {
    if slots != [] {
      CountFreeIsFilter(slots[1..]);
      FilterAppend([slots[0]], slots[1..], IsFree);
      assert [slots[0]] + slots[1..] == slots;
    }
  }

  /** `!slot.isOccupied` for the slot with the given id. */
  function ToggleOne(slot: Slot, slotId: Json): Slot {
    if slot.slotId == slotId then slot.(isOccupied := Bool(!Truthy(slot.isOccupied))) else slot
  }

  function ToggleSlots(slots: seq<Slot>, slotId: Json): (r: seq<Slot>)
    ensures |r| == |slots|
    ensures forall i :: 0 <= i < |slots| ==> r[i] == ToggleOne(slots[i], slotId)
  {
    if slots == [] then [] else [ToggleOne(slots[0], slotId)] + ToggleSlots(slots[1..], slotId)
  }

  /** One lot under `toggleSlot`: the lot with the given id gets its slots
      toggled and its `availableSpots` recounted. */
  function ToggleLot(lot: ParkingLot, lotId: Json, slotId: Json): ParkingLot {
    if lot.id != lotId then lot
    else
      var slots := ToggleSlots(lot.slots, slotId);
      lot.(slots := slots, availableSpots := Num(CountFree(slots) as real))
  }

  /** `toggleSlot(lotId, slotId)` applied to the list of lots. */
  function ToggledLots(lots: seq<ParkingLot>, lotId: Json, slotId: Json): (r: seq<ParkingLot>)
    ensures |r| == |lots|
    ensures forall i :: 0 <= i < |lots| ==> r[i] == ToggleLot(lots[i], lotId, slotId)
  {
    if lots == [] then [] else [ToggleLot(lots[0], lotId, slotId)] + ToggledLots(lots[1..], lotId, slotId)
  }

  /** Other lots are untouched; in the toggled lot only the slots and the
      available count change; only the slots with the given id flip, each to
      the negation of its old truthiness; and the lot then shows exactly as
      many available spots as it has free slots. */
  lemma ToggledLotsSpec(lots: seq<ParkingLot>, lotId: Json, slotId: Json)
    ensures var r := ToggledLots(lots, lotId, slotId);
            && (forall i :: 0 <= i < |lots| && lots[i].id != lotId ==> r[i] == lots[i])
            && (forall i :: 0 <= i < |lots| && lots[i].id == lotId ==>
                  && r[i] == lots[i].(slots := r[i].slots, availableSpots := r[i].availableSpots)
                  && |r[i].slots| == |lots[i].slots|
                  && r[i].availableSpots == Num(|Filter(r[i].slots, IsFree)| as real)
                  && forall j :: 0 <= j < |lots[i].slots| ==>
                       && r[i].slots[j].slotId == lots[i].slots[j].slotId
                       && (lots[i].slots[j].slotId != slotId ==> r[i].slots[j] == lots[i].slots[j])
                       && (lots[i].slots[j].slotId == slotId ==>
                             r[i].slots[j].isOccupied == Bool(!Truthy(lots[i].slots[j].isOccupied))))
  {
    var r := ToggledLots(lots, lotId, slotId);
    forall i | 0 <= i < |lots| && lots[i].id == lotId
      ensures r[i].availableSpots == Num(|Filter(r[i].slots, IsFree)| as real)
    {
      CountFreeIsFilter(r[i].slots);
    }
  }

  /** A slot whose flag is a boolean. */
  predicate HasBoolFlag(slot: Slot) {
    slot.isOccupied.Bool?
  }

  /** Toggling the same slot twice restores the lot's slots, provided the
      toggled slots' flags were booleans (as `toggleSlot` itself leaves
      them). */
  lemma ToggleTwiceRestoresSlots(lot: ParkingLot, slotId: Json)
    requires forall j :: 0 <= j < |lot.slots| && lot.slots[j].slotId == slotId ==> HasBoolFlag(lot.slots[j])
    ensures ToggleLot(ToggleLot(lot, lot.id, slotId), lot.id, slotId).slots == lot.slots
  {
    var once := ToggleSlots(lot.slots, slotId);
    var twice := ToggleSlots(once, slotId);
    assert forall j :: 0 <= j < |lot.slots| ==> twice[j] == lot.slots[j];
  }

  /** Without a boolean flag it does not: a slot whose `occupied` was missing
      in the API record comes back with `false`. */
  lemma ToggleTwiceMissingFlag()
    ensures var lot := ParkingLot(Str("L1"), Null, Null, Null, 0.0, Null, Null, Null, Null, Null,
                                  [Slot(Str("S1"), Undefined)], Null);
            ToggleLot(ToggleLot(lot, Str("L1"), Str("S1")), Str("L1"), Str("S1")).slots
              == [Slot(Str("S1"), Bool(false))]
  {
    var lot := ParkingLot(Str("L1"), Null, Null, Null, 0.0, Null, Null, Null, Null, Null,
                          [Slot(Str("S1"), Undefined)], Null);
    assert ToggleSlots(lot.slots, Str("S1")) == [Slot(Str("S1"), Bool(true))];
    assert ToggleSlots([Slot(Str("S1"), Bool(true))], Str("S1")) == [Slot(Str("S1"), Bool(false))];
  }

  // ---------------------------------------------------------------------------
  // handleDeleteLot

  /** `prev.filter((lot) => lot.id !== lotId)`. */
  function RemoveLot(lots: seq<ParkingLot>, lotId: Json): seq<ParkingLot> {
    Filter(lots, (lot: ParkingLot) => lot.id != lotId)
  }

  /** Deleting removes exactly the lots with that id and keeps the order of
      the others. */
  lemma RemoveLotSpec(lots: seq<ParkingLot>, more: seq<ParkingLot>, lotId: Json)
    ensures forall i :: 0 <= i < |RemoveLot(lots, lotId)| ==>
              RemoveLot(lots, lotId)[i] in lots && RemoveLot(lots, lotId)[i].id != lotId
    ensures forall i :: 0 <= i < |lots| && lots[i].id != lotId ==> lots[i] in RemoveLot(lots, lotId)
    ensures RemoveLot(lots + more, lotId) == RemoveLot(lots, lotId) + RemoveLot(more, lotId)
    ensures (forall i :: 0 <= i < |lots| ==> lots[i].id != lotId) ==> RemoveLot(lots, lotId) == lots
  {
    FilterAppend(lots, more, (lot: ParkingLot) => lot.id != lotId);
    if forall i :: 0 <= i < |lots| ==> lots[i].id != lotId {
      FilterAll(lots, (lot: ParkingLot) => lot.id != lotId);
    }
  }

  // ---------------------------------------------------------------------------
  // handleEditSubmit

  /** The fields the edit form must have, in the order they are checked. */
  const REQUIRED_FIELDS: seq<string> := ["name", "type", "pricePerHour", "openingTime", "closingTime"]

  /** The first required field whose value is falsy, if any. */
  function FirstMissing(edit: map<string, Json>, fields: seq<string>): (r: Option<nat>)
    ensures r.Some? ==> r.value < |fields| && !Truthy(Get(edit, fields[r.value]))
    ensures r.Some? ==> forall j :: 0 <= j < r.value ==> Truthy(Get(edit, fields[j]))
    ensures r.None? <==> forall j :: 0 <= j < |fields| ==> Truthy(Get(edit, fields[j]))
  {
    if fields == [] then None
    else if !Truthy(Get(edit, fields[0])) then Some(0)
    else
      match FirstMissing(edit, fields[1..])
      case None => None
      case Some(k) => Some(k + 1)
  }

  /** The body sent to `updateParkingLot`: `locationId` renamed to `location`. */
  function EditPayload(edit: map<string, Json>): (r: map<string, Json>)
    ensures r.Keys == edit.Keys - {"locationId"} + {"location"}
    ensures r["location"] == Get(edit, "locationId")
    ensures forall k :: k in edit && k != "locationId" && k != "location" ==> r[k] == edit[k]
  {
    (edit - {"locationId"})["location" := Get(edit, "locationId")]
  }

  /** Renaming back recovers the form: the payload loses nothing but the
      form's own `location`, which it overwrites. */
  lemma EditPayloadRoundTrip(edit: map<string, Json>)
    requires "location" !in edit && "locationId" in edit
    ensures var r := EditPayload(edit);
            (r - {"location"})["locationId" := r["location"]] == edit
  {
    var r := EditPayload(edit);
    assert (r - {"location"})["locationId" := r["location"]].Keys == edit.Keys;
  }

  /** The fields of a lot as the edit form copies them (`{...lot}`). */
  function LotFields(lot: ParkingLot): map<string, Json> {
    map[
      "id" := lot.id, "name" := lot.name, "totalSpots" := lot.totalSpots,
      "availableSpots" := lot.availableSpots, "pricePerHour" := Num(lot.pricePerHour),
      "type" := lot.lotType, "openingTime" := lot.openingTime, "closingTime" := lot.closingTime,
      "createdAt" := lot.createdAt, "locationId" := lot.locationId,
      "slots" := Arr(SlotObjects(lot.slots)), "createdBy" := lot.createdBy]
  }

  function SlotObjects(slots: seq<Slot>): (r: seq<Json>)
    ensures |r| == |slots|
  {
    if slots == [] then []
    else [Obj(map["slotId" := slots[0].slotId, "isOccupied" := slots[0].isOccupied])] + SlotObjects(slots[1..])
  }

  /** The snackbar: a message, its kind and whether it shows. */
  datatype Snack = Snack(message: string, kind: string, visible: bool)

  /** `reservations.reduce((sum, r) => sum + (parseFloat(r.pricePaid) || 0), 0)`,
      read from the left. */
  function TotalRevenue(reservations: seq<Json>): real {
    if reservations == [] then 0.0
    else TotalRevenue(reservations[..|reservations| - 1]) + ParseFloatOrZero(Prop(reservations[|reservations| - 1], "pricePaid"))
  }

  /** The total over two lists is the sum of their totals, a single
      reservation contributes its numeric price, and a reservation without a
      readable price contributes nothing. */
  lemma {:induction false} TotalRevenueAppend(a: seq<Json>, b: seq<Json>)
    ensures TotalRevenue(a + b) == TotalRevenue(a) + TotalRevenue(b)
    decreases |b|
  {
    if b == [] {
      assert a + b == a;
    } else {
      var last := b[|b| - 1];
      assert (a + b)[..|a + b| - 1] == a + b[..|b| - 1];
      TotalRevenueAppend(a, b[..|b| - 1]);
    }
  }

  lemma TotalRevenueOne(r: Json, n: nat)
    ensures Prop(r, "pricePaid") == Num(n as real) ==> TotalRevenue([r]) == n as real
    ensures Prop(r, "pricePaid") == Str(NatToString(n)) ==> TotalRevenue([r]) == n as real
    ensures ParseFloat(Prop(r, "pricePaid")).None? ==> TotalRevenue([r]) == 0.0
  {
    TotalRevenueSingle(r);
    if Prop(r, "pricePaid") == Str(NatToString(n)) {
      ParseFloatOfNatString(n);
      assert ParseFloat(Prop(r, "pricePaid")) == Some(n as real);
    }
  }

  /** A single reservation's total is its price read by `parseFloat(...) || 0`. */
  lemma TotalRevenueSingle(r: Json)
    ensures TotalRevenue([r]) == ParseFloatOrZero(Prop(r, "pricePaid"))
  {
    assert [r][..0] == [];
  }

  /** The dashboard's state. */
  class AdminParkingPage {
    var parkingLots: seq<ParkingLot>
    var reservations: seq<Json>
    var editLot: Option<map<string, Json>>
    var snackbar: Snack

    /** The dashboard once both lists were loaded. */
    constructor (lots: seq<ParkingLot>, resv: seq<Json>)
      ensures parkingLots == lots && reservations == resv && editLot == None
      ensures snackbar == Snack("", "", false)
    {
      parkingLots := lots;
      reservations := resv;
      editLot := None;
      snackbar := Snack("", "", false);
    }

    method ToggleSlot(lotId: Json, slotId: Json)
      modifies this
      ensures parkingLots == ToggledLots(old(parkingLots), lotId, slotId)
      ensures reservations == old(reservations) && editLot == old(editLot) && snackbar == old(snackbar)
    {
      parkingLots := ToggledLots(parkingLots, lotId, slotId);
    }

    /** `handleDeleteLot`: `confirmed` is the answer to the confirmation
        dialog and `deleted` what `deleteParkingLot` reported. */
    method HandleDeleteLot(lotId: Json, confirmed: bool, deleted: bool)
      modifies this
      ensures reservations == old(reservations) && editLot == old(editLot)
      ensures !confirmed ==> parkingLots == old(parkingLots) && snackbar == old(snackbar)
      ensures confirmed && deleted ==>
                parkingLots == RemoveLot(old(parkingLots), lotId)
                && snackbar == Snack("Parking lot deleted successfully.", "success", true)
      ensures confirmed && !deleted ==>
                parkingLots == old(parkingLots) && snackbar == Snack("Failed to delete parking lot.", "error", true)
    {
      if !confirmed {
        return;
      }
      if deleted {
        parkingLots := RemoveLot(parkingLots, lotId);
        snackbar := Snack("Parking lot deleted successfully.", "success", true);
      } else {
        snackbar := Snack("Failed to delete parking lot.", "error", true);
      }
    }

    /** `handleEditLot`: the form starts as a copy of the lot. */
    method HandleEditLot(lot: ParkingLot)
      modifies this
      ensures editLot == Some(LotFields(lot))
      ensures parkingLots == old(parkingLots) && reservations == old(reservations) && snackbar == old(snackbar)
    {
      editLot := Some(LotFields(lot));
    }

    /** `handleEditChange`: the typed text replaces one field of the form
        (spreading a closed form gives no fields). */
    method HandleEditChange(name: string, value: string)
      modifies this
      ensures editLot.Some? && Get(editLot.value, name) == Str(value)
      ensures old(editLot).Some? ==> editLot.value.Keys == old(editLot).value.Keys + {name}
      ensures old(editLot).Some? ==> forall k :: k in old(editLot).value && k != name ==> editLot.value[k] == old(editLot).value[k]
      ensures old(editLot).None? ==> editLot == Some(map[name := Str(value)])
      ensures parkingLots == old(parkingLots) && reservations == old(reservations) && snackbar == old(snackbar)
    {
      var previous := if editLot.Some? then editLot.value else map[];
      editLot := Some(previous[name := Str(value)]);
    }

    /** `handleCloseSnackbar`: the message stays, hidden. */
    method CloseSnackbar()
      modifies this
      ensures snackbar == old(snackbar).(visible := false)
      ensures parkingLots == old(parkingLots) && reservations == old(reservations) && editLot == old(editLot)
    {
      snackbar := snackbar.(visible := false);
    }

    /** `handleEditSubmit`. `send` is what `updateParkingLot` gives for the
        payload (`null` on failure) and `refreshed` what refetching the lots
        gives afterwards. With no form open, reading its first field throws
        and nothing changes. */
    method HandleEditSubmit(send: map<string, Json> -> Json, refreshed: Result<seq<ParkingLot>>)
      returns (sent: Option<map<string, Json>>)
      modifies this
      ensures reservations == old(reservations)
      ensures old(editLot).None? ==> sent == None && parkingLots == old(parkingLots) && editLot == old(editLot) && snackbar == old(snackbar)
      ensures old(editLot).Some? && FirstMissing(old(editLot).value, REQUIRED_FIELDS).Some? ==>
                && sent == None && parkingLots == old(parkingLots) && editLot == old(editLot)
                && snackbar == Snack("Please fill in " + REQUIRED_FIELDS[FirstMissing(old(editLot).value, REQUIRED_FIELDS).value], "error", true)
      ensures old(editLot).Some? && FirstMissing(old(editLot).value, REQUIRED_FIELDS).None? ==>
                && sent == Some(EditPayload(old(editLot).value))
                && if Truthy(send(sent.value)) then
                     && parkingLots == (if refreshed.Ok? then refreshed.value else old(parkingLots))
                     && editLot == None
                     && snackbar == Snack("Parking lot updated successfully.", "success", true)
                   else
                     && parkingLots == old(parkingLots) && editLot == old(editLot)
                     && snackbar == Snack("Failed to update parking lot.", "error", true)
    {
      sent := None;
      if editLot.None? {
        return;
      }
      var edit := editLot.value;
      var i := 0;
      while i < |REQUIRED_FIELDS|
        invariant 0 <= i <= |REQUIRED_FIELDS|
        invariant forall j :: 0 <= j < i ==> Truthy(Get(edit, REQUIRED_FIELDS[j]))
      {
        if !Truthy(Get(edit, REQUIRED_FIELDS[i])) {
          assert FirstMissing(edit, REQUIRED_FIELDS) == Some(i);
          snackbar := Snack("Please fill in " + REQUIRED_FIELDS[i], "error", true);
          return;
        }
        i := i + 1;
      }
      var payload := EditPayload(edit);
      sent := Some(payload);
      if Truthy(send(payload)) {
        if refreshed.Ok? {
          parkingLots := refreshed.value;
        } else {
          snackbar := Snack("Failed to refresh parking lots after update.", "error", true);
        }
        snackbar := Snack("Parking lot updated successfully.", "success", true);
        editLot := None;
      } else {
        snackbar := Snack("Failed to update parking lot.", "error", true);
      }
    }
  }
}
