/** The decisions the REST client makes around its HTTP calls: which cities to
    offer, how a lot list is wrapped, when a status update is refused and what
    it sends, how an API parking lot is normalised, what a new reservation
    carries, and how reservations are enriched. Every HTTP exchange is a
    parameter: a response body that was read (`Ok`) or a call that threw
    (`Err`). */
module RestApi {
  import opened Common

  // ---------------------------------------------------------------------------
  // getAllCities

  predicate NoDuplicates(r: seq<string>) {
    forall i, j :: 0 <= i < j < |r| ==> r[i] != r[j]
  }

  /** Position of the first occurrence of `x`. */
  function FirstIndex(xs: seq<string>, x: string): (k: nat)
    requires x in xs
    ensures k < |xs| && xs[k] == x
    ensures forall j :: 0 <= j < k ==> xs[j] != x
  {
    if xs[0] == x then 0 else 1 + FirstIndex(xs[1..], x)
  }

  /** `Array.from(new Set(xs))`: a Set iterates in insertion order, so each
      value is kept where it first occurs. */
  function Dedup(xs: seq<string>): seq<string> {
    if xs == [] then []
    else
      var d := Dedup(xs[..|xs| - 1]);
      if xs[|xs| - 1] in d then d else d + [xs[|xs| - 1]]
  }

  lemma FirstIndexInPrefix(xs: seq<string>, y: string)
    requires |xs| > 0 && y in xs[..|xs| - 1]
    ensures FirstIndex(xs, y) == FirstIndex(xs[..|xs| - 1], y)
  {
    var p := xs[..|xs| - 1];
    var k := FirstIndex(p, y);
    assert xs[k] == y;
    FirstIndexUnique(xs, y, k);
  }

  lemma FirstIndexUnique(xs: seq<string>, y: string, k: nat)
    requires k < |xs| && xs[k] == y
    requires forall j :: 0 <= j < k ==> xs[j] != y
    ensures FirstIndex(xs, y) == k
  {
  }

  /** The de-duplicated list has no repeats, holds exactly the input's values,
      and lists them in the order of their first occurrence. */
  lemma {:induction false} DedupSpec(xs: seq<string>)
    ensures NoDuplicates(Dedup(xs))
    ensures forall x :: x in Dedup(xs) <==> x in xs
    ensures forall i, j :: 0 <= i < j < |Dedup(xs)| ==>
              FirstIndex(xs, Dedup(xs)[i]) < FirstIndex(xs, Dedup(xs)[j])
  {
    if xs != [] {
      var p := xs[..|xs| - 1];
      var x := xs[|xs| - 1];
      var d := Dedup(p);
      DedupSpec(p);
      assert xs == p + [x];
      assert forall y :: y in xs <==> y in p || y == x;
      forall y | y in d
        ensures FirstIndex(xs, y) == FirstIndex(p, y) < |p|
      {
        FirstIndexInPrefix(xs, y);
      }
      if x !in d {
        var r := d + [x];
        assert x !in p;
        FirstIndexUnique(xs, x, |p|);
        forall i, j | 0 <= i < j < |r|
          ensures FirstIndex(xs, r[i]) < FirstIndex(xs, r[j])
        {
          if j < |d| {
            assert r[i] == d[i] && r[j] == d[j];
          } else {
            assert r[i] == d[i];
          }
        }
      }
    }
  }

  /** `loc.city` is a string, so `loc.city.trim()` does not throw. */
  predicate HasCity(loc: Json) {
    Prop(loc, "city").Str?
  }

  function TrimmedCity(loc: Json): string
    requires HasCity(loc)
  {
    Trim(Prop(loc, "city").s)
  }

  /** `data.map(loc => loc.city.trim())`; `None` when some location has no
      string `city`, where the source throws. */
  function TrimmedCities(locations: seq<Json>): (r: Option<seq<string>>)
    ensures r.Some? <==> forall i :: 0 <= i < |locations| ==> HasCity(locations[i])
    ensures r.Some? ==> |r.value| == |locations|
    ensures r.Some? ==> forall i :: 0 <= i < |locations| ==> r.value[i] == TrimmedCity(locations[i])
  {
    if locations == [] then Some([])
    else if !HasCity(locations[0]) then None
    else
      var rest := TrimmedCities(locations[1..]);
      if rest.None? then None else Some([TrimmedCity(locations[0])] + rest.value)
  }

  /** `getAllCities` given the outcome of reading `/api/locations`: any failure,
      a body that is not an array, or a location without a string city gives
      the fallback `[]`. */
  function GetAllCities(body: Result<Json>): seq<string> {
    match body
    case Ok(Arr(locations)) =>
      (match TrimmedCities(locations)
       case Some(cities) => Dedup(cities)
       case None => [])
    case _ => []
  }

  /** The cities offered: the de-duplication of the trimmed city names (so in
      order of first occurrence, by `DedupSpec`), unique, each the trimmed city
      of some location, and every location's trimmed city among them. */
  lemma GetAllCitiesSpec(locations: seq<Json>)
    requires forall i :: 0 <= i < |locations| ==> HasCity(locations[i])
    ensures var r := GetAllCities(Ok(Arr(locations)));
            && r == Dedup(TrimmedCities(locations).value)
            && NoDuplicates(r)
            && (forall c :: c in r ==> exists i :: 0 <= i < |locations| && c == TrimmedCity(locations[i]))
            && (forall i :: 0 <= i < |locations| ==> TrimmedCity(locations[i]) in r)
  {
    var names := TrimmedCities(locations).value;
    assert GetAllCities(Ok(Arr(locations))) == Dedup(names);
    DedupSpec(names);
    forall c | c in Dedup(names)
      ensures exists i :: 0 <= i < |locations| && c == TrimmedCity(locations[i])
    {
      var i := FirstIndex(names, c);
      assert c == TrimmedCity(locations[i]);
    }
    forall i | 0 <= i < |locations|
      ensures TrimmedCity(locations[i]) in Dedup(names)
    {
      assert names[i] in names;
    }
  }

  /** A location without a string `city` makes the whole list fall back to `[]`. */
  lemma MissingCityGivesNothing(locations: seq<Json>, i: nat)
    requires i < |locations| && !HasCity(locations[i])
    ensures GetAllCities(Ok(Arr(locations))) == []
  {
  }

  // ---------------------------------------------------------------------------
  // getParkingLotsByLocationId and fetchParkingLots: one lot or many

  /** `Array.isArray(data) ? data : [data]`. */
  function ToArray(data: Json): (r: seq<Json>)
    ensures data.Arr? ==> r == data.items
    ensures !data.Arr? ==> r == [data]
  {
    if data.Arr? then data.items else [data]
  }

  /** What `fetch` produced: the status flag, the Content-Type header (`None`
      when absent), and the outcome of `res.json()`. */
  datatype HttpResponse = HttpResponse(ok: bool, contentType: Option<string>, json: Result<Json>)

  predicate IsJsonResponse(res: HttpResponse) {
    res.ok && res.contentType.Some? && Includes(res.contentType.value, "application/json")
  }

  /** `getParkingLotsByLocationId`, given the outcome of the request (`Err`
      when `fetch` itself rejected). */
  function LotsByLocation(response: Result<HttpResponse>): (r: seq<Json>)
    ensures response.Err? ==> r == []
    ensures response.Ok? && !IsJsonResponse(response.value) ==> r == []
    ensures response.Ok? && IsJsonResponse(response.value) && response.value.json.Err? ==> r == []
    ensures response.Ok? && IsJsonResponse(response.value) && response.value.json.Ok? ==>
              r == ToArray(response.value.json.value)
  {
    match response
    case Err(_) => []
    case Ok(res) =>
      if !res.ok || res.contentType.None? || !Includes(res.contentType.value, "application/json") then []
      else
        match res.json
        case Err(_) => []
        case Ok(data) => ToArray(data)
  }

  // ---------------------------------------------------------------------------
  // updateReservationStatus

  /** The body of the PUT that `updateReservationStatus` sends, given the
      reservation its GET read (`Err` when that failed), or why it sends none. */
  function StatusUpdateBody(fetched: Result<map<string, Json>>, newStatus: string): (r: Result<map<string, Json>>)
    ensures fetched.Err? ==> r.Err?
    ensures fetched.Ok? ==> (r.Err? <==> Get(fetched.value, "status") == Str(newStatus))
    ensures r.Ok? ==> Get(r.value, "status") == Str(newStatus)
    ensures r.Ok? ==> r.value.Keys == fetched.value.Keys + {"status"}
    ensures r.Ok? ==> forall k :: k in fetched.value && k != "status" ==> r.value[k] == fetched.value[k]
  {
    match fetched
    case Err(e) => Err(e)
    case Ok(reservation) =>
      if Get(reservation, "status") == Str(newStatus) then Err("Reservation is already " + newStatus)
      else Ok(reservation["status" := Str(newStatus)])
  }

  /** `updateReservationStatus`: the PUT is made only with a body, and its
      outcome (`put`) is what the caller sees. */
  function UpdateReservationStatus(fetched: Result<map<string, Json>>, newStatus: string, put: Result<Json>): (r: Result<Json>)
    ensures r.Ok? ==> StatusUpdateBody(fetched, newStatus).Ok? && r == put
    ensures StatusUpdateBody(fetched, newStatus).Ok? ==> r == put
  {
    match StatusUpdateBody(fetched, newStatus)
    case Err(e) => Err(e)
    case Ok(_) => put
  }

  /** A reservation already in the requested status is never updated, whatever
      the server would answer. */
  lemma SameStatusRejected(reservation: map<string, Json>, newStatus: string, put: Result<Json>)
    requires Get(reservation, "status") == Str(newStatus)
    ensures UpdateReservationStatus(Ok(reservation), newStatus, put).Err?
  {
  }

  /** Replacing the status and then putting the old one back gives the
      reservation that was read. */
  lemma StatusUpdateReversible(reservation: map<string, Json>, newStatus: string)
    requires "status" in reservation && reservation["status"] != Str(newStatus)
    ensures StatusUpdateBody(Ok(reservation), newStatus).Ok?
    ensures StatusUpdateBody(Ok(reservation), newStatus).value["status" := reservation["status"]] == reservation
  {
    var body := StatusUpdateBody(Ok(reservation), newStatus).value;
    assert body["status" := reservation["status"]] == reservation;
  }

  // ---------------------------------------------------------------------------
  // normalizeParkingLot

  datatype Slot = Slot(slotId: Json, isOccupied: Json)

  /** A parking lot as the admin page holds it. `createdAt` is the value the
      source turns into a `Date`, or `null`. */
  datatype ParkingLot = ParkingLot(
    id: Json, name: Json, totalSpots: Json, availableSpots: Json, pricePerHour: real,
    lotType: Json, openingTime: Json, closingTime: Json, createdAt: Json,
    locationId: Json, slots: seq<Slot>, createdBy: Json)

  /** `{ slotId: slot?.slotId, isOccupied: slot?.occupied }`. */
  function NormalizeSlot(slot: Json): Slot {
    Slot(Prop(slot, "slotId"), Prop(slot, "occupied"))
  }

  function NormalizeSlots(slots: seq<Json>): (r: seq<Slot>)
    ensures |r| == |slots|
    ensures forall i :: 0 <= i < |slots| ==> r[i] == NormalizeSlot(slots[i])
  {
    if slots == [] then [] else [NormalizeSlot(slots[0])] + NormalizeSlots(slots[1..])
  }

  /** `normalizeParkingLot`. Reading a property of `null` or `undefined`
      throws, and so does `.map` on a `slots` value that is truthy but not an
      array. */
  function NormalizeParkingLot(api: Json): Result<ParkingLot> {
    if api.Null? || api.Undefined? then Err("Cannot read properties of " + (if api.Null? then "null" else "undefined"))
    else
      var slots := Or(Prop(api, "slots"), Arr([]));
      if !slots.Arr? then Err("slots.map is not a function")
      else
        var location := Prop(api, "location");
        var createdBy := Prop(api, "createdBy");
        Ok(ParkingLot(
          id := Or(Or(Prop(api, "id"), Prop(Prop(api, "_id"), "$oid")), Null),
          name := Prop(api, "name"),
          totalSpots := Prop(api, "totalSpots"),
          availableSpots := Prop(api, "availableSpots"),
          pricePerHour := ParseFloatOrZero(Prop(api, "pricePerHour")),
          lotType := Prop(api, "type"),
          openingTime := Prop(api, "openingTime"),
          closingTime := Prop(api, "closingTime"),
          createdAt := if Truthy(Prop(api, "createdAt")) then Prop(api, "createdAt") else Null,
          locationId := Or(Or(location, Prop(location, "$oid")), Null),
          slots := NormalizeSlots(slots.items),
          createdBy := Or(Or(createdBy, Prop(createdBy, "$oid")), Null)))
  }

  /** The normalised id is the record's own `id` when truthy, else the
      MongoDB-style `_id.$oid` when truthy, else `null`; a missing `slots`
      becomes `[]`, and each slot keeps its position with `occupied` renamed to
      `isOccupied`. */
  lemma NormalizeParkingLotSpec(api: map<string, Json>)
    requires var s := Get(api, "slots"); !Truthy(s) || s.Arr?
    ensures NormalizeParkingLot(Obj(api)).Ok?
    ensures var lot := NormalizeParkingLot(Obj(api)).value;
            && (Truthy(Get(api, "id")) ==> lot.id == Get(api, "id"))
            && (!Truthy(Get(api, "id")) && Truthy(Prop(Get(api, "_id"), "$oid")) ==> lot.id == Prop(Get(api, "_id"), "$oid"))
            && (!Truthy(Get(api, "id")) && !Truthy(Prop(Get(api, "_id"), "$oid")) ==> lot.id == Null)
            && (!Truthy(Get(api, "slots")) ==> lot.slots == [])
            && (Truthy(Get(api, "slots")) ==>
                  && |lot.slots| == |Get(api, "slots").items|
                  && forall i :: 0 <= i < |lot.slots| ==>
                       lot.slots[i] == Slot(Prop(Get(api, "slots").items[i], "slotId"), Prop(Get(api, "slots").items[i], "occupied")))
  {
  }

  /** A normalised id is either `null` or truthy: an empty-string id never
      survives. */
  lemma NormalizedIdNullOrTruthy(api: Json)
    requires NormalizeParkingLot(api).Ok?
    ensures var id := NormalizeParkingLot(api).value.id; id == Null || Truthy(id)
  {
  }

  /** The `$oid` alternative for `locationId` never contributes: it is only
      consulted when `location` is falsy, and a falsy value has no `$oid`. */
  lemma LocationOidNeverUsed(api: Json)
    requires NormalizeParkingLot(api).Ok?
    ensures NormalizeParkingLot(api).value.locationId == Or(Prop(api, "location"), Null)
    ensures NormalizeParkingLot(api).value.createdBy == Or(Prop(api, "createdBy"), Null)
  {
  }

  /** A price sent as the decimal text of a whole number reads as that number;
      a missing one reads as 0. */
  lemma NormalizedPrice(api: map<string, Json>, n: nat)
    requires !Truthy(Get(api, "slots"))
    ensures Get(api, "pricePerHour") == Str(NatToString(n)) ==>
              NormalizeParkingLot(Obj(api)).value.pricePerHour == n as real
    ensures "pricePerHour" !in api ==> NormalizeParkingLot(Obj(api)).value.pricePerHour == 0.0
  {
    var lot := NormalizeParkingLot(Obj(api)).value;
    assert lot.pricePerHour == ParseFloatOrZero(Get(api, "pricePerHour"));
    if Get(api, "pricePerHour") == Str(NatToString(n)) {
      ParseFloatOfNatString(n);
    }
  }

  /** `lotsArray.map(normalizeParkingLot)`: the first lot that cannot be
      normalised makes the whole call throw. */
  function NormalizeAll(items: seq<Json>): (r: Result<seq<ParkingLot>>)
    ensures r.Ok? <==> forall i :: 0 <= i < |items| ==> NormalizeParkingLot(items[i]).Ok?
    ensures r.Ok? ==> |r.value| == |items|
    ensures r.Ok? ==> forall i :: 0 <= i < |items| ==> r.value[i] == NormalizeParkingLot(items[i]).value
  {
    if items == [] then Ok([])
    else
      var first := NormalizeParkingLot(items[0]);
      var rest := NormalizeAll(items[1..]);
      if first.Err? then Err(first.message)
      else if rest.Err? then Err(rest.message)
      else Ok([first.value] + rest.value)
  }

  /** `fetchParkingLots`, given the outcome of reading `/api/parkingLots`
      (`Err` when the response was not ok): one normalised lot per array
      element, or exactly one for a body that is not an array. */
  function FetchParkingLots(body: Result<Json>): (r: Result<seq<ParkingLot>>)
    ensures body.Err? ==> r.Err?
    ensures r.Ok? ==> |r.value| == |ToArray(body.value)|
    ensures r.Ok? && !body.value.Arr? ==>
              |r.value| == 1 && NormalizeParkingLot(body.value).Ok? && r.value[0] == NormalizeParkingLot(body.value).value
    ensures body.Ok? ==> (r.Ok? <==> forall i :: 0 <= i < |ToArray(body.value)| ==> NormalizeParkingLot(ToArray(body.value)[i]).Ok?)
    ensures r.Ok? ==> forall i :: 0 <= i < |r.value| ==> r.value[i] == NormalizeParkingLot(ToArray(body.value)[i]).value
  {
    match body
    case Err(e) => Err(e)
    case Ok(data) => NormalizeAll(ToArray(data))
  }

  // ---------------------------------------------------------------------------
  // createReservation

  /** The fixed UTC offset the client appends to every timestamp. */
  const UTC_OFFSET: string := "-05:00"

  /** `${date}T${time}:00.000-05:00`. */
  function Timestamp(date: string, time: string): string {
    date + "T" + time + ":00.000" + UTC_OFFSET
  }

  /** A timestamp determines its date and time (for dates of one length, as
      `YYYY-MM-DD` dates are), so start and end can be read back. */
  lemma TimestampInjective(d1: string, t1: string, d2: string, t2: string)
    requires |d1| == |d2| && Timestamp(d1, t1) == Timestamp(d2, t2)
    ensures d1 == d2 && t1 == t2
  {
    var a, b := Timestamp(d1, t1), Timestamp(d2, t2);
    assert d1 == a[..|d1|] && d2 == b[..|d2|];
    assert t1 == a[|d1| + 1..|a| - 13];
    assert t2 == b[|d2| + 1..|b| - 13];
  }

  /** The reservation `createReservation` posts. `token` is the stored token
      (`None` when absent), `userId` the `id` claim decoded from it, and
      `pricePaid` and `createdAt` the price text and the clock reading. */
  function ReservationPayload(
    date: string, startTime: string, endTime: string, lotDetails: map<string, Json>,
    token: Option<string>, userId: Json, pricePaid: string, createdAt: string): Result<map<string, Json>>
  {
    if token.None? || token.value == "" then Err("User token not found in localStorage")
    else
      Ok(map[
        "startTime" := Str(Timestamp(date, startTime)),
        "endTime" := Str(Timestamp(date, endTime)),
        "status" := Str("Booked"),
        "pricePaid" := Str(pricePaid),
        "createdAt" := Str(createdAt),
        "user" := userId,
        "parkingLot" := Or(Get(lotDetails, "id"), Get(lotDetails, "parkingLotId"))])
  }

  /** Without a token nothing is posted; otherwise the new reservation is
      "Booked", the start and end timestamps are the chosen date with the
      start and end time respectively, zero seconds and the fixed offset, the
      user, price and creation time are passed through, and the lot is the
      details' `id`, falling back to `parkingLotId`. */
  lemma ReservationPayloadSpec(
    date: string, startTime: string, endTime: string, lotDetails: map<string, Json>,
    token: Option<string>, userId: Json, pricePaid: string, createdAt: string)
    ensures var r := ReservationPayload(date, startTime, endTime, lotDetails, token, userId, pricePaid, createdAt);
            && (r.Ok? <==> token.Some? && token.value != "")
            && (r.Ok? ==>
                  && r.value.Keys == {"startTime", "endTime", "status", "pricePaid", "createdAt", "user", "parkingLot"}
                  && r.value["status"] == Str("Booked")
                  && r.value["startTime"] == Str(date + "T" + startTime + ":00.000" + UTC_OFFSET)
                  && r.value["endTime"] == Str(date + "T" + endTime + ":00.000" + UTC_OFFSET)
                  && IsPrefix(date + "T", r.value["startTime"].s)
                  && IsPrefix(date + "T", r.value["endTime"].s)
                  && r.value["user"] == userId
                  && r.value["pricePaid"] == Str(pricePaid)
                  && r.value["createdAt"] == Str(createdAt)
                  && (Truthy(Get(lotDetails, "id")) ==> r.value["parkingLot"] == Get(lotDetails, "id"))
                  && (!Truthy(Get(lotDetails, "id")) ==> r.value["parkingLot"] == Get(lotDetails, "parkingLotId")))
  {
    var r := ReservationPayload(date, startTime, endTime, lotDetails, token, userId, pricePaid, createdAt);
    if r.Ok? {
      var st := Timestamp(date, startTime);
      var et := Timestamp(date, endTime);
      assert st[..|date + "T"|] == date + "T";
      assert et[..|date + "T"|] == date + "T";
    }
  }

  // ---------------------------------------------------------------------------
  // getUserReservations

  /** One lookup of the backend as the enrichment sees it: a body that was
      read, a response that was not ok (read as `null`), or a call that threw
      (the request failed or its body was not JSON). */
  datatype Fetched = Body(data: Json) | NotOk | Threw

  /** `res.ok ? await res.json() : null`. */
  function Loaded(f: Fetched): Json
    requires !f.Threw?
  {
    if f.Body? then f.data else Null
  }

  /** `{...v}`: the fields of an object; spreading `null` gives none. */
  function Spread(v: Json): map<string, Json> {
    if v.Obj? then v.fields else map[]
  }

  /** The enriched reservation and whether its location was looked up. */
  datatype Enrichment = Enrichment(value: Json, askedLocation: bool)

  /** The per-reservation step of `getUserReservations`. The backend lookups
      are parameters: users by id, lots by id, locations by id. Any lookup
      that throws, or a `null` reservation, leaves the reservation as it was. */
  function EnrichReservation(
    reservation: Json, users: Json -> Fetched, lots: Json -> Fetched, locations: Json -> Fetched): Enrichment
  {
    if reservation.Null? || reservation.Undefined? then Enrichment(reservation, false)
    else
      var user := users(Prop(reservation, "user"));
      var lot := lots(Prop(reservation, "parkingLot"));
      if user.Threw? || lot.Threw? then Enrichment(reservation, false)
      else
        var lotData := Loaded(lot);
        var locationKey := Prop(lotData, "location");
        var location := if Truthy(locationKey) then locations(locationKey) else NotOk;
        if location.Threw? then Enrichment(reservation, true)
        else
          var details := Spread(lotData)["locationDetails" := Loaded(location)];
          Enrichment(
            Obj(Spread(reservation)["userDetails" := Loaded(user)]["parkingLotDetails" := Obj(details)]),
            Truthy(locationKey))
  }

  /** `reservations.map(enrich)`, in order. */
  function EnrichAll(reservations: seq<Json>, users: Json -> Fetched, lots: Json -> Fetched, locations: Json -> Fetched): (r: seq<Json>)
    ensures |r| == |reservations|
    ensures forall i :: 0 <= i < |r| ==> r[i] == EnrichReservation(reservations[i], users, lots, locations).value
  {
    if reservations == [] then []
    else [EnrichReservation(reservations[0], users, lots, locations).value] + EnrichAll(reservations[1..], users, lots, locations)
  }

  /** `getUserReservations`, given the outcome of reading the user's
      reservations: a failure, or a body that is not an array, gives `[]`. */
  function GetUserReservations(body: Result<Json>, users: Json -> Fetched, lots: Json -> Fetched, locations: Json -> Fetched): (r: seq<Json>)
    ensures !(body.Ok? && body.value.Arr?) ==> r == []
    ensures body.Ok? && body.value.Arr? ==> |r| == |body.value.items|
    ensures body.Ok? && body.value.Arr? ==>
              forall i :: 0 <= i < |r| ==> r[i] == EnrichReservation(body.value.items[i], users, lots, locations).value
  {
    match body
    case Ok(Arr(reservations)) => EnrichAll(reservations, users, lots, locations)
    case _ => []
  }

  /** A location is looked up exactly when the reservation could be read, the
      user and lot lookups did not throw, and the lot has a truthy `location`.
      An enrichment in which any step throws returns the reservation
      unchanged; one in which none does is an object with the reservation's
      fields plus the loaded user and the lot's fields with `locationDetails`
      set to the loaded location (`null` when the lot names none), and keeps
      every field of the reservation other than the two it adds. */
  lemma EnrichReservationSpec(reservation: Json, users: Json -> Fetched, lots: Json -> Fetched, locations: Json -> Fetched)
    ensures var e := EnrichReservation(reservation, users, lots, locations);
            var user := users(Prop(reservation, "user"));
            var lot := lots(Prop(reservation, "parkingLot"));
            && (e.askedLocation <==>
                  && !reservation.Null? && !reservation.Undefined?
                  && !user.Threw? && lot.Body? && Truthy(Prop(lot.data, "location")))
            && (e.value == reservation || e.value.Obj?)
            && (e.value != reservation && reservation.Obj? ==>
                  forall k :: k in reservation.fields && k != "userDetails" && k != "parkingLotDetails" ==>
                    k in e.value.fields && e.value.fields[k] == reservation.fields[k])
            && (EnrichmentFails(reservation, users, lots, locations) ==> e.value == reservation)
            && (!EnrichmentFails(reservation, users, lots, locations) ==>
                  && e.value.Obj?
                  && e.value.fields.Keys == Spread(reservation).Keys + {"userDetails", "parkingLotDetails"}
                  && e.value.fields["userDetails"] == Loaded(user)
                  && e.value.fields["parkingLotDetails"].Obj?
                  && (var lotData := Loaded(lot);
                      var locationKey := Prop(lotData, "location");
                      e.value.fields["parkingLotDetails"] ==
                        Obj(Spread(lotData)["locationDetails" := if Truthy(locationKey) then Loaded(locations(locationKey)) else Null])))
  {
  }

  /** Whether some step of the enrichment throws: reading a field of a `null`
      reservation, or the user, lot or location lookup. */
  predicate EnrichmentFails(reservation: Json, users: Json -> Fetched, lots: Json -> Fetched, locations: Json -> Fetched) {
    || reservation.Null? || reservation.Undefined?
    || users(Prop(reservation, "user")).Threw?
    || lots(Prop(reservation, "parkingLot")).Threw?
    || (var lot := lots(Prop(reservation, "parkingLot"));
        lot.Body? && Truthy(Prop(lot.data, "location")) && locations(Prop(lot.data, "location")).Threw?)
  }
}
