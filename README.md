# EzParking front end: the rules behind the pages

EzParking is a React front end for booking parking. Most of it is network
calls, maps and layout, but several components hold small rules that decide
what the user sees and what is sent to the backend. This project models those
rules in Dafny and proves what they promise:

- **the reservation status machine** (`Bookings`, `Countdown`, and the
  status update in `RestApi`). It covers the check-in window, which buttons a
  booking card offers at a given instant, the minutes a too-early check-in
  must wait, and the local list update after a status change. It also covers
  the guarded automatic check-out and the countdown timer, modelled as a
  state machine stepped by ticks.
- **parking-lot and slot data** (`AdminParking`, `ParkingCatalog`, and the
  normalisation in `RestApi`). It covers toggling a slot and recounting free
  spots, deleting a lot, the edit form's required fields and payload, and the
  revenue total. It also covers normalising API records, de-duplicating
  cities, wrapping a single lot into a list, enriching reservations, and the
  reservation payload. The list page adds the availability badge, truncation,
  the cheapest lot and the name filter.
- **forms** (`VehicleInfo`, `CreateLot`, `Search`). These are the vehicle
  form's validation, error map, change detection and duration text, the new
  lot form's seven checks (including the `HH:mm:ss` pattern), and the search
  bar's walk-in lookup and floating-label input.

`Common` states the JavaScript behaviour the components rely on:
- JSON values, truthiness, `||` and optional chaining;
- `trim`, `toLowerCase` (for Basic Latin and Latin-1 letters), `includes` and `String(n)`;
- `parseFloat` and `Number` on decimal text;
- an order-preserving `filter`.

Everything the browser or the backend supplies is a parameter:
- the clock (`now`, and dates already parsed to milliseconds, with `Invalid`
  for NaN);
- every fetch outcome (`Result`, `Fetched`);
- the confirmation dialog's answer;
- the decoded user id and the formatted price.

Where a component keeps state that its handlers update, the model is a class
whose methods state the whole new state. These classes are
`Bookings.ViewBookingsPage`, `Countdown.TimerEffect`,
`AdminParking.AdminParkingPage`, `VehicleInfo.VehicleForm`,
`Search.FloatingInput` and `Search.SearchBar`. The pure helpers are functions
with lemmas.

## Model

| member | source | states |
|---|---|---|
| Common.Trim | src/api/restServiceApi.js:22 | `String.prototype.trim`: drops ECMAScript white space and line terminators from both ends; specified by `TrimEmptyIff` and `TrimShape` |
| Common.ToLower | src/components/Parking/ParkingLotPage.jsx:67 | `toLowerCase`, character by character, with the same length; only Basic Latin and Latin-1 capitals are mapped |
| Common.TrimEmptyIff | src/components/Vehicle/VehicleInfo.jsx:133-137 | `trim` leaves nothing exactly when the text is all white space |
| Common.TrimShape | src/api/restServiceApi.js:22 | `trim` keeps a contiguous part of the input, with no white space at either end, and trimming twice is trimming once |
| Common.IncludesIff | src/components/Parking/ParkingLotPage.jsx:67 | `includes` holds exactly when the needle occurs at some position |
| Common.ParseNatToString | src/components/Bookings/Timer.jsx:112 | the decimal rendering of a whole number reads back as that number |
| Common.ParseFloatOfNatString | src/api/restServiceApi.js:527 | `parseFloat` of the decimal rendering of a whole number is that number |
| Common.ToNumberOfNatString | src/components/admin/CreateParkingLot.jsx:45-46 | `Number` of a whole number's decimal text is that number, and `Number("")` is 0 |
| Common.FilterAppend | src/components/admin/AdminParkingPage.jsx:64 | `filter` works element by element: filtering a concatenation concatenates the filtered parts, so order is kept |
| Common.FilterAll | src/components/admin/AdminParkingPage.jsx:64 | a list whose every element is kept comes through `filter` unchanged |
| Bookings.IsCompleted | src/components/Bookings/ViewBookings.jsx:46-50 | `isReservationCompleted`: the clock is past a parseable end; an unparseable end is never completed; specified by `CheckInWindow` |
| Bookings.IsCheckInDisabled | src/components/Bookings/ViewBookings.jsx:101-108 | `isCheckInDisabled`: before a parseable start or after a parseable end; specified by `CheckInWindow` |
| Bookings.ShouldShowCancel | src/components/Bookings/ViewBookings.jsx:111-113 | `shouldShowCancelButton`: the status is neither "Checked Out" nor "Cancelled"; used by `OfferedActions` |
| Bookings.CheckInWindow | src/components/Bookings/ViewBookings.jsx:101-108 | for parseable times, check-in is enabled exactly on the closed window from start to end; a completed booking is always disabled; unparseable times disable nothing |
| Bookings.OfferedActions | src/components/Bookings/ViewBookings.jsx:219-240 | Check-In is offered exactly for "Booked"; Check-Out exactly for "Checked In" and not completed; Cancel exactly when not "Checked Out"/"Cancelled" and not completed |
| Bookings.OfferedActionsSpec | src/components/Bookings/ViewBookings.jsx:111-113 | every offered action moves to a different status, a checked-out or cancelled booking offers nothing, and nothing is clickable on a completed booking |
| Bookings.CheckInDecision | src/components/Bookings/ViewBookings.jsx:83-98 | too early exactly when now is before a parseable start, and then the wait reported is the ceiling of the minutes left, at least 1 |
| Bookings.EnabledCheckInOpens | src/components/Bookings/ViewBookings.jsx:83-108 | a click on an enabled check-in button always opens the confirmation |
| Bookings.WithStatus | src/components/Bookings/ViewBookings.jsx:64-66 | the list keeps its length and order; each booking with the id gets the new status and every other booking is unchanged |
| Bookings.WithStatusFrame | src/components/Bookings/ViewBookings.jsx:64-66 | ids, times and details never change; a list without the id comes back as it was |
| Bookings.WithStatusUndo | src/components/Bookings/ViewBookings.jsx:124-126 | applying the same status twice is applying it once, and setting the previous status back restores the list |
| Bookings.ViewBookingsPage.constructor | src/components/Bookings/ViewBookings.jsx:10-17 | the page starts with the loaded bookings, no selection, no dialog and no message |
| Bookings.ViewBookingsPage.OpenModal | src/components/Bookings/ViewBookings.jsx:77-81 | remembers the booking and the requested status and shows the dialog, changing nothing else |
| Bookings.ViewBookingsPage.HandleCheckInClick | src/components/Bookings/ViewBookings.jsx:83-98 | too early: an error message with the minutes to wait and no dialog; otherwise the dialog for "Checked In" |
| Bookings.ViewBookingsPage.HandleStatusChange | src/components/Bookings/ViewBookings.jsx:57-75 | without an action and a selection nothing happens; a successful update applies `WithStatus` and closes the dialog; a failed one keeps the list and shows "Failed to …" with the lower-cased action |
| Bookings.ViewBookingsPage.HandleAutoCheckOut | src/components/Bookings/ViewBookings.jsx:116-135 | nothing happens unless the booking is "Checked In"; success marks it "Checked Out" with a success message; failure keeps the list and shows the error |
| Countdown.FormatTime | src/components/Bookings/Timer.jsx:10-16 | hours·3600 + minutes·60 + seconds equals the whole seconds, with minutes and seconds below 60 |
| Countdown.FormatTimeUnique | src/components/Bookings/Timer.jsx:10-16 | that split is the only one with minutes and seconds below 60 |
| Countdown.PadStart2 | src/components/Bookings/Timer.jsx:112 | at least two digits, exactly two below 100, unchanged from 10 on, and reads back as the number |
| Countdown.DisplaySpec | src/components/Bookings/Timer.jsx:112 | minutes and seconds always show as two digits, and the three fields read back as the remaining whole seconds |
| Countdown.Mount | src/components/Bookings/Timer.jsx:27-46 | one run of the effect at the current instant; specified by `MountSpec` |
| Countdown.Tick | src/components/Bookings/Timer.jsx:48-62 | one interval tick at the current instant; specified by `TickSpec` and `RunTicksSpec` |
| Countdown.MountSpec | src/components/Bookings/Timer.jsx:27-46 | an unparseable end schedules nothing and never expires; an end already reached zeroes the display and calls `onExpire` once; otherwise the countdown is active and scheduled |
| Countdown.TickSpec | src/components/Bookings/Timer.jsx:48-62 | a tick before the end shows end − now and stays active; a tick at or past the end clears the interval, zeroes the display and calls `onExpire` |
| Countdown.RunTicksSpec | src/components/Bookings/Timer.jsx:48-64 | over any sequence of ticks `onExpire` is called at most once, and for a scheduled run exactly when some tick reaches the end, after which nothing is scheduled |
| Countdown.StoppedStaysStopped | src/components/Bookings/Timer.jsx:53 | once the interval is cleared, later ticks change nothing |
| Countdown.TimerEffect.constructor | src/components/Bookings/Timer.jsx:4-5 | the display starts at zero and inactive |
| Countdown.TimerEffect.Cleanup | src/components/Bookings/Timer.jsx:64 | clears the interval and nothing else |
| Countdown.TimerEffect.RunEffect | src/components/Bookings/Timer.jsx:27-46 | the new state is `Mount` of the old one |
| Countdown.TimerEffect.OnTick | src/components/Bookings/Timer.jsx:48-62 | a scheduled interval moves the state by `Tick`; a cleared one changes nothing |
| RestApi.Dedup | src/api/restServiceApi.js:22 | `Array.from(new Set(…))`; specified by `DedupSpec` |
| RestApi.DedupSpec | src/api/restServiceApi.js:22 | the de-duplicated list has no repeats, holds exactly the input's elements, and keeps them in order of first occurrence |
| RestApi.TrimmedCities | src/api/restServiceApi.js:22 | defined exactly when every location has a string city, and then the trimmed cities position by position |
| RestApi.GetAllCities | src/api/restServiceApi.js:14-27 | `getAllCities` on the outcome of the request; specified by `GetAllCitiesSpec` and `MissingCityGivesNothing` |
| RestApi.GetAllCitiesSpec | src/api/restServiceApi.js:14-27 | the cities are the de-duplicated trimmed names, unique, each from some location, and every location's city among them |
| RestApi.MissingCityGivesNothing | src/api/restServiceApi.js:22-26 | one location without a string city makes the call fall back to `[]` |
| RestApi.ToArray | src/api/restServiceApi.js:91 | an array is kept, and any other value becomes a one-element list |
| RestApi.LotsByLocation | src/api/restServiceApi.js:78-95 | `[]` on a failed request, a response that is not ok, a missing or non-JSON content type or an unreadable body; otherwise the body as a list |
| RestApi.StatusUpdateBody | src/api/restServiceApi.js:408-423 | a failed read is an error; the same status is rejected; otherwise the reservation with only `status` replaced |
| RestApi.UpdateReservationStatus | src/api/restServiceApi.js:398-445 | succeeds only when the body could be built, and then gives what the PUT gave |
| RestApi.SameStatusRejected | src/api/restServiceApi.js:415-417 | a reservation already in the requested status is rejected |
| RestApi.StatusUpdateReversible | src/api/restServiceApi.js:420-423 | putting the old status back into the body gives the fetched reservation |
| RestApi.NormalizeSlots | src/api/restServiceApi.js:533-536 | one slot per input element, in order |
| RestApi.NormalizeParkingLot | src/api/restServiceApi.js:521-539 | `normalizeParkingLot`, failing where `slots.map` would throw; specified by `NormalizeParkingLotSpec`, `NormalizedIdNullOrTruthy`, `LocationOidNeverUsed` and `NormalizedPrice` |
| RestApi.NormalizeParkingLotSpec | src/api/restServiceApi.js:521-539 | id is `id`, else `_id.$oid`, else null; missing slots become `[]`; each slot keeps its position with `occupied` renamed to `isOccupied` |
| RestApi.NormalizedIdNullOrTruthy | src/api/restServiceApi.js:523 | a normalised id is null or truthy |
| RestApi.LocationOidNeverUsed | src/api/restServiceApi.js:532-537 | the `$oid` fallbacks of `location` and `createdBy` never contribute |
| RestApi.NormalizedPrice | src/api/restServiceApi.js:527 | a price sent as whole-number text reads as that number, and a missing one as 0 |
| RestApi.NormalizeAll | src/api/restServiceApi.js:518 | succeeds exactly when every element normalises, giving one lot per element in order |
| RestApi.FetchParkingLots | src/api/restServiceApi.js:506-519 | a failed request is an error; otherwise the body (an array, or a single lot wrapped in one) gives a result exactly when every element normalises, and then the lot at each position is that element normalised |
| RestApi.TimestampInjective | src/api/restServiceApi.js:279-281 | a timestamp determines its date and time |
| RestApi.ReservationPayload | src/api/restServiceApi.js:257-291 | the body `createReservation` posts, or the missing-token error; specified by `ReservationPayloadSpec` and `TimestampInjective` |
| RestApi.ReservationPayloadSpec | src/api/restServiceApi.js:257-291 | without a token nothing is built; otherwise exactly the seven fields: status "Booked", `startTime` and `endTime` each the date, "T", that time, ":00.000" and the fixed offset, the user, price and creation time passed through, and the lot's `id` falling back to `parkingLotId` |
| RestApi.EnrichReservation | src/api/restServiceApi.js:358-386 | the per-reservation step of `getUserReservations`; specified by `EnrichReservationSpec` |
| RestApi.EnrichAll | src/api/restServiceApi.js:356-388 | one enriched reservation per input, in order |
| RestApi.GetUserReservations | src/api/restServiceApi.js:342-394 | `[]` when the list cannot be read, otherwise the one-to-one enrichment |
| RestApi.EnrichReservationSpec | src/api/restServiceApi.js:358-386 | the location is looked up exactly when the lot has a truthy `location`; when any step throws (a `null` reservation, or the user, lot or location lookup) the reservation comes back unchanged; otherwise it comes back as an object with its own fields plus `userDetails` (the loaded user) and `parkingLotDetails`, which is the loaded lot's fields with `locationDetails` set to the loaded location, or `null` when the lot names none; every other field is kept |
| AdminParking.CountFree | src/components/admin/AdminParkingPage.jsx:52 | the number of free slots, never more than the slots; equal to the filter's length by `CountFreeIsFilter` |
| AdminParking.ToggleLot | src/components/admin/AdminParkingPage.jsx:46-55 | one lot under `toggleSlot`; specified by `ToggledLotsSpec` |
| AdminParking.CountFreeIsFilter | src/components/admin/AdminParkingPage.jsx:52 | the free-slot count is the length of the unoccupied slots |
| AdminParking.ToggleSlots | src/components/admin/AdminParkingPage.jsx:49-51 | count and order kept, each slot toggled on its own |
| AdminParking.ToggledLots | src/components/admin/AdminParkingPage.jsx:46-55 | one result per lot, in order |
| AdminParking.ToggledLotsSpec | src/components/admin/AdminParkingPage.jsx:45-56 | other lots untouched; in the lot only the matching slots flip and `availableSpots` becomes the number of free slots |
| AdminParking.ToggleTwiceRestoresSlots | src/components/admin/AdminParkingPage.jsx:49-53 | toggling a slot twice restores the slots when its flag is a boolean |
| AdminParking.ToggleTwiceMissingFlag | src/components/admin/AdminParkingPage.jsx:50 | a slot with no flag comes back `false` after two toggles |
| AdminParking.RemoveLot | src/components/admin/AdminParkingPage.jsx:64 | the list filtered to the lots with another id; specified by `RemoveLotSpec` |
| AdminParking.RemoveLotSpec | src/components/admin/AdminParkingPage.jsx:64 | deletion removes exactly the lots with that id and keeps the others in order |
| AdminParking.FirstMissing | src/components/admin/AdminParkingPage.jsx:81-87 | the first required field with a falsy value, with every earlier one truthy; none exactly when all are truthy |
| AdminParking.EditPayload | src/components/admin/AdminParkingPage.jsx:89-93 | `location` holds the old `locationId`, `locationId` is gone, every other field is kept |
| AdminParking.EditPayloadRoundTrip | src/components/admin/AdminParkingPage.jsx:89-93 | renaming back recovers the form |
| AdminParking.TotalRevenue | src/components/admin/AdminParkingPage.jsx:113-116 | the `reduce` read from the left; specified by `TotalRevenueAppend`, `TotalRevenueSingle` and `TotalRevenueOne` |
| AdminParking.TotalRevenueAppend | src/components/admin/AdminParkingPage.jsx:113-116 | the total of two lists is the sum of their totals |
| AdminParking.TotalRevenueSingle | src/components/admin/AdminParkingPage.jsx:113-116 | a single reservation's total is its price read by `parseFloat`, or 0 when that is NaN |
| AdminParking.TotalRevenueOne | src/components/admin/AdminParkingPage.jsx:114 | one reservation adds its numeric price, and an unparseable price adds 0 |
| AdminParking.AdminParkingPage.constructor | src/components/admin/AdminParkingPage.jsx:13-18 | the loaded lists, no edit form, a hidden snackbar |
| AdminParking.AdminParkingPage.ToggleSlot | src/components/admin/AdminParkingPage.jsx:45-56 | the lots become `ToggledLots` of the old ones, and nothing else changes |
| AdminParking.AdminParkingPage.HandleDeleteLot | src/components/admin/AdminParkingPage.jsx:58-69 | nothing without confirmation; after a successful delete the lot is removed with a success message; after a failed one the error message |
| AdminParking.AdminParkingPage.HandleEditLot | src/components/admin/AdminParkingPage.jsx:71-73 | the form becomes a copy of the lot |
| AdminParking.AdminParkingPage.HandleEditChange | src/components/admin/AdminParkingPage.jsx:75-78 | only the named field changes |
| AdminParking.AdminParkingPage.CloseSnackbar | src/components/admin/AdminParkingPage.jsx:41-43 | the snackbar is hidden and keeps its message |
| AdminParking.AdminParkingPage.HandleEditSubmit | src/components/admin/AdminParkingPage.jsx:80-110 | stops at the first missing field with "Please fill in" and that field, sending nothing; otherwise sends the renamed payload, and on success refreshes the lots, closes the form and reports success |
| VehicleInfo.DurationMinutes | src/components/Vehicle/VehicleInfo.jsx:33-44 | the stay in minutes is in (0, 1440] and congruent to end − start modulo a day |
| VehicleInfo.DurationMinutesUnique | src/components/Vehicle/VehicleInfo.jsx:39-44 | that is the only such number |
| VehicleInfo.CalculateDuration | src/components/Vehicle/VehicleInfo.jsx:28-51 | "" when a time is missing, otherwise the duration text of the wrapped minutes |
| VehicleInfo.PartsUnpadded | src/components/Vehicle/VehicleInfo.jsx:48-49 | a part is empty exactly for 0 and never has white space at its ends |
| VehicleInfo.DurationTextForm | src/components/Vehicle/VehicleInfo.jsx:45-50 | after trimming, the hour and minute parts joined by one blank, a zero part dropped with its blank, and "" exactly for zero minutes |
| VehicleInfo.DurationTextNonEmpty | src/components/Vehicle/VehicleInfo.jsx:28-51 | every stay between two clock times has a non-empty duration |
| VehicleInfo.ErrorsFor | src/components/Vehicle/VehicleInfo.jsx:132-137 | the error map after checking the given fields in turn; specified by `ErrorsForSpec` |
| VehicleInfo.ErrorsForSpec | src/components/Vehicle/VehicleInfo.jsx:132-137 | one error exactly for each blank field, with that field's message, and nothing else |
| VehicleInfo.ValidationErrorsEmptyIff | src/components/Vehicle/VehicleInfo.jsx:131-140 | no errors exactly when every required field has a non-blank character |
| VehicleInfo.Changed | src/components/Vehicle/VehicleInfo.jsx:142-145 | `isVehicleChanged`: nothing loaded, or some field of the form differs from the loaded one; specified by `ChangedSpec` |
| VehicleInfo.ChangedSpec | src/components/Vehicle/VehicleInfo.jsx:142-145 | the loaded form is unchanged; editing a field away from its loaded value is a change; restoring it is not |
| VehicleInfo.VehicleForm.constructor | src/components/Vehicle/VehicleInfo.jsx:71-82 | the empty form with its registration time, nothing loaded and no errors |
| VehicleInfo.VehicleForm.LoadExisting | src/components/Vehicle/VehicleInfo.jsx:93-104 | the stored vehicle's fields become both the form and its original, which is then unchanged |
| VehicleInfo.VehicleForm.HandleChange | src/components/Vehicle/VehicleInfo.jsx:118-129 | sets only the named field and removes only its error |
| VehicleInfo.VehicleForm.Validate | src/components/Vehicle/VehicleInfo.jsx:131-140 | a non-string required field throws; otherwise the errors become `ValidationErrors` and the result says whether there are none |
| VehicleInfo.VehicleForm.CheckField | src/components/Vehicle/VehicleInfo.jsx:133-137 | one line of `validate`: the field's error is added exactly when it is blank |
| VehicleInfo.VehicleForm.HandleSubmit | src/components/Vehicle/VehicleInfo.jsx:147-163 | the errors become `ValidationErrors` (or stay, when a field is not a string); an invalid form sends nothing and stays; a valid one attempts the update exactly when the vehicle is new or changed, and goes on to payment unless that attempt throws for want of a stored user, a failed request being caught inside `updateUserVehicle` |
| ParkingCatalog.AvailabilityBadge | src/components/Parking/ParkingLotPage.jsx:24-28 | green exactly above 20 spots, yellow exactly from 6 to 20, red exactly at 5 or fewer |
| ParkingCatalog.BadgeMonotone | src/components/Parking/ParkingLotPage.jsx:24-28 | more spots never give a scarcer badge |
| ParkingCatalog.TruncateText | src/components/Parking/ParkingLotPage.jsx:30-35 | unchanged up to the limit, otherwise the first `maxLength` characters followed by "..." |
| ParkingCatalog.CheapestIndex | src/components/Parking/ParkingLotPage.jsx:38-42 | a lot priced no higher than any other, with every earlier lot strictly dearer |
| ParkingCatalog.CheapestIsUnique | src/components/Parking/ParkingLotPage.jsx:38-42 | those two properties determine the lot |
| ParkingCatalog.FilterByName | src/components/Parking/ParkingLotPage.jsx:66-68 | the lots whose lower-cased name includes the lower-cased query; specified by `FilterByNameSpec` |
| ParkingCatalog.FilterByNameSpec | src/components/Parking/ParkingLotPage.jsx:66-68 | the filter keeps exactly the lots whose lower-cased name contains the lower-cased query, in order |
| ParkingCatalog.EmptyQueryKeepsAll | src/components/Parking/ParkingLotPage.jsx:66-68 | an empty query keeps every lot |
| ParkingCatalog.QueryCaseIrrelevant | src/components/Parking/ParkingLotPage.jsx:67 | lower-casing the query first changes nothing |
| CreateLot.IsHms | src/components/admin/CreateParkingLot.jsx:48-49 | the `HH:mm:ss` pattern; characterised by `HmsRoundTrip` |
| CreateLot.HmsRoundTrip | src/components/admin/CreateParkingLot.jsx:48-49 | any three two-digit numbers written as `HH:mm:ss` (out-of-range ones such as "99:99:99" too) pass the pattern and read back; every text that passes is written that way |
| CreateLot.Fails | src/components/admin/CreateParkingLot.jsx:44-50 | the condition of each of the seven checks; probed by `EmptyCountReadsAsZero` and `PositiveCountPasses` |
| CreateLot.ErrorsOfSpec | src/components/admin/CreateParkingLot.jsx:42-51 | one message for each failing check and no other, and none exactly when no check fails |
| CreateLot.ErrorsInCheckOrder | src/components/admin/CreateParkingLot.jsx:42-51 | the errors are, position by position, the messages of the failing checks in check order (`filter` of the checks by failure) |
| CreateLot.MessageInjective | src/components/admin/CreateParkingLot.jsx:44-50 | two checks with the same message are the same check |
| CreateLot.MessagesDistinct | src/components/admin/CreateParkingLot.jsx:42-51 | whatever fails, the error list never holds the same message twice |
| CreateLot.EmptyCountReadsAsZero | src/components/admin/CreateParkingLot.jsx:45-46 | an empty total fails "greater than 0", and an empty available count passes |
| CreateLot.PositiveCountPasses | src/components/admin/CreateParkingLot.jsx:45-46 | a positive whole number passes both count checks |
| CreateLot.ValidateForm | src/components/admin/CreateParkingLot.jsx:42-51 | the errors are those of the seven checks, in order |
| CreateLot.Push | src/components/admin/CreateParkingLot.jsx:44-50 | one line of `validateForm`: that check's message is pushed exactly when the check fails |
| CreateLot.HandleSubmit | src/components/admin/CreateParkingLot.jsx:74-84 | creates the lot exactly when no check fails; otherwise alerts "Validation Errors:" followed by the messages, one per line |
| Search.Shown | src/components/User/SearchBar.jsx:46 | the parent's value when controlled, the input's own otherwise |
| Search.IsActive | src/components/User/SearchBar.jsx:21 | focused, or the shown text (the parent's value when controlled, its own otherwise) is truthy; specified by `ActiveSpec` |
| Search.ActiveSpec | src/components/User/SearchBar.jsx:18-21 | the label floats exactly when focused or the shown text is non-empty; the unused value plays no part |
| Search.FloatingInput.constructor | src/components/User/SearchBar.jsx:15-19 | unfocused, with its own text the default or "" |
| Search.FloatingInput.Focus | src/components/User/SearchBar.jsx:48 | focused, so the label floats |
| Search.FloatingInput.Blur | src/components/User/SearchBar.jsx:49 | unfocused, so the label floats exactly when the shown text is truthy |
| Search.FloatingInput.HandleChange | src/components/User/SearchBar.jsx:29-35 | a controlled input forwards the text and keeps its own; an uncontrolled one stores it |
| Search.FloatingInput.Rerender | src/components/User/SearchBar.jsx:7-21 | new props replace the old and the state is kept, so a controlled input floats exactly when focused or its new value is truthy |
| Search.FindFrom | src/components/User/SearchBar.jsx:85 | the first lot whose `id` is the text, with none before it; none exactly when no lot has it |
| Search.FindLot | src/components/User/SearchBar.jsx:85 | the first lot whose `id` is the trimmed input; specified by `FindLotSpec` |
| Search.FindLotSpec | src/components/User/SearchBar.jsx:85-86 | white space around the input makes no difference, a lot is found exactly when one has the trimmed id, and a found lot is truthy |
| Search.SearchBar.constructor | src/components/User/SearchBar.jsx:64-66 | the reservation tab, an empty input and no toast |
| Search.SearchBar.SelectTab | src/components/User/SearchBar.jsx:101-110 | only the tab changes |
| Search.SearchBar.SetLotIdInput | src/components/User/SearchBar.jsx:147 | only the input changes |
| Search.SearchBar.HandleFindSpots | src/components/User/SearchBar.jsx:81-93 | the reservation tab always goes to the results page; the walk-in tab goes to the first lot with the trimmed id, or shows the toast and stays |
| Search.SearchBar.HideToast | src/components/User/SearchBar.jsx:90 | the toast is hidden |

## Left out

- Date parsing, time zones and daylight saving. Bookings and the timer take instants already parsed to milliseconds (`Invalid` for NaN). `createReservation`'s timestamps are built as text with the fixed "-05:00" offset, exactly as the source writes them.
- Network, JSON parsing, `localStorage` and JWT decoding. Every fetch outcome is a parameter. The user id decoded from the token is a parameter of `RestApi.ReservationPayload`. `updateParkingLot` is a function parameter of `HandleEditSubmit`. The delete result and the confirmation answer are parameters of `HandleDeleteLot`.
- `toFixed(2)` and floating-point rounding. The price paid is a parameter of the reservation payload. `Common.ParseFloatString` reads exact decimals as reals.
- `parseFloat` and `Number` forms beyond plain decimals, such as exponents, hexadecimal and `Infinity`. The model's `parseFloat` reads only the plain decimal prefix, so it reads "1e3" as 1 where JavaScript gives 1000. The model's `Number` reads such text as NaN where JavaScript gives a number.
- Common.ParseFloat: `parseFloat` of an array, an object or a boolean reads as NaN. In JavaScript an array such as `[5]` renders as "5" and parses, but the prices read here are strings or numbers.
- `===` between objects is modelled as structural equality. The ids compared in the source are strings or numbers, where the two agree.
- Spreading a string or an array into an object is not modelled. `Spread` gives no fields for anything but an object.
- Countdown.TimerEffect: the effect also re-runs when the `onExpire` function changes identity. The model runs one effect per `RunEffect` call after a `Cleanup`. `RunEffect` requires that no interval is still scheduled, which is what React's cleanup ensures.
- Countdown.Tick: the interval's one-second spacing is not modelled. Ticks come at the instants given. The timer's colour (`calculateColor`) and fade animation are presentation.
- The mount effects that load bookings, lots, reservations and the user's vehicle (`fetchBookings`, `loadData`, `fetchUserData`). Their outcomes are what the class constructors and `VehicleForm.LoadExisting` receive.
- The maps, geocoding and the location form's inputs on the create-lot page. `CreateLot.HandleSubmit` returns the create decision rather than calling `createParkingLotWithLocation`.
- CreateLot.HandleSubmit: the `createdAt` and `createdBy` fields of the form (the render-time clock reading and the stored user's id) are not part of `LotForm`, so `Create` does not carry them. The page throwing at render when no user is stored is not modelled either; like every read of `localStorage`, it is outside the model.
- AdminParking.TotalRevenue: a `null` or `undefined` reservation reads as having no price, so it adds 0. In the source, reading `r.pricePaid` on it would throw.
- VehicleInfo.CalculateDuration: the times are taken as already split into hours and minutes (`HH:mm` input). Text that does not split into two numbers is not modelled.
- ParkingCatalog.CheapestIndex: requires a non-empty list. `reduce` without a seed throws on an empty list, and the page always passes its non-empty catalogue.
- TruncateText: measures and cuts the text in Unicode characters, while JavaScript's `length` and `slice` count UTF-16 code units. The two agree for text in the Basic Multilingual Plane; a name holding emoji or other characters beyond it is cut at a different place in the source (and there `slice` can split a surrogate pair, which a Dafny string cannot hold).
- FilterByNameSpec: the lower-casing behind it (`Common.ToLower`) maps only the Basic Latin capitals 'A' to 'Z' and the Latin-1 capitals 'À' to 'Þ'. JavaScript's `toLowerCase` also maps Greek, Cyrillic and other scripts, the Kelvin sign to 'k', and 'İ' to two characters; for names with such capitals the source may keep a lot that the model drops. Unicode's case-mapping tables are not part of this model.
- Search.SearchBar.HandleFindSpots: navigation is recorded as a list of routes, and the toast's three-second timer is the separate `HideToast`.
- `FloatingInput`'s date and time picker (`showPicker`) and the search bar's layout measurements are presentation.
