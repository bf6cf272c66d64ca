/** The reservations page: which actions a booking offers at a given instant,
    what a check-in click does, and the page state that the status-change and
    automatic check-out handlers update. */
module Bookings {
  import opened Common
  import RestApi

  const BOOKED: string := "Booked"
  const CHECKED_IN: string := "Checked In"
  const CHECKED_OUT: string := "Checked Out"
  const CANCELLED: string := "Cancelled"

  /** A reservation as the page holds it. `start` and `end` are the instants
      its timestamps parse to; `details` stands for every other field
      (price, lot details, creation time). */
  datatype Booking = Booking(id: Json, status: string, start: Millis, end: Millis, details: Json)

  /** `isReservationCompleted`: the clock is past the end. An end that does not
      parse is NaN, and `now > NaN` is false. */
  predicate IsCompleted(b: Booking, now: int) {
    b.end.At? && now > b.end.ms
  }

  /** `isCheckInDisabled`: before the start or after the end. */
  predicate IsCheckInDisabled(b: Booking, now: int) {
    (b.start.At? && now < b.start.ms) || (b.end.At? && now > b.end.ms)
  }

  /** For a booking whose times parse, check-in is enabled exactly on the
      closed window from start to end; it is disabled after the end exactly
      when the booking is completed; and times that do not parse disable
      nothing. */
  lemma CheckInWindow(b: Booking, now: int)
    ensures b.start.At? && b.end.At? ==> (!IsCheckInDisabled(b, now) <==> b.start.ms <= now <= b.end.ms)
    ensures IsCompleted(b, now) ==> IsCheckInDisabled(b, now)
    ensures b.start.At? && now >= b.start.ms ==> (IsCheckInDisabled(b, now) <==> IsCompleted(b, now))
    ensures b.start.Invalid? && b.end.Invalid? ==> !IsCheckInDisabled(b, now)
  {
  }

  /** `shouldShowCancelButton`. */
  predicate ShouldShowCancel(b: Booking) {
    b.status != CHECKED_OUT && b.status != CANCELLED
  }

  /** The three buttons a booking card may render, and the status each asks for. */
  datatype Action = CheckIn | CheckOut | Cancel {
    function Target(): string {
      match this
      case CheckIn => CHECKED_IN
      case CheckOut => CHECKED_OUT
      case Cancel => CANCELLED
    }
  }

  /** The buttons rendered for a booking at instant `now`. */
  function OfferedActions(b: Booking, now: int): (r: set<Action>)
    ensures CheckIn in r <==> b.status == BOOKED
    ensures CheckOut in r <==> b.status == CHECKED_IN && !IsCompleted(b, now)
    ensures Cancel in r <==> b.status != CHECKED_OUT && b.status != CANCELLED && !IsCompleted(b, now)
  {
    (if b.status == BOOKED then {CheckIn} else {})
    + (if b.status == CHECKED_IN && !IsCompleted(b, now) then {CheckOut} else {})
    + (if ShouldShowCancel(b) && !IsCompleted(b, now) then {Cancel} else {})
  }

  /** The rendered buttons that can be clicked: the check-in button is
      rendered disabled outside its window. */
  function ClickableActions(b: Booking, now: int): set<Action> {
    if IsCheckInDisabled(b, now) then OfferedActions(b, now) - {CheckIn} else OfferedActions(b, now)
  }

  /** Every action a card offers moves the booking to a different status; a
      checked-out or cancelled booking offers nothing; and a completed booking
      offers nothing that can be clicked. */
  lemma OfferedActionsSpec(b: Booking, now: int)
    ensures forall a :: a in OfferedActions(b, now) ==> a.Target() != b.status
    ensures b.status == CHECKED_OUT || b.status == CANCELLED ==> OfferedActions(b, now) == {}
    ensures IsCompleted(b, now) ==> ClickableActions(b, now) == {}
  {
    if IsCompleted(b, now) {
      assert CheckOut !in OfferedActions(b, now) && Cancel !in OfferedActions(b, now);
    }
  }

  /** What clicking "Check-In" leads to: a message naming the whole minutes
      still to wait, or the confirmation dialog. */
  datatype CheckInOutcome = TooEarly(minutes: int) | OpenCheckIn

  const MS_PER_MINUTE: nat := 60000

  /** `handleCheckInClick`'s decision: before a start that parses it reports
      `Math.ceil((start - now) / 60000)` minutes. */
  function CheckInDecision(b: Booking, now: int): (o: CheckInOutcome)
    ensures o.TooEarly? <==> b.start.At? && now < b.start.ms
    ensures o.TooEarly? ==>
              && o.minutes >= 1
              && (o.minutes - 1) * MS_PER_MINUTE < b.start.ms - now <= o.minutes * MS_PER_MINUTE
  {
    if b.start.At? && now < b.start.ms then
      var diff := b.start.ms - now;
      TooEarly((diff + MS_PER_MINUTE - 1) / MS_PER_MINUTE)
    else OpenCheckIn
  }

  /** A click on an enabled check-in button always opens the dialog. */
  lemma EnabledCheckInOpens(b: Booking, now: int)
    requires !IsCheckInDisabled(b, now)
    ensures CheckInDecision(b, now) == OpenCheckIn
  {
  }

  /** The message shown when checking in too early. */
  function TooEarlyMessage(minutes: nat): string {
    "You cannot check in yet. Please try again in " + NatToString(minutes) + " minutes."
  }

  /** The local list update after a successful status change: every booking
      with the given id takes the new status. */
  function WithStatus(bookings: seq<Booking>, id: Json, status: string): (r: seq<Booking>)
    ensures |r| == |bookings|
    ensures forall i :: 0 <= i < |bookings| ==>
              r[i] == if bookings[i].id == id then bookings[i].(status := status) else bookings[i]
  {
    if bookings == [] then []
    else
      [if bookings[0].id == id then bookings[0].(status := status) else bookings[0]]
      + WithStatus(bookings[1..], id, status)
  }

  /** Only the status of the selected bookings changes: ids, times and details
      stay in place, other bookings are untouched, and a list without the id
      is returned as it was. */
  lemma {:induction false} WithStatusFrame(bookings: seq<Booking>, id: Json, status: string)
    ensures var r := WithStatus(bookings, id, status);
            && (forall i :: 0 <= i < |r| ==>
                  r[i].id == bookings[i].id && r[i].start == bookings[i].start
                  && r[i].end == bookings[i].end && r[i].details == bookings[i].details)
            && (forall i :: 0 <= i < |r| && bookings[i].id != id ==> r[i] == bookings[i])
            && (forall i :: 0 <= i < |r| && bookings[i].id == id ==> r[i].status == status)
            && ((forall i :: 0 <= i < |bookings| ==> bookings[i].id != id) ==> r == bookings)
  {
    var r := WithStatus(bookings, id, status);
    if forall i :: 0 <= i < |bookings| ==> bookings[i].id != id {
      assert forall i :: 0 <= i < |r| ==> r[i] == bookings[i];
    }
  }

  /** Applying the same change twice is applying it once, and changing back
      to the old status (when every selected booking had it) restores the
      list. */
  lemma {:induction false} WithStatusUndo(bookings: seq<Booking>, id: Json, status: string, previous: string)
    ensures WithStatus(WithStatus(bookings, id, status), id, status) == WithStatus(bookings, id, status)
    ensures (forall i :: 0 <= i < |bookings| && bookings[i].id == id ==> bookings[i].status == previous) ==>
              WithStatus(WithStatus(bookings, id, status), id, previous) == bookings
  {
    var once := WithStatus(bookings, id, status);
    var twice := WithStatus(once, id, status);
    assert forall i :: 0 <= i < |bookings| ==> twice[i] == once[i];
    if forall i :: 0 <= i < |bookings| && bookings[i].id == id ==> bookings[i].status == previous {
      var back := WithStatus(once, id, previous);
      assert forall i :: 0 <= i < |bookings| ==> back[i] == bookings[i];
    }
  }

  /** The snackbar: a message and its kind ("error" or "success"). */
  datatype Snack = Snack(message: string, kind: string)

  /** The state the reservations page keeps between renders. */
  class ViewBookingsPage {
    var bookings: seq<Booking>
    var selected: Option<Booking>
    var actionType: string
    var showModal: bool
    var snackbar: Option<Snack>

    /** The page right after its bookings were loaded. */
    constructor (loaded: seq<Booking>)
      ensures bookings == loaded && selected == None && actionType == ""
      ensures !showModal && snackbar == None
    {
      bookings := loaded;
      selected := None;
      actionType := "";
      showModal := false;
      snackbar := None;
    }

    /** `openModal`: remember the booking and the requested status, and show
        the confirmation dialog. */
    method OpenModal(b: Booking, action: string)
      modifies this
      ensures selected == Some(b) && actionType == action && showModal
      ensures bookings == old(bookings) && snackbar == old(snackbar)
    {
      selected := Some(b);
      actionType := action;
      showModal := true;
    }

    /** `handleCheckInClick` at instant `now`. */
    method HandleCheckInClick(b: Booking, now: int)
      modifies this
      ensures bookings == old(bookings)
      ensures CheckInDecision(b, now).TooEarly? ==>
                && snackbar == Some(Snack(TooEarlyMessage(CheckInDecision(b, now).minutes), "error"))
                && selected == old(selected) && actionType == old(actionType) && showModal == old(showModal)
      ensures CheckInDecision(b, now) == OpenCheckIn ==>
                selected == Some(b) && actionType == CHECKED_IN && showModal && snackbar == old(snackbar)
    {
      var decision := CheckInDecision(b, now);
      if decision.TooEarly? {
        snackbar := Some(Snack(TooEarlyMessage(decision.minutes), "error"));
        return;
      }
      OpenModal(b, CHECKED_IN);
    }

    /** `handleStatusChange` once the dialog is confirmed. `fetched` is what
        reading the selected reservation from the server gave and `put` what
        writing it back gave; the update is the one `updateReservationStatus`
        performs with them. */
    method HandleStatusChange(fetched: Result<map<string, Json>>, put: Result<Json>)
      modifies this
      ensures selected == old(selected) && actionType == old(actionType)
      ensures old(actionType) == "" || old(selected).None? ==>
                bookings == old(bookings) && showModal == old(showModal) && snackbar == old(snackbar)
      ensures old(actionType) != "" && old(selected).Some? ==>
                if RestApi.UpdateReservationStatus(fetched, old(actionType), put).Ok? then
                  && bookings == WithStatus(old(bookings), old(selected).value.id, old(actionType))
                  && !showModal && snackbar == old(snackbar)
                else
                  && bookings == old(bookings) && showModal == old(showModal)
                  && snackbar == Some(Snack("Failed to " + ToLower(old(actionType)) + ". Please try again.", "error"))
    {
      if actionType != "" && selected.Some? {
        var outcome := RestApi.UpdateReservationStatus(fetched, actionType, put);
        if outcome.Ok? {
          bookings := WithStatus(bookings, selected.value.id, actionType);
          showModal := false;
        } else {
          snackbar := Some(Snack("Failed to " + ToLower(actionType) + ". Please try again.", "error"));
        }
      }
    }

    /** `handleAutoCheckOut`, called when a checked-in booking's timer
        expires; `fetched` and `put` as for `HandleStatusChange`. */
    method HandleAutoCheckOut(b: Booking, fetched: Result<map<string, Json>>, put: Result<Json>)
      modifies this
      ensures selected == old(selected) && actionType == old(actionType) && showModal == old(showModal)
      ensures b.status != CHECKED_IN ==> bookings == old(bookings) && snackbar == old(snackbar)
      ensures b.status == CHECKED_IN ==>
                if RestApi.UpdateReservationStatus(fetched, CHECKED_OUT, put).Ok? then
                  && bookings == WithStatus(old(bookings), b.id, CHECKED_OUT)
                  && snackbar == Some(Snack("Reservation automatically checked out.", "success"))
                else
                  && bookings == old(bookings)
                  && snackbar == Some(Snack("Auto check-out failed. Please try manually.", "error"))
    {
      if b.status != CHECKED_IN {
        return;
      }
      var outcome := RestApi.UpdateReservationStatus(fetched, CHECKED_OUT, put);
      if outcome.Ok? {
        bookings := WithStatus(bookings, b.id, CHECKED_OUT);
        snackbar := Some(Snack("Reservation automatically checked out.", "success"));
      } else {
        snackbar := Some(Snack("Auto check-out failed. Please try manually.", "error"));
      }
    }
  }
}
