/** The landing page's search bar: the floating-label input, which is either
    controlled by its parent or keeps its own text, and "find", which either
    goes to the results page or looks a walk-in lot up by its id. */
module Search {
  import opened Common

  // ---------------------------------------------------------------------------
  // FloatingInput

  /** An input is controlled when the parent supplies both a value and a
      change handler; `value` is `undefined` when it is not supplied (a `null`
      value still counts as supplied). */
  predicate IsControlled(value: Json, hasOnChange: bool) {
    value != Undefined && hasOnChange
  }

  /** The text the input shows: the parent's value when controlled, its own
      otherwise. */
  function Shown(value: Json, hasOnChange: bool, internal: Json): (v: Json)
    ensures IsControlled(value, hasOnChange) ==> v == value
    ensures !IsControlled(value, hasOnChange) ==> v == internal
  {
    if IsControlled(value, hasOnChange) then value else internal
  }

  /** Whether the label floats: `focused || (isControlled ? value : internalValue)`. */
  predicate IsActive(focused: bool, value: Json, hasOnChange: bool, internal: Json) {
    focused || Truthy(Shown(value, hasOnChange, internal))
  }

  /** For text inputs, the label floats exactly when the input has the focus or
      the text it shows is not empty. A controlled input's own text plays no
      part, and neither does a `value` given without a change handler. */
  lemma ActiveSpec(focused: bool, value: Json, hasOnChange: bool, internal: Json, other: Json)
    requires Shown(value, hasOnChange, internal).Str?
    ensures IsActive(focused, value, hasOnChange, internal) <==>
              focused || Shown(value, hasOnChange, internal).s != ""
    ensures IsControlled(value, hasOnChange) ==>
              IsActive(focused, value, hasOnChange, other) == IsActive(focused, value, hasOnChange, internal)
    ensures !hasOnChange ==>
              IsActive(focused, other, hasOnChange, internal) == IsActive(focused, value, hasOnChange, internal)
  {
  }

  /** One floating-label input: the props it was rendered with and its two
      pieces of state. */
  class FloatingInput {
    var value: Json
    var hasOnChange: bool
    var focused: bool
    var internalValue: Json

    /** `useState(defaultValue || "")`, unfocused. */
    constructor (value: Json, hasOnChange: bool, defaultValue: Json)
      ensures this.value == value && this.hasOnChange == hasOnChange
      ensures !focused && internalValue == Or(defaultValue, Str(""))
    {
      this.value := value;
      this.hasOnChange := hasOnChange;
      focused := false;
      internalValue := Or(defaultValue, Str(""));
    }

    predicate Active()
      reads this
    {
      IsActive(focused, value, hasOnChange, internalValue)
    }

    method Focus()
      modifies this
      ensures focused && value == old(value) && hasOnChange == old(hasOnChange) && internalValue == old(internalValue)
      ensures Active()
    {
      focused := true;
    }

    method Blur()
      modifies this
      ensures !focused && value == old(value) && hasOnChange == old(hasOnChange) && internalValue == old(internalValue)
      ensures Active() <==> Truthy(Shown(value, hasOnChange, internalValue))
    {
      focused := false;
    }

    /** `handleChange` with the text the user typed: a controlled input hands
        it to the parent's handler (returned here) and keeps its own text; an
        uncontrolled one stores it and hands nothing on. */
    method HandleChange(typed: string) returns (forwarded: Option<string>)
      modifies this
      ensures value == old(value) && hasOnChange == old(hasOnChange) && focused == old(focused)
      ensures IsControlled(value, hasOnChange) ==> forwarded == Some(typed) && internalValue == old(internalValue)
      ensures !IsControlled(value, hasOnChange) ==> forwarded == None && internalValue == Str(typed)
      ensures !IsControlled(value, hasOnChange) ==> (Active() <==> focused || typed != "")
    {
      if IsControlled(value, hasOnChange) {
        forwarded := Some(typed);
      } else {
        internalValue := Str(typed);
        forwarded := None;
      }
    }

    /** The parent renders the input again with new props (after its change
        handler stored the forwarded text, say). The input's own state is
        kept, so a controlled input now shows the new value. */
    method Rerender(newValue: Json, newHasOnChange: bool)
      modifies this
      ensures value == newValue && hasOnChange == newHasOnChange
      ensures focused == old(focused) && internalValue == old(internalValue)
      ensures IsControlled(value, hasOnChange) ==> (Active() <==> focused || Truthy(newValue))
    {
      value, hasOnChange := newValue, newHasOnChange;
    }
  }

  // ---------------------------------------------------------------------------
  // Finding a lot

  /** The index of the first lot at or after `from` whose `id` is exactly
      `id` (`===`, so a numeric id never matches text). */
  function FindFrom(lots: seq<Json>, id: string, from: nat): (r: Option<nat>)
    requires from <= |lots|
    ensures r.Some? ==> from <= r.value < |lots| && Prop(lots[r.value], "id") == Str(id)
                        && forall j :: from <= j < r.value ==> Prop(lots[j], "id") != Str(id)
    ensures r.None? ==> forall j :: from <= j < |lots| ==> Prop(lots[j], "id") != Str(id)
    decreases |lots| - from
  {
    if from == |lots| then None
    else if Prop(lots[from], "id") == Str(id) then Some(from)
    else FindFrom(lots, id, from + 1)
  }

  /** `lots.find(lot => lot.id === input.trim())`, as the found position. */
  function FindLot(lots: seq<Json>, input: string): Option<nat> {
    FindFrom(lots, Trim(input), 0)
  }

  /** White space around the typed id makes no difference, and a found lot is
      an object, so `if (foundLot)` takes the found branch exactly when some
      lot has the id. */
  lemma FindLotSpec(lots: seq<Json>, input: string)
    ensures FindLot(lots, Trim(input)) == FindLot(lots, input)
    ensures FindLot(lots, input).Some? <==> exists j :: 0 <= j < |lots| && Prop(lots[j], "id") == Str(Trim(input))
    ensures FindLot(lots, input).Some? ==> Truthy(lots[FindLot(lots, input).value])
  {
    TrimShape(input);
  }

  /** The two tabs; the first one is shown initially. */
  datatype Tab = Reservation | WalkIn

  /** Where "find" leads. */
  datatype Route = Results | Walkin(lotDetails: Json)

  /** The search bar's state, and the routes it has navigated to. */
  class SearchBar {
    var activeTab: Tab
    var lotIdInput: string
    var showToast: bool
    var navigations: seq<Route>

    constructor ()
      ensures activeTab == Reservation && lotIdInput == "" && !showToast && navigations == []
    {
      activeTab := Reservation;
      lotIdInput := "";
      showToast := false;
      navigations := [];
    }

    method SelectTab(tab: Tab)
      modifies this
      ensures activeTab == tab
      ensures lotIdInput == old(lotIdInput) && showToast == old(showToast) && navigations == old(navigations)
    {
      activeTab := tab;
    }

    /** The lot-id input's change handler. */
    method SetLotIdInput(text: string)
      modifies this
      ensures lotIdInput == text
      ensures activeTab == old(activeTab) && showToast == old(showToast) && navigations == old(navigations)
    {
      lotIdInput := text;
    }

    /** `handleFindSpots` over the known lots. On the reservation tab it always
        goes to the results page; on the walk-in tab it goes to the walk-in
        view with the first lot whose id is the trimmed input, or shows the
        toast and stays. */
    method HandleFindSpots(lots: seq<Json>)
      modifies this
      ensures activeTab == old(activeTab) && lotIdInput == old(lotIdInput)
      ensures activeTab == Reservation ==> navigations == old(navigations) + [Results] && showToast == old(showToast)
      ensures activeTab == WalkIn && FindLot(lots, lotIdInput).Some? ==>
                navigations == old(navigations) + [Walkin(lots[FindLot(lots, lotIdInput).value])]
                && showToast == old(showToast)
      ensures activeTab == WalkIn && FindLot(lots, lotIdInput).None? ==>
                navigations == old(navigations) && showToast
    {
      if activeTab == Reservation {
        navigations := navigations + [Results];
      } else {
        var found := FindLot(lots, lotIdInput);
        FindLotSpec(lots, lotIdInput);
        if found.Some? && Truthy(lots[found.value]) {
          navigations := navigations + [Walkin(lots[found.value])];
        } else {
          showToast := true;
        }
      }
    }

    /** The timeout that hides the toast again. */
    method HideToast()
      modifies this
      ensures !showToast
      ensures activeTab == old(activeTab) && lotIdInput == old(lotIdInput) && navigations == old(navigations)
    {
      showToast := false;
    }
  }
}
