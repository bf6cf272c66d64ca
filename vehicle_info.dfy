/** The vehicle form shown before payment: the reservation's duration text,
    required-field validation, the change check and the submit decision. */
module VehicleInfo {
  import opened Common

  // ---------------------------------------------------------------------------
  // calculateDuration

  type Hour = h: int | 0 <= h < 24
  type Minute = m: int | 0 <= m < 60

  /** A wall-clock time as a time input yields it (`HH:mm`). */
  datatype ClockTime = ClockTime(hour: Hour, minute: Minute)

  const MINUTES_PER_DAY: nat := 1440
  const MS_PER_MINUTE: nat := 60000

  function MinuteOfDay(t: ClockTime): (m: nat)
    ensures m < MINUTES_PER_DAY
  {
    t.hour * 60 + t.minute
  }

  /** The length of the stay in minutes: the forward distance on the clock
      face from start to end, a full day when they coincide. */
  function DurationMinutes(start: ClockTime, end: ClockTime): (d: int)
    ensures 0 < d <= MINUTES_PER_DAY
    ensures (d - (MinuteOfDay(end) - MinuteOfDay(start))) % MINUTES_PER_DAY == 0
  {
    var x := (MinuteOfDay(end) - MinuteOfDay(start)) % MINUTES_PER_DAY;
    if x == 0 then MINUTES_PER_DAY else x
  }

  /** Those two properties single the duration out. */
  lemma DurationMinutesUnique(start: ClockTime, end: ClockTime, d: int)
    requires 0 < d <= MINUTES_PER_DAY
    requires (d - (MinuteOfDay(end) - MinuteOfDay(start))) % MINUTES_PER_DAY == 0
    ensures d == DurationMinutes(start, end)
  {
    var e := DurationMinutes(start, end);
    var k1 := (d - (MinuteOfDay(end) - MinuteOfDay(start))) / MINUTES_PER_DAY;
    var k2 := (e - (MinuteOfDay(end) - MinuteOfDay(start))) / MINUTES_PER_DAY;
    assert d - e == (k1 - k2) * MINUTES_PER_DAY;
  }

  /** `${hours} hr` or `${hours} hrs`, or nothing for zero hours. */
  function HoursPart(hours: nat): string {
    if hours > 0 then NatToString(hours) + " hr" + (if hours > 1 then "s" else "") else ""
  }

  /** `${minutes} min` or `${minutes} mins`, or nothing for zero minutes. */
  function MinutesPart(minutes: nat): string {
    if minutes > 0 then NatToString(minutes) + " min" + (if minutes > 1 then "s" else "") else ""
  }

  /** The text `calculateDuration` shows for a stay of `mins` minutes. */
  function DurationText(mins: nat): string {
    Trim(HoursPart(mins / 60) + " " + MinutesPart(mins % 60))
  }

  /** `calculateDuration`: both dates are set to today at the given times, the
      end moves to the next day unless it is later than the start, and the
      difference is split into hours and minutes. A missing time gives "". */
  method CalculateDuration(start: Option<ClockTime>, end: Option<ClockTime>) returns (text: string)
    ensures start.None? || end.None? ==> text == ""
    ensures start.Some? && end.Some? ==> text == DurationText(DurationMinutes(start.value, end.value))
  {
    if start.None? || end.None? {
      return "";
    }
    var startMs := MinuteOfDay(start.value) * MS_PER_MINUTE;
    var endMs := MinuteOfDay(end.value) * MS_PER_MINUTE;
    if endMs <= startMs {
      endMs := endMs + MINUTES_PER_DAY * MS_PER_MINUTE;
    }
    var diffMins := (endMs - startMs) / MS_PER_MINUTE;
    assert diffMins == DurationMinutes(start.value, end.value) by {
      assert endMs - startMs == diffMins * MS_PER_MINUTE;
      DurationMinutesUnique(start.value, end.value, diffMins);
    }
    var hours := diffMins / 60;
    var minutes := diffMins % 60;
    text := Trim(HoursPart(hours) + " " + MinutesPart(minutes));
  }

  /** A string that neither starts nor ends with white space. */
  predicate Unpadded(s: string) {
    s == [] || (!IsJsSpace(s[0]) && !IsJsSpace(s[|s| - 1]))
  }

  lemma TrimUnpadded(s: string)
    requires Unpadded(s)
    ensures Trim(s) == s
  {
  }

  lemma TrimLeadingBlank(s: string)
    requires s != [] && Unpadded(s)
    ensures Trim(" " + s) == s
  {
    assert (" " + s)[1..] == s;
  }

  lemma TrimTrailingBlank(s: string)
    requires s != [] && Unpadded(s)
    ensures Trim(s + " ") == s
  {
    assert (s + " ")[..|s + " "| - 1] == s;
  }

  lemma PartsUnpadded(n: nat)
    ensures Unpadded(HoursPart(n)) && Unpadded(MinutesPart(n))
    ensures HoursPart(n) == "" <==> n == 0
    ensures MinutesPart(n) == "" <==> n == 0
  {
    if n > 0 {
      var t := NatToString(n);
      assert IsDigit(t[0]);
    }
  }

  /** The duration text, with the trimming worked out: the hour part and the
      minute part separated by one blank, a zero part left out with its
      blank, and nothing at all for zero minutes. */
  lemma DurationTextForm(mins: nat)
    ensures var h, m := HoursPart(mins / 60), MinutesPart(mins % 60);
            DurationText(mins) == if h == "" then m else if m == "" then h else h + " " + m
    ensures DurationText(mins) == "" <==> mins == 0
  {
    var h, m := HoursPart(mins / 60), MinutesPart(mins % 60);
    PartsUnpadded(mins / 60);
    PartsUnpadded(mins % 60);
    if h == "" && m == "" {
      assert AllSpace(" ");
      TrimEmptyIff(" ");
    } else if h == "" {
      assert h + " " + m == " " + m;
      TrimLeadingBlank(m);
    } else if m == "" {
      assert h + " " + m == h + " ";
      TrimTrailingBlank(h);
    } else {
      assert Unpadded(h + " " + m);
      TrimUnpadded(h + " " + m);
    }
  }

  /** Every stay the form can describe has a non-empty duration text. */
  lemma DurationTextNonEmpty(start: ClockTime, end: ClockTime)
    ensures DurationText(DurationMinutes(start, end)) != ""
  {
    DurationTextForm(DurationMinutes(start, end));
  }

  // ---------------------------------------------------------------------------
  // validate, isVehicleChanged, handleChange, handleSubmit

  /** The fields `validate` checks, in order, each with its message. */
  const REQUIRED: seq<string> := ["licensePlate", "vehicleType", "make", "model", "color"]

  function Message(field: string): string {
    if field == "licensePlate" then "License plate is required."
    else if field == "vehicleType" then "Please select vehicle type."
    else if field == "make" then "Make is required."
    else if field == "model" then "Model is required."
    else "Color is required."
  }

  /** A required field is blank when it is empty after trimming, that is,
      when it holds white space only (`TrimEmptyIff`). */
  predicate Blank(vehicle: map<string, Json>, field: string)
    requires Get(vehicle, field).Str?
  {
    AllSpace(Get(vehicle, field).s)
  }

  /** `validate` calls `.trim()` on every required field; a field that is not
      a string makes it throw. */
  predicate AllStrings(vehicle: map<string, Json>) {
    forall i :: 0 <= i < |REQUIRED| ==> Get(vehicle, REQUIRED[i]).Str?
  }

  /** The error map `validate` builds by checking `fields` one after the
      other. */
  function ErrorsFor(vehicle: map<string, Json>, fields: seq<string>): map<string, string>
    requires forall i :: 0 <= i < |fields| ==> Get(vehicle, fields[i]).Str?
  {
    if fields == [] then map[]
    else
      var errs := ErrorsFor(vehicle, fields[..|fields| - 1]);
      var f := fields[|fields| - 1];
      if Blank(vehicle, f) then errs[f := Message(f)] else errs
  }

  /** The checks leave one message per blank field and nothing else. */
  lemma {:induction false} ErrorsForSpec(vehicle: map<string, Json>, fields: seq<string>)
    requires forall i :: 0 <= i < |fields| ==> Get(vehicle, fields[i]).Str?
    ensures var errs := ErrorsFor(vehicle, fields);
            && (forall i :: 0 <= i < |fields| ==> (fields[i] in errs <==> Blank(vehicle, fields[i])))
            && (forall f :: f in errs ==> f in fields && errs[f] == Message(f))
  {
    if fields != [] {
      var init := fields[..|fields| - 1];
      ErrorsForSpec(vehicle, init);
      assert forall i :: 0 <= i < |init| ==> init[i] == fields[i];
    }
  }

  function ValidationErrors(vehicle: map<string, Json>): map<string, string>
    requires AllStrings(vehicle)
  {
    ErrorsFor(vehicle, REQUIRED)
  }

  /** The form is valid exactly when every required field has a character
      that is not white space. */
  lemma ValidationErrorsEmptyIff(vehicle: map<string, Json>)
    requires AllStrings(vehicle)
    ensures ValidationErrors(vehicle) == map[] <==>
              forall i :: 0 <= i < |REQUIRED| ==> !AllSpace(Get(vehicle, REQUIRED[i]).s)
  {
    ErrorsForSpec(vehicle, REQUIRED);
    if ValidationErrors(vehicle) != map[] {
      var f :| f in ValidationErrors(vehicle);
      assert f in REQUIRED;
      var i :| 0 <= i < |REQUIRED| && REQUIRED[i] == f;
      assert AllSpace(Get(vehicle, REQUIRED[i]).s);
    }
  }

  /** `isVehicleChanged`: with no vehicle loaded, anything counts as a change;
      otherwise some field of the form differs from the loaded one. */
  predicate Changed(vehicle: map<string, Json>, initial: Option<map<string, Json>>) {
    initial.None? || exists k :: k in vehicle && vehicle[k] != Get(initial.value, k)
  }

  /** The form as loaded is unchanged; editing a field to a value other than
      the loaded one is a change; and an edit that restores a field's loaded
      value removes that field as a cause. */
  lemma ChangedSpec(initial: map<string, Json>, vehicle: map<string, Json>, name: string, value: Json)
    ensures !Changed(initial, Some(initial))
    ensures value != Get(initial, name) ==> Changed(vehicle[name := value], Some(initial))
    ensures !Changed(vehicle, Some(initial)) && value == Get(initial, name) ==>
              !Changed(vehicle[name := value], Some(initial))
  {
    if value != Get(initial, name) {
      assert name in vehicle[name := value];
    }
  }

  /** The fields copied from the user's first stored vehicle. */
  const FORM_FIELDS: seq<string> := ["licensePlate", "vehicleType", "make", "model", "color", "registeredAt"]

  class VehicleForm {
    var vehicle: map<string, Json>
    var initialVehicle: Option<map<string, Json>>
    var vehicleExists: bool
    var errors: map<string, string>

    /** The empty form, stamped with the registration time. */
    constructor (registeredAt: string)
      ensures vehicle == map["licensePlate" := Str(""), "vehicleType" := Str(""), "make" := Str(""),
                             "model" := Str(""), "color" := Str(""), "registeredAt" := Str(registeredAt)]
      ensures initialVehicle == None && !vehicleExists && errors == map[]
    {
      vehicle := map["licensePlate" := Str(""), "vehicleType" := Str(""), "make" := Str(""),
                     "model" := Str(""), "color" := Str(""), "registeredAt" := Str(registeredAt)];
      initialVehicle := None;
      vehicleExists := false;
      errors := map[];
    }

    /** The user's stored vehicle arrived: the form and the comparison base
        both become its six fields. */
    method LoadExisting(stored: map<string, Json>)
      modifies this
      ensures vehicle == map k | k in FORM_FIELDS :: Get(stored, k)
      ensures initialVehicle == Some(vehicle) && vehicleExists && errors == old(errors)
      ensures !Changed(vehicle, initialVehicle)
    {
      vehicle := map k | k in FORM_FIELDS :: Get(stored, k);
      initialVehicle := Some(vehicle);
      vehicleExists := true;
      ChangedSpec(vehicle, vehicle, "", Undefined);
    }

    /** `handleChange`: set the field, and drop that field's error only. */
    method HandleChange(name: string, value: Json)
      modifies this
      ensures vehicle == old(vehicle)[name := value]
      ensures errors == if name in old(errors) && old(errors)[name] != "" then old(errors) - {name} else old(errors)
      ensures forall f :: f in old(errors) && f != name ==> f in errors && errors[f] == old(errors)[f]
      ensures name !in errors || errors[name] == ""
      ensures initialVehicle == old(initialVehicle) && vehicleExists == old(vehicleExists)
    {
      vehicle := vehicle[name := value];
      if name in errors && errors[name] != "" {
        errors := errors - {name};
      }
    }

    /** `validate`: the error map is rebuilt from scratch, one check after the
        other. `Err` when a field is not a string and `.trim()` throws, which
        leaves the errors as they were (the map under construction is local,
        so which field throws first makes no difference). */
    method Validate() returns (r: Result<bool>)
      modifies this
      ensures vehicle == old(vehicle) && initialVehicle == old(initialVehicle) && vehicleExists == old(vehicleExists)
      ensures r.Err? <==> !AllStrings(vehicle)
      ensures r.Err? ==> errors == old(errors)
      ensures r.Ok? ==> errors == ValidationErrors(vehicle) && (r.value <==> errors == map[])
    {
      if !AllStrings(vehicle) {
        return Err("Cannot read properties of undefined (reading 'trim')");
      }
      var errs: map<string, string> := map[];
      errs := CheckField(errs, 0);
      errs := CheckField(errs, 1);
      errs := CheckField(errs, 2);
      errs := CheckField(errs, 3);
      errs := CheckField(errs, 4);
      assert REQUIRED[..5] == REQUIRED;
      errors := errs;
      r := Ok(errs == map[]);
    }

    /** One line of `validate`: record the message of the `k`-th field when
        it is blank. */
    method CheckField(errs: map<string, string>, k: nat) returns (r: map<string, string>)
      requires k < |REQUIRED| && AllStrings(vehicle)
      requires errs == ErrorsFor(vehicle, REQUIRED[..k])
      ensures r == ErrorsFor(vehicle, REQUIRED[..k + 1])
    {
      assert REQUIRED[..k + 1][..k] == REQUIRED[..k];
      var field := REQUIRED[k];
      r := errs;
      TrimEmptyIff(Get(vehicle, field).s);
      if Trim(Get(vehicle, field).s) == "" {
        r := errs[field := Message(field)];
      }
    }

    /** `handleSubmit`. `noStoredUser` says whether local storage lacks the
        user's id, the one case in which `updateUserVehicle` throws: a failed
        PUT or network error is caught inside it, so the form still goes on to
        payment. The result says whether the update was attempted and whether
        the form went on to payment. */
    method HandleSubmit(noStoredUser: bool) returns (sentUpdate: bool, proceeded: bool)
      modifies this
      ensures vehicle == old(vehicle) && initialVehicle == old(initialVehicle) && vehicleExists == old(vehicleExists)
      ensures AllStrings(vehicle) ==> errors == ValidationErrors(vehicle)
      ensures !AllStrings(vehicle) ==> errors == old(errors)
      ensures !AllStrings(vehicle) || ValidationErrors(vehicle) != map[] ==> !sentUpdate && !proceeded
      ensures AllStrings(vehicle) && ValidationErrors(vehicle) == map[] ==>
                && (sentUpdate <==> !vehicleExists || Changed(vehicle, initialVehicle))
                && (proceeded <==> !(sentUpdate && noStoredUser))
    {
      sentUpdate, proceeded := false, false;
      var valid := Validate();
      if valid.Err? || !valid.value {
        return;
      }
      if !vehicleExists || Changed(vehicle, initialVehicle) {
        sentUpdate := true;
        if noStoredUser {
          return;
        }
      }
      proceeded := true;
    }
  }
}
