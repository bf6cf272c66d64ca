/** The countdown shown on a checked-in booking: splitting the remaining
    milliseconds into hours, minutes and seconds, and the effect that checks
    for expiry when it starts and then once per interval tick. */
module Countdown {
  import opened Common

  datatype Clock = Clock(hours: nat, minutes: nat, secs: nat)

  /** `formatTime`: whole seconds split into hours, minutes below 60 and
      seconds below 60. The remaining time it is given is never negative. */
  function FormatTime(ms: nat): (c: Clock)
    ensures c.hours * 3600 + c.minutes * 60 + c.secs == ms / 1000
    ensures c.minutes < 60 && c.secs < 60
  {
    var seconds := ms / 1000;
    Clock(seconds / 3600, (seconds % 3600) / 60, seconds % 60)
  }

  /** The split is the only one with minutes and seconds below 60, so a
      displayed clock determines the whole seconds left. */
  lemma FormatTimeUnique(ms: nat, c: Clock)
    requires c.hours * 3600 + c.minutes * 60 + c.secs == ms / 1000
    requires c.minutes < 60 && c.secs < 60
    ensures FormatTime(ms) == c
  {
    var f := FormatTime(ms);
    var m := c.minutes * 60 + c.secs;
    var fm := f.minutes * 60 + f.secs;
    assert 0 <= m < 3600 && 0 <= fm < 3600;
    assert (c.hours - f.hours) * 3600 == fm - m;
    assert c.hours == f.hours;
    assert c.minutes == f.minutes;
  }

  /** `String(n).padStart(2, "0")`. */
  function PadStart2(n: nat): (r: string)
    ensures |r| >= 2 && AllDigits(r)
    ensures n >= 10 ==> r == NatToString(n)
    ensures n < 100 ==> |r| == 2
    ensures ParseNat(r) == n
  {
    var t := NatToString(n);
    ParseNatToString(n);
    if |t| < 2 then
      var r := "0" + t;
      assert r[..|r| - 1] == "0";
      r
    else t
  }

  /** The three fields the timer shows. */
  function Display(c: Clock): seq<string> {
    [PadStart2(c.hours), PadStart2(c.minutes), PadStart2(c.secs)]
  }

  /** Minutes and seconds always show as exactly two digits, and every field
      reads back as the number it shows. */
  lemma DisplaySpec(ms: nat)
    ensures var d := Display(FormatTime(ms));
            && |d| == 3 && |d[1]| == 2 && |d[2]| == 2 && |d[0]| >= 2
            && ParseNat(d[0]) * 3600 + ParseNat(d[1]) * 60 + ParseNat(d[2]) == ms / 1000
  {
  }

  // ---------------------------------------------------------------------------
  // The expiry effect

  /** The timer's state: the remaining time on display, whether the countdown
      is shown as active, whether the interval is scheduled, and how often the
      current run of the effect has called `onExpire`. */
  datatype Phase = Phase(remaining: nat, active: bool, running: bool, expireCalls: nat)

  const INITIAL: Phase := Phase(0, false, false, 0)

  /** A run of the effect at instant `now`, after the previous run was cleaned
      up. An end that does not parse schedules nothing and leaves the display
      as it was; an end already reached sets the display to zero and calls
      `onExpire` (when one was given); otherwise the countdown becomes active
      and the interval is scheduled, the display keeping its value until the
      first tick. */
  function Mount(p: Phase, end: Millis, now: int, hasOnExpire: bool): Phase {
    if end.Invalid? then p.(running := false, expireCalls := 0)
    else if now >= end.ms then Phase(0, false, false, if hasOnExpire then 1 else 0)
    else p.(active := true, running := true, expireCalls := 0)
  }

  /** One interval tick at instant `now`. A cleared interval does not fire. */
  function Tick(p: Phase, end: int, now: int, hasOnExpire: bool): Phase {
    if !p.running then p
    else if end - now <= 0 then Phase(0, false, false, p.expireCalls + if hasOnExpire then 1 else 0)
    else p.(remaining := end - now)
  }

  /** The state a run of the effect keeps: a scheduled interval belongs to an
      active countdown that has not expired yet, and `onExpire` has been
      called at most once. */
  predicate Inv(p: Phase) {
    (p.running ==> p.active && p.expireCalls == 0) && p.expireCalls <= 1
  }

  /** The ticks an effect run sees, in order. */
  function RunTicks(p: Phase, end: int, nows: seq<int>, hasOnExpire: bool): Phase
    decreases |nows|
  {
    if nows == [] then p else RunTicks(Tick(p, end, nows[0], hasOnExpire), end, nows[1..], hasOnExpire)
  }

  /** A run that starts from a cleaned-up state keeps the invariant, and an
      unparsable end never schedules the interval nor calls `onExpire`. */
  lemma MountSpec(p: Phase, end: Millis, now: int, hasOnExpire: bool)
    ensures Inv(Mount(p, end, now, hasOnExpire))
    ensures end.Invalid? ==> !Mount(p, end, now, hasOnExpire).running && Mount(p, end, now, hasOnExpire).expireCalls == 0
    ensures end.At? && now >= end.ms ==>
              Mount(p, end, now, hasOnExpire) == Phase(0, false, false, if hasOnExpire then 1 else 0)
    ensures end.At? && now < end.ms ==>
              var q := Mount(p, end, now, hasOnExpire);
              q.running && q.active && q.expireCalls == 0 && q.remaining == p.remaining
  {
  }

  /** A tick before the end shows `end - now` and stays active; a tick at or
      past the end clears the interval, so every tick keeps the invariant. */
  lemma TickSpec(p: Phase, end: int, now: int, hasOnExpire: bool)
    requires Inv(p)
    ensures Inv(Tick(p, end, now, hasOnExpire))
    ensures p.running && end - now > 0 ==>
              Tick(p, end, now, hasOnExpire) == p.(remaining := end - now)
    ensures p.running && end - now <= 0 ==>
              var q := Tick(p, end, now, hasOnExpire);
              !q.running && !q.active && q.remaining == 0
              && q.expireCalls == if hasOnExpire then 1 else 0
  {
  }

  /** Over any sequence of ticks, `onExpire` is called at most once; once a
      tick reaches the end the interval is gone; and a run whose interval is
      scheduled calls `onExpire` exactly when a tick reaches the end. */
  lemma {:induction false} RunTicksSpec(p: Phase, end: int, nows: seq<int>, hasOnExpire: bool)
    requires Inv(p)
    ensures Inv(RunTicks(p, end, nows, hasOnExpire))
    ensures (exists i :: 0 <= i < |nows| && nows[i] >= end) ==> !RunTicks(p, end, nows, hasOnExpire).running
    ensures p.running && hasOnExpire ==>
              (RunTicks(p, end, nows, hasOnExpire).expireCalls == 1 <==> exists i :: 0 <= i < |nows| && nows[i] >= end)
    decreases |nows|
  {
    if nows != [] {
      var q := Tick(p, end, nows[0], hasOnExpire);
      TickSpec(p, end, nows[0], hasOnExpire);
      RunTicksSpec(q, end, nows[1..], hasOnExpire);
      if exists i :: 0 <= i < |nows| && nows[i] >= end {
        var i :| 0 <= i < |nows| && nows[i] >= end;
        if i > 0 {
          assert nows[1..][i - 1] >= end;
        }
      }
      if exists i :: 0 <= i < |nows[1..]| && nows[1..][i] >= end {
        var i :| 0 <= i < |nows[1..]| && nows[1..][i] >= end;
        assert nows[i + 1] >= end;
      }
      if !q.running {
        StoppedStaysStopped(q, end, nows[1..], hasOnExpire);
      }
    }
  }

  /** Once the interval is cleared, later ticks change nothing. */
  lemma {:induction false} StoppedStaysStopped(p: Phase, end: int, nows: seq<int>, hasOnExpire: bool)
    requires !p.running
    ensures RunTicks(p, end, nows, hasOnExpire) == p
    decreases |nows|
  {
    if nows != [] {
      StoppedStaysStopped(p, end, nows[1..], hasOnExpire);
    }
  }

  /** The timer component: its two pieces of display state and the interval
      of the current effect run. */
  class TimerEffect {
    var remaining: nat
    var active: bool
    var running: bool
    var expireCalls: nat
    var end: Millis

    function State(): Phase
      reads this
    {
      Phase(remaining, active, running, expireCalls)
    }

    ghost predicate Valid()
      reads this
    {
      Inv(State()) && (running ==> end.At?)
    }

    /** The component before its effect first runs. */
    constructor ()
      ensures State() == INITIAL && Valid()
    {
      remaining := 0;
      active := false;
      running := false;
      expireCalls := 0;
      end := Invalid;
    }

    /** The cleanup React runs before the effect runs again. */
    method Cleanup()
      requires Valid()
      modifies this
      ensures State() == old(State()).(running := false) && end == old(end)
      ensures Valid()
    {
      running := false;
    }

    /** The effect body, run with the booking's end instant at `now`. */
    method RunEffect(endTime: Millis, now: int, hasOnExpire: bool)
      requires !running
      modifies this
      ensures State() == Mount(old(State()), endTime, now, hasOnExpire) && end == endTime
      ensures Valid()
    {
      end := endTime;
      expireCalls := 0;
      if endTime.Invalid? {
        return;
      }
      if now >= endTime.ms {
        remaining := 0;
        active := false;
        if hasOnExpire {
          expireCalls := 1;
        }
        return;
      }
      active := true;
      running := true;
    }

    /** The interval callback at instant `now`. */
    method OnTick(now: int, hasOnExpire: bool)
      requires Valid()
      modifies this
      ensures end == old(end)
      ensures old(running) ==> State() == Tick(old(State()), old(end).ms, now, hasOnExpire)
      ensures !old(running) ==> State() == old(State())
      ensures Valid()
    {
      if !running {
        return;
      }
      var left := end.ms - now;
      if left <= 0 {
        running := false;
        remaining := 0;
        active := false;
        if hasOnExpire {
          expireCalls := expireCalls + 1;
        }
      } else {
        remaining := left;
      }
    }
  }
}
