/** input_reader.py: a debounced push button and a rotary encoder built
    from two of them. The pin reading and the monotonic clock, which the
    source reads from the hardware, are parameters here. */
module InputReader {

  /** `GPIO.LOW` (pressed: the buttons pull the pin down) and `GPIO.HIGH`. */
  datatype Level = Low | High

  const DebouncingPeriodNs: int := 100_000

  /** The fields of a `Button` other than its pin. */
  datatype ButtonState = ButtonState(
    previous: Level,
    debounced: Level,
    lastChangeNs: int,
    wasJustPressed: bool,
    wasJustReleased: bool)

  /** The effect of one `Button.update` with pin level `reading` at time
      `nowNs`. The reading is remembered; a change of reading restarts the
      debouncing period, so the debounced level cannot change in that same
      update; the debounced level follows the reading only once the period
      has passed without a change; and an edge flag is raised exactly when
      the debounced level flips, pressed for a fall to LOW, released for a
      rise to HIGH. */
  function Step(s: ButtonState, reading: Level, nowNs: int): (t: ButtonState)
    ensures t.previous == reading
    ensures s.previous != reading ==> t.lastChangeNs == nowNs && t.debounced == s.debounced
    ensures s.previous == reading ==> t.lastChangeNs == s.lastChangeNs
    ensures nowNs > t.lastChangeNs + DebouncingPeriodNs ==> t.debounced == reading
    ensures nowNs <= t.lastChangeNs + DebouncingPeriodNs ==> t.debounced == s.debounced
    ensures t.wasJustPressed <==> s.debounced == High && t.debounced == Low
    ensures t.wasJustReleased <==> s.debounced == Low && t.debounced == High
    ensures t.wasJustPressed || t.wasJustReleased <==> t.debounced != s.debounced
    ensures !(t.wasJustPressed && t.wasJustReleased)
  {
    var lastChangeNs := if s.previous != reading then nowNs else s.lastChangeNs;
    if nowNs > lastChangeNs + DebouncingPeriodNs then
      var edge := s.debounced != reading;
      ButtonState(reading, reading, lastChangeNs, edge && reading == Low, edge && reading == High)
    else
      ButtonState(reading, s.debounced, lastChangeNs, false, false)
  }

  /** The state after a run of updates, each a reading and its time. */
  function Run(s: ButtonState, updates: seq<(Level, int)>): ButtonState
    decreases |updates|
  {
    if |updates| == 0 then s else Run(Step(s, updates[0].0, updates[0].1), updates[1..])
  }

  /** Every reading of the run differs from the one before it. */
  predicate Chattering(s: ButtonState, updates: seq<(Level, int)>)
  {
    (|updates| > 0 ==> updates[0].0 != s.previous) &&
    forall i :: 0 < i < |updates| ==> updates[i].0 != updates[i - 1].0
  }

  /** Contact bounce is filtered out: while the reading changes on every
      update, the debounced level never moves, whatever the clock says. */
  lemma {:induction false} ChatteringIgnored(s: ButtonState, updates: seq<(Level, int)>)
    requires Chattering(s, updates)
    ensures Run(s, updates).debounced == s.debounced
    decreases |updates|
  {
    if |updates| > 0 {
      var t := Step(s, updates[0].0, updates[0].1);
      assert Chattering(t, updates[1..]) by {
        forall i | 0 < i < |updates[1..]|
          ensures updates[1..][i].0 != updates[1..][i - 1].0
        {
          assert updates[1..][i] == updates[i + 1] && updates[1..][i - 1] == updates[i];
        }
      }
      ChatteringIgnored(t, updates[1..]);
    }
  }

  /** `Button`: the pin is read through `Update`'s parameters. */
  class Button {
    var previous: Level
    var debounced: Level
    var lastChangeNs: int
    var wasJustPressed: bool
    var wasJustReleased: bool

    function State(): ButtonState
      reads this
    {
      ButtonState(previous, debounced, lastChangeNs, wasJustPressed, wasJustReleased)
    }

    /** `Button(pin)`, with the pin's level and the clock at creation. */
    constructor(reading: Level, nowNs: int)
      ensures State() == ButtonState(reading, reading, nowNs, false, false)
    {
      previous := reading;
      debounced := reading;
      lastChangeNs := nowNs;
      wasJustPressed := false;
      wasJustReleased := false;
    }

    /** `update`: both flags are cleared first, then set again only on a
        debounced edge. */
    method Update(reading: Level, nowNs: int)
      modifies this
      ensures State() == Step(old(State()), reading, nowNs)
      ensures WasJustOnEdge() <==> IsPressed() != old(IsPressed())
      ensures wasJustPressed <==> IsPressed() && !old(IsPressed())
    {
      wasJustPressed := false;
      wasJustReleased := false;
      if previous != reading {
        lastChangeNs := nowNs;
      }
      if nowNs > lastChangeNs + DebouncingPeriodNs {
        if debounced != reading {
          if reading == Low {
            wasJustPressed := true;
          } else if reading == High {
            wasJustReleased := true;
          }
        }
        debounced := reading;
      }
      previous := reading;
    }

    /** `is_pressed`: the debounced level is LOW. */
    predicate IsPressed()
      reads this
      ensures IsPressed() <==> State().debounced == Low
    {
      debounced == Low
    }

    /** `is_released`: the opposite of `is_pressed`, so the debounced level
        is HIGH. */
    predicate IsReleased()
      reads this
      ensures IsReleased() <==> State().debounced == High
    {
      !IsPressed()
    }

    /** `was_just_on_edge`: either edge flag is raised. */
    predicate WasJustOnEdge()
      reads this
      ensures WasJustOnEdge() <==> State().wasJustPressed || State().wasJustReleased
    {
      wasJustPressed || wasJustReleased
    }
  }

  /** What `Encoder.update` reports: a turn is seen only on a press of the
      first button, to the left when the second button is held then, to the
      right otherwise. */
  datatype Turn = Turn(left: bool, right: bool)

  function TurnOf(first: ButtonState, second: ButtonState): (t: Turn)
    ensures t.left <==> first.wasJustPressed && second.debounced == Low
    ensures t.right <==> first.wasJustPressed && second.debounced != Low
    ensures !(t.left && t.right)
  {
    if first.wasJustPressed then
      if second.debounced == Low then Turn(true, false) else Turn(false, true)
    else Turn(false, false)
  }

  /** `Encoder`: two buttons, each updated with its own reading and time. */
  class Encoder {
    const first: Button
    const second: Button
    var wasJustTurnedLeft: bool
    var wasJustTurnedRight: bool

    ghost predicate Valid()
      reads this
    {
      first != second
    }

    /** `Encoder(first_pin, second_pin)`: the two buttons are created one
        after the other, each with its own reading and time. */
    constructor(firstReading: Level, firstNowNs: int, secondReading: Level, secondNowNs: int)
      ensures Valid() && fresh(first) && fresh(second)
      ensures first.State() == ButtonState(firstReading, firstReading, firstNowNs, false, false)
      ensures second.State() == ButtonState(secondReading, secondReading, secondNowNs, false, false)
      ensures !wasJustTurnedLeft && !wasJustTurnedRight
    {
      first := new Button(firstReading, firstNowNs);
      second := new Button(secondReading, secondNowNs);
      wasJustTurnedLeft := false;
      wasJustTurnedRight := false;
    }

    /** `update`: clears both turn flags, updates the first button and then
        the second, and raises the flag `TurnOf` names for the new states. */
    method Update(firstReading: Level, firstNowNs: int, secondReading: Level, secondNowNs: int)
      requires Valid()
      modifies this, first, second
      ensures first.State() == Step(old(first.State()), firstReading, firstNowNs)
      ensures second.State() == Step(old(second.State()), secondReading, secondNowNs)
      ensures Turn(wasJustTurnedLeft, wasJustTurnedRight) == TurnOf(first.State(), second.State())
    {
      wasJustTurnedLeft := false;
      wasJustTurnedRight := false;
      first.Update(firstReading, firstNowNs);
      second.Update(secondReading, secondNowNs);
      if first.wasJustPressed {
        if second.IsPressed() {
          wasJustTurnedLeft := true;
        } else {
          wasJustTurnedRight := true;
        }
      }
    }
  }
}
