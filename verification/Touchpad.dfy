/** earbud/src/peripherals/touchpad_psoc4000s.c as it is written, for the second touch sensor: counters and timers that
    are changed in place, and searches through the action tables. Every method is proved to do what TouchSpec says, and
    those for events to keep the bounds of TouchGestures. */
module Touchpad {
  import opened Results
  import opened TouchSpec
  import opened TouchGestures

  /** One line of touch_action_map. */
  datatype DataMapping = DataMapping(action: nat, data: Byte)

  const DATA_MAP: seq<DataMapping> :=
    [DataMapping(SLIDE_UP, DATA_SLIDER_UP), DataMapping(SLIDE_DOWN, DATA_SLIDER_DOWN),
     DataMapping(HAND_COVER, DATA_PRESS), DataMapping(HAND_COVER_RELEASE, DATA_RELEASE)]

  datatype Timer = HeldTimer | HeldRelease | ClickTimer

  lemma {:induction false} LookupFirst(table: seq<Mapping>, action: nat, i: nat)
    requires i < |table| && table[i].action == action && forall j | 0 <= j < i :: table[j].action != action
    ensures Lookup(table, action) == Some(table[i].message)
  {
    if i > 0 {
      LookupFirst(table[1..], action, i - 1);
    }
  }

  class Pads {
    const table: seq<Mapping>
    var presses: nat
    var held: nat
    var last: Byte
    var cancel: Option<nat>
    var hold: Option<nat>
    var click: Option<nat>
    var reset: Option<nat>
    var released: bool
    /** What was sent to the clients. */
    var sent: seq<Sent>

    function View(): Pad
      reads this
    {
      Pad(presses, held, last, cancel, hold, click, reset, released, sent)
    }

    /** What TouchGestures proves of every run. */
    ghost predicate Valid()
      reads this
    {
      Bounded(View())
    }

    constructor (table: seq<Mapping>)
      ensures View() == FRESH && this.table == table && Valid()
    {
      this.table := table;
      presses, held, last, cancel, hold, click, reset := 0, 0, DATA_UNDEFINED, None, None, None, None;
      released, sent := false, [];
    }

    // -------------------------------------------------------------- sending

    /** touchPsoc4000s_MapAndSendEvents: a search through the action table. */
    method MapAndSendEvents(action: nat, regardless: bool) returns (found: bool)
      modifies this`sent
      ensures found == Lookup(table, action).Some?
      ensures View() == Send(old(View()), Emit(table, action, regardless))
    {
      for i := 0 to |table|
        invariant forall j | 0 <= j < i :: table[j].action != action
        invariant View() == old(View())
      {
        if action == table[i].action {
          LookupFirst(table, action, i);
          assert [Action(action)] + [Ui(table[i].message)] == [Action(action), Ui(table[i].message)];
          sent := sent + [Action(action)] + [Ui(table[i].message)];
          return true;
        }
      }
      found := false;
      if regardless {
        sent := sent + [Action(action)];
      }
    }

    /** touchPsoc4000s_MapTouchToLogicalInput: a search through touch_action_map. */
    method MapTouchToLogicalInput(data: Byte)
      modifies this`sent
      ensures View() == Send(old(View()), DataSends(table, data))
    {
      for i := 0 to |DATA_MAP|
        invariant forall j | 0 <= j < i :: DATA_MAP[j].data != data
        invariant View() == old(View())
      {
        if DATA_MAP[i].data == data {
          if DATA_MAP[i].action != MAX_ACTION {
            var found := MapAndSendEvents(DATA_MAP[i].action, true);
          }
          return;
        }
      }
      assert DATA_MAP[0].data != data && DATA_MAP[1].data != data && DATA_MAP[2].data != data && DATA_MAP[3].data != data;
      assert sent + [] == sent;
    }

    /** touchPsoc4000s_MapTapAndSwipeToLogicalInput. */
    method MapTapAndSwipe(taps: nat, data: Byte)
      requires taps > 0 && (data == DATA_SLIDER_UP || data == DATA_SLIDER_DOWN)
      modifies this`sent
      ensures View() == Send(old(View()), SlideSends(table, taps, data))
    {
      if taps > 1 {
        assert sent + [] == sent;
        return;
      }
      var found := MapAndSendEvents(if data == DATA_SLIDER_UP then TAP_SLIDE_UP else TAP_SLIDE_DOWN, true);
    }

    /** The search for the closest lower release. */
    method FindRelease(action: nat)
      modifies this`sent
      ensures View() == Send(old(View()), Fallback(table, action))
    {
      var a: nat, found := action, false;
      while a > PRESS_RELEASE_OFFSET && !found
        invariant found ==> View() == Send(old(View()), Fallback(table, action))
        invariant !found ==> View() == old(View()) && Fallback(table, action) == Fallback(table, a)
        decreases a
      {
        a := a - 1;
        assert sent + [] == sent;
        found := MapAndSendEvents(a, false);
      }
      assert !found ==> sent + [] == sent;
    }

    /** touchPsoc4000s_MapTouchTimerToLogicalInput. */
    method MapTouchTimer(id: Timer, press: nat, data: nat)
      modifies this`sent
      ensures View() == Send(old(View()),
                             match id
                             case HeldTimer => HoldSends(table, press, data)
                             case HeldRelease => ReleaseSends(table, press, data)
                             case ClickTimer => ClickSends(table, press))
    {
      assert sent + [] == sent;
      var input: nat := MAX_ACTION;
      match id {
        case HeldTimer =>
          if press == 1 {
            input := data + PRESS_HOLD_OFFSET;
          } else if press == 2 {
            input := data + DOUBLE_HOLD_OFFSET;
          } else {
            return;
          }
        case HeldRelease =>
          if press == 1 {
            input := data + PRESS_RELEASE_OFFSET;
          } else if press == 2 {
            input := data + DOUBLE_RELEASE_OFFSET;
          } else {
            return;
          }
        case ClickTimer =>
          if press >= MAX_PRESS_SUPPORT {
            return;
          }
          input := press;
      }
      if input != MAX_ACTION {
        SendTimed(id, input);
      }
    }

    method SendTimed(id: Timer, input: nat)
      modifies this`sent
      ensures View() == Send(old(View()), if id == HeldRelease then EmitRelease(table, input) else Emit(table, input, true))
    {
      ghost var before, emitted := sent, Emit(table, input, true);
      var found := MapAndSendEvents(input, true);
      assert before + emitted + [] == before + (emitted + []);
      assert before + emitted + Fallback(table, input) == before + (emitted + Fallback(table, input));
      assert emitted + [] == emitted;
      if id == HeldRelease && !found {
        FindRelease(input);
      }
    }

    // -------------------------------------------------------------- touches

    /** touchPsoc4000s_CancelTimers. */
    method CancelAllTimers()
      modifies this`cancel, this`hold, this`click
      ensures View() == CancelTimers(old(View()))
    {
      cancel, hold, click := None, None, None;
    }

    /** touchPsoc4000s_Reset. */
    method ResetSensor(keep: bool)
      modifies this
      ensures View() == Reset(old(View()), keep) && (old(Valid()) ==> Valid())
    {
      presses := 0;
      held := 0;
      cancel, hold, click := None, None, None;
      if keep {
        return;
      }
      reset := Some(RESET_MS);
    }

    /** touchPsoc4000s_HandleTouchData; a release message has been handled before. */
    method HandleTouchData(data: seq<Byte>)
      requires |data| == 5 && Valid() && !released
      modifies this
      ensures View() == Touched(table, old(View()), data) && Valid()
    {
      NextIsBounded(table, View(), Touch(data));
      hide DataSends, Bounded;
      CancelAllTimers();
      if !ValidHeader(data) {
        presses := 0;
        held := 0;
        return;
      }
      var d := data[4];
      if d == DATA_PRESS {
        MapTouchToLogicalInput(d);
        cancel := Some(PRESS_CANCEL_MS);
      } else if d == DATA_SLIDER_UP || d == DATA_SLIDER_DOWN {
        if presses > 0 {
          MapTapAndSwipe(presses, d);
        } else {
          MapTouchToLogicalInput(d);
        }
        presses := 0;
        held := 0;
      } else if d == DATA_RELEASE {
        MapTouchToLogicalInput(d);
        if last == DATA_PRESS {
          released := true;
        }
      }
      last := d;
    }

    // -------------------------------------------------------------- touchPsoc4000s_MessageHandler

    method HandleHeldRelease()
      requires Valid() && released
      modifies this
      ensures View() == HandleRelease(table, old(View())) && Valid()
    {
      NextIsBounded(table, View(), Posted);
      hide ReleaseSends, Bounded;
      released := false;
      click := Some(CLICK_MS);
      if held > 0 {
        MapTouchTimer(HeldRelease, (presses + 1) % 256, held);
        presses := 0;
      } else {
        presses := (presses + 1) % 256;
      }
      held := 0;
    }

    method HandleHeldTimer()
      modifies this
      ensures View() == HoldExpired(table, old(View()))
    {
      hide HoldSends;
      held := (held + 1) % 256;
      MapTouchTimer(HeldTimer, (presses + 1) % 256, held);
      if held <= MAX_HELD_SECONDS {
        hold := Some(SECOND_MS);
      } else {
        held := 0;
        ResetSensor(false);
      }
    }

    method HandleCancelTimer()
      modifies this
      ensures View() == CancelExpired(old(View()))
    {
      held := 0;
      hold := Some(SECOND_MS - PRESS_CANCEL_MS);
    }

    method HandleClickTimer()
      modifies this
      ensures View() == ClickExpired(table, old(View()))
    {
      hide ClickSends;
      if presses != 0 {
        MapTouchTimer(ClickTimer, presses, 0);
        presses := 0;
      }
    }

    /** The message system delivers the timers that run out within the next millisecond. */
    method PassMillisecond()
      requires Valid()
      modifies this
      ensures View() == Tick(table, old(View())) && Valid()
    {
      NextIsBounded(table, View(), Milli);
      hide HoldExpired, ClickExpired, CancelExpired, Bounded;
      var cancelled, heldOn, clicked := Expires(cancel), Expires(hold), Expires(click);
      cancel, hold, click, reset := Countdown(cancel), Countdown(hold), Countdown(click), Countdown(reset);
      if cancelled {
        HandleCancelTimer();
      }
      if heldOn {
        HandleHeldTimer();
      }
      if clicked {
        HandleClickTimer();
      }
    }
  }
}
