/** The gesture recogniser of earbud/src/peripherals/touchpad_psoc4000s.c for the second touch sensor, as a function of
    its state; time passes in ticks of one millisecond. */
module TouchSpec {
  import opened Results

  const PRESS_CANCEL_MS := 300
  const SECOND_MS := 1000
  const CLICK_MS := 400
  const RESET_MS := 50
  const MAX_HELD_SECONDS := 65

  /** Numbers of touch_action_t. */
  const MAX_PRESS_SUPPORT := 10
  const SLIDE_UP := 19
  const SLIDE_DOWN := 20
  const HAND_COVER := 23
  const HAND_COVER_RELEASE := 24
  const TAP_SLIDE_UP := 25
  const TAP_SLIDE_DOWN := 26
  const PRESS_HOLD_OFFSET := 0x20
  const PRESS_RELEASE_OFFSET := 0x80
  const DOUBLE_HOLD_OFFSET := 0x100
  const DOUBLE_RELEASE_OFFSET := 0x150
  const MAX_ACTION := 0x18D

  const DATA_SLIDER_UP := 0x04
  const DATA_SLIDER_DOWN := 0x05
  const DATA_PRESS := 0x20
  const DATA_RELEASE := 0x21
  const DATA_UNDEFINED := 0xFF

  type Byte = x: int | 0 <= x < 256

  /** One line of the table that maps actions to UI messages. */
  datatype Mapping = Mapping(action: nat, message: nat)

  /** What clients are sent: the action itself, or the UI message it maps to. */
  datatype Sent = Action(action: nat) | Ui(message: nat)

  // ---------------------------------------------------------------- actions

  function Lookup(table: seq<Mapping>, action: nat): (r: Option<nat>)
    ensures r.Some? ==> exists i | 0 <= i < |table| :: table[i] == Mapping(action, r.value)
    ensures r.None? <==> forall i | 0 <= i < |table| :: table[i].action != action
  {
    if table == [] then None
    else if table[0].action == action then Some(table[0].message)
    else Lookup(table[1..], action)
  }

  /** touchPsoc4000s_MapAndSendEvents. */
  function Emit(table: seq<Mapping>, action: nat, regardless: bool): seq<Sent> {
    match Lookup(table, action)
    case Some(message) => [Action(action), Ui(message)]
    case None => if regardless then [Action(action)] else []
  }

  /** Lower actions are tried for a release, down to and including the first release number. */
  function Fallback(table: seq<Mapping>, action: nat): seq<Sent> {
    if action <= PRESS_RELEASE_OFFSET then []
    else if Lookup(table, action - 1).Some? then Emit(table, action - 1, false)
    else Fallback(table, action - 1)
  }

  function EmitRelease(table: seq<Mapping>, action: nat): seq<Sent> {
    Emit(table, action, true) + if Lookup(table, action).Some? then [] else Fallback(table, action)
  }

  /** The action for a hold, and for its release, after `press - 1` quick presses. */
  function HoldAction(press: nat, seconds: nat): nat {
    if press == 1 then seconds + PRESS_HOLD_OFFSET
    else if press == 2 then seconds + DOUBLE_HOLD_OFFSET
    else MAX_ACTION
  }

  function ReleaseAction(press: nat, seconds: nat): nat {
    if press == 1 then seconds + PRESS_RELEASE_OFFSET
    else if press == 2 then seconds + DOUBLE_RELEASE_OFFSET
    else MAX_ACTION
  }

  function HoldSends(table: seq<Mapping>, press: nat, seconds: nat): seq<Sent> {
    var action := HoldAction(press, seconds);
    if action == MAX_ACTION then [] else Emit(table, action, true)
  }

  function ReleaseSends(table: seq<Mapping>, press: nat, seconds: nat): seq<Sent> {
    var action := ReleaseAction(press, seconds);
    if action == MAX_ACTION then [] else EmitRelease(table, action)
  }

  function ClickSends(table: seq<Mapping>, press: nat): seq<Sent> {
    if press >= MAX_PRESS_SUPPORT then [] else Emit(table, press, true)
  }

  /** touch_action_map. */
  function DataAction(data: Byte): Option<nat> {
    if data == DATA_SLIDER_UP then Some(SLIDE_UP)
    else if data == DATA_SLIDER_DOWN then Some(SLIDE_DOWN)
    else if data == DATA_PRESS then Some(HAND_COVER)
    else if data == DATA_RELEASE then Some(HAND_COVER_RELEASE)
    else None
  }

  function DataSends(table: seq<Mapping>, data: Byte): seq<Sent> {
    match DataAction(data)
    case Some(action) => Emit(table, action, true)
    case None => []
  }

  /** A slide after one quick press is an action of its own; after more it is dropped. */
  function SlideSends(table: seq<Mapping>, presses: nat, data: Byte): seq<Sent> {
    if presses == 0 then DataSends(table, data)
    else if presses > 1 then []
    else Emit(table, if data == DATA_SLIDER_UP then TAP_SLIDE_UP else TAP_SLIDE_DOWN, true)
  }

  // ---------------------------------------------------------------- the recogniser

  /** The counters, the last touch, the milliseconds until each timer fires, and whether the release message that a
      release posts is still to be handled. */
  datatype Pad = Pad(presses: nat, held: nat, last: Byte, cancel: Option<nat>, hold: Option<nat>, click: Option<nat>,
                     reset: Option<nat>, released: bool, sent: seq<Sent>)

  const FRESH := Pad(0, 0, DATA_UNDEFINED, None, None, None, None, false, [])

  function CancelTimers(p: Pad): Pad {
    p.(cancel := None, hold := None, click := None)
  }

  function Send(p: Pad, sent: seq<Sent>): Pad {
    p.(sent := p.sent + sent)
  }

  /** touchPsoc4000s_Reset. */
  function Reset(p: Pad, hold: bool): Pad {
    CancelTimers(p).(presses := 0, held := 0, reset := if hold then p.reset else Some(RESET_MS))
  }

  predicate ValidHeader(data: seq<Byte>)
    requires |data| == 5
  {
    data[0] == 0xFF && data[1] == 0x03 && data[2] == 0x01 && data[3] == 0x00
  }

  /** touchPsoc4000s_HandleTouchData. */
  function Touched(table: seq<Mapping>, p: Pad, data: seq<Byte>): Pad
    requires |data| == 5
  {
    var q := CancelTimers(p);
    if !ValidHeader(data) then q.(presses := 0, held := 0)
    else
      var d := data[4];
      var r := if d == DATA_PRESS then Send(q, DataSends(table, d)).(cancel := Some(PRESS_CANCEL_MS))
               else if d == DATA_SLIDER_UP || d == DATA_SLIDER_DOWN then
                 Send(q, SlideSends(table, q.presses, d)).(presses := 0, held := 0)
               else if d == DATA_RELEASE then
                 Send(q, DataSends(table, d)).(released := q.released || q.last == DATA_PRESS)
               else q;
      r.(last := d)
  }

  /** TOUCH_INTERNAL_HELD_RELEASE; the counters are eight bits wide. */
  function HandleRelease(table: seq<Mapping>, p: Pad): Pad {
    var q := p.(released := false, click := Some(CLICK_MS));
    if q.held > 0 then Send(q, ReleaseSends(table, (q.presses + 1) % 256, q.held)).(presses := 0, held := 0)
    else q.(presses := (q.presses + 1) % 256, held := 0)
  }

  /** TOUCH_INTERNAL_HELD_CANCEL_TIMER. */
  function CancelExpired(p: Pad): Pad {
    p.(held := 0, hold := Some(SECOND_MS - PRESS_CANCEL_MS))
  }

  /** TOUCH_INTERNAL_HELD_TIMER. */
  function HoldExpired(table: seq<Mapping>, p: Pad): Pad {
    var seconds := (p.held + 1) % 256;
    var q := Send(p.(held := seconds), HoldSends(table, (p.presses + 1) % 256, seconds));
    if seconds <= MAX_HELD_SECONDS then q.(hold := Some(SECOND_MS)) else Reset(q.(held := 0), false)
  }

  /** TOUCH_INTERNAL_CLICK_TIMER. */
  function ClickExpired(table: seq<Mapping>, p: Pad): Pad {
    if p.presses == 0 then p else Send(p, ClickSends(table, p.presses)).(presses := 0)
  }

  function Countdown(timer: Option<nat>): Option<nat> {
    match timer
    case Some(ms) => if ms <= 1 then None else Some(ms - 1)
    case None => None
  }

  predicate Expires(timer: Option<nat>) {
    timer.Some? && timer.value <= 1
  }

  /** One millisecond passes. */
  function Tick(table: seq<Mapping>, p: Pad): Pad {
    var q := p.(cancel := Countdown(p.cancel), hold := Countdown(p.hold), click := Countdown(p.click),
                reset := Countdown(p.reset));
    var q1 := if Expires(p.cancel) then CancelExpired(q) else q;
    var q2 := if Expires(p.hold) then HoldExpired(table, q1) else q1;
    if Expires(p.click) then ClickExpired(table, q2) else q2
  }

  function Wait(table: seq<Mapping>, p: Pad, ms: nat): Pad {
    if ms == 0 then p else Tick(table, Wait(table, p, ms - 1))
  }
}
