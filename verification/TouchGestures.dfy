/** What gestures produce: taps one click, holds one action a second and one release. */
module TouchGestures {
  import opened Results
  import opened Sequences
  import opened TouchSpec

  const PRESS: seq<Byte> := [0xFF, 0x03, 0x01, 0x00, DATA_PRESS]
  const RELEASE: seq<Byte> := [0xFF, 0x03, 0x01, 0x00, DATA_RELEASE]

  // ---------------------------------------------------------------- every run

  datatype Event = Touch(data: seq<Byte>) | Posted | Milli | ResetCall(hold: bool)

  /** A release message is handled before the next touch interrupt. */
  predicate Possible(p: Pad, e: Event) {
    match e
    case Touch(data) => |data| == 5 && !p.released
    case Posted => p.released
    case _ => true
  }

  function Next(table: seq<Mapping>, p: Pad, e: Event): Pad
    requires Possible(p, e)
  {
    match e
    case Touch(data) => Touched(table, p, data)
    case Posted => HandleRelease(table, p)
    case Milli => Tick(table, p)
    case ResetCall(hold) => Reset(p, hold)
  }

  function Run(table: seq<Mapping>, events: seq<Event>): Pad {
    if events == [] then FRESH
    else
      var p, e := Run(table, events[..|events| - 1]), events[|events| - 1];
      if Possible(p, e) then Next(table, p, e) else p
  }

  function Pending(timer: Option<nat>): nat {
    if timer.Some? then 1 else 0
  }

  /** The held counter stays within the supported time, both counters fit in eight bits, and at most one of the
      recognising timers runs, none while a release message is waiting. */
  predicate Bounded(p: Pad) {
    && p.held <= MAX_HELD_SECONDS && p.presses < 256
    && Pending(p.cancel) + Pending(p.hold) + Pending(p.click) <= (if p.released then 0 else 1)
  }

  lemma NextIsBounded(table: seq<Mapping>, p: Pad, e: Event)
    requires Bounded(p) && Possible(p, e)
    ensures Bounded(Next(table, p, e))
  {
    hide HoldSends, ReleaseSends, ClickSends, DataSends, SlideSends;
  }

  lemma {:induction false} RunsAreBounded(table: seq<Mapping>, events: seq<Event>)
    ensures Bounded(Run(table, events))
    decreases |events|
  {
    if events != [] {
      RunsAreBounded(table, events[..|events| - 1]);
      var p, e := Run(table, events[..|events| - 1]), events[|events| - 1];
      if Possible(p, e) {
        NextIsBounded(table, p, e);
      }
    }
  }

  // ---------------------------------------------------------------- waiting

  function Less(timer: Option<nat>, ms: nat): Option<nat> {
    if timer.Some? && timer.value > ms then Some(timer.value - ms) else None
  }

  function Later(p: Pad, ms: nat): Pad {
    p.(cancel := Less(p.cancel, ms), hold := Less(p.hold, ms), click := Less(p.click, ms), reset := Less(p.reset, ms))
  }

  predicate Lasts(timer: Option<nat>, ms: nat) {
    timer.None? || timer.value > ms
  }

  /** Nothing happens until a timer fires; the reset timer does nothing to the recogniser. */
  lemma {:induction false} WaitQuietly(table: seq<Mapping>, p: Pad, ms: nat)
    requires Lasts(p.cancel, ms) && Lasts(p.hold, ms) && Lasts(p.click, ms) && Lasts(p.reset, 0)
    ensures Wait(table, p, ms) == Later(p, ms)
  {
    hide Tick;
    if ms > 0 {
      WaitQuietly(table, p, ms - 1);
      QuietTick(table, p, ms - 1);
    }
  }

  lemma QuietTick(table: seq<Mapping>, p: Pad, ms: nat)
    requires Lasts(p.cancel, ms + 1) && Lasts(p.hold, ms + 1) && Lasts(p.click, ms + 1) && Lasts(p.reset, 0)
    ensures Tick(table, Later(p, ms)) == Later(p, ms + 1)
  {
    hide HoldExpired, ClickExpired, CancelExpired;
  }

  lemma {:induction false} WaitInTwo(table: seq<Mapping>, p: Pad, m: nat, n: nat)
    ensures Wait(table, p, m + n) == Wait(table, Wait(table, p, m), n)
    decreases n
  {
    if n > 0 {
      WaitInTwo(table, p, m, n - 1);
    }
  }

  /** Only the given timers run. */
  predicate Timers(p: Pad, cancel: Option<nat>, hold: Option<nat>, click: Option<nat>) {
    p.cancel == cancel && p.hold == hold && p.click == click && p.reset == None
  }

  /** The last millisecond before a timer, and the timer. */
  lemma WaitToFire(table: seq<Mapping>, p: Pad, ms: nat)
    requires ms > 0
    requires (p.cancel == Some(ms) || p.hold == Some(ms) || p.click == Some(ms))
    requires Lasts(p.cancel, ms - 1) && Lasts(p.hold, ms - 1) && Lasts(p.click, ms - 1) && Lasts(p.reset, 0)
    ensures Wait(table, p, ms) == Tick(table, Later(p, ms - 1))
  {
    WaitQuietly(table, p, ms - 1);
  }

  // ---------------------------------------------------------------- one press

  /** Ready for the next press after `presses` quick ones; a click timer may be running. */
  predicate Ready(p: Pad, presses: nat) {
    p.presses == presses && p.held == 0 && p.cancel.None? && p.hold.None? && p.reset.None? && !p.released
    && (p.click.Some? ==> p.click.value > 0)
  }

  function Down(table: seq<Mapping>, p: Pad): Pad {
    Touched(table, p, PRESS)
  }

  function Up(table: seq<Mapping>, p: Pad): Pad {
    HandleRelease(table, Touched(table, p, RELEASE))
  }

  /** Pressing for a while, and releasing. */
  function PressFor(table: seq<Mapping>, p: Pad, ms: nat): Pad {
    Up(table, Wait(table, Down(table, p), ms))
  }

  lemma DownIs(table: seq<Mapping>, p: Pad, presses: nat)
    requires Ready(p, presses)
    ensures var q := Down(table, p);
            && Timers(q, Some(PRESS_CANCEL_MS), None, None) && q.presses == presses && q.held == 0
            && q.last == DATA_PRESS && !q.released && q.sent == p.sent + DataSends(table, DATA_PRESS)
  {
    hide DataSends;
  }

  lemma UpIs(table: seq<Mapping>, p: Pad)
    requires p.last == DATA_PRESS && !p.released
    ensures var q := Up(table, p);
            && q.cancel.None? && q.hold.None? && q.click == Some(CLICK_MS) && q.reset == p.reset && !q.released && q.held == 0
            && q.presses == (if p.held > 0 then 0 else (p.presses + 1) % 256)
            && q.sent == p.sent + DataSends(table, DATA_RELEASE)
                         + (if p.held > 0 then ReleaseSends(table, (p.presses + 1) % 256, p.held) else [])
  {
    hide DataSends, ReleaseSends;
    var sent := p.sent + DataSends(table, DATA_RELEASE);
    assert sent + [] == sent;
  }

  /** After the cancel time the hold timer takes over. */
  lemma PastCancel(table: seq<Mapping>, p: Pad)
    requires Timers(p, Some(PRESS_CANCEL_MS), None, None) && p.held == 0
    ensures Wait(table, p, PRESS_CANCEL_MS) == p.(cancel := None, hold := Some(SECOND_MS - PRESS_CANCEL_MS))
  {
    WaitToFire(table, p, PRESS_CANCEL_MS);
    hide Wait;
  }

  /** Less than a second: nothing is sent, and no second is counted. */
  lemma ShortWait(table: seq<Mapping>, p: Pad, ms: nat)
    requires Timers(p, Some(PRESS_CANCEL_MS), None, None) && p.held == 0 && ms < SECOND_MS
    ensures var q := Wait(table, p, ms);
            && q.held == 0 && q.presses == p.presses && q.last == p.last && q.released == p.released && q.sent == p.sent
            && q.reset.None?
  {
    hide Wait, Tick;
    if ms < PRESS_CANCEL_MS {
      WaitQuietly(table, p, ms);
    } else {
      PastCancel(table, p);
      WaitInTwo(table, p, PRESS_CANCEL_MS, ms - PRESS_CANCEL_MS);
      WaitQuietly(table, p.(cancel := None, hold := Some(SECOND_MS - PRESS_CANCEL_MS)), ms - PRESS_CANCEL_MS);
    }
  }

  function TapSends(table: seq<Mapping>): seq<Sent> {
    DataSends(table, DATA_PRESS) + DataSends(table, DATA_RELEASE)
  }

  /** A press of less than a second counts as one more quick press. */
  lemma QuickPress(table: seq<Mapping>, p: Pad, presses: nat, ms: nat)
    requires Ready(p, presses) && ms < SECOND_MS
    ensures var q := PressFor(table, p, ms);
            Ready(q, (presses + 1) % 256) && q.click == Some(CLICK_MS) && q.sent == p.sent + TapSends(table)
  {
    hide Wait, DataSends;
    DownIs(table, p, presses);
    var down := Down(table, p);
    ShortWait(table, down, ms);
    var before := Wait(table, down, ms);
    UpIs(table, before);
    var x, y := DataSends(table, DATA_PRESS), DataSends(table, DATA_RELEASE);
    assert p.sent + x + y + [] == p.sent + (x + y);
  }

  // ---------------------------------------------------------------- taps

  datatype Tap = Tap(down: nat, gap: nat)

  /** Short presses, each followed by a gap inside the click window. */
  predicate Quick(taps: seq<Tap>) {
    forall i | 0 <= i < |taps| :: taps[i].down < SECOND_MS && taps[i].gap < CLICK_MS
  }

  function TapAll(table: seq<Mapping>, p: Pad, taps: seq<Tap>): Pad {
    if taps == [] then p
    else
      var t := taps[|taps| - 1];
      Wait(table, PressFor(table, TapAll(table, p, taps[..|taps| - 1]), t.down), t.gap)
  }

  function Repeat<T>(s: seq<T>, n: nat): seq<T> {
    if n == 0 then [] else Repeat(s, n - 1) + s
  }

  lemma {:induction false} TapsCount(table: seq<Mapping>, p: Pad, taps: seq<Tap>)
    requires Ready(p, 0) && p.click.None? && Quick(taps)
    ensures var q := TapAll(table, p, taps);
            && Ready(q, |taps| % 256) && q.sent == p.sent + Repeat(TapSends(table), |taps|)
            && (taps == [] || q.click == Some(CLICK_MS - taps[|taps| - 1].gap)) && (taps == [] ==> q.click.None?)
    decreases |taps|
  {
    if taps == [] {
      assert p.sent + [] == p.sent;
    } else {
      var n := |taps| - 1;
      var t := taps[n];
      TapsCount(table, p, taps[..n]);
      hide Wait, PressFor, TapSends, Ready;
      var before := TapAll(table, p, taps[..n]);
      OneTap(table, before, n % 256, t);
      OneMoreTap(n);
      Regroup(p.sent, Repeat(TapSends(table), n), TapSends(table));
    }
  }

  lemma OneTap(table: seq<Mapping>, p: Pad, presses: nat, t: Tap)
    requires Ready(p, presses) && t.down < SECOND_MS && t.gap < CLICK_MS
    ensures var q := Wait(table, PressFor(table, p, t.down), t.gap);
            Ready(q, (presses + 1) % 256) && q.click == Some(CLICK_MS - t.gap) && q.sent == p.sent + TapSends(table)
  {
    hide Wait, PressFor, TapSends;
    QuickPress(table, p, presses, t.down);
    WaitQuietly(table, PressFor(table, p, t.down), t.gap);
  }

  lemma OneMoreTap(n: nat)
    ensures (n % 256 + 1) % 256 == (n + 1) % 256
  {
  }

  /** The click window runs out. */
  lemma Silence(table: seq<Mapping>, p: Pad, presses: nat, ms: nat)
    requires Ready(p, presses) && p.click.Some? && p.click.value <= ms
    ensures var q := Wait(table, p, ms);
            Ready(q, 0) && q.click.None? && q.sent == p.sent + (if presses == 0 then [] else ClickSends(table, presses))
  {
    var fire := p.click.value;
    WaitToFire(table, p, fire);
    WaitInTwo(table, p, fire, ms - fire);
    var q := Wait(table, p, fire);
    hide Wait, ClickSends;
    assert Later(p, fire - 1) == p.(click := Some(1));
    assert p.sent + [] == p.sent;
    assert Ready(q, 0) && q.click.None?;
    WaitQuietly(table, q, ms - fire);
  }

  /** k quick taps and then silence send exactly one click action, for k modulo 256, when that is between 1 and 9, and
      none otherwise; afterwards the recogniser is as before. */
  lemma TapsClickOnce(table: seq<Mapping>, p: Pad, taps: seq<Tap>, silence: nat)
    requires Ready(p, 0) && p.click.None? && Quick(taps) && silence >= CLICK_MS
    ensures var q := Wait(table, TapAll(table, p, taps), silence);
            && Ready(q, 0) && q.click.None?
            && q.sent == p.sent + Repeat(TapSends(table), |taps|)
                         + (if 1 <= |taps| % 256 < MAX_PRESS_SUPPORT then Emit(table, |taps| % 256, true) else [])
  {
    TapsCount(table, p, taps);
    var q := TapAll(table, p, taps);
    if taps == [] {
      WaitQuietly(table, q, silence);
      assert q.sent + [] == q.sent;
    } else {
      Silence(table, q, |taps| % 256, silence);
    }
  }

  // ---------------------------------------------------------------- holds

  /** The held actions of the first `seconds` seconds, in order. */
  function Holds(table: seq<Mapping>, press: nat, seconds: nat): seq<Sent> {
    if seconds == 0 then [] else Holds(table, press, seconds - 1) + HoldSends(table, press, seconds)
  }

  /** Held down for whole seconds, with the next one a second away. */
  predicate HeldFor(table: seq<Mapping>, down: Pad, q: Pad, seconds: nat) {
    && Timers(q, None, Some(SECOND_MS), None) && q.held == seconds && q.presses == down.presses
    && q.last == down.last && q.released == down.released
    && q.sent == down.sent + Holds(table, (down.presses + 1) % 256, seconds)
  }

  /** A running hold timer fires when its time is up. */
  lemma HoldFires(table: seq<Mapping>, p: Pad, ms: nat)
    requires Timers(p, None, Some(ms), None) && ms > 0
    ensures Wait(table, p, ms) == HoldExpired(table, p.(hold := None))
  {
    WaitToFire(table, p, ms);
    hide Wait, HoldExpired;
    assert Later(p, ms - 1) == p.(hold := Some(1));
  }

  lemma FirstSecond(table: seq<Mapping>, down: Pad)
    requires Timers(down, Some(PRESS_CANCEL_MS), None, None) && down.held == 0
    ensures HeldFor(table, down, Wait(table, down, SECOND_MS), 1)
  {
    hide HoldSends, Wait, Tick;
    var waiting := down.(cancel := None, hold := Some(SECOND_MS - PRESS_CANCEL_MS));
    PastCancel(table, down);
    WaitInTwo(table, down, PRESS_CANCEL_MS, SECOND_MS - PRESS_CANCEL_MS);
    HoldFires(table, waiting, SECOND_MS - PRESS_CANCEL_MS);
    assert Holds(table, (down.presses + 1) % 256, 0) + HoldSends(table, (down.presses + 1) % 256, 1)
           == HoldSends(table, (down.presses + 1) % 256, 1);
  }

  lemma NextSecond(table: seq<Mapping>, down: Pad, q: Pad, seconds: nat)
    requires HeldFor(table, down, q, seconds) && 1 <= seconds < MAX_HELD_SECONDS
    ensures HeldFor(table, down, Wait(table, q, SECOND_MS), seconds + 1)
  {
    hide HoldSends, Wait, Tick;
    HoldFires(table, q, SECOND_MS);
    var press := (down.presses + 1) % 256;
    Regroup(down.sent, Holds(table, press, seconds), HoldSends(table, press, seconds + 1));
  }

  lemma {:induction false} WholeSeconds(table: seq<Mapping>, down: Pad, seconds: nat)
    requires Timers(down, Some(PRESS_CANCEL_MS), None, None) && down.held == 0 && 1 <= seconds <= MAX_HELD_SECONDS
    ensures HeldFor(table, down, Wait(table, down, SECOND_MS * seconds), seconds)
    decreases seconds
  {
    hide Wait, HeldFor;
    if seconds == 1 {
      FirstSecond(table, down);
    } else {
      WholeSeconds(table, down, seconds - 1);
      NextSecond(table, down, Wait(table, down, SECOND_MS * (seconds - 1)), seconds - 1);
      WaitInTwo(table, down, SECOND_MS * (seconds - 1), SECOND_MS);
      assert SECOND_MS * (seconds - 1) + SECOND_MS == SECOND_MS * seconds;
    }
  }

  /** A hold of h full seconds, up to 65, sends the held actions 1 to h once each and in order, then on release one
      release for h; and after the click window the recogniser is as before. It may follow quick presses. */
  lemma HoldSendsEachSecond(table: seq<Mapping>, p: Pad, presses: nat, seconds: nat, rest: nat, silence: nat)
    requires Ready(p, presses) && 1 <= seconds <= MAX_HELD_SECONDS && rest < SECOND_MS && silence >= CLICK_MS
    ensures var q := Wait(table, PressFor(table, p, SECOND_MS * seconds + rest), silence);
            var press := (presses + 1) % 256;
            && Ready(q, 0) && q.click.None?
            && q.sent == p.sent + (DataSends(table, DATA_PRESS) + Holds(table, press, seconds)
                                   + DataSends(table, DATA_RELEASE) + ReleaseSends(table, press, seconds))
  {
    hide Wait, DataSends, Holds, ReleaseSends;
    DownIs(table, p, presses);
    var down := Down(table, p);
    WholeSeconds(table, down, seconds);
    WaitInTwo(table, down, SECOND_MS * seconds, rest);
    var held := Wait(table, down, SECOND_MS * seconds);
    WaitQuietly(table, held, rest);
    UpIs(table, Later(held, rest));
    Silence(table, PressFor(table, p, SECOND_MS * seconds + rest), 0, silence);
    var press := (presses + 1) % 256;
    FourParts(p.sent, DataSends(table, DATA_PRESS), Holds(table, press, seconds), DataSends(table, DATA_RELEASE),
              ReleaseSends(table, press, seconds));
  }

  lemma FourParts<T>(x: seq<T>, a: seq<T>, b: seq<T>, c: seq<T>, d: seq<T>)
    ensures x + a + b + c + d + [] == x + (a + b + c + d)
  {
  }

  // ---------------------------------------------------------------- what a release maps to

  predicate Mapped(table: seq<Mapping>, action: nat) {
    Lookup(table, action).Some?
  }

  /** The greatest mapped action from the first release number up to `action`, if any. */
  predicate IsGreatest(table: seq<Mapping>, action: nat, best: Option<nat>) {
    match best
    case Some(a) => PRESS_RELEASE_OFFSET <= a <= action && Mapped(table, a) && forall x | a < x <= action :: !Mapped(table, x)
    case None => forall x | PRESS_RELEASE_OFFSET <= x <= action :: !Mapped(table, x)
  }

  lemma {:induction false} FallbackFindsGreatest(table: seq<Mapping>, action: nat) returns (best: Option<nat>)
    requires action >= PRESS_RELEASE_OFFSET
    ensures if action == PRESS_RELEASE_OFFSET then best.None? else IsGreatest(table, action - 1, best)
    ensures Fallback(table, action) == if best.Some? then Emit(table, best.value, false) else []
    decreases action
  {
    hide Lookup;
    if action == PRESS_RELEASE_OFFSET {
      best := None;
    } else if Mapped(table, action - 1) {
      best := Some(action - 1);
    } else {
      best := FallbackFindsGreatest(table, action - 1);
    }
  }

  /** A release sends its own action, and at most one UI message: that of the greatest mapped action not above it. */
  lemma ReleaseFindsGreatest(table: seq<Mapping>, action: nat) returns (best: Option<nat>)
    requires action > PRESS_RELEASE_OFFSET
    ensures IsGreatest(table, action, best)
    ensures EmitRelease(table, action)
            == if best == Some(action) then Emit(table, action, true)
               else [Action(action)] + (if best.Some? then [Action(best.value), Ui(Lookup(table, best.value).value)] else [])
  {
    hide Lookup;
    if Mapped(table, action) {
      best := Some(action);
    } else {
      best := FallbackFindsGreatest(table, action);
    }
  }

  /** A double press held for 61 seconds would be released with the number that marks no action, so it is not. */
  lemma DoubleHoldOf61IsSilent(table: seq<Mapping>, seconds: nat)
    requires 1 <= seconds <= MAX_HELD_SECONDS
    ensures ReleaseSends(table, 2, seconds) == [] <==> seconds == 61
    ensures ReleaseSends(table, 1, seconds) != []
  {
    hide Lookup, Fallback;
  }

  // ---------------------------------------------------------------- holding on for too long

  /** A 66th second resets the recogniser. */
  lemma TooLongResets(table: seq<Mapping>, p: Pad, presses: nat)
    requires Ready(p, presses)
    ensures var q := Wait(table, Down(table, p), SECOND_MS * (MAX_HELD_SECONDS + 1));
            && q.cancel.None? && q.hold.None? && q.click.None? && q.reset == Some(RESET_MS) && q.presses == 0 && q.held == 0
            && q.last == DATA_PRESS && !q.released
            && q.sent == p.sent + DataSends(table, DATA_PRESS) + Holds(table, (presses + 1) % 256, MAX_HELD_SECONDS + 1)
  {
    hide DataSends, HoldSends, Wait, Tick, Down;
    DownIs(table, p, presses);
    var down := Down(table, p);
    WholeSeconds(table, down, MAX_HELD_SECONDS);
    var held := Wait(table, down, SECOND_MS * MAX_HELD_SECONDS);
    WaitInTwo(table, down, SECOND_MS * MAX_HELD_SECONDS, SECOND_MS);
    LastSecond(table, down, held);
  }

  lemma LastSecond(table: seq<Mapping>, down: Pad, held: Pad)
    requires HeldFor(table, down, held, MAX_HELD_SECONDS)
    ensures var q := Wait(table, held, SECOND_MS);
            && q.cancel.None? && q.hold.None? && q.click.None? && q.reset == Some(RESET_MS) && q.presses == 0 && q.held == 0
            && q.last == down.last && q.released == down.released
            && q.sent == down.sent + Holds(table, (down.presses + 1) % 256, MAX_HELD_SECONDS + 1)
  {
    hide HoldSends, Wait, Tick;
    HoldFires(table, held, SECOND_MS);
    var press := (down.presses + 1) % 256;
    Regroup(down.sent, Holds(table, press, MAX_HELD_SECONDS), HoldSends(table, press, MAX_HELD_SECONDS + 1));
  }

  /** Releasing after that sends no release, but counts as a quick press: a single click follows. */
  lemma TooLongClicks(table: seq<Mapping>, p: Pad, presses: nat, rest: nat, silence: nat)
    requires Ready(p, presses) && silence >= CLICK_MS && rest >= RESET_MS
    ensures var q := Wait(table, PressFor(table, p, SECOND_MS * (MAX_HELD_SECONDS + 1) + rest), silence);
            && Ready(q, 0)
            && q.sent == p.sent + DataSends(table, DATA_PRESS) + Holds(table, (presses + 1) % 256, MAX_HELD_SECONDS + 1)
                         + DataSends(table, DATA_RELEASE) + Emit(table, 1, true)
  {
    hide Wait, DataSends, Holds;
    TooLongResets(table, p, presses);
    var down := Down(table, p);
    var reset := Wait(table, down, SECOND_MS * (MAX_HELD_SECONDS + 1));
    WaitInTwo(table, down, SECOND_MS * (MAX_HELD_SECONDS + 1), rest);
    WaitQuietly(table, reset, rest);
    UpIs(table, Later(reset, rest));
    var up := PressFor(table, p, SECOND_MS * (MAX_HELD_SECONDS + 1) + rest);
    Silence(table, up, 1, silence);
    var sent := reset.sent + DataSends(table, DATA_RELEASE);
    assert sent + [] == sent;
  }
}
