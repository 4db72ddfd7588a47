/** What the gestures of earbud/src/peripherals/touchpad_psoc4000s.c send, by the numbers of
    adk/src/domains/sensor/touch/touch_config.h and of the touch data. */
module TouchNumbers {
  import opened Results
  import opened TouchSpec
  import opened TouchGestures

  // ---------------------------------------------------------------- one action

  /** The first line of the table for an action. */
  ghost predicate FirstLine(table: seq<Mapping>, action: nat, k: nat) {
    k < |table| && table[k].action == action && forall j | 0 <= j < k :: table[j].action != action
  }

  predicate Listed(table: seq<Mapping>, action: nat) {
    exists k | 0 <= k < |table| :: table[k].action == action
  }

  /** The action itself, and after it the UI message of its first line if it has one. */
  ghost predicate Announces(table: seq<Mapping>, action: nat, sent: seq<Sent>) {
    if Listed(table, action)
    then exists k: nat :: FirstLine(table, action, k) && sent == [Action(action), Ui(table[k].message)]
    else sent == [Action(action)]
  }

  lemma {:induction false} LookupIsFirst(table: seq<Mapping>, action: nat) returns (k: nat)
    requires Listed(table, action)
    ensures FirstLine(table, action, k) && Lookup(table, action) == Some(table[k].message)
  {
    if table[0].action == action {
      k := 0;
    } else {
      var i :| 0 <= i < |table| && table[i].action == action;
      assert table[1..][i - 1].action == action;
      var rest := LookupIsFirst(table[1..], action);
      k := rest + 1;
      forall j | 0 <= j < k ensures table[j].action != action {
        if j > 0 {
          assert table[1..][j - 1].action != action;
        }
      }
    }
  }

  lemma EmitAnnounces(table: seq<Mapping>, action: nat)
    ensures Announces(table, action, Emit(table, action, true))
    ensures Emit(table, action, false) == if Listed(table, action) then Emit(table, action, true) else []
  {
    if Listed(table, action) {
      var k := LookupIsFirst(table, action);
    }
  }

  // ---------------------------------------------------------------- taps and holds

  /** Touching is the touch datum 0x20 and announces action 23, letting go is 0x21 and announces 24. */
  lemma TapNumbers(table: seq<Mapping>) returns (x: seq<Sent>, y: seq<Sent>)
    ensures TapSends(table) == x + y && Announces(table, 23, x) && Announces(table, 24, y)
    ensures PRESS == [0xFF, 0x03, 0x01, 0x00, 0x20] && RELEASE == [0xFF, 0x03, 0x01, 0x00, 0x21]
  {
    x, y := DataSends(table, DATA_PRESS), DataSends(table, DATA_RELEASE);
    EmitAnnounces(table, 23);
    EmitAnnounces(table, 24);
  }

  /** k quick taps and then silence: each tap announces 23 and 24, and the click for k modulo 256 announces that number,
      from 1 to 9. */
  lemma ClickNumbers(table: seq<Mapping>, p: Pad, taps: seq<Tap>, silence: nat) returns (click: seq<Sent>)
    requires Ready(p, 0) && p.click.None? && Quick(taps) && silence >= 400
    ensures Wait(table, TapAll(table, p, taps), silence).sent == p.sent + Repeat(TapSends(table), |taps|) + click
    ensures if 1 <= |taps| % 256 <= 9 then Announces(table, |taps| % 256, click) else click == []
  {
    hide Wait, TapAll, TapSends, Emit, Announces;
    TapsClickOnce(table, p, taps, silence);
    EmitAnnounces(table, |taps| % 256);
    click := if 1 <= |taps| % 256 <= 9 then Emit(table, |taps| % 256, true) else [];
  }

  /** What is announced while the pad is held: after `press - 1` quick presses the number of second `s` is 0x20 + s for a
      single press and 0x100 + s for a double one; there is nothing for more presses. */
  ghost predicate HoldAnnounces(table: seq<Mapping>, press: nat, s: nat, sent: seq<Sent>) {
    if press == 1 then Announces(table, 0x20 + s, sent)
    else if press == 2 then Announces(table, 0x100 + s, sent)
    else sent == []
  }

  /** Second after second, from the first to the last. */
  ghost predicate HoldsAnnounce(table: seq<Mapping>, press: nat, parts: seq<seq<Sent>>) {
    forall s | 0 <= s < |parts| :: HoldAnnounces(table, press, s + 1, parts[s])
  }

  function Joined(parts: seq<seq<Sent>>): seq<Sent> {
    if parts == [] then [] else Joined(parts[..|parts| - 1]) + parts[|parts| - 1]
  }

  lemma HoldNumber(table: seq<Mapping>, press: nat, s: nat)
    requires 1 <= s <= 66
    ensures HoldAnnounces(table, press, s, HoldSends(table, press, s))
  {
    EmitAnnounces(table, 0x20 + s);
    EmitAnnounces(table, 0x100 + s);
    hide Announces, Emit;
  }

  lemma {:induction false} HoldNumbers(table: seq<Mapping>, press: nat, seconds: nat) returns (parts: seq<seq<Sent>>)
    requires seconds <= 66
    ensures |parts| == seconds && HoldsAnnounce(table, press, parts) && Holds(table, press, seconds) == Joined(parts)
  {
    hide HoldSends, HoldAnnounces;
    if seconds == 0 {
      parts := [];
    } else {
      var front := HoldNumbers(table, press, seconds - 1);
      HoldNumber(table, press, seconds);
      parts := front + [HoldSends(table, press, seconds)];
      assert parts[..|parts| - 1] == front;
    }
  }

  /** The greatest number from 0x80 to `action` that has a line, if any has one. */
  ghost predicate Greatest(table: seq<Mapping>, action: nat, best: Option<nat>) {
    match best
    case Some(a) => 0x80 <= a <= action && Listed(table, a) && forall x | a < x <= action :: !Listed(table, x)
    case None => forall x | 0x80 <= x <= action :: !Listed(table, x)
  }

  /** A release announces its action, and if that has no line, the greatest lower number from 0x80 on that has one. */
  ghost predicate ReleaseAnnounces(table: seq<Mapping>, action: nat, sent: seq<Sent>) {
    exists best: Option<nat>, extra: seq<Sent> ::
      && Greatest(table, action, best)
      && (if best == Some(action) then Announces(table, action, sent)
          else sent == [Action(action)] + extra && (if best.Some? then Announces(table, best.value, extra) else extra == []))
  }

  lemma ListedIsMapped(table: seq<Mapping>, action: nat)
    ensures Mapped(table, action) <==> Listed(table, action)
  {
    if Listed(table, action) {
      var k := LookupIsFirst(table, action);
    }
  }

  lemma EmitReleaseAnnounces(table: seq<Mapping>, action: nat)
    requires action > 0x80
    ensures ReleaseAnnounces(table, action, EmitRelease(table, action))
  {
    var best := ReleaseFindsGreatest(table, action);
    forall x ensures x >= 0 ==> (Mapped(table, x) <==> Listed(table, x)) {
      if x >= 0 {
        ListedIsMapped(table, x);
      }
    }
    EmitAnnounces(table, action);
    var extra := if best.Some? then [Action(best.value), Ui(Lookup(table, best.value).value)] else [];
    if best.Some? {
      EmitAnnounces(table, best.value);
      assert Emit(table, best.value, true) == extra;
    }
    hide Announces, Emit, EmitRelease, Listed, Lookup, Fallback;
    assert Greatest(table, action, best);
    ReleaseIsSo(table, action, EmitRelease(table, action), best, extra);
  }

  lemma ReleaseIsSo(table: seq<Mapping>, action: nat, sent: seq<Sent>, best: Option<nat>, extra: seq<Sent>)
    requires Greatest(table, action, best)
    requires if best == Some(action) then Announces(table, action, sent)
             else sent == [Action(action)] + extra && (if best.Some? then Announces(table, best.value, extra) else extra == [])
    ensures ReleaseAnnounces(table, action, sent)
  {
    hide Announces, Greatest;
  }

  /** The release after `s` full seconds has the number 0x80 + s for a single press and 0x150 + s for a double one, but the
      double one of 61 seconds, and every one after more presses, is silent. */
  lemma ReleaseNumbers(table: seq<Mapping>, press: nat, s: nat)
    requires 1 <= s <= 65
    ensures var sent := ReleaseSends(table, press, s);
            if press == 1 then ReleaseAnnounces(table, 0x80 + s, sent)
            else if press == 2 && s != 61 then ReleaseAnnounces(table, 0x150 + s, sent)
            else sent == []
  {
    EmitReleaseAnnounces(table, 0x80 + s);
    EmitReleaseAnnounces(table, 0x150 + s);
    hide ReleaseAnnounces, EmitRelease;
  }

  /** A hold by numbers: 23, the held actions of the seconds 1 to `seconds`, 24, and the release for `seconds`. */
  lemma HoldIsAnnounced(table: seq<Mapping>, p: Pad, presses: nat, seconds: nat, rest: nat, silence: nat)
    returns (down: seq<Sent>, held: seq<seq<Sent>>, up: seq<Sent>, release: seq<Sent>)
    requires Ready(p, presses) && 1 <= seconds <= 65 && rest < 1000 && silence >= 400
    ensures Wait(table, PressFor(table, p, 1000 * seconds + rest), silence).sent == p.sent + (down + Joined(held) + up + release)
    ensures Announces(table, 23, down) && Announces(table, 24, up)
    ensures |held| == seconds && HoldsAnnounce(table, (presses + 1) % 256, held)
    ensures var press := (presses + 1) % 256;
            if press == 1 then ReleaseAnnounces(table, 0x80 + seconds, release)
            else if press == 2 && seconds != 61 then ReleaseAnnounces(table, 0x150 + seconds, release)
            else release == []
  {
    hide Wait, PressFor, Emit, Announces, ReleaseAnnounces, HoldsAnnounce, Holds, ReleaseSends, Joined;
    var press := (presses + 1) % 256;
    HoldSendsEachSecond(table, p, presses, seconds, rest, silence);
    down, up, release := DataSends(table, DATA_PRESS), DataSends(table, DATA_RELEASE), ReleaseSends(table, press, seconds);
    EmitAnnounces(table, 23);
    EmitAnnounces(table, 24);
    held := HoldNumbers(table, press, seconds);
    ReleaseNumbers(table, press, seconds);
  }

  // ---------------------------------------------------------------- slides

  /** A slide up is the touch datum 4 and a slide down 5. By itself a slide announces 19 or 20, after one quick tap 25 or 26,
      and after more taps nothing. It ends the taps. */
  lemma SlideNumbers(table: seq<Mapping>, p: Pad, up: bool) returns (slide: seq<Sent>)
    ensures var q := Touched(table, p, [0xFF, 0x03, 0x01, 0x00, if up then 4 else 5]);
            q.sent == p.sent + slide && q.presses == 0 && q.held == 0 && q.cancel == q.hold == q.click == None
    ensures if p.presses == 0 then Announces(table, if up then 19 else 20, slide)
            else if p.presses == 1 then Announces(table, if up then 25 else 26, slide)
            else slide == []
  {
    slide := SlideSends(table, p.presses, if up then DATA_SLIDER_UP else DATA_SLIDER_DOWN);
    EmitAnnounces(table, if up then 19 else 20);
    EmitAnnounces(table, if up then 25 else 26);
    hide Announces, Emit;
  }

  // ---------------------------------------------------------------- the times

  /** A press starts a timer of 300 ms, which is followed by one of 700 ms; a release starts one of 400 ms. */
  lemma PressTimes(table: seq<Mapping>, p: Pad, presses: nat, ms: nat)
    requires Ready(p, presses)
    ensures Timers(Down(table, p), Some(300), None, None)
    ensures ms < 300 ==> Wait(table, Down(table, p), ms).cancel == Some(300 - ms)
    ensures Timers(Wait(table, Down(table, p), 300), None, Some(700), None)
    ensures Up(table, Down(table, p)).click == Some(400)
  {
    DownIs(table, p, presses);
    var down := Down(table, p);
    if ms < 300 {
      WaitQuietly(table, down, ms);
    }
    PastCancel(table, down);
    UpIs(table, down);
    hide Wait, Down, Up;
  }

  /** The next tap counts on from the earlier ones exactly when the gap is less than 400 ms; after that the earlier ones
      have been sent as a click. */
  lemma ClickWindow(table: seq<Mapping>, p: Pad, presses: nat, ms: nat, gap: nat)
    requires Ready(p, presses) && presses < 255 && ms < 1000
    ensures Ready(Wait(table, PressFor(table, p, ms), gap), if gap < 400 then presses + 1 else 0)
  {
    hide Wait, PressFor;
    QuickPress(table, p, presses, ms);
    var up := PressFor(table, p, ms);
    if gap < 400 {
      WaitQuietly(table, up, gap);
    } else {
      Silence(table, up, presses + 1, gap);
    }
  }

  /** Five bytes that do not begin with FF 03 01 00 send nothing and end what was going on. */
  lemma NoiseEndsGestures(table: seq<Mapping>, p: Pad, data: seq<Byte>)
    requires |data| == 5 && data[..4] != [0xFF, 0x03, 0x01, 0x00]
    ensures Touched(table, p, data) == p.(presses := 0, held := 0, cancel := None, hold := None, click := None)
  {
    assert data[..4] == [data[0], data[1], data[2], data[3]];
  }

  /** The 66th second starts the timer of 50 ms for the reset line. */
  lemma ResetTime(table: seq<Mapping>, p: Pad, presses: nat)
    requires Ready(p, presses)
    ensures Wait(table, Down(table, p), 66_000).reset == Some(50)
  {
    hide Wait, Down;
    TooLongResets(table, p, presses);
  }

  /** Other touch data only stop the timers and are remembered as the last ones. */
  lemma OtherDataWait(table: seq<Mapping>, p: Pad, d: Byte)
    requires d != 4 && d != 5 && d != 0x20 && d != 0x21
    ensures Touched(table, p, [0xFF, 0x03, 0x01, 0x00, d]) == p.(last := d, cancel := None, hold := None, click := None)
  {
  }

  /** Letting go announces 24, and counts as the end of a press, with a release message posted, only when the last touch
      data were those of touching. */
  lemma ReleaseNeedsPress(table: seq<Mapping>, p: Pad) returns (sent: seq<Sent>)
    ensures Announces(table, 24, sent)
    ensures Touched(table, p, [0xFF, 0x03, 0x01, 0x00, 0x21])
            == p.(last := 0x21, cancel := None, hold := None, click := None, sent := p.sent + sent,
                  released := p.released || p.last == 0x20)
  {
    sent := DataSends(table, DATA_RELEASE);
    EmitAnnounces(table, 24);
    hide Announces, Emit;
  }
}
