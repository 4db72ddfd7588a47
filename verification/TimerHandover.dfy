/** The out-of-ear timers at handover (earbud/src/earbud_sm_handover.c): deadlines travel between two clocks as
    wrapping 32-bit microseconds. */
module TimerHandover {

  const W := 0x1_0000_0000
  const HALF := 0x8000_0000

  /** A clock is 32 bits wide; `a` is what it shows at time 0. */
  function Clock(t: int, a: int): (c: nat)
    ensures c < W
  {
    (t + a) % W
  }

  /** The signed 32-bit value of a difference, as rtime_sub gives it. */
  function Signed(x: int): (s: int)
    ensures -HALF <= s < HALF
  {
    if x % W >= HALF then x % W - W else x % W
  }

  /** appSm_HandoverTimerAbsoluteTime: the product and the sum both wrap. */
  function AbsoluteTime(clock: nat, dueMs: int): (r: nat)
    requires clock < W
    ensures r < W
  {
    if dueMs < 0 then clock else (clock + dueMs * 1000 % W) % W
  }

  /** What the marshalled clock type does between the earbuds. */
  function Translate(time: nat, a: int, b: int): (r: nat)
    ensures r < W
  {
    (time - a + b) % W
  }

  /** appSm_HandoverTimerOffset, in milliseconds; 0 is D_IMMEDIATE. */
  function Offset(time: nat, clock: nat): (ms: nat)
  {
    var s := Signed(time - clock);
    if s > 0 then s / 1000 else 0
  }

  // ---------------------------------------------------------------- arithmetic modulo 2^32

  lemma Quotients(x: int, y: int, k: int)
    requires x == y + k * W
    ensures x % W == y % W
  {
    var q := y / W;
    assert y == q * W + y % W;
    assert x == (q + k) * W + y % W;
    assert x / W == q + k by {
      UniqueQuotient(x, q + k, y % W);
    }
  }

  lemma UniqueQuotient(x: int, q: int, r: int)
    requires x == q * W + r && 0 <= r < W
    ensures x / W == q && x % W == r
  {
  }

  lemma WrapInSum(x: int, y: int)
    ensures (x % W + y) % W == (x + y) % W
  {
    Quotients(x % W + y, x + y, -(x / W));
  }

  lemma SignedInWindow(x: int)
    ensures Signed(x) == x <==> -HALF <= x < HALF
  {
    if 0 <= x < HALF {
      UniqueQuotient(x, 0, x);
    } else if -HALF <= x < 0 {
      UniqueQuotient(x, -1, x + W);
    }
  }

  /** A timer with `dueMs` to go is marshalled at time t0 and committed at t1: whatever the clocks show, and however
      often they wrap, the offset is that of the true remaining time, taken modulo 2^32. */
  lemma ClocksCancel(a: int, b: int, t0: int, t1: int, dueMs: int)
    ensures var deadline := t0 + (if dueMs < 0 then 0 else dueMs * 1000);
            Offset(Translate(AbsoluteTime(Clock(t0, a), dueMs), a, b), Clock(t1, b))
            == (if Signed(deadline - t1) > 0 then Signed(deadline - t1) / 1000 else 0)
  {
    var later := if dueMs < 0 then 0 else dueMs * 1000;
    var time := AbsoluteTime(Clock(t0, a), dueMs);
    AbsoluteIs(t0, a, dueMs);
    WrapInSum(t0 + later + a, b - a);
    assert Translate(time, a, b) == (t0 + later + b) % W;
    var x, y := t0 + later + b, t1 + b;
    Quotients(x % W - y % W, x - y, y / W - x / W);
  }

  lemma AbsoluteIs(t0: int, a: int, dueMs: int)
    ensures AbsoluteTime(Clock(t0, a), dueMs) == (t0 + (if dueMs < 0 then 0 else dueMs * 1000) + a) % W
  {
    if dueMs >= 0 {
      WrapInSum(t0 + a, dueMs * 1000 % W);
      WrapInSum(dueMs * 1000, t0 + a);
    }
  }

  // ---------------------------------------------------------------- when the deadline is kept

  /** A timer started at t1 fires no later than its deadline and less than a millisecond early; or at once, if the
      deadline has passed. */
  predicate KeepsDeadline(t1: int, ms: nat, deadline: int) {
    if deadline > t1 then deadline - 1000 < t1 + ms * 1000 <= deadline else ms == 0
  }

  function Remaining(deadline: int, t1: int): (ms: nat)
  {
    if Signed(deadline - t1) > 0 then Signed(deadline - t1) / 1000 else 0
  }

  /** A deadline that is still to come is kept exactly when it lies less than 2^31 microseconds ahead. */
  lemma FutureDeadline(deadline: int, t1: int)
    requires deadline > t1
    ensures KeepsDeadline(t1, Remaining(deadline, t1), deadline) <==> deadline - t1 < 0x8000_0000
  {
    var r := deadline - t1;
    SignedInWindow(r);
    if r >= HALF {
      SignedIsLess(r);
    }
  }

  lemma SignedIsLess(r: int)
    requires r >= HALF
    ensures Signed(r) <= r - W
  {
    var q := r / W;
    assert r == q * W + r % W;
  }

  /** A deadline in the past fires at once exactly when its distance does not look like a millisecond or more to come,
      and in particular when it lies at most 2^31 microseconds back. */
  lemma PastDeadline(deadline: int, t1: int)
    requires deadline <= t1
    ensures KeepsDeadline(t1, Remaining(deadline, t1), deadline) <==> Signed(deadline - t1) < 1000
    ensures t1 - deadline <= 0x8000_0000 ==> KeepsDeadline(t1, Remaining(deadline, t1), deadline)
  {
    SignedInWindow(deadline - t1);
  }

  // ---------------------------------------------------------------- the timers of one earbud

  datatype Kind = OutOfEarA2dp | OutOfEarSco | InEarA2dpStart

  /** One value for each kind of timer. */
  datatype Per<+T> = Per(a2dp: T, sco: T, play: T)
  {
    function At(k: Kind): T {
      match k
      case OutOfEarA2dp => a2dp
      case OutOfEarSco => sco
      case InEarA2dpStart => play
    }
  }

  /** One entry of earbud_sm_timers. */
  datatype Slot = Slot(time: nat, valid: bool)

  const CLEARED: Per<Slot> := Per(Slot(0, false), Slot(0, false), Slot(0, false))

  /** The pending timers of each kind, by the milliseconds that MessagePendingFirst reports, and the record. */
  datatype Bud = Bud(pending: Per<seq<int>>, record: Per<Slot>)

  function Recorded(clock: nat, pending: seq<int>): Slot
    requires clock < W
  {
    if pending == [] then Slot(0, false) else Slot(AbsoluteTime(clock, pending[0]), true)
  }

  /** The record that appSm_HandoverMarshal makes. */
  function Record(clock: nat, pending: Per<seq<int>>): Per<Slot>
    requires clock < W
  {
    Per(Recorded(clock, pending.a2dp), Recorded(clock, pending.sco), Recorded(clock, pending.play))
  }

  /** Whether there is anything to marshal. */
  predicate AnyPending(pending: Per<seq<int>>) {
    pending.a2dp != [] || pending.sco != [] || pending.play != []
  }

  predicate AnyValid(record: Per<Slot>) {
    record.a2dp.valid || record.sco.valid || record.play.valid
  }

  /** MessageCancelFirst. */
  function DropFirst(pending: seq<int>): seq<int> {
    if pending == [] then [] else pending[1..]
  }

  function Started(clock: nat, pending: seq<int>, slot: Slot): seq<int> {
    if slot.valid then pending + [Offset(slot.time, clock)] else pending
  }

  /** appSm_HandoverCommit. */
  function Committed(clock: nat, bud: Bud, primary: bool): Bud {
    var p, r := bud.pending, bud.record;
    Bud(if primary then Per(Started(clock, p.a2dp, r.a2dp), Started(clock, p.sco, r.sco), Started(clock, p.play, r.play))
        else Per(DropFirst(p.a2dp), DropFirst(p.sco), DropFirst(p.play)),
        CLEARED)
  }

  function TranslateSlot(slot: Slot, a: int, b: int): Slot {
    if slot.valid then Slot(Translate(slot.time, a, b), true) else slot
  }

  function TranslateRecord(record: Per<Slot>, a: int, b: int): Per<Slot> {
    Per(TranslateSlot(record.a2dp, a, b), TranslateSlot(record.sco, a, b), TranslateSlot(record.play, a, b))
  }

  /** The timer state of the task data, changed in place by the handover interface. */
  class Owner {
    var a2dp: seq<int>
    var sco: seq<int>
    var play: seq<int>
    var timers: Per<Slot>

    function View(): Bud
      reads this
    {
      Bud(Per(a2dp, sco, play), timers)
    }

    constructor (pending: Per<seq<int>>)
      ensures View() == Bud(pending, CLEARED)
    {
      a2dp, sco, play, timers := pending.a2dp, pending.sco, pending.play, CLEARED;
    }

    /** appSm_HandoverMarshal. */
    method Marshal(clock: nat) returns (status: bool)
      requires clock < W
      modifies this`timers
      ensures View() == old(View()).(record := Record(clock, old(View()).pending))
      ensures status == AnyPending(View().pending)
    {
      timers := CLEARED;
      status := false;
      if a2dp != [] {
        timers := timers.(a2dp := Slot(AbsoluteTime(clock, a2dp[0]), true));
        status := true;
      }
      if sco != [] {
        timers := timers.(sco := Slot(AbsoluteTime(clock, sco[0]), true));
        status := true;
      }
      if play != [] {
        timers := timers.(play := Slot(AbsoluteTime(clock, play[0]), true));
        status := true;
      }
    }

    /** appSm_HandoverCommit. */
    method Commit(clock: nat, primary: bool)
      modifies this
      ensures View() == Committed(clock, old(View()), primary)
    {
      if !primary {
        a2dp := DropFirst(a2dp);
        sco := DropFirst(sco);
        play := DropFirst(play);
      } else {
        if timers.a2dp.valid {
          a2dp := a2dp + [Offset(timers.a2dp.time, clock)];
        }
        if timers.sco.valid {
          sco := sco + [Offset(timers.sco.time, clock)];
        }
        if timers.play.valid {
          play := play + [Offset(timers.play.time, clock)];
        }
      }
      timers := CLEARED;
    }
  }

  // ---------------------------------------------------------------- a handover

  /** The new primary and the old one after marshalling at t0 and committing at t1; nothing is sent when nothing is
      pending. */
  function NewAfter(giver: Bud, taker: Bud, a: int, b: int, t0: int, t1: int): Bud {
    var received := if AnyPending(giver.pending) then TranslateRecord(Record(Clock(t0, a), giver.pending), a, b) else taker.record;
    Committed(Clock(t1, b), taker.(record := received), true)
  }

  function OldAfter(giver: Bud, a: int, t0: int, t1: int): Bud {
    Committed(Clock(t1, a), giver.(record := Record(Clock(t0, a), giver.pending)), false)
  }

  predicate AtMostOne(pending: Per<seq<int>>) {
    |pending.a2dp| <= 1 && |pending.sco| <= 1 && |pending.play| <= 1
  }

  const NONE: Per<seq<int>> := Per([], [], [])

  function DeadlineOf(t0: int, dueMs: int): int {
    t0 + (if dueMs < 0 then 0 else dueMs * 1000)
  }

  /** The timer that takes over from the first pending one, if any. */
  function Inherited(pending: seq<int>, t0: int, t1: int): seq<int> {
    if pending == [] then [] else [Remaining(DeadlineOf(t0, pending[0]), t1)]
  }

  lemma InheritedIs(pending: seq<int>, a: int, b: int, t0: int, t1: int)
    ensures Started(Clock(t1, b), [], TranslateSlot(Recorded(Clock(t0, a), pending), a, b)) == Inherited(pending, t0, t1)
  {
    if pending != [] {
      ClocksCancel(a, b, t0, t1, pending[0]);
    }
  }

  lemma DropsAll(pending: seq<int>)
    ensures DropFirst(pending) == [] <==> |pending| <= 1
  {
  }

  /** The old primary holds no timer afterwards exactly when it had at most one of each kind. */
  lemma GiverHoldsNone(giver: Bud, a: int, t0: int, t1: int)
    ensures OldAfter(giver, a, t0, t1).pending == NONE <==> AtMostOne(giver.pending)
    ensures OldAfter(giver, a, t0, t1).record == CLEARED
  {
    DropsAll(giver.pending.a2dp);
    DropsAll(giver.pending.sco);
    DropsAll(giver.pending.play);
    hide DropFirst, Record, Clock;
  }

  lemma StartsNone(clock: nat, slot: Slot)
    ensures Started(clock, [], slot) == [] <==> !slot.valid
  {
  }

  lemma InheritsNone(t0: int, t1: int)
    ensures Inherited([], t0, t1) == []
  {
  }

  /** When something was sent. */
  lemma TakerInherits(giver: Bud, taker: Bud, a: int, b: int, t0: int, t1: int)
    requires taker.pending == NONE && AnyPending(giver.pending)
    ensures var p := giver.pending;
            NewAfter(giver, taker, a, b, t0, t1)
            == Bud(Per(Inherited(p.a2dp, t0, t1), Inherited(p.sco, t0, t1), Inherited(p.play, t0, t1)), CLEARED)
  {
    InheritedIs(giver.pending.a2dp, a, b, t0, t1);
    InheritedIs(giver.pending.sco, a, b, t0, t1);
    InheritedIs(giver.pending.play, a, b, t0, t1);
    hide Started, TranslateSlot, Recorded, Inherited, Clock;
  }

  /** When nothing was sent, an old record decides. */
  lemma TakerKeepsRecord(giver: Bud, taker: Bud, a: int, b: int, t0: int, t1: int)
    requires taker.pending == NONE && !AnyPending(giver.pending)
    ensures NewAfter(giver, taker, a, b, t0, t1).pending == NONE <==> !AnyValid(taker.record)
    ensures NewAfter(giver, taker, a, b, t0, t1).record == CLEARED
  {
    StartsNone(Clock(t1, b), taker.record.a2dp);
    StartsNone(Clock(t1, b), taker.record.sco);
    StartsNone(Clock(t1, b), taker.record.play);
    hide Started, Record, Clock;
  }

  /** The handover moves the timers: with at most one of each kind the old primary holds none afterwards, and the new
      primary, which held none, holds for each kind exactly the one that the old one held, by its deadline, provided
      that something was sent or its record was cleared; both records are cleared. The provisos are exact. */
  lemma HandoverMovesTimers(giver: Bud, taker: Bud, a: int, b: int, t0: int, t1: int)
    requires taker.pending == NONE
    ensures OldAfter(giver, a, t0, t1).pending == NONE <==> AtMostOne(giver.pending)
    ensures OldAfter(giver, a, t0, t1).record == CLEARED == NewAfter(giver, taker, a, b, t0, t1).record
    ensures var p := giver.pending;
            NewAfter(giver, taker, a, b, t0, t1).pending
              == Per(Inherited(p.a2dp, t0, t1), Inherited(p.sco, t0, t1), Inherited(p.play, t0, t1))
            <==> AnyPending(p) || !AnyValid(taker.record)
  {
    GiverHoldsNone(giver, a, t0, t1);
    hide OldAfter, NewAfter, AtMostOne, AnyValid, Inherited;
    if AnyPending(giver.pending) {
      TakerInherits(giver, taker, a, b, t0, t1);
    } else {
      TakerKeepsRecord(giver, taker, a, b, t0, t1);
      InheritsNone(t0, t1);
    }
  }

  /** Each timer that moved keeps its deadline, when that lies less than 2^31 microseconds from the commit. */
  lemma {:induction false} MovedTimersKeepDeadlines(giver: Bud, taker: Bud, a: int, b: int, t0: int, t1: int, k: Kind)
    requires taker.pending == NONE && giver.pending.At(k) != []
    requires var d := DeadlineOf(t0, giver.pending.At(k)[0]); -HALF <= d - t1 < HALF
    ensures var ms := NewAfter(giver, taker, a, b, t0, t1).pending.At(k);
            |ms| == 1 && ms[0] >= 0 && KeepsDeadline(t1, ms[0], DeadlineOf(t0, giver.pending.At(k)[0]))
  {
    var d := DeadlineOf(t0, giver.pending.At(k)[0]);
    InheritedIs(giver.pending.At(k), a, b, t0, t1);
    SignedInWindow(d - t1);
  }

  /** After an aborted handover the record of a peer may be stale; a later handover that has nothing to send then
      starts timers that the old primary did not hold. */
  lemma StaleRecordStartsTimers(taker: Bud, a: int, b: int, t0: int, t1: int)
    requires taker.pending == NONE && AnyValid(taker.record)
    ensures NewAfter(Bud(NONE, CLEARED), taker, a, b, t0, t1).pending != NONE
  {
  }

  // ---------------------------------------------------------------- on the objects themselves

  /** The handover between two earbuds: the old primary marshals at t0, its record travels if there is any timer and is
      copied into the new primary (appSm_HandoverUnmarshal), and both commit at t1. Afterwards the new primary holds the
      timers that the old one held, by their deadlines, and the old one holds none. */
  method Transfer(giver: Owner, taker: Owner, a: int, b: int, t0: int, t1: int)
    requires giver != taker && AtMostOne(giver.View().pending) && taker.View() == Bud(NONE, CLEARED)
    modifies giver, taker
    ensures giver.View() == Bud(NONE, CLEARED) && taker.View().record == CLEARED
    ensures forall k: Kind :: taker.View().pending.At(k) == Inherited(old(giver.View().pending.At(k)), t0, t1)
  {
    HandoverMovesTimers(giver.View(), taker.View(), a, b, t0, t1);
    hide Clock, AbsoluteTime, Offset, Translate, Remaining;
    var sends := giver.Marshal(Clock(t0, a));
    if sends {
      taker.timers := TranslateRecord(giver.timers, a, b);
    }
    giver.Commit(Clock(t1, a), false);
    taker.Commit(Clock(t1, b), true);
  }
}
