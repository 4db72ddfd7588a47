/** The state diagram of earbud/src/earbud_sm.c: where each message leads from each state, by the numbers of
    earbud/src/earbud_sm.h, and what it does to the role and to pairing. */
module EarbudSmDiagram {
  import opened EarbudSmSpec
  import opened EarbudSmRuns
  import opened EarbudSmAudio

  /** The core state of a place. */
  function CoreNumber(phy: Phy, busy: bool): Code {
    if phy == InEar then (if busy then 0x8010 else 0x8008)
    else if phy == OutOfEar || phy == OutOfEarAtRest then (if busy then 0x4010 else 0x4008)
    else 0x2008
  }

  /** The place that the machine knows of while it handles the message. */
  function KnownPlace(sm: Sm, e: Event): Phy {
    match e
    case TopologyStarted(_, _) => sm.actual
    case PhyChanged => if sm.inds != [] then sm.inds[0] else sm.phy
    case _ => sm.phy
  }

  predicate IdleNumber(s: Code) {
    s == 0x2008 || s == 0x2002 || s == 0x4008 || s == 0x4002 || s == 0x8008
  }

  /** The state that a message leads to. */
  function LeadsTo(sm: Sm, a: Answers, e: Event): Code {
    var s := sm.state;
    if ActsOn(sm, a, e) then CoreNumber(KnownPlace(sm, e), a.busy)
    else
      match e
      case InitDone => if s == 0x0040 then (if a.reason == NormalBoot then 0x0080 else 0x0200) else s
      case NoDfuFound => if s == 0x2020 then s else if a.testMode then 0x1000 else 0x0200
      case PairRule => if s == 0x4008 || s == 0x8008 then 0x0800 else s
      case PairHandset => if IdleNumber(s) && sm.role == Primary then 0x0800 else s
      case EnterDfu(dynamicRole) => if dynamicRole then s else 0x2020
      case DfuEnded => if s == 0x2020 then 0x0200 else s
      case SleepPrepare => if s == 0x2002 then 0x2004 else 0x4004
      case SleepCancelled => 0x0200
      case ShutdownPrepare => (s & 0xE000) | 0x0001
      case ShutdownCancelled => 0x0200
      case TestEnded => 0x0200
      case IdleTimeout => if s == 0x2008 then 0x2002 else 0x4002
      case _ => s
  }

  /** The messages that stop the machine. */
  predicate Stops(sm: Sm, e: Event, why: Why) {
    match why
    case UnexpectedIdleTimeout => e == IdleTimeout && sm.state != 0x2008 && sm.state != 0x4008
    case UnexpectedSleep => e == SleepPrepare && sm.state != 0x2002 && sm.state != 0x4002
    case UnexpectedInit => e == InitDone && sm.state != 0x0040 && sm.state != 0x2020 && sm.state != 0x0001
    case NoPhysicalState => e.TopologyStarted? && sm.state == 0x0200 && sm.actual == Unknown
    case _ => false
  }

  ghost predicate StopsForSome(sm: Sm, e: Event) {
    exists why :: Stops(sm, e, why)
  }

  predicate Reboots(sm: Sm, e: Event) {
    e == FactoryReset && sm.state >= 0x0200
  }

  /** The role afterwards. */
  function RoleAfter(sm: Sm, e: Event): Role {
    match e
    case RoleChanged(role) => if role == NoRole && sm.state == 0x2020 then sm.role else role
    case TopologyStarted(success, role) => if success && sm.state == 0x0200 then role else sm.role
    case _ => sm.role
  }

  /** The actions that a message initiates: pairing by rule, unless the machine is pairing already, and deletion of handsets
      in the idle states. */
  function Initiates(sm: Sm, e: Event): seq<Action> {
    match e
    case PairRule => if sm.state == 0x4008 || sm.state == 0x8008 then [Pairing] else []
    case HandsetsToDelete => if sm.state == 0x2008 || sm.state == 0x4008 || sm.state == 0x8008 then [DeleteHandsets] else []
    case _ => []
  }

  /** Whether the machine waits for the handset before it goes on: from an initiated action on, exactly when the handset
      is connected, until it is disconnected or the timeout is over. */
  function LockAfter(sm: Sm, a: Answers, e: Event): bool {
    if Initiates(sm, e) != [] then a.bredrConnected
    else
      match e
      case HandsetDisconnected => sm.lock && a.bredrConnected
      case LinkTimeout => false
      case _ => sm.lock
  }

  /** The link timeouts that are pending: one more for each initiated action, one less when one is over or its action
      is performed. */
  function TimeoutsAfter(sm: Sm, e: Event): int {
    if e == LinkTimeout || (e == LinkComplete && sm.linkTimeouts > 0) then sm.linkTimeouts - 1
    else sm.linkTimeouts + |Initiates(sm, e)|
  }

  /** The physical state that the machine knows of. */
  function PlaceAfter(sm: Sm, e: Event): Phy {
    match e
    case PhyChanged => if sm.inds != [] then sm.inds[0] else sm.phy
    case ProxyPhyEvent => sm.actual
    case TopologyStarted(_, _) => if sm.state == 0x0200 then sm.actual else sm.phy
    case _ => sm.phy
  }

  /** Whether pairing was asked for by the user; leaving the pairing state forgets it. */
  function ByUserAfter(sm: Sm, a: Answers, e: Event): bool {
    if e == PairHandset && IdleNumber(sm.state) && sm.role == Primary then true
    else if e == PairRule && (sm.state == 0x4008 || sm.state == 0x8008) then false
    else if sm.state == 0x0800 && LeadsTo(sm, a, e) != 0x0800 then false
    else sm.userPairing
  }

  // ---------------------------------------------------------------- the proof

  lemma CoreNumberIs(phy: Phy, busy: bool)
    ensures CoreNumber(phy, busy) == CoreState(phy, busy)
  {
  }

  lemma IdleNumbers(s: Code)
    requires Enterable(s)
    ensures IsIdle(s) <==> IdleNumber(s)
  {
  }

  /** What a transition changes. */
  ghost predicate Changes(a: Answers, sm: Sm, next: Code, reached: Code, r: Sm) {
    && r.state == reached && r.role == sm.role && r.phy == sm.phy
    && r.userPairing == (if sm.state == 0x0800 then false else sm.userPairing)
    && var initiates := next == 0x0800 && !r.userPairing;
       && r.initiated == sm.initiated + (if initiates then [Pairing] else [])
       && r.lock == (if initiates then a.bredrConnected else sm.lock)
       && r.linkTimeouts == sm.linkTimeouts + (if initiates then 1 else 0)
  }

  lemma OneTransition(inCaseTimeout: bool, a: Answers, sm: Sm, next: Code)
    ensures var r := Plain(inCaseTimeout, a, sm, next); r.Running? ==> Changes(a, sm, next, next, r.sm)
  {
    hide IsSleepy, Enterable, Named;
    assert sm.initiated + [] == sm.initiated;
  }

  /** A transition with the one that the DFU check goes on to. */
  lemma Transition(inCaseTimeout: bool, a: Answers, sm: Sm, next: Code)
    ensures var r := SetState(inCaseTimeout, a, sm, next); r.Running? ==> Changes(a, sm, next, Target(a, next), r.sm)
  {
    OneTransition(inCaseTimeout, a, sm, next);
    var r := Plain(inCaseTimeout, a, sm, next);
    if r.Running? {
      OneTransition(inCaseTimeout, a, r.sm, STARTUP);
    }
    hide Plain;
  }

  /** A transition that the machine survives. */
  lemma Arrives(inCaseTimeout: bool, a: Answers, sm: Sm, next: Code)
    requires Encoded(sm) && LockTimed(sm) && Conserved(sm) && SleepDisciplined(sm) && Enterable(next) && next != FACTORY_RESET
    requires !inCaseTimeout ==> sm.idleTimers <= ExpectedTimers(sm.state)
    ensures var r := SetState(inCaseTimeout, a, sm, next); r.Running? && Changes(a, sm, next, Target(a, next), r.sm)
  {
    SetStateKeeps(inCaseTimeout, a, sm, next);
    Transition(inCaseTimeout, a, sm, next);
    hide SetState, SleepDisciplined, Conserved, Enterable, Changes;
  }

  lemma ArrivesInCore(inCaseTimeout: bool, a: Answers, sm: Sm)
    requires Good(inCaseTimeout, sm)
    ensures var r := SetCoreState(inCaseTimeout, a, sm);
            && r.Running? && r.sm.state == CoreNumber(sm.phy, a.busy) && r.sm.role == sm.role && r.sm.initiated == sm.initiated
            && r.sm.lock == sm.lock && r.sm.linkTimeouts == sm.linkTimeouts && r.sm.phy == sm.phy
            && r.sm.userPairing == (if sm.state == 0x0800 then false else sm.userPairing)
  {
    CoreNumberIs(sm.phy, a.busy);
    CoreStateTells(sm.phy, a.busy);
    assert CoreNumber(sm.phy, a.busy) != 0x0800;
    hide CoreNumber, CoreState, SetState, TellsAudio, IsCore, Enterable, SleepDisciplined, Conserved;
    assert sm.initiated + [] == sm.initiated;
    if CoreState(sm.phy, a.busy) != sm.state {
      Arrives(inCaseTimeout, a, sm, CoreState(sm.phy, a.busy));
    }
  }

  ghost predicate FollowsDiagram(sm: Sm, a: Answers, e: Event, r: Outcome) {
    match r
    case Running(after) =>
      && !Reboots(sm, e) && !StopsForSome(sm, e)
      && after.state == LeadsTo(sm, a, e) && after.role == RoleAfter(sm, e)
      && after.initiated == sm.initiated + Initiates(sm, e)
      && after.lock == LockAfter(sm, a, e) && after.userPairing == ByUserAfter(sm, a, e)
      && after.linkTimeouts == TimeoutsAfter(sm, e) && after.phy == PlaceAfter(sm, e)
    case Rebooted(_) => Reboots(sm, e)
    case Panicked(why) => Stops(sm, e, why)
  }

  lemma NotPairing(phy: Phy, busy: bool)
    ensures CoreNumber(phy, busy) != 0x0800
  {
  }

  lemma PlaceFollows(inCaseTimeout: bool, a: Answers, sm: Sm)
    requires Fine(inCaseTimeout, sm) && sm.inds != [] && ActsOn(sm, a, PhyChanged)
    ensures FollowsDiagram(sm, a, PhyChanged, Step(inCaseTimeout, a, sm, PhyChanged))
  {
    hide SetCoreState, CoreNumber, IsCore, Good;
    assert sm.initiated + [] == sm.initiated;
    var seen := sm.(phy := sm.inds[0], inds := sm.inds[1..]);
    NotPairing(seen.phy, a.busy);
    SameButPhy(inCaseTimeout, sm, seen);
    ArrivesInCore(inCaseTimeout, a, seen);
  }

  lemma LossFollows(inCaseTimeout: bool, a: Answers, sm: Sm, e: Event)
    requires Fine(inCaseTimeout, sm) && e.RoleChanged? && ActsOn(sm, a, e)
    ensures FollowsDiagram(sm, a, e, Step(inCaseTimeout, a, sm, e))
  {
    hide SetCoreState, CoreNumber, IsCore, Good;
    assert sm.initiated + [] == sm.initiated;
    NotPairing(sm.phy, a.busy);
    SameButPhy(inCaseTimeout, sm, sm.(role := Secondary));
    ArrivesInCore(inCaseTimeout, a, sm.(role := Secondary));
  }

  lemma AudioFollows(inCaseTimeout: bool, a: Answers, sm: Sm, e: Event)
    requires Fine(inCaseTimeout, sm) && (e.AudioChanged? || e.PairConfirm?) && ActsOn(sm, a, e)
    ensures FollowsDiagram(sm, a, e, Step(inCaseTimeout, a, sm, e))
  {
    hide SetCoreState, CoreNumber, IsCore, Good;
    assert sm.initiated + [] == sm.initiated;
    NotPairing(sm.phy, a.busy);
    ArrivesInCore(inCaseTimeout, a, sm);
  }

  /** In a core state, the role is only stored. */
  lemma StartedRole(inCaseTimeout: bool, a: Answers, sm: Sm, success: bool, role: Role)
    requires sm.state == STARTUP && sm.actual != Unknown
    ensures var r := SetCoreState(inCaseTimeout, a, sm.(registered := true, phy := sm.actual));
            r.Running? && IsCore(r.sm.state) && r.sm.state != IN_CASE_DFU ==>
              OnTopologyStarted(inCaseTimeout, a, sm, success, role)
              == Running(if success then r.sm.(role := role) else r.sm)
  {
    hide SetCoreState, IsCore;
  }

  /** Starting in startup: the core state of the actual place, and then the role. */
  lemma StartLands(inCaseTimeout: bool, a: Answers, sm: Sm, success: bool, role: Role)
    requires Fine(inCaseTimeout, sm) && sm.state == STARTUP && sm.actual != Unknown
    ensures var r := OnTopologyStarted(inCaseTimeout, a, sm, success, role);
            && r.Running? && r.sm.state == CoreNumber(sm.actual, a.busy) && r.sm.initiated == sm.initiated
            && r.sm.role == (if success then role else sm.role) && r.sm.lock == sm.lock && r.sm.userPairing == sm.userPairing
            && r.sm.linkTimeouts == sm.linkTimeouts && r.sm.phy == sm.actual
  {
    var known := sm.(registered := true, phy := sm.actual);
    SameButPhy(inCaseTimeout, sm, known);
    ArrivesInCore(inCaseTimeout, a, known);
    CoreNumberIs(known.phy, a.busy);
    CoreStateTells(known.phy, a.busy);
    NotCoreStates();
    StartedRole(inCaseTimeout, a, sm, success, role);
    hide SetCoreState, CoreNumber, CoreState, TellsAudio, Good, Informed, Settled, IsCore, OnTopologyStarted;
  }

  lemma StartFollows(inCaseTimeout: bool, a: Answers, sm: Sm, e: Event)
    requires Fine(inCaseTimeout, sm) && e.TopologyStarted?
    ensures FollowsDiagram(sm, a, e, Step(inCaseTimeout, a, sm, e))
  {
    assert sm.initiated + [] == sm.initiated;
    if sm.state == STARTUP && sm.actual != Unknown {
      StartLands(inCaseTimeout, a, sm, e.success, e.role);
      hide OnTopologyStarted, CoreNumber, Fine;
    } else {
      hide SetCoreState, OnRole, CoreNumber, Fine;
    }
  }

  /** Messages after which the machine is in the same state. */
  lemma QuietFollows(inCaseTimeout: bool, a: Answers, sm: Sm, e: Event)
    requires Deliverable(sm, e) && (e.Moved? || e.ProxyPhyEvent? || e.ChargerCompleted?)
    ensures FollowsDiagram(sm, a, e, Step(inCaseTimeout, a, sm, e))
  {
    hide SetCoreState, IsCore;
    assert sm.initiated + [] == sm.initiated;
  }

  lemma LinkFollows(inCaseTimeout: bool, a: Answers, sm: Sm, e: Event)
    requires Deliverable(sm, e) && (e.HandsetDisconnected? || e.LinkTimeout? || e.LinkComplete? || e.HandsetsToDelete?)
    ensures FollowsDiagram(sm, a, e, Step(inCaseTimeout, a, sm, e))
  {
    hide SetCoreState, IsCore;
    assert sm.initiated + [] == sm.initiated;
  }

  lemma IgnoredFollows(inCaseTimeout: bool, a: Answers, sm: Sm, e: Event)
    requires Fine(inCaseTimeout, sm) && Deliverable(sm, e) && !ActsOn(sm, a, e)
    requires e.PhyChanged? || e.AudioChanged? || e.PairConfirm?
    ensures FollowsDiagram(sm, a, e, Step(inCaseTimeout, a, sm, e))
  {
    hide SetCoreState, IsCore, Fine;
    assert sm.initiated + [] == sm.initiated;
  }

  lemma RoleFollows(inCaseTimeout: bool, a: Answers, sm: Sm, role: Role)
    requires !ActsOn(sm, a, RoleChanged(role))
    ensures FollowsDiagram(sm, a, RoleChanged(role), Step(inCaseTimeout, a, sm, RoleChanged(role)))
  {
    hide SetCoreState, IsCore, Fine;
    assert sm.initiated + [] == sm.initiated;
  }

  lemma TimeoutFollows(inCaseTimeout: bool, a: Answers, sm: Sm)
    requires Fine(inCaseTimeout, sm) && sm.idleTimers > 0
    ensures FollowsDiagram(sm, a, IdleTimeout, Step(inCaseTimeout, a, sm, IdleTimeout))
  {
    var taken := sm.(idleTimers := sm.idleTimers - 1);
    hide SetState, SleepDisciplined, Conserved;
    if sm.state == IN_CASE_IDLE {
      Arrives(inCaseTimeout, a, taken, IN_CASE_SOPORIFIC);
    } else if sm.state == OUT_OF_CASE_IDLE {
      Arrives(inCaseTimeout, a, taken, OUT_OF_CASE_SOPORIFIC);
    }
    assert StopsForSome(sm, IdleTimeout) <==> Stops(sm, IdleTimeout, UnexpectedIdleTimeout);
  }

  lemma SleepFollows(inCaseTimeout: bool, a: Answers, sm: Sm)
    requires Fine(inCaseTimeout, sm)
    ensures FollowsDiagram(sm, a, SleepPrepare, Step(inCaseTimeout, a, sm, SleepPrepare))
  {
    hide SetState, SleepDisciplined, Conserved;
    if sm.state == IN_CASE_SOPORIFIC {
      Arrives(inCaseTimeout, a, sm, IN_CASE_SOPORIFIC_TERMINATING);
    } else if sm.state == OUT_OF_CASE_SOPORIFIC {
      Arrives(inCaseTimeout, a, sm, OUT_OF_CASE_SOPORIFIC_TERMINATING);
    }
    assert StopsForSome(sm, SleepPrepare) <==> Stops(sm, SleepPrepare, UnexpectedSleep);
  }

  lemma InitFollows(inCaseTimeout: bool, a: Answers, sm: Sm)
    requires Fine(inCaseTimeout, sm)
    ensures FollowsDiagram(sm, a, InitDone, Step(inCaseTimeout, a, sm, InitDone))
  {
    hide SetState, SleepDisciplined, Conserved;
    assert sm.initiated + [] == sm.initiated;
    if sm.state == INITIALISING {
      Arrives(inCaseTimeout, a, sm, DFU_CHECK);
    }
    assert StopsForSome(sm, InitDone) <==> Stops(sm, InitDone, UnexpectedInit);
  }

  lemma RuleFollows(inCaseTimeout: bool, a: Answers, sm: Sm)
    requires Fine(inCaseTimeout, sm)
    ensures FollowsDiagram(sm, a, PairRule, Step(inCaseTimeout, a, sm, PairRule))
  {
    hide SetState, IsIdle, IsSleepy, ParentAgrees;
    assert sm.initiated + [] == sm.initiated;
    Arrives(inCaseTimeout, a, sm.(userPairing := false), HANDSET_PAIRING);
  }

  lemma HandsetFollows(inCaseTimeout: bool, a: Answers, sm: Sm)
    requires Fine(inCaseTimeout, sm)
    ensures FollowsDiagram(sm, a, PairHandset, Step(inCaseTimeout, a, sm, PairHandset))
  {
    IdleNumbers(sm.state);
    hide SetState, IsIdle, IsSleepy, ParentAgrees;
    assert sm.initiated + [] == sm.initiated;
    Arrives(inCaseTimeout, a, sm.(userPairing := true), HANDSET_PAIRING);
  }

  lemma NoDfuFollows(inCaseTimeout: bool, a: Answers, sm: Sm)
    requires Fine(inCaseTimeout, sm) && sm.noDfu > 0
    ensures FollowsDiagram(sm, a, NoDfuFound, Step(inCaseTimeout, a, sm, NoDfuFound))
  {
    hide SetState, IsSleepy;
    assert sm.initiated + [] == sm.initiated;
    Arrives(inCaseTimeout, a, sm.(noDfu := sm.noDfu - 1), DEVICE_TEST_MODE);
    Arrives(inCaseTimeout, a, sm.(noDfu := sm.noDfu - 1), STARTUP);
  }

  lemma ShutdownFollows(inCaseTimeout: bool, a: Answers, sm: Sm)
    requires Fine(inCaseTimeout, sm)
    ensures FollowsDiagram(sm, a, ShutdownPrepare, Step(inCaseTimeout, a, sm, ShutdownPrepare))
  {
    TerminatingIsNamed(sm.state);
    TerminatingIs(sm.state);
    hide SetState, SleepDisciplined, Conserved, WithSubState, ParentAgrees, IsCore, Enterable, IdleNumber, Informed, Settled;
    assert sm.initiated + [] == sm.initiated;
    Arrives(inCaseTimeout, a, sm, WithSubState(sm.state, TERMINATING));
  }

  lemma TerminatingIs(s: Code)
    ensures WithSubState(s, TERMINATING) == (s & 0xE000) | 0x0001
    ensures WithSubState(s, TERMINATING) != FACTORY_RESET && WithSubState(s, TERMINATING) != DFU_CHECK
    ensures WithSubState(s, TERMINATING) != 0x0800
  {
  }

  lemma DfuFollows(inCaseTimeout: bool, a: Answers, sm: Sm, e: Event)
    requires Fine(inCaseTimeout, sm) && (e.EnterDfu? || e.DfuEnded?)
    ensures FollowsDiagram(sm, a, e, Step(inCaseTimeout, a, sm, e))
  {
    hide SetState, SleepDisciplined, Conserved, ParentAgrees;
    assert sm.initiated + [] == sm.initiated;
    Arrives(inCaseTimeout, a, sm, IN_CASE_DFU);
    Arrives(inCaseTimeout, a, sm, STARTUP);
  }

  /** The messages that always lead to startup. */
  lemma CancelFollows(inCaseTimeout: bool, a: Answers, sm: Sm, e: Event)
    requires Fine(inCaseTimeout, sm) && (e.SleepCancelled? || e.ShutdownCancelled? || e.TestEnded?)
    ensures FollowsDiagram(sm, a, e, Step(inCaseTimeout, a, sm, e))
  {
    hide SetState, SleepDisciplined, Conserved, ParentAgrees;
    assert sm.initiated + [] == sm.initiated;
    Arrives(inCaseTimeout, a, sm, STARTUP);
  }

  lemma ResetFollows(inCaseTimeout: bool, a: Answers, sm: Sm)
    requires Fine(inCaseTimeout, sm)
    ensures FollowsDiagram(sm, a, FactoryReset, Step(inCaseTimeout, a, sm, FactoryReset))
  {
    assert sm.initiated + [] == sm.initiated;
    if sm.state >= STARTUP {
      ResetReboots(inCaseTimeout, a, sm);
    }
    hide SetState;
  }

  lemma ResetReboots(inCaseTimeout: bool, a: Answers, sm: Sm)
    requires Encoded(sm)
    ensures SetState(inCaseTimeout, a, sm, FACTORY_RESET).Rebooted?
  {
    hide IsSleepy;
  }

  /** Each message that is delivered leads where the diagram says. */
  lemma StepFollows(inCaseTimeout: bool, a: Answers, sm: Sm, e: Event)
    requires Fine(inCaseTimeout, sm) && Deliverable(sm, e)
    ensures FollowsDiagram(sm, a, e, Step(inCaseTimeout, a, sm, e))
  {
    hide Step, FollowsDiagram;
    match e
    case TopologyStarted(_, _) => StartFollows(inCaseTimeout, a, sm, e);
    case IdleTimeout => TimeoutFollows(inCaseTimeout, a, sm);
    case SleepPrepare => SleepFollows(inCaseTimeout, a, sm);
    case InitDone => InitFollows(inCaseTimeout, a, sm);
    case PairRule => RuleFollows(inCaseTimeout, a, sm);
    case PairHandset => HandsetFollows(inCaseTimeout, a, sm);
    case NoDfuFound => NoDfuFollows(inCaseTimeout, a, sm);
    case ShutdownPrepare => ShutdownFollows(inCaseTimeout, a, sm);
    case FactoryReset => ResetFollows(inCaseTimeout, a, sm);
    case RoleChanged(role) =>
      if ActsOn(sm, a, e) {
        LossFollows(inCaseTimeout, a, sm, e);
      } else {
        RoleFollows(inCaseTimeout, a, sm, role);
      }
    case PhyChanged =>
      if ActsOn(sm, a, e) {
        PlaceFollows(inCaseTimeout, a, sm);
      } else {
        IgnoredFollows(inCaseTimeout, a, sm, e);
      }
    case _ =>
      if ActsOn(sm, a, e) {
        AudioFollows(inCaseTimeout, a, sm, e);
      } else if e.EnterDfu? || e.DfuEnded? {
        DfuFollows(inCaseTimeout, a, sm, e);
      } else if e.SleepCancelled? || e.ShutdownCancelled? || e.TestEnded? {
        CancelFollows(inCaseTimeout, a, sm, e);
      } else if e.AudioChanged? || e.PairConfirm? {
        IgnoredFollows(inCaseTimeout, a, sm, e);
      } else if e.Moved? || e.ProxyPhyEvent? || e.ChargerCompleted? {
        QuietFollows(inCaseTimeout, a, sm, e);
      } else {
        LinkFollows(inCaseTimeout, a, sm, e);
      }
  }

  /** The state diagram: over every run, each message that is delivered leads to the state that the diagram gives for the
      state before it, the place and the answers; it reboots or panics exactly where the diagram says; and the role, the
      place that it knows of, the initiated actions, the disconnect lock with its timeouts, and the flag for pairing by
      the user are as it says. */
  lemma RunsFollowDiagram(inCaseTimeout: bool, actual: Phy, run: seq<Delivery>, d: Delivery)
    requires Run(inCaseTimeout, Start(actual), run).Running?
    requires Deliverable(Run(inCaseTimeout, Start(actual), run).sm, d.event)
    ensures var sm := Run(inCaseTimeout, Start(actual), run).sm;
            FollowsDiagram(sm, d.answers, d.event, Run(inCaseTimeout, Start(actual), run + [d]))
  {
    hide Step, Fine, FollowsDiagram, Deliverable;
    assert (run + [d])[..|run + [d]| - 1] == run;
    RunsAreFine(inCaseTimeout, actual, run);
    StepFollows(inCaseTimeout, d.answers, Run(inCaseTimeout, Start(actual), run).sm, d.event);
  }
}
