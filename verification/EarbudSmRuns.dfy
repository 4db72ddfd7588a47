/** What holds over every run of the application state machine. */
module EarbudSmRuns {
  import opened EarbudSmSpec

  // ---------------------------------------------------------------- the encoding

  predicate PowerOfTwo(x: Code) {
    x != 0 && x & (x - 1) == 0
  }

  /** At most one parent bit, and exactly one substate bit except in the null state. */
  predicate WellEncoded(s: Code) {
    && (s & !SUBSTATE_MASK == 0 || PowerOfTwo(s & !SUBSTATE_MASK))
    && (s == NULL || PowerOfTwo(SubState(s)))
  }

  lemma NamedIsWellEncoded(s: Code)
    requires Named(s)
    ensures WellEncoded(s)
  {
  }

  /** Shutdown can be asked for in any state, and always leads to a named one. */
  lemma TerminatingIsNamed(s: Code)
    requires Named(s)
    ensures Enterable(WithSubState(s, TERMINATING)) && IsTerminating(WithSubState(s, TERMINATING))
    ensures StateInCase(WithSubState(s, TERMINATING)) == StateInCase(s)
    ensures StateOutOfCase(WithSubState(s, TERMINATING)) == StateOutOfCase(s)
    ensures StateInEar(WithSubState(s, TERMINATING)) == StateInEar(s)
  {
  }

  /** What the bit tests say of the named states. */
  lemma SleepyStates(s: Code)
    requires Named(s)
    ensures IsSleepy(s) <==> s == IN_CASE_SOPORIFIC || s == IN_CASE_SOPORIFIC_TERMINATING
                             || s == OUT_OF_CASE_SOPORIFIC || s == OUT_OF_CASE_SOPORIFIC_TERMINATING
  {
  }

  lemma CoreStates(s: Code)
    requires Named(s)
    ensures IsCore(s) <==> s == IN_CASE_IDLE || s == IN_CASE_SOPORIFIC || s == OUT_OF_CASE_IDLE || s == OUT_OF_CASE_BUSY
                           || s == OUT_OF_CASE_SOPORIFIC || s == IN_EAR_IDLE || s == IN_EAR_BUSY
  {
  }

  // ---------------------------------------------------------------- the invariant

  /** A running machine is in a named state; factory reset ends in a reboot. */
  predicate Encoded(sm: Sm) {
    Enterable(sm.state) && sm.state != FACTORY_RESET
  }

  /** A held disconnect lock will be released: the timeout is pending. */
  predicate LockTimed(sm: Sm) {
    sm.lock ==> sm.linkTimeouts > 0
  }

  /** Every action that was initiated was performed once, in order, or is still waiting. */
  predicate Conserved(sm: Sm) {
    sm.initiated == sm.performed + sm.completions
  }

  /** Allow and prohibit alternate, starting with allow, and sleep is allowed exactly in the sleepy states. */
  predicate SleepDisciplined(sm: Sm) {
    && (forall i | 0 <= i < |sm.power| :: sm.power[i] == (i % 2 == 0))
    && (IsSleepy(sm.state) <==> |sm.power| % 2 == 1)
  }

  function ExpectedTimers(s: Code): nat {
    if s == OUT_OF_CASE_IDLE then 1 else 0
  }

  /** Without the in-case timeout there is one idle timer in OUT_OF_CASE_IDLE and none elsewhere. */
  predicate Timed(inCaseTimeout: bool, sm: Sm) {
    !inCaseTimeout ==> sm.idleTimers == ExpectedTimers(sm.state)
  }

  predicate Good(inCaseTimeout: bool, sm: Sm) {
    Encoded(sm) && LockTimed(sm) && Conserved(sm) && SleepDisciplined(sm) && Timed(inCaseTimeout, sm)
  }

  predicate SamePhy(x: Sm, y: Sm) {
    x.phy == y.phy && x.actual == y.actual && x.registered == y.registered && x.inds == y.inds
  }

  // ---------------------------------------------------------------- appSmSetState

  lemma InitiateKeeps(sm: Sm, bredrConnected: bool, action: Action)
    requires Conserved(sm)
    ensures LockTimed(Initiate(sm, bredrConnected, action)) && Conserved(Initiate(sm, bredrConnected, action))
  {
    assert sm.performed + sm.completions + [action] == sm.performed + (sm.completions + [action]);
  }

  lemma ShiftSleeps(sm: Sm, next: Code)
    requires SleepDisciplined(sm)
    ensures SleepDisciplined(Shift(sm, next))
  {
  }

  lemma LeaveKeeps(inCaseTimeout: bool, sm: Sm)
    requires Encoded(sm) && LockTimed(sm) && Conserved(sm) && SleepDisciplined(sm)
    requires !inCaseTimeout ==> sm.idleTimers <= ExpectedTimers(sm.state)
    ensures match Leave(sm)
            case Running(r) => LockTimed(r) && Conserved(r) && SleepDisciplined(r) && r.state == sm.state && SamePhy(sm, r)
                               && r.role == sm.role && (!inCaseTimeout ==> r.idleTimers == 0)
            case _ => false
  {
    hide IsSleepy;
  }

  lemma ArriveKeeps(inCaseTimeout: bool, a: Answers, sm: Sm)
    requires Enterable(sm.state) && LockTimed(sm) && Conserved(sm) && SleepDisciplined(sm)
    requires !inCaseTimeout ==> sm.idleTimers == 0
    ensures match Arrive(inCaseTimeout, a, sm)
            case Running(r) => Good(inCaseTimeout, r) && r.state == sm.state && SamePhy(sm, r) && r.role == sm.role
            case Rebooted(_) => sm.state == FACTORY_RESET
            case Panicked(_) => false
  {
    InitiateKeeps(sm, a.bredrConnected, Pairing);
    hide IsSleepy, Conserved;
  }

  /** Every transition to a named state keeps the invariant; the timer of the state that is left may be missing,
      because it has just fired. */
  lemma PlainKeeps(inCaseTimeout: bool, a: Answers, sm: Sm, next: Code)
    requires Encoded(sm) && LockTimed(sm) && Conserved(sm) && SleepDisciplined(sm) && Enterable(next)
    requires !inCaseTimeout ==> sm.idleTimers <= ExpectedTimers(sm.state)
    ensures match Plain(inCaseTimeout, a, sm, next)
            case Running(r) => Good(inCaseTimeout, r) && r.state == next && SamePhy(sm, r) && r.role == sm.role
            case Rebooted(_) => next == FACTORY_RESET
            case Panicked(_) => false
  {
    hide Leave, Arrive, SleepDisciplined, IsSleepy, Enterable, Good;
    LeaveKeeps(inCaseTimeout, sm);
    var left := Leave(sm).sm;
    ShiftSleeps(left, next);
    ArriveKeeps(inCaseTimeout, a, Shift(left, next));
  }

  function Target(a: Answers, next: Code): Code {
    if next == DFU_CHECK && a.reason != NormalBoot then STARTUP else next
  }

  lemma SetStateKeeps(inCaseTimeout: bool, a: Answers, sm: Sm, next: Code)
    requires Encoded(sm) && LockTimed(sm) && Conserved(sm) && SleepDisciplined(sm) && Enterable(next)
    requires !inCaseTimeout ==> sm.idleTimers <= ExpectedTimers(sm.state)
    ensures match SetState(inCaseTimeout, a, sm, next)
            case Running(r) => Good(inCaseTimeout, r) && r.state == Target(a, next) && SamePhy(sm, r) && r.role == sm.role
            case Rebooted(_) => next == FACTORY_RESET
            case Panicked(_) => false
  {
    hide Plain, SleepDisciplined, Conserved;
    PlainKeeps(inCaseTimeout, a, sm, next);
    if Plain(inCaseTimeout, a, sm, next).Running? {
      PlainKeeps(inCaseTimeout, a, Plain(inCaseTimeout, a, sm, next).sm, STARTUP);
    }
  }

  // ---------------------------------------------------------------- physical state

  /** The parent bits of the state agree with the physical state. */
  predicate ParentAgrees(s: Code, phy: Phy) {
    match phy
    case Unknown => StateInCase(s) && !StateOutOfCase(s) && !StateInEar(s)
    case InCase => StateInCase(s) && !StateOutOfCase(s) && !StateInEar(s)
    case OutOfEar => StateOutOfCase(s) && !StateInCase(s) && !StateInEar(s)
    case OutOfEarAtRest => StateOutOfCase(s) && !StateInCase(s) && !StateInEar(s)
    case InEar => StateInEar(s) && !StateInCase(s) && !StateOutOfCase(s)
  }

  lemma CoreStateAgrees(phy: Phy, busy: bool)
    ensures ParentAgrees(CoreState(phy, busy), phy) && IsCore(CoreState(phy, busy))
    ensures Enterable(CoreState(phy, busy)) && CoreState(phy, busy) != FACTORY_RESET && CoreState(phy, busy) != DFU_CHECK
  {
  }

  /** The last indication on its way tells the actual state; with none on its way the machine knows it. */
  predicate Informed(sm: Sm) {
    && (sm.inds != [] ==> sm.registered && sm.inds[|sm.inds| - 1] == sm.actual)
    && (forall i | 0 <= i < |sm.inds| :: sm.inds[i] != Unknown)
    && (sm.registered && sm.inds == [] ==> sm.phy == sm.actual)
  }

  /** With no indication on its way, a core state agrees with the actual physical state. */
  predicate Settled(sm: Sm) {
    sm.registered && sm.inds == [] && IsCore(sm.state) ==> ParentAgrees(sm.state, sm.actual)
  }

  predicate Fine(inCaseTimeout: bool, sm: Sm) {
    Good(inCaseTimeout, sm) && Informed(sm) && Settled(sm)
  }

  /** The panics that only messages from modules not shown here can cause, and the one that the in-case timeout
      makes possible. */
  predicate Blameless(inCaseTimeout: bool, why: Why) {
    why == UnexpectedSleep || why == UnexpectedInit || why == NoPhysicalState
    || (why == UnexpectedIdleTimeout && inCaseTimeout)
  }

  predicate FineOutcome(inCaseTimeout: bool, r: Outcome) {
    match r
    case Running(sm) => Fine(inCaseTimeout, sm)
    case Rebooted(_) => true
    case Panicked(why) => Blameless(inCaseTimeout, why)
  }

  /** To a state that is not core, or that agrees. */
  lemma GoesTo(inCaseTimeout: bool, a: Answers, sm: Sm, next: Code)
    requires Encoded(sm) && LockTimed(sm) && Conserved(sm) && SleepDisciplined(sm) && Informed(sm) && Enterable(next)
    requires !inCaseTimeout ==> sm.idleTimers <= ExpectedTimers(sm.state)
    requires !IsCore(next) || (sm.registered && sm.inds == [] ==> ParentAgrees(next, sm.actual))
    ensures FineOutcome(inCaseTimeout, SetState(inCaseTimeout, a, sm, next))
  {
    SetStateKeeps(inCaseTimeout, a, sm, next);
    hide SetState, Good, SleepDisciplined, Conserved, Enterable;
    assert !IsCore(STARTUP);
  }

  lemma GoesToCore(inCaseTimeout: bool, a: Answers, sm: Sm)
    requires Good(inCaseTimeout, sm) && Informed(sm)
    ensures FineOutcome(inCaseTimeout, SetCoreState(inCaseTimeout, a, sm))
  {
    CoreStateAgrees(sm.phy, a.busy);
    hide CoreState, SetState, IsCore, ParentAgrees, Enterable, SleepDisciplined, Conserved;
    if CoreState(sm.phy, a.busy) != sm.state {
      GoesTo(inCaseTimeout, a, sm, CoreState(sm.phy, a.busy));
    }
  }

  lemma PhyStepKeeps(inCaseTimeout: bool, a: Answers, sm: Sm)
    requires Fine(inCaseTimeout, sm) && sm.inds != []
    ensures FineOutcome(inCaseTimeout, OnPhyChanged(inCaseTimeout, a, sm))
  {
    var seen := sm.(phy := sm.inds[0], inds := sm.inds[1..]);
    assert Informed(seen) by {
      if seen.inds != [] {
        assert seen.inds[|seen.inds| - 1] == sm.inds[|sm.inds| - 1];
      }
    }
    GoesToCore(inCaseTimeout, a, seen);
    hide SetCoreState, SleepDisciplined, Conserved, Encoded, ParentAgrees;
  }

  /** Every message keeps the machine fine, or stops it for a reason outside. */
  lemma StepKeeps(inCaseTimeout: bool, a: Answers, sm: Sm, e: Event)
    requires Fine(inCaseTimeout, sm) && Deliverable(sm, e)
    ensures FineOutcome(inCaseTimeout, Step(inCaseTimeout, a, sm, e))
  {
    match e
    case PhyChanged => PhyStepKeeps(inCaseTimeout, a, sm);
    case AudioChanged => GoesToCore(inCaseTimeout, a, sm);
    case PairConfirm => GoesToCore(inCaseTimeout, a, sm);
    case Moved(phy) => MoveKeeps(inCaseTimeout, sm, phy);
    case TopologyStarted(success, role) => TopologyStartedKeeps(inCaseTimeout, a, sm, success, role);
    case RoleChanged(role) => RoleKeeps(inCaseTimeout, a, sm, role);
    case IdleTimeout => IdleTimeoutKeeps(inCaseTimeout, a, sm);
    case HandsetsToDelete => InitiateKeeps(sm, a.bredrConnected, DeleteHandsets);
    case LinkComplete => LinkCompleteKeeps(inCaseTimeout, sm);
    case _ => TransitionKeeps(inCaseTimeout, a, sm, e);
  }

  lemma MoveKeeps(inCaseTimeout: bool, sm: Sm, phy: Phy)
    requires Fine(inCaseTimeout, sm) && phy != Unknown
    ensures Fine(inCaseTimeout, OnMoved(sm, phy))
  {
    hide ParentAgrees, IsCore, IsSleepy;
  }

  lemma RoleKeeps(inCaseTimeout: bool, a: Answers, sm: Sm, role: Role)
    requires Fine(inCaseTimeout, sm)
    ensures FineOutcome(inCaseTimeout, OnRole(inCaseTimeout, a, sm, role))
  {
    hide SetCoreState, Good, Informed, Settled, IsCore;
    RoleIsIrrelevant(inCaseTimeout, sm, NoRole);
    RoleIsIrrelevant(inCaseTimeout, sm, Primary);
    RoleIsIrrelevant(inCaseTimeout, sm, Secondary);
    GoesToCore(inCaseTimeout, a, sm.(role := Secondary));
  }

  lemma RoleIsIrrelevant(inCaseTimeout: bool, sm: Sm, role: Role)
    requires Fine(inCaseTimeout, sm)
    ensures Fine(inCaseTimeout, sm.(role := role))
  {
    hide ParentAgrees, IsCore, IsSleepy;
  }

  lemma TopologyStartedKeeps(inCaseTimeout: bool, a: Answers, sm: Sm, success: bool, role: Role)
    requires Fine(inCaseTimeout, sm)
    ensures FineOutcome(inCaseTimeout, OnTopologyStarted(inCaseTimeout, a, sm, success, role))
  {
    InitialCoreKeeps(inCaseTimeout, a, sm);
    hide InitialCore, OnRole, Fine;
    var r := InitialCore(inCaseTimeout, a, sm);
    if sm.state == STARTUP && r.Running? {
      RoleKeeps(inCaseTimeout, a, r.sm, role);
    }
  }

  lemma InitialCoreKeeps(inCaseTimeout: bool, a: Answers, sm: Sm)
    requires Fine(inCaseTimeout, sm)
    ensures FineOutcome(inCaseTimeout, InitialCore(inCaseTimeout, a, sm))
  {
    if sm.actual != Unknown {
      GoesToCore(inCaseTimeout, a, sm.(registered := true, phy := sm.actual));
    }
    hide SetCoreState, SleepDisciplined, Conserved, ParentAgrees;
  }

  lemma IdleTimeoutKeeps(inCaseTimeout: bool, a: Answers, sm: Sm)
    requires Fine(inCaseTimeout, sm) && sm.idleTimers > 0
    ensures FineOutcome(inCaseTimeout, OnIdleTimeout(inCaseTimeout, a, sm))
  {
    var taken := sm.(idleTimers := sm.idleTimers - 1);
    assert ParentAgrees(IN_CASE_IDLE, sm.actual) ==> ParentAgrees(IN_CASE_SOPORIFIC, sm.actual);
    assert ParentAgrees(OUT_OF_CASE_IDLE, sm.actual) ==> ParentAgrees(OUT_OF_CASE_SOPORIFIC, sm.actual);
    assert IsCore(IN_CASE_IDLE) && IsCore(OUT_OF_CASE_IDLE);
    hide SetState, SleepDisciplined, Conserved, ParentAgrees;
    if sm.state == IN_CASE_IDLE {
      GoesTo(inCaseTimeout, a, taken, IN_CASE_SOPORIFIC);
    } else if sm.state == OUT_OF_CASE_IDLE {
      GoesTo(inCaseTimeout, a, taken, OUT_OF_CASE_SOPORIFIC);
    }
  }

  lemma LinkCompleteKeeps(inCaseTimeout: bool, sm: Sm)
    requires Fine(inCaseTimeout, sm) && sm.completions != [] && !sm.lock
    ensures Fine(inCaseTimeout, OnLinkComplete(sm))
  {
    var c := sm.completions;
    assert sm.performed + c == (sm.performed + [c[0]]) + c[1..];
    hide SleepDisciplined, Encoded, ParentAgrees, IsCore;
  }

  /** The messages that lead to a state outside the core, or change nothing that the invariant speaks of. */
  predicate IsTransition(e: Event) {
    !(e.PhyChanged? || e.AudioChanged? || e.PairConfirm? || e.Moved? || e.TopologyStarted? || e.RoleChanged?
      || e.IdleTimeout? || e.HandsetsToDelete? || e.LinkComplete?)
  }

  lemma NoDfuKeeps(inCaseTimeout: bool, a: Answers, sm: Sm)
    requires Fine(inCaseTimeout, sm) && sm.noDfu > 0
    ensures FineOutcome(inCaseTimeout, OnNoDfu(inCaseTimeout, a, sm))
  {
    hide SetState, ParentAgrees, IsSleepy;
    GoesTo(inCaseTimeout, a, sm.(noDfu := sm.noDfu - 1), DEVICE_TEST_MODE);
    GoesTo(inCaseTimeout, a, sm.(noDfu := sm.noDfu - 1), STARTUP);
  }

  lemma PairingKeeps(inCaseTimeout: bool, a: Answers, sm: Sm)
    requires Fine(inCaseTimeout, sm)
    ensures FineOutcome(inCaseTimeout, OnPairRule(inCaseTimeout, a, sm))
    ensures FineOutcome(inCaseTimeout, OnPairHandset(inCaseTimeout, a, sm))
  {
    hide SetState, ParentAgrees, IsSleepy;
    GoesTo(inCaseTimeout, a, sm.(userPairing := false), HANDSET_PAIRING);
    GoesTo(inCaseTimeout, a, sm.(userPairing := true), HANDSET_PAIRING);
  }

  lemma SleepPrepareKeeps(inCaseTimeout: bool, a: Answers, sm: Sm)
    requires Fine(inCaseTimeout, sm)
    ensures FineOutcome(inCaseTimeout, OnSleepPrepare(inCaseTimeout, a, sm))
  {
    hide SetState, SleepDisciplined, Conserved, ParentAgrees;
    GoesTo(inCaseTimeout, a, sm, IN_CASE_SOPORIFIC_TERMINATING);
    GoesTo(inCaseTimeout, a, sm, OUT_OF_CASE_SOPORIFIC_TERMINATING);
  }

  lemma ShutdownKeeps(inCaseTimeout: bool, a: Answers, sm: Sm)
    requires Fine(inCaseTimeout, sm)
    ensures FineOutcome(inCaseTimeout, SetState(inCaseTimeout, a, sm, WithSubState(sm.state, TERMINATING)))
  {
    TerminatingIsNamed(sm.state);
    NotCore(sm.state);
    hide SetState, SleepDisciplined, Conserved, ParentAgrees;
    GoesTo(inCaseTimeout, a, sm, WithSubState(sm.state, TERMINATING));
  }

  lemma NotCore(s: Code)
    ensures !IsCore(WithSubState(s, TERMINATING)) && WithSubState(s, TERMINATING) != HANDSET_PAIRING
  {
  }

  lemma InitDoneKeeps(inCaseTimeout: bool, a: Answers, sm: Sm)
    requires Fine(inCaseTimeout, sm)
    ensures FineOutcome(inCaseTimeout, OnInitDone(inCaseTimeout, a, sm))
  {
    hide SetState, ParentAgrees, IsSleepy;
    GoesTo(inCaseTimeout, a, sm, DFU_CHECK);
  }

  lemma FactoryResetKeeps(inCaseTimeout: bool, a: Answers, sm: Sm)
    requires Fine(inCaseTimeout, sm)
    ensures FineOutcome(inCaseTimeout, OnFactoryReset(inCaseTimeout, a, sm))
  {
    hide SetState, ParentAgrees, IsSleepy;
    GoesTo(inCaseTimeout, a, sm, FACTORY_RESET);
  }

  /** The messages after which the machine is in the same state. */
  lemma QuietKeeps(inCaseTimeout: bool, a: Answers, sm: Sm, e: Event)
    requires Fine(inCaseTimeout, sm) && Deliverable(sm, e)
    requires e.ProxyPhyEvent? || e.ChargerCompleted? || e.HandsetDisconnected? || e.LinkTimeout?
    ensures FineOutcome(inCaseTimeout, Step(inCaseTimeout, a, sm, e))
  {
    hide ParentAgrees, IsSleepy, IsCore;
  }

  lemma TransitionKeeps(inCaseTimeout: bool, a: Answers, sm: Sm, e: Event)
    requires Fine(inCaseTimeout, sm) && Deliverable(sm, e) && IsTransition(e)
    ensures FineOutcome(inCaseTimeout, Step(inCaseTimeout, a, sm, e))
  {
    hide SetState, ParentAgrees, IsSleepy, OnNoDfu, OnPairRule, OnPairHandset, OnSleepPrepare, OnInitDone, OnFactoryReset;
    match e
    case InitDone => InitDoneKeeps(inCaseTimeout, a, sm);
    case NoDfuFound => NoDfuKeeps(inCaseTimeout, a, sm);
    case PairRule => PairingKeeps(inCaseTimeout, a, sm);
    case PairHandset => PairingKeeps(inCaseTimeout, a, sm);
    case EnterDfu(_) => GoesTo(inCaseTimeout, a, sm, IN_CASE_DFU);
    case FactoryReset => FactoryResetKeeps(inCaseTimeout, a, sm);
    case SleepPrepare => SleepPrepareKeeps(inCaseTimeout, a, sm);
    case ShutdownPrepare => ShutdownKeeps(inCaseTimeout, a, sm);
    case ProxyPhyEvent => QuietKeeps(inCaseTimeout, a, sm, e);
    case ChargerCompleted => QuietKeeps(inCaseTimeout, a, sm, e);
    case HandsetDisconnected => QuietKeeps(inCaseTimeout, a, sm, e);
    case LinkTimeout => QuietKeeps(inCaseTimeout, a, sm, e);
    case _ => GoesTo(inCaseTimeout, a, sm, STARTUP);
  }

  // ---------------------------------------------------------------- every run

  lemma StartIsFine(inCaseTimeout: bool, actual: Phy)
    ensures Fine(inCaseTimeout, Start(actual))
  {
  }

  /** Over all runs: the state stays encoded as a named one, so no unsupported state is ever entered or left; a held
      disconnect lock has its timeout pending; every initiated disconnection is performed once or still waiting;
      sleep is allowed exactly in the sleepy states, by alternating calls; without the in-case timeout exactly one
      idle timer is pending in OUT_OF_CASE_IDLE and none elsewhere, so it cannot fire in a wrong state; and a
      core state agrees with the actual physical state when no indication is on its way. */
  lemma {:induction false} RunsAreFine(inCaseTimeout: bool, actual: Phy, run: seq<Delivery>)
    ensures FineOutcome(inCaseTimeout, Run(inCaseTimeout, Start(actual), run))
    decreases |run|
  {
    if run == [] {
      StartIsFine(inCaseTimeout, actual);
    } else {
      var d := run[|run| - 1];
      RunsAreFine(inCaseTimeout, actual, run[..|run| - 1]);
      hide Step, Fine;
      match Run(inCaseTimeout, Start(actual), run[..|run| - 1])
      case Running(before) =>
        if Deliverable(before, d.event) {
          StepKeeps(inCaseTimeout, d.answers, before, d.event);
        }
      case _ =>
    }
  }

  /** State encoding is closed. */
  lemma EncodingIsClosed(inCaseTimeout: bool, actual: Phy, run: seq<Delivery>)
    ensures match Run(inCaseTimeout, Start(actual), run)
            case Running(sm) => Enterable(sm.state) && WellEncoded(sm.state)
            case Rebooted(_) => true
            case Panicked(why) => why != UnsupportedState && why != LeftFactoryReset
  {
    RunsAreFine(inCaseTimeout, actual, run);
    hide Run;
    if Run(inCaseTimeout, Start(actual), run).Running? {
      NamedIsWellEncoded(Run(inCaseTimeout, Start(actual), run).sm.state);
    }
  }

  // ---------------------------------------------------------------- when core states can be trusted

  /** The machine loses the primary role before topology has started for the first time. */
  predicate EarlyLoss(sm: Sm, e: Event) {
    !sm.registered && sm.role == Primary && e == RoleChanged(Secondary)
  }

  /** The loss is not ignored: DFU keeps the machine where it is. */
  predicate Acts(sm: Sm, a: Answers, e: Event) {
    EarlyLoss(sm, e) && a.reason != DfuReset && sm.state != IN_CASE_DFU
  }

  /** Until it has registered for physical state changes, the machine is not in a core state nor pairing. */
  predicate Reticent(sm: Sm) {
    !sm.registered ==> !IsCore(sm.state) && sm.state != HANDSET_PAIRING
  }

  ghost predicate NoLossActs(inCaseTimeout: bool, actual: Phy, run: seq<Delivery>) {
    forall i | 0 <= i < |run| :: !ActsAfter(inCaseTimeout, actual, run[..i], run[i])
  }

  predicate ActsAfter(inCaseTimeout: bool, actual: Phy, run: seq<Delivery>, d: Delivery) {
    match Run(inCaseTimeout, Start(actual), run)
    case Running(before) => Acts(before, d.answers, d.event)
    case _ => false
  }

  /** Where a transition lands, whatever the machine was like. */
  lemma Lands(inCaseTimeout: bool, a: Answers, sm: Sm, next: Code)
    ensures var r := SetState(inCaseTimeout, a, sm, next);
            r.Running? ==> r.sm.state == Target(a, next) && r.sm.registered == sm.registered
  {
    hide IsSleepy, Enterable;
  }

  lemma LandsReticently(inCaseTimeout: bool, a: Answers, sm: Sm, next: Code)
    requires !IsCore(next) && next != HANDSET_PAIRING
    ensures var r := SetState(inCaseTimeout, a, sm, next); r.Running? ==> Reticent(r.sm)
  {
    Lands(inCaseTimeout, a, sm, next);
  }

  lemma ReticentStart(inCaseTimeout: bool, a: Answers, sm: Sm, success: bool, role: Role)
    requires Fine(inCaseTimeout, sm)
    ensures var r := OnTopologyStarted(inCaseTimeout, a, sm, success, role);
            r.Running? ==> r.sm.registered || (r.sm == sm)
  {
    hide SetState, ParentAgrees, SleepDisciplined, Conserved;
    if sm.state == STARTUP && sm.actual != Unknown {
      var known := sm.(registered := true, phy := sm.actual);
      Lands(inCaseTimeout, a, known, CoreState(known.phy, a.busy));
      var r := SetCoreState(inCaseTimeout, a, known);
      if r.Running? {
        Lands(inCaseTimeout, a, r.sm.(role := Secondary), CoreState(r.sm.phy, a.busy));
      }
    }
  }

  lemma CoreStaysRegistered(inCaseTimeout: bool, a: Answers, sm: Sm)
    ensures var r := SetCoreState(inCaseTimeout, a, sm); r.Running? ==> r.sm.registered == sm.registered
  {
    Lands(inCaseTimeout, a, sm, CoreState(sm.phy, a.busy));
    hide SetState, CoreState;
  }

  lemma TopologyStaysRegistered(inCaseTimeout: bool, a: Answers, sm: Sm, success: bool, role: Role)
    requires sm.registered
    ensures var r := OnTopologyStarted(inCaseTimeout, a, sm, success, role); r.Running? ==> r.sm.registered
  {
    var known := sm.(registered := true, phy := sm.actual);
    CoreStaysRegistered(inCaseTimeout, a, known);
    var r := SetCoreState(inCaseTimeout, a, known);
    if r.Running? {
      CoreStaysRegistered(inCaseTimeout, a, r.sm.(role := Secondary));
    }
    hide SetCoreState, IsCore;
  }

  lemma TransitionStaysRegistered(inCaseTimeout: bool, a: Answers, sm: Sm, e: Event)
    requires Deliverable(sm, e) && sm.registered && (IsTransition(e) || e.IdleTimeout?)
    ensures var r := Step(inCaseTimeout, a, sm, e); r.Running? ==> r.sm.registered
  {
    hide SetState, CoreState, IsCore, IsIdle, WithSubState;
    forall x: Sm, next: Code | x.registered
      ensures var r := SetState(inCaseTimeout, a, x, next); r.Running? ==> r.sm.registered
    {
      Lands(inCaseTimeout, a, x, next);
    }
  }

  lemma RegisteredForGood(inCaseTimeout: bool, a: Answers, sm: Sm, e: Event)
    requires Deliverable(sm, e) && sm.registered
    ensures var r := Step(inCaseTimeout, a, sm, e); r.Running? ==> r.sm.registered
  {
    hide SetState, SetCoreState, OnTopologyStarted, IsCore, Initiate, OnLinkComplete;
    if IsTransition(e) || e.IdleTimeout? {
      TransitionStaysRegistered(inCaseTimeout, a, sm, e);
    } else if e.TopologyStarted? {
      TopologyStaysRegistered(inCaseTimeout, a, sm, e.success, e.role);
    } else if e.PhyChanged? {
      CoreStaysRegistered(inCaseTimeout, a, sm.(phy := sm.inds[0], inds := sm.inds[1..]));
    } else if e.RoleChanged? {
      CoreStaysRegistered(inCaseTimeout, a, sm.(role := Secondary));
    } else if e.AudioChanged? || e.PairConfirm? {
      CoreStaysRegistered(inCaseTimeout, a, sm);
    } else {
      OthersStayRegistered(inCaseTimeout, a, sm, e);
    }
  }

  lemma OthersStayRegistered(inCaseTimeout: bool, a: Answers, sm: Sm, e: Event)
    requires Deliverable(sm, e) && (e.Moved? || e.HandsetsToDelete? || e.LinkComplete?)
    ensures var r := Step(inCaseTimeout, a, sm, e); r.Running? ==> r.sm.registered == sm.registered
  {
  }

  /** Without core and pairing states, what remains of the handlers. */
  lemma ReticentTransition(inCaseTimeout: bool, a: Answers, sm: Sm, e: Event)
    requires Deliverable(sm, e) && Reticent(sm) && !sm.registered && IsTransition(e) && Named(sm.state)
    ensures var r := Step(inCaseTimeout, a, sm, e); r.Running? ==> Reticent(r.sm)
  {
    hide SetState, IsCore, IsIdle, WithSubState, Named, Enterable, OnNoDfu, OnPairHandset, OnPairRule, OnSleepPrepare;
    if e.NoDfuFound? {
      ReticentNoDfu(inCaseTimeout, a, sm);
    } else if e.PairRule? || e.PairHandset? || e.SleepPrepare? {
      ReticentRefusals(inCaseTimeout, a, sm);
    } else {
      NotCore(sm.state);
      ReticentLanding(inCaseTimeout, a, sm, e);
    }
  }

  /** Pairing and sleep need a core state. */
  lemma ReticentRefusals(inCaseTimeout: bool, a: Answers, sm: Sm)
    requires Named(sm.state) && !IsCore(sm.state)
    ensures OnPairRule(inCaseTimeout, a, sm) == Running(sm) == OnPairHandset(inCaseTimeout, a, sm)
    ensures OnSleepPrepare(inCaseTimeout, a, sm).Panicked?
  {
  }

  lemma ReticentLanding(inCaseTimeout: bool, a: Answers, sm: Sm, e: Event)
    requires Deliverable(sm, e) && Reticent(sm) && !sm.registered && IsTransition(e) && !e.NoDfuFound?
    requires !e.PairRule? && !e.PairHandset? && !e.SleepPrepare?
    ensures var r := Step(inCaseTimeout, a, sm, e); r.Running? ==> Reticent(r.sm)
  {
    hide SetState, IsCore, Target;
    match e
    case InitDone => LandsOutside(inCaseTimeout, a, sm, DFU_CHECK);
    case EnterDfu(_) => LandsOutside(inCaseTimeout, a, sm, IN_CASE_DFU);
    case FactoryReset => LandsOutside(inCaseTimeout, a, sm, FACTORY_RESET);
    case ShutdownPrepare =>
      NotCore(sm.state);
      LandsReticently(inCaseTimeout, a, sm, WithSubState(sm.state, TERMINATING));
    case _ => LandsOutside(inCaseTimeout, a, sm, STARTUP);
  }

  lemma LandsOutside(inCaseTimeout: bool, a: Answers, sm: Sm, next: Code)
    requires next == DFU_CHECK || next == IN_CASE_DFU || next == FACTORY_RESET || next == STARTUP
    ensures var r := SetState(inCaseTimeout, a, sm, next); r.Running? ==> Reticent(r.sm)
  {
    hide SetState;
    LandsReticently(inCaseTimeout, a, sm, next);
  }

  lemma ReticentNoDfu(inCaseTimeout: bool, a: Answers, sm: Sm)
    requires Reticent(sm) && sm.noDfu > 0
    ensures var r := OnNoDfu(inCaseTimeout, a, sm); r.Running? ==> Reticent(r.sm)
  {
    hide SetState;
    LandsReticently(inCaseTimeout, a, sm.(noDfu := sm.noDfu - 1), STARTUP);
    LandsReticently(inCaseTimeout, a, sm.(noDfu := sm.noDfu - 1), DEVICE_TEST_MODE);
  }

  lemma ReticentRole(inCaseTimeout: bool, a: Answers, sm: Sm, role: Role)
    requires Reticent(sm) && !Acts(sm, a, RoleChanged(role)) && !sm.registered
    ensures var r := OnRole(inCaseTimeout, a, sm, role); r.Running? ==> Reticent(r.sm)
  {
    hide SetCoreState, IsCore;
  }

  lemma ReticentQuiet(inCaseTimeout: bool, a: Answers, sm: Sm, e: Event)
    requires Deliverable(sm, e) && Reticent(sm) && !sm.registered && !IsTransition(e)
    requires !e.TopologyStarted? && !e.RoleChanged? && !e.IdleTimeout? && Informed(sm)
    ensures var r := Step(inCaseTimeout, a, sm, e); r.Running? ==> Reticent(r.sm)
  {
    hide SetCoreState, IsCore;
  }

  lemma ReticentOther(inCaseTimeout: bool, a: Answers, sm: Sm, e: Event)
    requires Deliverable(sm, e) && Reticent(sm) && !sm.registered && !IsTransition(e) && !e.TopologyStarted?
    requires Named(sm.state) && Informed(sm) && !Acts(sm, a, e)
    ensures var r := Step(inCaseTimeout, a, sm, e); r.Running? ==> Reticent(r.sm)
  {
    if e.RoleChanged? {
      ReticentRole(inCaseTimeout, a, sm, e.role);
    } else if e.IdleTimeout? {
      CoreStates(sm.state);
      NoTimeoutState(inCaseTimeout, a, sm);
    } else {
      ReticentQuiet(inCaseTimeout, a, sm, e);
    }
    hide OnRole, OnIdleTimeout, SetCoreState, SetState, IsCore, Reticent;
  }

  lemma NoTimeoutState(inCaseTimeout: bool, a: Answers, sm: Sm)
    requires sm.idleTimers > 0 && sm.state != IN_CASE_IDLE && sm.state != OUT_OF_CASE_IDLE
    ensures OnIdleTimeout(inCaseTimeout, a, sm) == Panicked(UnexpectedIdleTimeout)
  {
  }

  lemma ReticentStep(inCaseTimeout: bool, a: Answers, sm: Sm, e: Event)
    requires Fine(inCaseTimeout, sm) && Deliverable(sm, e) && Reticent(sm) && !Acts(sm, a, e)
    ensures var r := Step(inCaseTimeout, a, sm, e); r.Running? ==> Reticent(r.sm)
  {
    hide Step, Reticent;
    if sm.registered {
      RegisteredForGood(inCaseTimeout, a, sm, e);
      RegisteredIsReticent(inCaseTimeout, a, sm, e);
    } else if IsTransition(e) {
      ReticentTransition(inCaseTimeout, a, sm, e);
    } else if e.TopologyStarted? {
      ReticentStartStep(inCaseTimeout, a, sm, e);
    } else {
      ReticentOther(inCaseTimeout, a, sm, e);
    }
  }

  lemma RegisteredIsReticent(inCaseTimeout: bool, a: Answers, sm: Sm, e: Event)
    requires Deliverable(sm, e)
    ensures var r := Step(inCaseTimeout, a, sm, e); r.Running? && r.sm.registered ==> Reticent(r.sm)
  {
    hide Step;
  }

  lemma ReticentStartStep(inCaseTimeout: bool, a: Answers, sm: Sm, e: Event)
    requires Fine(inCaseTimeout, sm) && Deliverable(sm, e) && Reticent(sm) && e.TopologyStarted?
    ensures var r := Step(inCaseTimeout, a, sm, e); r.Running? ==> Reticent(r.sm)
  {
    ReticentStart(inCaseTimeout, a, sm, e.success, e.role);
    hide OnTopologyStarted;
  }

  /** Whether the earbud is in the case, out of it, or in the ear; an unknown state counts as in the case. */
  function Place(phy: Phy): Code {
    match phy
    case Unknown => IN_CASE
    case InCase => IN_CASE
    case OutOfEar => OUT_OF_CASE
    case OutOfEarAtRest => OUT_OF_CASE
    case InEar => IN_EAR
  }

  /** A state that agrees with one physical state agrees with another one exactly in the same place. */
  lemma AgreementIsByPlace(s: Code, phy: Phy, other: Phy)
    requires ParentAgrees(s, phy)
    ensures ParentAgrees(s, other) <==> Place(phy) == Place(other)
  {
  }

  /** With no indication on its way, a core state agrees with the actual physical state. */
  predicate Agrees(sm: Sm) {
    IsCore(sm.state) && sm.inds == [] ==> ParentAgrees(sm.state, sm.actual)
  }

  /** It does so now, and after any one movement. */
  ghost predicate AgreesStably(sm: Sm) {
    Agrees(sm) && forall phy: Phy | Deliverable(sm, Moved(phy)) :: Agrees(OnMoved(sm, phy))
  }

  ghost predicate AgreesAfter(inCaseTimeout: bool, actual: Phy, run: seq<Delivery>) {
    match Run(inCaseTimeout, Start(actual), run)
    case Running(sm) => AgreesStably(sm)
    case _ => true
  }

  /** At every moment of the run. */
  ghost predicate AgreesThroughout(inCaseTimeout: bool, actual: Phy, run: seq<Delivery>) {
    forall i | 0 <= i <= |run| :: AgreesAfter(inCaseTimeout, actual, run[..i])
  }

  lemma ReticentAgrees(inCaseTimeout: bool, sm: Sm)
    requires Fine(inCaseTimeout, sm) && Reticent(sm)
    ensures AgreesStably(sm)
  {
    hide Good, ParentAgrees, IsCore;
    forall phy: Phy | Deliverable(sm, Moved(phy)) ensures Agrees(OnMoved(sm, phy)) {
      MoveKeeps(inCaseTimeout, sm, phy);
    }
  }

  /** One movement to another place. */
  function Elsewhere(phy: Phy): Phy {
    if Place(phy) == IN_CASE then InEar else InCase
  }

  /** After a loss that acts, the machine is in the core state for its cached physical state, not registered. */
  lemma LossEnters(inCaseTimeout: bool, a: Answers, sm: Sm)
    requires Fine(inCaseTimeout, sm) && Reticent(sm) && Acts(sm, a, RoleChanged(Secondary))
    ensures var r := Step(inCaseTimeout, a, sm, RoleChanged(Secondary));
            && r.Running? && r.sm.state == CoreState(sm.phy, a.busy) && !r.sm.registered && r.sm.inds == []
            && r.sm.actual == sm.actual
  {
    hide SetState, IsSleepy, CoreState, ParentAgrees, IsCore;
    var core := CoreState(sm.phy, a.busy);
    CoreStateAgrees(sm.phy, a.busy);
    RoleIsIrrelevant(inCaseTimeout, sm, Secondary);
    SetStateKeeps(inCaseTimeout, a, sm.(role := Secondary), core);
    Lands(inCaseTimeout, a, sm.(role := Secondary), core);
  }

  /** At the moment of the loss, the state agrees with the actual physical state exactly when the cached one is the
      same place. */
  lemma EarlyLossTrustsTheCache(inCaseTimeout: bool, a: Answers, sm: Sm)
    requires Fine(inCaseTimeout, sm) && Reticent(sm) && Acts(sm, a, RoleChanged(Secondary))
    ensures var r := Step(inCaseTimeout, a, sm, RoleChanged(Secondary));
            && r.Running? && IsCore(r.sm.state)
            && (ParentAgrees(r.sm.state, r.sm.actual) <==> Place(sm.phy) == Place(sm.actual))
  {
    LossEnters(inCaseTimeout, a, sm);
    hide Step, Fine, Acts, Reticent;
    CoreStateAgrees(sm.phy, a.busy);
    AgreementIsByPlace(CoreState(sm.phy, a.busy), sm.phy, sm.actual);
  }

  /** Such a machine hears of no movement. */
  lemma UnheardMovement(sm: Sm, phy: Phy, busy: bool)
    requires sm.state == CoreState(phy, busy) && !sm.registered && sm.inds == []
    ensures !AgreesStably(sm)
  {
    CoreStateAgrees(phy, busy);
    AgreementIsByPlace(sm.state, phy, sm.actual);
    AgreementIsByPlace(sm.state, phy, Elsewhere(phy));
    assert Place(Elsewhere(phy)) != Place(phy);
    hide CoreState, IsCore, ParentAgrees, Place;
    if Agrees(sm) {
      assert Deliverable(sm, Moved(Elsewhere(phy))) && !Agrees(OnMoved(sm, Elsewhere(phy)));
    }
  }

  lemma LossDisagrees(inCaseTimeout: bool, a: Answers, sm: Sm)
    requires Fine(inCaseTimeout, sm) && Reticent(sm) && Acts(sm, a, RoleChanged(Secondary))
    ensures var r := Step(inCaseTimeout, a, sm, RoleChanged(Secondary)); r.Running? && !AgreesStably(r.sm)
  {
    LossEnters(inCaseTimeout, a, sm);
    hide Step, Fine, AgreesStably, Acts, CoreState, Reticent;
    UnheardMovement(Step(inCaseTimeout, a, sm, RoleChanged(Secondary)).sm, sm.phy, a.busy);
  }

  lemma ThroughoutGrows(inCaseTimeout: bool, actual: Phy, run: seq<Delivery>, n: nat)
    requires |run| == n + 1
    ensures AgreesThroughout(inCaseTimeout, actual, run)
            <==> AgreesThroughout(inCaseTimeout, actual, run[..n]) && AgreesAfter(inCaseTimeout, actual, run)
    ensures NoLossActs(inCaseTimeout, actual, run)
            <==> NoLossActs(inCaseTimeout, actual, run[..n]) && !ActsAfter(inCaseTimeout, actual, run[..n], run[n])
  {
    hide AgreesAfter, ActsAfter;
    assert run[..n + 1] == run;
    assert forall i | 0 <= i <= n :: run[..n][..i] == run[..i];
    assert forall i | 0 <= i < n :: run[..n][i] == run[i];
    if AgreesThroughout(inCaseTimeout, actual, run[..n]) && AgreesAfter(inCaseTimeout, actual, run) {
      forall i | 0 <= i <= |run| ensures AgreesAfter(inCaseTimeout, actual, run[..i]) {
        if i <= n {
          assert AgreesAfter(inCaseTimeout, actual, run[..n][..i]);
        }
      }
    }
    if AgreesThroughout(inCaseTimeout, actual, run) {
      forall i | 0 <= i <= n ensures AgreesAfter(inCaseTimeout, actual, run[..n][..i]) {
        assert AgreesAfter(inCaseTimeout, actual, run[..i]);
      }
    }
    if NoLossActs(inCaseTimeout, actual, run[..n]) && !ActsAfter(inCaseTimeout, actual, run[..n], run[n]) {
      forall i | 0 <= i < |run| ensures !ActsAfter(inCaseTimeout, actual, run[..i], run[i]) {
        if i < n {
          assert !ActsAfter(inCaseTimeout, actual, run[..n][..i], run[..n][i]);
        }
      }
    }
    if NoLossActs(inCaseTimeout, actual, run) {
      forall i | 0 <= i < n ensures !ActsAfter(inCaseTimeout, actual, run[..n][..i], run[..n][i]) {
        assert !ActsAfter(inCaseTimeout, actual, run[..i], run[i]);
      }
    }
  }

  ghost predicate ReticentAfter(inCaseTimeout: bool, actual: Phy, run: seq<Delivery>) {
    match Run(inCaseTimeout, Start(actual), run)
    case Running(sm) => Fine(inCaseTimeout, sm) && Reticent(sm)
    case _ => true
  }

  lemma StartIsReticent(inCaseTimeout: bool, actual: Phy)
    ensures ReticentAfter(inCaseTimeout, actual, []) && AgreesAfter(inCaseTimeout, actual, [])
  {
    StartIsFine(inCaseTimeout, actual);
    assert Reticent(Start(actual));
    ReticentAgrees(inCaseTimeout, Start(actual));
  }

  /** What one more delivery does after a run in which no loss has acted. */
  lemma OneMoreDelivery(inCaseTimeout: bool, actual: Phy, run: seq<Delivery>, d: Delivery)
    requires ReticentAfter(inCaseTimeout, actual, run)
    ensures var more := run + [d];
            if ActsAfter(inCaseTimeout, actual, run, d) then !AgreesAfter(inCaseTimeout, actual, more)
            else ReticentAfter(inCaseTimeout, actual, more) && AgreesAfter(inCaseTimeout, actual, more)
  {
    RunMore(inCaseTimeout, Start(actual), run, d);
    RunsAreFine(inCaseTimeout, actual, run + [d]);
    hide Run, Step, Fine, Reticent, AgreesStably, Acts;
    match Run(inCaseTimeout, Start(actual), run) {
      case Running(before) =>
        if Acts(before, d.answers, d.event) {
          ActingIsLoss(before, d.answers, d.event);
          LossDisagrees(inCaseTimeout, d.answers, before);
        } else {
          if Deliverable(before, d.event) {
            ReticentStep(inCaseTimeout, d.answers, before, d.event);
          }
          match Run(inCaseTimeout, Start(actual), run + [d]) {
            case Running(after) => ReticentAgrees(inCaseTimeout, after);
            case _ =>
          }
        }
      case _ =>
    }
  }

  lemma ActingIsLoss(sm: Sm, a: Answers, e: Event)
    requires Acts(sm, a, e)
    ensures e == RoleChanged(Secondary) && Deliverable(sm, e)
  {
  }

  /** Over all runs, core states can be trusted exactly when no early loss acts: with no indication on its way, the
      parent bits agree with the actual physical state, at every moment of the run and after any one movement from it. */
  lemma {:induction false} CoreStatesAgree(inCaseTimeout: bool, actual: Phy, run: seq<Delivery>)
    ensures AgreesThroughout(inCaseTimeout, actual, run) <==> NoLossActs(inCaseTimeout, actual, run)
    ensures NoLossActs(inCaseTimeout, actual, run) ==> ReticentAfter(inCaseTimeout, actual, run)
    decreases |run|
  {
    hide AgreesAfter, ReticentAfter, ActsAfter;
    if run == [] {
      StartIsReticent(inCaseTimeout, actual);
      assert run[..0] == [];
    } else {
      var n := |run| - 1;
      CoreStatesAgree(inCaseTimeout, actual, run[..n]);
      ThroughoutGrows(inCaseTimeout, actual, run, n);
      if NoLossActs(inCaseTimeout, actual, run[..n]) {
        OneMoreDelivery(inCaseTimeout, actual, run[..n], run[n]);
        assert run[..n] + [run[n]] == run;
      }
    }
  }

  const QUIET := Answers(false, false, false, NormalBoot, false)
  const AUDIO := Answers(false, true, false, NormalBoot, false)

  lemma RunMore(inCaseTimeout: bool, from: Sm, run: seq<Delivery>, d: Delivery)
    ensures Run(inCaseTimeout, from, run + [d])
            == match Run(inCaseTimeout, from, run)
               case Running(before) =>
                 if Deliverable(before, d.event) then Step(inCaseTimeout, d.answers, before, d.event) else Running(before)
               case stopped => stopped
  {
    assert (run + [d])[..|run + [d]| - 1] == run;
  }

  /** Two messages take a fresh machine to startup. */
  lemma Boots(inCaseTimeout: bool)
    ensures Run(inCaseTimeout, Start(InCase), [Delivery(QUIET, InitDone), Delivery(QUIET, NoDfuFound)])
            == Running(Start(InCase).(state := STARTUP))
  {
    BootSteps(inCaseTimeout);
    hide Run, Step;
    var start, first, second := Start(InCase), [Delivery(QUIET, InitDone)], [Delivery(QUIET, NoDfuFound)];
    EmptyRun(inCaseTimeout, start);
    Continues(inCaseTimeout, start, [], start, first[0]);
    assert [] + first == first;
    Continues(inCaseTimeout, start, first, start.(state := DFU_CHECK, noDfu := 1), second[0]);
    assert first + second == [Delivery(QUIET, InitDone), Delivery(QUIET, NoDfuFound)];
  }

  lemma BootSteps(inCaseTimeout: bool)
    ensures Step(inCaseTimeout, QUIET, Start(InCase), InitDone) == Running(Start(InCase).(state := DFU_CHECK, noDfu := 1))
    ensures Step(inCaseTimeout, QUIET, Start(InCase).(state := DFU_CHECK, noDfu := 1), NoDfuFound)
            == Running(Start(InCase).(state := STARTUP))
  {
  }

  const STARTING := Start(InCase).(state := STARTUP)

  /** Continuing a run that is still going by one delivery. */
  lemma Continues(inCaseTimeout: bool, from: Sm, run: seq<Delivery>, before: Sm, d: Delivery)
    requires Run(inCaseTimeout, from, run) == Running(before) && Deliverable(before, d.event)
    ensures Run(inCaseTimeout, from, run + [d]) == Step(inCaseTimeout, d.answers, before, d.event)
  {
    RunMore(inCaseTimeout, from, run, d);
    hide Step;
  }

  lemma LosesWhileStarting(inCaseTimeout: bool)
    ensures Step(inCaseTimeout, QUIET, STARTING, RoleChanged(Primary)) == Running(STARTING.(role := Primary))
    ensures Step(inCaseTimeout, QUIET, STARTING.(role := Primary), Moved(OutOfEar))
            == Running(STARTING.(role := Primary, actual := OutOfEar))
    ensures match Step(inCaseTimeout, QUIET, STARTING.(role := Primary, actual := OutOfEar), RoleChanged(Secondary))
            case Running(r) => r.inds == [] && IsCore(r.state) && !ParentAgrees(r.state, r.actual)
            case _ => false
  {
  }

  /** A run in which a core state is wrong: the earbud leaves the case during startup, and loses the primary role
      before topology has started. */
  lemma EarlyLossIsWrong(inCaseTimeout: bool) returns (run: seq<Delivery>)
    ensures var r := Run(inCaseTimeout, Start(InCase), run);
            r.Running? && r.sm.inds == [] && IsCore(r.sm.state) && !ParentAgrees(r.sm.state, r.sm.actual)
  {
    Boots(inCaseTimeout);
    LosesWhileStarting(inCaseTimeout);
    hide Run, Step, IsCore, ParentAgrees;
    var start := Start(InCase);
    run := [Delivery(QUIET, InitDone), Delivery(QUIET, NoDfuFound)];
    Continues(inCaseTimeout, start, run, STARTING, Delivery(QUIET, RoleChanged(Primary)));
    run := run + [Delivery(QUIET, RoleChanged(Primary))];
    Continues(inCaseTimeout, start, run, STARTING.(role := Primary), Delivery(QUIET, Moved(OutOfEar)));
    run := run + [Delivery(QUIET, Moved(OutOfEar))];
    Continues(inCaseTimeout, start, run, STARTING.(role := Primary, actual := OutOfEar), Delivery(QUIET, RoleChanged(Secondary)));
    run := run + [Delivery(QUIET, RoleChanged(Secondary))];
  }

  // ---------------------------------------------------------------- the in-case timeout

  const CHARGED := STARTING.(registered := true, state := IN_CASE_IDLE, idleTimers := 2)

  lemma StartsTwoTimers()
    ensures Step(true, QUIET, STARTING, TopologyStarted(true, NoRole)) == Running(CHARGED.(idleTimers := 1))
    ensures Step(true, QUIET, CHARGED.(idleTimers := 1), ChargerCompleted) == Running(CHARGED)
  {
  }

  lemma CancelsOneTimer()
    ensures Step(true, QUIET, CHARGED, Moved(OutOfEar)) == Running(CHARGED.(actual := OutOfEar, inds := [OutOfEar]))
    ensures Step(true, AUDIO, CHARGED.(actual := OutOfEar, inds := [OutOfEar]), PhyChanged)
            == Running(CHARGED.(actual := OutOfEar, phy := OutOfEar, state := OUT_OF_CASE_BUSY, idleTimers := 1))
  {
  }

  lemma SecondTimerPanics()
    ensures Step(true, QUIET, CHARGED.(actual := OutOfEar, phy := OutOfEar, state := OUT_OF_CASE_BUSY, idleTimers := 1), IdleTimeout)
            == Panicked(UnexpectedIdleTimeout)
  {
  }

  /** With the in-case timeout configured, a second timer is started when charging completes; only one is cancelled
      on the way out, and the other fires in a state that does not expect it. */
  lemma InCaseTimeoutPanics() returns (run: seq<Delivery>)
    ensures Run(true, Start(InCase), run) == Panicked(UnexpectedIdleTimeout)
  {
    Boots(true);
    StartsTwoTimers();
    CancelsOneTimer();
    SecondTimerPanics();
    hide Run, Step;
    var start := Start(InCase);
    run := [Delivery(QUIET, InitDone), Delivery(QUIET, NoDfuFound)];
    Continues(true, start, run, STARTING, Delivery(QUIET, TopologyStarted(true, NoRole)));
    run := run + [Delivery(QUIET, TopologyStarted(true, NoRole))];
    Continues(true, start, run, CHARGED.(idleTimers := 1), Delivery(QUIET, ChargerCompleted));
    run := run + [Delivery(QUIET, ChargerCompleted)];
    Continues(true, start, run, CHARGED, Delivery(QUIET, Moved(OutOfEar)));
    run := run + [Delivery(QUIET, Moved(OutOfEar))];
    Continues(true, start, run, CHARGED.(actual := OutOfEar, inds := [OutOfEar]), Delivery(AUDIO, PhyChanged));
    run := run + [Delivery(AUDIO, PhyChanged)];
    Continues(true, start, run, CHARGED.(actual := OutOfEar, phy := OutOfEar, state := OUT_OF_CASE_BUSY, idleTimers := 1),
              Delivery(QUIET, IdleTimeout));
    run := run + [Delivery(QUIET, IdleTimeout)];
  }

  /** So the idle-timeout panic is unreachable exactly when the in-case timeout is not configured. */
  lemma IdlePanicUnreachable(inCaseTimeout: bool)
    ensures (forall actual: Phy, run: seq<Delivery> ::
               Run(inCaseTimeout, Start(actual), run) != Panicked(UnexpectedIdleTimeout))
            <==> !inCaseTimeout
  {
    if inCaseTimeout {
      var run := InCaseTimeoutPanics();
    } else {
      forall actual: Phy, run: seq<Delivery>
        ensures Run(inCaseTimeout, Start(actual), run) != Panicked(UnexpectedIdleTimeout)
      {
        RunsAreFine(inCaseTimeout, actual, run);
      }
    }
  }

  // ---------------------------------------------------------------- disconnection never wedges

  lemma LinkSteps(inCaseTimeout: bool, a: Answers, sm: Sm)
    ensures Deliverable(sm, LinkTimeout) <==> sm.linkTimeouts > 0
    ensures Deliverable(sm, LinkTimeout) ==>
              Step(inCaseTimeout, a, sm, LinkTimeout) == Running(sm.(linkTimeouts := sm.linkTimeouts - 1, lock := false))
    ensures Deliverable(sm, LinkComplete) <==> sm.completions != [] && !sm.lock
    ensures Deliverable(sm, LinkComplete) ==> Step(inCaseTimeout, a, sm, LinkComplete) == Running(OnLinkComplete(sm))
  {
  }

  lemma RunLinks(inCaseTimeout: bool, actual: Phy, run: seq<Delivery>)
    ensures var r := Run(inCaseTimeout, Start(actual), run); r.Running? ==> LockTimed(r.sm) && Conserved(r.sm)
  {
    RunsAreFine(inCaseTimeout, actual, run);
    hide Run;
  }

  /** A waiting completion can be delivered at once, or after the link timeout, which is pending. */
  lemma CompletionsGetThrough(inCaseTimeout: bool, actual: Phy, run: seq<Delivery>, a: Answers)
    ensures var r := Run(inCaseTimeout, Start(actual), run);
            r.Running? && r.sm.completions != [] ==>
              || Deliverable(r.sm, LinkComplete)
              || (Deliverable(r.sm, LinkTimeout) && Step(inCaseTimeout, a, r.sm, LinkTimeout).Running?
                  && Deliverable(Step(inCaseTimeout, a, r.sm, LinkTimeout).sm, LinkComplete))
  {
    RunLinks(inCaseTimeout, actual, run);
    hide Run, Step, Deliverable;
    var r := Run(inCaseTimeout, Start(actual), run);
    if r.Running? {
      LinkSteps(inCaseTimeout, a, r.sm);
      LinkSteps(inCaseTimeout, a, r.sm.(linkTimeouts := CancelFirst(r.sm.linkTimeouts), lock := false));
    }
  }

  /** Delivering what is pending: the link timeout if the lock is held, then every completion. */
  function Drain(sm: Sm): seq<Delivery> {
    (if sm.lock then [Delivery(QUIET, LinkTimeout)] else []) + Completions(|sm.completions|)
  }

  function Completions(n: nat): seq<Delivery> {
    seq(n, _ => Delivery(QUIET, LinkComplete))
  }

  lemma CompleteOne(sm: Sm)
    requires sm.completions != [] && Conserved(sm)
    ensures var r := OnLinkComplete(sm);
            r.lock == sm.lock && Conserved(r) && r.initiated == sm.initiated && |r.completions| == |sm.completions| - 1
  {
    var c := sm.completions;
    assert sm.performed + c == (sm.performed + [c[0]]) + c[1..];
  }

  lemma {:induction false} CompletionsDrain(inCaseTimeout: bool, sm: Sm, from: Sm, prefix: seq<Delivery>, n: nat)
    requires Run(inCaseTimeout, from, prefix) == Running(sm) && !sm.lock && Conserved(sm) && n <= |sm.completions|
    ensures match Run(inCaseTimeout, from, prefix + Completions(n))
            case Running(r) => !r.lock && Conserved(r) && r.initiated == sm.initiated && |r.completions| == |sm.completions| - n
            case _ => false
  {
    hide Run, Step, Conserved, Deliverable, OnLinkComplete;
    if n == 0 {
      assert prefix + Completions(0) == prefix;
    } else {
      CompletionsDrain(inCaseTimeout, sm, from, prefix, n - 1);
      var fewer := prefix + Completions(n - 1);
      assert prefix + Completions(n) == fewer + [Delivery(QUIET, LinkComplete)];
      var before := Run(inCaseTimeout, from, fewer).sm;
      LinkSteps(inCaseTimeout, QUIET, before);
      Continues(inCaseTimeout, from, fewer, before, Delivery(QUIET, LinkComplete));
      CompleteOne(before);
    }
  }

  /** From every reachable state the pending messages suffice to perform each initiated action exactly once. */
  lemma EveryDisconnectionCompletes(inCaseTimeout: bool, actual: Phy, run: seq<Delivery>)
    requires Run(inCaseTimeout, Start(actual), run).Running?
    ensures var sm := Run(inCaseTimeout, Start(actual), run).sm;
            match Run(inCaseTimeout, sm, Drain(sm))
            case Running(r) => r.completions == [] && r.performed == sm.initiated && r.initiated == sm.initiated
            case _ => false
  {
    RunLinks(inCaseTimeout, actual, run);
    var sm := Run(inCaseTimeout, Start(actual), run).sm;
    DrainCompletes(inCaseTimeout, sm);
  }

  lemma EmptyRun(inCaseTimeout: bool, sm: Sm)
    ensures Run(inCaseTimeout, sm, []) == Running(sm)
  {
  }

  lemma DrainCompletes(inCaseTimeout: bool, sm: Sm)
    requires LockTimed(sm) && Conserved(sm)
    ensures match Run(inCaseTimeout, sm, Drain(sm))
            case Running(r) => r.completions == [] && r.performed == sm.initiated && r.initiated == sm.initiated
            case _ => false
  {
    hide Run, Step, Deliverable;
    EmptyRun(inCaseTimeout, sm);
    LinkSteps(inCaseTimeout, QUIET, sm);
    if sm.lock {
      var timeout := [Delivery(QUIET, LinkTimeout)];
      Continues(inCaseTimeout, sm, [], sm, timeout[0]);
      assert [] + timeout == timeout;
      CompletionsDrain(inCaseTimeout, sm.(linkTimeouts := sm.linkTimeouts - 1, lock := false), sm, timeout, |sm.completions|);
    } else {
      CompletionsDrain(inCaseTimeout, sm, sm, [], |sm.completions|);
    }
    var r := Run(inCaseTimeout, sm, Drain(sm)).sm;
    assert r.performed + [] == r.performed;
  }
}
