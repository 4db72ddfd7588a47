/** The application state machine of earbud/src/earbud_sm.c and earbud_sm.h: state encoding, and what each message
    does to the machine's data and to the messages it has pending. */
module EarbudSmSpec {

  // ---------------------------------------------------------------- the state encoding

  type Code = bv16

  const NULL: Code := 0x0000
  const TERMINATING: Code := 0x0001
  const SOPORIFIC: Code := 0x0002
  const SOPORIFIC_TERMINATING: Code := 0x0004
  const IDLE: Code := 0x0008
  const BUSY: Code := 0x0010
  const DFU: Code := 0x0020
  const INITIALISING: Code := 0x0040
  const DFU_CHECK: Code := 0x0080
  const FACTORY_RESET: Code := 0x0100
  const STARTUP: Code := 0x0200
  const HANDSET_PAIRING: Code := 0x0800
  const DEVICE_TEST_MODE: Code := 0x1000
  const SUBSTATE_MASK: Code := 0x1FFF

  const IN_CASE: Code := 0x2000
  const IN_CASE_TERMINATING: Code := 0x2001
  const IN_CASE_SOPORIFIC: Code := 0x2002
  const IN_CASE_SOPORIFIC_TERMINATING: Code := 0x2004
  const IN_CASE_IDLE: Code := 0x2008
  const IN_CASE_DFU: Code := 0x2020
  const OUT_OF_CASE: Code := 0x4000
  const OUT_OF_CASE_TERMINATING: Code := 0x4001
  const OUT_OF_CASE_SOPORIFIC: Code := 0x4002
  const OUT_OF_CASE_SOPORIFIC_TERMINATING: Code := 0x4004
  const OUT_OF_CASE_IDLE: Code := 0x4008
  const OUT_OF_CASE_BUSY: Code := 0x4010
  const IN_EAR: Code := 0x8000
  const IN_EAR_TERMINATING: Code := 0x8001
  const IN_EAR_IDLE: Code := 0x8008
  const IN_EAR_BUSY: Code := 0x8010

  /** The named states that appSmSetState can enter. */
  predicate Enterable(s: Code) {
    || s == TERMINATING || s == INITIALISING || s == DFU_CHECK || s == FACTORY_RESET || s == STARTUP
    || s == HANDSET_PAIRING || s == DEVICE_TEST_MODE
    || s == IN_CASE_TERMINATING || s == IN_CASE_SOPORIFIC || s == IN_CASE_SOPORIFIC_TERMINATING || s == IN_CASE_IDLE
    || s == IN_CASE_DFU
    || s == OUT_OF_CASE_TERMINATING || s == OUT_OF_CASE_SOPORIFIC || s == OUT_OF_CASE_SOPORIFIC_TERMINATING
    || s == OUT_OF_CASE_IDLE || s == OUT_OF_CASE_BUSY
    || s == IN_EAR_TERMINATING || s == IN_EAR_IDLE || s == IN_EAR_BUSY
  }

  /** The states that appSmSetState can leave. */
  predicate Named(s: Code) {
    s == NULL || Enterable(s)
  }

  predicate StateInCase(s: Code) {
    s & IN_CASE != 0
  }

  predicate StateOutOfCase(s: Code) {
    s & OUT_OF_CASE != 0
  }

  predicate StateInEar(s: Code) {
    s & IN_EAR != 0
  }

  function SubState(s: Code): Code {
    s & SUBSTATE_MASK
  }

  predicate IsTerminating(s: Code) {
    s & (TERMINATING | SOPORIFIC_TERMINATING) != 0
  }

  predicate IsIdle(s: Code) {
    s & (IDLE | SOPORIFIC) != 0
  }

  predicate IsSleepy(s: Code) {
    s & (SOPORIFIC | SOPORIFIC_TERMINATING) != 0
  }

  predicate IsCore(s: Code) {
    SubState(s) & (IDLE | BUSY | SOPORIFIC) != 0
  }

  /** appSetSubState. */
  function WithSubState(s: Code, substate: Code): Code {
    (s & !SUBSTATE_MASK) | substate
  }

  // ---------------------------------------------------------------- the machine

  datatype Phy = Unknown | InCase | OutOfEar | OutOfEarAtRest | InEar

  datatype Role = NoRole | Primary | Secondary

  datatype Action = Pairing | DeleteHandsets

  datatype Reason = NormalBoot | AbruptReset | DfuReset

  /** What other modules answer while a message is handled. */
  datatype Answers = Answers(bredrConnected: bool, busy: bool, charging: bool, reason: Reason, testMode: bool)

  /** The task data, the messages that are pending, and what happened: `actual` is the physical state that the physical
      state module holds, `inds` are its indications on their way, `completions` wait for the disconnect lock,
      the counts are of pending delayed messages. `power` logs allow (true) and prohibit (false) sleep. */
  datatype Sm = Sm(state: Code, phy: Phy, actual: Phy, registered: bool, inds: seq<Phy>, role: Role, userPairing: bool,
                   lock: bool, completions: seq<Action>, linkTimeouts: nat, idleTimers: nat, noDfu: nat,
                   initiated: seq<Action>, performed: seq<Action>, power: seq<bool>)

  datatype Why = UnsupportedState | LeftFactoryReset | UnexpectedIdleTimeout | UnexpectedSleep | UnexpectedInit | NoPhysicalState

  datatype Outcome = Running(sm: Sm) | Rebooted(sm: Sm) | Panicked(why: Why)

  // ---------------------------------------------------------------- appSmSetState

  /** appSmInitiateLinkDisconnection for the handset. */
  function Initiate(sm: Sm, bredrConnected: bool, action: Action): Sm {
    sm.(lock := bredrConnected, completions := sm.completions + [action], initiated := sm.initiated + [action],
        linkTimeouts := sm.linkTimeouts + 1)
  }

  function CancelFirst(n: nat): nat {
    if n > 0 then n - 1 else 0
  }

  /** The exit functions. */
  function Leave(sm: Sm): Outcome {
    if !Named(sm.state) then Panicked(UnsupportedState)
    else if sm.state == FACTORY_RESET then Panicked(LeftFactoryReset)
    else if sm.state == IN_CASE_IDLE || sm.state == OUT_OF_CASE_IDLE then Running(sm.(idleTimers := CancelFirst(sm.idleTimers)))
    else if sm.state == HANDSET_PAIRING then Running(sm.(userPairing := false))
    else Running(sm)
  }

  /** The state changes, and sleep is prohibited or allowed. */
  function Shift(sm: Sm, next: Code): Sm {
    var quiet := if IsSleepy(sm.state) && !IsSleepy(next) then sm.power + [false]
                 else if !IsSleepy(sm.state) && IsSleepy(next) then sm.power + [true]
                 else sm.power;
    sm.(state := next, power := quiet)
  }

  /** The entry functions; `inCaseTimeout` says whether the in-case idle timeout is configured. */
  function Arrive(inCaseTimeout: bool, a: Answers, sm: Sm): Outcome {
    if !Enterable(sm.state) then Panicked(UnsupportedState)
    else if sm.state == FACTORY_RESET then Rebooted(sm)
    else if sm.state == DFU_CHECK && a.reason == NormalBoot then Running(sm.(noDfu := sm.noDfu + 1))
    else if sm.state == HANDSET_PAIRING && !sm.userPairing then Running(Initiate(sm, a.bredrConnected, Pairing))
    else if sm.state == OUT_OF_CASE_IDLE || (sm.state == IN_CASE_IDLE && inCaseTimeout && !a.charging) then
      Running(sm.(idleTimers := sm.idleTimers + 1))
    else Running(sm)
  }

  function Plain(inCaseTimeout: bool, a: Answers, sm: Sm, next: Code): Outcome {
    match Leave(sm)
    case Running(left) => Arrive(inCaseTimeout, a, Shift(left, next))
    case stopped => stopped
  }

  /** appSmSetState; the DFU check goes on to startup from inside its entry function. */
  function SetState(inCaseTimeout: bool, a: Answers, sm: Sm, next: Code): Outcome {
    var r := Plain(inCaseTimeout, a, sm, next);
    if r.Running? && next == DFU_CHECK && a.reason != NormalBoot then Plain(inCaseTimeout, a, r.sm, STARTUP) else r
  }

  // ---------------------------------------------------------------- core states

  function CoreState(phy: Phy, busy: bool): Code {
    match phy
    case InCase => IN_CASE_IDLE
    case OutOfEar => if busy then OUT_OF_CASE_BUSY else OUT_OF_CASE_IDLE
    case OutOfEarAtRest => if busy then OUT_OF_CASE_BUSY else OUT_OF_CASE_IDLE
    case InEar => if busy then IN_EAR_BUSY else IN_EAR_IDLE
    case Unknown => IN_CASE_IDLE
  }

  /** appSmSetCoreState. */
  function SetCoreState(inCaseTimeout: bool, a: Answers, sm: Sm): Outcome {
    var next := CoreState(sm.phy, a.busy);
    if next != sm.state then SetState(inCaseTimeout, a, sm, next) else Running(sm)
  }

  function CoreAgain(inCaseTimeout: bool, a: Answers, sm: Sm): Outcome {
    if IsCore(sm.state) then SetCoreState(inCaseTimeout, a, sm) else Running(sm)
  }

  // ---------------------------------------------------------------- messages

  datatype Event =
    | InitDone
    | NoDfuFound
    | TopologyStarted(success: bool, role: Role)
    | RoleChanged(role: Role)
    | Moved(phy: Phy)
    | PhyChanged
    | ProxyPhyEvent
    | AudioChanged
    | PairConfirm
    | PairRule
    | PairHandset
    | EnterDfu(dynamicRole: bool)
    | DfuEnded
    | FactoryReset
    | SleepPrepare
    | SleepCancelled
    | ShutdownPrepare
    | ShutdownCancelled
    | TestEnded
    | IdleTimeout
    | ChargerCompleted
    | HandsetsToDelete
    | HandsetDisconnected
    | LinkTimeout
    | LinkComplete

  /** A message can be delivered when it is pending; a completion only while the lock is clear. Physical movement is
      always possible, and never ends in the unknown state. */
  predicate Deliverable(sm: Sm, e: Event) {
    match e
    case NoDfuFound => sm.noDfu > 0
    case Moved(phy) => phy != Unknown && phy != sm.actual
    case PhyChanged => sm.inds != []
    case IdleTimeout => sm.idleTimers > 0
    case LinkTimeout => sm.linkTimeouts > 0
    case LinkComplete => sm.completions != [] && !sm.lock
    case _ => true
  }

  /** appSm_HandleTwsTopologyRoleChange. */
  function OnRole(inCaseTimeout: bool, a: Answers, sm: Sm, role: Role): Outcome {
    match role
    case NoRole => Running(if sm.state != IN_CASE_DFU then sm.(role := NoRole) else sm)
    case Primary => Running(sm.(role := Primary))
    case Secondary =>
      var changed := sm.(role := Secondary);
      if a.reason != DfuReset && sm.role == Primary && !IsCore(sm.state) && sm.state != IN_CASE_DFU
      then SetCoreState(inCaseTimeout, a, changed)
      else Running(changed)
  }

  /** appSmSetInitialCoreState. */
  function InitialCore(inCaseTimeout: bool, a: Answers, sm: Sm): Outcome {
    if sm.actual == Unknown then Panicked(NoPhysicalState)
    else SetCoreState(inCaseTimeout, a, sm.(registered := true, phy := sm.actual))
  }

  function OnTopologyStarted(inCaseTimeout: bool, a: Answers, sm: Sm, success: bool, role: Role): Outcome {
    if sm.state != STARTUP then Running(sm)
    else
      match InitialCore(inCaseTimeout, a, sm)
      case Running(core) => if success then OnRole(inCaseTimeout, a, core, role) else Running(core)
      case stopped => stopped
  }

  /** appSmHandlePhyStateChangedInd. */
  function OnPhyChanged(inCaseTimeout: bool, a: Answers, sm: Sm): Outcome
    requires sm.inds != []
  {
    var seen := sm.(phy := sm.inds[0], inds := sm.inds[1..]);
    match seen.phy
    case Unknown => Running(seen)
    case InCase =>
      if IsCore(seen.state) || seen.state == HANDSET_PAIRING then SetCoreState(inCaseTimeout, a, seen) else Running(seen)
    case _ => CoreAgain(inCaseTimeout, a, seen)
  }

  /** The physical state module tells a registered client of every change. */
  function OnMoved(sm: Sm, phy: Phy): Sm {
    sm.(actual := phy, inds := if sm.registered then sm.inds + [phy] else sm.inds)
  }

  function OnIdleTimeout(inCaseTimeout: bool, a: Answers, sm: Sm): Outcome
    requires sm.idleTimers > 0
  {
    var taken := sm.(idleTimers := sm.idleTimers - 1);
    if sm.state == IN_CASE_IDLE then SetState(inCaseTimeout, a, taken, IN_CASE_SOPORIFIC)
    else if sm.state == OUT_OF_CASE_IDLE then SetState(inCaseTimeout, a, taken, OUT_OF_CASE_SOPORIFIC)
    else Panicked(UnexpectedIdleTimeout)
  }

  function OnSleepPrepare(inCaseTimeout: bool, a: Answers, sm: Sm): Outcome {
    if sm.state == IN_CASE_SOPORIFIC then SetState(inCaseTimeout, a, sm, IN_CASE_SOPORIFIC_TERMINATING)
    else if sm.state == OUT_OF_CASE_SOPORIFIC then SetState(inCaseTimeout, a, sm, OUT_OF_CASE_SOPORIFIC_TERMINATING)
    else Panicked(UnexpectedSleep)
  }

  function OnInitDone(inCaseTimeout: bool, a: Answers, sm: Sm): Outcome {
    if sm.state == INITIALISING then SetState(inCaseTimeout, a, sm, DFU_CHECK)
    else if sm.state == IN_CASE_DFU || sm.state == TERMINATING then Running(sm)
    else Panicked(UnexpectedInit)
  }

  function OnNoDfu(inCaseTimeout: bool, a: Answers, sm: Sm): Outcome
    requires sm.noDfu > 0
  {
    var taken := sm.(noDfu := sm.noDfu - 1);
    if sm.state == IN_CASE_DFU then Running(taken)
    else SetState(inCaseTimeout, a, taken, if a.testMode then DEVICE_TEST_MODE else STARTUP)
  }

  function OnPairRule(inCaseTimeout: bool, a: Answers, sm: Sm): Outcome {
    if sm.state == OUT_OF_CASE_IDLE || sm.state == IN_EAR_IDLE
    then SetState(inCaseTimeout, a, sm.(userPairing := false), HANDSET_PAIRING)
    else Running(sm)
  }

  function OnPairHandset(inCaseTimeout: bool, a: Answers, sm: Sm): Outcome {
    if IsIdle(sm.state) && sm.role == Primary then SetState(inCaseTimeout, a, sm.(userPairing := true), HANDSET_PAIRING)
    else Running(sm)
  }

  /** appSmHandleInternalFactoryReset compares the numbers of the states. */
  function OnFactoryReset(inCaseTimeout: bool, a: Answers, sm: Sm): Outcome {
    if sm.state >= STARTUP then SetState(inCaseTimeout, a, sm, FACTORY_RESET) else Running(sm)
  }

  function OnHandsetsToDelete(a: Answers, sm: Sm): Sm {
    if sm.state == IN_CASE_IDLE || sm.state == OUT_OF_CASE_IDLE || sm.state == IN_EAR_IDLE
    then Initiate(sm, a.bredrConnected, DeleteHandsets)
    else sm
  }

  /** appSmHandleInternalAllRequestedLinksDisconnected. */
  function OnLinkComplete(sm: Sm): Sm
    requires sm.completions != []
  {
    sm.(completions := sm.completions[1..], performed := sm.performed + [sm.completions[0]],
        linkTimeouts := CancelFirst(sm.linkTimeouts))
  }

  function Step(inCaseTimeout: bool, a: Answers, sm: Sm, e: Event): Outcome
    requires Deliverable(sm, e)
  {
    match e
    case InitDone => OnInitDone(inCaseTimeout, a, sm)
    case NoDfuFound => OnNoDfu(inCaseTimeout, a, sm)
    case TopologyStarted(success, role) => OnTopologyStarted(inCaseTimeout, a, sm, success, role)
    case RoleChanged(role) => OnRole(inCaseTimeout, a, sm, role)
    case Moved(phy) => Running(OnMoved(sm, phy))
    case PhyChanged => OnPhyChanged(inCaseTimeout, a, sm)
    case ProxyPhyEvent => Running(sm.(phy := sm.actual))
    case AudioChanged => CoreAgain(inCaseTimeout, a, sm)
    case PairConfirm => if sm.state == HANDSET_PAIRING then SetCoreState(inCaseTimeout, a, sm) else Running(sm)
    case PairRule => OnPairRule(inCaseTimeout, a, sm)
    case PairHandset => OnPairHandset(inCaseTimeout, a, sm)
    case EnterDfu(dynamicRole) =>
      if !dynamicRole && sm.state != IN_CASE_DFU then SetState(inCaseTimeout, a, sm, IN_CASE_DFU) else Running(sm)
    case DfuEnded => if sm.state == IN_CASE_DFU then SetState(inCaseTimeout, a, sm, STARTUP) else Running(sm)
    case FactoryReset => OnFactoryReset(inCaseTimeout, a, sm)
    case SleepPrepare => OnSleepPrepare(inCaseTimeout, a, sm)
    case SleepCancelled => SetState(inCaseTimeout, a, sm, STARTUP)
    case ShutdownPrepare => SetState(inCaseTimeout, a, sm, WithSubState(sm.state, TERMINATING))
    case ShutdownCancelled => SetState(inCaseTimeout, a, sm, STARTUP)
    case TestEnded => SetState(inCaseTimeout, a, sm, STARTUP)
    case IdleTimeout => OnIdleTimeout(inCaseTimeout, a, sm)
    case ChargerCompleted =>
      Running(if sm.state == IN_CASE_IDLE && inCaseTimeout && !a.charging then sm.(idleTimers := sm.idleTimers + 1) else sm)
    case HandsetsToDelete => Running(OnHandsetsToDelete(a, sm))
    case HandsetDisconnected => Running(if sm.lock && !a.bredrConnected then sm.(lock := false) else sm)
    case LinkTimeout => Running(sm.(linkTimeouts := sm.linkTimeouts - 1, lock := false))
    case LinkComplete => Running(OnLinkComplete(sm))
  }

  // ---------------------------------------------------------------- runs

  datatype Delivery = Delivery(answers: Answers, event: Event)

  /** appSmInit. */
  function Start(actual: Phy): Sm {
    Sm(INITIALISING, actual, actual, false, [], NoRole, false, false, [], 0, 0, 0, [], [], [])
  }

  /** Messages arrive one after another; what cannot be delivered does not arrive. */
  function Run(inCaseTimeout: bool, from: Sm, run: seq<Delivery>): Outcome {
    if run == [] then Running(from)
    else
      var d := run[|run| - 1];
      match Run(inCaseTimeout, from, run[..|run| - 1])
      case Running(before) =>
        if Deliverable(before, d.event) then Step(inCaseTimeout, d.answers, before, d.event) else Running(before)
      case stopped => stopped
  }
}
