/** The application state machine as it is written in earbud/src/earbud_sm.c: handlers that change the task data and
    the pending messages in place. Every method is proved to do what EarbudSmSpec says, and every handler to keep the
    invariant of EarbudSmRuns. */
module EarbudSm {
  import opened EarbudSmSpec
  import opened EarbudSmRuns

  /** How a handler ends. */
  datatype Ending = GoesOn | Reboots | Panics(why: Why)

  ghost predicate Matches(e: Ending, sm: Sm, r: Outcome) {
    match r
    case Running(expected) => e == GoesOn && sm == expected
    case Rebooted(expected) => e == Reboots && sm == expected
    case Panicked(why) => e == Panics(why)
  }

  /** An ending that matches a fine outcome. */
  lemma EndingIsFine(inCaseTimeout: bool, e: Ending, sm: Sm, r: Outcome)
    requires Matches(e, sm, r) && FineOutcome(inCaseTimeout, r)
    ensures e == GoesOn ==> Fine(inCaseTimeout, sm)
    ensures e.Panics? ==> Blameless(inCaseTimeout, e.why)
  {
    hide Fine, Blameless;
  }

  lemma RoleEnds(inCaseTimeout: bool, a: Answers, before: Sm, newRole: Role, e: Ending, after: Sm)
    requires Fine(inCaseTimeout, before) && Matches(e, after, OnRole(inCaseTimeout, a, before, newRole))
    ensures e == GoesOn ==> Fine(inCaseTimeout, after)
    ensures e.Panics? ==> Blameless(inCaseTimeout, e.why)
  {
    hide Fine, Matches, FineOutcome, Step;
    RoleKeeps(inCaseTimeout, a, before, newRole);
    EndingIsFine(inCaseTimeout, e, after, OnRole(inCaseTimeout, a, before, newRole));
  }

  lemma PhyEnds(inCaseTimeout: bool, a: Answers, before: Sm, e: Ending, after: Sm)
    requires Fine(inCaseTimeout, before) && before.inds != [] && Matches(e, after, OnPhyChanged(inCaseTimeout, a, before))
    ensures e == GoesOn ==> Fine(inCaseTimeout, after)
    ensures e.Panics? ==> Blameless(inCaseTimeout, e.why)
  {
    hide Fine, Matches, FineOutcome, Step;
    PhyStepKeeps(inCaseTimeout, a, before);
    EndingIsFine(inCaseTimeout, e, after, OnPhyChanged(inCaseTimeout, a, before));
  }

  lemma NoDfuEnds(inCaseTimeout: bool, a: Answers, before: Sm, e: Ending, after: Sm)
    requires Fine(inCaseTimeout, before) && before.noDfu > 0 && Matches(e, after, OnNoDfu(inCaseTimeout, a, before))
    ensures e == GoesOn ==> Fine(inCaseTimeout, after)
    ensures e.Panics? ==> Blameless(inCaseTimeout, e.why)
  {
    hide Fine, Matches, FineOutcome, Step;
    NoDfuKeeps(inCaseTimeout, a, before);
    EndingIsFine(inCaseTimeout, e, after, OnNoDfu(inCaseTimeout, a, before));
  }

  lemma StepEnds(inCaseTimeout: bool, a: Answers, before: Sm, ev: Event, e: Ending, after: Sm)
    requires Fine(inCaseTimeout, before) && Deliverable(before, ev) && Matches(e, after, Step(inCaseTimeout, a, before, ev))
    ensures e == GoesOn ==> Fine(inCaseTimeout, after)
    ensures e.Panics? ==> Blameless(inCaseTimeout, e.why)
  {
    hide Fine, Matches, FineOutcome, Step;
    StepKeeps(inCaseTimeout, a, before, ev);
    EndingIsFine(inCaseTimeout, e, after, Step(inCaseTimeout, a, before, ev));
  }

  class Machine {
    /** appConfigInCaseIdleTimeoutMs() is not zero. */
    const inCaseTimeout: bool
    var state: Code
    var phy: Phy
    var actual: Phy
    var registered: bool
    var inds: seq<Phy>
    var role: Role
    var userPairing: bool
    var lock: bool
    var completions: seq<Action>
    var linkTimeouts: nat
    var idleTimers: nat
    var noDfu: nat
    ghost var initiated: seq<Action>
    ghost var performed: seq<Action>
    ghost var power: seq<bool>

    ghost function View(): Sm
      reads this
    {
      Sm(state, phy, actual, registered, inds, role, userPairing, lock, completions, linkTimeouts, idleTimers, noDfu,
         initiated, performed, power)
    }

    /** What EarbudSmRuns proves of every run. */
    ghost predicate Valid()
      reads this
    {
      Fine(inCaseTimeout, View())
    }

    /** A handler that goes on keeps the invariant, and one that panics has a reason outside. */
    ghost predicate EndsWell(e: Ending)
      reads this
    {
      (e == GoesOn ==> Valid()) && (e.Panics? ==> Blameless(inCaseTimeout, e.why))
    }

    /** appSmInit. */
    constructor (inCaseTimeout: bool, actual: Phy)
      ensures View() == Start(actual) && this.inCaseTimeout == inCaseTimeout && Valid()
    {
      this.inCaseTimeout := inCaseTimeout;
      state, phy, this.actual, registered, inds, role := INITIALISING, actual, actual, false, [], NoRole;
      userPairing, lock, completions, linkTimeouts, idleTimers, noDfu := false, false, [], 0, 0, 0;
      initiated, performed, power := [], [], [];
    }

    // -------------------------------------------------------------- exit and entry functions

    /** appSmInitiateLinkDisconnection. */
    method InitiateLinkDisconnection(bredrConnected: bool, action: Action)
      modifies this`lock, this`completions, this`linkTimeouts, this`initiated
      ensures View() == Initiate(old(View()), bredrConnected, action)
    {
      if !bredrConnected {
        lock := false;
      } else {
        lock := true;
      }
      completions := completions + [action];
      initiated := initiated + [action];
      linkTimeouts := linkTimeouts + 1;
    }

    method CancelFirstIdleTimer()
      modifies this`idleTimers
      ensures View() == old(View()).(idleTimers := CancelFirst(old(idleTimers)))
    {
      if idleTimers > 0 {
        idleTimers := idleTimers - 1;
      }
    }

    /** The exit functions of appSmSetState. */
    method Exit() returns (e: Ending)
      modifies this`idleTimers, this`userPairing
      ensures Matches(e, View(), Leave(old(View())))
    {
      e := GoesOn;
      if !Named(state) {
        e := Panics(UnsupportedState);
      } else if state == FACTORY_RESET {
        e := Panics(LeftFactoryReset);
      } else if state == IN_CASE_IDLE || state == OUT_OF_CASE_IDLE {
        CancelFirstIdleTimer();
      } else if state == HANDSET_PAIRING {
        userPairing := false;
      }
    }

    /** Sleep is prohibited before the state changes and allowed after it. */
    method ChangeState(next: Code)
      modifies this`state, this`power
      ensures View() == Shift(old(View()), next)
    {
      var previous := state;
      if IsSleepy(previous) && !IsSleepy(next) {
        power := power + [false];
      }
      state := next;
      if !IsSleepy(previous) && IsSleepy(next) {
        power := power + [true];
      }
    }

    /** The entry functions of appSmSetState, all but the one that goes on to another state. */
    method Enter(a: Answers) returns (e: Ending)
      modifies this`lock, this`completions, this`linkTimeouts, this`initiated, this`idleTimers, this`noDfu
      ensures Matches(e, View(), Arrive(inCaseTimeout, a, old(View())))
    {
      e := GoesOn;
      if !Enterable(state) {
        e := Panics(UnsupportedState);
      } else if state == FACTORY_RESET {
        e := Reboots;
      } else if state == DFU_CHECK {
        if a.reason == NormalBoot {
          noDfu := noDfu + 1;
        }
      } else if state == HANDSET_PAIRING {
        if !userPairing {
          InitiateLinkDisconnection(a.bredrConnected, Pairing);
        }
      } else if state == IN_CASE_IDLE {
        if inCaseTimeout {
          if !a.charging {
            idleTimers := idleTimers + 1;
          }
        }
      } else if state == OUT_OF_CASE_IDLE {
        idleTimers := idleTimers + 1;
      }
    }

    /** appSmSetState, with the nested call from the DFU check. */
    method SetState(a: Answers, next: Code) returns (e: Ending)
      modifies this
      ensures Matches(e, View(), EarbudSmSpec.SetState(inCaseTimeout, a, old(View()), next))
      decreases next == DFU_CHECK
    {
      hide Leave, Arrive, Shift;
      e := Exit();
      if e != GoesOn {
        return;
      }
      ChangeState(next);
      e := Enter(a);
      if e == GoesOn && next == DFU_CHECK && a.reason != NormalBoot {
        e := SetState(a, STARTUP);
      }
    }

    /** appSmSetCoreState. */
    method SetCoreState(a: Answers) returns (e: Ending)
      modifies this
      ensures Matches(e, View(), EarbudSmSpec.SetCoreState(inCaseTimeout, a, old(View())))
    {
      hide EarbudSmSpec.SetState, CoreState;
      var s := CoreState(phy, a.busy);
      e := GoesOn;
      if s != state {
        e := SetState(a, s);
      }
    }

    // -------------------------------------------------------------- handlers

    /** appSm_HandleTwsTopologyRoleChange. */
    method HandleRoleChange(a: Answers, newRole: Role) returns (e: Ending)
      requires Valid()
      modifies this
      ensures Matches(e, View(), OnRole(inCaseTimeout, a, old(View()), newRole)) && EndsWell(e)
    {
      ghost var before := View();
      hide EarbudSmSpec.SetCoreState, IsCore, Fine;
      var oldRole := role;
      e := GoesOn;
      match newRole {
        case NoRole =>
          if state != IN_CASE_DFU {
            role := NoRole;
          }
        case Primary =>
          role := Primary;
        case Secondary =>
          role := Secondary;
          if a.reason != DfuReset {
            if oldRole == Primary {
              if !IsCore(state) && state != IN_CASE_DFU {
                e := SetCoreState(a);
              }
            }
          }
      }
      RoleEnds(inCaseTimeout, a, before, newRole, e, View());
    }

    /** appSm_HandleTwsTopologyStartCfm. */
    method HandleTopologyStartCfm(a: Answers, success: bool, newRole: Role) returns (e: Ending)
      requires Valid()
      modifies this
      ensures Matches(e, View(), OnTopologyStarted(inCaseTimeout, a, old(View()), success, newRole)) && EndsWell(e)
    {
      ghost var before := View();
      TopologyStartedKeeps(inCaseTimeout, a, before, success, newRole);
      hide FineOutcome, Blameless;
      hide Fine, InitialCore, OnRole;
      e := GoesOn;
      if state == STARTUP {
        e := SetInitialCoreState(a);
        if e == GoesOn && success {
          e := HandleRoleChange(a, newRole);
        }
      }
      EndingIsFine(inCaseTimeout, e, View(), OnTopologyStarted(inCaseTimeout, a, before, success, newRole));
    }

    /** appSmSetInitialCoreState. */
    method SetInitialCoreState(a: Answers) returns (e: Ending)
      requires Valid()
      modifies this
      ensures Matches(e, View(), InitialCore(inCaseTimeout, a, old(View()))) && EndsWell(e)
    {
      ghost var before := View();
      InitialCoreKeeps(inCaseTimeout, a, before);
      hide FineOutcome, Blameless;
      hide Fine;
      hide EarbudSmSpec.SetCoreState;
      registered := true;
      phy := actual;
      if phy == Unknown {
        e := Panics(NoPhysicalState);
      } else {
        e := SetCoreState(a);
      }
      EndingIsFine(inCaseTimeout, e, View(), InitialCore(inCaseTimeout, a, before));
    }

    /** appSmHandlePhyStateChangedInd takes the oldest indication. */
    method HandlePhyStateChanged(a: Answers) returns (e: Ending)
      requires Valid() && inds != []
      modifies this
      ensures Matches(e, View(), OnPhyChanged(inCaseTimeout, a, old(View()))) && EndsWell(e)
    {
      ghost var before := View();
      hide EarbudSmSpec.SetCoreState, IsCore, Fine;
      phy, inds := inds[0], inds[1..];
      e := GoesOn;
      match phy {
        case InCase =>
          if IsCore(state) || state == HANDSET_PAIRING {
            e := SetCoreState(a);
          }
        case Unknown =>
        case _ =>
          if IsCore(state) {
            e := SetCoreState(a);
          }
      }
      PhyEnds(inCaseTimeout, a, before, e, View());
    }

    /** appSmHandleInternalTimeoutIdle. */
    method HandleIdleTimeout(a: Answers) returns (e: Ending)
      requires Valid() && idleTimers > 0
      modifies this
      ensures Matches(e, View(), OnIdleTimeout(inCaseTimeout, a, old(View()))) && EndsWell(e)
    {
      ghost var before := View();
      IdleTimeoutKeeps(inCaseTimeout, a, before);
      hide FineOutcome, Blameless;
      hide EarbudSmSpec.SetState, Fine;
      idleTimers := idleTimers - 1;
      if state == IN_CASE_IDLE {
        e := SetState(a, IN_CASE_SOPORIFIC);
      } else if state == OUT_OF_CASE_IDLE {
        e := SetState(a, OUT_OF_CASE_SOPORIFIC);
      } else {
        e := Panics(UnexpectedIdleTimeout);
      }
      EndingIsFine(inCaseTimeout, e, View(), OnIdleTimeout(inCaseTimeout, a, before));
    }

    /** appSmHandlePowerSleepPrepareInd. */
    method HandleSleepPrepare(a: Answers) returns (e: Ending)
      requires Valid()
      modifies this
      ensures Matches(e, View(), OnSleepPrepare(inCaseTimeout, a, old(View()))) && EndsWell(e)
    {
      ghost var before := View();
      SleepPrepareKeeps(inCaseTimeout, a, before);
      hide FineOutcome, Blameless;
      hide EarbudSmSpec.SetState, Fine;
      if state != OUT_OF_CASE_SOPORIFIC && state != IN_CASE_SOPORIFIC {
        e := Panics(UnexpectedSleep);
      } else if state == IN_CASE_SOPORIFIC {
        e := SetState(a, IN_CASE_SOPORIFIC_TERMINATING);
      } else {
        e := SetState(a, OUT_OF_CASE_SOPORIFIC_TERMINATING);
      }
      EndingIsFine(inCaseTimeout, e, View(), OnSleepPrepare(inCaseTimeout, a, before));
    }

    /** appSmHandleInitConfirm. */
    method HandleInitConfirm(a: Answers) returns (e: Ending)
      requires Valid()
      modifies this
      ensures Matches(e, View(), OnInitDone(inCaseTimeout, a, old(View()))) && EndsWell(e)
    {
      ghost var before := View();
      InitDoneKeeps(inCaseTimeout, a, before);
      hide FineOutcome, Blameless;
      hide EarbudSmSpec.SetState, Fine;
      if state == INITIALISING {
        e := SetState(a, DFU_CHECK);
      } else if state == IN_CASE_DFU || state == TERMINATING {
        e := GoesOn;
      } else {
        e := Panics(UnexpectedInit);
      }
      EndingIsFine(inCaseTimeout, e, View(), OnInitDone(inCaseTimeout, a, before));
    }

    /** appSmHandleNoDfu. */
    method HandleNoDfu(a: Answers) returns (e: Ending)
      requires Valid() && noDfu > 0
      modifies this
      ensures Matches(e, View(), OnNoDfu(inCaseTimeout, a, old(View()))) && EndsWell(e)
    {
      ghost var before := View();
      hide EarbudSmSpec.SetState, Fine;
      noDfu := noDfu - 1;
      e := GoesOn;
      if state != IN_CASE_DFU {
        if !a.testMode {
          e := SetState(a, STARTUP);
        } else {
          e := SetState(a, DEVICE_TEST_MODE);
        }
      }
      NoDfuEnds(inCaseTimeout, a, before, e, View());
    }

    /** appSmHandleConnRulesHandsetPair. */
    method HandlePairRule(a: Answers) returns (e: Ending)
      requires Valid()
      modifies this
      ensures Matches(e, View(), OnPairRule(inCaseTimeout, a, old(View()))) && EndsWell(e)
    {
      ghost var before := View();
      PairingKeeps(inCaseTimeout, a, before);
      hide FineOutcome, Blameless;
      hide EarbudSmSpec.SetState, Fine;
      e := GoesOn;
      if state == OUT_OF_CASE_IDLE || state == IN_EAR_IDLE {
        userPairing := false;
        e := SetState(a, HANDSET_PAIRING);
      }
      EndingIsFine(inCaseTimeout, e, View(), OnPairRule(inCaseTimeout, a, before));
    }

    /** appSmHandleInternalPairHandset. */
    method HandlePairHandset(a: Answers) returns (e: Ending)
      requires Valid()
      modifies this
      ensures Matches(e, View(), OnPairHandset(inCaseTimeout, a, old(View()))) && EndsWell(e)
    {
      ghost var before := View();
      PairingKeeps(inCaseTimeout, a, before);
      hide FineOutcome, Blameless;
      hide EarbudSmSpec.SetState, IsIdle, Fine;
      e := GoesOn;
      if IsIdle(state) && role == Primary {
        userPairing := true;
        e := SetState(a, HANDSET_PAIRING);
      }
      EndingIsFine(inCaseTimeout, e, View(), OnPairHandset(inCaseTimeout, a, before));
    }

    /** appSmHandleInternalAllRequestedLinksDisconnected takes the oldest completion. */
    method HandleLinkComplete()
      requires Valid() && completions != [] && !lock
      modifies this`linkTimeouts, this`completions, this`performed
      ensures View() == OnLinkComplete(old(View())) && Valid()
    {
      LinkCompleteKeeps(inCaseTimeout, View());
      if linkTimeouts > 0 {
        linkTimeouts := linkTimeouts - 1;
      }
      performed := performed + [completions[0]];
      completions := completions[1..];
    }

    /** The handset has disconnected (appSmUpdateDisconnectingLinks): once it has gone, what waits for that is free. */
    method HandleHandsetDisconnected(a: Answers)
      requires Valid()
      modifies this`lock
      ensures Step(inCaseTimeout, a, old(View()), HandsetDisconnected) == Running(View()) && Valid()
      ensures !a.bredrConnected && completions != [] ==> Deliverable(View(), LinkComplete)
    {
      hide Fine;
      StepKeeps(inCaseTimeout, a, View(), HandsetDisconnected);
      if lock {
        if !a.bredrConnected {
          lock := false;
        }
      }
    }

    /** appSmHandleInternalLinkDisconnectionTimeout: whatever waits is free now. */
    method HandleLinkTimeout(a: Answers)
      requires Valid() && linkTimeouts > 0
      modifies this`lock, this`linkTimeouts
      ensures Step(inCaseTimeout, a, old(View()), LinkTimeout) == Running(View()) && Valid()
      ensures completions != [] ==> Deliverable(View(), LinkComplete)
    {
      hide Fine;
      StepKeeps(inCaseTimeout, a, View(), LinkTimeout);
      linkTimeouts := linkTimeouts - 1;
      lock := false;
    }

    /** appChargerCompleted. */
    method HandleChargerCompleted(a: Answers)
      requires Valid()
      modifies this`idleTimers
      ensures Step(inCaseTimeout, a, old(View()), ChargerCompleted) == Running(View()) && Valid()
    {
      hide Fine;
      StepKeeps(inCaseTimeout, a, View(), ChargerCompleted);
      if state == IN_CASE_IDLE {
        if inCaseTimeout {
          if !a.charging {
            idleTimers := idleTimers + 1;
          }
        }
      }
    }

    /** appSmHandleInternalDeleteHandsets. */
    method HandleDeleteHandsets(a: Answers)
      requires Valid()
      modifies this`lock, this`completions, this`linkTimeouts, this`initiated
      ensures Step(inCaseTimeout, a, old(View()), HandsetsToDelete) == Running(View()) && Valid()
    {
      hide Fine, Initiate;
      StepKeeps(inCaseTimeout, a, View(), HandsetsToDelete);
      if state == IN_CASE_IDLE || state == OUT_OF_CASE_IDLE || state == IN_EAR_IDLE {
        InitiateLinkDisconnection(a.bredrConnected, DeleteHandsets);
      }
    }

    /** The earbud moves, and the physical state module tells a registered machine. */
    method Move(a: Answers, p: Phy)
      requires Valid() && p != Unknown && p != actual
      modifies this`actual, this`inds
      ensures Step(inCaseTimeout, a, old(View()), Moved(p)) == Running(View()) && Valid()
    {
      hide Fine;
      MoveKeeps(inCaseTimeout, View(), p);
      actual := p;
      if registered {
        inds := inds + [p];
      }
    }

    /** A physical state event from the state proxy. */
    method HandleProxyPhyEvent(a: Answers)
      requires Valid()
      modifies this`phy
      ensures Step(inCaseTimeout, a, old(View()), ProxyPhyEvent) == Running(View()) && Valid()
    {
      hide Fine;
      StepKeeps(inCaseTimeout, a, View(), ProxyPhyEvent);
      phy := actual;
    }

    /** The messages whose handlers only change the state. */
    method HandleTransition(a: Answers, ev: Event) returns (e: Ending)
      requires ev.EnterDfu? || ev.DfuEnded? || ev.FactoryReset? || ev.SleepCancelled? || ev.ShutdownPrepare?
               || ev.ShutdownCancelled? || ev.TestEnded?
      requires Valid()
      modifies this
      ensures Matches(e, View(), Step(inCaseTimeout, a, old(View()), ev)) && EndsWell(e)
    {
      ghost var before := View();
      hide EarbudSmSpec.SetState, WithSubState, Fine;
      e := GoesOn;
      if ev.EnterDfu? {
        if !ev.dynamicRole && IN_CASE_DFU != state {
          e := SetState(a, IN_CASE_DFU);
        }
      } else if ev.DfuEnded? {
        if state == IN_CASE_DFU {
          e := SetState(a, STARTUP);
        }
      } else if ev.FactoryReset? {
        if state >= STARTUP {
          e := SetState(a, FACTORY_RESET);
        }
      } else if ev.ShutdownPrepare? {
        e := SetState(a, WithSubState(state, TERMINATING));
      } else {
        e := SetState(a, STARTUP);
      }
      StepEnds(inCaseTimeout, a, before, ev, e, View());
    }

    /** appSmHandleMessage. */
    method HandleMessage(a: Answers, ev: Event) returns (e: Ending)
      requires Valid() && Deliverable(View(), ev)
      modifies this
      ensures Matches(e, View(), Step(inCaseTimeout, a, old(View()), ev)) && EndsWell(e)
    {
      ghost var before := View();
      hide EarbudSmSpec.SetState, EarbudSmSpec.SetCoreState, OnRole, OnTopologyStarted, OnPhyChanged, OnIdleTimeout,
           OnSleepPrepare, OnInitDone, OnNoDfu, OnPairRule, OnPairHandset, OnFactoryReset, IsCore, Fine, OnLinkComplete,
           OnHandsetsToDelete, OnMoved, Blameless;
      e := GoesOn;
      match ev {
        case InitDone => e := HandleInitConfirm(a);
        case NoDfuFound => e := HandleNoDfu(a);
        case TopologyStarted(success, newRole) => e := HandleTopologyStartCfm(a, success, newRole);
        case RoleChanged(newRole) => e := HandleRoleChange(a, newRole);
        case PhyChanged => e := HandlePhyStateChanged(a);
        case AudioChanged =>
          if IsCore(state) {
            e := SetCoreState(a);
          }
        case PairConfirm =>
          if state == HANDSET_PAIRING {
            e := SetCoreState(a);
          }
        case PairRule => e := HandlePairRule(a);
        case PairHandset => e := HandlePairHandset(a);
        case SleepPrepare => e := HandleSleepPrepare(a);
        case IdleTimeout => e := HandleIdleTimeout(a);
        case Moved(p) => Move(a, p);
        case ProxyPhyEvent => HandleProxyPhyEvent(a);
        case ChargerCompleted => HandleChargerCompleted(a);
        case HandsetsToDelete => HandleDeleteHandsets(a);
        case HandsetDisconnected => HandleHandsetDisconnected(a);
        case LinkTimeout => HandleLinkTimeout(a);
        case LinkComplete => HandleLinkComplete();
        case _ => e := HandleTransition(a, ev);
      }
      StepEnds(inCaseTimeout, a, before, ev, e, View());
    }
  }
}
