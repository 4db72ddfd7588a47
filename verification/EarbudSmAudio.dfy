/** What the states of earbud/src/earbud_sm.c say about the audio, and where idle timeouts and sleep lead to. States are
    given here by their numbers in earbud/src/earbud_sm.h. */
module EarbudSmAudio {
  import opened EarbudSmSpec
  import opened EarbudSmRuns

  // ---------------------------------------------------------------- messages that set the core state

  /** The messages after which the machine works out its core state again. */
  predicate ActsOn(sm: Sm, a: Answers, e: Event) {
    match e
    case AudioChanged => IsCore(sm.state)
    case PairConfirm => sm.state == HANDSET_PAIRING
    case PhyChanged => sm.inds != [] && (IsCore(sm.state) || (sm.inds[0] == InCase && sm.state == HANDSET_PAIRING))
    case TopologyStarted(_, _) => sm.state == STARTUP
    case RoleChanged(role) =>
      role == Secondary && sm.role == Primary && a.reason != DfuReset && !IsCore(sm.state) && sm.state != IN_CASE_DFU
    case _ => false
  }

  /** The busy bit is set exactly when audio is active out of the case or in the ear; without it the state is the idle
      one; and the parent bits are those of the place. */
  predicate TellsAudio(s: Code, phy: Phy, busy: bool) {
    && (s & 0x0010 != 0 <==> busy && phy != InCase && phy != Unknown)
    && (s & 0x0010 == 0 ==> s == (s & 0xE000) | 0x0008)
    && ParentAgrees(s, phy)
  }

  lemma CoreStateTells(phy: Phy, busy: bool)
    ensures TellsAudio(CoreState(phy, busy), phy, busy)
    ensures CoreState(phy, busy) != FACTORY_RESET && CoreState(phy, busy) != DFU_CHECK && Enterable(CoreState(phy, busy))
    ensures IsCore(CoreState(phy, busy))
  {
  }

  lemma SetCoreTells(inCaseTimeout: bool, a: Answers, sm: Sm)
    requires Good(inCaseTimeout, sm)
    ensures var r := SetCoreState(inCaseTimeout, a, sm);
            && r.Running? && TellsAudio(r.sm.state, sm.phy, a.busy) && SamePhy(sm, r.sm) && IsCore(r.sm.state)
  {
    CoreStateTells(sm.phy, a.busy);
    hide CoreState, SetState, TellsAudio, IsCore, Enterable, SleepDisciplined, Conserved;
    if CoreState(sm.phy, a.busy) != sm.state {
      SetStateKeeps(inCaseTimeout, a, sm, CoreState(sm.phy, a.busy));
    }
  }

  lemma StartTells(inCaseTimeout: bool, a: Answers, sm: Sm, success: bool, role: Role)
    requires Good(inCaseTimeout, sm) && sm.state == STARTUP
    ensures match OnTopologyStarted(inCaseTimeout, a, sm, success, role)
            case Running(r) => TellsAudio(r.state, r.phy, a.busy) && IsCore(r.state)
            case Rebooted(_) => false
            case Panicked(_) => sm.actual == Unknown
  {
    hide SetCoreState, TellsAudio, IsCore, SleepDisciplined, Conserved;
    if sm.actual != Unknown {
      SameButPhy(inCaseTimeout, sm, sm.(registered := true, phy := sm.actual));
      SetCoreTells(inCaseTimeout, a, sm.(registered := true, phy := sm.actual));
    }
  }

  /** A message that acts leads to the state for the audio and the place at that moment. */
  lemma ActingStep(inCaseTimeout: bool, a: Answers, sm: Sm, e: Event)
    requires Fine(inCaseTimeout, sm) && Deliverable(sm, e) && ActsOn(sm, a, e)
    ensures match Step(inCaseTimeout, a, sm, e)
            case Running(r) => TellsAudio(r.state, r.phy, a.busy) && IsCore(r.state)
            case Rebooted(_) => false
            case Panicked(_) => e.TopologyStarted? && sm.actual == Unknown
  {
    hide SetCoreState, TellsAudio, IsCore, Good, OnTopologyStarted, OnPhyChanged, OnRole;
    match e
    case TopologyStarted(success, role) => StartTells(inCaseTimeout, a, sm, success, role);
    case PhyChanged => PlaceTells(inCaseTimeout, a, sm);
    case RoleChanged(role) => LossTells(inCaseTimeout, a, sm, role);
    case _ => SetCoreTells(inCaseTimeout, a, sm);
  }

  lemma PlaceTells(inCaseTimeout: bool, a: Answers, sm: Sm)
    requires Fine(inCaseTimeout, sm) && sm.inds != [] && ActsOn(sm, a, PhyChanged)
    ensures match OnPhyChanged(inCaseTimeout, a, sm)
            case Running(r) => TellsAudio(r.state, r.phy, a.busy) && IsCore(r.state)
            case _ => false
  {
    hide SetCoreState, TellsAudio, IsCore, Good;
    var seen := sm.(phy := sm.inds[0], inds := sm.inds[1..]);
    SameButPhy(inCaseTimeout, sm, seen);
    SetCoreTells(inCaseTimeout, a, seen);
  }

  lemma LossTells(inCaseTimeout: bool, a: Answers, sm: Sm, role: Role)
    requires Fine(inCaseTimeout, sm) && ActsOn(sm, a, RoleChanged(role))
    ensures match OnRole(inCaseTimeout, a, sm, role)
            case Running(r) => TellsAudio(r.state, r.phy, a.busy) && IsCore(r.state)
            case _ => false
  {
    hide SetCoreState, TellsAudio, IsCore, Good;
    SameButPhy(inCaseTimeout, sm, sm.(role := Secondary));
    SetCoreTells(inCaseTimeout, a, sm.(role := Secondary));
  }

  lemma SameButPhy(inCaseTimeout: bool, sm: Sm, other: Sm)
    requires Good(inCaseTimeout, sm) && other == sm.(phy := other.phy, inds := other.inds, role := other.role, registered := other.registered)
    ensures Good(inCaseTimeout, other)
  {
    hide IsSleepy;
  }

  // ---------------------------------------------------------------- all other messages

  /** The soporific state of an idle one. */
  predicate FallsAsleep(s: Code, asleep: Code) {
    (s == 0x2008 && asleep == 0x2002) || (s == 0x4008 && asleep == 0x4002)
  }

  lemma LandsOutsideCore(inCaseTimeout: bool, a: Answers, sm: Sm, next: Code)
    requires !IsCore(next)
    ensures var r := SetState(inCaseTimeout, a, sm, next); r.Running? ==> !IsCore(r.sm.state)
  {
    Lands(inCaseTimeout, a, sm, next);
    assert !IsCore(STARTUP);
  }

  lemma NotCoreStates()
    ensures !IsCore(STARTUP) && !IsCore(DFU_CHECK) && !IsCore(IN_CASE_DFU) && !IsCore(FACTORY_RESET)
    ensures !IsCore(DEVICE_TEST_MODE) && !IsCore(HANDSET_PAIRING) && !IsCore(IN_CASE_SOPORIFIC_TERMINATING)
    ensures !IsCore(OUT_OF_CASE_SOPORIFIC_TERMINATING)
  {
  }

  /** A message that is a transition leaves a core state alone or leads out of the core. */
  lemma TransitionLeavesCore(inCaseTimeout: bool, a: Answers, sm: Sm, e: Event)
    requires Deliverable(sm, e) && IsTransition(e)
    ensures var r := Step(inCaseTimeout, a, sm, e); r.Running? && IsCore(r.sm.state) ==> r.sm.state == sm.state
  {
    NotCoreStates();
    NotCore(sm.state);
    hide SetState, IsCore, IsIdle, WithSubState, Target;
    forall x: Sm, next: Code | !IsCore(next)
      ensures var r := SetState(inCaseTimeout, a, x, next); r.Running? ==> !IsCore(r.sm.state)
    {
      LandsOutsideCore(inCaseTimeout, a, x, next);
    }
  }

  lemma IdleTimeoutSleeps(inCaseTimeout: bool, a: Answers, sm: Sm)
    requires sm.idleTimers > 0
    ensures var r := OnIdleTimeout(inCaseTimeout, a, sm); r.Running? ==> FallsAsleep(sm.state, r.sm.state)
  {
    Lands(inCaseTimeout, a, sm.(idleTimers := sm.idleTimers - 1), IN_CASE_SOPORIFIC);
    Lands(inCaseTimeout, a, sm.(idleTimers := sm.idleTimers - 1), OUT_OF_CASE_SOPORIFIC);
    hide SetState;
  }

  /** A message that does not act leaves a core state alone, or leads out of the core, or from an idle state to the
      soporific one. */
  lemma OtherStep(inCaseTimeout: bool, a: Answers, sm: Sm, e: Event)
    requires Fine(inCaseTimeout, sm) && Deliverable(sm, e) && !ActsOn(sm, a, e)
    ensures var r := Step(inCaseTimeout, a, sm, e);
            r.Running? && IsCore(r.sm.state) ==> r.sm.state == sm.state || FallsAsleep(sm.state, r.sm.state)
  {
    hide SetCoreState, SetState, IsCore, FallsAsleep, Good;
    if IsTransition(e) {
      TransitionLeavesCore(inCaseTimeout, a, sm, e);
      hide Step;
    } else if e.IdleTimeout? {
      IdleTimeoutSleeps(inCaseTimeout, a, sm);
    } else {
      QuietStep(inCaseTimeout, a, sm, e);
      hide Step;
    }
  }

  lemma QuietStep(inCaseTimeout: bool, a: Answers, sm: Sm, e: Event)
    requires Fine(inCaseTimeout, sm) && Deliverable(sm, e) && !ActsOn(sm, a, e) && !IsTransition(e) && !e.IdleTimeout?
    ensures var r := Step(inCaseTimeout, a, sm, e); r.Running? && r.sm.state == sm.state
  {
    hide SetCoreState, SetState, IsCore, Good;
  }

  // ---------------------------------------------------------------- over runs

  /** The last message of the run was delivered and acted. */
  predicate ActedLast(inCaseTimeout: bool, actual: Phy, run: seq<Delivery>) {
    && run != []
    && var d := run[|run| - 1];
       match Run(inCaseTimeout, Start(actual), run[..|run| - 1])
       case Running(before) => Deliverable(before, d.event) && ActsOn(before, d.answers, d.event)
       case _ => false
  }

  /** After a message that acts, the state tells the audio and the place at that moment. */
  lemma AudioShows(inCaseTimeout: bool, actual: Phy, run: seq<Delivery>)
    requires ActedLast(inCaseTimeout, actual, run)
    ensures match Run(inCaseTimeout, Start(actual), run)
            case Running(sm) => TellsAudio(sm.state, sm.phy, run[|run| - 1].answers.busy)
            case Rebooted(_) => false
            case Panicked(why) => run[|run| - 1].event.TopologyStarted?
  {
    var front, d := run[..|run| - 1], run[|run| - 1];
    RunsAreFine(inCaseTimeout, actual, front);
    hide Step, Fine, TellsAudio, ActsOn, Deliverable;
    ActingStep(inCaseTimeout, d.answers, Run(inCaseTimeout, Start(actual), front).sm, d.event);
  }

  predicate ActedAt(inCaseTimeout: bool, actual: Phy, run: seq<Delivery>, i: nat) {
    i < |run| && ActedLast(inCaseTimeout, actual, run[..i + 1])
  }

  /** Message `i` was the last one to act, and the state is still the one that it led to, or the soporific one after it. */
  ghost predicate SetBy(inCaseTimeout: bool, actual: Phy, run: seq<Delivery>, i: nat, s: Code) {
    && ActedAt(inCaseTimeout, actual, run, i)
    && (forall j: nat | i < j < |run| :: !ActedAt(inCaseTimeout, actual, run, j))
    && match Run(inCaseTimeout, Start(actual), run[..i + 1])
       case Running(entered) =>
         TellsAudio(entered.state, entered.phy, run[i].answers.busy) && (s == entered.state || FallsAsleep(entered.state, s))
       case _ => false
  }

  ghost predicate ShowsAudio(inCaseTimeout: bool, actual: Phy, run: seq<Delivery>, s: Code) {
    exists i: nat :: SetBy(inCaseTimeout, actual, run, i, s)
  }

  /** Over all runs: a core state is the one for the audio and the place at the last message that acted, or the soporific
      state after that one. */
  lemma {:induction false} CoreShowsAudio(inCaseTimeout: bool, actual: Phy, run: seq<Delivery>)
    ensures match Run(inCaseTimeout, Start(actual), run)
            case Running(sm) => IsCore(sm.state) ==> ShowsAudio(inCaseTimeout, actual, run, sm.state)
            case _ => true
    decreases |run|
  {
    hide ShowsAudio;
    if run == [] {
      assert !IsCore(INITIALISING);
    } else {
      CoreShowsAudio(inCaseTimeout, actual, run[..|run| - 1]);
      var r := Run(inCaseTimeout, Start(actual), run);
      if r.Running? && IsCore(r.sm.state) {
        ShownNext(inCaseTimeout, actual, run);
      }
    }
  }

  lemma ShownNext(inCaseTimeout: bool, actual: Phy, run: seq<Delivery>)
    requires run != [] && Run(inCaseTimeout, Start(actual), run).Running?
    requires IsCore(Run(inCaseTimeout, Start(actual), run).sm.state)
    requires match Run(inCaseTimeout, Start(actual), run[..|run| - 1])
             case Running(sm) => IsCore(sm.state) ==> ShowsAudio(inCaseTimeout, actual, run[..|run| - 1], sm.state)
             case _ => true
    ensures ShowsAudio(inCaseTimeout, actual, run, Run(inCaseTimeout, Start(actual), run).sm.state)
  {
    var n, d := |run| - 1, run[|run| - 1];
    var before, after := Run(inCaseTimeout, Start(actual), run[..n]).sm, Run(inCaseTimeout, Start(actual), run).sm;
    hide Step, Fine, TellsAudio, ActsOn, Deliverable, IsCore, ShowsAudio, FallsAsleep;
    if ActedLast(inCaseTimeout, actual, run) {
      AudioShows(inCaseTimeout, actual, run);
      SetNow(inCaseTimeout, actual, run, after.state);
    } else {
      RunsAreFine(inCaseTimeout, actual, run[..n]);
      if Deliverable(before, d.event) {
        OtherStep(inCaseTimeout, d.answers, before, d.event);
      }
      SetEarlier(inCaseTimeout, actual, run, before.state, after.state);
    }
  }

  lemma SetNow(inCaseTimeout: bool, actual: Phy, run: seq<Delivery>, s: Code)
    requires ActedLast(inCaseTimeout, actual, run)
    requires match Run(inCaseTimeout, Start(actual), run)
             case Running(sm) => TellsAudio(sm.state, sm.phy, run[|run| - 1].answers.busy) && s == sm.state
             case _ => false
    ensures ShowsAudio(inCaseTimeout, actual, run, s)
  {
    hide TellsAudio, Run, FallsAsleep;
    assert run != [] && run[..|run| - 1 + 1] == run;
    var last: nat := |run| - 1;
    assert ActedAt(inCaseTimeout, actual, run, last);
    assert SetBy(inCaseTimeout, actual, run, last, s);
  }

  lemma SetEarlier(inCaseTimeout: bool, actual: Phy, run: seq<Delivery>, s: Code, after: Code)
    requires run != [] && !ActedLast(inCaseTimeout, actual, run) && IsCore(after)
    requires after == s || FallsAsleep(s, after)
    requires IsCore(s) ==> ShowsAudio(inCaseTimeout, actual, run[..|run| - 1], s)
    ensures ShowsAudio(inCaseTimeout, actual, run, after)
  {
    AwakeOrAsleep(s, after);
    hide IsCore, ActedLast, SetBy, FallsAsleep;
    var i: nat :| SetBy(inCaseTimeout, actual, run[..|run| - 1], i, s);
    SetStays(inCaseTimeout, actual, run, run[..|run| - 1], i, s, after);
  }

  lemma SetStays(inCaseTimeout: bool, actual: Phy, run: seq<Delivery>, front: seq<Delivery>, i: nat, s: Code, after: Code)
    requires run != [] && front == run[..|run| - 1] && !ActedLast(inCaseTimeout, actual, run)
    requires SetBy(inCaseTimeout, actual, front, i, s)
    requires forall x | x == s || FallsAsleep(x, s) :: after == x || FallsAsleep(x, after)
    ensures SetBy(inCaseTimeout, actual, run, i, after)
  {
    hide ActedLast, TellsAudio, Run, FallsAsleep;
    assert run[..|front| + 1] == run;
    forall j: nat | j < |front| ensures ActedAt(inCaseTimeout, actual, front, j) == ActedAt(inCaseTimeout, actual, run, j) {
      assert front[..j + 1] == run[..j + 1];
    }
    assert front[..i + 1] == run[..i + 1] && front[i] == run[i];
  }

  /** A state that has fallen asleep does not do so again. */
  lemma AwakeOrAsleep(s: Code, after: Code)
    requires IsCore(after) && (after == s || FallsAsleep(s, after))
    ensures IsCore(s) && forall x | x == s || FallsAsleep(x, s) :: after == x || FallsAsleep(x, after)
  {
  }

  // ---------------------------------------------------------------- idle timeouts and sleep

  /** An idle timeout is possible from the idle states in the case and out of it, and leads to the soporific ones. */
  lemma IdleTimeoutLeadsTo(inCaseTimeout: bool, a: Answers, sm: Sm)
    requires Fine(inCaseTimeout, sm) && sm.idleTimers > 0
    ensures match Step(inCaseTimeout, a, sm, IdleTimeout)
            case Running(r) => FallsAsleep(sm.state, r.state) && r.power == sm.power + [true]
            case Rebooted(_) => false
            case Panicked(why) => sm.state != 0x2008 && sm.state != 0x4008 && why == UnexpectedIdleTimeout
  {
  }

  /** Preparing for sleep leads from each soporific state to its terminating one, and is a panic elsewhere. */
  lemma SleepPrepareLeadsTo(inCaseTimeout: bool, a: Answers, sm: Sm)
    requires Fine(inCaseTimeout, sm)
    ensures match Step(inCaseTimeout, a, sm, SleepPrepare)
            case Running(r) => ((sm.state == 0x2002 && r.state == 0x2004) || (sm.state == 0x4002 && r.state == 0x4004))
                               && r.power == sm.power
            case Rebooted(_) => false
            case Panicked(why) => sm.state != 0x2002 && sm.state != 0x4002 && why == UnexpectedSleep
  {
  }
}
