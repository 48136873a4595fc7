/**
 Recycling an outside occupant of the port, and giving up on it (src/relay.cpp).

 The listen thread adopts an occupant; the owner of the relay, which is the idle pass
 or an eviction, recycles it with gracefulStop and re-arms the relay with
 resetForIdle.  Every load and store of the shared flags is a step of its own.
 */
module GiveUpLatch {

  /** Where the listen thread stands; Adopt* is tryAdoptExternalOccupant. */
  datatype Pc =
    | Top | GroupTest | Entered | OutsideTest | OutsideWait | OutsideClear
    | Binding | FailStop | AdoptTest | AdoptProbe | AdoptStore | Backoff | Serving | Exited

  /**
   Where the owner stands: in the outsider branch of gracefulStop, behind it in evict, or in
   resetForIdle.  An eviction goes on to signalStop and resetForIdle whatever gracefulStop did.
   */
  datatype Owner =
    | Ready
    | Loaded | Polling | Clearing(released: bool) | Latching(released: bool)
    | LatchFirst | ClearAfter
    | Signalling | Signalled
    | Joined | StopCleared | GroupCleared

  /** `hasCommand` is whether a stop_command is configured. */
  datatype State =
    State(hasCommand: bool, stop: bool, released: bool, giveUp: bool, outside: bool, pc: Pc, owner: Owner)

  /** `answer` is what the port probe, the bind or the clock says. */
  datatype Step =
    Listen(answer: bool) | RequestStop | SetGroup(released: bool) | Graceful(answer: bool) | Signal | Rearm

  /** The two callers: the idle path has set stop before it calls gracefulStop, an eviction has not. */
  datatype Path = Idle | Evict

  predicate Enabled(path: Path, s: State, step: Step) {
    match step
    case Listen(_) => s.pc != Exited
    case RequestStop => true
    case SetGroup(_) => true
    case Graceful(_) => (s.owner.Ready? && (path.Idle? ==> s.stop)) || Recycling(s.owner)
    case Signal => s.owner.Signalling?
    case Rearm =>
      || (s.pc == Exited && if path.Idle? then s.owner.Ready? else s.owner.Signalled?)
      || s.owner.Joined? || s.owner.StopCleared? || s.owner.GroupCleared?
  }

  /** Where the owner goes when gracefulStop returns. */
  function Done(path: Path): Owner {
    if path.Idle? then Ready else Signalling
  }

  function ListenStep(s: State, answer: bool): State
    requires s.pc != Exited
  {
    match s.pc
    case Top => s.(pc := if s.stop then Exited else GroupTest)
    case GroupTest => s.(pc := if s.released then Exited else Entered)
    case Entered => s.(pc := if answer then OutsideTest else Top)
    case OutsideTest => s.(pc := if s.outside then OutsideWait else Binding)
    case OutsideWait => s.(pc := if s.stop then Exited else if answer then OutsideClear else Top)
    case OutsideClear => s.(outside := false, pc := Top)
    case Binding => s.(pc := if answer then Serving else FailStop)
    case FailStop => s.(pc := if s.stop then Exited else AdoptTest)
    case AdoptTest => s.(pc := if !s.hasCommand || s.giveUp then Backoff else AdoptProbe)
    case AdoptProbe => s.(pc := if answer then AdoptStore else Backoff)
    case AdoptStore => s.(outside := true, pc := Top)
    case Backoff => s.(pc := if s.stop then Exited else if answer then Top else Backoff)
    case Serving => s.(pc := if answer then Top else Exited)
  }

  function GracefulStep(path: Path, s: State, answer: bool): State
    requires s.owner.Ready? || Recycling(s.owner)
  {
    match s.owner
    case Ready => s.(owner := if !s.outside then Done(path) else if s.hasCommand then Loaded else LatchFirst)
    case Loaded => s.(owner := Polling)
    case Polling => s.(owner := Clearing(answer))
    case Clearing(released) => s.(outside := false, owner := Latching(released))
    case Latching(released) => s.(giveUp := s.giveUp || !released, owner := Done(path))
    case LatchFirst => s.(giveUp := true, owner := ClearAfter)
    case ClearAfter => s.(outside := false, owner := Done(path))
  }

  function RearmStep(s: State): State {
    match s.owner
    case Joined => s.(stop := false, owner := StopCleared)
    case StopCleared => s.(released := false, owner := GroupCleared)
    case GroupCleared => s.(pc := Top, owner := Ready)
    case _ => s.(owner := Joined)
  }

  function Apply(path: Path, s: State, step: Step): State
    requires Enabled(path, s, step)
  {
    match step
    case Listen(answer) => ListenStep(s, answer)
    case RequestStop => s.(stop := true)
    case SetGroup(released) => s.(released := released)
    case Graceful(answer) => GracefulStep(path, s, answer)
    case Signal => s.(stop := true, owner := Signalled)
    case Rearm => RearmStep(s)
  }

  ghost predicate Run(path: Path, states: seq<State>, steps: seq<Step>) {
    && |states| == |steps| + 1
    && forall i :: 0 <= i < |steps| ==>
         Enabled(path, states[i], steps[i]) && states[i + 1] == Apply(path, states[i], steps[i])
  }

  /** The step marks the port as occupied from outside. */
  predicate Adopts(s: State, step: Step) {
    step.Listen? && s.pc == AdoptStore
  }

  /** The step runs stop_command on an outsider. */
  predicate Recycles(s: State, step: Step) {
    step.Graceful? && s.owner == Loaded
  }

  /** The step sets the latch. */
  predicate GivesUp(s: State, step: Step) {
    step.Graceful? && (s.owner == Latching(false) || s.owner == LatchFirst)
  }

  // ---- The latch ----

  /** Past the load of the give-up flag: an adoption can still follow. */
  predicate Adopting(pc: Pc) {
    pc == AdoptProbe || pc == AdoptStore
  }

  /** Inside gracefulStop's outsider branch. */
  predicate Recycling(owner: Owner) {
    owner.Loaded? || owner.Polling? || owner.Clearing? || owner.Latching? || owner.LatchFirst? || owner.ClearAfter?
  }

  /** Once given up, the port is not marked, and neither thread is on the way to marking or recycling it. */
  predicate Latched(s: State) {
    s.giveUp ==> !s.outside && !Adopting(s.pc) && !Recycling(s.owner)
  }

  /** Steps at which a give-up comes too late: the adoption it should prevent has passed its test, or happened. */
  predicate Late(s: State, step: Step) {
    step.Graceful? && ((s.owner == Latching(false) && (s.outside || Adopting(s.pc))) || s.owner == LatchFirst)
  }

  lemma ListenLatches(s: State, answer: bool)
    requires Latched(s) && s.pc != Exited
    ensures Latched(ListenStep(s, answer))
  {
  }

  lemma GracefulLatches(path: Path, s: State, answer: bool)
    requires Latched(s) && Enabled(path, s, Graceful(answer))
    ensures Latched(GracefulStep(path, s, answer)) <==> !Late(s, Graceful(answer))
  {
  }

  lemma OthersLatch(path: Path, s: State, step: Step)
    requires Latched(s) && Enabled(path, s, step) && !step.Listen? && !step.Graceful?
    ensures Latched(Apply(path, s, step))
  {
    hide ListenStep, GracefulStep;
  }

  /** On either path, a step keeps the latch exactly when it is not such a give-up. */
  lemma LatchExactly(path: Path, s: State, step: Step)
    requires Latched(s) && Enabled(path, s, step)
    ensures Latched(Apply(path, s, step)) <==> !Late(s, step)
  {
    hide ListenStep, GracefulStep, RearmStep, Latched;
    match step {
      case Listen(answer) =>
        ListenLatches(s, answer);
      case Graceful(answer) =>
        GracefulLatches(path, s, answer);
      case _ =>
        OthersLatch(path, s, step);
    }
  }

  /** What every interleaving keeps when the owner sets stop first. */
  predicate Inv(s: State) {
    && Latched(s)
    && (s.pc in {Binding, FailStop, AdoptTest, AdoptProbe, AdoptStore} ==> !s.outside)
    && (!s.hasCommand ==> !s.outside && !Adopting(s.pc))
    && (Recycling(s.owner) ==> s.hasCommand && s.stop && s.pc != AdoptTest && !Adopting(s.pc))
    && (s.owner.Latching? ==> !s.outside)
    && (s.owner.Joined? || s.owner.StopCleared? || s.owner.GroupCleared? ==> s.pc == Exited)
    && !s.owner.LatchFirst? && !s.owner.ClearAfter?
  }

  lemma ListenInv(s: State, answer: bool)
    requires Inv(s) && s.pc != Exited
    ensures Inv(ListenStep(s, answer))
  {
    match s.pc {
      case AdoptStore =>
      case _ =>
    }
  }

  lemma GracefulInv(s: State, answer: bool)
    requires Inv(s) && Enabled(Idle, s, Graceful(answer))
    ensures Inv(GracefulStep(Idle, s, answer))
  {
  }

  lemma RearmInv(s: State)
    requires Inv(s) && Enabled(Idle, s, Rearm)
    ensures Inv(RearmStep(s))
  {
  }

  lemma OthersInv(s: State, step: Step)
    requires Inv(s) && Enabled(Idle, s, step) && !step.Listen? && !step.Graceful? && !step.Rearm?
    ensures Inv(Apply(Idle, s, step))
  {
    hide ListenStep, GracefulStep, RearmStep;
  }

  /** Every step of every interleaving, re-arming included, keeps it. */
  lemma StepInv(s: State, step: Step)
    requires Inv(s) && Enabled(Idle, s, step)
    ensures Inv(Apply(Idle, s, step))
  {
    hide ListenStep, GracefulStep, RearmStep, Inv;
    match step {
      case Listen(answer) =>
        ListenInv(s, answer);
      case Graceful(answer) =>
        GracefulInv(s, answer);
      case Rearm =>
        RearmInv(s);
      case _ =>
        OthersInv(s, step);
    }
  }

  lemma {:induction false} RunInv(states: seq<State>, steps: seq<Step>)
    requires Run(Idle, states, steps) && Inv(states[0])
    ensures forall k :: 0 <= k < |states| ==> Inv(states[k])
    decreases |steps|
  {
    hide Inv, Enabled, Apply;
    if steps != [] {
      var n := |steps| - 1;
      RunInv(states[..n + 1], steps[..n]);
      assert Inv(states[..n + 1][n]);
      StepInv(states[n], steps[n]);
      forall k | 0 <= k < |states|
        ensures Inv(states[k])
      {
        assert k <= n ==> states[k] == states[..n + 1][k];
      }
    }
  }

  predicate Initial(s: State) {
    !s.giveUp && !s.outside && s.pc == Top && s.owner == Ready
  }

  /** What a latched state rules out for the step taken in it. */
  lemma LatchedStep(s: State, step: Step)
    requires Inv(s) && s.giveUp && Enabled(Idle, s, step)
    ensures Apply(Idle, s, step).giveUp && !s.outside
    ensures !Adopts(s, step) && !Recycles(s, step) && !GivesUp(s, step)
  {
  }

  /** Without a stop_command nothing is marked, and neither thread is on the way to marking or recycling. */
  predicate Untouched(s: State) {
    !s.hasCommand && !s.outside && !s.giveUp && !Adopting(s.pc) && !Recycling(s.owner)
  }

  /** On either path a relay without a stop_command never takes an outsider for its backend. */
  lemma {:induction false} NeverWithoutCommand(path: Path, states: seq<State>, steps: seq<Step>, k: nat)
    requires Run(path, states, steps) && Untouched(states[0]) && k < |states|
    ensures Untouched(states[k])
    ensures k < |steps| ==> !Adopts(states[k], steps[k]) && !Recycles(states[k], steps[k])
    decreases k
  {
    hide Untouched, Enabled, Apply, Adopts, Recycles;
    if k > 0 {
      NeverWithoutCommand(path, states, steps, k - 1);
      UntouchedStep(path, states[k - 1], steps[k - 1]);
    }
    if k < |steps| {
      UntouchedNever(states[k], steps[k]);
    }
  }

  lemma UntouchedStep(path: Path, s: State, step: Step)
    requires Untouched(s) && Enabled(path, s, step)
    ensures Untouched(Apply(path, s, step))
  {
    if step.Listen? {
      assert s.pc != Exited;
    }
  }

  lemma UntouchedNever(s: State, step: Step)
    requires Untouched(s)
    ensures !Adopts(s, step) && !Recycles(s, step)
  {
  }

  /**
   On the idle path give-up is permanent: from the state that has it on, in every run, the port
   is never marked again, stop_command is never run on an outsider again, and nothing re-arms that.
   */
  lemma {:induction false} GiveUpIsForGood(states: seq<State>, steps: seq<Step>, k: nat, m: nat)
    requires Run(Idle, states, steps) && Initial(states[0]) && k <= m < |states| && states[k].giveUp
    ensures states[m].giveUp && !states[m].outside
    ensures m < |steps| ==>
              !Adopts(states[m], steps[m]) && !Recycles(states[m], steps[m]) && !GivesUp(states[m], steps[m])
    decreases m
  {
    hide Enabled, Apply, Adopts, Recycles, GivesUp;
    RunInv(states, steps);
    if m > k {
      GiveUpIsForGood(states, steps, k, m - 1);
      LatchedStep(states[m - 1], steps[m - 1]);
    }
    if m < |steps| {
      LatchedStep(states[m], steps[m]);
    }
  }

  lemma GivingUpLatches(s: State, step: Step)
    requires Enabled(Idle, s, step) && GivesUp(s, step)
    ensures Apply(Idle, s, step).giveUp
  {
  }

  /** So a run gives up at most once. */
  lemma GivesUpOnce(states: seq<State>, steps: seq<Step>, i: nat, k: nat)
    requires Run(Idle, states, steps) && Initial(states[0]) && i < |steps| && k < |steps|
    requires GivesUp(states[i], steps[i]) && GivesUp(states[k], steps[k])
    ensures i == k
  {
    hide Enabled, Apply, GivesUp;
    var first, second := if i < k then i else k, if i < k then k else i;
    if first < second {
      GivingUpLatches(states[first], steps[first]);
      GiveUpIsForGood(states, steps, first + 1, second);
    }
  }

  // ---- The eviction path ----

  /** Some n steps lead from s to t. */
  ghost predicate Reach(path: Path, s: State, t: State, n: nat)
    decreases n
  {
    if n == 0 then s == t
    else exists step :: Enabled(path, s, step) && Reach(path, Apply(path, s, step), t, n - 1)
  }

  lemma ReachMore(path: Path, s: State, step: Step, t: State, n: nat)
    requires Enabled(path, s, step) && Reach(path, Apply(path, s, step), t, n)
    ensures Reach(path, s, t, n + 1)
  {
    hide Enabled, Apply;
  }

  lemma {:induction false} ReachJoin(path: Path, s: State, m: State, t: State, a: nat, b: nat)
    requires Reach(path, s, m, a) && Reach(path, m, t, b)
    ensures Reach(path, s, t, a + b)
    decreases a
  {
    hide Enabled, Apply;
    if a > 0 {
      var step :| Enabled(path, s, step) && Reach(path, Apply(path, s, step), m, a - 1);
      ReachJoin(path, Apply(path, s, step), m, t, a - 1, b);
      ReachMore(path, s, step, t, a - 1 + b);
    }
  }

  /** The listen thread fails to bind and comes to the test of the latch. */
  lemma GoesToTest(path: Path, s: State)
    requires !s.stop && !s.released && !s.outside && s.pc == Top
    ensures Reach(path, s, s.(pc := AdoptTest), 6)
  {
    hide Reach;
    var t := s.(pc := AdoptTest);
    ReachSelf(path, t);
    ReachMore(path, s.(pc := FailStop), Listen(true), t, 0);
    ReachMore(path, s.(pc := Binding), Listen(false), t, 1);
    ReachMore(path, s.(pc := OutsideTest), Listen(true), t, 2);
    ReachMore(path, s.(pc := Entered), Listen(true), t, 3);
    ReachMore(path, s.(pc := GroupTest), Listen(true), t, 4);
    ReachMore(path, s, Listen(true), t, 5);
  }

  /** It goes on to an adoption it has not stored yet. */
  lemma GoesToAdopt(path: Path, s: State)
    requires s.hasCommand && !s.stop && !s.released && !s.giveUp && !s.outside && s.pc == Top
    ensures Reach(path, s, s.(pc := AdoptStore), 8)
  {
    hide Reach;
    var test, t := s.(pc := AdoptTest), s.(pc := AdoptStore);
    ReachSelf(path, t);
    ReachMore(path, s.(pc := AdoptProbe), Listen(true), t, 0);
    ReachMore(path, test, Listen(true), t, 1);
    GoesToTest(path, s);
    ReachJoin(path, s, test, t, 6, 2);
  }

  lemma ReachSelf(path: Path, s: State)
    ensures Reach(path, s, s, 0)
  {
  }

  /** An eviction recycles without success, and is about to set the latch it has made room for. */
  lemma RecyclesInVain(s: State)
    requires s.hasCommand && s.outside && s.owner == Ready
    ensures Reach(Evict, s, s.(outside := false, owner := Latching(false)), 4)
  {
    hide Reach;
    var t := s.(outside := false, owner := Latching(false));
    ReachSelf(Evict, t);
    ReachMore(Evict, s.(owner := Clearing(false)), Graceful(true), t, 0);
    ReachMore(Evict, s.(owner := Polling), Graceful(false), t, 1);
    ReachMore(Evict, s.(owner := Loaded), Graceful(true), t, 2);
    ReachMore(Evict, s, Graceful(true), t, 3);
  }

  /** resetForIdle. */
  lemma Rearms(s: State)
    requires s.pc == Exited && s.owner == Signalled
    ensures Reach(Evict, s, s.(stop := false, released := false, pc := Top, owner := Ready), 4)
  {
    hide Reach;
    var t := s.(stop := false, released := false, pc := Top, owner := Ready);
    ReachSelf(Evict, t);
    ReachMore(Evict, s.(stop := false, released := false, owner := GroupCleared), Rearm, t, 0);
    ReachMore(Evict, s.(stop := false, owner := StopCleared), Rearm, t, 1);
    ReachMore(Evict, s.(owner := Joined), Rearm, t, 2);
    ReachMore(Evict, s, Rearm, t, 3);
  }

  /** The rest of an eviction, signalStop and resetForIdle, and a fresh round of the listen thread. */
  lemma RearmsAfter(s: State)
    requires s.pc == Top && s.owner == Signalling && !s.stop && !s.released
    ensures Reach(Evict, s, s.(owner := Ready), 6)
  {
    hide Reach;
    var stopped := s.(stop := true, owner := Signalled);
    Rearms(stopped.(pc := Exited));
    ReachMore(Evict, stopped, Listen(true), s.(owner := Ready), 4);
    ReachMore(Evict, s, Signal, s.(owner := Ready), 5);
  }

  /** An eviction latches while a tested adoption is stored, and ends; the next one recycles again. */
  lemma LatchesTooLate(s: State)
    requires s.hasCommand && !s.stop && !s.released && s.pc == AdoptStore && s.owner == Latching(false)
    ensures Reach(Evict, s, s.(giveUp := true, outside := true, pc := Top, owner := Loaded), 9)
  {
    hide Reach;
    var marked := s.(giveUp := true, outside := true, pc := Top, owner := Signalling);
    var t := marked.(owner := Loaded);
    ReachSelf(Evict, t);
    ReachMore(Evict, marked.(owner := Ready), Graceful(true), t, 0);
    RearmsAfter(marked);
    ReachJoin(Evict, marked, marked.(owner := Ready), t, 6, 1);
    ReachMore(Evict, s.(giveUp := true, owner := Signalling), Listen(true), t, 7);
    ReachMore(Evict, s, Graceful(true), t, 8);
  }

  /**
   On the eviction path the latch can fail: from every fresh relay with a stop_command a run of two
   evictions leads to a state that has given up, is marked as occupied again, and runs stop_command
   in its next step.
   */
  lemma EvictionUnlatches(s: State)
    requires Initial(s) && s.hasCommand && !s.stop && !s.released
    ensures var t := s.(giveUp := true, outside := true, owner := Loaded);
      && Reach(Evict, s, t, 30)
      && Enabled(Evict, t, Graceful(true)) && Recycles(t, Graceful(true))
  {
    hide Reach;
    var adopting, marked := s.(pc := AdoptStore), s.(outside := true);
    var latching := s.(owner := Latching(false));
    var stalled := latching.(pc := AdoptStore);
    var t := s.(giveUp := true, outside := true, owner := Loaded);
    LatchesTooLate(stalled);
    GoesToAdopt(Evict, latching);
    ReachJoin(Evict, latching, stalled, t, 8, 9);
    RecyclesInVain(marked);
    ReachJoin(Evict, marked, latching, t, 4, 17);
    ReachMore(Evict, adopting, Listen(true), t, 21);
    GoesToAdopt(Evict, s);
    ReachJoin(Evict, s, adopting, t, 8, 22);
  }

  // ---- What a give-up on the eviction path promises ----

  /** Some n steps lead to one that marks the port again or runs stop_command on an outsider again. */
  ghost predicate Relapses(s: State, n: nat)
    decreases n
  {
    exists step :: Enabled(Evict, s, step) &&
                   (Adopts(s, step) || Recycles(s, step) || (n > 0 && Relapses(Apply(Evict, s, step), n - 1)))
  }

  lemma RelapsesLater(s: State, step: Step, n: nat)
    requires Enabled(Evict, s, step) && Relapses(Apply(Evict, s, step), n)
    ensures Relapses(s, n + 1)
  {
    hide Enabled, Apply, Adopts, Recycles;
  }

  lemma {:induction false} RelapsesAfter(s: State, t: State, a: nat, n: nat)
    requires Reach(Evict, s, t, a) && Relapses(t, n)
    ensures Relapses(s, a + n)
    decreases a
  {
    hide Enabled, Apply, Relapses;
    if a > 0 {
      var step :| Enabled(Evict, s, step) && Reach(Evict, Apply(Evict, s, step), t, a - 1);
      RelapsesAfter(Apply(Evict, s, step), t, a - 1, n);
      RelapsesLater(s, step, a - 1 + n);
    }
  }

  /** The mark that is still to come, or that nothing takes away before the next recycling looks at it. */
  predicate Relapsing(s: State) {
    Adopting(s.pc) || (s.outside && s.pc != OutsideClear)
  }

  /** The other states: a mark is left only where the listen thread is about to clear it, before a re-arming. */
  predicate Settled(s: State) {
    && s.giveUp && !Adopting(s.pc) && !Recycling(s.owner)
    && (s.outside ==> s.pc == OutsideClear && (s.owner.Signalling? || s.owner.Signalled?))
  }

  lemma SettledListens(s: State, answer: bool)
    requires Settled(s) && s.pc != Exited
    ensures Settled(ListenStep(s, answer))
  {
  }

  lemma SettledGraceful(s: State, answer: bool)
    requires Settled(s) && Enabled(Evict, s, Graceful(answer))
    ensures Settled(GracefulStep(Evict, s, answer))
  {
  }

  lemma SettledRearm(s: State)
    requires Settled(s) && Enabled(Evict, s, Rearm)
    ensures Settled(RearmStep(s))
  {
  }

  lemma SettledOwner(s: State, step: Step)
    requires Settled(s) && Enabled(Evict, s, step) && !step.Listen?
    ensures Settled(Apply(Evict, s, step))
  {
    hide ListenStep, GracefulStep, RearmStep;
    match step {
      case Graceful(answer) =>
        SettledGraceful(s, answer);
      case Rearm =>
        SettledRearm(s);
      case _ =>
    }
  }

  lemma SettledStep(s: State, step: Step)
    requires Settled(s) && Enabled(Evict, s, step)
    ensures Settled(Apply(Evict, s, step)) && !Adopts(s, step) && !Recycles(s, step)
  {
    hide ListenStep, GracefulStep, RearmStep;
    if step.Listen? {
      SettledListens(s, step.answer);
    } else {
      SettledOwner(s, step);
    }
  }

  lemma {:induction false} SettledHolds(s: State, n: nat)
    requires Settled(s)
    ensures !Relapses(s, n)
    decreases n
  {
    hide Enabled, Apply, Adopts, Recycles, Settled;
    forall step | Enabled(Evict, s, step)
      ensures !Adopts(s, step) && !Recycles(s, step) && (n > 0 ==> !Relapses(Apply(Evict, s, step), n - 1))
    {
      SettledStep(s, step);
      if n > 0 {
        SettledHolds(Apply(Evict, s, step), n - 1);
      }
    }
  }

  lemma AdoptionRelapses(s: State)
    requires Adopting(s.pc)
    ensures Relapses(s, 1)
  {
    hide Relapses;
    if s.pc == AdoptStore {
      AdoptsNow(s, 1);
    } else {
      AdoptsNow(s.(pc := AdoptStore), 0);
      RelapsesLater(s, Listen(true), 0);
    }
  }

  lemma AdoptsNow(s: State, n: nat)
    requires s.pc == AdoptStore
    ensures Relapses(s, n)
  {
    assert Enabled(Evict, s, Listen(true)) && Adopts(s, Listen(true));
  }

  /** A stopped listen thread ends without touching the mark. */
  lemma EndsMarked(s: State) returns (n: nat)
    requires s.stop && s.giveUp && s.outside && !Adopting(s.pc) && s.pc != OutsideClear
    ensures Reach(Evict, s, s.(pc := Exited), n)
  {
    hide Reach;
    var t := s.(pc := Exited);
    ReachSelf(Evict, t);
    if s.pc == Exited {
      n := 0;
    } else if s.pc == GroupTest || s.pc == Entered {
      n := EntersAndEnds(s);
    } else if s.pc == OutsideTest {
      ReachMore(Evict, s.(pc := OutsideWait), Listen(true), t, 0);
      ReachMore(Evict, s, Listen(true), t, 1);
      n := 2;
    } else if s.pc == Binding {
      ReachMore(Evict, s.(pc := FailStop), Listen(true), t, 0);
      ReachMore(Evict, s, Listen(false), t, 1);
      n := 2;
    } else if s.pc == AdoptTest {
      ReachMore(Evict, s.(pc := Backoff), Listen(true), t, 0);
      ReachMore(Evict, s, Listen(true), t, 1);
      n := 2;
    } else {
      ReachMore(Evict, s, Listen(false), t, 0);
      n := 1;
    }
  }

  lemma EntersAndEnds(s: State) returns (n: nat)
    requires s.stop && (s.pc == GroupTest || s.pc == Entered)
    ensures Reach(Evict, s, s.(pc := Exited), n)
  {
    hide Reach;
    var t := s.(pc := Exited);
    ReachSelf(Evict, t);
    ReachMore(Evict, s.(pc := Top), Listen(true), t, 0);
    ReachMore(Evict, s.(pc := Entered), Listen(false), t, 1);
    if s.pc == Entered {
      n := 2;
    } else if s.released {
      ReachMore(Evict, s, Listen(true), t, 0);
      n := 1;
    } else {
      ReachMore(Evict, s, Listen(true), t, 2);
      n := 3;
    }
  }

  /** A mark that survives the give-up is recycled by the next eviction. */
  lemma MarkRelapses(s: State) returns (n: nat)
    requires s.hasCommand && s.giveUp && s.outside && !Adopting(s.pc) && s.pc != OutsideClear && s.owner == Signalling
    ensures Relapses(s, n)
  {
    hide Reach, Relapses;
    var stopped := s.(stop := true, owner := Signalled);
    var exited := stopped.(pc := Exited);
    var k := EndsMarked(stopped);
    Rearms(exited);
    var rearmed := exited.(stop := false, released := false, pc := Top, owner := Ready);
    RecyclesNext(rearmed);
    RelapsesAfter(exited, rearmed, 4, 1);
    RelapsesAfter(stopped, exited, k, 5);
    RelapsesLater(s, Signal, k + 5);
    n := k + 6;
  }

  lemma RecyclesNext(s: State)
    requires s.hasCommand && s.outside && s.owner == Ready
    ensures Relapses(s, 1)
  {
    hide Relapses;
    RecyclesNow(s.(owner := Loaded));
    RelapsesLater(s, Graceful(true), 0);
  }

  lemma RecyclesNow(s: State)
    requires s.owner == Loaded
    ensures Relapses(s, 0)
  {
    assert Enabled(Evict, s, Graceful(true)) && Recycles(s, Graceful(true));
  }

  /** What every run keeps of the configuration: without a stop_command there is nothing to recycle. */
  predicate Commanded(s: State) {
    if s.hasCommand then !s.owner.LatchFirst? && !s.owner.ClearAfter?
    else !s.outside && !Adopting(s.pc) && !Recycling(s.owner)
  }

  lemma CommandedListens(s: State, answer: bool)
    requires Commanded(s) && s.pc != Exited
    ensures Commanded(ListenStep(s, answer))
  {
  }

  lemma CommandedGraceful(path: Path, s: State, answer: bool)
    requires Commanded(s) && Enabled(path, s, Graceful(answer))
    ensures Commanded(GracefulStep(path, s, answer))
  {
  }

  lemma CommandedRearm(path: Path, s: State)
    requires Commanded(s) && Enabled(path, s, Rearm)
    ensures Commanded(RearmStep(s))
  {
  }

  lemma CommandedStep(path: Path, s: State, step: Step)
    requires Commanded(s) && Enabled(path, s, step)
    ensures Commanded(Apply(path, s, step))
  {
    hide ListenStep, GracefulStep, RearmStep;
    match step {
      case Listen(answer) =>
        CommandedListens(s, answer);
      case Graceful(answer) =>
        CommandedGraceful(path, s, answer);
      case Rearm =>
        CommandedRearm(path, s);
      case _ =>
    }
  }

  lemma {:induction false} RunCommanded(path: Path, states: seq<State>, steps: seq<Step>, k: nat)
    requires Run(path, states, steps) && Initial(states[0]) && k < |states|
    ensures Commanded(states[k])
    decreases k
  {
    hide Enabled, Apply, Commanded;
    if k == 0 {
      InitialCommanded(states[0]);
    } else {
      RunCommanded(path, states, steps, k - 1);
      CommandedStep(path, states[k - 1], steps[k - 1]);
    }
  }

  lemma InitialCommanded(s: State)
    requires Initial(s)
    ensures Commanded(s)
  {
  }

  lemma GiveUpRelapses(s: State, step: Step)
    requires Commanded(s) && Enabled(Evict, s, step) && GivesUp(s, step)
    ensures (exists n :: Relapses(Apply(Evict, s, step), n)) <==> Relapsing(s)
  {
    hide Relapses, Reach;
    var t := Apply(Evict, s, step);
    assert t == s.(giveUp := true, owner := Signalling);
    if Adopting(s.pc) {
      AdoptionRelapses(t);
    } else if Relapsing(s) {
      var n := MarkRelapses(t);
    } else if n :| Relapses(t, n) {
      SettledHolds(t, n);
    }
  }

  /**
   After a give-up in any run of evictions, some continuation marks the port or runs stop_command on an
   outsider again exactly when, at the give-up, an adoption had passed its test, or the port was marked
   and the listen thread was not just about to clear the mark.
   */
  lemma GiveUpHoldsExactly(states: seq<State>, steps: seq<Step>, k: nat)
    requires Run(Evict, states, steps) && Initial(states[0]) && k < |steps| && GivesUp(states[k], steps[k])
    ensures var s, t := states[k], states[k + 1];
            (exists n :: Relapses(t, n)) <==> Adopting(s.pc) || (s.outside && s.pc != OutsideClear)
  {
    hide Enabled, Apply, GivesUp, Commanded, Relapses;
    RunCommanded(Evict, states, steps, k);
    assert Enabled(Evict, states[k], steps[k]) && states[k + 1] == Apply(Evict, states[k], steps[k]);
    GiveUpRelapses(states[k], steps[k]);
    var t := states[k + 1];
    if n :| Relapses(t, n) {
      assert Relapses(Apply(Evict, states[k], steps[k]), n);
    }
    if Relapsing(states[k]) {
      var n :| Relapses(Apply(Evict, states[k], steps[k]), n);
      assert Relapses(t, n);
    }
  }
}
