/**
 The relay registry of src/main.cpp and src/system_monitor.cpp.

 Relays live in the active list, in the pending list, or in the hands of the
 eviction that took one out.  Every mutex-protected section is one step; a reload
 is three of them (remove, modify, add) and an eviction is two (take out, put
 back), so evictions can fall between the sections of a reload.
 */
module Registry {
  import opened Text
  import opened Config

  /** A relay object: its identity and the configuration it was built from. */
  datatype Relay = Relay(id: nat, cfg: PortConfig) {
    function Addr(): string { cfg.listenAddr }
  }

  /** Where a reload stands: after its diff, and after each of its first two sections. */
  datatype Phase =
    | Quiet
    | Planned(next: seq<PortConfig>, plan: Plan)
    | Removed(next: seq<PortConfig>, plan: Plan)
    | Retired(next: seq<PortConfig>, plan: Plan)

  datatype State = State(
    active: seq<Relay>,
    pending: seq<Relay>,
    victim: Option<Relay>,
    dropped: seq<Relay>,
    created: seq<Relay>,
    cfgs: seq<PortConfig>,
    phase: Phase)

  datatype Step =
    | Begin(next: seq<PortConfig>)
    | RemoveSection
    | ModifySection
    | AddSection(adds: seq<PortConfig>)
    | TakeOut(i: nat)
    | PutBack
    | IdlePass(retire: set<nat>)
    | PendingPass(running: set<nat>)

  // ---- Lists ----

  function Filter(rs: seq<Relay>, p: Relay -> bool): seq<Relay> {
    if rs == [] then []
    else if p(rs[0]) then [rs[0]] + Filter(rs[1..], p)
    else Filter(rs[1..], p)
  }

  function In(addrs: set<string>): Relay -> bool {
    (r: Relay) => r.Addr() in addrs
  }

  function NotIn(addrs: set<string>): Relay -> bool {
    (r: Relay) => r.Addr() !in addrs
  }

  predicate HasAddr(rs: seq<Relay>, addr: string) {
    exists i :: 0 <= i < |rs| && rs[i].Addr() == addr
  }

  /** The relays built for `adds`, numbered from `id`. */
  function Build(adds: seq<PortConfig>, id: nat): (rs: seq<Relay>)
    ensures |rs| == |adds| && forall i :: 0 <= i < |rs| ==> rs[i] == Relay(id + i, adds[i])
  {
    seq(|adds|, i requires 0 <= i < |adds| => Relay(id + i, adds[i]))
  }

  // ---- Steps ----

  /** Both removing sections of a reload: matching relays move to the pending list. */
  function Retire(s: State, addrs: set<string>): State {
    s.(active := Filter(s.active, NotIn(addrs)), pending := s.pending + Filter(s.active, In(addrs)))
  }

  function Stays(running: set<nat>): Relay -> bool {
    (r: Relay) => r.id in running
  }

  function Restarts(running: set<nat>): Relay -> bool {
    (r: Relay) => r.id !in running && r.cfg.autoRestart
  }

  function Ends(running: set<nat>): Relay -> bool {
    (r: Relay) => r.id !in running && !r.cfg.autoRestart
  }

  /** The pending pass: exited relays come back when they restart, and are dropped otherwise. */
  function ProcessPending(s: State, running: set<nat>): State {
    s.(active := s.active + Filter(s.pending, Restarts(running)),
       pending := Filter(s.pending, Stays(running)),
       dropped := s.dropped + Filter(s.pending, Ends(running)))
  }

  function IdleOnes(retire: set<nat>): Relay -> bool {
    (r: Relay) => r.id in retire
  }

  function BusyOnes(retire: set<nat>): Relay -> bool {
    (r: Relay) => r.id !in retire
  }

  /** The idle pass, for the relays found monitored, running and without recent traffic. */
  function RetireIdle(s: State, retire: set<nat>): State {
    s.(active := Filter(s.active, BusyOnes(retire)), pending := s.pending + Filter(s.active, IdleOnes(retire)))
  }

  function TakeVictim(s: State, i: nat): State
    requires i < |s.active|
  {
    s.(active := s.active[..i] + s.active[i + 1..], victim := Some(s.active[i]))
  }

  /** The second half of an eviction: back into the list, or stopped and dropped when a reload replaced it. */
  function Return(s: State): State
    requires s.victim.Some?
  {
    var v := s.victim.value;
    if HasAddr(s.active, v.Addr()) then s.(victim := None, dropped := s.dropped + [v])
    else s.(victim := None, active := s.active + [v])
  }

  /** `adds` lists the configurations of the added and modified ports, each once. */
  predicate Lists(adds: seq<PortConfig>, next: seq<PortConfig>, addrs: set<string>) {
    && (forall i, j :: 0 <= i < j < |adds| ==> adds[i].listenAddr != adds[j].listenAddr)
    && (forall i :: 0 <= i < |adds| ==>
          && adds[i].listenAddr in addrs && adds[i].listenAddr in ByAddr(next)
          && adds[i] == ByAddr(next)[adds[i].listenAddr])
    && (forall a :: a in addrs ==> exists i :: 0 <= i < |adds| && adds[i].listenAddr == a)
  }

  function Add(s: State, adds: seq<PortConfig>): State {
    var built := Build(adds, |s.created|);
    s.(active := s.active + built, created := s.created + built)
  }

  predicate Enabled(s: State, step: Step) {
    match step
    case Begin(next) => s.phase.Quiet?
    case RemoveSection => s.phase.Planned?
    case ModifySection => s.phase.Removed?
    case AddSection(adds) =>
      s.phase.Retired? && Lists(adds, s.phase.next, s.phase.plan.added + s.phase.plan.modified)
    case TakeOut(i) => s.victim.None? && i < |s.active|
    case PutBack => s.victim.Some?
    case IdlePass(_) => true
    case PendingPass(_) => true
  }

  function Apply(s: State, step: Step): State
    requires Enabled(s, step)
  {
    match step
    case Begin(next) => s.(phase := Planned(next, Diff(s.cfgs, next)))
    case RemoveSection => Retire(s, s.phase.plan.removed).(phase := Removed(s.phase.next, s.phase.plan))
    case ModifySection => Retire(s, s.phase.plan.modified).(phase := Retired(s.phase.next, s.phase.plan))
    case AddSection(adds) => Add(s, adds).(cfgs := s.phase.next, phase := Quiet)
    case TakeOut(i) => TakeVictim(s, i)
    case PutBack => Return(s)
    case IdlePass(retire) => RetireIdle(s, retire)
    case PendingPass(running) => ProcessPending(s, running)
  }

  /** A run: the states it passes through. */
  ghost predicate Run(states: seq<State>, steps: seq<Step>) {
    && |states| == |steps| + 1
    && forall i :: 0 <= i < |steps| ==> Enabled(states[i], steps[i]) && states[i + 1] == Apply(states[i], steps[i])
  }

  // ---- Ownership ----

  function VictimOf(s: State): seq<Relay> {
    if s.victim.Some? then [s.victim.value] else []
  }

  /** Everything the program still holds, plus what it has dropped. */
  function Everything(s: State): multiset<Relay> {
    multiset(s.active) + multiset(s.pending) + multiset(VictimOf(s)) + multiset(s.dropped)
  }

  /** The i-th relay created has number i, and each is held or dropped, in one place, once. */
  ghost predicate Owned(s: State) {
    && (forall i :: 0 <= i < |s.created| ==> s.created[i].id == i)
    && Everything(s) == multiset(s.created)
  }

  lemma {:induction false} FilterSplits(rs: seq<Relay>, p: Relay -> bool, q: Relay -> bool)
    requires forall r :: q(r) == !p(r)
    ensures multiset(rs) == multiset(Filter(rs, p)) + multiset(Filter(rs, q))
    decreases |rs|
  {
    if rs != [] {
      FilterSplits(rs[1..], p, q);
      assert rs == [rs[0]] + rs[1..];
    }
  }

  lemma {:induction false} FilterSplits3(rs: seq<Relay>, p: Relay -> bool, q: Relay -> bool, t: Relay -> bool)
    requires forall r :: (p(r) && !q(r) && !t(r)) || (!p(r) && q(r) && !t(r)) || (!p(r) && !q(r) && t(r))
    ensures multiset(rs) == multiset(Filter(rs, p)) + multiset(Filter(rs, q)) + multiset(Filter(rs, t))
    decreases |rs|
  {
    if rs != [] {
      FilterSplits3(rs[1..], p, q, t);
      assert rs == [rs[0]] + rs[1..];
    }
  }

  lemma {:induction false} FilterIn(rs: seq<Relay>, p: Relay -> bool, r: Relay)
    ensures r in Filter(rs, p) <==> r in rs && p(r)
    decreases |rs|
  {
    if rs != [] {
      FilterIn(rs[1..], p, r);
    }
  }

  lemma RetireConserves(s: State, addrs: set<string>)
    ensures Everything(Retire(s, addrs)) == Everything(s)
  {
    hide Filter;
    FilterSplits(s.active, NotIn(addrs), In(addrs));
  }

  lemma IdleConserves(s: State, retire: set<nat>)
    ensures Everything(RetireIdle(s, retire)) == Everything(s)
  {
    hide Filter;
    FilterSplits(s.active, BusyOnes(retire), IdleOnes(retire));
  }

  lemma PendingConserves(s: State, running: set<nat>)
    ensures Everything(ProcessPending(s, running)) == Everything(s)
  {
    hide Filter;
    FilterSplits3(s.pending, Stays(running), Restarts(running), Ends(running));
  }

  lemma TakeConserves(s: State, i: nat)
    requires i < |s.active| && s.victim.None?
    ensures Everything(TakeVictim(s, i)) == Everything(s)
  {
    assert s.active == s.active[..i] + [s.active[i]] + s.active[i + 1..];
  }

  lemma ReturnConserves(s: State)
    requires s.victim.Some?
    ensures Everything(Return(s)) == Everything(s)
  {
    hide HasAddr;
  }

  lemma AddConserves(s: State, adds: seq<PortConfig>)
    ensures Everything(Add(s, adds)) == Everything(s) + multiset(Build(adds, |s.created|))
  {
    hide Build;
  }

  lemma SameEverything(s: State, t: State)
    requires s.active == t.active && s.pending == t.pending && s.victim == t.victim && s.dropped == t.dropped
    ensures Everything(s) == Everything(t)
  {
  }

  /** Every step keeps the ownership, whatever is interleaved with whatever. */
  lemma StepKeepsOwned(s: State, step: Step)
    requires Owned(s) && Enabled(s, step)
    ensures Owned(Apply(s, step))
  {
    hide Filter, Diff, ByAddr, Lists, HasAddr, NotIn, In, Everything;
    match step {
      case Begin(_) =>
        SameEverything(s, Apply(s, step));
      case RemoveSection =>
        RetireConserves(s, s.phase.plan.removed);
        SameEverything(Retire(s, s.phase.plan.removed), Apply(s, step));
      case ModifySection =>
        RetireConserves(s, s.phase.plan.modified);
        SameEverything(Retire(s, s.phase.plan.modified), Apply(s, step));
      case AddSection(adds) =>
        AddConserves(s, adds);
        SameEverything(Add(s, adds), Apply(s, step));
      case TakeOut(i) =>
        TakeConserves(s, i);
      case PutBack =>
        ReturnConserves(s);
      case IdlePass(retire) =>
        IdleConserves(s, retire);
      case PendingPass(running) =>
        PendingConserves(s, running);
    }
  }

  /** Over every run each relay object is in exactly one place: active, pending, in flight, or dropped. */
  lemma {:induction false} RunKeepsOwned(states: seq<State>, steps: seq<Step>)
    requires Run(states, steps) && Owned(states[0])
    ensures forall k :: 0 <= k < |states| ==> Owned(states[k])
    ensures forall k, r :: 0 <= k < |states| && r in states[k].created ==> Everything(states[k])[r] == 1
    decreases |steps|
  {
    hide Everything, Apply, Enabled;
    if steps != [] {
      var n := |steps| - 1;
      RunKeepsOwned(states[..n + 1], steps[..n]);
      assert Owned(states[..n + 1][n]);
      StepKeepsOwned(states[n], steps[n]);
      forall k | 0 <= k < |states|
        ensures Owned(states[k])
      {
        assert k <= n ==> states[k] == states[..n + 1][k];
      }
    }
    forall k, r | 0 <= k < |states| && r in states[k].created
      ensures Everything(states[k])[r] == 1
    {
      OnceEach(states[k].created, r);
    }
  }

  lemma {:induction false} OnceEach(rs: seq<Relay>, r: Relay)
    requires (forall i :: 0 <= i < |rs| ==> rs[i].id == i) && r in rs
    ensures multiset(rs)[r] == 1
    decreases |rs|
  {
    var n := |rs| - 1;
    var front := rs[..n];
    assert rs == front + [rs[n]];
    if r != rs[n] {
      OnceEach(front, r);
    }
  }

  /** A step drops a relay only from the pending list, exited and not restarting, or as a replaced victim. */
  lemma DroppedOnlyWhen(s: State, step: Step, r: Relay)
    requires Owned(s) && Enabled(s, step) && r in Apply(s, step).dropped && r !in s.dropped
    ensures (step.PendingPass? && r in s.pending && r.id !in step.running && !r.cfg.autoRestart)
         || (step.PutBack? && s.victim == Some(r) && HasAddr(s.active, r.Addr()))
  {
    hide Filter, Diff, ByAddr, Lists;
    if step.PendingPass? {
      FilterIn(s.pending, Ends(step.running), r);
    }
  }

  // ---- Where the passes of the monitor thread take each relay ----

  /** A relay that is held or dropped somewhere is there once. */
  lemma OnceOwned(s: State, r: Relay)
    requires Owned(s)
    ensures Everything(s)[r] <= 1
  {
    hide Everything;
    if r in s.created {
      OnceEach(s.created, r);
    }
  }

  /** So the lists have no relay in common. */
  lemma OnePlace(s: State, r: Relay)
    requires Owned(s)
    ensures r in s.pending ==> r !in s.active && r !in s.dropped
    ensures r in s.active ==> r !in s.pending && r !in s.dropped
  {
    OnceOwned(s, r);
    assert Everything(s)[r] == multiset(s.active)[r] + multiset(s.pending)[r] + multiset(VictimOf(s))[r]
                               + multiset(s.dropped)[r];
  }

  /**
   The pending pass, relay by relay: a waiting relay whose backend runs goes on waiting, one whose backend has
   exited listens again when it restarts and is dropped when it does not; nothing happens to any other relay.
   */
  lemma PendingPassMoves(s: State, running: set<nat>, r: Relay)
    requires Owned(s)
    ensures var t := Apply(s, PendingPass(running));
      && (r in s.pending ==>
            && (r in t.pending <==> r.id in running)
            && (r in t.active <==> r.id !in running && r.cfg.autoRestart)
            && (r in t.dropped <==> r.id !in running && !r.cfg.autoRestart))
      && (r !in s.pending ==>
            r !in t.pending && (r in t.active <==> r in s.active) && (r in t.dropped <==> r in s.dropped))
      && t.victim == s.victim
  {
    hide Filter, Everything;
    OnePlace(s, r);
    FilterIn(s.pending, Stays(running), r);
    FilterIn(s.pending, Restarts(running), r);
    FilterIn(s.pending, Ends(running), r);
  }

  /**
   The idle pass, relay by relay: an active relay leaves for the pending list exactly when it is monitored, its
   backend runs and had no recent activity; nothing happens to any other relay.
   */
  lemma IdlePassMoves(s: State, monitored: set<nat>, running: set<nat>, recent: set<nat>, r: Relay)
    requires Owned(s)
    ensures var t := Apply(s, IdlePass(monitored * running - recent));
      && (r in s.active ==>
            && (r in t.pending <==> r.id in monitored && r.id in running && r.id !in recent)
            && (r in t.active <==> r.id !in monitored || r.id !in running || r.id in recent))
      && (r !in s.active ==> r !in t.active && (r in t.pending <==> r in s.pending))
      && t.dropped == s.dropped && t.victim == s.victim
  {
    hide Filter, Everything;
    var idle := monitored * running - recent;
    OnePlace(s, r);
    FilterIn(s.active, BusyOnes(idle), r);
    FilterIn(s.active, IdleOnes(idle), r);
  }
}
