/**
 One relay per address: reloads interleaved with two-phase evictions (idle and
 pending passes aside) keep the active relays in step with the configuration.
 */
module RegistryUnique {
  import opened Text
  import opened Config
  import opened Registry

  predicate Distinct(rs: seq<Relay>) {
    forall i, j :: 0 <= i < j < |rs| ==> rs[i].Addr() != rs[j].Addr()
  }

  /** Addresses the running reload has already taken out of the active list. */
  function Gone(s: State): set<string> {
    match s.phase
    case Removed(_, plan) => plan.removed
    case Retired(_, plan) => plan.removed + plan.modified
    case _ => {}
  }

  /** The relay stands for a port of the running configuration. */
  predicate Fresh(s: State, r: Relay) {
    && r.Addr() in ByAddr(s.cfgs)
    && r.Addr() !in Gone(s)
    && ConfigsEqual(ByAddr(s.cfgs)[r.Addr()], r.cfg)
  }

  /** Some relay, active or in flight, has the address. */
  predicate Held(s: State, a: string) {
    HasAddr(s.active, a) || (s.victim.Some? && s.victim.value.Addr() == a)
  }

  /** What every interleaving keeps up to the add section of a reload. */
  ghost predicate Weak(s: State) {
    && (!s.phase.Quiet? ==> s.phase.plan == Diff(s.cfgs, s.phase.next))
    && Distinct(s.active)
    && (forall i :: 0 <= i < |s.active| ==> Fresh(s, s.active[i]) || s.active[i].Addr() in Gone(s))
    && (forall a :: a in ByAddr(s.cfgs) && a !in Gone(s) ==> Held(s, a))
    && (s.victim.Some? ==>
          var v := s.victim.value;
          HasAddr(s.active, v.Addr()) || Fresh(s, v) || v.Addr() in Gone(s))
  }

  /** No active relay belongs to an address the reload takes out. */
  predicate NoStray(s: State) {
    forall i :: 0 <= i < |s.active| ==> s.active[i].Addr() !in Gone(s)
  }

  ghost predicate Good(s: State) {
    && Weak(s)
    && NoStray(s)
    && (s.victim.Some? && s.victim.value.Addr() in Gone(s) ==>
          s.phase.Retired? && s.victim.value.Addr() in s.phase.plan.modified)
  }

  /** Active relays and configured addresses correspond one to one, compared fields included. */
  ghost predicate InStep(s: State) {
    && Distinct(s.active)
    && (forall a :: a in ByAddr(s.cfgs) <==> HasAddr(s.active, a))
    && (forall i :: 0 <= i < |s.active| ==>
          s.active[i].Addr() in ByAddr(s.cfgs) && ConfigsEqual(ByAddr(s.cfgs)[s.active[i].Addr()], s.active[i].cfg))
  }

  /** Reload and eviction steps. */
  predicate Core(step: Step) {
    !step.IdlePass? && !step.PendingPass?
  }

  /**
   The two windows: a reload removes the address of the relay in flight, or a
   relay in flight of a modified address returns before its replacement is added.
   */
  predicate Race(s: State, step: Step)
    requires Enabled(s, step)
  {
    || (step.RemoveSection? && s.victim.Some? && s.victim.value.Addr() in s.phase.plan.removed)
    || (step.PutBack? && s.phase.Retired? && s.victim.value.Addr() in s.phase.plan.modified)
  }

  // ---- Lists ----

  lemma {:induction false} FilterDistinct(rs: seq<Relay>, p: Relay -> bool)
    requires Distinct(rs)
    ensures Distinct(Filter(rs, p))
    decreases |rs|
  {
    if rs != [] {
      var rest := rs[1..];
      FilterDistinct(rest, p);
      var f := Filter(rest, p);
      forall i | 0 <= i < |f|
        ensures f[i].Addr() != rs[0].Addr()
      {
        FilterIn(rest, p, f[i]);
      }
    }
  }

  lemma RetiredList(rs: seq<Relay>, addrs: set<string>)
    ensures forall i :: 0 <= i < |Filter(rs, NotIn(addrs))| ==>
              Filter(rs, NotIn(addrs))[i] in rs && Filter(rs, NotIn(addrs))[i].Addr() !in addrs
    ensures forall a :: HasAddr(Filter(rs, NotIn(addrs)), a) <==> HasAddr(rs, a) && a !in addrs
  {
    hide Filter;
    var f := Filter(rs, NotIn(addrs));
    forall r
      ensures r in f <==> r in rs && r.Addr() !in addrs
    {
      FilterIn(rs, NotIn(addrs), r);
    }
  }

  lemma TakenList(rs: seq<Relay>, i: nat)
    requires i < |rs| && Distinct(rs)
    ensures var t := rs[..i] + rs[i + 1..];
      && Distinct(t)
      && (forall k :: 0 <= k < |t| ==> t[k] in rs)
      && (forall a :: HasAddr(t, a) <==> HasAddr(rs, a) && a != rs[i].Addr())
  {
    var t := rs[..i] + rs[i + 1..];
    forall a
      ensures HasAddr(t, a) <==> HasAddr(rs, a) && a != rs[i].Addr()
    {
      if HasAddr(rs, a) && a != rs[i].Addr() {
        var k :| 0 <= k < |rs| && rs[k].Addr() == a;
        assert t[if k < i then k else k - 1] == rs[k];
      }
    }
  }

  lemma PushedList(rs: seq<Relay>, r: Relay)
    requires Distinct(rs) && !HasAddr(rs, r.Addr())
    ensures Distinct(rs + [r])
    ensures forall a :: HasAddr(rs + [r], a) <==> HasAddr(rs, a) || a == r.Addr()
  {
    forall a
      ensures HasAddr(rs + [r], a) <==> HasAddr(rs, a) || a == r.Addr()
    {
      if HasAddr(rs, a) {
        var k :| 0 <= k < |rs| && rs[k].Addr() == a;
        assert (rs + [r])[k] == rs[k];
      }
      assert (rs + [r])[|rs|] == r;
    }
  }

  // ---- Section by section ----

  /** The two removing sections. */
  lemma RetireWeak(s: State, t: State, addrs: set<string>)
    requires Weak(s) && !s.phase.Quiet?
    requires t == Retire(s, addrs).(phase := t.phase) && !t.phase.Quiet? && t.phase.plan == s.phase.plan
    requires t.phase.next == s.phase.next && Gone(t) == Gone(s) + addrs
    ensures Weak(t)
    ensures NoStray(s) ==> NoStray(t)
  {
    hide Filter, Diff, ByAddr, ConfigsEqual;
    RetiredList(s.active, addrs);
    FilterDistinct(s.active, NotIn(addrs));
  }

  lemma TakeWeak(s: State, i: nat)
    requires Weak(s) && i < |s.active| && s.victim.None?
    ensures Weak(TakeVictim(s, i))
    ensures NoStray(s) ==> NoStray(TakeVictim(s, i))
  {
    hide Diff, ByAddr, ConfigsEqual;
    var t := TakeVictim(s, i);
    TakenList(s.active, i);
    forall k | 0 <= k < |t.active|
      ensures Fresh(t, t.active[k]) || t.active[k].Addr() in Gone(t)
      ensures NoStray(s) ==> t.active[k].Addr() !in Gone(t)
    {
      assert t.active[k] in s.active;
      var n :| 0 <= n < |s.active| && s.active[n] == t.active[k];
      assert Fresh(s, s.active[n]) || s.active[n].Addr() in Gone(s);
    }
    forall a | a in ByAddr(t.cfgs) && a !in Gone(t)
      ensures Held(t, a)
    {
      assert Held(s, a);
    }
    assert Fresh(s, s.active[i]) || s.active[i].Addr() in Gone(s);
  }

  lemma ReturnWeak(s: State)
    requires Weak(s) && s.victim.Some?
    ensures Weak(Return(s))
    ensures NoStray(s) && s.victim.value.Addr() !in Gone(s) ==> NoStray(Return(s))
    ensures NoStray(s) && HasAddr(s.active, s.victim.value.Addr()) ==> NoStray(Return(s))
  {
    hide Diff, ByAddr, ConfigsEqual;
    var v, t := s.victim.value, Return(s);
    if HasAddr(s.active, v.Addr()) {
      forall a | a in ByAddr(t.cfgs) && a !in Gone(t)
        ensures Held(t, a)
      {
        assert Held(s, a);
      }
    } else {
      PushedList(s.active, v);
      forall a | a in ByAddr(t.cfgs) && a !in Gone(t)
        ensures Held(t, a)
      {
        assert Held(s, a);
      }
    }
  }

  lemma BeginWeak(s: State, next: seq<PortConfig>)
    requires Weak(s) && s.phase.Quiet?
    ensures Weak(Apply(s, Begin(next))) && NoStray(Apply(s, Begin(next)))
  {
    hide Diff, ByAddr, ConfigsEqual;
    var t := Apply(s, Begin(next));
    forall i | 0 <= i < |t.active|
      ensures Fresh(t, t.active[i])
    {
      assert Fresh(s, s.active[i]);
    }
    forall a | a in ByAddr(t.cfgs) && a !in Gone(t)
      ensures Held(t, a)
    {
      assert Held(s, a);
    }
  }

  /** Up to the add section every interleaving keeps the weak invariant. */
  lemma StepWeak(s: State, step: Step)
    requires Weak(s) && Enabled(s, step) && Core(step) && !step.AddSection?
    ensures Weak(Apply(s, step))
  {
    hide Filter, Diff, ByAddr, ConfigsEqual, Weak, Held, Fresh;
    match step {
      case Begin(next) =>
        BeginWeak(s, next);
      case RemoveSection =>
        RetireWeak(s, Apply(s, step), s.phase.plan.removed);
      case ModifySection =>
        RetireWeak(s, Apply(s, step), s.phase.plan.modified);
      case TakeOut(i) =>
        TakeWeak(s, i);
      case PutBack =>
        ReturnWeak(s);
    }
  }

  // ---- The add section ----

  /** Appending relays of other addresses. */
  lemma AppendedList(rs: seq<Relay>, more: seq<Relay>)
    ensures forall a :: HasAddr(rs + more, a) <==> HasAddr(rs, a) || HasAddr(more, a)
    ensures Distinct(rs) && Distinct(more) && (forall a :: HasAddr(rs, a) ==> !HasAddr(more, a)) ==> Distinct(rs + more)
  {
    var t := rs + more;
    forall a
      ensures HasAddr(t, a) <==> HasAddr(rs, a) || HasAddr(more, a)
    {
      if HasAddr(rs, a) {
        var i :| 0 <= i < |rs| && rs[i].Addr() == a;
        assert t[i] == rs[i];
      }
      if HasAddr(more, a) {
        var i :| 0 <= i < |more| && more[i].Addr() == a;
        assert t[|rs| + i] == more[i];
      }
    }
    if Distinct(rs) && Distinct(more) && forall a :: HasAddr(rs, a) ==> !HasAddr(more, a) {
      forall i, j | 0 <= i < j < |t|
        ensures t[i].Addr() != t[j].Addr()
      {
        if i < |rs| <= j {
          assert HasAddr(rs, rs[i].Addr()) && more[j - |rs|] == t[j];
        }
      }
    }
  }

  /** No address the add section brings is active, unless a stray relay has it. */
  lemma AddsAreNew(s: State, a: string)
    requires s.phase.Retired? && Weak(s) && NoStray(s) && HasAddr(s.active, a)
    ensures a !in s.phase.plan.added + s.phase.plan.modified
  {
    hide ByAddr, ConfigsEqual, Held;
    var i :| 0 <= i < |s.active| && s.active[i].Addr() == a;
    assert Fresh(s, s.active[i]);
  }

  lemma BuiltList(adds: seq<PortConfig>, next: seq<PortConfig>, addrs: set<string>, id: nat)
    requires Lists(adds, next, addrs)
    ensures Distinct(Build(adds, id))
    ensures forall a :: HasAddr(Build(adds, id), a) <==> a in addrs
  {
    hide ByAddr;
    var built := Build(adds, id);
    forall a | a in addrs
      ensures HasAddr(built, a)
    {
      var i :| 0 <= i < |adds| && adds[i].listenAddr == a;
      assert built[i].Addr() == a;
    }
  }

  lemma AddedList(s: State, adds: seq<PortConfig>)
    requires Enabled(s, AddSection(adds)) && Weak(s) && NoStray(s)
    ensures Distinct(Add(s, adds).active)
    ensures forall a :: HasAddr(Add(s, adds).active, a) <==>
              HasAddr(s.active, a) || a in s.phase.plan.added + s.phase.plan.modified
  {
    hide ByAddr, ConfigsEqual, Held, Lists, HasAddr, Distinct, Diff, NoStray;
    var addrs := s.phase.plan.added + s.phase.plan.modified;
    BuiltList(adds, s.phase.next, addrs, |s.created|);
    AppendedList(s.active, Build(adds, |s.created|));
    forall a | HasAddr(s.active, a)
      ensures a !in addrs
    {
      AddsAreNew(s, a);
    }
  }

  lemma AddFresh(s: State, adds: seq<PortConfig>)
    requires Enabled(s, AddSection(adds)) && Weak(s) && NoStray(s)
    ensures var t := Apply(s, AddSection(adds));
            forall i :: 0 <= i < |t.active| ==> Fresh(t, t.active[i])
  {
    hide ByAddr, ConfigsEqual, Diff, Held;
    var t, built := Apply(s, AddSection(adds)), Build(adds, |s.created|);
    forall i | 0 <= i < |t.active|
      ensures Fresh(t, t.active[i])
    {
      if i < |s.active| {
        assert t.active[i] == s.active[i];
        FreshStays(s, t, s.active[i]);
      } else {
        assert t.active[i] == built[i - |s.active|];
        EqualItself(t.active[i].cfg);
      }
    }
  }

  /** A relay the reload leaves alone stands for the new configuration too. */
  lemma FreshStays(s: State, t: State, r: Relay)
    requires s.phase.Retired? && s.phase.plan == Diff(s.cfgs, s.phase.next) && Fresh(s, r)
    requires t.cfgs == s.phase.next && t.phase.Quiet?
    ensures Fresh(t, r)
  {
  }

  lemma AddGood(s: State, adds: seq<PortConfig>)
    requires Enabled(s, AddSection(adds)) && Good(s)
    ensures Good(Apply(s, AddSection(adds)))
  {
    hide ByAddr, ConfigsEqual, Fresh, Distinct, Lists;
    var t, plan := Apply(s, AddSection(adds)), s.phase.plan;
    AddedList(s, adds);
    AddFresh(s, adds);
    forall a | a in ByAddr(t.cfgs)
      ensures Held(t, a)
    {
      if a !in plan.added + plan.modified {
        assert a in ByAddr(s.cfgs) && a !in Gone(s);
        assert Held(s, a);
      }
    }
    if s.victim.Some? && Fresh(s, s.victim.value) {
      FreshStays(s, t, s.victim.value);
    }
  }

  // ---- Main results ----

  /** Outside the two windows, every reload and eviction step keeps the good invariant. */
  lemma StepGood(s: State, step: Step)
    requires Good(s) && Enabled(s, step) && Core(step) && !Race(s, step)
    ensures Good(Apply(s, step))
  {
    hide Filter, Diff, ByAddr, ConfigsEqual, Weak, Held, Fresh;
    match step {
      case Begin(next) =>
        BeginWeak(s, next);
      case RemoveSection =>
        RetireWeak(s, Apply(s, step), s.phase.plan.removed);
      case ModifySection =>
        RetireWeak(s, Apply(s, step), s.phase.plan.modified);
      case AddSection(adds) =>
        AddGood(s, adds);
      case TakeOut(i) =>
        TakeWeak(s, i);
      case PutBack =>
        ReturnWeak(s);
    }
  }

  /** At rest, the good invariant is the correspondence. */
  lemma GoodAtRest(s: State)
    requires Good(s) && s.phase.Quiet? && s.victim.None?
    ensures InStep(s)
  {
  }

  /** Every active relay has the configuration of its address, but for what a reload does not look at. */
  predicate AsConfigured(s: State) {
    forall i :: 0 <= i < |s.active| ==>
      var a := s.active[i].Addr();
      a in ByAddr(s.cfgs) && Blanked(s.active[i].cfg) == Blanked(ByAddr(s.cfgs)[a])
  }

  lemma InStepConfigured(s: State)
    requires InStep(s)
    ensures AsConfigured(s)
  {
    hide ByAddr, ConfigsEqual, Blanked;
    forall i | 0 <= i < |s.active|
      ensures var a := s.active[i].Addr();
              a in ByAddr(s.cfgs) && Blanked(s.active[i].cfg) == Blanked(ByAddr(s.cfgs)[a])
    {
      EqualMeans(ByAddr(s.cfgs)[s.active[i].Addr()], s.active[i].cfg);
    }
  }

  ghost predicate RaceFree(states: seq<State>, steps: seq<Step>) {
    Run(states, steps) && forall i :: 0 <= i < |steps| ==> Core(steps[i]) && !Race(states[i], steps[i])
  }

  /** Over every race-free run, whenever nothing is under way the active relays match the configuration. */
  lemma {:induction false} RunStaysInStep(states: seq<State>, steps: seq<Step>)
    requires RaceFree(states, steps) && Good(states[0])
    ensures forall k :: 0 <= k < |states| ==> Good(states[k])
    ensures forall k :: 0 <= k < |states| && states[k].phase.Quiet? && states[k].victim.None? ==>
                          InStep(states[k]) && AsConfigured(states[k])
    decreases |steps|
  {
    hide Good, InStep, AsConfigured, Apply, Enabled, Race;
    if steps != [] {
      var n := |steps| - 1;
      RunStaysInStep(states[..n + 1], steps[..n]);
      StepGood(states[n], steps[n]);
    }
    forall k | 0 <= k < |states| && states[k].phase.Quiet? && states[k].victim.None?
      ensures InStep(states[k]) && AsConfigured(states[k])
    {
      GoodAtRest(states[k]);
      InStepConfigured(states[k]);
    }
  }

  lemma RestIsGood(s: State)
    requires InStep(s) && s.phase.Quiet? && s.victim.None?
    ensures Good(s)
  {
  }

  // ---- The windows, exactly ----

  /** A step inside one of the two windows breaks the good invariant. */
  lemma RaceBreaks(s: State, step: Step)
    requires Good(s) && Enabled(s, step) && Race(s, step)
    ensures !Good(Apply(s, step))
  {
    hide ByAddr, ConfigsEqual, Diff, Filter, Weak;
    var t, v := Apply(s, step), s.victim.value;
    if step.PutBack? {
      assert t.active[|s.active|] == v;
    }
  }

  /** Reload and eviction steps keep the good invariant exactly outside the two windows. */
  lemma GoodExactly(s: State, step: Step)
    requires Good(s) && Enabled(s, step) && Core(step)
    ensures Good(Apply(s, step)) <==> !Race(s, step)
  {
    hide Good, Apply, Race;
    if Race(s, step) {
      RaceBreaks(s, step);
    } else {
      StepGood(s, step);
    }
  }

  /** The state once the eviction under way, if any, has put its relay back. */
  function Settled(s: State): State {
    if s.victim.Some? then Return(s) else s
  }

  /** A stray relay leaves the completed reload out of step, also once an eviction has ended. */
  lemma StrayBreaks(s: State, adds: seq<PortConfig>, i: nat, u: State)
    requires Weak(s) && Enabled(s, AddSection(adds)) && i < |s.active| && s.active[i].Addr() in Gone(s)
    requires Add(s, adds).active <= u.active && u.cfgs == s.phase.next
    ensures !InStep(u)
  {
    hide ByAddr, ConfigsEqual, Held;
    var built, a := Build(adds, |s.created|), s.active[i].Addr();
    assert u.active[i] == s.active[i];
    if a in s.phase.plan.modified {
      var k :| 0 <= k < |adds| && adds[k].listenAddr == a;
      assert u.active[|s.active| + k] == built[k];
    } else {
      assert a !in ByAddr(u.cfgs) && HasAddr(u.active, a);
    }
  }

  /** A relay in flight whose address the reload removed is active again in the end, without a configuration. */
  lemma RemovedBreaks(s: State, adds: seq<PortConfig>)
    requires Weak(s) && Enabled(s, AddSection(adds)) && s.victim.Some? && s.victim.value.Addr() in s.phase.plan.removed
    ensures !InStep(Return(Apply(s, AddSection(adds))))
  {
    hide ByAddr, ConfigsEqual, Held, Distinct;
    var t, v := Apply(s, AddSection(adds)), s.victim.value;
    var u := Return(t);
    assert v.Addr() !in ByAddr(u.cfgs);
    if !HasAddr(t.active, v.Addr()) {
      assert u.active[|t.active|] == v;
    }
  }

  lemma SettledIs(t: State)
    ensures t.active <= Settled(t).active && Settled(t).cfgs == t.cfgs
    ensures Settled(t).victim == None && Settled(t).phase == t.phase
  {
  }

  lemma SettlesInStep(s: State, adds: seq<PortConfig>)
    requires Good(s) && Enabled(s, AddSection(adds))
    ensures InStep(Settled(Apply(s, AddSection(adds))))
  {
    hide Good, InStep, Lists, Return;
    var t := Apply(s, AddSection(adds));
    AddGood(s, adds);
    if t.victim.Some? {
      StepGood(t, PutBack);
    }
    SettledIs(t);
    GoodAtRest(Settled(t));
  }

  /**
   A completed reload is in step, once the eviction under way has ended, exactly when no stray relay
   was active before its add section and the relay in flight is not of an address it removed.
   */
  lemma InStepExactly(s: State, adds: seq<PortConfig>)
    requires Weak(s) && Enabled(s, AddSection(adds))
    ensures InStep(Settled(Apply(s, AddSection(adds)))) <==>
            NoStray(s) && (s.victim.Some? ==> s.victim.value.Addr() !in s.phase.plan.removed)
  {
    hide Weak, InStep, ByAddr, Held, Lists, Return;
    var t := Apply(s, AddSection(adds));
    SettledIs(t);
    if !NoStray(s) {
      var i :| 0 <= i < |s.active| && s.active[i].Addr() in Gone(s);
      StrayBreaks(s, adds, i, Settled(t));
    } else if s.victim.Some? && s.victim.value.Addr() in s.phase.plan.removed {
      RemovedBreaks(s, adds);
    } else {
      SettlesInStep(s, adds);
    }
  }

  /** The steps that put an eviction inside a reload of the evicted relay's address. */
  function WindowSteps(next: seq<PortConfig>, i: nat, adds: seq<PortConfig>): seq<Step> {
    [Begin(next), TakeOut(i), RemoveSection, ModifySection, PutBack, AddSection(adds)]
  }

  lemma ModifiedNotRemoved(cur: seq<PortConfig>, next: seq<PortConfig>, a: string)
    requires a in Diff(cur, next).modified
    ensures a !in Diff(cur, next).removed
  {
    hide ByAddr;
  }

  /** From every state at rest, a reload changing an address whose relay is put back in between ends out of step. */
  lemma WindowBreaks(states: seq<State>, next: seq<PortConfig>, i: nat, adds: seq<PortConfig>)
    requires Run(states, WindowSteps(next, i, adds))
    requires InStep(states[0]) && states[0].phase.Quiet? && states[0].victim.None?
    requires i < |states[0].active| && states[0].active[i].Addr() in Diff(states[0].cfgs, next).modified
    ensures states[6].phase.Quiet? && states[6].victim.None? && !InStep(states[6])
  {
    hide InStep, Weak, ByAddr, ConfigsEqual, Diff, Filter, Lists, HasAddr, NoStray;
    var steps := WindowSteps(next, i, adds);
    assert steps[0] == Begin(next) && steps[1] == TakeOut(i) && steps[2] == RemoveSection;
    assert steps[3] == ModifySection && steps[4] == PutBack && steps[5] == AddSection(adds);
    RestIsGood(states[0]);
    StepGood(states[0], steps[0]);
    StepGood(states[1], steps[1]);
    ModifiedNotRemoved(states[0].cfgs, next, states[0].active[i].Addr());
    StepGood(states[2], steps[2]);
    StepGood(states[3], steps[3]);
    StepWeak(states[4], steps[4]);
    RaceBreaks(states[4], steps[4]);
    InStepExactly(states[5], adds);
  }

  lemma OnePortDiff(c: PortConfig, d: PortConfig)
    requires c.listenAddr == d.listenAddr && c.command != d.command
    ensures ByAddr([c]) == map[c.listenAddr := c]
    ensures Diff([c], [d]) == Plan({}, {}, {c.listenAddr})
  {
  }

  function WindowStates(c: PortConfig, d: PortConfig): seq<State> {
    var r, plan := Relay(0, c), Plan({}, {}, {c.listenAddr});
    var q := Relay(1, d);
    [State([r], [], None, [], [r], [c], Quiet),
     State([r], [], None, [], [r], [c], Planned([d], plan)),
     State([], [], Some(r), [], [r], [c], Planned([d], plan)),
     State([], [], Some(r), [], [r], [c], Removed([d], plan)),
     State([], [], Some(r), [], [r], [c], Retired([d], plan)),
     State([r], [], None, [], [r], [c], Retired([d], plan)),
     State([r, q], [], None, [], [r, q], [d], Quiet)]
  }

  lemma WindowEvicts(c: PortConfig, d: PortConfig)
    requires c.listenAddr == d.listenAddr && c.command != d.command
    ensures var states, steps := WindowStates(c, d), WindowSteps([d], 0, [d]);
      && Enabled(states[0], steps[0]) && states[1] == Apply(states[0], steps[0])
      && Enabled(states[1], steps[1]) && states[2] == Apply(states[1], steps[1])
      && Enabled(states[2], steps[2]) && states[3] == Apply(states[2], steps[2])
  {
    hide Diff, ByAddr, Lists, HasAddr, ConfigsEqual;
    OnePortDiff(c, d);
  }

  lemma WindowReturns(c: PortConfig, d: PortConfig)
    ensures var states, steps := WindowStates(c, d), WindowSteps([d], 0, [d]);
      && Enabled(states[3], steps[3]) && states[4] == Apply(states[3], steps[3])
      && Enabled(states[4], steps[4]) && states[5] == Apply(states[4], steps[4])
  {
    hide Diff, ByAddr, Lists, ConfigsEqual;
  }

  lemma WindowAdds(c: PortConfig, d: PortConfig)
    requires c.listenAddr == d.listenAddr && c.command != d.command
    ensures var states, steps := WindowStates(c, d), WindowSteps([d], 0, [d]);
      && Enabled(states[5], steps[5]) && states[6] == Apply(states[5], steps[5])
  {
    hide Diff, ByAddr, HasAddr, ConfigsEqual;
    OnePortDiff(d, c);
    assert [d][0].listenAddr == c.listenAddr;
  }

  lemma WindowStarts(c: PortConfig, d: PortConfig)
    requires c.listenAddr == d.listenAddr && c.command != d.command
    ensures InStep(WindowStates(c, d)[0])
  {
    hide Diff, ByAddr;
    OnePortDiff(c, d);
    assert [Relay(0, c)][0].Addr() == c.listenAddr;
  }

  /** The window is reachable: one port, changed while its relay is evicted, ends with two active relays. */
  lemma WindowOpens(c: PortConfig, d: PortConfig)
    requires c.listenAddr == d.listenAddr && c.command != d.command
    ensures Run(WindowStates(c, d), WindowSteps([d], 0, [d]))
    ensures InStep(WindowStates(c, d)[0])
    ensures WindowStates(c, d)[6].active == [Relay(0, c), Relay(1, d)]
  {
    hide Enabled, Apply, InStep, Lists;
    WindowStarts(c, d);
    WindowEvicts(c, d);
    WindowReturns(c, d);
    WindowAdds(c, d);
  }

  // ---- The other window: a reload removes the address of the relay in flight ----

  function RemovalSteps(next: seq<PortConfig>, i: nat, adds: seq<PortConfig>): seq<Step> {
    [Begin(next), TakeOut(i), RemoveSection, ModifySection, AddSection(adds), PutBack]
  }

  /** From every state at rest, a reload that removes the address of a relay in flight ends out of step. */
  lemma RemovalBreaks(states: seq<State>, next: seq<PortConfig>, i: nat, adds: seq<PortConfig>)
    requires Run(states, RemovalSteps(next, i, adds))
    requires InStep(states[0]) && states[0].phase.Quiet? && states[0].victim.None?
    requires i < |states[0].active| && states[0].active[i].Addr() in Diff(states[0].cfgs, next).removed
    ensures states[6].phase.Quiet? && states[6].victim.None? && !InStep(states[6])
  {
    hide InStep, Good, Weak, ByAddr, ConfigsEqual, Filter, Lists, HasAddr, NoStray;
    var steps := RemovalSteps(next, i, adds);
    assert steps[0] == Begin(next) && steps[1] == TakeOut(i) && steps[2] == RemoveSection;
    assert steps[3] == ModifySection && steps[4] == AddSection(adds) && steps[5] == PutBack;
    RestIsWeak(states[0]);
    StepWeak(states[0], steps[0]);
    StepWeak(states[1], steps[1]);
    StepWeak(states[2], steps[2]);
    StepWeak(states[3], steps[3]);
    RemovedBreaks(states[4], adds);
  }

  lemma RestIsWeak(s: State)
    requires InStep(s) && s.phase.Quiet? && s.victim.None?
    ensures Weak(s)
  {
    hide InStep, Weak;
    RestIsGood(s);
  }

  lemma EqualItself(c: PortConfig)
    ensures ConfigsEqual(c, c)
  {
  }

  lemma TwoPortDiff(c: PortConfig, d: PortConfig)
    requires c.listenAddr != d.listenAddr
    ensures ByAddr([d]) == map[d.listenAddr := d]
    ensures ByAddr([c, d]) == map[c.listenAddr := c, d.listenAddr := d]
    ensures Diff([c, d], [d]) == Plan({}, {c.listenAddr}, {})
  {
    hide ConfigsEqual;
    assert [c, d][..1] == [c] && [c][..0] == [] && [d][..0] == [];
    assert ByAddr([c]) == map[c.listenAddr := c];
    EqualItself(d);
    assert ByAddr([c, d]).Keys - ByAddr([d]).Keys == {c.listenAddr};
    assert ByAddr([d])[d.listenAddr] == ByAddr([c, d])[d.listenAddr];
  }

  function RemovalStates(c: PortConfig, d: PortConfig): seq<State> {
    var r, q, plan := Relay(0, c), Relay(1, d), Plan({}, {c.listenAddr}, {});
    [State([r, q], [], None, [], [r, q], [c, d], Quiet),
     State([r, q], [], None, [], [r, q], [c, d], Planned([d], plan)),
     State([q], [], Some(r), [], [r, q], [c, d], Planned([d], plan)),
     State([q], [], Some(r), [], [r, q], [c, d], Removed([d], plan)),
     State([q], [], Some(r), [], [r, q], [c, d], Retired([d], plan)),
     State([q], [], Some(r), [], [r, q], [d], Quiet),
     State([q, r], [], None, [], [r, q], [d], Quiet)]
  }

  lemma RemovalEvicts(c: PortConfig, d: PortConfig)
    requires c.listenAddr != d.listenAddr
    ensures var states, steps := RemovalStates(c, d), RemovalSteps([d], 0, []);
      && Enabled(states[0], steps[0]) && states[1] == Apply(states[0], steps[0])
      && Enabled(states[1], steps[1]) && states[2] == Apply(states[1], steps[1])
  {
    hide Diff, ByAddr, Lists, HasAddr, ConfigsEqual, Filter;
    TwoPortDiff(c, d);
    assert [Relay(0, c), Relay(1, d)][1..] == [Relay(1, d)];
  }

  lemma RemovalRetires(c: PortConfig, d: PortConfig)
    requires c.listenAddr != d.listenAddr
    ensures var states, steps := RemovalStates(c, d), RemovalSteps([d], 0, []);
      && Enabled(states[2], steps[2]) && states[3] == Apply(states[2], steps[2])
      && Enabled(states[3], steps[3]) && states[4] == Apply(states[3], steps[3])
  {
    hide Diff, ByAddr, Lists, HasAddr, ConfigsEqual, Filter;
    var q := Relay(1, d);
    FilterOne(q, NotIn({c.listenAddr}));
    FilterOne(q, In({c.listenAddr}));
    FilterOne(q, NotIn({}));
    FilterOne(q, In({}));
  }

  lemma RemovalReturns(c: PortConfig, d: PortConfig)
    requires c.listenAddr != d.listenAddr
    ensures var states, steps := RemovalStates(c, d), RemovalSteps([d], 0, []);
      && Enabled(states[4], steps[4]) && states[5] == Apply(states[4], steps[4])
      && Enabled(states[5], steps[5]) && states[6] == Apply(states[5], steps[5])
  {
    hide Diff, ByAddr, ConfigsEqual;
    assert Build([], 2) == [];
  }

  /** This window is reachable too: of two ports one is removed during its eviction, and the relay stays active. */
  lemma RemovalOpens(c: PortConfig, d: PortConfig)
    requires c.listenAddr != d.listenAddr
    ensures Run(RemovalStates(c, d), RemovalSteps([d], 0, []))
    ensures InStep(RemovalStates(c, d)[0])
    ensures RemovalStates(c, d)[6].cfgs == [d] && RemovalStates(c, d)[6].active == [Relay(1, d), Relay(0, c)]
  {
    hide Enabled, Apply, Diff, ByAddr, ConfigsEqual;
    TwoPortDiff(c, d);
    EqualItself(c);
    EqualItself(d);
    RemovalEvicts(c, d);
    RemovalRetires(c, d);
    RemovalReturns(c, d);
    var active := RemovalStates(c, d)[0].active;
    assert active[0].Addr() == c.listenAddr && active[1].Addr() == d.listenAddr;
  }

  // ---- Unchanged addresses keep their relay object ----

  /** The active relays of an address. */
  function Own(s: State, a: string): seq<Relay> {
    Filter(s.active, In({a}))
  }

  /** `r` is the only relay of its address, active or in flight, and no reload under way touches it. */
  ghost predicate Mine(s: State, r: Relay) {
    && r.Addr() in ByAddr(s.cfgs)
    && (!s.phase.Quiet? ==>
          && s.phase.plan == Diff(s.cfgs, s.phase.next)
          && r.Addr() !in s.phase.plan.removed + s.phase.plan.modified)
    && (Own(s, r.Addr()) == [r] || (Own(s, r.Addr()) == [] && s.victim == Some(r)))
  }

  /** A reload that starts here leaves the address alone. */
  predicate LeavesAlone(s: State, step: Step, a: string) {
    step.Begin? ==> a !in Diff(s.cfgs, step.next).removed + Diff(s.cfgs, step.next).modified
  }

  lemma {:induction false} FilterAppend(a: seq<Relay>, b: seq<Relay>, p: Relay -> bool)
    ensures Filter(a + b, p) == Filter(a, p) + Filter(b, p)
    decreases |a|
  {
    if a == [] {
      assert a + b == b;
    } else {
      assert (a + b)[1..] == a[1..] + b;
      FilterAppend(a[1..], b, p);
    }
  }

  lemma {:induction false} OwnNone(rs: seq<Relay>, a: string)
    ensures Filter(rs, In({a})) == [] <==> !HasAddr(rs, a)
    decreases |rs|
  {
    if rs != [] {
      OwnNone(rs[1..], a);
      if HasAddr(rs[1..], a) {
        var i :| 0 <= i < |rs[1..]| && rs[1..][i].Addr() == a;
        assert rs[i + 1].Addr() == a;
      }
    }
  }

  lemma {:induction false} OwnKept(rs: seq<Relay>, addrs: set<string>, a: string)
    requires a !in addrs
    ensures Filter(Filter(rs, NotIn(addrs)), In({a})) == Filter(rs, In({a}))
    decreases |rs|
  {
    if rs != [] {
      OwnKept(rs[1..], addrs, a);
      FilterAppend([rs[0]], Filter(rs[1..], NotIn(addrs)), In({a}));
    }
  }

  lemma FilterOne(r: Relay, p: Relay -> bool)
    ensures Filter([r], p) == if p(r) then [r] else []
  {
    assert [r][1..] == [];
  }

  lemma BuiltHas(adds: seq<PortConfig>, next: seq<PortConfig>, addrs: set<string>, id: nat, a: string)
    requires Lists(adds, next, addrs)
    ensures HasAddr(Build(adds, id), a) ==> a in addrs
  {
    hide ByAddr;
  }

  /** One relay out of three parts. */
  lemma MidOf(a: seq<Relay>, m: seq<Relay>, b: seq<Relay>, r: Relay)
    requires a + (m + b) == [r] && |m| <= 1
    ensures m == [] ==> a + b == [r]
    ensures m != [] ==> m == [r] && a + b == []
  {
    assert |a| + |m| + |b| == 1;
    if m != [] {
      assert (a + (m + b))[|a|] == m[0];
    } else {
      assert m + b == b;
    }
  }

  lemma TakeKeepsMine(s: State, i: nat, r: Relay)
    requires Mine(s, r) && i < |s.active| && s.victim.None?
    ensures Mine(TakeVictim(s, i), r)
  {
    hide ByAddr, Diff, Filter;
    var before, x, after, p := s.active[..i], s.active[i], s.active[i + 1..], In({r.Addr()});
    assert s.active == before + ([x] + after);
    FilterAppend(before, [x] + after, p);
    FilterAppend([x], after, p);
    FilterAppend(before, after, p);
    FilterOne(x, p);
    MidOf(Filter(before, p), if x.Addr() == r.Addr() then [x] else [], Filter(after, p), r);
  }

  lemma ReturnKeepsMine(s: State, r: Relay)
    requires Mine(s, r) && s.victim.Some?
    ensures Mine(Return(s), r)
  {
    hide ByAddr, Diff, Filter, HasAddr;
    var v := s.victim.value;
    FilterAppend(s.active, [v], In({r.Addr()}));
    FilterOne(v, In({r.Addr()}));
    OwnNone(s.active, r.Addr());
  }

  lemma AddKeepsMine(s: State, adds: seq<PortConfig>, r: Relay)
    requires Mine(s, r) && Enabled(s, AddSection(adds))
    ensures Mine(Apply(s, AddSection(adds)), r)
  {
    hide ByAddr, Filter, HasAddr, Lists, ConfigsEqual;
    var addrs, built := s.phase.plan.added + s.phase.plan.modified, Build(adds, |s.created|);
    BuiltHas(adds, s.phase.next, addrs, |s.created|, r.Addr());
    OwnNone(built, r.Addr());
    FilterAppend(s.active, built, In({r.Addr()}));
  }

  lemma RetireKeepsMine(s: State, addrs: set<string>, r: Relay)
    requires Mine(s, r) && r.Addr() !in addrs
    ensures Mine(Retire(s, addrs), r)
  {
    hide ByAddr, Diff, Filter;
    OwnKept(s.active, addrs, r.Addr());
  }

  /** Every reload and eviction step keeps the relay of an address its reload leaves alone. */
  lemma StepKeepsMine(s: State, step: Step, r: Relay)
    requires Mine(s, r) && Enabled(s, step) && Core(step) && LeavesAlone(s, step, r.Addr())
    ensures Mine(Apply(s, step), r)
  {
    hide ByAddr, Diff, Filter, HasAddr, Lists;
    match step {
      case Begin(_) =>
      case RemoveSection =>
        RetireKeepsMine(s, s.phase.plan.removed, r);
      case ModifySection =>
        RetireKeepsMine(s, s.phase.plan.modified, r);
      case AddSection(adds) =>
        AddKeepsMine(s, adds, r);
      case TakeOut(i) =>
        TakeKeepsMine(s, i, r);
      case PutBack =>
        ReturnKeepsMine(s, r);
    }
  }

  /**
   Over every run of reloads and evictions whose reloads leave an address alone, that address keeps
   the same relay object, whatever races there are at other addresses.
   */
  lemma {:induction false} RunKeepsMine(states: seq<State>, steps: seq<Step>, r: Relay)
    requires Run(states, steps) && Mine(states[0], r)
    requires forall i :: 0 <= i < |steps| ==> Core(steps[i]) && LeavesAlone(states[i], steps[i], r.Addr())
    ensures forall k :: 0 <= k < |states| ==> Mine(states[k], r)
    ensures forall k :: 0 <= k < |states| && states[k].victim.None? ==> Own(states[k], r.Addr()) == [r]
    decreases |steps|
  {
    hide Mine, Apply, Enabled, LeavesAlone, Own, Core;
    if steps != [] {
      var n := |steps| - 1;
      var front, before := states[..n + 1], steps[..n];
      assert forall i :: 0 <= i < n ==> front[i] == states[i] && before[i] == steps[i];
      RunKeepsMine(front, before, r);
      assert front[n] == states[n];
      StepKeepsMine(states[n], steps[n], r);
      forall k | 0 <= k < |states|
        ensures Mine(states[k], r)
      {
        assert k <= n ==> states[k] == front[k];
      }
    }
    forall k | 0 <= k < |states| && states[k].victim.None?
      ensures Own(states[k], r.Addr()) == [r]
    {
      MineActive(states[k], r);
    }
  }

  lemma MineActive(s: State, r: Relay)
    requires Mine(s, r) && s.victim.None?
    ensures Own(s, r.Addr()) == [r]
  {
  }

  lemma Elsewhere(rs: seq<Relay>, i: nat, part: seq<Relay>)
    requires Distinct(rs) && i < |rs| && (part == rs[..i] || part == rs[i + 1..])
    ensures !HasAddr(part, rs[i].Addr())
  {
    forall k | 0 <= k < |part|
      ensures part[k].Addr() != rs[i].Addr()
    {
      assert part[k] == rs[if part == rs[..i] then k else i + 1 + k];
    }
  }

  /** At rest every active relay is the only one of its address. */
  lemma RestIsMine(s: State, r: Relay)
    requires InStep(s) && s.phase.Quiet? && r in s.active
    ensures Mine(s, r)
  {
    hide ByAddr, Diff, Filter, ConfigsEqual, Distinct;
    var i :| 0 <= i < |s.active| && s.active[i] == r;
    var before, after, p := s.active[..i], s.active[i + 1..], In({r.Addr()});
    assert s.active == before + ([r] + after);
    FilterAppend(before, [r] + after, p);
    FilterAppend([r], after, p);
    FilterOne(r, p);
    Elsewhere(s.active, i, before);
    Elsewhere(s.active, i, after);
    OwnNone(before, r.Addr());
    OwnNone(after, r.Addr());
  }
}
