/**
 The registry as src/main.cpp and src/system_monitor.cpp keep it: two lists edited in
 place by loops, each section proved to be the step of the same name.
 */
module RegistryLists {
  import opened Text
  import opened Config
  import opened Registry
  import opened RegistryUnique
  import Eviction

  /** One pass of a filtering loop: behind what has been kept, the head goes to the side its test says. */
  lemma FilterNext(kept: seq<Relay>, rs: seq<Relay>, p: Relay -> bool)
    requires rs != []
    ensures kept + Filter(rs, p) == (if p(rs[0]) then kept + [rs[0]] else kept) + Filter(rs[1..], p)
  {
  }

  lemma {:induction false} FilterAll(rs: seq<Relay>, p: Relay -> bool)
    requires forall r :: r in rs ==> p(r)
    ensures Filter(rs, p) == rs
    decreases |rs|
  {
    if rs != [] {
      FilterAll(rs[1..], p);
    }
  }

  lemma {:induction false} FilterNone(rs: seq<Relay>, p: Relay -> bool)
    requires forall r :: r in rs ==> !p(r)
    ensures Filter(rs, p) == []
    decreases |rs|
  {
    if rs != [] {
      FilterNone(rs[1..], p);
    }
  }

  lemma RetireNothing(s: State)
    ensures Retire(s, {}) == s
  {
    hide Filter;
    FilterAll(s.active, NotIn({}));
    FilterNone(s.active, In({}));
  }

  /** Running relays the pending pass asks to stop. */
  function Asked(monitored: set<nat>, running: set<nat>, recent: set<nat>): Relay -> bool {
    (r: Relay) => r.id in running && r.id in monitored && r.id !in recent
  }

  class Globals {
    var relays: seq<Relay>
    var pendingRemoval: seq<Relay>
    var victim: Option<Relay>
    var currentCfgs: seq<PortConfig>
    var reloadInProgress: bool
    ghost var phase: Phase
    ghost var dropped: seq<Relay>
    ghost var created: seq<Relay>
    var count: nat

    constructor ()
      ensures Valid() && Value() == State([], [], None, [], [], [], Quiet)
    {
      relays, pendingRemoval, victim, currentCfgs, reloadInProgress := [], [], None, [], false;
      dropped, created, count, phase := [], [], 0, Quiet;
    }

    ghost predicate Valid()
      reads this
    {
      count == |created| && (reloadInProgress <==> !phase.Quiet?)
    }

    ghost function Value(): State
      reads this
    {
      State(relays, pendingRemoval, victim, dropped, created, currentCfgs, phase)
    }

    /** The loop of both removing sections of a reload. */
    method RetireByAddr(addrs: seq<string>)
      requires Valid()
      modifies this`relays, this`pendingRemoval
      ensures Value() == Retire(old(Value()), set a | a in addrs)
    {
      hide Filter;
      ghost var gone := set a | a in addrs;
      ghost var was, waiting := relays, pendingRemoval;
      var it := 0;
      while it < |relays|
        invariant it <= |relays|
        invariant Filter(was, NotIn(gone)) == relays[..it] + Filter(relays[it..], NotIn(gone))
        invariant waiting + Filter(was, In(gone)) == pendingRemoval + Filter(relays[it..], In(gone))
        decreases |relays| - it
      {
        ghost var rest := relays[it..];
        FilterNext(relays[..it], rest, NotIn(gone));
        FilterNext(pendingRemoval, rest, In(gone));
        assert rest[1..] == relays[it + 1..];
        if relays[it].Addr() in addrs {
          ghost var whole := relays;
          pendingRemoval := pendingRemoval + [relays[it]];
          relays := relays[..it] + relays[it + 1..];
          assert relays[..it] == whole[..it] && relays[it..] == whole[it + 1..];
        } else {
          assert relays[..it + 1] == relays[..it] + [relays[it]];
          it := it + 1;
        }
      }
      FilterNone(relays[it..], NotIn(gone));
      FilterNone(relays[it..], In(gone));
      assert relays[..it] == relays;
    }

    /** The idle pass of the monitor thread. */
    method IdlePass(monitored: set<nat>, running: set<nat>, recent: set<nat>)
      requires Valid()
      modifies this`relays, this`pendingRemoval
      ensures Value() == RetireIdle(old(Value()), monitored * running - recent)
    {
      hide Filter;
      ghost var idle := monitored * running - recent;
      ghost var was, waiting := relays, pendingRemoval;
      var it := 0;
      while it < |relays|
        invariant it <= |relays|
        invariant Filter(was, BusyOnes(idle)) == relays[..it] + Filter(relays[it..], BusyOnes(idle))
        invariant waiting + Filter(was, IdleOnes(idle)) == pendingRemoval + Filter(relays[it..], IdleOnes(idle))
        decreases |relays| - it
      {
        var r := relays[it];
        ghost var rest := relays[it..];
        FilterNext(relays[..it], rest, BusyOnes(idle));
        FilterNext(pendingRemoval, rest, IdleOnes(idle));
        assert rest[1..] == relays[it + 1..];
        assert relays[..it + 1] == relays[..it] + [r];
        if r.id !in monitored {
          it := it + 1;
          continue;
        }
        if r.id !in running {
          it := it + 1;
          continue;
        }
        if r.id in recent {
          it := it + 1;
          continue;
        }
        ghost var whole := relays;
        pendingRemoval := pendingRemoval + [r];
        relays := relays[..it] + relays[it + 1..];
        assert relays[..it] == whole[..it] && relays[it..] == whole[it + 1..];
      }
      FilterNone(relays[it..], BusyOnes(idle));
      FilterNone(relays[it..], IdleOnes(idle));
      assert relays[..it] == relays;
    }

    /** The pending pass of the monitor thread; `asked` are the relays it asks to stop, which stay. */
    method PendingPass(monitored: set<nat>, running: set<nat>, recent: set<nat>) returns (asked: seq<Relay>)
      requires Valid()
      modifies this`relays, this`pendingRemoval, this`dropped
      ensures Value() == ProcessPending(old(Value()), running)
      ensures forall r :: r in asked <==>
                            r in old(pendingRemoval) && r.id in running && r.id in monitored && r.id !in recent
    {
      hide Filter;
      ghost var was, on, off := pendingRemoval, relays, dropped;
      ghost var idle := Asked(monitored, running, recent);
      asked := [];
      var it := 0;
      while it < |pendingRemoval|
        invariant it <= |pendingRemoval|
        invariant Filter(was, Stays(running)) == pendingRemoval[..it] + Filter(pendingRemoval[it..], Stays(running))
        invariant on + Filter(was, Restarts(running)) == relays + Filter(pendingRemoval[it..], Restarts(running))
        invariant off + Filter(was, Ends(running)) == dropped + Filter(pendingRemoval[it..], Ends(running))
        invariant Filter(was, idle) == asked + Filter(pendingRemoval[it..], idle)
        decreases |pendingRemoval| - it
      {
        var r := pendingRemoval[it];
        ghost var whole, rest := pendingRemoval, pendingRemoval[it..];
        FilterNext(pendingRemoval[..it], rest, Stays(running));
        FilterNext(relays, rest, Restarts(running));
        FilterNext(dropped, rest, Ends(running));
        FilterNext(asked, rest, idle);
        assert rest[1..] == pendingRemoval[it + 1..];
        if r.id !in running {
          if r.cfg.autoRestart {
            relays := relays + [r];
          } else {
            dropped := dropped + [r];
          }
          pendingRemoval := pendingRemoval[..it] + pendingRemoval[it + 1..];
          assert pendingRemoval[..it] == whole[..it] && pendingRemoval[it..] == whole[it + 1..];
        } else {
          if r.id in monitored && r.id !in recent {
            asked := asked + [r];
          }
          assert pendingRemoval[..it + 1] == pendingRemoval[..it] + [r];
          it := it + 1;
        }
      }
      FilterNone(pendingRemoval[it..], Stays(running));
      FilterNone(pendingRemoval[it..], Restarts(running));
      FilterNone(pendingRemoval[it..], Ends(running));
      FilterNone(pendingRemoval[it..], idle);
      forall r
        ensures r in asked <==> r in was && idle(r)
      {
        FilterIn(was, idle, r);
      }
      assert pendingRemoval[..it] == pendingRemoval;
    }

    /** The first locked section of an eviction; `readings` is what is read of each relay. */
    method TakeOut(readings: seq<Eviction.Candidate>, now: int) returns (k: Option<nat>)
      requires Valid() && victim.None? && |readings| == |relays|
      modifies this`relays, this`victim
      ensures k.None? <==> forall j :: 0 <= j < |readings| ==> !readings[j].running
      ensures k.None? ==> Value() == old(Value())
      ensures k.Some? ==> Eviction.Chosen(readings, now, k.value) && Value() == TakeVictim(old(Value()), k.value)
      ensures k.Some? ==> k.value < |old(relays)| && victim == Some(old(relays)[k.value])
    {
      k := Eviction.Choose(readings, now);
      if k.Some? {
        victim := Some(relays[k.value]);
        relays := relays[..k.value] + relays[k.value + 1..];
      }
    }

    /** The second locked section of an eviction. */
    method PutBack()
      requires Valid() && victim.Some?
      modifies this`relays, this`victim, this`dropped
      ensures Value() == Return(old(Value()))
    {
      var v := victim.value;
      victim := None;
      for i := 0 to |relays|
        invariant forall j :: 0 <= j < i ==> relays[j].Addr() != v.Addr()
      {
        if relays[i].Addr() == v.Addr() {
          dropped := dropped + [v];
          return;
        }
      }
      relays := relays + [v];
    }

    /** One of the two loops of the add section. */
    method AddAll(cfgs: seq<PortConfig>)
      requires Valid()
      modifies this`relays, this`created, this`count
      ensures Valid() && Value() == Add(old(Value()), cfgs)
    {
      for i := 0 to |cfgs|
        invariant Valid() && count == old(count) + i
        invariant relays == old(relays) + Build(cfgs[..i], old(count))
        invariant created == old(created) + Build(cfgs[..i], old(count))
      {
        var r := Relay(count, cfgs[i]);
        assert Build(cfgs[..i + 1], old(count)) == Build(cfgs[..i], old(count)) + [r];
        relays, created, count := relays + [r], created + [r], count + 1;
      }
      assert cfgs[..|cfgs|] == cfgs;
    }

    /** The start of reloadConfig: refused while another reload is in progress, otherwise its diff. */
    method BeginReload(next: seq<PortConfig>)
      returns (ok: bool, toAdd: seq<PortConfig>, toModify: seq<PortConfig>, toModifyOld: seq<string>,
               toRemove: seq<string>)
      requires Valid()
      modifies this`reloadInProgress, this`phase
      ensures Valid() && ok == !old(reloadInProgress)
      ensures !ok ==> Value() == old(Value())
      ensures ok ==> Value() == Apply(old(Value()), Begin(next))
      ensures ok ==> Lists(toAdd + toModify, next, phase.plan.added + phase.plan.modified)
      ensures ok ==> (set a | a in toModifyOld) == phase.plan.modified && (set a | a in toRemove) == phase.plan.removed
    {
      hide Lists, Diff;
      ok, toAdd, toModify, toModifyOld, toRemove := !reloadInProgress, [], [], [], [];
      reloadInProgress := true;
      if !ok {
        return;
      }
      toAdd, toModify, toModifyOld, toRemove := Compare(currentCfgs, next);
      phase := Planned(next, Diff(currentCfgs, next));
    }

    /** The first removing section, skipped when nothing is to be removed. */
    method RemoveOld(toRemove: seq<string>)
      requires Valid() && phase.Planned? && (set a | a in toRemove) == phase.plan.removed
      modifies this`relays, this`pendingRemoval, this`phase
      ensures Valid() && Value() == Apply(old(Value()), RemoveSection)
    {
      hide Filter;
      if toRemove != [] {
        RetireByAddr(toRemove);
      } else {
        assert phase.plan.removed == {};
        RetireNothing(Value());
      }
      phase := Removed(phase.next, phase.plan);
    }

    /** The second removing section, for the modified ports. */
    method ModifyOld(toModifyOld: seq<string>)
      requires Valid() && phase.Removed? && (set a | a in toModifyOld) == phase.plan.modified
      modifies this`relays, this`pendingRemoval, this`phase
      ensures Valid() && Value() == Apply(old(Value()), ModifySection)
    {
      hide Filter;
      if toModifyOld != [] {
        RetireByAddr(toModifyOld);
      } else {
        assert phase.plan.modified == {};
        RetireNothing(Value());
      }
      phase := Retired(phase.next, phase.plan);
    }

    /** The add section, and the end of the reload. */
    method AddNew(toAdd: seq<PortConfig>, toModify: seq<PortConfig>, next: seq<PortConfig>)
      requires Valid() && phase.Retired? && next == phase.next
      requires Lists(toAdd + toModify, next, phase.plan.added + phase.plan.modified)
      modifies this
      ensures Valid() && Value() == Apply(old(Value()), AddSection(toAdd + toModify))
    {
      hide Lists;
      ghost var first := Value();
      if toAdd != [] || toModify != [] {
        AddAll(toAdd);
        AddAll(toModify);
      } else {
        assert Build([] + [], |first.created|) == [];
      }
      AddTwice(first, toAdd, toModify);
      currentCfgs, reloadInProgress, phase := next, false, Quiet;
    }

    /** reloadConfig, undisturbed: the four steps of a reload in a row. */
    method Reload(next: seq<PortConfig>) returns (ok: bool, ghost adds: seq<PortConfig>)
      requires Valid()
      modifies this
      ensures Valid() && ok == !old(reloadInProgress)
      ensures !ok ==> Value() == old(Value())
      ensures ok ==> Lists(adds, next, Diff(old(currentCfgs), next).added + Diff(old(currentCfgs), next).modified)
      ensures ok ==> Value() == Reloaded(old(Value()), next, adds)
    {
      hide Filter, Lists, Diff;
      var toAdd, toModify, toModifyOld, toRemove;
      ok, toAdd, toModify, toModifyOld, toRemove := BeginReload(next);
      adds := toAdd + toModify;
      if ok {
        RemoveOld(toRemove);
        ModifyOld(toModifyOld);
        AddNew(toAdd, toModify, next);
      }
    }
  }

  /** A whole reload with nothing in between. */
  function Reloaded(s: State, next: seq<PortConfig>, adds: seq<PortConfig>): State {
    var plan := Diff(s.cfgs, next);
    Add(Retire(Retire(s, plan.removed), plan.modified), adds).(cfgs := next)
  }

  lemma AddTwice(s: State, a: seq<PortConfig>, b: seq<PortConfig>)
    ensures Add(Add(s, a), b) == Add(s, a + b)
  {
    var n := |s.created|;
    var first, both, second := Build(a, n), Build(a + b, n), Build(b, n + |a|);
    assert both == first + second by {
      assert forall i :: 0 <= i < |both| ==> both[i] == (first + second)[i];
    }
    assert s.active + first + second == s.active + both;
    assert s.created + first + second == s.created + both;
  }

  // ---- The diff loops ----

  lemma ListsGrow(cfgs: seq<PortConfig>, next: seq<PortConfig>, keys: set<string>, a: string)
    requires Lists(cfgs, next, keys) && a !in keys && a in ByAddr(next)
    ensures Lists(cfgs + [ByAddr(next)[a]], next, keys + {a})
  {
    hide ByAddr;
    ByAddrKeys(next);
    var c := ByAddr(next)[a];
    var t := cfgs + [c];
    forall b | b in keys + {a}
      ensures exists i :: 0 <= i < |t| && t[i].listenAddr == b
    {
      if b == a {
        assert t[|cfgs|].listenAddr == a;
      } else {
        var i :| 0 <= i < |cfgs| && cfgs[i].listenAddr == b;
        assert t[i].listenAddr == b;
      }
    }
  }

  lemma ListsJoin(xs: seq<PortConfig>, ys: seq<PortConfig>, next: seq<PortConfig>, a: set<string>, b: set<string>)
    requires Lists(xs, next, a) && Lists(ys, next, b) && a !! b
    ensures Lists(xs + ys, next, a + b)
  {
    hide ByAddr;
    var t := xs + ys;
    assert forall i :: 0 <= i < |ys| ==> t[|xs| + i] == ys[i];
    forall k | k in a + b
      ensures exists i :: 0 <= i < |t| && t[i].listenAddr == k
    {
      if k in a {
        var i :| 0 <= i < |xs| && xs[i].listenAddr == k;
        assert t[i] == xs[i];
      }
    }
  }

  /** The first loop of the diff, over the new addresses in any order. */
  method CompareNew(cur: seq<PortConfig>, next: seq<PortConfig>)
    returns (toAdd: seq<PortConfig>, toModify: seq<PortConfig>, toModifyOld: seq<string>)
    ensures Lists(toAdd, next, Diff(cur, next).added) && Lists(toModify, next, Diff(cur, next).modified)
    ensures (set a | a in toModifyOld) == Diff(cur, next).modified
  {
    hide ByAddr, ConfigsEqual;
    var oldMap := IndexByAddr(cur);
    var newMap := IndexByAddr(next);
    toAdd, toModify, toModifyOld := [], [], [];
    ghost var plan, done := Diff(cur, next), {};
    var todo := newMap.Keys;
    assert Lists([], next, {});
    assert done * plan.added == {} && done * plan.modified == {};
    while todo != {}
      invariant todo !! done && todo + done == newMap.Keys
      invariant Lists(toAdd, next, done * plan.added) && Lists(toModify, next, done * plan.modified)
      invariant (set a | a in toModifyOld) == done * plan.modified
      decreases todo
    {
      var addr :| addr in todo;
      var cfg := newMap[addr];
      if addr !in oldMap {
        ListsGrow(toAdd, next, done * plan.added, addr);
        toAdd := toAdd + [cfg];
      } else if !ConfigsEqual(cfg, oldMap[addr]) {
        ListsGrow(toModify, next, done * plan.modified, addr);
        toModify, toModifyOld := toModify + [cfg], toModifyOld + [addr];
      }
      GrowDone(done, plan.added, addr);
      GrowDone(done, plan.modified, addr);
      todo, done := todo - {addr}, done + {addr};
    }
    assert done * plan.added == plan.added && done * plan.modified == plan.modified;
  }

  lemma GrowDone(done: set<string>, keys: set<string>, a: string)
    ensures (done + {a}) * keys == if a in keys then done * keys + {a} else done * keys
  {
  }

  /** The configuration is that of its address in the list. */
  predicate Latest(cfgs: seq<PortConfig>, c: PortConfig) {
    c.listenAddr in ByAddr(cfgs) && ByAddr(cfgs)[c.listenAddr] == c
  }

  /** Both lists have the address, and its configurations differ in what a reload looks at. */
  predicate Changed(cur: seq<PortConfig>, next: seq<PortConfig>, a: string) {
    a in ByAddr(cur) && a in ByAddr(next) && Blanked(ByAddr(cur)[a]) != Blanked(ByAddr(next)[a])
  }

  lemma DiffMeans(cur: seq<PortConfig>, next: seq<PortConfig>, a: string)
    ensures a in Diff(cur, next).modified <==> Changed(cur, next, a)
    ensures a in Diff(cur, next).added <==> a in ByAddr(next) && a !in ByAddr(cur)
    ensures a in Diff(cur, next).removed <==> a in ByAddr(cur) && a !in ByAddr(next)
  {
    hide ByAddr, ConfigsEqual, Blanked;
    if a in ByAddr(cur) && a in ByAddr(next) {
      EqualMeans(ByAddr(next)[a], ByAddr(cur)[a]);
    }
  }

  lemma ListsHold(cfgs: seq<PortConfig>, next: seq<PortConfig>, keys: set<string>, c: PortConfig)
    requires Lists(cfgs, next, keys)
    ensures c in cfgs <==> Latest(next, c) && c.listenAddr in keys
  {
    hide ByAddr;
  }

  lemma AddedMeans(cur: seq<PortConfig>, next: seq<PortConfig>, cfgs: seq<PortConfig>)
    requires Lists(cfgs, next, Diff(cur, next).added)
    ensures forall c :: c in cfgs <==> Latest(next, c) && c.listenAddr !in ByAddr(cur)
  {
    hide ByAddr, Diff, Lists, Latest;
    forall c
      ensures c in cfgs <==> Latest(next, c) && c.listenAddr !in ByAddr(cur)
    {
      DiffMeans(cur, next, c.listenAddr);
      ListsHold(cfgs, next, Diff(cur, next).added, c);
      assert Latest(next, c) ==> c.listenAddr in ByAddr(next) by {
        LatestIs(next, c);
      }
    }
  }

  lemma LatestIs(next: seq<PortConfig>, c: PortConfig)
    ensures Latest(next, c) ==> c.listenAddr in ByAddr(next)
  {
    hide ByAddr;
  }

  lemma ModifiedMeans(cur: seq<PortConfig>, next: seq<PortConfig>, cfgs: seq<PortConfig>)
    requires Lists(cfgs, next, Diff(cur, next).modified)
    ensures forall c :: c in cfgs <==> Latest(next, c) && Changed(cur, next, c.listenAddr)
  {
    hide ByAddr, Diff, Lists, Latest, Changed;
    forall c
      ensures c in cfgs <==> Latest(next, c) && Changed(cur, next, c.listenAddr)
    {
      DiffMeans(cur, next, c.listenAddr);
      ListsHold(cfgs, next, Diff(cur, next).modified, c);
    }
  }

  /** The diff of reloadConfig. */
  method Compare(cur: seq<PortConfig>, next: seq<PortConfig>)
    returns (toAdd: seq<PortConfig>, toModify: seq<PortConfig>, toModifyOld: seq<string>, toRemove: seq<string>)
    ensures Lists(toAdd + toModify, next, Diff(cur, next).added + Diff(cur, next).modified)
    ensures (set a | a in toModifyOld) == Diff(cur, next).modified
    ensures (set a | a in toRemove) == Diff(cur, next).removed
    ensures forall c :: c in toAdd <==> Latest(next, c) && c.listenAddr !in ByAddr(cur)
    ensures forall c :: c in toModify <==> Latest(next, c) && Changed(cur, next, c.listenAddr)
    ensures forall a :: a in toModifyOld <==> Changed(cur, next, a)
    ensures forall a :: a in toRemove <==> a in ByAddr(cur) && a !in ByAddr(next)
  {
    hide ByAddr, Lists, ConfigsEqual;
    toAdd, toModify, toModifyOld := CompareNew(cur, next);
    ListsJoin(toAdd, toModify, next, Diff(cur, next).added, Diff(cur, next).modified);
    AddedMeans(cur, next, toAdd);
    ModifiedMeans(cur, next, toModify);
    forall a
      ensures a in toModifyOld <==> Changed(cur, next, a)
    {
      DiffMeans(cur, next, a);
      assert a in toModifyOld <==> a in (set x | x in toModifyOld);
    }
    var oldMap := IndexByAddr(cur);
    var newMap := IndexByAddr(next);
    toRemove := [];
    ghost var removed, done := Diff(cur, next).removed, {};
    var todo := oldMap.Keys;
    while todo != {}
      invariant todo !! done && todo + done == oldMap.Keys
      invariant (set a | a in toRemove) == done * removed
      decreases todo
    {
      var addr :| addr in todo;
      if addr !in newMap {
        toRemove := toRemove + [addr];
      }
      GrowDone(done, removed, addr);
      todo, done := todo - {addr}, done + {addr};
    }
    assert done * removed == removed;
    forall a
      ensures a in toRemove <==> a in ByAddr(cur) && a !in ByAddr(next)
    {
      DiffMeans(cur, next, a);
      assert a in toRemove <==> a in (set x | x in toRemove);
    }
  }

  /** An undisturbed reload of a registry in step leaves it in step with the new configuration. */
  lemma ReloadInStep(s: State, next: seq<PortConfig>, adds: seq<PortConfig>)
    requires InStep(s) && s.phase.Quiet? && s.victim.None?
    requires Lists(adds, next, Diff(s.cfgs, next).added + Diff(s.cfgs, next).modified)
    ensures InStep(Reloaded(s, next, adds)) && Reloaded(s, next, adds).cfgs == next
  {
    hide Filter, Diff, ByAddr, Lists, InStep, Good, ConfigsEqual;
    RestIsGood(s);
    var s1 := Apply(s, Begin(next));
    StepGood(s, Begin(next));
    var s2 := Apply(s1, RemoveSection);
    StepGood(s1, RemoveSection);
    var s3 := Apply(s2, ModifySection);
    StepGood(s2, ModifySection);
    StepGood(s3, AddSection(adds));
    GoodAtRest(Apply(s3, AddSection(adds)));
  }
}
