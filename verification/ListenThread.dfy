/**
 What the listen thread of src/relay.cpp does with its port and its backend: when it
 launches and when it ends, what a connection leads to, that a thread that lost its port
 finds its way back to it, and that a released port stays released.
 */
module ListenThread {
  import opened Lifecycle

  // ---- What a step leaves alone ----

  lemma CloseLeaves(s: State, fd: nat)
    ensures var t := Close(s, fd); t == s.(table := t.table, socks := t.socks, badCloses := t.badCloses)
  {
  }

  lemma OpenLeaves(s: State, fd: nat, kind: Kind)
    ensures var t := Open(s, fd, kind); t == s.(table := t.table, socks := t.socks)
  {
  }

  /** The descriptor a thread is about to close, if any. */
  function ToClose(pc: Pc): nat {
    if pc.Discard? || pc.LaunchClose? || pc.SwapClose? then pc.fd else 0
  }

  /** A thread's step changes nothing of other relays, and no flag. */
  lemma ThreadLeaves(s: State, r: nat, answer: int)
    requires Enabled(s, Thread(r, answer))
    ensures var t := ThreadStep(s, r, answer);
      && Shaped(t) && |t.pcs| == |s.pcs| && t.stops == s.stops && t.released == s.released && t.rearms == s.rearms
      && t.agents == s.agents
      && (forall q :: 0 <= q < |s.pcs| && q != r ==>
            t.pcs[q] == s.pcs[q] && t.cells[q] == s.cells[q] && t.pids[q] == s.pids[q])
  {
    hide Open, Close;
    CloseLeaves(s, ToClose(s.pcs[r]));
    OpenLeaves(s, if answer >= 0 then answer else 0, Listener(r));
  }

  /** A step that is not thread r's own leaves it where it stands, or starts it anew. */
  lemma OthersLeave(s: State, step: Step, r: nat)
    requires Enabled(s, step) && r < |s.pcs| && !(step.Thread? && step.r == r)
    ensures var t := Apply(s, step);
      && Shaped(t) && |t.pcs| == |s.pcs|
      && (t.pcs[r] == s.pcs[r] || (step.Reset? && step.r == r && t.pcs[r] == Top))
      && (t.cells[r] == s.cells[r] || t.cells[r] == -1)
      && (t.pids[r] == s.pids[r] || step == SetPid(r, t.pids[r]))
      && (s.released[r] ==> t.released[r] || step == ClearGroup(r) || step == Reset(r))
  {
    hide ThreadStep, Open, Close;
    match step {
      case Thread(q, answer) =>
        ThreadLeaves(s, q, answer);
      case AgentClose(a) =>
        CloseLeaves(s.(agents := s.agents[a := Free]), s.agents[a].fd);
      case OpenForeign(fd) =>
        OpenLeaves(s, fd, Foreign);
      case CloseForeign(fd) =>
        CloseLeaves(s, fd);
      case _ =>
    }
  }

  // ---- When it launches, and when it ends ----

  /** The thread is to launch: at once on start, or for a connection to serve while there is no backend. */
  predicate ToLaunch(s: State, step: Step, r: nat)
    requires r < |s.pcs| && Shaped(s)
  {
    && step.Thread? && step.r == r
    && (|| (s.pcs[r] == Choose && step.answer != 0)
        || (s.pcs[r] == Serve && step.answer != 0 && step.answer != 1 && s.pids[r] == 0))
  }

  lemma OwnLaunch(s: State, r: nat, answer: int)
    requires Enabled(s, Thread(r, answer)) && s.pcs[r] != Launch
    ensures ThreadStep(s, r, answer).pcs[r] == Launch <==> ToLaunch(s, Thread(r, answer), r)
  {
    hide Open, Close;
    CloseLeaves(s, ToClose(s.pcs[r]));
    OpenLeaves(s, if answer >= 0 then answer else 0, Listener(r));
  }

  /** In every run, a thread goes to launch a backend exactly at such a step. */
  lemma LaunchesExactly(states: seq<State>, steps: seq<Step>, k: nat, r: nat)
    requires Run(states, steps) && k < |steps| && r < |states[k].pcs| && states[k].pcs[r] != Launch
    ensures Shaped(states[k]) && r < |states[k + 1].pcs|
    ensures states[k + 1].pcs[r] == Launch <==> ToLaunch(states[k], steps[k], r)
  {
    hide ThreadStep, ToLaunch, Apply;
    var s, step := states[k], steps[k];
    assert Enabled(s, step) && states[k + 1] == Apply(s, step);
    if step.Thread? && step.r == r {
      OwnLaunch(s, r, step.answer);
      ThreadLeaves(s, r, step.answer);
      ApplyThread(s, r, step.answer);
    } else {
      OthersLeave(s, step, r);
      NotOthersLaunch(s, step, r);
    }
  }

  lemma ApplyThread(s: State, r: nat, answer: int)
    requires Enabled(s, Thread(r, answer))
    ensures Apply(s, Thread(r, answer)) == ThreadStep(s, r, answer)
  {
    hide ThreadStep;
  }

  lemma NotOthersLaunch(s: State, step: Step, r: nat)
    requires r < |s.pcs| && Shaped(s) && !(step.Thread? && step.r == r)
    ensures !ToLaunch(s, step, r)
  {
  }

  lemma OwnEnd(s: State, r: nat, answer: int)
    requires Enabled(s, Thread(r, answer)) && ThreadStep(s, r, answer).pcs[r] == Exited
    ensures s.stops[r] || (s.pcs[r] == GroupTest && s.released[r]) || (s.pcs[r] == Again && answer != 0)
  {
    hide Open, Close;
    CloseLeaves(s, ToClose(s.pcs[r]));
    OpenLeaves(s, if answer >= 0 then answer else 0, Listener(r));
  }

  /** In every run, a thread ends only with stop set, released, or without restart behind its backend. */
  lemma EndsOnly(states: seq<State>, steps: seq<Step>, k: nat, r: nat)
    requires Run(states, steps) && k < |steps| && r < |states[k].pcs| && states[k].pcs[r] != Exited
    requires r < |states[k + 1].pcs| && states[k + 1].pcs[r] == Exited
    ensures Shaped(states[k]) && steps[k].Thread? && steps[k].r == r
    ensures states[k].stops[r] || (states[k].pcs[r] == GroupTest && states[k].released[r])
         || (states[k].pcs[r] == Again && steps[k].answer != 0)
  {
    hide ThreadStep, Apply;
    var s, step := states[k], steps[k];
    assert Enabled(s, step) && states[k + 1] == Apply(s, step);
    if step.Thread? && step.r == r {
      ApplyThread(s, r, step.answer);
      OwnEnd(s, r, step.answer);
    } else {
      OthersLeave(s, step, r);
    }
  }

  // ---- What a connection leads to ----

  /** A run of thread r alone. */
  ghost predicate OwnRun(states: seq<State>, steps: seq<Step>, r: nat) {
    Run(states, steps) && forall i :: 0 <= i < |steps| ==> steps[i].Thread? && steps[i].r == r
  }

  lemma Prepend(s: State, r: nat, answer: int, states: seq<State>, steps: seq<Step>)
    requires Enabled(s, Thread(r, answer)) && OwnRun(states, steps, r) && states[0] == ThreadStep(s, r, answer)
    ensures OwnRun([s] + states, [Thread(r, answer)] + steps, r)
    ensures ([s] + states)[|steps| + 1] == states[|steps|]
  {
    hide ThreadStep, Enabled;
    ApplyThread(s, r, answer);
    var all, whole := [s] + states, [Thread(r, answer)] + steps;
    forall i | 0 <= i < |whole|
      ensures Enabled(all[i], whole[i]) && all[i + 1] == Apply(all[i], whole[i])
    {
      if i > 0 {
        assert all[i] == states[i - 1] && whole[i] == steps[i - 1] && all[i + 1] == states[i];
      }
    }
  }

  lemma NoRun(s: State, r: nat)
    ensures OwnRun([s], [], r)
  {
  }

  /** The backend runs, the thread is through with its launch, and its port is released. */
  predicate HandedOver(s: State, t: State, r: nat, pid: int) {
    && r < |t.pcs| && r < |t.pids| && r < |t.cells| && r < |s.cells|
    && t.pcs[r] == Swap && t.pids[r] == pid && t.cells[r] == -1
    && (s.cells[r] >= 0 ==> s.cells[r] !in t.table)
  }

  lemma SwapTakes(s: State, r: nat)
    requires Inv(s) && r < |s.pcs| && s.pcs[r] == LaunchSwap
    ensures Enabled(s, Thread(r, 0))
    ensures ThreadStep(s, r, 0)
         == s.(cells := s.cells[r := -1],
               pcs := s.pcs[r := if s.cells[r] >= 0 then LaunchClose(s.cells[r]) else Swap])
  {
    hide Files, Holders, Listening;
  }

  lemma CloseTakes(s: State, r: nat)
    requires Inv(s) && r < |s.pcs| && s.pcs[r].LaunchClose?
    ensures Enabled(s, Thread(r, 0))
    ensures var t := ThreadStep(s, r, 0);
            t.pcs == s.pcs[r := Swap] && t.cells == s.cells && t.pids == s.pids && s.pcs[r].fd !in t.table
  {
    hide Files, Holders, Listening;
    assert Fd(s, InThread(r)) == s.pcs[r].fd;
    CloseIsExact(s, Thread(r, 0), InThread(r));
  }

  lemma SwapHandsOver(s: State, r: nat) returns (states: seq<State>, steps: seq<Step>)
    requires Inv(s) && r < |s.pcs| && s.pcs[r] == LaunchSwap
    ensures OwnRun(states, steps, r) && states[0] == s && HandedOver(s, states[|steps|], r, s.pids[r])
  {
    hide Inv, Enabled, ThreadStep, OwnRun;
    SwapTakes(s, r);
    StepInv(s, Thread(r, 0));
    ApplyThread(s, r, 0);
    InvShape(s);
    var t := ThreadStep(s, r, 0);
    if s.cells[r] >= 0 {
      CloseTakes(t, r);
      var u := ThreadStep(t, r, 0);
      NoRun(u, r);
      Prepend(t, r, 0, [u], []);
      assert [t] + [u] == [t, u] && [Thread(r, 0)] + [] == [Thread(r, 0)];
      Prepend(s, r, 0, [t, u], [Thread(r, 0)]);
      states, steps := [s] + [t, u], [Thread(r, 0)] + [Thread(r, 0)];
    } else {
      NoRun(t, r);
      Prepend(s, r, 0, [t], []);
      states, steps := [s] + [t], [Thread(r, 0)] + [];
    }
  }

  lemma InvShape(s: State)
    requires Inv(s)
    ensures Shaped(s)
  {
    hide Files, Holders, Listening;
  }

  lemma LaunchTakes(s: State, r: nat, connection: int, pid: int)
    requires Inv(s) && r < |s.pcs| && s.pcs[r] == Serve && s.pids[r] == 0
    requires connection != 0 && connection != 1 && pid > 0
    ensures Enabled(s, Thread(r, connection))
    ensures var t := ThreadStep(s, r, connection);
      && Enabled(t, Thread(r, pid))
      && var u := ThreadStep(t, r, pid);
         && Enabled(u, Thread(r, 0))
         && ThreadStep(u, r, 0) == s.(pcs := s.pcs[r := LaunchSwap], pids := s.pids[r := pid])
  {
    hide Files, Holders, Listening, Open, Close, SwapOwn;
    var t := ThreadStep(s, r, connection);
    var u := ThreadStep(t, r, pid);
    assert t == s.(pcs := s.pcs[r := Launch]) && u == s.(pcs := s.pcs[r := StorePid(pid)]);
  }

  /**
   A connection to serve, while there is no backend and no stop, is followed by a launch; when that succeeds the
   thread goes on, by itself, to the point where the backend is known, the port is released and its socket closed.
   */
  lemma ConnectionLaunches(s: State, r: nat, connection: int, pid: int)
    returns (states: seq<State>, steps: seq<Step>)
    requires Inv(s) && r < |s.pcs| && s.pcs[r] == Serve && s.pids[r] == 0 && !s.stops[r]
    requires connection != 0 && connection != 1 && pid > 0
    ensures OwnRun(states, steps, r) && states[0] == s && |steps| > 1
    ensures steps[0] == Thread(r, connection) && steps[1] == Thread(r, pid)
    ensures HandedOver(s, states[|steps|], r, pid)
  {
    hide Inv, Enabled, ThreadStep, HandedOver, OwnRun;
    LaunchTakes(s, r, connection, pid);
    var t := ThreadStep(s, r, connection);
    var u := ThreadStep(t, r, pid);
    var v := ThreadStep(u, r, 0);
    StepInv(s, Thread(r, connection));
    ApplyThread(s, r, connection);
    StepInv(t, Thread(r, pid));
    ApplyThread(t, r, pid);
    StepInv(u, Thread(r, 0));
    ApplyThread(u, r, 0);
    InvShape(s);
    var more, rest := SwapHandsOver(v, r);
    RunLength(more, rest, r);
    Prepend(u, r, 0, more, rest);
    Prepend(t, r, pid, [u] + more, [Thread(r, 0)] + rest);
    Prepend(s, r, connection, [t] + ([u] + more), [Thread(r, pid)] + ([Thread(r, 0)] + rest));
    states := [s] + ([t] + ([u] + more));
    steps := [Thread(r, connection)] + ([Thread(r, pid)] + ([Thread(r, 0)] + rest));
    SameHandedOver(s, v, states[|steps|], r, pid);
  }

  lemma SameHandedOver(s: State, v: State, t: State, r: nat, pid: int)
    requires s.cells == v.cells && HandedOver(v, t, r, pid)
    ensures HandedOver(s, t, r, pid)
  {
  }

  /** A connection that the group serves ends the listening, without a launch. */
  lemma GroupTakesOver(s: State, r: nat)
    requires Shaped(s) && r < |s.pcs| && s.pcs[r] == Serve
    ensures var t := ThreadStep(s, r, 1);
      && t.pcs[r] == Swap && t.cells == s.cells && t.pids == s.pids
      && ThreadStep(t, r, 0).cells[r] == -1
      && ThreadStep(t, r, 0).pcs[r] == if s.cells[r] >= 0 then SwapClose(s.cells[r]) else Again
  {
  }

  // ---- It always finds its way back to its port ----

  /** Own steps left until the thread waits for connections on its own socket, when the system is friendly. */
  function Ahead(pc: Pc, listening: bool): nat {
    match pc
    case Accept => if listening then 0 else 17
    case AcceptTest => if listening then 1 else 18
    case Choose => if listening then 2 else 19
    case Check => if listening then 3 else 12
    case Store(value) => if value >= 0 then 4 else 13
    case Bind(_) => 5
    case Socket => 6
    case OutsideTest => 7
    case PidTest => 8
    case GroupTest => 9
    case Top => 10
    case FailStop => 11
    case BackoffEnd => 11
    case OutsideWait => 11
    case PortWait => 11
    case Backoff => 12
    case Delay => 12
    case Again => 13
    case Discard(_) => 14
    case SwapClose(_) => 14
    case Swap => 15
    case AcceptFailed => 16
    case Serve => 16
    case Launch => 16
    case LaunchClose(_) => 16
    case LaunchSwap => 17
    case _ => 20
  }

  /** What a friendly system answers: bind succeeds, waits are over, the backend is to restart. */
  function Friendly(pc: Pc): int {
    match pc
    case FailStop => 1
    case Backoff => 1
    case Delay => 1
    case AcceptFailed => 1
    case Serve => 1
    case PortWait => 2
    case Accept => -1
    case Launch => -1
    case _ => 0
  }

  /** A thread that nothing keeps from its port: neither stop nor release, nor a backend, known or just launched. */
  predicate Willing(s: State, r: nat) {
    && Shaped(s) && r < |s.pcs| && !s.pcs[r].Exited? && !s.pcs[r].StorePid?
    && !s.stops[r] && !s.released[r] && s.pids[r] <= 0
  }

  /** Waiting, or on the way to the top of the loop. */
  predicate Roundabout(pc: Pc) {
    && Plain(pc) && !pc.Top? && !pc.GroupTest? && !pc.PidTest? && !pc.OutsideTest? && !pc.Bind? && !pc.Check?
    && !pc.Choose? && !pc.AcceptTest? && !pc.Accept?
  }

  lemma WillingRound(s: State, r: nat, answer: int)
    requires Willing(s, r) && Enabled(s, Thread(r, answer)) && Ahead(s.pcs[r], s.cells[r] >= 0) > 0
    requires if s.pcs[r] == Socket then answer >= 0 else answer == Friendly(s.pcs[r])
    requires Roundabout(s.pcs[r])
    ensures var t := ThreadStep(s, r, answer);
            Willing(t, r) && Ahead(t.pcs[r], t.cells[r] >= 0) < Ahead(s.pcs[r], s.cells[r] >= 0)
  {
    hide Open, Close, SwapOwn;
  }

  lemma WillingStraight(s: State, r: nat, answer: int)
    requires Willing(s, r) && Enabled(s, Thread(r, answer)) && Ahead(s.pcs[r], s.cells[r] >= 0) > 0
    requires if s.pcs[r] == Socket then answer >= 0 else answer == Friendly(s.pcs[r])
    requires Plain(s.pcs[r]) && !Roundabout(s.pcs[r])
    ensures var t := ThreadStep(s, r, answer);
            Willing(t, r) && Ahead(t.pcs[r], t.cells[r] >= 0) < Ahead(s.pcs[r], s.cells[r] >= 0)
  {
    hide Open, Close, SwapOwn;
  }

  lemma WillingSwap(s: State, r: nat, answer: int)
    requires Willing(s, r) && Enabled(s, Thread(r, answer)) && Ahead(s.pcs[r], s.cells[r] >= 0) > 0
    requires if s.pcs[r] == Socket then answer >= 0 else answer == Friendly(s.pcs[r])
    requires s.pcs[r].Swap? || s.pcs[r].LaunchSwap?
    ensures var t := ThreadStep(s, r, answer);
            Willing(t, r) && Ahead(t.pcs[r], t.cells[r] >= 0) < Ahead(s.pcs[r], s.cells[r] >= 0)
  {
    hide Open, Close;
  }

  lemma WillingClose(s: State, r: nat, answer: int)
    requires Willing(s, r) && Enabled(s, Thread(r, answer)) && Ahead(s.pcs[r], s.cells[r] >= 0) > 0
    requires if s.pcs[r] == Socket then answer >= 0 else answer == Friendly(s.pcs[r])
    requires s.pcs[r].Discard? || s.pcs[r].LaunchClose? || s.pcs[r].SwapClose?
    ensures var t := ThreadStep(s, r, answer);
            Willing(t, r) && Ahead(t.pcs[r], t.cells[r] >= 0) < Ahead(s.pcs[r], s.cells[r] >= 0)
  {
    hide Open, Close, SwapOwn;
    CloseLeaves(s, s.pcs[r].fd);
  }

  lemma WillingSocket(s: State, r: nat, answer: int)
    requires Willing(s, r) && Enabled(s, Thread(r, answer)) && Ahead(s.pcs[r], s.cells[r] >= 0) > 0
    requires if s.pcs[r] == Socket then answer >= 0 else answer == Friendly(s.pcs[r])
    requires s.pcs[r].Socket? || s.pcs[r].Store?
    ensures var t := ThreadStep(s, r, answer);
            Willing(t, r) && Ahead(t.pcs[r], t.cells[r] >= 0) < Ahead(s.pcs[r], s.cells[r] >= 0)
  {
    hide Open, Close, SwapOwn;
    OpenLeaves(s, if answer >= 0 then answer else 0, Listener(r));
  }

  lemma AllKinds(pc: Pc)
    ensures Plain(pc) || pc.Socket? || pc.Store? || pc.StorePid? || pc.LaunchSwap? || pc.Swap? || pc.Exited?
         || pc.Discard? || pc.LaunchClose? || pc.SwapClose?
  {
  }

  lemma WillingStep(s: State, r: nat, answer: int)
    requires Willing(s, r) && Enabled(s, Thread(r, answer)) && Ahead(s.pcs[r], s.cells[r] >= 0) > 0
    requires if s.pcs[r] == Socket then answer >= 0 else answer == Friendly(s.pcs[r])
    ensures var t := ThreadStep(s, r, answer);
            Willing(t, r) && Ahead(t.pcs[r], t.cells[r] >= 0) < Ahead(s.pcs[r], s.cells[r] >= 0)
  {
    hide ThreadStep, Ahead, Enabled, Roundabout, Plain;
    if s.pcs[r].Swap? || s.pcs[r].LaunchSwap? {
      WillingSwap(s, r, answer);
    } else if s.pcs[r].Socket? || s.pcs[r].Store? {
      WillingSocket(s, r, answer);
    } else if !Plain(s.pcs[r]) {
      AllKinds(s.pcs[r]);
      WillingClose(s, r, answer);
    } else if Roundabout(s.pcs[r]) {
      WillingRound(s, r, answer);
    } else {
      WillingStraight(s, r, answer);
    }
  }

  /** A number not in use. */
  lemma {:induction false} Unused(used: set<nat>) returns (fd: nat)
    ensures fd !in used && forall x :: x in used ==> x < fd
    decreases |used|
  {
    if used == {} {
      fd := 0;
    } else {
      var x :| x in used;
      fd := Unused(used - {x});
      assert used == used - {x} + {x};
      fd := if fd <= x then x + 1 else fd;
    }
  }

  /** It waits for connections on an open socket of its own. */
  predicate Waits(s: State, r: nat) {
    && r < |s.pcs| && r < |s.cells| && s.pcs[r] == Accept && s.cells[r] >= 0
    && var fd: nat := s.cells[r];
       fd in s.table && s.table[fd] < |s.socks| && s.socks[s.table[fd]] == Sock(Listener(r), 0)
  }

  lemma AtAccept(s: State, r: nat)
    requires Inv(s) && r < |s.pcs| && !s.pcs[r].Exited? && Ahead(s.pcs[r], s.cells[r] >= 0) == 0
    ensures Waits(s, r)
  {
    hide Listening;
    assert Fd(s, InCell(r)) == s.cells[r];
  }

  lemma NeverStuck(s: State, r: nat, answer: int)
    requires Inv(s) && r < |s.pcs| && !s.pcs[r].Exited? && (s.pcs[r] == Socket && answer >= 0 ==> answer !in s.table)
    ensures Enabled(s, Thread(r, answer))
  {
    hide Files, Holders, Listening;
  }

  /**
   From wherever it stands, a thread that nothing keeps from its port can come, by its own steps, to wait for
   connections on an open socket of its own: no failure, and no loss of its port to a group or a caller, is final.
   */
  lemma {:induction false} ComesBack(s: State, r: nat) returns (states: seq<State>, steps: seq<Step>)
    requires Inv(s) && Willing(s, r)
    ensures OwnRun(states, steps, r) && states[0] == s && Waits(states[|steps|], r)
    decreases Ahead(s.pcs[r], s.cells[r] >= 0)
  {
    hide Inv, Enabled, ThreadStep, Ahead, Waits, OwnRun;
    if Ahead(s.pcs[r], s.cells[r] >= 0) == 0 {
      AtAccept(s, r);
      NoRun(s, r);
      states, steps := [s], [];
    } else {
      var answer := Friendly(s.pcs[r]);
      if s.pcs[r] == Socket {
        answer := Unused(s.table.Keys);
      }
      NeverStuck(s, r, answer);
      WillingStep(s, r, answer);
      StepInv(s, Thread(r, answer));
      ApplyThread(s, r, answer);
      var more, rest := ComesBack(ThreadStep(s, r, answer), r);
      Prepend(s, r, answer, more, rest);
      states, steps := [s] + more, [Thread(r, answer)] + rest;
      RunLength(more, rest, r);
    }
  }

  lemma RunLength(states: seq<State>, steps: seq<Step>, r: nat)
    requires OwnRun(states, steps, r)
    ensures |states| == |steps| + 1
  {
  }

  /** resetForIdle undisturbed: join, three stores, and the new thread. */
  function Rearmed(s: State, r: nat): State
    requires Inv(s) && r < |s.pcs| && s.pcs[r] == Exited && s.rearms[r] == Off
  {
    var t1 := Apply(s, Reset(r));
    var t2 := Apply(t1, Reset(r));
    var t3 := Apply(t2, Reset(r));
    var t4 := Apply(t3, Reset(r));
    Apply(t4, Reset(r))
  }

  /** A re-armed relay without a backend is willing again, whatever ended it, and loses nothing. */
  lemma RearmedIsWilling(s: State, r: nat)
    requires Inv(s) && r < |s.pcs| && s.pcs[r] == Exited && s.rearms[r] == Off && s.pids[r] <= 0
    ensures var t := Rearmed(s, r);
      && Inv(t) && Willing(t, r) && t.rearms[r] == Off && t.socks == s.socks && t.table == s.table && t.pids == s.pids
  {
    hide Files, Holders, Listening;
    var t1 := Apply(s, Reset(r));
    var t2 := Apply(t1, Reset(r));
    var t3 := Apply(t2, Reset(r));
    var t4 := Apply(t3, Reset(r));
    StepInv(s, Reset(r));
    StepInv(t1, Reset(r));
    StepInv(t2, Reset(r));
    StepInv(t3, Reset(r));
    StepInv(t4, Reset(r));
  }

  // ---- A released port stays released ----

  /** The thread has tested the release and not yet stored the descriptor it has or may still get. */
  predicate PastTest(pc: Pc) {
    pc.PidTest? || pc.OutsideTest? || pc.Socket? || pc.Bind? || (pc.Store? && pc.value >= 0)
  }

  /** The group has released the port, and the thread neither has it nor is past its test of the release. */
  predicate Away(s: State, r: nat) {
    Shaped(s) && r < |s.pcs| && s.released[r] && s.cells[r] < 0 && !PastTest(s.pcs[r])
  }

  lemma OwnStepAway(s: State, r: nat, answer: int)
    requires Enabled(s, Thread(r, answer)) && Away(s, r)
    ensures Away(ThreadStep(s, r, answer), r)
  {
    hide Open, Close;
    CloseLeaves(s, ToClose(s.pcs[r]));
  }

  lemma StepAway(s: State, step: Step, r: nat)
    requires Enabled(s, step) && Away(s, r) && step != ClearGroup(r) && step != Reset(r)
    ensures Away(Apply(s, step), r)
  {
    hide ThreadStep, Apply;
    if step.Thread? && step.r == r {
      OwnStepAway(s, r, step.answer);
      ApplyThread(s, r, step.answer);
    } else {
      OthersLeave(s, step, r);
    }
  }

  /** Whatever runs, the relay does not take its port again until the release is cleared or the relay re-armed. */
  lemma {:induction false} ReleasedStaysAway(states: seq<State>, steps: seq<Step>, r: nat, k: nat)
    requires Run(states, steps) && Away(states[0], r) && k < |states|
    requires forall i :: 0 <= i < k ==> steps[i] != ClearGroup(r) && steps[i] != Reset(r)
    ensures Away(states[k], r)
    decreases k
  {
    hide Apply, Enabled, Away;
    if k > 0 {
      ReleasedStaysAway(states, steps, r, k - 1);
      StepAway(states[k - 1], steps[k - 1], r);
    }
  }
}
