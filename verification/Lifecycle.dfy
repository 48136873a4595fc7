/**
 The listening socket of simple-mode relays (src/relay.cpp, src/port_group.cpp).

 Every atomic operation and every system call of the listen threads is a step, and so
 is every exchange and every close made from outside: stop, signalStop, a group's
 onConnection, forceReleasePort.  All relays share one descriptor table, in which the
 system may hand out again any number that is not open.
 */
module Lifecycle {

  /** Where a listen thread stands in listenLoop; a descriptor in brackets is a local variable. */
  datatype Pc =
    | Top | GroupTest | PidTest | OutsideTest | OutsideWait
    | Socket | Bind(fd: nat) | Discard(fd: nat) | Store(value: int) | Check
    | FailStop | Backoff | BackoffEnd
    | Choose | AcceptTest | Accept | AcceptFailed | Serve
    | Launch | StorePid(pid: int) | LaunchSwap | LaunchClose(fd: nat)
    | Swap | SwapClose(fd: nat) | Again | Delay | PortWait
    | Exited

  /** Where resetForIdle stands; at most one caller re-arms a relay at a time. */
  datatype Rearm = Off | Joined | StopCleared | GroupCleared | CellCleared

  /** An outside caller between its exchange and its close. */
  datatype Agent = Free | Closing(fd: nat)

  datatype Kind = Listener(relay: nat) | Foreign

  /** A socket: whose it is, and how often it has been closed. */
  datatype Sock = Sock(kind: Kind, closes: nat)

  datatype State = State(
    pcs: seq<Pc>,
    rearms: seq<Rearm>,
    cells: seq<int>,
    pids: seq<int>,
    stops: seq<bool>,
    released: seq<bool>,
    agents: seq<Agent>,
    socks: seq<Sock>,
    table: map<nat, nat>,
    badCloses: nat)

  /**
   `answer` is what the system, the clock or a field outside this model says at that point.
   SetPid is any store to the backend pid from outside the listen thread: a group's launch,
   the monitor that tracks a backend, or sees it exit.
   */
  datatype Step =
    | Thread(r: nat, answer: int)
    | RequestStop(r: nat)
    | ReleaseGroup(r: nat)
    | ClearGroup(r: nat)
    | SetPid(r: nat, pid: int)
    | AgentSwap(a: nat, r: nat)
    | AgentClose(a: nat)
    | Reset(r: nat)
    | OpenForeign(fd: nat)
    | CloseForeign(fd: nat)

  // ---- Steps ----

  function Go(s: State, r: nat, pc: Pc): State
    requires r < |s.pcs|
  {
    s.(pcs := s.pcs[r := pc])
  }

  /** close(2): of an open descriptor, or a failure that is counted. */
  function Close(s: State, fd: nat): State {
    if fd in s.table && s.table[fd] < |s.socks| then
      var k := s.table[fd];
      s.(table := s.table - {fd}, socks := s.socks[k := s.socks[k].(closes := s.socks[k].closes + 1)])
    else
      s.(badCloses := s.badCloses + 1)
  }

  function Open(s: State, fd: nat, kind: Kind): State {
    s.(table := s.table[fd := |s.socks|], socks := s.socks + [Sock(kind, 0)])
  }

  /** exchange(-1) on listenFd_ by the thread itself, then on to the close or past it. */
  function SwapOwn(s: State, r: nat, pc: nat -> Pc, otherwise: Pc): State
    requires r < |s.pcs| == |s.cells|
  {
    var v := s.cells[r];
    Go(s.(cells := s.cells[r := -1]), r, if v >= 0 then pc(v) else otherwise)
  }

  predicate Shaped(s: State) {
    |s.pcs| == |s.rearms| == |s.cells| == |s.pids| == |s.stops| == |s.released|
  }

  predicate Enabled(s: State, step: Step) {
    && Shaped(s)
    && match step
       case Thread(r, answer) =>
         && r < |s.pcs| && s.pcs[r] != Exited
         && (s.pcs[r] == Socket && answer >= 0 ==> answer !in s.table)
       case RequestStop(r) => r < |s.pcs|
       case ReleaseGroup(r) => r < |s.pcs|
       case ClearGroup(r) => r < |s.pcs|
       case SetPid(r, _) => r < |s.pcs|
       case AgentSwap(a, r) => r < |s.pcs| && a < |s.agents| && s.agents[a].Free?
       case AgentClose(a) => a < |s.agents| && s.agents[a].Closing?
       case Reset(r) => r < |s.pcs| && (s.rearms[r] == Off ==> s.pcs[r] == Exited)
       case OpenForeign(fd) => fd !in s.table
       case CloseForeign(fd) => fd in s.table && s.table[fd] < |s.socks| && s.socks[s.table[fd]].kind.Foreign?
  }

  function ThreadStep(s: State, r: nat, answer: int): State
    requires Enabled(s, Thread(r, answer))
  {
    var stop := s.stops[r];
    match s.pcs[r]
    case Top => Go(s, r, if stop then Exited else GroupTest)
    case GroupTest => Go(s, r, if s.released[r] then Exited else PidTest)
    case PidTest => Go(s, r, if s.pids[r] > 0 then Top else OutsideTest)
    case OutsideTest => Go(s, r, if answer != 0 then OutsideWait else Socket)
    case OutsideWait => Go(s, r, if stop then Exited else Top)
    case Socket => if answer < 0 then Go(s, r, Store(-1)) else Go(Open(s, answer, Listener(r)), r, Bind(answer))
    case Bind(fd) => Go(s, r, if answer == 0 then Store(fd) else Discard(fd))
    case Discard(fd) => Go(Close(s, fd), r, Store(-1))
    case Store(value) => Go(s.(cells := s.cells[r := value]), r, Check)
    case Check => Go(s, r, if s.cells[r] < 0 then FailStop else Choose)
    case FailStop => Go(s, r, if stop then Exited else if answer != 0 then Top else Backoff)
    case Backoff => Go(s, r, if stop || answer != 0 then BackoffEnd else Backoff)
    case BackoffEnd => Go(s, r, if stop then Exited else Top)
    case Choose => Go(s, r, if answer != 0 then Launch else AcceptTest)
    case AcceptTest => Go(s, r, if stop then Swap else Accept)
    case Accept => Go(s, r, if answer < 0 then AcceptFailed else Serve)
    case AcceptFailed => Go(s, r, if stop || answer != 0 then Swap else AcceptTest)
    case Serve =>
      Go(s, r, if answer == 1 then Swap else if answer == 0 || s.pids[r] != 0 then AcceptTest else Launch)
    case Launch => Go(s, r, if answer <= 0 then Swap else StorePid(answer))
    case StorePid(pid) => Go(s.(pids := s.pids[r := pid]), r, LaunchSwap)
    case LaunchSwap => SwapOwn(s, r, (fd: nat) => LaunchClose(fd), Swap)
    case LaunchClose(fd) => Go(Close(s, fd), r, Swap)
    case Swap => SwapOwn(s, r, (fd: nat) => SwapClose(fd), Again)
    case SwapClose(fd) => Go(Close(s, fd), r, Again)
    case Again => Go(s, r, if stop || answer != 0 then Exited else Delay)
    case Delay => Go(s, r, if stop then Exited else if answer == 0 then Delay else PortWait)
    case PortWait =>
      Go(s, r, if answer == 2 then Top else if stop then Exited else if answer == 0 then PortWait else Top)
  }

  /** resetForIdle: join, then the stores in their order, then the new thread. */
  function ResetStep(s: State, r: nat): State
    requires Enabled(s, Reset(r))
  {
    match s.rearms[r]
    case Off => s.(rearms := s.rearms[r := Joined])
    case Joined => s.(rearms := s.rearms[r := StopCleared], stops := s.stops[r := false])
    case StopCleared => s.(rearms := s.rearms[r := GroupCleared], released := s.released[r := false])
    case GroupCleared => s.(rearms := s.rearms[r := CellCleared], cells := s.cells[r := -1])
    case CellCleared => Go(s.(rearms := s.rearms[r := Off]), r, Top)
  }

  function AgentSwapStep(s: State, a: nat, r: nat): State
    requires Enabled(s, AgentSwap(a, r))
  {
    var v := s.cells[r];
    s.(cells := s.cells[r := -1], agents := s.agents[a := if v >= 0 then Closing(v) else Free])
  }

  function Apply(s: State, step: Step): State
    requires Enabled(s, step)
  {
    match step
    case Thread(r, answer) => ThreadStep(s, r, answer)
    case RequestStop(r) => s.(stops := s.stops[r := true])
    case ReleaseGroup(r) => s.(released := s.released[r := true])
    case ClearGroup(r) => s.(released := s.released[r := false])
    case SetPid(r, pid) => s.(pids := s.pids[r := pid])
    case AgentSwap(a, r) => AgentSwapStep(s, a, r)
    case AgentClose(a) => Close(s.(agents := s.agents[a := Free]), s.agents[a].fd)
    case Reset(r) => ResetStep(s, r)
    case OpenForeign(fd) => Open(s, fd, Foreign)
    case CloseForeign(fd) => Close(s, fd)
  }

  ghost predicate Run(states: seq<State>, steps: seq<Step>) {
    && |states| == |steps| + 1
    && forall i :: 0 <= i < |steps| ==> Enabled(states[i], steps[i]) && states[i + 1] == Apply(states[i], steps[i])
  }

  // ---- The invariant ----

  /** The places that can hold a listening descriptor. */
  datatype Place = InThread(r: nat) | InCell(r: nat) | InAgent(a: nat)

  function Carried(pc: Pc): int {
    match pc
    case Bind(fd) => fd
    case Discard(fd) => fd
    case Store(value) => value
    case LaunchClose(fd) => fd
    case SwapClose(fd) => fd
    case _ => -1
  }

  function Fd(s: State, p: Place): int {
    match p
    case InThread(r) => if r < |s.pcs| then Carried(s.pcs[r]) else -1
    case InCell(r) => if r < |s.cells| then s.cells[r] else -1
    case InAgent(a) => if a < |s.agents| && s.agents[a].Closing? then s.agents[a].fd else -1
  }

  /** The open descriptor is a listening socket, and of the place's relay when the place belongs to one. */
  predicate Hold(s: State, p: Place, fd: int) {
    && fd >= 0 && fd in s.table && s.table[fd] < |s.socks|
    && var kind := s.socks[s.table[fd]].kind;
       kind.Listener? && (!p.InAgent? ==> kind.relay == p.r)
  }

  /** Every open descriptor names its own socket; a socket has been closed once, or is open and has not. */
  ghost predicate Files(s: State) {
    && (forall fd :: fd in s.table ==> s.table[fd] < |s.socks|)
    && (forall f, g :: f in s.table && g in s.table && f != g ==> s.table[f] != s.table[g])
    && (forall k :: 0 <= k < |s.socks| ==> s.socks[k].closes == if k in s.table.Values then 0 else 1)
    && s.badCloses == 0
  }

  ghost predicate Held(s: State, fd: nat) {
    exists p :: Fd(s, p) == fd
  }

  /** Held descriptors are open listening sockets, no two places hold the same, and no listening socket is lost. */
  ghost predicate Holders(s: State) {
    && (forall p :: Fd(s, p) >= 0 ==> Hold(s, p, Fd(s, p)))
    && (forall p, q :: p != q && Fd(s, p) >= 0 ==> Fd(s, p) != Fd(s, q))
    && (forall fd :: fd in s.table && s.table[fd] < |s.socks| && s.socks[s.table[fd]].kind.Listener? ==> Held(s, fd))
  }

  /** The stretch of listenLoop in which listenFd_ may hold a descriptor. */
  predicate Listening(pc: Pc) {
    || pc.Check? || pc.Choose? || pc.AcceptTest? || pc.Accept? || pc.AcceptFailed? || pc.Serve?
    || pc.Launch? || pc.StorePid? || pc.LaunchSwap? || pc.Swap?
  }

  ghost predicate Control(s: State) {
    && Shaped(s)
    && (forall r :: 0 <= r < |s.pcs| ==> s.cells[r] >= -1)
    && (forall r :: 0 <= r < |s.pcs| && s.cells[r] >= 0 ==> Listening(s.pcs[r]))
    && (forall r :: 0 <= r < |s.pcs| && s.rearms[r] != Off ==> s.pcs[r] == Exited)
    && (forall r :: 0 <= r < |s.pcs| && s.pcs[r].Store? ==> s.pcs[r].value >= -1)
  }

  ghost predicate Inv(s: State) {
    Control(s) && Files(s) && Holders(s)
  }

  // ---- What one change does to the descriptors held ----

  /** `t` holds what `s` holds, except at two places. */
  ghost predicate Changes(s: State, t: State, p: Place, atP: int, q: Place, atQ: int) {
    forall x :: Fd(t, x) == if x == p then atP else if x == q then atQ else Fd(s, x)
  }

  predicate SameFiles(s: State, t: State) {
    s.table == t.table && s.socks == t.socks && s.badCloses == t.badCloses
  }

  /** A descriptor, or none, moves from one place to an empty one. */
  lemma MoveHolders(s: State, t: State, p: Place, q: Place)
    requires Holders(s) && SameFiles(s, t) && p != q && Fd(s, q) < 0
    requires Changes(s, t, p, -1, q, Fd(s, p)) && (q.InAgent? || (!p.InAgent? && p.r == q.r))
    ensures Holders(t)
  {
    hide Fd;
    forall fd | fd in t.table && t.table[fd] < |t.socks| && t.socks[t.table[fd]].kind.Listener?
      ensures Held(t, fd)
    {
      assert Held(s, fd);
      var x :| Fd(s, x) == fd;
      assert Fd(t, if x == p then q else x) == fd;
    }
  }

  lemma SameHolders(s: State, t: State)
    requires Holders(s) && SameFiles(s, t) && forall x :: Fd(t, x) == Fd(s, x)
    ensures Holders(t)
  {
  }

  /** Closing a descriptor the table has. */
  lemma CloseFiles(s: State, fd: nat)
    requires Files(s) && fd in s.table
    ensures Files(Close(s, fd))
  {
    var t := Close(s, fd);
    assert forall f :: f in t.table ==> f in s.table && t.table[f] == s.table[f];
  }

  /** The place that held the closed descriptor holds none. */
  lemma CloseHolders(s: State, t: State, p: Place)
    requires Holders(s) && Fd(s, p) >= 0 && Fd(s, p) in s.table
    requires t.table == s.table - {Fd(s, p)} && |t.socks| == |s.socks|
    requires forall k :: 0 <= k < |s.socks| ==> t.socks[k].kind == s.socks[k].kind
    requires forall x :: Fd(t, x) == if x == p then -1 else Fd(s, x)
    ensures Holders(t)
  {
    hide Fd;
    forall x | Fd(t, x) >= 0
      ensures Hold(t, x, Fd(t, x))
    {
      assert Hold(s, x, Fd(s, x));
    }
    forall fd | fd in t.table && t.table[fd] < |t.socks| && t.socks[t.table[fd]].kind.Listener?
      ensures Held(t, fd)
    {
      assert Held(s, fd);
      var x :| Fd(s, x) == fd;
      assert Fd(t, x) == fd;
    }
  }

  lemma CloseForeignHolders(s: State, fd: nat)
    requires Holders(s) && Enabled(s, CloseForeign(fd))
    ensures Holders(Close(s, fd))
  {
    var t := Close(s, fd);
    assert forall x :: Fd(t, x) == Fd(s, x);
    forall x | Fd(t, x) >= 0
      ensures Hold(t, x, Fd(t, x))
    {
    }
  }

  lemma OpenFiles(s: State, fd: nat, kind: Kind)
    requires Files(s) && fd !in s.table
    ensures Files(Open(s, fd, kind))
  {
    var t := Open(s, fd, kind);
    forall n | 0 <= n < |t.socks|
      ensures t.socks[n].closes == if n in t.table.Values then 0 else 1
    {
      if n == |s.socks| {
        assert t.table[fd] == n;
      } else if n in s.table.Values {
        var f :| f in s.table && s.table[f] == n;
        assert t.table[f] == n;
      }
    }
  }

  /** `t` is `s` with a new socket, held by `p` unless it is foreign. */
  ghost predicate Opened(s: State, t: State, fd: nat, kind: Kind, p: Place) {
    && Files(s) && fd !in s.table && t.table == s.table[fd := |s.socks|] && t.socks == s.socks + [Sock(kind, 0)]
    && (kind.Listener? ==> !p.InAgent? && kind.relay == p.r && Fd(s, p) < 0)
    && (forall x :: Fd(t, x) == if x == p && kind.Listener? then fd else Fd(s, x))
  }

  lemma OpenedHolds(s: State, t: State, fd: nat, kind: Kind, p: Place, x: Place)
    requires Holders(s) && Opened(s, t, fd, kind, p) && Fd(t, x) >= 0
    ensures Hold(t, x, Fd(t, x))
  {
    hide Fd;
    if x != p || kind.Foreign? {
      assert Hold(s, x, Fd(s, x));
    }
  }

  lemma OpenedHeld(s: State, t: State, fd: nat, kind: Kind, p: Place, f: nat)
    requires Holders(s) && Opened(s, t, fd, kind, p)
    requires f in t.table && t.table[f] < |t.socks| && t.socks[t.table[f]].kind.Listener?
    ensures Held(t, f)
  {
    hide Fd, Hold;
    if f == fd {
      assert Fd(t, p) == f;
    } else {
      assert t.table[f] == s.table[f];
      assert Held(s, f);
      var x :| Fd(s, x) == f;
      assert Fd(t, x) == f;
    }
  }

  /** A new socket, held by a place that held none unless it is foreign. */
  lemma OpenHolders(s: State, t: State, fd: nat, kind: Kind, p: Place)
    requires Holders(s) && Opened(s, t, fd, kind, p)
    ensures Holders(t)
  {
    hide Fd, Held;
    forall x | Fd(t, x) >= 0
      ensures Hold(t, x, Fd(t, x))
    {
      OpenedHolds(s, t, fd, kind, p, x);
    }
    assert forall x :: Fd(s, x) >= 0 ==> Hold(s, x, Fd(s, x));
    forall f | f in t.table && t.table[f] < |t.socks| && t.socks[t.table[f]].kind.Listener?
      ensures Held(t, f)
    {
      OpenedHeld(s, t, fd, kind, p, f);
    }
  }

  // ---- Every step keeps the invariant ----

  lemma GoFd(s: State, r: nat, pc: Pc)
    requires r < |s.pcs|
    ensures forall x :: Fd(Go(s, r, pc), x) == if x == InThread(r) then Carried(pc) else Fd(s, x)
  {
  }

  lemma CellFd(s: State, r: nat, v: int)
    requires r < |s.cells|
    ensures forall x :: Fd(s.(cells := s.cells[r := v]), x) == if x == InCell(r) then v else Fd(s, x)
  {
    forall x: Place
      ensures Fd(s.(cells := s.cells[r := v]), x) == if x == InCell(r) then v else Fd(s, x)
    {
    }
  }

  lemma AgentFd(s: State, a: nat, agent: Agent)
    requires a < |s.agents|
    ensures forall x :: Fd(s.(agents := s.agents[a := agent]), x) ==
                        if x == InAgent(a) then (if agent.Closing? then agent.fd else -1) else Fd(s, x)
  {
    forall x: Place
      ensures Fd(s.(agents := s.agents[a := agent]), x) ==
              if x == InAgent(a) then (if agent.Closing? then agent.fd else -1) else Fd(s, x)
    {
    }
  }

  /** A thread step that only moves on. */
  lemma GoInv(s: State, r: nat, pc: Pc)
    requires Inv(s) && r < |s.pcs| && s.pcs[r] != Exited && Carried(pc) == Carried(s.pcs[r])
    requires s.cells[r] >= 0 ==> Listening(pc)
    requires pc.Store? ==> pc.value >= -1
    ensures Inv(Go(s, r, pc))
  {
    hide Fd, Holders, Carried, Files;
    GoFd(s, r, pc);
    assert Fd(s, InThread(r)) == Carried(s.pcs[r]) by {
      ThreadFd(s, r);
    }
    SameHolders(s, Go(s, r, pc));
    SameFilesKept(s, Go(s, r, pc));
  }

  lemma ThreadFd(s: State, r: nat)
    requires r < |s.pcs|
    ensures Fd(s, InThread(r)) == Carried(s.pcs[r])
    ensures r < |s.cells| ==> Fd(s, InCell(r)) == s.cells[r]
  {
  }

  lemma SameFilesKept(s: State, t: State)
    requires Files(s) && SameFiles(s, t)
    ensures Files(t)
  {
  }

  lemma StoreInv(s: State, r: nat)
    requires Inv(s) && r < |s.pcs| && s.pcs[r].Store?
    ensures Inv(Go(s.(cells := s.cells[r := s.pcs[r].value]), r, Check))
  {
    hide Fd, Holders, Files;
    var v := s.pcs[r].value;
    var m := s.(cells := s.cells[r := v]);
    CellFd(s, r, v);
    GoFd(m, r, Check);
    ThreadFd(s, r);
    MoveHolders(s, Go(m, r, Check), InThread(r), InCell(r));
    SameFilesKept(s, Go(m, r, Check));
  }

  lemma SwapOwnInv(s: State, r: nat, pc: nat -> Pc, otherwise: Pc)
    requires Inv(s) && r < |s.pcs| && s.pcs[r] != Exited && Carried(s.pcs[r]) < 0 && Carried(otherwise) == -1
    requires forall v: nat :: Carried(pc(v)) == v && !pc(v).Store?
    requires !otherwise.Store?
    ensures Inv(SwapOwn(s, r, pc, otherwise))
  {
    hide Fd, Holders, Files, Listening;
    var v, t := s.cells[r], SwapOwn(s, r, pc, otherwise);
    var m := s.(cells := s.cells[r := -1]);
    CellFd(s, r, -1);
    GoFd(m, r, if v >= 0 then pc(v) else otherwise);
    ThreadFd(s, r);
    MoveHolders(s, t, InCell(r), InThread(r));
    SameFilesKept(s, t);
  }

  lemma FilesBound(s: State, fd: nat)
    requires Files(s) && fd in s.table
    ensures s.table[fd] < |s.socks|
  {
  }

  /** A thread closes the descriptor it carries. */
  lemma ThreadCloseInv(s: State, r: nat, pc: Pc)
    requires Inv(s) && r < |s.pcs| && s.pcs[r] != Exited && Carried(s.pcs[r]) >= 0 && Carried(pc) == -1
    requires s.cells[r] < 0 && (pc.Store? ==> pc.value >= -1)
    ensures Inv(Go(Close(s, Carried(s.pcs[r])), r, pc))
  {
    hide Fd, Files, Listening;
    var fd := Carried(s.pcs[r]);
    var m := Close(s, fd);
    ThreadFd(s, r);
    assert Hold(s, InThread(r), fd);
    FilesBound(s, fd);
    CloseFiles(s, fd);
    CloseFd(s, fd);
    GoFd(m, r, pc);
    var t := Go(m, r, pc);
    CloseHolders(s, t, InThread(r));
    SameFilesKept(m, t);
  }

  lemma CloseFd(s: State, fd: nat)
    ensures forall x :: Fd(Close(s, fd), x) == Fd(s, x)
  {
  }

  lemma SocketInv(s: State, r: nat, fd: nat)
    requires Inv(s) && r < |s.pcs| && s.pcs[r] == Socket && fd !in s.table
    ensures Inv(Go(Open(s, fd, Listener(r)), r, Bind(fd)))
  {
    hide Files;
    var m := Open(s, fd, Listener(r));
    var t := Go(m, r, Bind(fd));
    OpenFiles(s, fd, Listener(r));
    OpenHolders(s, t, fd, Listener(r), InThread(r));
    SameFilesKept(m, t);
  }

  lemma AgentSwapInv(s: State, a: nat, r: nat)
    requires Inv(s) && Enabled(s, AgentSwap(a, r))
    ensures Inv(AgentSwapStep(s, a, r))
  {
    hide Holders, Files, Listening;
    var t := AgentSwapStep(s, a, r);
    MoveHolders(s, t, InCell(r), InAgent(a));
    SameFilesKept(s, t);
  }

  lemma AgentCloseInv(s: State, a: nat)
    requires Inv(s) && Enabled(s, AgentClose(a))
    ensures Inv(Apply(s, AgentClose(a)))
  {
    hide Files, Listening;
    var fd := s.agents[a].fd;
    var m := s.(agents := s.agents[a := Free]);
    var t := Close(m, fd);
    assert Fd(s, InAgent(a)) == fd;
    assert Hold(s, InAgent(a), fd);
    SameFilesKept(s, m);
    FilesBound(m, fd);
    CloseFiles(m, fd);
    AgentFd(s, a, Free);
    CloseFd(m, fd);
    CloseHolders(s, t, InAgent(a));
  }

  lemma ThreadInv(s: State, r: nat, answer: int)
    requires Inv(s) && Enabled(s, Thread(r, answer))
    ensures Inv(ThreadStep(s, r, answer))
  {
    hide Files, Holders, Fd, Close, Open;
    match s.pcs[r] {
      case Socket =>
        if answer >= 0 {
          SocketInv(s, r, answer);
        } else {
          GoInv(s, r, Store(-1));
        }
      case Discard(_) =>
        ThreadCloseInv(s, r, Store(-1));
      case Store(_) =>
        StoreInv(s, r);
      case StorePid(pid) =>
        PidInv(s, r, pid);
        GoInv(s.(pids := s.pids[r := pid]), r, LaunchSwap);
      case LaunchSwap =>
        SwapOwnInv(s, r, (fd: nat) => LaunchClose(fd), Swap);
      case LaunchClose(_) =>
        ThreadCloseInv(s, r, Swap);
      case Swap =>
        SwapOwnInv(s, r, (fd: nat) => SwapClose(fd), Again);
      case SwapClose(_) =>
        ThreadCloseInv(s, r, Again);
      case Exited =>
      case _ =>
        MovesOn(s, r, answer);
    }
  }

  lemma PidInv(s: State, r: nat, pid: int)
    requires Inv(s) && r < |s.pids|
    ensures Inv(s.(pids := s.pids[r := pid]))
  {
    hide Holders, Files, Listening;
    var t := s.(pids := s.pids[r := pid]);
    FlagsFd(s, t);
    SameHolders(s, t);
    SameFilesKept(s, t);
  }

  /** The points where a thread only tests, waits or calls out. */
  predicate Plain(pc: Pc) {
    && !pc.Socket? && !pc.Discard? && !pc.Store? && !pc.StorePid? && !pc.LaunchSwap? && !pc.LaunchClose? && !pc.Swap?
    && !pc.SwapClose? && !pc.Exited?
  }

  lemma MovesOn(s: State, r: nat, answer: int)
    requires Inv(s) && Enabled(s, Thread(r, answer)) && Plain(s.pcs[r])
    ensures Inv(ThreadStep(s, r, answer))
  {
    hide Files, Holders, Fd, Close, Open;
    var t := ThreadStep(s, r, answer);
    GoInv(s, r, t.pcs[r]);
  }

  lemma ResetInv(s: State, r: nat)
    requires Inv(s) && Enabled(s, Reset(r))
    ensures Inv(ResetStep(s, r))
  {
    hide Files, Holders;
    var t := ResetStep(s, r);
    assert s.cells[r] == -1;
    assert forall x :: Fd(t, x) == Fd(s, x);
    SameHolders(s, t);
    SameFilesKept(s, t);
  }

  lemma FlagsFd(s: State, t: State)
    requires s.pcs == t.pcs && s.cells == t.cells && s.agents == t.agents
    ensures forall x :: Fd(t, x) == Fd(s, x)
  {
  }

  lemma OpenFd(s: State, fd: nat, kind: Kind)
    ensures forall x :: Fd(Open(s, fd, kind), x) == Fd(s, x)
  {
  }

  /** Every step, of any thread or caller, keeps the invariant. */
  lemma StepInv(s: State, step: Step)
    requires Inv(s) && Enabled(s, step)
    ensures Inv(Apply(s, step))
  {
    hide Files, Holders, Hold, Fd, Listening, Carried;
    var t := Apply(s, step);
    match step {
      case Thread(r, answer) =>
        ThreadInv(s, r, answer);
      case AgentSwap(a, r) =>
        AgentSwapInv(s, a, r);
      case AgentClose(a) =>
        AgentCloseInv(s, a);
      case Reset(r) =>
        ResetInv(s, r);
      case OpenForeign(fd) =>
        OpenFiles(s, fd, Foreign);
        OpenFd(s, fd, Foreign);
        OpenHolders(s, t, fd, Foreign, InAgent(0));
      case CloseForeign(fd) =>
        CloseFiles(s, fd);
        CloseForeignHolders(s, fd);
      case _ =>
        FlagsFd(s, t);
        SameHolders(s, t);
        SameFilesKept(s, t);
    }
  }

  lemma {:induction false} RunInv(states: seq<State>, steps: seq<Step>)
    requires Run(states, steps) && Inv(states[0])
    ensures forall k :: 0 <= k < |states| ==> Inv(states[k])
    decreases |steps|
  {
    hide Inv, Enabled, Apply;
    if steps != [] {
      var n := |steps| - 1;
      RunInv(states[..n + 1], steps[..n]);
      StepInv(states[n], steps[n]);
    }
  }

  /** Relays about to start, and outside callers at rest. */
  ghost predicate Initial(s: State) {
    && Shaped(s) && s.table == map[] && s.socks == [] && s.badCloses == 0
    && (forall r :: 0 <= r < |s.pcs| ==> s.pcs[r] == Top && s.rearms[r] == Off && s.cells[r] == -1)
    && (forall a :: 0 <= a < |s.agents| ==> s.agents[a] == Free)
  }

  // ---- Main results ----

  /** The descriptor a step closes, if it closes a listening socket. */
  function ClosedBy(s: State, step: Step): int
    requires Enabled(s, step)
  {
    match step
    case Thread(r, _) =>
      if s.pcs[r].Discard? || s.pcs[r].LaunchClose? || s.pcs[r].SwapClose? then s.pcs[r].fd else -1
    case AgentClose(a) => s.agents[a].fd
    case _ => -1
  }

  /** Every close hits an open listening socket that nobody else holds and that has not been closed before. */
  lemma CloseIsExact(s: State, step: Step, q: Place)
    requires Inv(s) && Enabled(s, step) && ClosedBy(s, step) >= 0
    ensures var fd := ClosedBy(s, step);
      && fd in s.table && s.table[fd] < |s.socks|
      && s.socks[s.table[fd]].kind.Listener? && s.socks[s.table[fd]].closes == 0
      && (step.Thread? ==> s.socks[s.table[fd]].kind.relay == step.r)
      && (Fd(s, q) == fd ==> q == if step.Thread? then InThread(step.r) else InAgent(step.a))
  {
    var fd := ClosedBy(s, step);
    var p := if step.Thread? then InThread(step.r) else InAgent(step.a);
    assert Fd(s, p) == fd && Hold(s, p, fd);
  }

  /** A new descriptor is stored only over -1: no listening socket is overwritten, by a thread or by a re-arm. */
  lemma StoresOverNothing(s: State, step: Step)
    requires Inv(s) && Enabled(s, step)
    ensures step.Thread? && s.pcs[step.r].Store? ==> s.cells[step.r] == -1
    ensures step.Reset? ==> s.cells[step.r] == -1
  {
    hide Holders, Files;
  }

  /** Once a listen thread has exited, an open socket of its relay is in the hands of a caller about to close it. */
  lemma ExitedHoldsNone(s: State, r: nat, fd: nat)
    requires Inv(s) && r < |s.pcs| && s.pcs[r] == Exited
    requires fd in s.table && s.table[fd] < |s.socks| && s.socks[s.table[fd]].kind == Listener(r)
    ensures s.cells[r] == -1
    ensures exists a :: 0 <= a < |s.agents| && s.agents[a] == Closing(fd)
  {
  }

  /** When a relay's thread has exited and no caller is about to close, each of its sockets has been closed, once. */
  lemma ClosedExactlyOnce(s: State, r: nat, k: nat)
    requires Inv(s) && r < |s.pcs| && s.pcs[r] == Exited && forall a :: 0 <= a < |s.agents| ==> s.agents[a] == Free
    requires k < |s.socks| && s.socks[k].kind == Listener(r)
    ensures s.socks[k].closes == 1
  {
  }

  lemma InitialInv(s: State)
    requires Initial(s)
    ensures Inv(s)
  {
    assert forall p :: Fd(s, p) == -1;
  }

  /** Over every run from the start: no close fails or repeats, and no relay that has stopped keeps a socket. */
  lemma RunClosesExactlyOnce(states: seq<State>, steps: seq<Step>, n: nat)
    requires Run(states, steps) && Initial(states[0]) && n < |states|
    ensures var s := states[n];
      && s.badCloses == 0
      && (forall k :: 0 <= k < |s.socks| ==> s.socks[k].closes <= 1)
      && (forall k :: 0 <= k < |s.socks| && s.socks[k].kind.Listener? && s.socks[k].kind.relay < |s.pcs|
                 && s.pcs[s.socks[k].kind.relay] == Exited && (forall a :: 0 <= a < |s.agents| ==> s.agents[a] == Free)
                 ==> s.socks[k].closes == 1)
  {
    hide Apply, Enabled, Holders, Control;
    InitialInv(states[0]);
    RunInv(states, steps);
    var s := states[n];
    forall k | 0 <= k < |s.socks| && s.socks[k].kind.Listener? && s.socks[k].kind.relay < |s.pcs|
      && s.pcs[s.socks[k].kind.relay] == Exited && (forall a :: 0 <= a < |s.agents| ==> s.agents[a] == Free)
      ensures s.socks[k].closes == 1
    {
      ClosedExactlyOnce(s, s.socks[k].kind.relay, k);
    }
  }

  // ---- A stopped listen thread ends ----

  /** Steps left once the stop flag is set. */
  function Rank(pc: Pc): nat {
    match pc
    case Exited => 0
    case Top => 1
    case FailStop => 1
    case BackoffEnd => 2
    case OutsideWait => 2
    case PortWait => 2
    case Again => 2
    case Delay => 2
    case Backoff => 3
    case SwapClose(_) => 3
    case Swap => 4
    case LaunchClose(_) => 5
    case AcceptTest => 5
    case AcceptFailed => 5
    case LaunchSwap => 6
    case StorePid(_) => 7
    case Launch => 8
    case Serve => 9
    case Choose => 9
    case Accept => 10
    case Check => 10
    case Store(_) => 11
    case Discard(_) => 12
    case Bind(_) => 13
    case Socket => 14
    case OutsideTest => 15
    case PidTest => 16
    case GroupTest => 17
  }

  /** Waiting, failing and ending. */
  lemma SlowDrains(s: State, r: nat, answer: int)
    requires Enabled(s, Thread(r, answer)) && s.stops[r] && Plain(s.pcs[r]) && Rank(s.pcs[r]) <= 3
    ensures Rank(ThreadStep(s, r, answer).pcs[r]) < Rank(s.pcs[r])
  {
    hide Open, Close, SwapOwn;
  }

  /** On the way to listening, and listening. */
  lemma ListeningDrains(s: State, r: nat, answer: int)
    requires Enabled(s, Thread(r, answer)) && s.stops[r] && Plain(s.pcs[r]) && Rank(s.pcs[r]) > 3
    ensures Rank(ThreadStep(s, r, answer).pcs[r]) < Rank(s.pcs[r])
  {
    hide Open, Close, SwapOwn;
  }

  lemma SocketDrains(s: State, r: nat, answer: int)
    requires Enabled(s, Thread(r, answer)) && s.stops[r] && !Plain(s.pcs[r])
    ensures Rank(ThreadStep(s, r, answer).pcs[r]) < Rank(s.pcs[r])
  {
    hide Open, Close;
    CloseKeepsPcs(s, if s.pcs[r].Discard? || s.pcs[r].LaunchClose? || s.pcs[r].SwapClose? then s.pcs[r].fd else 0);
    OpenKeepsPcs(s, if answer >= 0 then answer else 0, Listener(r));
  }

  /** With the stop flag set, every step of a listen thread brings it closer to its end. */
  lemma StopDrains(s: State, r: nat, answer: int)
    requires Enabled(s, Thread(r, answer)) && s.stops[r]
    ensures Rank(ThreadStep(s, r, answer).pcs[r]) < Rank(s.pcs[r])
  {
    hide ThreadStep, Rank;
    if Plain(s.pcs[r]) {
      if Rank(s.pcs[r]) <= 3 {
        SlowDrains(s, r, answer);
      } else {
        ListeningDrains(s, r, answer);
      }
    } else {
      SocketDrains(s, r, answer);
    }
  }

  lemma CloseKeepsPcs(s: State, fd: nat)
    ensures Close(s, fd).pcs == s.pcs
  {
  }

  lemma OpenKeepsPcs(s: State, fd: nat, kind: Kind)
    ensures Open(s, fd, kind).pcs == s.pcs
  {
  }

  function OwnSteps(steps: seq<Step>, r: nat): nat {
    if steps == [] then 0
    else OwnSteps(steps[..|steps| - 1], r) + if steps[|steps| - 1].Thread? && steps[|steps| - 1].r == r then 1 else 0
  }

  lemma OthersLeavePc(s: State, step: Step, r: nat)
    requires Enabled(s, step) && r < |s.pcs| && !(step.Thread? && step.r == r) && !(step.Reset? && step.r == r)
    ensures |Apply(s, step).pcs| == |s.pcs| && Apply(s, step).pcs[r] == s.pcs[r]
  {
    hide ThreadStep, Open;
    match step {
      case Thread(q, answer) =>
        ThreadKeepsShape(s, q, answer);
      case AgentClose(a) =>
      case OpenForeign(fd) =>
        OpenKeepsPcs(s, fd, Foreign);
      case CloseForeign(fd) =>
      case _ =>
    }
  }

  /** With stop set and no re-arm, whatever else runs, a listen thread takes at most Rank (so at most 17) steps more. */
  lemma {:induction false} StoppedThreadEnds(states: seq<State>, steps: seq<Step>, r: nat)
    requires Run(states, steps) && Shaped(states[0]) && r < |states[0].pcs|
    requires forall i :: 0 <= i < |states| ==> r < |states[i].stops| && states[i].stops[r]
    requires forall i :: 0 <= i < |steps| ==> !(steps[i].Reset? && steps[i].r == r)
    ensures r < |states[|steps|].pcs|
    ensures OwnSteps(steps, r) + Rank(states[|steps|].pcs[r]) <= Rank(states[0].pcs[r]) <= 17
    decreases |steps|
  {
    hide Apply, Enabled, Shaped;
    if steps != [] {
      var n := |steps| - 1;
      var front, before := states[..n + 1], steps[..n];
      assert forall i :: 0 <= i < n ==> front[i] == states[i] && before[i] == steps[i];
      StoppedThreadEnds(front, before, r);
      assert front[n] == states[n];
      LastStepRanks(states[n], steps[n], r);
    }
  }

  lemma LastStepRanks(s: State, step: Step, r: nat)
    requires Enabled(s, step) && r < |s.pcs| && s.stops[r] && !(step.Reset? && step.r == r)
    ensures r < |Apply(s, step).pcs|
    ensures Rank(Apply(s, step).pcs[r]) + (if step.Thread? && step.r == r then 1 else 0) <= Rank(s.pcs[r])
  {
    hide ThreadStep, Rank;
    if step.Thread? && step.r == r {
      StopDrains(s, r, step.answer);
      ThreadKeepsShape(s, r, step.answer);
    } else {
      OthersLeavePc(s, step, r);
    }
  }

  lemma ThreadKeepsShape(s: State, r: nat, answer: int)
    requires Enabled(s, Thread(r, answer))
    ensures |ThreadStep(s, r, answer).pcs| == |s.pcs|
    ensures forall q :: 0 <= q < |s.pcs| && q != r ==> ThreadStep(s, r, answer).pcs[q] == s.pcs[q]
  {
    hide Open, Close;
    CloseKeepsPcs(s, if s.pcs[r].Discard? || s.pcs[r].LaunchClose? || s.pcs[r].SwapClose? then s.pcs[r].fd else 0);
    OpenKeepsPcs(s, if answer >= 0 then answer else 0, Listener(r));
  }
}
