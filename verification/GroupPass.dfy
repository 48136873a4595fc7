/**
 The pass of a port group over its members (onConnection in src/port_group.cpp), run
 beside the members' listen threads.

 The group's mutex keeps passes apart, but the threads do not take it: between any two
 operations of the pass they test the pid, bind, store and close on their own.  All
 relays of the machine in Lifecycle are the members; the pass is its agent 0.
 */
module GroupPass {
  import opened Text
  import opened Lifecycle
  import ListenThread

  const PASS: nat := 0

  /** Where the pass stands, and at which member. */
  datatype Turn =
    | Resting
    | Testing(i: nat) | Launching(i: nat) | Storing(i: nat, pid: int) | Swapping(i: nat) | Dropping(i: nat)

  /**
   The members, the group's flags, and the pass: whose connection started it (that thread
   waits for it), and how often it has tried to launch each member.
   */
  datatype World = World(l: State, launched: bool, stopped: bool, source: nat, turn: Turn, tries: seq<nat>)

  /** `answer` is what a launch returns; StopGroup is the end of the first stop, its closes are other agents'. */
  datatype Move = Inner(step: Step) | Connect(source: nat) | Next(answer: int) | ResetLaunch | StopGroup

  // ---- Moves ----

  function AfterMember(w: World, i: nat): Turn {
    if i + 1 < |w.l.pcs| then Testing(i + 1) else Resting
  }

  /** The step of the members' machine that a move makes, if it makes one. */
  function Acts(w: World, m: Move): Option<Step> {
    match m
    case Inner(step) => Some(step)
    case Next(_) =>
      (match w.turn
       case Storing(i, pid) => Some(SetPid(i, pid))
       case Swapping(i) => Some(AgentSwap(PASS, i))
       case Dropping(i) => Some(AgentClose(PASS))
       case _ => None)
    case _ => None
  }

  /** A step of somebody else: not the pass's agent, and not the thread that waits for the pass. */
  predicate ByOthers(w: World, step: Step) {
    && !((step.AgentSwap? || step.AgentClose?) && step.a == PASS)
    && (step.Thread? && step.r < |w.l.pcs| ==>
          && (w.turn != Resting ==> step.r != w.source)
          && (w.l.pcs[step.r] == Serve ==> step.answer == 0 || (step.answer == 1 && w.turn == Resting)))
  }

  predicate Allowed(w: World, m: Move) {
    && (Acts(w, m).Some? ==> Enabled(w.l, Acts(w, m).value))
    && match m
       case Inner(step) => ByOthers(w, step)
       case Connect(source) => w.turn == Resting && !w.launched && source < |w.l.pcs| && w.l.pcs[source] == Serve
       case Next(_) => w.turn != Resting && w.turn.i < |w.l.pids| && w.turn.i < |w.tries| && w.turn.i < |w.l.cells|
       case _ => w.turn == Resting
  }

  /** The pass's bookkeeping after one of its operations. */
  function Turned(w: World, answer: int): World
    requires w.turn != Resting && w.turn.i < |w.l.pids| && w.turn.i < |w.tries| && w.turn.i < |w.l.cells|
  {
    match w.turn
    case Testing(i) => w.(turn := if w.l.pids[i] == 0 then Launching(i) else Swapping(i))
    case Launching(i) =>
      w.(tries := w.tries[i := w.tries[i] + 1], turn := if answer > 0 then Storing(i, answer) else Swapping(i))
    case Storing(i, _) => w.(turn := Swapping(i))
    case Swapping(i) => w.(turn := if w.l.cells[i] >= 0 then Dropping(i) else AfterMember(w, i))
    case Dropping(i) => w.(turn := AfterMember(w, i))
  }

  function Do(w: World, m: Move): World
    requires Allowed(w, m)
  {
    var l := if Acts(w, m).Some? then Apply(w.l, Acts(w, m).value) else w.l;
    match m
    case Inner(_) => w.(l := l)
    case Connect(source) =>
      w.(launched := true, source := source, turn := if |w.l.pcs| > 0 then Testing(0) else Resting,
         tries := seq(|w.l.pcs|, _ => 0))
    case Next(answer) => Turned(w, answer).(l := l)
    case ResetLaunch => w.(launched := false)
    case StopGroup => if w.stopped then w else w.(stopped := true, launched := false)
  }

  ghost predicate Run(worlds: seq<World>, moves: seq<Move>) {
    && |worlds| == |moves| + 1
    && forall i :: 0 <= i < |moves| ==> Allowed(worlds[i], moves[i]) && worlds[i + 1] == Do(worlds[i], moves[i])
  }

  // ---- The invariant ----

  /** The pass has tried members before its own once at most, and those after it not at all. */
  predicate Counted(w: World) {
    && (forall j :: 0 <= j < |w.tries| ==> w.tries[j] <= 1)
    && (w.turn != Resting ==>
          && (forall j :: w.turn.i < j < |w.tries| ==> w.tries[j] == 0)
          && (w.turn.Testing? || w.turn.Launching? ==> w.turn.i < |w.tries| && w.tries[w.turn.i] == 0))
  }

  /** The descriptor the pass is about to close is the listening socket of the member whose turn it is. */
  predicate DropsOwn(w: World) {
    w.turn.Dropping? ==>
      && |w.l.agents| > PASS && w.l.agents[PASS].Closing?
      && var fd := w.l.agents[PASS].fd;
         fd in w.l.table && w.l.table[fd] < |w.l.socks| && w.l.socks[w.l.table[fd]].kind == Listener(w.turn.i)
  }

  ghost predicate Good(w: World) {
    && Inv(w.l) && |w.tries| == |w.l.pcs| && |w.l.agents| > PASS
    && (w.turn != Resting ==>
          && w.launched && w.turn.i < |w.l.pcs| && w.source < |w.l.pcs| && w.l.pcs[w.source] == Serve)
    && (!w.turn.Dropping? ==> w.l.agents[PASS].Free?)
    && (w.turn.Storing? ==> w.turn.pid > 0)
    && Counted(w) && DropsOwn(w)
  }

  ghost predicate Start(w: World) {
    && Initial(w.l) && |w.l.agents| > PASS && w.turn == Resting && !w.launched && !w.stopped
    && w.tries == seq(|w.l.pcs|, _ => 0)
  }

  // ---- Every move keeps it ----

  /** A step that is not the pass's leaves its agent alone. */
  lemma AgentKept(s: State, step: Step)
    requires Enabled(s, step) && |s.agents| > PASS && !((step.AgentSwap? || step.AgentClose?) && step.a == PASS)
    ensures |Apply(s, step).agents| == |s.agents| && Apply(s, step).agents[PASS] == s.agents[PASS]
    ensures |Apply(s, step).pcs| == |s.pcs|
  {
    hide Open, Close;
    match step {
      case Thread(r, answer) =>
        ThreadKeepsShape(s, r, answer);
        ThreadKeepsAgents(s, r, answer);
      case AgentClose(a) =>
        CloseKeeps(s.(agents := s.agents[a := Free]), s.agents[a].fd);
      case OpenForeign(fd) =>
        OpenKeeps(s, fd, Foreign);
      case CloseForeign(fd) =>
        CloseKeeps(s, fd);
      case _ =>
    }
  }

  lemma CloseKeeps(s: State, fd: nat)
    ensures Close(s, fd).agents == s.agents && Close(s, fd).pcs == s.pcs && Close(s, fd).cells == s.cells
    ensures Close(s, fd).pids == s.pids
  {
  }

  lemma OpenKeeps(s: State, fd: nat, kind: Kind)
    ensures Open(s, fd, kind).agents == s.agents && Open(s, fd, kind).pcs == s.pcs && Open(s, fd, kind).cells == s.cells
    ensures Open(s, fd, kind).pids == s.pids
  {
  }

  lemma ThreadKeepsAgents(s: State, r: nat, answer: int)
    requires Enabled(s, Thread(r, answer))
    ensures ThreadStep(s, r, answer).agents == s.agents
  {
    hide Open, Close;
    CloseKeeps(s, if s.pcs[r].Discard? || s.pcs[r].LaunchClose? || s.pcs[r].SwapClose? then s.pcs[r].fd else 0);
    OpenKeeps(s, if answer >= 0 then answer else 0, Listener(r));
  }

  /** A socket in the table, by its descriptor. */
  predicate Names(s: State, fd: nat, kind: Kind) {
    fd in s.table && s.table[fd] < |s.socks| && s.socks[s.table[fd]].kind == kind
  }

  lemma CloseNames(s: State, fd: nat, g: nat, kind: Kind)
    requires Names(s, g, kind) && g != fd
    ensures Names(Close(s, fd), g, kind)
  {
  }

  lemma OpenNames(s: State, fd: nat, other: Kind, g: nat, kind: Kind)
    requires Names(s, g, kind) && fd !in s.table
    ensures Names(Open(s, fd, other), g, kind)
  {
  }

  /** What the pass holds stays what it is while others act: nobody else closes it. */
  lemma HeldKept(s: State, step: Step, kind: Kind)
    requires Inv(s) && Enabled(s, step) && |s.agents| > PASS && s.agents[PASS].Closing? && kind.Listener?
    requires !((step.AgentSwap? || step.AgentClose?) && step.a == PASS) && Names(s, s.agents[PASS].fd, kind)
    ensures Names(Apply(s, step), s.agents[PASS].fd, kind)
  {
    hide Files, Listening, Open, Close;
    var g := s.agents[PASS].fd;
    assert Fd(s, InAgent(PASS)) == g;
    match step {
      case Thread(r, answer) =>
        ThreadNames(s, r, answer, g, kind);
      case AgentClose(a) =>
        assert Fd(s, InAgent(a)) == s.agents[a].fd;
        CloseNames(s.(agents := s.agents[a := Free]), s.agents[a].fd, g, kind);
      case OpenForeign(fd) =>
        OpenNames(s, fd, Foreign, g, kind);
      case CloseForeign(fd) =>
        CloseNames(s, fd, g, kind);
      case _ =>
    }
  }

  lemma ThreadNames(s: State, r: nat, answer: int, g: nat, kind: Kind)
    requires Inv(s) && Enabled(s, Thread(r, answer)) && Names(s, g, kind) && Fd(s, InAgent(PASS)) == g
    ensures Names(ThreadStep(s, r, answer), g, kind)
  {
    hide Files, Listening, Open, Close;
    assert Carried(s.pcs[r]) == Fd(s, InThread(r));
    match s.pcs[r] {
      case Socket =>
        if answer >= 0 {
          OpenNames(s, answer, Listener(r), g, kind);
        }
      case Discard(fd) =>
        CloseNames(s, fd, g, kind);
      case LaunchClose(fd) =>
        CloseNames(s, fd, g, kind);
      case SwapClose(fd) =>
        CloseNames(s, fd, g, kind);
      case _ =>
    }
  }

  lemma InnerGood(w: World, step: Step)
    requires Good(w) && Allowed(w, Inner(step))
    ensures Good(Do(w, Inner(step)))
  {
    hide Inv, Apply;
    StepInv(w.l, step);
    AgentKept(w.l, step);
    if w.turn.Dropping? {
      HeldKept(w.l, step, Listener(w.turn.i));
    }
    if w.turn != Resting {
      SourceWaits(w, step);
    }
  }

  /** The thread whose connection the pass serves stays where it is. */
  lemma SourceWaits(w: World, step: Step)
    requires Good(w) && Allowed(w, Inner(step)) && w.turn != Resting
    ensures w.source < |Apply(w.l, step).pcs| && Apply(w.l, step).pcs[w.source] == Serve
  {
    hide Files, Holders, Apply;
    OthersLeavePc(w.l, step, w.source);
  }

  lemma SwapGood(w: World, answer: int)
    requires Good(w) && Allowed(w, Next(answer)) && w.turn.Swapping?
    ensures Good(Do(w, Next(answer)))
  {
    hide Files, Listening, Holders;
    StepInv(w.l, AgentSwap(PASS, w.turn.i));
    CellNames(w.l, w.turn.i);
  }

  lemma DropGood(w: World, answer: int)
    requires Good(w) && Allowed(w, Next(answer)) && w.turn.Dropping?
    ensures Good(Do(w, Next(answer)))
  {
    hide Files, Listening, Holders, Close;
    StepInv(w.l, AgentClose(PASS));
    CloseKeeps(w.l.(agents := w.l.agents[PASS := Free]), w.l.agents[PASS].fd);
  }

  lemma LaunchGood(w: World, answer: int)
    requires Good(w) && Allowed(w, Next(answer)) && !w.turn.Swapping? && !w.turn.Dropping?
    ensures Good(Do(w, Next(answer)))
  {
    hide Files, Listening, Holders;
    if w.turn.Storing? {
      StepInv(w.l, SetPid(w.turn.i, w.turn.pid));
    }
  }

  lemma NextGood(w: World, answer: int)
    requires Good(w) && Allowed(w, Next(answer))
    ensures Good(Do(w, Next(answer)))
  {
    hide Good, Allowed, Do;
    if w.turn.Swapping? {
      SwapGood(w, answer);
    } else if w.turn.Dropping? {
      DropGood(w, answer);
    } else {
      LaunchGood(w, answer);
    }
  }

  lemma CellNames(s: State, i: nat)
    requires Inv(s) && i < |s.cells|
    ensures s.cells[i] >= 0 ==> Names(s, s.cells[i], Listener(i))
  {
    assert Fd(s, InCell(i)) == s.cells[i];
  }

  lemma MoveGood(w: World, m: Move)
    requires Good(w) && Allowed(w, m)
    ensures Good(Do(w, m))
  {
    hide Good, Allowed, Do;
    match m {
      case Inner(step) =>
        InnerGood(w, step);
      case Next(answer) =>
        NextGood(w, answer);
      case _ =>
        FlagsGood(w, m);
    }
  }

  lemma FlagsGood(w: World, m: Move)
    requires Good(w) && Allowed(w, m) && !m.Inner? && !m.Next?
    ensures Good(Do(w, m))
  {
    hide Inv;
  }

  lemma StartGood(w: World)
    requires Start(w)
    ensures Good(w)
  {
    hide Inv;
    InitialInv(w.l);
  }

  /** In every run from the start the invariant holds: the members' sockets and the pass are in order. */
  lemma {:induction false} RunGood(worlds: seq<World>, moves: seq<Move>, k: nat)
    requires Run(worlds, moves) && Start(worlds[0]) && k < |worlds|
    ensures Good(worlds[k])
    decreases k
  {
    hide Good, Allowed, Do;
    if k == 0 {
      StartGood(worlds[0]);
    } else {
      RunGood(worlds, moves, k - 1);
      MoveGood(worlds[k - 1], moves[k - 1]);
    }
  }

  // ---- What the pass does ----

  /** Operations the pass still has to make, at most. */
  function Left(turn: Turn, members: nat): int {
    match turn
    case Resting => 0
    case Testing(i) => 5 * (members - i)
    case Launching(i) => 5 * (members - i) - 1
    case Storing(i, _) => 5 * (members - i) - 2
    case Swapping(i) => 5 * (members - i) - 3
    case Dropping(i) => 5 * (members - i) - 4
  }

  /** Whatever others do, the pass can go on, and each of its operations brings it closer to its end. */
  lemma PassGoesOn(w: World, answer: int)
    requires Good(w) && w.turn != Resting
    ensures Allowed(w, Next(answer))
    ensures 0 <= Left(Do(w, Next(answer)).turn, |w.l.pcs|) < Left(w.turn, |w.l.pcs|)
  {
    hide Files, Holders, Listening, Apply;
  }

  /** The pass closes a descriptor it found once: the open, never closed socket of the member, held by nobody else. */
  lemma ClosesFound(w: World, answer: int, q: Place)
    requires Good(w) && w.turn.Dropping?
    ensures var fd := w.l.agents[PASS].fd;
      && Names(w.l, fd, Listener(w.turn.i)) && w.l.socks[w.l.table[fd]].closes == 0
      && (Fd(w.l, q) == fd ==> q == InAgent(PASS))
      && Allowed(w, Next(answer)) && fd !in Do(w, Next(answer)).l.table
      && Do(w, Next(answer)).l.socks[w.l.table[fd]].closes == 1
  {
    hide Files, Holders, Listening;
    CloseIsExact(w.l, AgentClose(PASS), q);
  }

  /** The pass tries to launch a member only when it has found it without a backend, and not a second time. */
  lemma LaunchesFound(w: World, m: Move)
    requires Good(w) && Allowed(w, m) && Do(w, m).turn.Launching? && !w.turn.Launching?
    ensures w.turn == Testing(Do(w, m).turn.i) && w.l.pids[w.turn.i] == 0 && w.tries[w.turn.i] == 0
  {
  }

  /** The pid of a launch that works is stored, and nothing else is. */
  lemma StoresLaunched(w: World, answer: int)
    requires Good(w) && w.turn != Resting
    ensures var t := Do(w, Next(answer));
      && (w.turn.Launching? && answer > 0 ==> t.turn == Storing(w.turn.i, answer))
      && (t.turn.Storing? ==> w.turn.Launching? && t.turn == Storing(w.turn.i, answer) && answer > 0)
      && t.l.pids == if w.turn.Storing? then w.l.pids[w.turn.i := w.turn.pid] else w.l.pids
  {
    NextLeaves(w, answer);
  }

  /** No member is skipped: its turn ends with the exchange or the close, and the next one's comes; the last ends it. */
  lemma TurnsInOrder(w: World, answer: int)
    requires Good(w) && w.turn != Resting
    ensures var i, t := w.turn.i, Do(w, Next(answer)).turn;
      && (t != Resting ==> t.i == i || t == Testing(i + 1))
      && (t == Resting || t.i != i ==> w.turn.Dropping? || (w.turn.Swapping? && w.l.cells[i] < 0))
      && (t == Resting <==> i + 1 == |w.l.pcs| && (w.turn.Dropping? || (w.turn.Swapping? && w.l.cells[i] < 0)))
  {
    NextLeaves(w, answer);
  }

  lemma TriesAtMostOnce(w: World, i: nat)
    requires Good(w) && i < |w.tries|
    ensures w.tries[i] <= 1
  {
  }

  /** The move allows another pass. */
  predicate Rearms(w: World, m: Move) {
    m.ResetLaunch? || (m.StopGroup? && !w.stopped)
  }

  /** And does so: the next connection starts one. */
  lemma RearmsAllow(w: World, m: Move, source: nat)
    requires Good(w) && Allowed(w, m) && Rearms(w, m) && source < |w.l.pcs| && w.l.pcs[source] == Serve
    ensures Allowed(Do(w, m), Connect(source)) && Do(Do(w, m), Connect(source)).launched
    ensures Do(Do(w, m), Connect(source)).turn == Testing(0)
  {
    hide Inv;
  }

  lemma {:induction false} StaysLaunched(worlds: seq<World>, moves: seq<Move>, i: nat, k: nat)
    requires Run(worlds, moves) && i <= k < |worlds| && worlds[i].launched
    requires forall j :: i <= j < k ==> !Rearms(worlds[j], moves[j])
    ensures worlds[k].launched
    decreases k
  {
    hide Allowed, Apply;
    if i < k {
      StaysLaunched(worlds, moves, i, k - 1);
    }
  }

  /** Between two passes of any run the group has been reset, or stopped for the first time. */
  lemma PassesApart(worlds: seq<World>, moves: seq<Move>, i: nat, k: nat)
    requires Run(worlds, moves) && i < k < |moves| && moves[i].Connect? && moves[k].Connect?
    ensures exists j :: i < j < k && Rearms(worlds[j], moves[j])
  {
    hide Rearms, Apply;
    if forall j :: i + 1 <= j < k ==> !Rearms(worlds[j], moves[j]) {
      StaysLaunched(worlds, moves, i + 1, k);
    }
  }

  // ---- When a member holds its port again ----

  /** Past the test of the pid, and before the store of a descriptor it has or may still get. */
  predicate InWindow(pc: Pc) {
    pc.OutsideTest? || pc.Socket? || pc.Bind? || (pc.Store? && pc.value >= 0)
  }

  /** Some n moves, with the member's backend alive all along, end with the member holding its port. */
  ghost predicate HoldsWithin(w: World, i: nat, n: nat)
    decreases n
  {
    && i < |w.l.pids| && i < |w.l.cells| && w.l.pids[i] > 0
    && (w.l.cells[i] >= 0 || (n > 0 && exists m :: Allowed(w, m) && HoldsWithin(Do(w, m), i, n - 1)))
  }

  /** The member has no port, and its thread is not in the window. */
  predicate Gone(s: State, i: nat) {
    i < |s.pcs| && i < |s.cells| && s.cells[i] < 0 && !InWindow(s.pcs[i])
  }

  lemma OwnStepGone(s: State, i: nat, answer: int)
    requires Enabled(s, Thread(i, answer)) && Gone(s, i) && s.pids[i] > 0
    ensures Gone(ThreadStep(s, i, answer), i)
  {
    hide Open, Close;
    CloseKeeps(s, if s.pcs[i].Discard? || s.pcs[i].LaunchClose? || s.pcs[i].SwapClose? then s.pcs[i].fd else 0);
  }

  lemma OtherThreadGone(s: State, r: nat, i: nat, answer: int)
    requires Enabled(s, Thread(r, answer)) && Gone(s, i) && r != i
    ensures Gone(ThreadStep(s, r, answer), i)
  {
    hide Open, Close, InWindow;
    CloseKeeps(s, if s.pcs[r].Discard? || s.pcs[r].LaunchClose? || s.pcs[r].SwapClose? then s.pcs[r].fd else 0);
    OpenKeeps(s, if answer >= 0 then answer else 0, Listener(r));
  }

  /** Outside the window, while the backend lives, no step of anybody gives the member its port. */
  lemma StepGone(s: State, step: Step, i: nat)
    requires Enabled(s, step) && Gone(s, i) && s.pids[i] > 0
    ensures Gone(Apply(s, step), i)
  {
    hide Open, Close, ThreadStep;
    match step {
      case Thread(r, answer) =>
        if r == i {
          OwnStepGone(s, i, answer);
        } else {
          OtherThreadGone(s, r, i, answer);
        }
      case AgentClose(a) =>
        CloseKeeps(s.(agents := s.agents[a := Free]), s.agents[a].fd);
      case OpenForeign(fd) =>
        OpenKeeps(s, fd, Kind.Foreign);
      case CloseForeign(fd) =>
        CloseKeeps(s, fd);
      case _ =>
    }
  }

  lemma MoveGone(w: World, m: Move, i: nat)
    requires Allowed(w, m) && Gone(w.l, i) && i < |w.l.pids| && w.l.pids[i] > 0
    ensures Gone(Do(w, m).l, i)
  {
    hide Enabled, Apply, Gone;
    if Acts(w, m).Some? {
      StepGone(w.l, Acts(w, m).value, i);
    }
  }

  lemma {:induction false} GoneStaysGone(w: World, i: nat, n: nat)
    requires Gone(w.l, i)
    ensures !HoldsWithin(w, i, n)
    decreases n
  {
    hide Allowed, Do, InWindow;
    if i < |w.l.pids| && w.l.pids[i] > 0 && n > 0 {
      forall m | Allowed(w, m)
        ensures !HoldsWithin(Do(w, m), i, n - 1)
      {
        MoveGone(w, m, i);
        GoneStaysGone(Do(w, m), i, n - 1);
      }
    }
  }

  lemma HoldsLater(w: World, m: Move, i: nat, n: nat)
    requires Allowed(w, m) && i < |w.l.pids| && i < |w.l.cells| && w.l.pids[i] > 0 && HoldsWithin(Do(w, m), i, n)
    ensures HoldsWithin(w, i, n + 1)
  {
    hide Allowed, Do;
  }

  /** One step of the member's own thread. */
  lemma OwnMove(w: World, i: nat, answer: int)
    requires Good(w) && i < |w.l.pcs| && InWindow(w.l.pcs[i])
    requires w.l.pcs[i] == Socket && answer >= 0 ==> answer !in w.l.table
    ensures Allowed(w, Inner(Thread(i, answer)))
    ensures Do(w, Inner(Thread(i, answer))) == w.(l := ThreadStep(w.l, i, answer))
  {
    hide Files, Holders, Listening, ThreadStep;
  }

  lemma StoreHolds(w: World, i: nat)
    requires Good(w) && i < |w.l.pcs| && w.l.pcs[i].Store? && w.l.pcs[i].value >= 0 && w.l.pids[i] > 0
    ensures HoldsWithin(w, i, 1)
  {
    hide Files, Holders, Listening;
    OwnMove(w, i, 0);
    assert HoldsWithin(Do(w, Inner(Thread(i, 0))), i, 0);
  }

  lemma BindHolds(w: World, i: nat)
    requires Good(w) && i < |w.l.pcs| && w.l.pcs[i].Bind? && w.l.pids[i] > 0
    ensures HoldsWithin(w, i, 2)
  {
    hide Good, HoldsWithin;
    GoodShape(w);
    OwnMove(w, i, 0);
    MoveGood(w, Inner(Thread(i, 0)));
    StoreHolds(Do(w, Inner(Thread(i, 0))), i);
    HoldsLater(w, Inner(Thread(i, 0)), i, 1);
  }

  lemma GoodShape(w: World)
    requires Good(w)
    ensures Shaped(w.l)
  {
    hide Files, Holders, Listening;
  }

  lemma SocketHolds(w: World, i: nat)
    requires Good(w) && i < |w.l.pcs| && w.l.pcs[i] == Socket && w.l.pids[i] > 0
    ensures HoldsWithin(w, i, 3)
  {
    hide Good, HoldsWithin;
    GoodShape(w);
    var fd := ListenThread.Unused(w.l.table.Keys);
    OwnMove(w, i, fd);
    MoveGood(w, Inner(Thread(i, fd)));
    BindHolds(Do(w, Inner(Thread(i, fd))), i);
    HoldsLater(w, Inner(Thread(i, fd)), i, 2);
  }

  lemma WindowHolds(w: World, i: nat)
    requires Good(w) && i < |w.l.pcs| && InWindow(w.l.pcs[i]) && w.l.pids[i] > 0
    ensures exists n :: HoldsWithin(w, i, n)
  {
    hide Good, HoldsWithin;
    GoodShape(w);
    match w.l.pcs[i] {
      case OutsideTest =>
        OwnMove(w, i, 0);
        MoveGood(w, Inner(Thread(i, 0)));
        SocketHolds(Do(w, Inner(Thread(i, 0))), i);
        HoldsLater(w, Inner(Thread(i, 0)), i, 3);
      case Socket =>
        SocketHolds(w, i);
      case Bind(_) =>
        BindHolds(w, i);
      case Store(_) =>
        StoreHolds(w, i);
    }
  }

  /**
   After the pass's exchange at a member whose backend lives, some run in which that backend goes on living
   gives the member its port again exactly when its thread was, at that exchange, past its test of the pid
   and before its store.
   */
  lemma PortHeldExactly(w: World, answer: int)
    requires Good(w) && w.turn.Swapping? && w.l.pids[w.turn.i] > 0
    ensures Allowed(w, Next(answer))
    ensures (exists n :: HoldsWithin(Do(w, Next(answer)), w.turn.i, n)) <==> InWindow(w.l.pcs[w.turn.i])
  {
    hide Good, HoldsWithin, InWindow;
    GoodShape(w);
    PassGoesOn(w, answer);
    MoveGood(w, Next(answer));
    var i, t := w.turn.i, Do(w, Next(answer));
    assert t.l.cells[i] == -1 && t.l.pcs == w.l.pcs && t.l.pids == w.l.pids by {
      SwapLeaves(w, answer);
    }
    if InWindow(w.l.pcs[i]) {
      WindowHolds(t, i);
    } else if n :| HoldsWithin(t, i, n) {
      GoneStaysGone(t, i, n);
    }
  }

  lemma SwapLeaves(w: World, answer: int)
    requires Good(w) && w.turn.Swapping? && Allowed(w, Next(answer))
    ensures var t := Do(w, Next(answer));
            t.l.cells[w.turn.i] == -1 && t.l.pcs == w.l.pcs && t.l.pids == w.l.pids
  {
    hide Files, Holders, Listening;
  }

  // ---- A run that misses a member ----

  /** The pass is over, and the second member holds its port beside the backend launched for it. */
  predicate Missed(w: World) {
    && w.turn == Resting && w.launched && |w.l.pids| > 1 && |w.l.cells| > 1
    && |w.tries| > 1 && w.tries[1] == 1 && w.l.pids[1] > 0 && w.l.cells[1] >= 0
  }

  /** Some n moves lead there. */
  ghost predicate Misses(w: World, n: nat)
    decreases n
  {
    Missed(w) || (n > 0 && exists m :: Allowed(w, m) && Misses(Do(w, m), n - 1))
  }

  lemma MissesLater(w: World, m: Move, n: nat)
    requires Allowed(w, m) && Misses(Do(w, m), n)
    ensures Misses(w, n + 1)
  {
    hide Allowed, Do, Missed;
  }

  /** Two members, and the second one's thread about to store its descriptor. */
  predicate AboutToStore(w: World) {
    |w.l.pcs| == 2 && |w.l.pids| == 2 && w.l.pcs[1].Store? && w.l.pcs[1].value >= 0
  }

  lemma MissedByStore(w: World)
    requires Good(w) && AboutToStore(w) && w.turn == Resting && w.launched && w.l.pids[1] > 0 && w.tries[1] == 1
    ensures Misses(w, 1)
  {
    hide Files, Holders, Listening;
    OwnMove(w, 1, 0);
    assert Missed(Do(w, Inner(Thread(1, 0))));
    MissesLater(w, Inner(Thread(1, 0)), 0);
  }

  /** The pids after an operation of the pass. */
  function PidsAfter(w: World): seq<int> {
    if w.turn.Storing? && w.turn.i < |w.l.pids| then w.l.pids[w.turn.i := w.turn.pid] else w.l.pids
  }

  /** What an operation of the pass leaves alone. */
  lemma NextLeaves(w: World, answer: int)
    requires Good(w) && w.turn != Resting
    ensures Allowed(w, Next(answer)) && Good(Do(w, Next(answer)))
    ensures var t := Do(w, Next(answer));
      && t.launched == w.launched && t.tries == Turned(w, answer).tries && t.turn == Turned(w, answer).turn
      && t.l.pcs == w.l.pcs && t.l.pids == PidsAfter(w)
  {
    hide Files, Holders, Listening, Close;
    PassGoesOn(w, answer);
    NextGood(w, answer);
    if w.turn.Dropping? {
      CloseKeeps(w.l.(agents := w.l.agents[PASS := Free]), w.l.agents[PASS].fd);
    }
  }

  ghost predicate CanMiss(w: World) {
    exists n :: Misses(w, n)
  }

  lemma CanMissLater(w: World, m: Move)
    requires Allowed(w, m) && CanMiss(Do(w, m))
    ensures CanMiss(w)
  {
    hide Allowed, Do, Misses;
    var n :| Misses(Do(w, m), n);
    MissesLater(w, m, n);
  }

  /** The pass is on its way to launching the second member, or has launched it. */
  predicate OnCourse(w: World) {
    && AboutToStore(w) && w.launched && |w.tries| == 2
    && (w.turn != Resting && w.turn.i == 0 ==> w.l.pids[1] == 0)
    && (w.turn == Testing(1) || w.turn == Launching(1) ==> w.l.pids[1] == 0)
    && (w.turn.Storing? && w.turn.i == 1 ==> w.tries[1] == 1)
    && (w.turn == Resting || w.turn == Swapping(1) || w.turn == Dropping(1) ==> w.l.pids[1] > 0 && w.tries[1] == 1)
  }

  lemma {:induction false} PassMisses(w: World)
    requires Good(w) && OnCourse(w)
    ensures CanMiss(w)
    decreases Left(w.turn, 2)
  {
    hide Good, Allowed, Do, Misses, CanMiss;
    if w.turn == Resting {
      MissedByStore(w);
      CanMissNow(w, 1);
    } else {
      PassGoesOn(w, 1);
      NextLeaves(w, 1);
      StaysOnCourse(w);
      PassMisses(Do(w, Next(1)));
      CanMissLater(w, Next(1));
    }
  }

  lemma CanMissNow(w: World, n: nat)
    requires Misses(w, n)
    ensures CanMiss(w)
  {
  }

  lemma StaysOnCourse(w: World)
    requires Good(w) && OnCourse(w) && w.turn != Resting && Allowed(w, Next(1))
    ensures OnCourse(Do(w, Next(1)))
  {
    hide Files, Holders, Listening, Do, Inv;
    NextLeaves(w, 1);
    GoodShape(w);
  }

  /** Moves a thread has to make: the first member's until it serves a connection, the second's until its store. */
  function Away(pc: Pc): int {
    match pc
    case Top => 11
    case GroupTest => 10
    case PidTest => 9
    case OutsideTest => 8
    case Socket => 7
    case Bind(_) => 6
    case Store(value) => if value >= 0 then 5 else -1
    case Check => 4
    case Choose => 3
    case AcceptTest => 2
    case Accept => 1
    case Serve => 0
    case _ => -1
  }

  /** A member that comes up: on its way, nothing stops it, and behind the store it has its port. */
  predicate ComesUp(s: State, r: nat) {
    && Shaped(s) && r < |s.pcs| && Away(s.pcs[r]) >= 0 && !s.stops[r] && !s.released[r] && s.pids[r] == 0
    && (Away(s.pcs[r]) <= 4 ==> s.cells[r] >= 0)
  }

  /** What the system answers on that way. */
  lemma ComesOn(s: State, r: nat, answer: int)
    requires ComesUp(s, r) && Away(s.pcs[r]) > 0 && Enabled(s, Thread(r, answer))
    requires if s.pcs[r] == Socket then answer >= 0 else answer == 0
    ensures var t := ThreadStep(s, r, answer);
            ComesUp(t, r) && Away(t.pcs[r]) == Away(s.pcs[r]) - 1
  {
    hide Open;
    OpenKeeps(s, if answer >= 0 then answer else 0, Listener(r));
    OpenKeepsFlags(s, if answer >= 0 then answer else 0, Listener(r));
  }

  lemma OpenKeepsFlags(s: State, fd: nat, kind: Kind)
    ensures var t := Open(s, fd, kind); t.stops == s.stops && t.released == s.released && t.rearms == s.rearms
  {
  }

  lemma OtherComesUp(s: State, r: nat, q: nat, answer: int)
    requires ComesUp(s, q) && ComesUp(s, r) && r != q && Away(s.pcs[r]) > 0 && Enabled(s, Thread(r, answer))
    ensures ComesUp(ThreadStep(s, r, answer), q) && ThreadStep(s, r, answer).pcs[q] == s.pcs[q]
  {
    hide Open, Away;
    AwayMoves(s.pcs[r]);
    OpenKeeps(s, if answer >= 0 then answer else 0, Listener(r));
    OpenKeepsFlags(s, if answer >= 0 then answer else 0, Listener(r));
  }

  lemma AwayMoves(pc: Pc)
    ensures Away(pc) > 0 ==> !pc.Discard? && !pc.LaunchClose? && !pc.SwapClose? && !pc.StorePid?
    ensures Away(pc) > 0 ==> !pc.Swap? && !pc.LaunchSwap? && !pc.Exited? && !pc.Serve?
  {
  }

  /** Both members come up, the second no further than its store, and no pass has run. */
  predicate ComingUp(w: World) {
    && w.turn == Resting && !w.launched && |w.l.pcs| == 2 && ComesUp(w.l, 0) && ComesUp(w.l, 1) && Away(w.l.pcs[1]) >= 5
  }

  lemma ThreadAllowed(w: World, r: nat) returns (answer: int)
    requires Good(w) && ComingUp(w) && r < 2 && Away(w.l.pcs[r]) > 0
    ensures Enabled(w.l, Thread(r, answer)) && Allowed(w, Inner(Thread(r, answer)))
    ensures Do(w, Inner(Thread(r, answer))) == w.(l := ThreadStep(w.l, r, answer))
    ensures if w.l.pcs[r] == Socket then answer >= 0 else answer == 0
  {
    hide Good, ThreadStep, Away;
    AwayMoves(w.l.pcs[r]);
    answer := 0;
    if w.l.pcs[r] == Socket {
      answer := ListenThread.Unused(w.l.table.Keys);
    }
  }

  lemma ComesCloser(w: World, r: nat, answer: int)
    requires ComingUp(w) && r < 2 && Away(w.l.pcs[r]) > (if r == 1 then 5 else 0) && Enabled(w.l, Thread(r, answer))
    requires if w.l.pcs[r] == Socket then answer >= 0 else answer == 0
    ensures var t := w.(l := ThreadStep(w.l, r, answer));
            ComingUp(t) && Away(t.l.pcs[r]) == Away(w.l.pcs[r]) - 1 && t.l.pcs[1 - r] == w.l.pcs[1 - r]
  {
    hide ThreadStep, Away, ComesUp;
    ComesOn(w.l, r, answer);
    OtherComesUp(w.l, r, 1 - r, answer);
    ThreadKeepsPcs(w.l, r, answer);
  }

  lemma ThreadKeepsPcs(s: State, r: nat, answer: int)
    requires Enabled(s, Thread(r, answer))
    ensures |ThreadStep(s, r, answer).pcs| == |s.pcs|
  {
    hide ThreadStep;
    ThreadKeepsShape(s, r, answer);
  }

  lemma ConnectMisses(w: World)
    requires Good(w) && ComingUp(w) && w.l.pcs[0] == Serve && Away(w.l.pcs[1]) == 5
    ensures CanMiss(w)
  {
    hide Good, Misses, CanMiss;
    MoveGood(w, Connect(0));
    PassMisses(Do(w, Connect(0)));
    CanMissLater(w, Connect(0));
  }

  lemma {:induction false} ComingUpMisses(w: World)
    requires Good(w) && ComingUp(w)
    ensures CanMiss(w)
    decreases Away(w.l.pcs[0]) + Away(w.l.pcs[1])
  {
    hide Good, Allowed, Do, Away, Misses, CanMiss, ThreadStep;
    if Away(w.l.pcs[1]) == 5 && Away(w.l.pcs[0]) == 0 {
      OnlyServe(w.l.pcs[0]);
      ConnectMisses(w);
    } else {
      var r := if Away(w.l.pcs[1]) > 5 then 1 else 0;
      var answer := ThreadAllowed(w, r);
      var m := Inner(Thread(r, answer));
      ComesCloser(w, r, answer);
      MoveGood(w, m);
      ComingUpMisses(Do(w, m));
      CanMissLater(w, m);
    }
  }

  lemma OnlyServe(pc: Pc)
    ensures Away(pc) == 0 ==> pc == Serve
  {
  }

  /**
   The promise fails: from every start of a group of two, a run leads to the end of a pass after which the
   second member holds its port although the pass has launched its backend.
   */
  lemma PassCanMiss(w: World)
    requires Start(w) && |w.l.pcs| == 2
    requires forall r :: 0 <= r < 2 ==> !w.l.stops[r] && !w.l.released[r] && w.l.pids[r] == 0
    ensures exists n :: Misses(w, n)
  {
    hide Good, Misses;
    StartGood(w);
    ComingUpMisses(w);
  }
}
