/**
 A port group's methods as src/port_group.cpp runs them, beside its members' own threads.

 Between any two operations of a loop over the members the threads may change any pid and
 any descriptor, so what a method does is stated twice: as the events it makes of the
 pids and descriptors it sees, whatever the threads do, and as the state it leaves when
 they are quiet.  What the interleavings make of that is the subject of GroupPass.
 */
module PortGroup {
  import opened Text

  /** What a group touches of a member: its backend's pid or 0, its listening descriptor or -1, its stop flag. */
  datatype Member = Member(pid: int, fd: int, stop: bool)

  /** What a loop does at member i, in order of time. */
  datatype Event =
    | Launched(i: nat, pid: int)
    | LaunchFailed(i: nat)
    | Stored(i: nat, pid: int)
    | StopSet(i: nat)
    | Swapped(i: nat, fd: int)
    | Closed(i: nat, fd: int)
    | Killed(i: nat, pid: int)
    | Joined(i: nat)

  /** What a loop reads at a member: the pid it tests and the descriptor its exchange finds. */
  datatype Seen = Seen(pid: int, fd: int)

  /** An exchange(-1) that finds `fd`, and the close. */
  function ReleaseEvents(i: nat, fd: int): seq<Event> {
    [Swapped(i, fd)] + if fd >= 0 then [Closed(i, fd)] else []
  }

  /** onConnection at a member; `answer` is what its launch returns. */
  function TurnEvents(i: nat, seen: Seen, answer: int): seq<Event> {
    var launch := if answer > 0 then [Launched(i, answer), Stored(i, answer)] else [LaunchFailed(i)];
    (if seen.pid != 0 then [] else launch) + ReleaseEvents(i, seen.fd)
  }

  function PassEvents(seen: seq<Seen>, answers: seq<int>): seq<Event>
    requires |seen| <= |answers|
  {
    if seen == [] then []
    else
      var n := |seen| - 1;
      PassEvents(seen[..n], answers) + TurnEvents(n, seen[n], answers[n])
  }

  /** PortRelay::stop at a member; `alive` is whether its backend is found alive. */
  function StopTurnEvents(i: nat, seen: Seen, alive: bool): seq<Event> {
    [StopSet(i)] + ReleaseEvents(i, seen.fd) + (if seen.pid > 0 && alive then [Killed(i, seen.pid)] else [])
    + [Joined(i)]
  }

  function StopEvents(seen: seq<Seen>, alive: seq<bool>): seq<Event>
    requires |seen| <= |alive|
  {
    if seen == [] then []
    else
      var n := |seen| - 1;
      StopEvents(seen[..n], alive) + StopTurnEvents(n, seen[n], alive[n])
  }

  /** PortRelay::signalStop at a member. */
  function SignalEvents(fds: seq<int>): seq<Event> {
    if fds == [] then []
    else
      var n := |fds| - 1;
      SignalEvents(fds[..n]) + [StopSet(n)] + ReleaseEvents(n, fds[n])
  }

  /** A quiet pass leaves no port held, and every member with a backend where there was none and a launch worked. */
  predicate Passed(before: seq<Member>, after: seq<Member>, answers: seq<int>)
    requires |before| <= |answers|
  {
    && |after| == |before|
    && forall i :: 0 <= i < |before| ==>
         && after[i].fd == -1 && after[i].stop == before[i].stop
         && after[i].pid == if before[i].pid == 0 && answers[i] > 0 then answers[i] else before[i].pid
  }

  /** A quiet stop leaves no port held and every flag set. */
  predicate Stopped(before: seq<Member>, after: seq<Member>) {
    && |after| == |before|
    && forall i :: 0 <= i < |before| ==> after[i].fd == -1 && after[i].stop && after[i].pid == before[i].pid
  }

  /** What is seen when nothing interferes. */
  predicate Sees(seen: seq<Seen>, members: seq<Member>) {
    && |seen| == |members|
    && forall i :: 0 <= i < |seen| ==> seen[i].pid == members[i].pid && seen[i].fd == members[i].fd
  }

  predicate KeepsStops(before: seq<Member>, after: seq<Member>) {
    |after| == |before| && forall i :: 0 <= i < |after| ==> before[i].stop ==> after[i].stop
  }

  class Group {
    var launched: bool
    var running: bool
    var stopped: bool
    var members: seq<Member>
    ghost var log: seq<Event>
    /** Whether the members' threads leave pids and descriptors alone. */
    const quiet: bool

    constructor (members: seq<Member>, quiet: bool)
      ensures !launched && !running && !stopped && this.members == members && this.quiet == quiet && log == []
    {
      launched, running, stopped, this.members, this.quiet, log := false, false, false, members, quiet, [];
    }

    /** The members' own threads: any change of any pid and descriptor. */
    method Others()
      modifies this`members
      ensures KeepsStops(old(members), members) && (quiet ==> members == old(members))
    {
      var now: seq<Member> := *;
      if !quiet && KeepsStops(members, now) {
        members := now;
      }
    }

    // The atomic operations.

    method StorePid(i: nat, pid: int)
      requires i < |members|
      modifies this`members, this`log
      ensures members == old(members)[i := old(members)[i].(pid := pid)] && log == old(log) + [Stored(i, pid)]
    {
      members := members[i := members[i].(pid := pid)];
      log := log + [Stored(i, pid)];
    }

    method SetStop(i: nat)
      requires i < |members|
      modifies this`members, this`log
      ensures members == old(members)[i := old(members)[i].(stop := true)] && log == old(log) + [StopSet(i)]
    {
      members := members[i := members[i].(stop := true)];
      log := log + [StopSet(i)];
    }

    /** exchange(-1) on a member's descriptor. */
    method Exchange(i: nat) returns (fd: int)
      requires i < |members|
      modifies this`members, this`log
      ensures fd == old(members)[i].fd && members == old(members)[i := old(members)[i].(fd := -1)]
      ensures log == old(log) + [Swapped(i, fd)]
    {
      fd := members[i].fd;
      members := members[i := members[i].(fd := -1)];
      log := log + [Swapped(i, fd)];
    }

    /** The exchange, and the close of what it found. */
    method Release(i: nat) returns (fd: int)
      requires i < |members|
      modifies this`members, this`log
      ensures KeepsStops(old(members), members) && log == old(log) + ReleaseEvents(i, fd)
      ensures quiet ==> fd == old(members)[i].fd && members == old(members)[i := old(members)[i].(fd := -1)]
    {
      Others();
      fd := Exchange(i);
      Others();
      if fd >= 0 {
        log := log + [Closed(i, fd)];
      }
    }

    /** onConnection at one member. */
    method Turn(i: nat, answer: int) returns (ghost seen: Seen)
      requires i < |members|
      modifies this`members, this`log
      ensures KeepsStops(old(members), members) && log == old(log) + TurnEvents(i, seen, answer)
      ensures quiet ==>
        var was := old(members)[i];
        && seen == Seen(was.pid, was.fd)
        && members == old(members)[i := Member(if was.pid == 0 && answer > 0 then answer else was.pid, -1, was.stop)]
    {
      Others();
      var pid := members[i].pid;
      if pid == 0 {
        Others();
        if answer > 0 {
          log := log + [Launched(i, answer)];
          StorePid(i, answer);
        } else {
          log := log + [LaunchFailed(i)];
        }
      }
      var fd := Release(i);
      seen := Seen(pid, fd);
    }

    /**
     onConnection: nothing when the group has launched; otherwise a turn at each member, on what is seen there,
     after which, unless a member's thread interferes, no port is held and every launched backend is known.
     */
    method OnConnection(answers: seq<int>) returns (ghost seen: seq<Seen>)
      requires |answers| == |members|
      modifies this
      ensures stopped == old(stopped) && KeepsStops(old(members), members)
      ensures old(launched) ==>
        seen == [] && launched && running == old(running) && log == old(log) && members == old(members)
      ensures !old(launched) ==>
        launched && running && |seen| == |members| && log == old(log) + PassEvents(seen, answers)
      ensures !old(launched) && quiet ==> Sees(seen, old(members)) && Passed(old(members), members, answers)
    {
      hide PassEvents, TurnEvents;
      NoEventsYet();
      seen := [];
      if launched {
        return;
      }
      launched, running := true, true;
      for i := 0 to |members|
        invariant |members| == |answers| && |seen| == i && launched && running && stopped == old(stopped)
        invariant KeepsStops(old(members), members) && log == old(log) + PassEvents(seen, answers)
        invariant quiet ==>
          && Sees(seen, old(members)[..i]) && Passed(old(members)[..i], members[..i], answers)
          && members[i..] == old(members)[i..]
      {
        ghost var one := Turn(i, answers[i]);
        PassNext(seen, one, answers);
        seen := seen + [one];
      }
    }

    /** PortRelay::stop at one member; the join comes last. */
    method StopMember(i: nat, alive: bool) returns (ghost seen: Seen)
      requires i < |members|
      modifies this`members, this`log
      ensures KeepsStops(old(members), members) && log == old(log) + StopTurnEvents(i, seen, alive)
      ensures members[i].stop
      ensures quiet ==>
        && seen == Seen(old(members)[i].pid, old(members)[i].fd)
        && members == old(members)[i := old(members)[i].(stop := true, fd := -1)]
    {
      Others();
      SetStop(i);
      var fd := Release(i);
      var pid := members[i].pid;
      if pid > 0 && alive {
        log := log + [Killed(i, pid)];
      }
      Others();
      log := log + [Joined(i)];
      seen := Seen(pid, fd);
    }

    /** stop: nothing after the first time; otherwise every member is stopped, and the group may launch again. */
    method Stop(alive: seq<bool>) returns (ghost seen: seq<Seen>)
      requires |alive| == |members|
      modifies this
      ensures stopped && KeepsStops(old(members), members)
      ensures old(stopped) ==>
        && seen == [] && log == old(log) && launched == old(launched) && running == old(running)
        && members == old(members)
      ensures !old(stopped) ==>
        && !launched && !running && |seen| == |members| && log == old(log) + StopEvents(seen, alive)
        && (forall i :: 0 <= i < |members| ==> members[i].stop)
      ensures !old(stopped) && quiet ==> Sees(seen, old(members)) && Stopped(old(members), members)
    {
      hide StopEvents, StopTurnEvents;
      NoEventsYet();
      seen := [];
      var already := stopped;
      stopped := true;
      if already {
        return;
      }
      for i := 0 to |members|
        invariant |members| == |alive| && |seen| == i && stopped && log == old(log) + StopEvents(seen, alive)
        invariant KeepsStops(old(members), members) && forall j :: 0 <= j < i ==> members[j].stop
        invariant quiet ==>
          && Sees(seen, old(members)[..i]) && Stopped(old(members)[..i], members[..i])
          && members[i..] == old(members)[i..]
      {
        ghost var one := StopMember(i, alive[i]);
        StopNext(seen, one, alive);
        seen := seen + [one];
      }
      launched, running := false, false;
    }

    /** signalStop: the same without kill and join, and without clearing the launch. */
    method SignalStop() returns (ghost fds: seq<int>)
      modifies this
      ensures stopped && KeepsStops(old(members), members)
      ensures launched == old(launched) && running == old(running)
      ensures old(stopped) ==> fds == [] && log == old(log) && members == old(members)
      ensures !old(stopped) ==>
        && |fds| == |members| && log == old(log) + SignalEvents(fds)
        && (forall i :: 0 <= i < |members| ==> members[i].stop)
      ensures !old(stopped) && quiet ==>
        (forall i :: 0 <= i < |fds| ==> fds[i] == old(members)[i].fd) && Stopped(old(members), members)
    {
      hide SignalEvents, ReleaseEvents;
      NoEventsYet();
      fds := [];
      var already := stopped;
      stopped := true;
      if already {
        return;
      }
      for i := 0 to |members|
        invariant |members| == |old(members)| && |fds| == i && stopped
        invariant launched == old(launched) && running == old(running)
        invariant log == old(log) + SignalEvents(fds)
        invariant KeepsStops(old(members), members) && forall j :: 0 <= j < i ==> members[j].stop
        invariant quiet ==>
          && (forall j :: 0 <= j < i ==> fds[j] == old(members)[j].fd)
          && Stopped(old(members)[..i], members[..i]) && members[i..] == old(members)[i..]
      {
        SetStop(i);
        var fd := Release(i);
        SignalNext(fds, fd);
        fds := fds + [fd];
      }
    }

    method ResetLaunch()
      modifies this`launched, this`running
      ensures !launched && !running
    {
      launched, running := false, false;
    }
  }

  lemma NoEventsYet()
    ensures forall answers :: PassEvents([], answers) == []
    ensures forall alive :: StopEvents([], alive) == []
    ensures SignalEvents([]) == []
  {
  }

  lemma PassNext(seen: seq<Seen>, one: Seen, answers: seq<int>)
    requires |seen| < |answers|
    ensures PassEvents(seen + [one], answers) == PassEvents(seen, answers) + TurnEvents(|seen|, one, answers[|seen|])
  {
    hide TurnEvents;
    assert (seen + [one])[..|seen|] == seen;
  }

  lemma StopNext(seen: seq<Seen>, one: Seen, alive: seq<bool>)
    requires |seen| < |alive|
    ensures StopEvents(seen + [one], alive) == StopEvents(seen, alive) + StopTurnEvents(|seen|, one, alive[|seen|])
  {
    hide StopTurnEvents;
    assert (seen + [one])[..|seen|] == seen;
  }

  lemma SignalNext(fds: seq<int>, fd: int)
    ensures SignalEvents(fds + [fd]) == SignalEvents(fds) + [StopSet(|fds|)] + ReleaseEvents(|fds|, fd)
  {
    hide ReleaseEvents;
    assert (fds + [fd])[..|fds|] == fds;
  }

  // ---- What the events are, and their order ----

  /** The place of an event among those of its member. */
  function Rank(e: Event): nat {
    match e
    case Launched(_, _) => 0
    case LaunchFailed(_) => 0
    case StopSet(_) => 0
    case Stored(_, _) => 1
    case Swapped(_, _) => 2
    case Closed(_, _) => 3
    case Killed(_, _) => 4
    case Joined(_) => 5
  }

  predicate Before(e: Event, f: Event) {
    e.i < f.i || (e.i == f.i && Rank(e) < Rank(f))
  }

  /** Member by member, and at each one in the order of the ranks; so no event happens twice. */
  ghost predicate InOrder(events: seq<Event>) {
    forall a, b :: 0 <= a < b < |events| ==> Before(events[a], events[b])
  }

  lemma NothingInOrder()
    ensures InOrder([])
  {
  }

  lemma AppendOrder(before: seq<Event>, now: seq<Event>, n: nat)
    requires InOrder(before) && InOrder(now)
    requires (forall e :: e in before ==> e.i < n) && (forall e :: e in now ==> e.i == n)
    ensures InOrder(before + now) && forall e :: e in before + now ==> e.i < n + 1
  {
    assert forall a :: 0 <= a < |before| ==> before[a] in before;
    assert forall b :: 0 <= b < |now| ==> now[b] in now;
  }

  /**
   Launched and stored where no backend was seen and the launch worked; the descriptor exchanged everywhere, and
   closed where one was found.
   */
  predicate PassDoes(e: Event, seen: seq<Seen>, answers: seq<int>)
    requires |seen| <= |answers|
  {
    e.i < |seen| &&
    match e
    case Launched(i, pid) => seen[i].pid == 0 && pid == answers[i] > 0
    case Stored(i, pid) => seen[i].pid == 0 && pid == answers[i] > 0
    case LaunchFailed(i) => seen[i].pid == 0 && answers[i] <= 0
    case Swapped(i, fd) => seen[i].fd == fd
    case Closed(i, fd) => seen[i].fd == fd >= 0
    case _ => false
  }

  lemma TurnIs(i: nat, one: Seen, answer: int, e: Event)
    ensures e in TurnEvents(i, one, answer) ==> e.i == i
    ensures e.i == i ==> (e in TurnEvents(i, one, answer) <==>
                            match e
                            case Launched(_, pid) => one.pid == 0 && pid == answer > 0
                            case Stored(_, pid) => one.pid == 0 && pid == answer > 0
                            case LaunchFailed(_) => one.pid == 0 && answer <= 0
                            case Swapped(_, fd) => one.fd == fd
                            case Closed(_, fd) => one.fd == fd >= 0
                            case _ => false)
  {
  }

  lemma TurnInOrder(i: nat, one: Seen, answer: int)
    ensures InOrder(TurnEvents(i, one, answer)) && forall e :: e in TurnEvents(i, one, answer) ==> e.i == i
  {
  }

  /** A pass does exactly that. */
  lemma {:induction false} PassEventsAre(seen: seq<Seen>, answers: seq<int>, e: Event)
    requires |seen| <= |answers|
    ensures e in PassEvents(seen, answers) <==> PassDoes(e, seen, answers)
    decreases |seen|
  {
    hide TurnEvents;
    if seen != [] {
      var n := |seen| - 1;
      PassEventsAre(seen[..n], answers, e);
      TurnIs(n, seen[n], answers[n], e);
    }
  }

  /** In that order: at each member the launch, the store of its pid, the exchange, the close. */
  lemma {:induction false} PassInOrder(seen: seq<Seen>, answers: seq<int>)
    requires |seen| <= |answers|
    ensures InOrder(PassEvents(seen, answers)) && forall e :: e in PassEvents(seen, answers) ==> e.i < |seen|
    decreases |seen|
  {
    hide TurnEvents, InOrder;
    if seen != [] {
      var n := |seen| - 1;
      PassInOrder(seen[..n], answers);
      TurnInOrder(n, seen[n], answers[n]);
      AppendOrder(PassEvents(seen[..n], answers), TurnEvents(n, seen[n], answers[n]), n);
    } else {
      NothingInOrder();
    }
  }

  /** Every flag set, descriptor exchanged and thread joined, closed where one was found, killed where one was alive. */
  predicate StopDoes(e: Event, seen: seq<Seen>, alive: seq<bool>)
    requires |seen| <= |alive|
  {
    e.i < |seen| &&
    match e
    case StopSet(_) => true
    case Joined(_) => true
    case Swapped(i, fd) => seen[i].fd == fd
    case Closed(i, fd) => seen[i].fd == fd >= 0
    case Killed(i, pid) => seen[i].pid == pid > 0 && alive[i]
    case _ => false
  }

  lemma StopTurnIs(i: nat, one: Seen, alive: bool, e: Event)
    ensures e in StopTurnEvents(i, one, alive) ==> e.i == i
    ensures e.i == i ==> (e in StopTurnEvents(i, one, alive) <==>
                            match e
                            case StopSet(_) => true
                            case Joined(_) => true
                            case Swapped(_, fd) => one.fd == fd
                            case Closed(_, fd) => one.fd == fd >= 0
                            case Killed(_, pid) => one.pid == pid > 0 && alive
                            case _ => false)
  {
  }

  lemma StopTurnInOrder(i: nat, one: Seen, alive: bool)
    ensures InOrder(StopTurnEvents(i, one, alive)) && forall e :: e in StopTurnEvents(i, one, alive) ==> e.i == i
  {
  }

  /** A stop does exactly that. */
  lemma {:induction false} StopEventsAre(seen: seq<Seen>, alive: seq<bool>, e: Event)
    requires |seen| <= |alive|
    ensures e in StopEvents(seen, alive) <==> StopDoes(e, seen, alive)
    decreases |seen|
  {
    hide StopTurnEvents;
    if seen != [] {
      var n := |seen| - 1;
      StopEventsAre(seen[..n], alive, e);
      StopTurnIs(n, seen[n], alive[n], e);
    }
  }

  /** In that order: at each member the flag, the exchange, the close, the kill, the join. */
  lemma {:induction false} StopInOrder(seen: seq<Seen>, alive: seq<bool>)
    requires |seen| <= |alive|
    ensures InOrder(StopEvents(seen, alive)) && forall e :: e in StopEvents(seen, alive) ==> e.i < |seen|
    decreases |seen|
  {
    hide StopTurnEvents, InOrder;
    if seen != [] {
      var n := |seen| - 1;
      StopInOrder(seen[..n], alive);
      StopTurnInOrder(n, seen[n], alive[n]);
      AppendOrder(StopEvents(seen[..n], alive), StopTurnEvents(n, seen[n], alive[n]), n);
    } else {
      NothingInOrder();
    }
  }

  lemma SignalTurnIs(i: nat, one: int, e: Event)
    ensures var now := [StopSet(i)] + ReleaseEvents(i, one);
      && InOrder(now) && (forall f :: f in now ==> f.i == i)
      && (e in now <==> e == StopSet(i) || e == Swapped(i, one) || (e == Closed(i, one) && one >= 0))
  {
  }

  /** A signal sets every flag and exchanges every descriptor, and closes those found, in that order. */
  lemma {:induction false} SignalEventsAre(fds: seq<int>, e: Event)
    ensures e in SignalEvents(fds) <==>
            e.i < |fds| && (e.StopSet? || e == Swapped(e.i, fds[e.i]) || (e == Closed(e.i, fds[e.i]) && fds[e.i] >= 0))
    ensures InOrder(SignalEvents(fds)) && forall f :: f in SignalEvents(fds) ==> f.i < |fds|
    decreases |fds|
  {
    hide ReleaseEvents, InOrder;
    if fds != [] {
      var n := |fds| - 1;
      SignalEventsAre(fds[..n], e);
      SignalTurnIs(n, fds[n], e);
      AppendOrder(SignalEvents(fds[..n]), [StopSet(n)] + ReleaseEvents(n, fds[n]), n);
      assert SignalEvents(fds) == SignalEvents(fds[..n]) + ([StopSet(n)] + ReleaseEvents(n, fds[n]));
    } else {
      NothingInOrder();
    }
  }
}
