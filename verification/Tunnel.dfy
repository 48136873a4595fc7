/**
 The two-way tunnel of src/relay.cpp: pipeRelay in each direction, and the caller that
 tears both down as soon as either has finished.
 */
module Tunnel {
  import opened Text

  const BUFFER: nat := 16384

  // ---- One direction, as the loop runs it ----

  /** The reading end: what is still to come, and whether a read has failed. */
  class Source {
    var input: seq<Byte>
    var failed: bool

    constructor (input: seq<Byte>)
      ensures this.input == input && !failed
    {
      this.input := input;
      failed := false;
    }

    /** A short read; nothing at the end of the stream or on an error. */
    method Read(n: nat) returns (chunk: seq<Byte>)
      requires n > 0
      modifies this
      ensures |chunk| <= n && old(input) == chunk + input
      ensures chunk == [] ==> failed || input == []
      ensures chunk != [] ==> failed == old(failed)
    {
      var error := *;
      if error || input == [] {
        failed := failed || error;
        return [];
      }
      var k :| 1 <= k <= n && k <= |input|;
      chunk, input := input[..k], input[k..];
    }
  }

  /** The writing end: what it has taken, and whether its write side has been shut. */
  class Sink {
    var received: seq<Byte>
    var shut: bool

    constructor ()
      ensures received == [] && !shut
    {
      received, shut := [], false;
    }

    /** A short write, or none on an error. */
    method Write(bytes: seq<Byte>) returns (w: int)
      requires bytes != []
      modifies this`received
      ensures w <= |bytes|
      ensures received == old(received) + if w <= 0 then [] else bytes[..w]
    {
      var error := *;
      if error {
        return -1;
      }
      w :| 1 <= w <= |bytes|;
      received := received + bytes[..w];
    }

    method ShutWrite()
      modifies this`shut
      ensures shut
    {
      shut := true;
    }
  }

  /** The write loop of pipeRelay: the whole buffer, or a front part of it before an error. */
  method WriteAll(dst: Sink, buf: seq<Byte>) returns (ok: bool)
    modifies dst`received
    ensures old(dst.received) <= dst.received <= old(dst.received) + buf
    ensures ok ==> dst.received == old(dst.received) + buf
  {
    ghost var before := dst.received;
    var off := 0;
    while off < |buf|
      invariant off <= |buf| && dst.received == before + buf[..off]
      decreases |buf| - off
    {
      var w := dst.Write(buf[off..]);
      if w <= 0 {
        return false;
      }
      off := off + w;
    }
    ok := true;
  }

  /** pipeRelay: what arrives is always a prefix of what was sent, and all of it when neither side fails. */
  method PipeRelay(src: Source, dst: Sink) returns (writeError: bool)
    requires !dst.shut
    modifies src, dst
    ensures old(dst.received) <= dst.received <= old(dst.received) + old(src.input)
    ensures dst.shut <==> !writeError
    ensures !writeError && !src.failed ==> dst.received == old(dst.received) + old(src.input)
  {
    ghost var whole, before := dst.received + src.input, dst.received;
    var buf := src.Read(BUFFER);
    while buf != []
      invariant !dst.shut && before <= dst.received && dst.received + (buf + src.input) == whole
      invariant buf == [] ==> src.failed || src.input == []
      decreases |buf| + |src.input|
    {
      ghost var got := dst.received;
      var ok := WriteAll(dst, buf);
      if !ok {
        Between(got, buf, src.input, dst.received, whole);
        return true;
      }
      assert dst.received + src.input == whole;
      buf := src.Read(BUFFER);
    }
    dst.ShutWrite();
    assert buf + src.input == src.input;
    Between(dst.received, [], src.input, dst.received, whole);
    writeError := false;
  }

  lemma Between(got: seq<Byte>, buf: seq<Byte>, rest: seq<Byte>, now: seq<Byte>, whole: seq<Byte>)
    requires got + (buf + rest) == whole && got <= now <= got + buf
    ensures now <= whole
  {
  }

  // ---- Both directions and the caller ----

  datatype Side = Up | Down

  datatype How = EndOfStream | ReadFailed | WriteFailed | TornDown

  datatype Phase = Reading | Writing | Ended(how: How)

  /** One direction: what its peer has sent, and whether it has ended its stream; the buffer; what has arrived. */
  datatype Pipe =
    Pipe(sent: seq<Byte>, closed: bool, consumed: nat, buf: seq<Byte>, off: nat, delivered: seq<Byte>, phase: Phase)

  datatype State = State(up: Pipe, down: Pipe, torn: bool) {
    function On(side: Side): Pipe {
      if side.Up? then up else down
    }

    function With(side: Side, p: Pipe): State {
      if side.Up? then this.(up := p) else this.(down := p)
    }
  }

  datatype Step =
    | PeerSends(side: Side, bytes: seq<Byte>)
    | PeerCloses(side: Side)
    | Read(side: Side, n: nat)
    | ReadStops(side: Side, how: How)
    | Write(side: Side, n: nat)
    | WriteFails(side: Side)
    | TearDown

  predicate Enabled(s: State, step: Step) {
    match step
    case PeerSends(side, _) => !s.On(side).closed
    case PeerCloses(_) => true
    case Read(side, n) =>
      var p := s.On(side);
      p.phase.Reading? && 1 <= n <= BUFFER && p.consumed + n <= |p.sent|
    case ReadStops(side, how) =>
      var p := s.On(side);
      && p.phase.Reading? && !how.WriteFailed?
      && (how.EndOfStream? ==> p.closed && p.consumed == |p.sent|) && (how.TornDown? ==> s.torn)
    case Write(side, n) =>
      var p := s.On(side);
      p.phase.Writing? && !s.torn && 1 <= n <= |p.buf| - p.off
    case WriteFails(side) => s.On(side).phase.Writing?
    case TearDown => s.up.phase.Ended? || s.down.phase.Ended?
  }

  function StepPipe(p: Pipe, step: Step): Pipe {
    match step
    case PeerSends(_, bytes) => p.(sent := p.sent + bytes)
    case PeerCloses(_) => p.(closed := true)
    case Read(_, n) =>
      if p.consumed + n <= |p.sent| then
        p.(buf := p.sent[p.consumed..p.consumed + n], off := 0, consumed := p.consumed + n, phase := Writing)
      else p
    case ReadStops(_, how) => p.(phase := Ended(how))
    case Write(_, n) =>
      if p.off + n <= |p.buf| then
        p.(delivered := p.delivered + p.buf[p.off..p.off + n], off := p.off + n,
           phase := if p.off + n == |p.buf| then Reading else Writing)
      else p
    case WriteFails(_) => p.(phase := Ended(WriteFailed))
    case TearDown => p
  }

  function Apply(s: State, step: Step): State {
    if step.TearDown? then s.(torn := true) else s.With(step.side, StepPipe(s.On(step.side), step))
  }

  ghost predicate Run(states: seq<State>, steps: seq<Step>) {
    && |states| == |steps| + 1
    && forall i :: 0 <= i < |steps| ==> Enabled(states[i], steps[i]) && states[i + 1] == Apply(states[i], steps[i])
  }

  /** What has arrived and what is still in the buffer is what has been read. */
  ghost predicate Flows(p: Pipe) {
    && p.consumed <= |p.sent| && p.off <= |p.buf|
    && p.delivered + p.buf[p.off..] == p.sent[..p.consumed]
    && (p.phase.Reading? ==> p.off == |p.buf|) && (p.phase.Writing? ==> p.off < |p.buf|)
    && (p.phase == Ended(EndOfStream) ==> p.off == |p.buf| && p.closed && p.consumed == |p.sent|)
  }

  ghost predicate Inv(s: State) {
    Flows(s.up) && Flows(s.down)
  }

  lemma ReadFlows(p: Pipe, side: Side, n: nat)
    requires Flows(p) && p.phase.Reading? && n > 0 && p.consumed + n <= |p.sent|
    ensures Flows(StepPipe(p, Read(side, n)))
  {
  }

  lemma WriteFlows(p: Pipe, side: Side, n: nat)
    requires Flows(p) && p.phase.Writing? && p.off + n <= |p.buf|
    ensures Flows(StepPipe(p, Write(side, n)))
  {
    var q := StepPipe(p, Write(side, n));
    assert p.buf[p.off..] == p.buf[p.off..q.off] + p.buf[q.off..];
  }

  lemma PipeFlows(s: State, step: Step)
    requires Inv(s) && Enabled(s, step) && !step.TearDown?
    ensures Flows(StepPipe(s.On(step.side), step))
  {
    var p := s.On(step.side);
    match step {
      case PeerSends(_, bytes) =>
        assert (p.sent + bytes)[..p.consumed] == p.sent[..p.consumed];
      case Read(side, n) =>
        ReadFlows(p, side, n);
      case Write(side, n) =>
        WriteFlows(p, side, n);
      case _ =>
    }
  }

  lemma StepInv(s: State, step: Step)
    requires Inv(s) && Enabled(s, step)
    ensures Inv(Apply(s, step))
  {
    hide Enabled, Flows, StepPipe;
    if !step.TearDown? {
      PipeFlows(s, step);
    }
  }

  /** In every run, each way what has arrived is a prefix of what was sent, and everything once the end was seen. */
  lemma {:induction false} RunDelivers(states: seq<State>, steps: seq<Step>, k: nat, side: Side)
    requires Run(states, steps) && Inv(states[0]) && k < |states|
    ensures Inv(states[k])
    ensures states[k].On(side).delivered <= states[k].On(side).sent
    ensures states[k].On(side).phase == Ended(EndOfStream) ==> states[k].On(side).delivered == states[k].On(side).sent
    decreases k
  {
    hide Enabled, Apply;
    if k > 0 {
      RunDelivers(states, steps, k - 1, side);
      StepInv(states[k - 1], steps[k - 1]);
    }
  }

  /** After the teardown nothing more arrives: a direction is complete only with what it had delivered by then. */
  lemma {:induction false} TornFreezes(states: seq<State>, steps: seq<Step>, k: nat, m: nat, side: Side)
    requires Run(states, steps) && k <= m < |states| && states[k].torn
    ensures states[m].torn && states[m].On(side).delivered == states[k].On(side).delivered
    decreases m
  {
    if k < m {
      TornFreezes(states, steps, k, m - 1, side);
    }
  }

  // ---- Half-close: when a direction can be cut short ----

  function Other(side: Side): Side {
    if side.Up? then Down else Up
  }

  /** No read or write fails on its own account. */
  predicate Smooth(step: Step) {
    !step.WriteFails? && !(step.ReadStops? && step.how.ReadFailed?)
  }

  /** Before the teardown a direction has ended only at the end of its stream. */
  predicate EndsClean(p: Pipe, torn: bool) {
    p.phase.Ended? && !torn ==> p.phase.how.EndOfStream?
  }

  ghost predicate Sound(s: State) {
    Inv(s) && EndsClean(s.up, s.torn) && EndsClean(s.down, s.torn)
  }

  /** The stream has ended and all of it has arrived. */
  predicate Complete(p: Pipe) {
    p.closed && p.delivered == p.sent
  }

  /** What keeps `side` from being cut short: the opposite stream still open, or nothing left to lose. */
  predicate Safe(s: State, side: Side) {
    Complete(s.On(side)) || (!s.torn && !s.On(Other(side)).closed)
  }

  lemma Arrived(p: Pipe)
    requires Flows(p)
    ensures p.delivered <= p.sent
    ensures p.phase == Ended(EndOfStream) ==> p.delivered == p.sent
  {
    assert p.delivered == p.sent[..|p.delivered|];
  }

  lemma SoundStep(s: State, step: Step)
    requires Sound(s) && Enabled(s, step) && Smooth(step)
    ensures Sound(Apply(s, step))
  {
    hide Flows;
    StepInv(s, step);
  }

  /** While the opposite peer keeps its stream open, only the end of this stream can bring the teardown. */
  lemma SafeStep(s: State, step: Step, side: Side)
    requires Sound(s) && Safe(s, side) && Enabled(s, step) && Smooth(step)
    requires step == PeerCloses(Other(side)) ==> Complete(s.On(side))
    ensures Safe(Apply(s, step), side)
  {
    var p := s.On(side);
    Arrived(p);
    if Complete(p) {
      if !step.TearDown? && step.side == side {
        CompleteStays(s, step);
      }
    }
  }

  lemma CompleteStays(s: State, step: Step)
    requires Inv(s) && Enabled(s, step) && !step.TearDown? && Complete(s.On(step.side))
    ensures Complete(StepPipe(s.On(step.side), step))
  {
    var p := s.On(step.side);
    PipeFlows(s, step);
    Arrived(StepPipe(p, step));
    assert |p.delivered| + |p.buf[p.off..]| == p.consumed <= |p.sent|;
  }

  ghost predicate SmoothRun(states: seq<State>, steps: seq<Step>) {
    Run(states, steps) && forall i :: 0 <= i < |steps| ==> Smooth(steps[i])
  }

  /** In a smooth run whose opposite peer does not end its stream first, the direction is complete at the teardown. */
  lemma {:induction false} CompleteAtTeardown(states: seq<State>, steps: seq<Step>, k: nat, side: Side)
    requires SmoothRun(states, steps) && Sound(states[0]) && Safe(states[0], side) && k < |states|
    requires forall i :: 0 <= i < k && steps[i] == PeerCloses(Other(side)) ==> Complete(states[i].On(side))
    ensures Sound(states[k]) && Safe(states[k], side)
    ensures states[k].torn ==> Complete(states[k].On(side))
    decreases k
  {
    hide Enabled, Apply, Sound, Safe, Smooth, Complete;
    if k > 0 {
      CompleteAtTeardown(states, steps, k - 1, side);
      SoundStep(states[k - 1], steps[k - 1]);
      SafeStep(states[k - 1], steps[k - 1], side);
    }
    SafeWhenTorn(states[k], side);
  }

  lemma SafeWhenTorn(s: State, side: Side)
    requires Safe(s, side)
    ensures s.torn ==> Complete(s.On(side))
  {
  }

  // ---- And when it can be ----

  /** Steps the opposite direction still has to make before it ends. */
  function Left(p: Pipe): nat {
    if p.phase.Ended? then 0
    else
      1 + (if p.off <= |p.buf| then |p.buf| - p.off else 0)
      + (if p.consumed <= |p.sent| then 2 * (|p.sent| - p.consumed) else 0)
  }

  /** The next step of a direction whose peer has ended its stream. */
  function NextStep(side: Side, p: Pipe): Step {
    if p.phase.Writing? then Write(side, 1)
    else if p.consumed < |p.sent| then Read(side, 1)
    else ReadStops(side, EndOfStream)
  }

  lemma NextStepEnabled(s: State, side: Side)
    requires Sound(s) && !s.torn && s.On(side).closed && !s.On(side).phase.Ended?
    ensures var step := NextStep(side, s.On(side)); var t := Apply(s, step);
      && Enabled(s, step) && Smooth(step) && step != PeerCloses(side)
      && t.On(Other(side)) == s.On(Other(side)) && !t.torn && t.On(side).closed && Left(t.On(side)) < Left(s.On(side))
  {
  }

  /** A run from `s` that cuts `side` short without a failure, and without the opposite stream ending in it. */
  ghost predicate CutsShort(s: State, side: Side, states: seq<State>, steps: seq<Step>) {
    && SmoothRun(states, steps) && states[0] == s && PeerCloses(Other(side)) !in steps
    && var last := states[|steps|];
       last.torn && last.On(side).delivered != last.On(side).sent
  }

  lemma CutLater(s: State, side: Side, step: Step, states: seq<State>, steps: seq<Step>)
    requires Enabled(s, step) && Smooth(step) && step != PeerCloses(Other(side))
    requires CutsShort(Apply(s, step), side, states, steps)
    ensures CutsShort(s, side, [s] + states, [step] + steps)
  {
    hide Enabled, Apply, Smooth;
    var longer, all := [s] + states, [step] + steps;
    forall i | 0 <= i < |all|
      ensures Enabled(longer[i], all[i]) && longer[i + 1] == Apply(longer[i], all[i]) && Smooth(all[i])
    {
      if i > 0 {
        assert longer[i] == states[i - 1] && longer[i + 1] == states[i] && all[i] == steps[i - 1];
      }
    }
  }

  /** The opposite direction runs to its end of stream, and the caller tears down. */
  lemma {:induction false} EndsFirst(s: State, side: Side) returns (states: seq<State>, steps: seq<Step>)
    requires Sound(s) && !s.torn && s.On(Other(side)).closed && s.On(side).delivered != s.On(side).sent
    ensures CutsShort(s, side, states, steps)
    decreases Left(s.On(Other(side)))
  {
    hide Sound, Left, NextStep, Smooth;
    var other := Other(side);
    if s.On(other).phase.Ended? {
      states, steps := [s, s.(torn := true)], [TearDown];
      SmoothTearDown();
    } else {
      var step := NextStep(other, s.On(other));
      NextStepEnabled(s, other);
      SoundStep(s, step);
      states, steps := EndsFirst(Apply(s, step), side);
      CutLater(s, side, step, states, steps);
      states, steps := [s] + states, [step] + steps;
    }
  }

  lemma SmoothTearDown()
    ensures Smooth(TearDown)
  {
  }

  /** From an untorn state whose opposite stream has ended, an incomplete direction can be cut short. */
  lemma IncompleteIsCut(s: State, side: Side) returns (states: seq<State>, steps: seq<Step>)
    requires Sound(s) && !s.torn && !Safe(s, side)
    ensures CutsShort(s, side, states, steps)
  {
    hide Sound, Flows;
    if s.On(side).delivered != s.On(side).sent {
      states, steps := EndsFirst(s, side);
    } else {
      var step := PeerSends(side, [0]);
      SoundStep(s, step);
      states, steps := EndsFirst(Apply(s, step), side);
      CutLater(s, side, step, states, steps);
      states, steps := [s] + states, [step] + steps;
    }
  }

  /**
   A direction can lose bytes, without any failure and without the opposite peer ending its
   stream from here on, exactly when that stream has ended already and this one is not complete.
   */
  lemma HalfCloseExactly(s: State, side: Side)
    requires Sound(s) && !s.torn
    ensures (exists states, steps :: CutsShort(s, side, states, steps)) <==>
            s.On(Other(side)).closed && !Complete(s.On(side))
  {
    hide Sound, Complete, Enabled, Apply, Smooth;
    if s.On(Other(side)).closed && !Complete(s.On(side)) {
      var states, steps := IncompleteIsCut(s, side);
    }
    if states: seq<State>, steps: seq<Step> :| CutsShort(s, side, states, steps) {
      if Safe(s, side) {
        assert |states| == |steps| + 1;
        CompleteAtTeardown(states, steps, |steps|, side);
        CompleteIs(states[|steps|].On(side));
      }
    }
  }

  lemma CompleteIs(p: Pipe)
    requires Complete(p)
    ensures p.delivered == p.sent
  {
  }

  // ---- The loss is real ----

  function HalfClose(reply: seq<Byte>): seq<State> {
    var up, ended := Pipe([], true, 0, [], 0, [], Reading), Pipe([], true, 0, [], 0, [], Ended(EndOfStream));
    var down, lost := Pipe(reply, true, 0, [], 0, [], Reading), Pipe(reply, true, 0, [], 0, [], Ended(TornDown));
    [State(up, down, false), State(ended, down, false), State(ended, down, true), State(ended, lost, true)]
  }

  /** A client that ends its own stream first can lose the whole reply. */
  lemma HalfCloseLoses(reply: seq<Byte>)
    ensures Run(HalfClose(reply), [ReadStops(Up, EndOfStream), TearDown, ReadStops(Down, TornDown)])
    ensures Inv(HalfClose(reply)[0])
    ensures HalfClose(reply)[3].down.delivered == [] && HalfClose(reply)[3].down.sent == reply
  {
  }
}
