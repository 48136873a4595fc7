/**
 Eviction under memory pressure, from src/system_monitor.cpp: the timer that waits
 for sustained pressure, and the choice of the relay to evict.
 */
module Eviction {
  import opened Text

  // ---- The timer ----

  datatype Settings = Settings(enabled: bool, memoryCritical: real, swapCritical: real, sustain: int)

  /** One pass of the sampling loop: the clock, and what was measured. */
  datatype Sample = Sample(now: int, mem: real, swapValid: bool, swap: real)

  /** `since` is read only while `critical` holds. */
  datatype Timer = Timer(critical: bool, since: int)

  predicate Critical(c: Settings, s: Sample) {
    s.mem > c.memoryCritical * 100.0 && s.swapValid && s.swap > c.swapCritical * 100.0
  }

  /** Whether a pass triggers an eviction. */
  predicate Expires(c: Settings, t: Timer, s: Sample) {
    c.enabled && Critical(c, s) && t.critical && s.now - t.since >= c.sustain
  }

  function Tick(c: Settings, t: Timer, s: Sample): Timer {
    if !c.enabled then t
    else if !Critical(c, s) then (if t.critical then Timer(false, 0) else t)
    else if !t.critical then Timer(true, s.now)
    else if s.now - t.since >= c.sustain then Timer(false, 0)
    else t
  }

  /** The timer before pass k of a trace. */
  function Before(c: Settings, trace: seq<Sample>, k: nat): Timer
    requires k <= |trace|
  {
    if k == 0 then Timer(false, 0) else Tick(c, Before(c, trace, k - 1), trace[k - 1])
  }

  predicate Fires(c: Settings, trace: seq<Sample>, k: nat)
    requires k < |trace|
  {
    Expires(c, Before(c, trace, k), trace[k])
  }

  /** The timer's part of the sampling loop. */
  class Sampler {
    const settings: Settings
    var criticalSince: int
    var prevCritical: bool

    constructor (settings: Settings)
      ensures this.settings == settings && State() == Timer(false, 0)
    {
      this.settings := settings;
      criticalSince := 0;
      prevCritical := false;
    }

    function State(): Timer
      reads this
    {
      Timer(prevCritical, criticalSince)
    }

    method Pass(s: Sample) returns (evict: bool)
      modifies this
      ensures State() == Tick(settings, old(State()), s)
      ensures evict == Expires(settings, old(State()), s)
    {
      evict := false;
      if settings.enabled {
        var crit := s.mem > settings.memoryCritical * 100.0 && s.swapValid && s.swap > settings.swapCritical * 100.0;
        if crit {
          if !prevCritical {
            criticalSince := s.now;
            prevCritical := true;
          } else if s.now - criticalSince >= settings.sustain {
            evict := true;
            prevCritical := false;
            criticalSince := 0;
          }
        } else if prevCritical {
          prevCritical := false;
          criticalSince := 0;
        }
      }
    }
  }

  /** The whole loop over a trace: at which passes it evicts. */
  method Monitor(c: Settings, trace: seq<Sample>) returns (fired: seq<bool>)
    ensures |fired| == |trace|
    ensures forall k :: 0 <= k < |trace| ==> (fired[k] <==> Fires(c, trace, k))
  {
    var sampler := new Sampler(c);
    fired := [];
    for i := 0 to |trace|
      invariant |fired| == i && sampler.settings == c && sampler.State() == Before(c, trace, i)
      invariant forall k :: 0 <= k < i ==> (fired[k] <==> Fires(c, trace, k))
    {
      var evict := sampler.Pass(trace[i]);
      fired := fired + [evict];
    }
  }

  // ---- What the timer guarantees over a trace ----

  ghost predicate NonDecreasing(trace: seq<Sample>) {
    forall i, j :: 0 <= i <= j < |trace| ==> trace[i].now <= trace[j].now
  }

  /** Critical at every pass from i to k. */
  ghost predicate Unbroken(c: Settings, trace: seq<Sample>, i: nat, k: nat)
    requires k < |trace|
  {
    forall j :: i <= j <= k ==> Critical(c, trace[j])
  }

  ghost predicate Silent(c: Settings, trace: seq<Sample>, i: nat, k: nat)
    requires k <= |trace|
  {
    forall j :: i <= j < k ==> !Fires(c, trace, j)
  }

  /** Pass j starts a silent critical stretch that lasts to pass k. */
  ghost predicate Stretch(c: Settings, trace: seq<Sample>, j: nat, k: nat)
    requires k < |trace|
  {
    j < k && Unbroken(c, trace, j, k) && Silent(c, trace, j, k)
  }

  /** An armed timer counts from the pass that started the stretch it is in. */
  lemma {:induction false} ArmedSince(c: Settings, trace: seq<Sample>, k: nat) returns (j: nat)
    requires k <= |trace| && Before(c, trace, k).critical
    ensures c.enabled && j < k && Before(c, trace, k).since == trace[j].now && Silent(c, trace, j, k)
    ensures forall i :: j <= i < k ==> Critical(c, trace[i])
  {
    hide Critical;
    if Before(c, trace, k - 1).critical {
      j := ArmedSince(c, trace, k - 1);
    } else {
      j := k - 1;
    }
  }

  /** A silent critical stretch keeps the timer armed, since its start or earlier. */
  lemma {:induction false} StretchArms(c: Settings, trace: seq<Sample>, j: nat, k: nat)
    requires c.enabled && NonDecreasing(trace) && j < k <= |trace| && Silent(c, trace, j, k)
    requires forall i :: j <= i < k ==> Critical(c, trace[i])
    ensures Before(c, trace, k).critical && Before(c, trace, k).since <= trace[j].now
    decreases k
  {
    hide Critical;
    var t := Before(c, trace, k - 1);
    assert !Fires(c, trace, k - 1);
    if j == k - 1 {
      if t.critical {
        var i := ArmedSince(c, trace, k - 1);
      }
    } else {
      StretchArms(c, trace, j, k - 1);
    }
  }

  /** The timer fires exactly at the end of a critical stretch, without a firing in it, that spans the sustain time. */
  lemma FiresExactly(c: Settings, trace: seq<Sample>, k: nat)
    requires NonDecreasing(trace) && k < |trace|
    ensures Fires(c, trace, k) <==>
            c.enabled && exists j :: 0 <= j < k && Stretch(c, trace, j, k) && trace[k].now - trace[j].now >= c.sustain
  {
    hide Critical, Before;
    if Fires(c, trace, k) {
      var j := ArmedSince(c, trace, k);
    }
    if j :| c.enabled && 0 <= j < k && Stretch(c, trace, j, k) && trace[k].now - trace[j].now >= c.sustain {
      StretchArms(c, trace, j, k);
    }
  }

  /**
   In terms of what is measured: it fires exactly when eviction is enabled and memory and a valid swap reading have
   both been above their thresholds at every pass for the sustain time, without a firing since.
   */
  lemma FiresUnderPressure(c: Settings, trace: seq<Sample>, k: nat)
    requires NonDecreasing(trace) && k < |trace|
    ensures Fires(c, trace, k) <==>
            c.enabled && exists j ::
              && 0 <= j < k && Silent(c, trace, j, k) && trace[k].now - trace[j].now >= c.sustain
              && (forall i :: j <= i <= k ==>
                    && trace[i].mem > c.memoryCritical * 100.0
                    && trace[i].swapValid && trace[i].swap > c.swapCritical * 100.0)
  {
    hide Before, Fires, Silent;
    FiresExactly(c, trace, k);
    if j :| 0 <= j < k && Stretch(c, trace, j, k) && trace[k].now - trace[j].now >= c.sustain {
      assert Silent(c, trace, j, k) && Unbroken(c, trace, j, k);
      assert forall i :: j <= i <= k ==> Critical(c, trace[i]);
    }
    if j :|
        && 0 <= j < k && Silent(c, trace, j, k) && trace[k].now - trace[j].now >= c.sustain
        && (forall i :: j <= i <= k ==>
              && trace[i].mem > c.memoryCritical * 100.0
              && trace[i].swapValid && trace[i].swap > c.swapCritical * 100.0) {
      assert Stretch(c, trace, j, k);
    }
  }

  /** Two firings are at least the sustain time apart. */
  lemma FiringsApart(c: Settings, trace: seq<Sample>, i: nat, k: nat)
    requires NonDecreasing(trace) && i < k < |trace| && Fires(c, trace, i) && Fires(c, trace, k)
    ensures trace[k].now - trace[i].now >= c.sustain
  {
    hide Critical, Before;
    var j := ArmedSince(c, trace, k);
  }

  ghost predicate GapsAtMost(trace: seq<Sample>, i: nat, k: nat, gap: int)
    requires k < |trace|
  {
    forall j :: i <= j < k ==> trace[j + 1].now - trace[j].now <= gap
  }

  function Max(a: int, b: int): int {
    if a >= b then a else b
  }

  /** The first pass from n on that is at least `limit` late. */
  lemma {:induction false} FirstLate(trace: seq<Sample>, n: nat, m: nat, limit: int) returns (k: nat)
    requires n <= m < |trace| && trace[m].now >= limit
    ensures n <= k <= m && trace[k].now >= limit && forall j :: n <= j < k ==> trace[j].now < limit
    decreases m - n
  {
    if trace[n].now >= limit {
      k := n;
    } else {
      k := FirstLate(trace, n + 1, m, limit);
    }
  }

  /**
   In critical stretches the timer responds: after any pass i, provided pressure lasts
   the sustain time past the next pass, it fires within the sustain time and two gaps.
   */
  lemma FiresWithin(c: Settings, trace: seq<Sample>, i: nat, m: nat, gap: int) returns (k: nat)
    requires c.enabled && NonDecreasing(trace) && i + 2 <= m < |trace| && Unbroken(c, trace, i, m)
    requires GapsAtMost(trace, i, m, gap) && trace[m].now >= trace[i + 1].now + c.sustain
    ensures i < k <= m && Fires(c, trace, k) && trace[k].now - trace[i].now <= Max(c.sustain, 0) + 2 * gap
  {
    hide Critical, Before, Fires;
    var late := FirstLate(trace, i + 2, m, trace[i + 1].now + c.sustain);
    assert trace[late].now - trace[i].now <= Max(c.sustain, 0) + 2 * gap by {
      var prev := late - 1;
      assert trace[prev + 1].now - trace[prev].now <= gap;
    }
    if j :| i + 1 <= j < late && Fires(c, trace, j) {
      k := j;
    } else {
      k := late;
      FiresExactly(c, trace, late);
    }
  }

  /** Within an unbroken critical run, neighbouring firings are at most the sustain time and two gaps apart. */
  lemma FiringsClose(c: Settings, trace: seq<Sample>, i: nat, k: nat, gap: int)
    requires c.enabled && NonDecreasing(trace) && i < k < |trace|
    requires Unbroken(c, trace, i, k) && GapsAtMost(trace, i, k, gap)
    requires Fires(c, trace, i) && Fires(c, trace, k) && Silent(c, trace, i + 1, k)
    ensures trace[k].now - trace[i].now <= Max(c.sustain, 0) + 2 * gap
  {
    hide Critical, Before, Fires;
    var j := StretchOf(c, trace, i, k);
    var n := FiresWithin(c, trace, i, k, gap);
  }

  lemma StretchOf(c: Settings, trace: seq<Sample>, i: nat, k: nat) returns (j: nat)
    requires c.enabled && NonDecreasing(trace) && i < k < |trace| && Fires(c, trace, i) && Fires(c, trace, k)
    ensures i < j < k && trace[k].now - trace[j].now >= c.sustain
  {
    hide Critical, Before, Fires;
    FiresExactly(c, trace, k);
    j :| 0 <= j < k && Stretch(c, trace, j, k) && trace[k].now - trace[j].now >= c.sustain;
  }

  // ---- The choice of the victim ----

  /** What the loop reads of a relay. */
  datatype Candidate = Candidate(running: bool, lastActive: int, rss: int)

  function Idle(c: Candidate, now: int): int {
    Max(now - c.lastActive, 0)
  }

  /** Longer idle, or as long and larger. */
  predicate Above(a: Candidate, b: Candidate, now: int) {
    Idle(a, now) > Idle(b, now) || (Idle(a, now) == Idle(b, now) && a.rss > b.rss)
  }

  /** The earliest running candidate that no running one is above. */
  predicate Chosen(cs: seq<Candidate>, now: int, v: nat) {
    && v < |cs| && cs[v].running
    && (forall j :: 0 <= j < |cs| && cs[j].running ==> !Above(cs[j], cs[v], now))
    && (forall j :: 0 <= j < v && cs[j].running ==> Above(cs[v], cs[j], now))
  }

  /** Seconds without traffic, never negative. */
  predicate Quiet(c: Candidate, now: int, seconds: int) {
    seconds >= 0 && seconds >= now - c.lastActive && (seconds == 0 || seconds == now - c.lastActive)
  }

  /**
   In terms of what is read: no running candidate has been quiet for longer than the victim, or as long with more
   memory; and an earlier one not as long, or as long with less.
   */
  lemma ChosenMeans(cs: seq<Candidate>, now: int, v: nat, j: nat, a: int, b: int)
    requires Chosen(cs, now, v) && j < |cs| && cs[j].running && Quiet(cs[v], now, a) && Quiet(cs[j], now, b)
    ensures cs[v].running && (b < a || (b == a && cs[j].rss <= cs[v].rss))
    ensures j < v ==> b < a || (b == a && cs[j].rss < cs[v].rss)
  {
  }

  method Choose(cs: seq<Candidate>, now: int) returns (victim: Option<nat>)
    ensures victim.None? <==> forall j :: 0 <= j < |cs| ==> !cs[j].running
    ensures victim.Some? ==> Chosen(cs, now, victim.value)
  {
    var bestIdle, bestRss := -1, -1;
    victim := None;
    for i := 0 to |cs|
      invariant victim.None? ==> bestIdle == -1 && forall j :: 0 <= j < i ==> !cs[j].running
      invariant victim.Some? ==>
        && Chosen(cs[..i], now, victim.value)
        && bestIdle == Idle(cs[victim.value], now) && bestRss == cs[victim.value].rss
    {
      if !cs[i].running {
        continue;
      }
      var idle := now - cs[i].lastActive;
      if idle < 0 {
        idle := 0;
      }
      var rss := cs[i].rss;
      if idle > bestIdle || (idle == bestIdle && rss > bestRss) {
        bestIdle, bestRss, victim := idle, rss, Some(i);
      }
    }
    assert cs[..|cs|] == cs;
  }

  /** The choice is determined. */
  lemma ChosenOnce(cs: seq<Candidate>, now: int, v: nat, w: nat)
    requires Chosen(cs, now, v) && Chosen(cs, now, w)
    ensures v == w
  {
  }
}
