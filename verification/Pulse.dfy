/** include/Pulse.h: pulses of t1 and pauses of t0, seen only at the moments at which step() is called. */
module Pulses {
  import opened PassiveTimers
  import opened Remainders

  datatype PulseState = PulseState(t1: PassiveTimer, t0: PassiveTimer, ostate: bool, enabled: bool,
                                   t1_msec: int, t0_msec: int)

  function AfterSet(s: PulseState, state: bool, now: int): PulseState {
    if !state then s.(enabled := false, ostate := false)
    else s.(enabled := true, t1 := s.t1.Reset(now), t0 := s.t0.Reset(now), ostate := true)
  }

  /** run(t1, t0). */
  function Started(t1: int, t0: int, now: int): PulseState {
    PulseState(SetTiming(t1, now), SetTiming(t0, now), true, true, t1, t0)
  }

  /** step(): first the end of a pulse, then, perhaps in the same call, the end of a pause. */
  function AfterStep(s: PulseState, now: int): PulseState {
    if !s.enabled then s.(ostate := false)
    else
      var s1 := if s.ostate && s.t1.CheckTime(now) then s.(ostate := false, t0 := SetTiming(s.t0_msec, now)) else s;
      if !s1.ostate && s1.t0.CheckTime(now) then s1.(ostate := true, t1 := SetTiming(s1.t1_msec, now)) else s1
  }

  /** set(true) and reset() start a pulse anew, as run() does: a pulse that was set up by run() or step() is
      afterwards one that was just run with the same times. */
  lemma SetRestarts(s: PulseState, now: int)
    requires s.t1.interval == s.t1_msec && s.t0.interval == s.t0_msec
    ensures AfterSet(s, true, now) == Started(s.t1_msec, s.t0_msec, now)
  {
  }

  /** Every state that comes from run() has these intervals. */
  lemma StepKeepsIntervals(s: PulseState, now: int)
    requires s.t1.interval == s.t1_msec && s.t0.interval == s.t0_msec
    ensures var s' := AfterStep(s, now);
            && s'.t1.interval == s'.t1_msec == s.t1_msec && s'.t0.interval == s'.t0_msec == s.t0_msec
            && s'.enabled == s.enabled
  {
  }

  /** set(false): every later call answers false and wakes nothing. */
  lemma SetStops(s: PulseState, now: int, later: int)
    ensures var s' := AfterSet(s, false, now);
            !s'.ostate && AfterStep(s', later) == s'
  {
  }

  class Pulse {
    var t1: PassiveTimer
    var t0: PassiveTimer
    var ostate: bool
    var enabled: bool
    var t1_msec: int
    var t0_msec: int

    ghost function State(): PulseState
      reads this
    {
      PulseState(t1, t0, ostate, enabled, t1_msec, t0_msec)
    }

    constructor ()
      ensures !enabled && !ostate
    {
      t1, t0 := PassiveTimer(WAIT_UP_TIME, 0), PassiveTimer(WAIT_UP_TIME, 0);
      ostate, enabled, t1_msec, t0_msec := false, false, 0, 0;
    }

    method SetTimes(t1_msec: int, t0_msec: int, run: bool, now: int)
      modifies this
      ensures run ==> State() == Started(t1_msec, t0_msec, now)
      ensures !run ==> State() == Started(t1_msec, t0_msec, now).(enabled := false, ostate := false)
    {
      this.t1_msec := t1_msec;
      this.t0_msec := t0_msec;
      t1 := SetTiming(t1_msec, now);
      t0 := SetTiming(t0_msec, now);
      Set(run, now);
    }

    method Set(state: bool, now: int)
      modifies this
      ensures State() == AfterSet(old(State()), state, now)
    {
      enabled := state;
      if !enabled {
        ostate := false;
      } else {
        t1 := t1.Reset(now);
        t0 := t0.Reset(now);
        ostate := true;
      }
    }

    method Step(now: int) returns (out: bool)
      modifies this
      ensures State() == AfterStep(old(State()), now) && out == ostate
    {
      if !enabled {
        ostate := false;
        return false;
      }
      if ostate && t1.CheckTime(now) {
        ostate := false;
        t0 := SetTiming(t0_msec, now);
      }
      if !ostate && t0.CheckTime(now) {
        ostate := true;
        t1 := SetTiming(t1_msec, now);
      }
      return ostate;
    }
  }

  // ---- Called at every tick.

  /** The state after the calls at start, start + 1, ..., start + k. */
  function EveryTick(t1: int, t0: int, start: int, k: nat): PulseState {
    AfterStep(if k == 0 then Started(t1, t0, start) else EveryTick(t1, t0, start, k - 1), start + k)
  }

  lemma {:induction false} EveryTickState(t1: int, t0: int, start: int, k: nat)
    requires 1 <= t1 < WAIT_UP_TIME && 0 <= t0 < WAIT_UP_TIME
    ensures var s, r := EveryTick(t1, t0, start, k), k % (t1 + t0);
            && s.enabled && s.t1_msec == t1 && s.t0_msec == t0 && s.ostate == (r < t1)
            && if s.ostate then s.t1 == PassiveTimer(t1, start + k - r)
               else s.t0 == PassiveTimer(t0, start + k - (r - t1))
  {
    if k == 0 {
      assert 0 % (t1 + t0) == 0;
    } else {
      EveryTickState(t1, t0, start, k - 1);
      NextRemainder(k - 1, t1 + t0);
    }
  }

  lemma {:induction false} NoPulseTime(t0: int, start: int, k: nat)
    requires k < t0 < WAIT_UP_TIME
    ensures var s := EveryTick(0, t0, start, k);
            s.enabled && !s.ostate && s.t0 == PassiveTimer(t0, start) && s.t0_msec == t0
  {
    if k > 0 {
      NoPulseTime(t0, start, k - 1);
    }
  }

  /** At every tick the output is true for the first t1 of t1 + t0 ticks, exactly for t1 >= 1. */
  lemma SquareWaveExactly(t1: int, t0: int, start: int)
    requires 0 <= t1 < WAIT_UP_TIME && 0 <= t0 < WAIT_UP_TIME && t1 + t0 >= 1
    ensures (forall k: nat :: EveryTick(t1, t0, start, k).ostate == (k % (t1 + t0) < t1)) <==> t1 >= 1
  {
    if t1 >= 1 {
      forall k: nat ensures EveryTick(t1, t0, start, k).ostate == (k % (t1 + t0) < t1) {
        EveryTickState(t1, t0, start, k);
      }
    } else {
      NoPulseTime(t0, start, t0 - 1);
      assert EveryTick(t1, t0, start, t0).ostate;
      assert t0 % (t1 + t0) >= 0;
    }
  }

  // ---- Called at any times.

  /** The moment of the last call, or of run(). */
  function LastCall(times: seq<int>, start: int): int {
    if times == [] then start else times[|times| - 1]
  }

  ghost predicate Polls(times: seq<int>, start: int) {
    times == [] || var n := |times| - 1; Polls(times[..n], start) && LastCall(times[..n], start) <= times[n]
  }

  lemma {:induction false} PollsPrefix(times: seq<int>, start: int, n: nat)
    requires Polls(times, start) && n <= |times|
    ensures Polls(times[..n], start)
    decreases |times|
  {
    if n == |times| {
      assert times[..n] == times;
    } else {
      assert times[..|times| - 1][..n] == times[..n];
      PollsPrefix(times[..|times| - 1], start, n);
    }
  }

  function Polled(t1: int, t0: int, start: int, times: seq<int>): PulseState {
    if times == [] then Started(t1, t0, start)
    else var n := |times| - 1; AfterStep(Polled(t1, t0, start, times[..n]), times[n])
  }

  /** The output of call `i`. */
  function Out(t1: int, t0: int, start: int, times: seq<int>, i: nat): bool
    requires i < |times|
  {
    Polled(t1, t0, start, times[..i + 1]).ostate
  }

  /** Calls i to j have one output, and call i is the first of them. */
  ghost predicate Phase(t1: int, t0: int, start: int, times: seq<int>, i: nat, j: nat) {
    && i <= j < |times|
    && (forall k | i <= k <= j :: Out(t1, t0, start, times, k) == Out(t1, t0, start, times, i))
    && (i > 0 ==> Out(t1, t0, start, times, i - 1) != Out(t1, t0, start, times, i))
  }

  /** The moment at which the phase that shows at call `i` began. */
  function PhaseStart(t1: int, t0: int, start: int, times: seq<int>, i: nat): int
    requires i < |times|
  {
    if i == 0 && Out(t1, t0, start, times, 0) then start else times[i]
  }

  lemma {:induction false} PolledState(t1: int, t0: int, start: int, times: seq<int>)
    requires 0 <= t1 < WAIT_UP_TIME && 1 <= t0 < WAIT_UP_TIME && Polls(times, start)
    ensures var s, now := Polled(t1, t0, start, times), LastCall(times, start);
            && s.enabled && s.t1_msec == t1 && s.t0_msec == t0 && s.t1.interval == t1 && s.t0.interval == t0
            && if s.ostate then s.t1.start <= now && (now - s.t1.start < t1 || now == s.t1.start)
               else s.t0.start <= now && now - s.t0.start < t0
  {
    if times != [] {
      PolledState(t1, t0, start, times[..|times| - 1]);
    }
  }

  /** One more call: the timer of the output starts anew exactly when the output changes. */
  lemma CallChanges(t1: int, t0: int, start: int, times: seq<int>, j: nat)
    requires 0 <= t1 < WAIT_UP_TIME && 1 <= t0 < WAIT_UP_TIME && Polls(times, start) && j < |times|
    ensures var s, s' := Polled(t1, t0, start, times[..j]), Polled(t1, t0, start, times[..j + 1]);
            var d, since := if s.ostate then t1 else t0, times[j] - (if s.ostate then s.t1 else s.t0).start;
            if s'.ostate == s.ostate then since < d && s' == s
            else since >= d && (if s'.ostate then s'.t1 else s'.t0).start == times[j]
  {
    assert times[..j + 1][..j] == times[..j];
    PollsPrefix(times, start, j + 1);
    PolledState(t1, t0, start, times[..j]);
  }

  /** During a phase its timer keeps the moment at which it began. */
  lemma {:induction false} PhaseTimer(t1: int, t0: int, start: int, times: seq<int>, i: nat, j: nat)
    requires 0 <= t1 < WAIT_UP_TIME && 1 <= t0 < WAIT_UP_TIME && Polls(times, start)
             && Phase(t1, t0, start, times, i, j)
    ensures var s := Polled(t1, t0, start, times[..j + 1]);
            (if s.ostate then s.t1 else s.t0).start == PhaseStart(t1, t0, start, times, i)
    decreases j
  {
    CallChanges(t1, t0, start, times, j);
    if i < j {
      assert Out(t1, t0, start, times, j - 1) == Out(t1, t0, start, times, j);
      PhaseTimer(t1, t0, start, times, i, j - 1);
    } else if i > 0 {
      assert Out(t1, t0, start, times, i - 1) != Out(t1, t0, start, times, i);
    } else {
      assert times[..0] == [];
    }
  }

  /** Any polling: a phase lasts at least its time, and less than one gap between calls longer. */
  lemma PhaseLength(t1: int, t0: int, start: int, times: seq<int>, i: nat, j: nat, gap: int)
    requires 0 <= t1 < WAIT_UP_TIME && 1 <= t0 < WAIT_UP_TIME && Polls(times, start)
    requires Phase(t1, t0, start, times, i, j) && j + 1 < |times|
    requires Out(t1, t0, start, times, j + 1) != Out(t1, t0, start, times, i)
    requires times[j + 1] - times[j] <= gap
    ensures var d := if Out(t1, t0, start, times, i) then t1 else t0;
            var length := times[j + 1] - PhaseStart(t1, t0, start, times, i);
            d <= length && (length < d + gap || (d == 0 && length <= gap))
  {
    assert Out(t1, t0, start, times, j) == Out(t1, t0, start, times, i);
    PhaseTimer(t1, t0, start, times, i, j);
    CallChanges(t1, t0, start, times, j + 1);
    PollsPrefix(times, start, j + 1);
    PolledState(t1, t0, start, times[..j + 1]);
    assert LastCall(times[..j + 1], start) == times[j];
  }

  /** Without a pause the output is true at every call. */
  lemma {:induction false} NoPauseTime(t1: int, start: int, times: seq<int>)
    ensures var s := Polled(t1, 0, start, times); s.ostate && s.enabled && s.t0_msec == 0
  {
    if times != [] {
      NoPauseTime(t1, start, times[..|times| - 1]);
    }
  }
}
