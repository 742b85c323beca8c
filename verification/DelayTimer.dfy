/** include/DelayTimer.h: a signal with switch-on and switch-off delays, against a declarative debouncer. */
module DelayTimers {
  import opened PassiveTimers

  datatype Sample = Sample(time: int, st: bool)

  /** A signal that held for `span` has outlasted its delay. */
  predicate Outlasts(span: int, delay: int) {
    delay <= 0 || (delay != WAIT_UP_TIME && span >= delay)
  }

  /** The sample with which the signal took its latest value. */
  function RunStart(h: seq<Sample>): (i: nat)
    requires h != []
    ensures i < |h|
  {
    var n := |h| - 1;
    if n == 0 || h[n - 1].st != h[n].st then n else RunStart(h[..n])
  }

  function Delay(st: bool, onDelay: int, offDelay: int): int {
    if st then onDelay else offDelay
  }

  /** At its last sample the signal has held its value long enough. */
  predicate Settled(h: seq<Sample>, onDelay: int, offDelay: int)
    requires h != []
  {
    var last := h[|h| - 1];
    Outlasts(last.time - h[RunStart(h)].time, Delay(last.st, onDelay, offDelay))
  }

  /** The debounced signal: the value that settled last, at first false. */
  function Output(h: seq<Sample>, onDelay: int, offDelay: int): bool {
    if h == [] then false
    else if Settled(h, onDelay, offDelay) then h[|h| - 1].st
    else Output(h[..|h| - 1], onDelay, offDelay)
  }

  /** RunStart is the beginning of the longest stretch of equal samples up to the end. */
  lemma {:induction false} RunStartIsMaximal(h: seq<Sample>, i: nat)
    requires i < |h|
    ensures i == RunStart(h) <==>
              (forall k | i <= k < |h| :: h[k].st == h[|h| - 1].st) && (i > 0 ==> h[i - 1].st != h[|h| - 1].st)
  {
    var n := |h| - 1;
    if n > 0 && h[n - 1].st == h[n].st {
      assert h[..n][n - 1] == h[n - 1];
      if i < n {
        RunStartIsMaximal(h[..n], i);
        assert forall k | i <= k < n :: h[..n][k] == h[k];
      } else {
        assert h[i - 1].st == h[n].st;
      }
    } else if i < n {
      assert h[n - 1].st != h[n].st;
    }
  }

  ghost predicate SettledAt(h: seq<Sample>, i: int, onDelay: int, offDelay: int) {
    0 <= i < |h| && Settled(h[..i + 1], onDelay, offDelay)
  }

  /** A true value settled at `j`, and no false one since. */
  ghost predicate TrueSince(h: seq<Sample>, j: int, onDelay: int, offDelay: int) {
    && SettledAt(h, j, onDelay, offDelay) && h[j].st
    && forall i | j < i < |h| && SettledAt(h, i, onDelay, offDelay) :: h[i].st
  }

  lemma SettledBefore(h: seq<Sample>, i: int, onDelay: int, offDelay: int)
    requires 0 <= i < |h| - 1
    ensures SettledAt(h[..|h| - 1], i, onDelay, offDelay) == SettledAt(h, i, onDelay, offDelay)
    ensures h[..|h| - 1][i] == h[i]
  {
    assert h[..|h| - 1][..i + 1] == h[..i + 1];
  }

  lemma SettledLast(h: seq<Sample>, onDelay: int, offDelay: int)
    requires h != []
    ensures SettledAt(h, |h| - 1, onDelay, offDelay) == Settled(h, onDelay, offDelay)
  {
    assert h[..|h|] == h;
  }

  lemma TrueSinceBefore(h: seq<Sample>, j: int, onDelay: int, offDelay: int)
    requires h != [] && j < |h| - 1
    requires TrueSince(h, j, onDelay, offDelay)
    ensures TrueSince(h[..|h| - 1], j, onDelay, offDelay)
    ensures Settled(h, onDelay, offDelay) ==> h[|h| - 1].st
  {
    var n := |h| - 1;
    SettledLast(h, onDelay, offDelay);
    SettledBefore(h, j, onDelay, offDelay);
    forall i | j < i < n && SettledAt(h[..n], i, onDelay, offDelay)
      ensures h[..n][i].st
    {
      SettledBefore(h, i, onDelay, offDelay);
    }
  }

  lemma TrueSinceAfter(h: seq<Sample>, j: int, onDelay: int, offDelay: int)
    requires h != []
    requires TrueSince(h[..|h| - 1], j, onDelay, offDelay)
    requires Settled(h, onDelay, offDelay) ==> h[|h| - 1].st
    ensures TrueSince(h, j, onDelay, offDelay)
  {
    var n := |h| - 1;
    SettledLast(h, onDelay, offDelay);
    SettledBefore(h, j, onDelay, offDelay);
    forall i | j < i < |h| && SettledAt(h, i, onDelay, offDelay)
      ensures h[i].st
    {
      if i < n {
        SettledBefore(h, i, onDelay, offDelay);
      }
    }
  }

  lemma {:induction false} OutputHasSince(h: seq<Sample>, onDelay: int, offDelay: int) returns (j: int)
    requires Output(h, onDelay, offDelay)
    ensures TrueSince(h, j, onDelay, offDelay)
  {
    if Settled(h, onDelay, offDelay) {
      SettledLast(h, onDelay, offDelay);
      j := |h| - 1;
    } else {
      j := OutputHasSince(h[..|h| - 1], onDelay, offDelay);
      TrueSinceAfter(h, j, onDelay, offDelay);
    }
  }

  lemma {:induction false} SinceHasOutput(h: seq<Sample>, j: int, onDelay: int, offDelay: int)
    requires TrueSince(h, j, onDelay, offDelay)
    ensures Output(h, onDelay, offDelay)
  {
    SettledLast(h, onDelay, offDelay);
    if j < |h| - 1 {
      TrueSinceBefore(h, j, onDelay, offDelay);
      SinceHasOutput(h[..|h| - 1], j, onDelay, offDelay);
    }
  }

  /** Without recursion: the output is true exactly if some true value settled and no false one since. */
  lemma OutputIsLastSettled(h: seq<Sample>, onDelay: int, offDelay: int)
    ensures Output(h, onDelay, offDelay) <==> exists j :: TrueSince(h, j, onDelay, offDelay)
  {
    if Output(h, onDelay, offDelay) {
      var j := OutputHasSince(h, onDelay, offDelay);
    }
    if j :| TrueSince(h, j, onDelay, offDelay) {
      SinceHasOutput(h, j, onDelay, offDelay);
    }
  }

  // ---- A signal that is switched once.

  ghost predicate Holds(h: seq<Sample>, from: nat, st: bool) {
    from < |h| && forall i | from <= i < |h| :: h[i].st == st
  }

  /** The stretch that began with sample `from` is over its delay at sample `i`: at once for none, never for
      WaitUpTime. */
  predicate Due(h: seq<Sample>, from: nat, i: nat, delay: int)
    requires from <= i < |h|
  {
    delay <= 0 || (delay != WAIT_UP_TIME && h[i].time - h[from].time >= delay)
  }

  lemma {:induction false} NeverDown(h: seq<Sample>, onDelay: int, offDelay: int)
    requires forall i | 0 <= i < |h| :: !h[i].st
    ensures !Output(h, onDelay, offDelay)
  {
    if h != [] {
      NeverDown(h[..|h| - 1], onDelay, offDelay);
    }
  }

  ghost predicate InTimeOrder(h: seq<Sample>) {
    forall i, j | 0 <= i < j < |h| :: h[i].time <= h[j].time
  }

  /** A signal that was false and is true from sample `from` on: the output is true exactly when onDelay is over. */
  lemma {:induction false} SwitchOnTime(h: seq<Sample>, from: nat, onDelay: int, offDelay: int)
    requires Holds(h, from, true) && (forall i | 0 <= i < from :: !h[i].st) && InTimeOrder(h)
    ensures Output(h, onDelay, offDelay) <==> Due(h, from, |h| - 1, onDelay)
  {
    var n := |h| - 1;
    RunStartIsMaximal(h, from);
    if n == from {
      NeverDown(h[..n], onDelay, offDelay);
    } else {
      SwitchOnTime(h[..n], from, onDelay, offDelay);
    }
  }

  /** A signal that is false from sample `from` on, where the output was true: it is so until offDelay is over. */
  lemma {:induction false} SwitchOffTime(h: seq<Sample>, from: nat, onDelay: int, offDelay: int)
    requires 0 < from && Holds(h, from, false) && h[from - 1].st && Output(h[..from], onDelay, offDelay)
             && InTimeOrder(h)
    ensures Output(h, onDelay, offDelay) <==> !Due(h, from, |h| - 1, offDelay)
  {
    var n := |h| - 1;
    RunStartIsMaximal(h, from);
    if n > from {
      assert h[..n][..from] == h[..from];
      SwitchOffTime(h[..n], from, onDelay, offDelay);
    }
  }

  /** One sample more. */
  lemma OneMoreSample(h: seq<Sample>, last: Sample, onDelay: int, offDelay: int)
    ensures var h', start := h + [last], RunStart(h + [last]);
            && start == (if h == [] || h[|h| - 1].st != last.st then |h| else RunStart(h))
            && h'[start] == (if start == |h| then last else h[start])
            && Output(h', onDelay, offDelay) ==
                 if Settled(h', onDelay, offDelay) then last.st else Output(h, onDelay, offDelay)
  {
    assert (h + [last])[..|h|] == h;
  }

  class DelayTimer {
    var pt: PassiveTimer
    var prevState: bool
    var state: bool
    var onDelay: int
    var offDelay: int
    var waiting_on: bool
    var waiting_off: bool
    ghost var history: seq<Sample>  // what was checked since the last set or reset

    /** The output is the debounced history; a wait runs exactly while signal and output differ. */
    ghost predicate Valid()
      reads this
    {
      && state == Output(history, onDelay, offDelay)
      && if history == [] then !waiting_on && !waiting_off
         else
           var last := history[|history| - 1].st;
           && prevState == last
           && waiting_on == (last && !state) && waiting_off == (!last && state)
           && (waiting_on || waiting_off ==>
                 pt == PassiveTimer(Delay(last, onDelay, offDelay), history[RunStart(history)].time) && pt.interval > 0)
    }

    ghost predicate NotBefore(now: int)
      reads this
    {
      history == [] || history[|history| - 1].time <= now
    }

    constructor (on_msec: int, off_msec: int)
      ensures Valid() && history == [] && onDelay == on_msec && offDelay == off_msec && !prevState
    {
      pt := PassiveTimer(WAIT_UP_TIME, 0);
      prevState, state, waiting_on, waiting_off := false, false, false, false;
      onDelay, offDelay := on_msec, off_msec;
      history := [];
    }

    method Set(on_msec: int, off_msec: int)
      modifies this
      ensures Valid() && history == [] && onDelay == on_msec && offDelay == off_msec && prevState == old(prevState)
    {
      onDelay := on_msec;
      offDelay := off_msec;
      waiting_on := false;
      waiting_off := false;
      state := false;
      history := [];
    }

    method Reset(now: int)
      modifies this
      ensures Valid() && history == [] && onDelay == old(onDelay) && offDelay == old(offDelay) && !prevState
    {
      pt := pt.Reset(now);
      prevState := false;
      waiting_on := false;
      waiting_off := false;
      state := false;
      history := [];
    }

    /** check: the debounced signal, for every history of samples at times that do not decrease. */
    method Check(st: bool, now: int) returns (r: bool)
      requires Valid() && NotBefore(now)
      modifies this
      ensures Valid() && history == old(history) + [Sample(now, st)]
      ensures onDelay == old(onDelay) && offDelay == old(offDelay)
      ensures r == Output(history, onDelay, offDelay)
      ensures !(waiting_on && waiting_off) && (waiting_on ==> !r) && (waiting_off ==> r)
    {
      ghost var h := history;
      history := h + [Sample(now, st)];
      OneMoreSample(h, Sample(now, st), onDelay, offDelay);
      prevState := st;
      if waiting_off {
        if pt.CheckTime(now) {
          waiting_off := false;
          if !st {
            state := false;
          }
          return state;
        } else if st {
          waiting_off := false;
        }
        return state;
      }
      if waiting_on {
        if pt.CheckTime(now) {
          waiting_on := false;
          if st {
            state := true;
          }
          return state;
        } else if !st {
          waiting_on := false;
        }
        return state;
      }
      if state != st {
        waiting_on := false;
        waiting_off := false;
        if st {
          if onDelay <= 0 {
            pt := SetTiming(0, now);
            state := st;
            return st;
          }
          pt := SetTiming(onDelay, now);
          waiting_on := true;
        } else {
          if offDelay <= 0 {
            pt := SetTiming(0, now);
            state := st;
            return st;
          }
          pt := SetTiming(offDelay, now);
          waiting_off := true;
        }
      }
      return state;
    }

    /** get: the last sample once more. */
    method Get(now: int) returns (r: bool)
      requires Valid() && NotBefore(now)
      modifies this
      ensures Valid() && history == old(history) + [Sample(now, old(prevState))]
      ensures onDelay == old(onDelay) && offDelay == old(offDelay)
      ensures r == Output(history, onDelay, offDelay)
    {
      r := Check(prevState, now);
    }

    /** isWaiting: the signal differs from the output. */
    method IsWaiting(now: int) returns (r: bool)
      requires Valid() && NotBefore(now)
      modifies this
      ensures Valid() && history == old(history) + [Sample(now, old(prevState))]
      ensures onDelay == old(onDelay) && offDelay == old(offDelay)
      ensures r == (old(prevState) != Output(history, onDelay, offDelay))
    {
      var _ := Check(prevState, now);
      r := waiting_off || waiting_on;
    }
  }
}
