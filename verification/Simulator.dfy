/** Utilities/SImitator/main.cc: the endless wave loop, without a modifying function. */
module Simulator {
  import opened Remainders

  /** The number of steps from one bound to the other. */
  function Steps(amin: int, amax: int, astep: int): (k: nat)
    requires amin <= amax && astep > 0
    ensures (k - 1) * astep < amax - amin <= k * astep
  {
    var n := amax - amin + astep - 1;
    assert n == n / astep * astep + n % astep;
    var k := n / astep;
    assert (k - 1) * astep == k * astep - astep;
    k
  }

  /** The value `r` steps into a period: up from amin, cut off at amax, and down again, cut off at amin. */
  function Height(amin: int, amax: int, astep: int, r: nat): int
    requires amin <= amax && astep > 0
  {
    var k := Steps(amin, amax, astep);
    if r <= k then (if amin + r * astep < amax then amin + r * astep else amax)
    else if amax - (r - k) * astep > amin then amax - (r - k) * astep else amin
  }

  /** The n-th output. */
  function Wave(amin: int, amax: int, astep: int, n: nat): int
    requires amin <= amax && astep > 0
  {
    var k := Steps(amin, amax, astep);
    if k == 0 then amin else Height(amin, amax, astep, n % (2 * k))
  }

  lemma WaveInRangeAndPeriodic(amin: int, amax: int, astep: int, n: nat)
    requires amin <= amax && astep > 0
    ensures amin <= Wave(amin, amax, astep, n) <= amax
    ensures Wave(amin, amax, astep, n + 2 * Steps(amin, amax, astep)) == Wave(amin, amax, astep, n)
  {
    var k := Steps(amin, amax, astep);
    if k > 0 {
      var q, r, p := n / (2 * k), n % (2 * k), 2 * k;
      assert n + p == (q + 1) * p + r by {
        assert n == q * p + r;
        assert (q + 1) * p == q * p + p;
      }
      RemainderOf(n + p, q + 1, r, p);
      HeightInRange(amin, amax, astep, r);
    }
  }

  /** The outputs of the q-th period: up in steps from amin, cut off at amax, down in steps, cut off at amin. */
  lemma WaveClosedForm(amin: int, amax: int, astep: int, k: nat, q: nat, r: nat)
    requires amin < amax && astep > 0 && (k - 1) * astep < amax - amin <= k * astep && r < 2 * k
    ensures Wave(amin, amax, astep, q * (2 * k) + r) ==
              if r < k then amin + r * astep
              else if amax - (r - k) * astep > amin then amax - (r - k) * astep else amin
  {
    var s := Steps(amin, amax, astep);
    if s < k {
      TimesGrows(s, k - 1, astep);
    } else if k < s {
      TimesGrows(k, s - 1, astep);
    }
    RemainderOf(q * (2 * k) + r, q, r, 2 * k);
    if r < k {
      TimesGrows(r, k - 1, astep);
    }
  }

  lemma HeightInRange(amin: int, amax: int, astep: int, r: nat)
    requires amin <= amax && astep > 0
    ensures amin <= Height(amin, amax, astep, r) <= amax
  {
    var k := Steps(amin, amax, astep);
    if r <= k {
      assert r * astep >= 0;
    } else {
      assert (r - k) * astep >= 0;
    }
  }

  predicate Int32(x: int) {
    -0x8000_0000 <= x < 0x8000_0000
  }

  /** The values of i and j after the output `r` steps into a period; r = -1 before the first one. */
  ghost predicate AtStep(amin: int, amax: int, astep: int, r: int, i: int, j: int)
    requires amin <= amax && astep > 0
  {
    var k := Steps(amin, amax, astep);
    if k == 0 then j == amax && (i == amin || i == amin - astep)
    else && -1 <= r < 2 * k
         && i == (if r < k then amin + r * astep else amax)
         && j == if r <= k then amax else amax - (r - k) * astep
  }

  /** The step of a period that follows step `r`. */
  function NextStep(k: nat, r: int): int {
    if r + 1 == 2 * k then 0 else r + 1
  }

  /** Products of the step that the loop compares. */
  lemma StepBounds(amin: int, amax: int, astep: int, r: int)
    requires amin < amax && astep > 0
    ensures var k := Steps(amin, amax, astep);
            && (r < k ==> r * astep < amax - amin) && (r >= k ==> r * astep >= amax - amin)
            && (r >= -1 ==> r * astep >= -astep) && (r + 1) * astep == r * astep + astep
  {
    var k := Steps(amin, amax, astep);
    if r < k {
      TimesGrows(r, k - 1, astep);
    } else {
      TimesGrows(k, r, astep);
    }
    if r >= -1 {
      TimesGrows(-1, r, astep);
    }
  }

  lemma TimesGrows(a: int, b: int, s: int)
    requires a <= b && s > 0
    ensures a * s <= b * s
  {
    assert b * s - a * s == (b - a) * s;
  }

  /** The step of the output before the n-th one. */
  function StepBefore(k: nat, n: nat): int {
    if n == 0 then -1 else NextStep(k, StepBefore(k, n - 1))
  }

  lemma {:induction false} StepIsRemainder(k: nat, n: nat)
    requires k > 0
    ensures StepBefore(k, n + 1) == n % (2 * k)
  {
    if n == 0 {
      assert StepBefore(k, 0) == -1 && 0 % (2 * k) == 0;
    } else {
      StepIsRemainder(k, n - 1);
      NextRemainder(n - 1, 2 * k);
    }
  }

  lemma NextTurn(amin: int, amax: int, astep: int, n: nat)
    requires amin < amax && astep > 0
    ensures var k := Steps(amin, amax, astep);
            0 <= StepBefore(k, n + 1) && Wave(amin, amax, astep, n) == Height(amin, amax, astep, StepBefore(k, n + 1))
  {
    StepIsRemainder(Steps(amin, amax, astep), n);
  }

  /** A turn on the way up. */
  lemma UpTurn(amin: int, amax: int, astep: int, i: int, j: int, n: nat) returns (val: int)
    requires amin < amax && astep > 0
    requires var k := Steps(amin, amax, astep);
             StepBefore(k, n) < k && AtStep(amin, amax, astep, StepBefore(k, n), i, j)
    ensures amin - astep <= i < amax && val == (if i + astep > amax then amax else i + astep)
    ensures val == Wave(amin, amax, astep, n)
            && AtStep(amin, amax, astep, StepBefore(Steps(amin, amax, astep), n + 1), val, j)
  {
    var r := StepBefore(Steps(amin, amax, astep), n);
    NextTurn(amin, amax, astep, n);
    val := Wave(amin, amax, astep, n);
    StepBounds(amin, amax, astep, r);
    StepBounds(amin, amax, astep, r + 1);
  }

  /** A turn on the way down; at amin a new period begins. */
  lemma DownTurn(amin: int, amax: int, astep: int, i: int, j: int, n: nat) returns (i': int, j': int, val: int)
    requires amin < amax && astep > 0
    requires var k := Steps(amin, amax, astep);
             StepBefore(k, n) >= k && AtStep(amin, amax, astep, StepBefore(k, n), i, j)
    ensures i == amax && amin <= j <= amax && val == (if j - astep < amin then amin else j - astep)
    ensures i' == (if val <= amin then amin else i) && j' == (if val <= amin then amax else val)
    ensures val == Wave(amin, amax, astep, n)
            && AtStep(amin, amax, astep, StepBefore(Steps(amin, amax, astep), n + 1), i', j')
  {
    var k := Steps(amin, amax, astep);
    var r := StepBefore(k, n);
    NextTurn(amin, amax, astep, n);
    val := Wave(amin, amax, astep, n);
    i', j' := if val <= amin then amin else i, if val <= amin then amax else val;
    StepBounds(amin, amax, astep, r - k);
    StepBounds(amin, amax, astep, r + 1 - k);
    assert (r - k) * astep >= 0 && 0 * astep == 0;
  }

  /** Equal bounds: the output never moves. */
  lemma FlatTurn(amin: int, amax: int, astep: int, i: int, j: int, n: nat)
    requires amin <= amax && astep > 0 && Steps(amin, amax, astep) == 0
             && AtStep(amin, amax, astep, StepBefore(0, n), i, j)
    ensures amin == amax && Wave(amin, amax, astep, n) == amin
            && AtStep(amin, amax, astep, StepBefore(0, n + 1), amin, j)
    ensures j == amax && (i == amin || i == amin - astep)
  {
  }

  /** What the n-th turn finds in i and j, what it makes of them, and what it puts out. */
  lemma TurnIsStep(amin: int, amax: int, astep: int, i: int, j: int, n: nat) returns (i': int, j': int, val: int)
    requires amin <= amax && astep > 0 && AtStep(amin, amax, astep, StepBefore(Steps(amin, amax, astep), n), i, j)
    ensures val == Wave(amin, amax, astep, n)
            && AtStep(amin, amax, astep, StepBefore(Steps(amin, amax, astep), n + 1), i', j')
    ensures if i >= amax then
              amin <= j <= amax && val == (if j - astep < amin then amin else j - astep)
              && i' == (if val <= amin then amin else i) && j' == (if val <= amin then amax else val)
            else
              amin - astep <= i && val == (if i + astep > amax then amax else i + astep) && i' == val && j' == j
  {
    var k := Steps(amin, amax, astep);
    if k == 0 {
      FlatTurn(amin, amax, astep, i, j, n);
      i', j', val := amin, j, amin;
    } else if StepBefore(k, n) < k {
      val := UpTurn(amin, amax, astep, i, j, n);
      i', j' := val, j;
    } else {
      i', j', val := DownTurn(amin, amax, astep, i, j, n);
    }
  }

  /** The initialisation and the first `count` turns of the loop; no sum leaves the 32-bit int. */
  method Simulate(min: int, max: int, astep: int, count: nat) returns (out: seq<int>)
    requires astep > 0
    requires var lo, hi := if min <= max then min else max, if min <= max then max else min;
             Int32(lo - astep) && Int32(hi - 1 + astep) && Int32(hi)
    ensures |out| == count
    ensures var lo, hi := if min <= max then min else max, if min <= max then max else min;
            forall n | 0 <= n < count :: out[n] == Wave(lo, hi, astep, n)
  {
    var amin, amax := min, max;
    if amin > amax {
      amin, amax := amax, amin;
    }
    var i, j := amin - astep, amax;
    out := [];
    ghost var k := Steps(amin, amax, astep);
    for n := 0 to count
      invariant |out| == n && AtStep(amin, amax, astep, StepBefore(k, n), i, j)
      invariant forall m | 0 <= m < n :: out[m] == Wave(amin, amax, astep, m)
    {
      ghost var i', j', wave := TurnIsStep(amin, amax, astep, i, j, n);
      var val;
      if i >= amax {
        j := j - astep;
        assert Int32(j);
        if j < amin {
          j := amin;
        }
        val := j;
        if j <= amin {
          i := amin;
          j := amax;
        }
      } else {
        i := i + astep;
        assert Int32(i);
        if i > amax {
          i := amax;
        }
        val := i;
      }
      assert i == i' && j == j' && val == wave;
      out := out + [val];
    }
  }
}
