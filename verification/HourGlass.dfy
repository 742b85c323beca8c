/** include/HourGlass.h: the hourglass with its one timer, against one whose sand falls tick by tick. */
module HourGlasses {
  import opened PassiveTimers

  /** The ideal glass: `down` is the direct way, in which the sand left decreases. */
  datatype Glass = Glass(size: int, sand: int, down: bool)

  function Tick(g: Glass): Glass {
    if g.down then g.(sand := if g.sand > 0 then g.sand - 1 else 0)
    else g.(sand := if g.sand < g.size then g.sand + 1 else g.size)
  }

  function Ticks(g: Glass, n: nat): Glass {
    if n == 0 then g else Tick(Ticks(g, n - 1))
  }

  lemma {:induction false} TicksClosedForm(g: Glass, n: nat)
    requires 0 <= g.sand <= g.size
    ensures Ticks(g, n) == g.(sand := if g.down then (if g.sand > n then g.sand - n else 0)
                                      else if g.sand + n < g.size then g.sand + n else g.size)
  {
    if n > 0 {
      TicksClosedForm(g, n - 1);
    }
  }

  lemma {:induction false} TicksAdd(g: Glass, m: nat, n: nat)
    ensures Ticks(Ticks(g, m), n) == Ticks(g, m + n)
  {
    if n > 0 {
      TicksAdd(g, m, n - 1);
    }
  }

  /** The conversion to the 32-bit `int` in remain(). */
  function ToInt32(x: int): int {
    (x + 0x8000_0000) % 0x1_0000_0000 - 0x8000_0000
  }

  /** remain() of a glass whose timer shows `current`. */
  function RemainOf(down: bool, sand: int, size: int, current: int): int {
    var c := if current > size then size else current;
    if !down then
      var ret := sand + c;
      if ret > size then size else ret
    else
      var ret := ToInt32(sand - c);
      if ret < 0 then 0 else ret
  }

  /** Read in 32 bits, the sand of a running glass is right at every moment exactly for sizes below 2^31. */
  lemma RemainExactly(size: nat)
    ensures (forall n: nat :: RemainOf(true, size, size, n) == Ticks(Glass(size, size, true), n).sand)
            <==> size < 0x8000_0000
  {
    if size < 0x8000_0000 {
      forall n: nat ensures RemainOf(true, size, size, n) == Ticks(Glass(size, size, true), n).sand {
        TicksClosedForm(Glass(size, size, true), n);
      }
    } else {
      assert Ticks(Glass(size, size, true), 0).sand == size;
      assert RemainOf(true, size, size, 0) < 0x8000_0000;
    }
  }

  class HourGlass {
    var t: PassiveTimer
    var state: bool
    var sand: int
    var size: int
    ghost var ideal: Glass  // the ideal glass at the moment `clock`
    ghost var clock: int

    /** The ideal glass is what the sand at the last turn has become since then. */
    ghost predicate Valid()
      reads this
    {
      && 0 <= sand <= size < WAIT_UP_TIME && t.start <= clock
      && ideal == Ticks(Glass(size, sand, state), clock - t.start)
      && (state ==> t.interval == sand)
    }

    /** The ideal glass at a later moment. */
    ghost function At(now: int): Glass
      requires clock <= now
      reads this
    {
      Ticks(ideal, now - clock)
    }

    lemma AtIsTicks(now: int)
      requires Valid() && clock <= now
      ensures At(now) == Ticks(Glass(size, sand, state), now - t.start)
    {
      TicksAdd(Glass(size, sand, state), clock - t.start, now - clock);
    }

    constructor (now: int)
      ensures Valid() && clock == now && ideal == Glass(0, 0, false)
    {
      t := PassiveTimer(WAIT_UP_TIME, now);
      state, sand, size := false, 0, 0;
      ideal, clock := Glass(0, 0, false), now;
    }

    method Run(msec: int, now: int)
      requires 0 <= msec < WAIT_UP_TIME
      modifies this
      ensures Valid() && clock == now && ideal == Glass(msec, msec, true)
    {
      t := SetTiming(msec, now);
      state := true;
      sand := msec;
      size := msec;
      ideal, clock := Glass(msec, msec, true), now;
    }

    /** reset: a full glass of the same size starts anew. */
    method Reset(now: int)
      requires Valid()
      modifies this
      ensures Valid() && clock == now && ideal == Glass(old(size), old(size), true)
    {
      Run(size, now);
    }

    /** rotate: the ideal glass runs to this moment and is turned; a turn the same way changes nothing. */
    method Rotate(st: bool, now: int) returns (r: bool)
      requires Valid() && clock <= now
      modifies this
      ensures Valid() && clock == now && r == st
      ensures ideal == old(At(now)).(down := st)
      ensures st == old(state) ==> t == old(t) && state == old(state) && sand == old(sand) && size == old(size)
    {
      ghost var g := Glass(size, sand, state);
      AtIsTicks(now);
      TicksClosedForm(g, now - t.start);
      ideal, clock := At(now).(down := st), now;
      if st == state {
        return st;
      }
      state := st;
      if !state {
        var cur := t.GetCurrent(now);
        if cur > size {
          cur := size;
        }
        sand := if sand > cur then sand - cur else 0;
        t := SetTiming(cur, now);
      } else {
        var cur := t.GetCurrent(now);
        if cur > size {
          cur := size;
        }
        sand := sand + cur;
        if sand > size {
          sand := size;
        }
        t := SetTiming(sand, now);
      }
      return st;
    }

    /** check: all sand has fallen the direct way. */
    method Check(now: int) returns (r: bool)
      requires Valid() && clock <= now
      ensures r == (At(now).down && At(now).sand == 0)
    {
      AtIsTicks(now);
      TicksClosedForm(Glass(size, sand, state), now - t.start);
      if !state {
        return false;
      }
      r := t.CheckTime(now);
    }

    /** remain: the sand left. */
    method Remain(now: int) returns (r: int)
      requires Valid() && clock <= now
      ensures size < 0x8000_0000 ==> r == At(now).sand
      ensures r == RemainOf(state, sand, size, t.GetCurrent(now))
    {
      AtIsTicks(now);
      TicksClosedForm(Glass(size, sand, state), now - t.start);
      var c := t.GetCurrent(now);
      if c > size {
        c := size;
      }
      if !state {
        var ret := sand + c;
        if ret > size {
          return size;
        }
        return ret;
      }
      var ret := ToInt32(sand - c);
      if ret < 0 {
        return 0;
      }
      return ret;
    }

    /** amount: the sand that has fallen. */
    method Amount(now: int) returns (r: int)
      requires Valid() && clock <= now
      ensures size < 0x8000_0000 ==> r == size - At(now).sand && 0 <= r <= size
    {
      AtIsTicks(now);
      TicksClosedForm(Glass(size, sand, state), now - t.start);
      var left := Remain(now);
      r := size - left;
    }
  }

  /** Turning a glass the way it already runs changes no later answer. */
  lemma SameTurnIsNothing(g: Glass, m: nat, n: nat)
    ensures Ticks(Ticks(g, m).(down := g.down), n) == Ticks(g, m + n)
  {
    TickKeepsWay(g, m);
    TicksAdd(g, m, n);
  }

  lemma {:induction false} TickKeepsWay(g: Glass, m: nat)
    ensures Ticks(g, m).down == g.down && Ticks(g, m).size == g.size
  {
    if m > 0 {
      TickKeepsWay(g, m - 1);
    }
  }

  /** A full glass that runs for `a`, is turned for `b` and turned again: what has run back has to fall once
      more, and after exactly the rest the glass is empty. */
  lemma TurnedTwice(size: nat, a: nat, b: nat, n: nat)
    ensures var up := Ticks(Ticks(Glass(size, size, true), a).(down := false), b);
            var rest := if a <= b then size else if a <= size then size - a + b else if b <= size then b else size;
            up.sand == rest && (Ticks(up.(down := true), n).sand == 0 <==> rest <= n)
  {
    var g := Glass(size, size, true);
    TicksClosedForm(g, a);
    TicksClosedForm(Ticks(g, a).(down := false), b);
    TicksClosedForm(Ticks(Ticks(g, a).(down := false), b).(down := true), n);
  }
}
