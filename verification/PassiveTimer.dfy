/** uniset::PassiveTimer over a clock in milliseconds that the caller reads: `now` never decreases. */
module PassiveTimers {

  const WAIT_UP_TIME: int := 0x7fff_ffff_ffff_ffff

  datatype PassiveTimer = PassiveTimer(interval: int, start: int) {
    function GetCurrent(now: int): int {
      now - start
    }

    /** checkTime: never for WaitUpTime, at once for 0. */
    predicate CheckTime(now: int) {
      interval != WAIT_UP_TIME && (interval == 0 || GetCurrent(now) >= interval)
    }

    function Reset(now: int): PassiveTimer {
      this.(start := now)
    }
  }

  function SetTiming(msec: int, now: int): PassiveTimer {
    PassiveTimer(msec, now)
  }
}
