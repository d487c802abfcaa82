/**
 * The flash-sale countdown (components/ui/CountdownTimer.tsx): the time left until an
 * end instant, in days, hours, minutes and seconds, refreshed every second while the
 * end lies in the future. Instants are milliseconds; the clock is a parameter.
 */
module Countdown {

  datatype TimeLeft = TimeLeft(days: int, hours: int, minutes: int, seconds: int)

  const MsPerSecond: int := 1000

  /** calculateTimeLeft's split of a positive difference in milliseconds. */
  function Decompose(difference: int): TimeLeft
    requires difference > 0
  {
    TimeLeft(
      difference / (1000 * 60 * 60 * 24),
      (difference / (1000 * 60 * 60)) % 24,
      (difference / 1000 / 60) % 60,
      (difference / 1000) % 60)
  }

  /**
   * Hours stay below 24 and minutes and seconds below 60, and the four fields add up
   * to the whole seconds left: nothing is lost or counted twice.
   */
  lemma DecomposeIsExact(difference: int)
    requires difference > 0
    ensures var t := Decompose(difference);
      && t.days >= 0 && 0 <= t.hours < 24 && 0 <= t.minutes < 60 && 0 <= t.seconds < 60
      && t.days * 86400 + t.hours * 3600 + t.minutes * 60 + t.seconds == difference / 1000
  {
    var s := difference / 1000;
    var m := s / 60;
    var h := m / 60;
    assert difference == 1000 * s + difference % 1000;
    assert s == 60 * m + s % 60;
    assert m == 60 * h + m % 60;
    assert difference / 60000 == m by {
      assert difference == 60000 * m + (1000 * (s % 60) + difference % 1000);
    }
    assert difference / 3600000 == h by {
      assert difference == 3600000 * h + (60000 * (m % 60) + 1000 * (s % 60) + difference % 1000);
    }
    assert difference / 86400000 == h / 24 by {
      assert h == 24 * (h / 24) + h % 24;
      assert difference == 86400000 * (h / 24)
        + (3600000 * (h % 24) + 60000 * (m % 60) + 1000 * (s % 60) + difference % 1000);
    }
    assert h == 24 * (h / 24) + h % 24;
  }

  class Timer {
    const endDate: int
    var timeLeft: TimeLeft

    constructor (endDate: int)
      ensures this.endDate == endDate && timeLeft == TimeLeft(0, 0, 0, 0)
    {
      this.endDate := endDate;
      timeLeft := TimeLeft(0, 0, 0, 0);
    }

    /**
     * One run of calculateTimeLeft at clock reading `now`: a future end updates the
     * display; once the end has passed the last display is left as it was.
     */
    method Tick(now: int)
      modifies this
      ensures endDate - now > 0 ==> timeLeft == Decompose(endDate - now)
      ensures endDate - now <= 0 ==> timeLeft == old(timeLeft)
    {
      var difference := endDate - now;
      if difference > 0 {
        timeLeft := TimeLeft(
          difference / (1000 * 60 * 60 * 24),
          (difference / (1000 * 60 * 60)) % 24,
          (difference / 1000 / 60) % 60,
          (difference / 1000) % 60);
      }
    }
  }
}
