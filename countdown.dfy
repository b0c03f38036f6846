/**
 * The countdown to the party (app/client-countdown.tsx): the time left until the event,
 * split into days, hours, minutes and seconds, each shown on at least two digits.
 * `target` and `now` are milliseconds since the epoch; the clock is a parameter.
 */
module Countdown {
  import opened JsText
  import opened Arith

  /** `Math.max(0, target - now)` */
  function Remaining(target: int, now: int): (diff: nat)
    ensures diff == 0 <==> target <= now
    ensures target > now ==> diff == target - now
  {
    if target - now < 0 then 0 else target - now
  }

  /** `Math.floor(diff / 1000)`: the whole seconds left. */
  function SecondsLeft(target: int, now: int): nat {
    Remaining(target, now) / 1000
  }

  /** What the countdown shows. */
  datatype Shown = Shown(days: int, hours: int, mins: int, secs: int, ended: bool)

  /** The component's arithmetic for one clock reading. */
  function Show(target: int, now: int): Shown {
    var s := SecondsLeft(target, now);
    Shown(s / 86400, (s % 86400) / 3600, (s % 3600) / 60, s % 60, Remaining(target, now) == 0)
  }

  /** The four fields put back together make the whole seconds left. */
  lemma {:induction false} ShowRecomposes(target: int, now: int)
    ensures var t := Show(target, now);
      t.days * 86400 + t.hours * 3600 + t.mins * 60 + t.secs == SecondsLeft(target, now)
  {
    var s := SecondsLeft(target, now);
    var d, r := s / 86400, s % 86400;
    var h, r2 := r / 3600, r % 3600;
    var m, sec := r2 / 60, r2 % 60;
    DivModUnique(s, 3600, d * 24 + h, r2);
    DivModUnique(s, 60, (d * 24 + h) * 60 + m, sec);
  }

  /** Every field is non-negative; hours stay below 24, minutes and seconds below 60. */
  lemma ShowBounds(target: int, now: int)
    ensures var t := Show(target, now);
      && 0 <= t.days && 0 <= t.hours < 24 && 0 <= t.mins < 60 && 0 <= t.secs < 60
  {
  }

  /** The countdown has ended exactly when the event time is reached, and then shows zeros. */
  lemma ShowEnded(target: int, now: int)
    ensures Show(target, now).ended <==> target <= now
    ensures target <= now ==> Show(target, now) == Shown(0, 0, 0, 0, true)
  {
  }

  /** As the clock advances, the seconds left never grow. */
  lemma SecondsLeftNonIncreasing(target: int, now: int, later: int)
    requires now <= later
    ensures SecondsLeft(target, later) <= SecondsLeft(target, now)
  {
    var a, b := Remaining(target, later), Remaining(target, now);
    assert a <= b;
    assert a == a / 1000 * 1000 + a % 1000;
    assert b == b / 1000 * 1000 + b % 1000;
  }

  /** `String(value).padStart(2, "0")` */
  function TimeBox(value: int): string {
    PadStart(IntToDecimal(value), 2, '0')
  }

  /**
   * At least two characters, ending in the decimal text unshortened; for a value that
   * is not negative, digits that read back as the value.
   */
  lemma TimeBoxSpec(value: int)
    ensures |TimeBox(value)| >= 2 && |TimeBox(value)| >= |IntToDecimal(value)|
    ensures TimeBox(value)[|TimeBox(value)| - |IntToDecimal(value)|..] == IntToDecimal(value)
    ensures value >= 0 ==> AllDigits(TimeBox(value)) && DigitsValue(TimeBox(value)) == value
    ensures 10 <= value ==> TimeBox(value) == IntToDecimal(value)
  {
    if value >= 0 {
      PaddedDecimalValue(value, 2);
      if value >= 10 {
        assert NatToDecimal(value) == NatToDecimal(value / 10) + [DigitChar(value % 10)];
      }
    }
  }
}
