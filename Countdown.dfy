/**
 * The "time left" arithmetic shared by the poll detail page and the poll card:
 * hours = max(0, floor(t / 1h)), minutes = max(0, floor((t % 1h) / 1min)), expired = t <= 0,
 * where t is the closing time minus the current time in milliseconds and `%` is JavaScript's
 * remainder, which takes the sign of the dividend.
 */
module Countdown {

  const MsPerMinute: int := 1000 * 60
  const MsPerHour: int := 1000 * 60 * 60

  /** JavaScript `a % b` for `b > 0`: truncating, so a negative dividend gives a remainder in
      `(-b, 0]` (Dafny's `%` would give one in `[0, b)`). */
  function JsRem(a: int, b: int): (r: int)
    requires b > 0
    ensures a >= 0 ==> 0 <= r < b
    ensures a < 0 ==> -b < r <= 0
  {
    if a >= 0 then a % b else -((-a) % b)
  }

  /** `Math.floor(a / b)` for `b > 0`; Dafny's division rounds down when the divisor is positive. */
  function FloorDiv(a: int, b: int): int
    requires b > 0
  {
    a / b
  }

  function Max(a: int, b: int): int {
    if a >= b then a else b
  }

  datatype TimeLeft = TimeLeft(hoursLeft: int, minutesLeft: int, isExpired: bool)

  /** The countdown shown for `timeLeft` milliseconds left. */
  function Remaining(timeLeft: int): (c: TimeLeft)
    ensures c.isExpired <==> timeLeft <= 0
    ensures c.hoursLeft >= 0 && 0 <= c.minutesLeft < 60
    ensures c.isExpired ==> c.hoursLeft == 0 && c.minutesLeft == 0
    ensures !c.isExpired ==>
              c.hoursLeft * MsPerHour + c.minutesLeft * MsPerMinute <= timeLeft
              < c.hoursLeft * MsPerHour + (c.minutesLeft + 1) * MsPerMinute
  {
    var rem := JsRem(timeLeft, MsPerHour);
    var c := TimeLeft(Max(0, FloorDiv(timeLeft, MsPerHour)),
                      Max(0, FloorDiv(rem, MsPerMinute)),
                      timeLeft <= 0);
    if timeLeft > 0 then
      assert timeLeft == (timeLeft / MsPerHour) * MsPerHour + rem;
      assert rem == (rem / MsPerMinute) * MsPerMinute + rem % MsPerMinute;
      c
    else
      c
  }
}
