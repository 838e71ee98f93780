// The integer arithmetic of the transfer callbacks: the start-time clamp, the speed
// estimate of transfer_update and transfer_complete, and the start-time shift of a resume
// (Source/MEGASync/sdk/megaapi.cpp:1895-1918, 1960-1967, 4053-4066). Times are engine
// deciseconds.
module Accounting {

  /** C++ integer division, which truncates toward zero (Dafny's `/` is Euclidean). */
  function CDiv(a: int, b: int): int
    requires b != 0
  {
    if a >= 0 then
      if b > 0 then a / b else -(a / -b)
    else
      if b > 0 then -(-a / b) else -a / -b
  }

  /** Truncating division agrees with Euclidean division on non-negative operands and is odd in its dividend. */
  lemma CDivProperties(a: int, b: int)
    requires b != 0
    ensures a >= 0 && b > 0 ==> CDiv(a, b) == a / b
    ensures CDiv(-a, b) == -CDiv(a, b)
  {
  }

  /** A non-negative quotient by a positive divisor lies between zero and the dividend. */
  lemma DivBounds(a: int, d: int)
    requires a >= 0 && d >= 1
    ensures 0 <= a / d <= a
  {
    var q, r := a / d, a % d;
    assert q * d + r == a && 0 <= r < d;
    if q < 0 {
      assert q * d <= -d by { MulMonotone(q, -1, d); }
    }
  }

  lemma MulMonotone(x: int, y: int, z: int)
    requires x <= y && z >= 0
    ensures x * z <= y * z
  {
    assert y * z - x * z == (y - x) * z;
  }

  /**
   * The start time a transfer callback leaves: the current time if none was recorded
   * (0) or the recorded one lies in the future, the recorded one otherwise.
   */
  function ClampStart(start: int, now: int): (r: int)
    ensures r <= now
    ensures r == start || r == now
    ensures start != 0 && start <= now ==> r == start
    ensures start == 0 ==> r == now
  {
    var s := if start == 0 then now else start;
    if now < s then now else s
  }

  /** Ten times the bytes moved per decisecond since `start`, counting the current decisecond: bytes per second. */
  function Speed(bytes: int, start: int, now: int): int
    requires start <= now
  {
    CDiv(10 * bytes, now - start + 1)
  }

  /** The speed estimate is non-negative and at most ten times the bytes moved; it is exact within the first decisecond. */
  lemma SpeedBounds(bytes: int, start: int, now: int)
    requires bytes >= 0 && start <= now
    ensures 0 <= Speed(bytes, start, now) <= 10 * bytes
    ensures start == now ==> Speed(bytes, start, now) == 10 * bytes
  {
    var d := now - start + 1;
    CDivProperties(10 * bytes, d);
    DivBounds(10 * bytes, d);
  }

  /**
   * The resume branch of the pause request: a recorded start time moves forward by the
   * length of the pause; an unset one (0) stays unset.
   */
  function ShiftStart(start: int, pausedAt: int, now: int): (r: int)
    ensures start == 0 ==> r == 0
    ensures start != 0 ==> r - start == now - pausedAt
  {
    if start != 0 then start + (now - pausedAt) else start
  }

  /** After a resume, the time a transfer has been active is what it was when the pause began. */
  lemma ResumeExcludesPause(start: int, pausedAt: int, now: int)
    requires start != 0
    ensures now - ShiftStart(start, pausedAt, now) == pausedAt - start
  {
  }
}
