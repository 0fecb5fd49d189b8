/** The decorative moon that turns by half a degree per tick. Its angle is
    kept in half degrees, so that every angle the program produces (0, 0.5,
    ..., 360) is a whole number from 0 to 720. */
module Ornament {

  /** 360 degrees, in half degrees. */
  const FULL_TURN: int := 720

  /** The angle after one unpaused tick: 360 degrees becomes 0, any other angle
      grows by half a degree. The angle thus cycles through 721 values. */
  function NextAngle(halfDegrees: int): (r: int)
    requires 0 <= halfDegrees <= FULL_TURN
    ensures 0 <= r <= FULL_TURN
    ensures r == (halfDegrees + 1) % (FULL_TURN + 1)
  {
    if halfDegrees == FULL_TURN then 0 else halfDegrees + 1
  }

  /** The angle after `n` unpaused ticks, starting from `halfDegrees`. */
  function AngleAfter(halfDegrees: int, n: nat): (r: int)
    requires 0 <= halfDegrees <= FULL_TURN
    ensures 0 <= r <= FULL_TURN
  {
    if n == 0 then halfDegrees else NextAngle(AngleAfter(halfDegrees, n - 1))
  }

  /** Starting from 0, the angle after n ticks is n modulo 721 half degrees. */
  lemma {:induction false} AngleAfterFromZero(n: nat)
    ensures AngleAfter(0, n) == n % (FULL_TURN + 1)
  {
    if n > 0 {
      AngleAfterFromZero(n - 1);
    }
  }
}
