/** The "force-clamp" rules the settings panel applies after every edit gesture: a value the
    widget wrote (possibly out of range, e.g. typed in with CTRL + LEFT_CLICK) is corrected
    immediately instead of being rejected. */
module Validation {

  /** glm::clamp on an int: the nearest value of [lo, hi]. */
  function ClampInt(v: int, lo: int, hi: int): (r: int)
    requires lo <= hi
    ensures lo <= r <= hi
    ensures r == v <==> lo <= v <= hi
    ensures v < lo ==> r == lo
    ensures v > hi ==> r == hi
  {
    if v < lo then lo else if v > hi then hi else v
  }

  /** glm::clamp on a float (modelled as a real): the nearest value of [lo, hi]. */
  function Clamp(v: real, lo: real, hi: real): (r: real)
    requires lo <= hi
    ensures lo <= r <= hi
    ensures r == v <==> lo <= v <= hi
    ensures v < lo ==> r == lo
    ensures v > hi ==> r == hi
  {
    if v < lo then lo else if v > hi then hi else v
  }

  /** The one-sided rule `if (x < 0.0f) x = 0.0f;`: negatives become zero, the rest stay. */
  function ForceNonNegative(v: real): (r: real)
    ensures r >= 0.0
    ensures r == v <==> v >= 0.0
    ensures v < 0.0 ==> r == 0.0
  {
    if v < 0.0 then 0.0 else v
  }
}
