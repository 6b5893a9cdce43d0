/** Clock readings. `time.time()` is a parameter everywhere, given as a
    whole number of milliseconds since the epoch; this module converts it
    the two ways the code does. */
module Clock {

  /** `int(round(time.time()))`: Python rounds halves to the even neighbour. */
  function RoundSeconds(nowMs: nat): (s: nat)
    ensures nowMs - 500 <= s * 1000 <= nowMs + 500
    ensures FloorSeconds(nowMs) <= s <= FloorSeconds(nowMs) + 1
    ensures nowMs % 1000 == 500 ==> s % 2 == 0
  {
    var q := nowMs / 1000;
    var rem := nowMs % 1000;
    if rem < 500 then q
    else if rem > 500 then q + 1
    else if q % 2 == 0 then q
    else q + 1
  }

  /** `int(time.time())`: truncation to whole seconds. */
  function FloorSeconds(nowMs: nat): (s: nat)
    ensures s * 1000 <= nowMs < s * 1000 + 1000
  {
    nowMs / 1000
  }
}
