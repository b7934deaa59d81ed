/** The inverser filter: negates every sample and keeps no state. */
module Inverser {
  /** `ProcessValue(time, value) => -value`. */
  function ProcessValue(time: real, value: real): (r: real)
    ensures r + value == 0.0
  {
    -value
  }

  /** Two inversers in a row are the identity. */
  lemma Involution(t1: real, t2: real, value: real)
    ensures ProcessValue(t2, ProcessValue(t1, value)) == value
  {
  }

  /** The output does not depend on the time. */
  lemma TimeIndependent(t1: real, t2: real, value: real)
    ensures ProcessValue(t1, value) == ProcessValue(t2, value)
  {
  }
}
