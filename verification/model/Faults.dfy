/** Which commands fail by themselves, moment by moment. */
module Faults {

  ghost predicate NoFaults(faults: nat -> bool) {
    forall t :: !faults(t)
  }
}
