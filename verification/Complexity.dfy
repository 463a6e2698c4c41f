/** The constants of the three complexity modes that the controller's decisions read. */
module Complexity {

  datatype ComplexityMode = LOW | NORMAL | HIGH

  function MaximumAgents(mode: ComplexityMode): nat {
    match mode
    case LOW => 4
    case NORMAL => 8
    case HIGH => 16
  }

  predicate RequiresPlanConfirmation(mode: ComplexityMode) {
    mode != HIGH
  }
}
