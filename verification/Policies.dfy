/** The parts of the watch configuration the loops depend on, and the record of a kick that is waiting
    for progress (internal/watch/run_linux.go). */
module Policies {
  import opened Words
  import opened Budgets

  datatype Mode = Observe | Guarded | Periodic

  datatype Policy = Policy(
    mode: Mode, interval: real, threshold: real, limits: Limits, verifyTimeout: real,
    kickInterval: real, inventoryInterval: real, summaryInterval: real)

  /** Config.Validate admits only positive intervals, thresholds and limits. */
  predicate ProperPolicy(c: Policy) {
    && c.interval > 0.0 && c.threshold > 0.0 && c.verifyTimeout > 0.0 && c.kickInterval > 0.0
    && c.inventoryInterval > 0.0 && c.summaryInterval > 0.0 && Proper(c.limits)
  }

  datatype Verification = Verification(at: real, used: u16, consumed: u16, stalled: bool)
}
