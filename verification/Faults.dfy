/** What becomes of one file operation. */
module Faults {
  /** Carried out, failed without effect, or carried out but reported as failed (a directory flush
      that fails after the rename). */
  datatype Fate = Done | Lost | Unconfirmed
}
