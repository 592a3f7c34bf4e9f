/** The outcome of one HTTP probe of a domain, as both controllers see it. */
module Probing {

  /** What a probe request produced: a response status, or an exception. */
  datatype Probe = Status(code: int) | ProbeError
}
