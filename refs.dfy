/**
 * Handlers and formatters are JavaScript function values compared by identity.
 * The logger core only stores, copies and invokes them, so it sees them as opaque references.
 */
module Refs {

  /** A handler function: the console handler built by default, or any other one by number. */
  datatype HandlerId = DefaultConsole | Handler(id: nat)

  /** A formatter function: the basic formatter, or any other one by number. */
  datatype FormatterId = BasicFormatterId | Formatter(id: nat)

  /** What one handler invocation did: returned normally or threw. */
  datatype Outcome = Returned | Threw
}
