/** The logger JdbcUtils writes to: only the sequence of messages given to
    `info` is observable. */
module Logging {

  class Log {
    var lines: seq<string>

    constructor ()
      ensures lines == []
    {
      lines := [];
    }

    /** Logger.info: appends one message. */
    method Info(message: string)
      modifies this
      ensures lines == old(lines) + [message]
    {
      lines := lines + [message];
    }
  }
}
