/**
 The write-ahead log as the writer's recovery sees it: the records that can be read back,
 and what state the end of the file is in.  `WalText` shows that the file itself is never
 in any other state, whatever a crash leaves of the line being appended.
 */
module LogFile {
  import opened Prelude
  import opened VectorIndex

  datatype Tail =
    | Terminated             // the last line ends in a newline, or the file is empty
    | Unterminated(op: Op)   // one more record is there, only its newline is missing
    | Broken(writes: nat)    // what so many writes left does not parse, and nothing behind it is read

  datatype Log = Log(lines: seq<Op>, tail: Tail)

  const EMPTY_LOG := Log([], Terminated)

  /** How much of a line has reached the file. */
  datatype Cut = Nothing | Fragment | AllButNewline | All

  /** The records that reading the file gives. */
  function Readable(log: Log): seq<Op>
  {
    if log.tail.Unterminated? then log.lines + [log.tail.op] else log.lines
  }

  /** Writing a line behind whatever the file ends in. */
  function AfterWrite(log: Log, op: Op, cut: Cut): Log
  {
    if cut.Nothing? then log
    else match log.tail
      case Terminated =>
        if cut.Fragment? then log.(tail := Broken(1))
        else if cut.AllButNewline? then log.(tail := Unterminated(op))
        else log.(lines := log.lines + [op])
      case Unterminated(_) => log.(tail := Broken(2))
      case Broken(writes) => log.(tail := Broken(writes + 1))
  }

  /** The writes behind the last readable record: they stay in the file until it is truncated. */
  function Stranded(log: Log): nat
  {
    if log.tail.Broken? then log.tail.writes else 0
  }

  /** All records and pieces of records in the file. */
  function Extent(log: Log): nat
  {
    |Readable(log)| + Stranded(log)
  }
}
