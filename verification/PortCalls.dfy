/** What the calls of a thread do to a port that need not pause (lib/Port.cpp), as far as they lead to states of
    interest. */
module PortCalls {
  import opened Options
  import opened Signals
  import opened PortState

  /** A port just turned on, before a falling edge. */
  function TurnedOn(): State {
    State(TURNED_ON, 0, false, 0, EdgeIterator(2, Falling, 2))
  }

  /** `out` on an input port, which makes it an output port. */
  function Out(s: State, value: nat): State {
    s.(pipe := s.pipe.(validShiftRegEntries := 1, transferReg := value, transferRegValid := true, outputPort := true))
  }

  /** `setpt` with nothing to transfer; the time itself is in the configuration. */
  function SetPortTime(s: State): State { s.(pipe := s.pipe.(timeRegValid := true)) }

  /** `sync` on an output port. */
  function EnterSync(s: State, t: ThreadId): State { s.(pipe := s.pipe.(pausedSync := Some(t))) }

  /** `in` on an input port that has nothing to give yet. */
  function EnterIn(s: State, t: ThreadId): State
    requires !s.pipe.outputPort && !s.pipe.transferRegValid
  {
    s.(pipe := s.pipe.(pausedIn := Some(t)))
  }

  /** `setc` with a condition; its data is in the configuration. */
  function SetCondition(s: State, condition: Condition): State { s.(pipe := s.pipe.(condition := condition)) }

  /** `settw`, for the configuration it leads to. */
  function SetWidth(s: State, d: Config): State { s.(pipe := s.pipe.(portShiftCount := d.shiftRegEntries)) }
}
