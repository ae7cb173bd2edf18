/**
 * What the checkers observe and affect outside themselves: the indicator file
 * /tmp/poc, and the trigger calls whose side effects may create it.
 */
module Environment {

  import opened Registry

  /** What one trigger call on one archive does: create /tmp/poc, throw, both or neither. */
  datatype Effect = Effect(setsMarker: bool, throws: bool)

  /** The behaviour of every trigger on every archive path, fixed for a run. */
  type Oracle = (string, Trigger) -> Effect

  /** How a shell command ended (phar_checker.py). */
  datatype ExecResult = Exited(code: int) | TimedOut | Raised(message: string)

  /** What one shell command does: create /tmp/poc or not, and how it ends. */
  datatype CommandEffect = CommandEffect(setsMarker: bool, exec: ExecResult)

  type CommandOracle = string -> CommandEffect

  /** One interaction with the environment, in the order it happens. */
  datatype Event =
    | Cleared                                  // /tmp/poc removed if present
    | Invoked(path: string, trigger: Trigger)  // a trigger called on an archive
    | Executed(command: string)                // a shell command run
    | Checked(present: bool)                   // /tmp/poc looked for, and the answer

  /** The indicator file and the log of everything done to the environment. */
  class Host {
    var poc: bool
    var events: seq<Event>

    constructor (poc: bool)
      ensures this.poc == poc && events == []
    {
      this.poc := poc;
      events := [];
    }

    /** `if (file_exists(poc)) @unlink(poc)`: afterwards the marker is absent. */
    method CleanupPoc()
      modifies this
      ensures !poc
      ensures events == old(events) + [Cleared]
    {
      poc := false;
      events := events + [Cleared];
    }

    /** Sleep, then `file_exists(poc)`: reads the marker, changes nothing. */
    method CheckPoc() returns (present: bool)
      modifies this
      ensures present == poc && poc == old(poc)
      ensures events == old(events) + [Checked(present)]
    {
      present := poc;
      events := events + [Checked(present)];
    }

    /** Call a trigger; it may create the marker, and reports whether it threw. */
    method Invoke(path: string, t: Trigger, oracle: Oracle) returns (threw: bool)
      modifies this
      ensures threw == oracle(path, t).throws
      ensures poc == (old(poc) || oracle(path, t).setsMarker)
      ensures events == old(events) + [Invoked(path, t)]
    {
      var e := oracle(path, t);
      poc := poc || e.setsMarker;
      events := events + [Invoked(path, t)];
      threw := e.throws;
    }

    /** Run a shell command; it may create the marker, and reports how it ended. */
    method Execute(command: string, oracle: CommandOracle) returns (exec: ExecResult)
      modifies this
      ensures exec == oracle(command).exec
      ensures poc == (old(poc) || oracle(command).setsMarker)
      ensures events == old(events) + [Executed(command)]
    {
      var e := oracle(command);
      poc := poc || e.setsMarker;
      events := events + [Executed(command)];
      exec := e.exec;
    }
  }
}
