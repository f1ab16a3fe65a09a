/** The result of a command and its status transitions (domain/cmd_shell.go, executor/executor.go). */
module ShellResult {
  datatype Status = Pending | Running | Success | Skipped | Exception | Killed | Timeout

  const EXIT_CODE_UNKNOWN := -1
  const EXIT_CODE_TIMEOUT := -100
  const EXIT_CODE_KILLED := -1

  datatype ShellOut = ShellOut(status: Status, code: int, processId: int)

  /** NewShellOutput. */
  const NEW_OUTPUT := ShellOut(Pending, EXIT_CODE_UNKNOWN, 0)

  predicate IsFinishStatus(s: Status) {
    match s
    case Killed => true
    case Timeout => true
    case Exception => true
    case Success => true
    case _ => false
  }

  /** How a context ends: by its deadline or by its cancel function. */
  datatype ContextError = DeadlineExceeded | Canceled

  function StartStatus(r: ShellOut, pid: int): ShellOut {
    r.(status := Running, processId := pid)
  }

  function ErrorStatus(r: ShellOut): ShellOut {
    r.(status := Exception)
  }

  function TimeOutStatus(r: ShellOut): ShellOut {
    r.(status := Timeout, code := EXIT_CODE_TIMEOUT)
  }

  function KilledStatus(r: ShellOut): ShellOut {
    r.(status := Killed, code := EXIT_CODE_KILLED)
  }

  function FinishStatus(r: ShellOut, exitCode: int, allowFailure: bool): ShellOut {
    var r' := r.(code := exitCode);
    if exitCode == 0 then r'.(status := Success)
    else if allowFailure then r'.(status := Success)
    else ErrorStatus(r')
  }

  function ContextStatus(r: ShellOut, err: ContextError): ShellOut {
    if err == DeadlineExceeded then TimeOutStatus(r) else KilledStatus(r)
  }

  /** The status and code a context end is reported with. */
  predicate Reports(r: ShellOut, err: ContextError) {
    match err
    case DeadlineExceeded => r.status == Timeout && r.code == -100
    case Canceled => r.status == Killed && r.code == -1
  }

  /**
   How a command that ran to its end is reported: with its exit code, and as a success if that is 0
   or failing is allowed.
   */
  predicate ReportsExit(r: ShellOut, exitCode: int, allowFailure: bool) {
    && r.code == exitCode
    && (r.status == Success <==> exitCode == 0 || allowFailure)
    && (r.status == Success || r.status == Exception)
  }
}
