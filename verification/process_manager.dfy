/**
  ProcessManager: validate a Tank request, launch the Tank script and report
  its exit code and captured output, synchronously or through a callback.
  The disk is a `Snapshot`, the child process is the `launch` parameter, and
  the C++ exceptions are `Result` failures.
*/
module ProcessManager {
  import opened Wrappers
  import opened Filesystem
  import opened LineStream

  /** TANK_SCRIPT_NAME on POSIX platforms. */
  const TankScriptName: string := "tank"
  /** Every Tank command begins with this literal. */
  const CommandPrefix: string := "shotgun"

  const InvalidCommandMessage: string := "ExecuteTankCommand error"
  const MissingConfigMessage: string := "Could not find the Tank Configuration on disk: "
  const MissingScriptMessage: string := "Could not find the Tank command on disk: "
  const LookupFaultMessage: string := "Error finding the Tank command on disk: "

  /** The return code reported when the child did not exit normally or never ran. */
  const Sentinel: int := -1

  /** The exceptions that reach ExecuteTankCommand's catch clause: the
      FB::script_error the validator throws, and any fault raised while
      launching or waiting for the child. */
  datatype Fault = ScriptError(what: string) | LaunchError(what: string)

  /** boost::starts_with. */
  predicate StartsWith(s: string, prefix: string) {
    |prefix| <= |s| && s[..|prefix|] == prefix
  }

  /** Where the Tank script lives for a configuration directory. */
  function ScriptPath(configPath: string): string {
    Join(configPath, TankScriptName)
  }

  /** The requests the validator lets through, stated on the disk itself. */
  predicate Accepted(fs: Snapshot, configPath: string, command: string) {
    && StartsWith(command, CommandPrefix)
    && Exists(fs, configPath, Directory)
    && Exists(fs, ScriptPath(configPath), RegularFile)
  }

  /** VerifyArguments: the prefix check, then the directory check, then the
      script check, each failing with its own message; a filesystem error in
      either lookup is rethrown as a script error carrying its description. */
  function VerifyArguments(fs: Snapshot, configPath: string, command: string): (r: Result<(), Fault>)
    ensures r.Success? <==> Accepted(fs, configPath, command)
    ensures r.Failure? ==> r.error.ScriptError? && r.error.what != []
    ensures !StartsWith(command, CommandPrefix) ==> r == Failure(ScriptError(InvalidCommandMessage))
    ensures StartsWith(command, CommandPrefix) && Faults(fs, configPath) ==>
      r == Failure(ScriptError(LookupFaultMessage + fs.entries[configPath].what))
    ensures StartsWith(command, CommandPrefix) && !Faults(fs, configPath) && !Exists(fs, configPath, Directory) ==>
      r == Failure(ScriptError(MissingConfigMessage + configPath))
    ensures StartsWith(command, CommandPrefix) && Exists(fs, configPath, Directory) && Faults(fs, ScriptPath(configPath)) ==>
      r == Failure(ScriptError(LookupFaultMessage + fs.entries[ScriptPath(configPath)].what))
    ensures (StartsWith(command, CommandPrefix) && Exists(fs, configPath, Directory)
             && !Faults(fs, ScriptPath(configPath)) && !Exists(fs, ScriptPath(configPath), RegularFile)) ==>
      r == Failure(ScriptError(MissingScriptMessage + ScriptPath(configPath)))
  {
    if !StartsWith(command, CommandPrefix) then Failure(ScriptError(InvalidCommandMessage))
    else match IsDirectory(fs, configPath)
      case Failure(what) => Failure(ScriptError(LookupFaultMessage + what))
      case Success(false) => Failure(ScriptError(MissingConfigMessage + configPath))
      case Success(true) =>
        var exec := ScriptPath(configPath);
        match IsRegularFile(fs, exec)
        case Failure(what) => Failure(ScriptError(LookupFaultMessage + what))
        case Success(false) => Failure(ScriptError(MissingScriptMessage + exec))
        case Success(true) => Success(())
  }

  /** A command without the prefix is rejected the same way on every disk. */
  lemma BadPrefixIgnoresDisk(fs1: Snapshot, fs2: Snapshot, configPath: string, command: string)
    requires !StartsWith(command, CommandPrefix)
    ensures VerifyArguments(fs1, configPath, command) == VerifyArguments(fs2, configPath, command)
    ensures VerifyArguments(fs1, configPath, command) == Failure(ScriptError(InvalidCommandMessage))
  {
  }

  /** When the configuration path is not a directory the script is never
      looked up: what the disk holds at the script path cannot matter. */
  lemma MissingConfigSkipsScriptLookup(fs1: Snapshot, fs2: Snapshot, configPath: string, command: string)
    requires StartsWith(command, CommandPrefix)
    requires !Exists(fs1, configPath, Directory)
    requires configPath in fs1.entries <==> configPath in fs2.entries
    requires configPath in fs1.entries ==> fs1.entries[configPath] == fs2.entries[configPath]
    ensures VerifyArguments(fs1, configPath, command) == VerifyArguments(fs2, configPath, command)
    ensures VerifyArguments(fs1, configPath, command).Failure?
  {
  }

  /** The child's argument vector: the script path (argv[0], passed again as
      the script's first argument), the command, then the caller's arguments. */
  function ChildArgv(scriptPath: string, command: string, args: seq<string>): (argv: seq<string>)
    ensures |argv| == |args| + 2
    ensures argv[0] == scriptPath && argv[1] == command
    ensures argv[2..] == args
    ensures forall j :: 0 <= j < |args| ==> argv[j + 2] == args[j]
  {
    [scriptPath, command] + args
  }

  /** How the child ended: a normal exit with its code, or any other raw wait
      status (killed by a signal, for one). */
  datatype ExitStatus = Exited(code: int) | Abnormal(raw: int)

  /** The retcode reported for a child. */
  function ReturnCode(status: ExitStatus): (retcode: int)
    ensures status.Exited? ==> retcode == status.code
    ensures status.Abnormal? ==> retcode == Sentinel
  {
    match status
    case Exited(code) => code
    case Abnormal(_) => Sentinel
  }

  /** With the non-negative exit codes of supported platforms the sentinel
      means exactly "did not exit normally", and the raw status never leaks. */
  lemma SentinelMeansAbnormal(status: ExitStatus)
    requires status.Exited? ==> status.code >= 0
    ensures ReturnCode(status) == Sentinel <==> status.Abnormal?
    ensures status.Abnormal? ==> ReturnCode(status) == ReturnCode(Abnormal(0))
  {
  }

  /** A finished child: how it ended and everything it wrote to each pipe. */
  datatype Child = Child(status: ExitStatus, stdout: string, stderr: string)

  /** The outcome of launching a program and waiting for it. */
  datatype Spawn = Started(child: Child) | SpawnFailed(what: string)

  /** The retcode/out/err map ExecuteTankCommand returns, which is also the
      argument list of the asynchronous callback. */
  datatype TankResult = TankResult(retcode: int, out: string, err: string)

  /** The result every caught exception is turned into. */
  function ErrorResult(what: string): TankResult {
    TankResult(Sentinel, "", what)
  }

  /** Everything after validation: launch, wait, map the status, read the pipes. */
  function RunScript(configPath: string, command: string, args: seq<string>,
                     launch: (string, seq<string>) -> Spawn): TankResult
  {
    var exec := ScriptPath(configPath);
    match launch(exec, ChildArgv(exec, command, args))
    case SpawnFailed(what) => ErrorResult(what)
    case Started(child) =>
      TankResult(ReturnCode(child.status), Reconstruct(child.stdout), Reconstruct(child.stderr))
  }

  /** ExecuteTankCommand. It never fails: a rejected request or a launch
      fault becomes (-1, "", message); otherwise the child, launched as the
      script with `ChildArgv`, reports its return code and both streams with
      every line terminated. */
  function ExecuteTankCommand(fs: Snapshot, configPath: string, command: string, args: seq<string>,
                              launch: (string, seq<string>) -> Spawn): (r: TankResult)
    ensures !Accepted(fs, configPath, command) ==>
      r == ErrorResult(VerifyArguments(fs, configPath, command).error.what) && r.err != []
    ensures Accepted(fs, configPath, command) ==>
      var exec := ScriptPath(configPath);
      match launch(exec, ChildArgv(exec, command, args))
      case SpawnFailed(what) => r == ErrorResult(what)
      case Started(child) =>
        && r.retcode == ReturnCode(child.status)
        && r.out == Terminate(child.stdout)
        && r.err == Terminate(child.stderr)
  {
    match VerifyArguments(fs, configPath, command)
    case Failure(e) => ErrorResult(e.what)
    case Success(_) => RunScript(configPath, command, args, launch)
  }

  /** ExecuteTankCommandAsync followed by the worker's _ExecuteTankCommandAsync.
      `Failure(e)` is the exception thrown to the caller before any worker
      exists, and the callback is never called; `Success(v)` means the
      callback is called once, with `v`. The worker runs the whole synchronous
      path again, on the disk as it is by then (`fsInWorker`). */
  function ExecuteTankCommandAsync(fsAtCall: Snapshot, fsInWorker: Snapshot, configPath: string,
                                   command: string, args: seq<string>,
                                   launch: (string, seq<string>) -> Spawn): (r: Result<TankResult, Fault>)
    ensures r.Failure? <==> !Accepted(fsAtCall, configPath, command)
    ensures r.Failure? ==> r.error == VerifyArguments(fsAtCall, configPath, command).error
    ensures r.Success? ==> r.value == ExecuteTankCommand(fsInWorker, configPath, command, args, launch)
  {
    var _ :- VerifyArguments(fsAtCall, configPath, command);
    Success(ExecuteTankCommand(fsInWorker, configPath, command, args, launch))
  }

  /** When the disk does not change before the worker runs, the callback
      always carries the launched script's outcome, never a validation error. */
  lemma AsyncCallbackCarriesLaunch(fs: Snapshot, configPath: string, command: string, args: seq<string>,
                                   launch: (string, seq<string>) -> Spawn)
    requires ExecuteTankCommandAsync(fs, fs, configPath, command, args, launch).Success?
    ensures ExecuteTankCommandAsync(fs, fs, configPath, command, args, launch).value
         == RunScript(configPath, command, args, launch)
  {
  }
}
