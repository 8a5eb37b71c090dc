# ShotgunIntegration ProcessManager, modelled in Dafny

The browser plugin's `ProcessManager` runs the Tank pipeline script for a
web page. It first validates the request: the command must start with
`shotgun`, the pipeline configuration path must be a directory, and the
`tank` script inside it must be a regular file. It then launches the script
as `[scriptPath, command, args...]`, waits for it, and returns `retcode`,
`out` and `err`. Each captured stream is read back line by line and every
line is re-terminated with `std::endl`. The synchronous entry point never
throws: every exception becomes `(-1, "", message)`. The asynchronous entry
point validates on the caller's thread, so a bad request throws there. A
good request is handed to a worker thread, which runs the synchronous path
and passes its triple to a callback.

The model has four modules:

- `Wrappers`: the `Result` type used in place of C++ exceptions.
- `Filesystem`: the disk as a `Snapshot`, a map from path to
  `Present(kind)` or `Inaccessible(what)`. A path that is not in the map does
  not exist. The module also has `Join`, which is `path /= name` as
  boost::filesystem does it on POSIX. boost is not part of this model. `Join`
  follows boost's documented rule: insert a `/` only when neither side
  already supplies one.
- `LineStream`: the `while (std::getline(is, line)) os << line << std::endl;`
  loop. `Getline` works on a captured text and a read position.
  `Terminate` is the independent reference definition of what the loop
  produces.
- `ProcessManager`: `VerifyArguments`, the argument vector, the exit-status
  mapping, `ExecuteTankCommand` and `ExecuteTankCommandAsync`.

Several things are parameters of the model:

- The disk is a `Snapshot`.
- The child process is a `launch: (string, seq<string>) -> Spawn` argument.
  It maps the executable and argument vector to the result of launching
  and waiting: either the exit status and both streams' full text, or a
  launch fault. The contract of `ExecuteTankCommand` therefore also fixes
  which executable and argv the child gets.
- The asynchronous path takes two snapshots: the disk when the caller
  checks the request and the disk when the worker runs. The worker calls the
  full synchronous path (ProcessManager.cpp:120), so it validates a second
  time.

The message texts, their order and the error kind follow ProcessManager.cpp.
Every validation failure is an `FB::script_error`, modelled as
`Fault.ScriptError`.

## Model

| member | source | states |
|---|---|---|
| `Filesystem.HasKind` | ShotgunIntegration/ProcessManager.cpp:25-33 | `fs::is_directory` / `fs::is_regular_file`: a lookup throws exactly when it faults, with the fault's description; otherwise it answers true exactly when the path exists with that kind, and a missing path answers false |
| `Filesystem.Join` | ShotgunIntegration/ProcessManager.cpp:30 | `exec /= TANK_SCRIPT_NAME` keeps the directory as a prefix and ends with the script name. At most one `/` is inserted between them, and a non-empty name always gives a path different from the directory |
| `ProcessManager.VerifyArguments` | ShotgunIntegration/ProcessManager.cpp:18-37 | succeeds iff the command has the `shotgun` prefix, the configuration path is a directory and the joined script path is a regular file. Every failure is a non-empty script error. Each of the five failure conditions, taken in the source's order, yields its own message with the offending path or fault text |
| `ProcessManager.BadPrefixIgnoresDisk` | ShotgunIntegration/ProcessManager.cpp:20-22 | a command without the prefix is rejected with `ExecuteTankCommand error` whatever the disk holds |
| `ProcessManager.MissingConfigSkipsScriptLookup` | ShotgunIntegration/ProcessManager.cpp:24-32 | when the configuration path is not a directory, the outcome depends only on that path's entry, so the script check is never reached |
| `ProcessManager.ChildArgv` | ShotgunIntegration/ProcessManager.cpp:61-65 | the argument vector has `|args| + 2` entries: the script path, then the command, then the caller's arguments unchanged and in order |
| `ProcessManager.ReturnCode` | ShotgunIntegration/ProcessManager.cpp:70-74 | a normal exit reports its exit code; any other ending reports -1, whatever the raw status was |
| `ProcessManager.SentinelMeansAbnormal` | ShotgunIntegration/ProcessManager.cpp:70-74 | with non-negative exit codes, the retcode is -1 iff the child did not exit normally, and abnormal endings are indistinguishable |
| `ProcessManager.ExecuteTankCommand` | ShotgunIntegration/ProcessManager.cpp:50-100 | total. A rejected request gives `(-1, "", validation message)` with a non-empty message. A launch fault gives `(-1, "", fault text)`. Otherwise the script at the joined path is launched with `ChildArgv`, and the result is its return code with both streams terminated as `Terminate` defines |
| `ProcessManager.ExecuteTankCommandAsync` | ShotgunIntegration/ProcessManager.cpp:102-122 | throws to the caller, with no callback, iff the up-front validation rejects, and then with exactly the validator's error. Otherwise the callback gets exactly the triple the synchronous path gives on the worker's disk |
| `ProcessManager.AsyncCallbackCarriesLaunch` | ShotgunIntegration/ProcessManager.cpp:109-121 | if the disk is unchanged by the time the worker runs, the callback always carries the launched script's outcome and never a validation error |
| `LineStream.Getline` | ShotgunIntegration/ProcessManager.cpp:79 | `std::getline` fails exactly at the end of the stream. Otherwise it returns a line with no `'\n'` and advances past it: either the consumed text is the line plus its terminator, or the line runs to the end of the stream |
| `LineStream.LinesFrom` | ShotgunIntegration/ProcessManager.cpp:79-81 | no line read by the loop contains `'\n'` |
| `LineStream.RebuildLinesFrom` | ShotgunIntegration/ProcessManager.cpp:79-81 | re-terminating every line read from a position gives the rest of the stream, with `'\n'` appended if that rest is unterminated |
| `LineStream.Reconstruct` | ShotgunIntegration/ProcessManager.cpp:76-87 | the rebuilt stream equals the reference `Terminate` of the captured text |
| `LineStream.ReconstructTerminates` | ShotgunIntegration/ProcessManager.cpp:76-87 | empty or `'\n'`-terminated text is returned unchanged. Other text gets exactly one `'\n'` appended. The result is always empty or terminated |
| `LineStream.ReconstructIdempotent` | ShotgunIntegration/ProcessManager.cpp:76-87 | rebuilding a rebuilt stream changes nothing |
| `LineStream.LinesOfRebuild` | ShotgunIntegration/ProcessManager.cpp:79-81 | lines free of `'\n'`, written with `<< line << std::endl` and read back with `getline`, come back as the same sequence |
| `LineStream.LinesOfReconstruct` | ShotgunIntegration/ProcessManager.cpp:76-87 | the rebuilt stream reads back as exactly the lines of the captured text, so no line is lost or split |
| `LineStream.ReconstructOfRebuild` | ShotgunIntegration/ProcessManager.cpp:76-87 | output written as whole lines, like a script writing three lines, is returned unchanged |
| `LineStream.ReadAll` | ShotgunIntegration/ProcessManager.cpp:76-81 | the read loop, one `getline` per iteration, builds exactly `Reconstruct` of the captured text, which is `Terminate` of it |

## Left out

- Launching the child (`Launch`, ProcessManager.cpp:39-48): environment inheritance, pipe capture and the absence of stdin are foreign I/O. `launch` stands for launching and waiting, and it is deterministic in the executable and argument vector.
- A fault while reading a pipe after the child has started is not separated from a launch fault. Both are `SpawnFailed(what)`, and both end as `(-1, "", what)`.
- Whether waiting before draining the pipes can deadlock on large output: this is operating-system buffering.
- The worker thread itself: the callback runs on another thread, and `ExecuteTankCommandAsync` returns before it fires. Only the order "validate, then throw or call back once" is modelled. A failure to create the thread, which would also reach the caller, is not modelled.
- `host->htmlLog` (ProcessManager.cpp:56): fire-and-forget logging with no effect on the result.
- `FB::VariantMap` and `convert_cast`: the map with keys `retcode`, `out` and `err` is the record `TankResult`. The callback's three arguments are its fields.
- The Windows build (`tank.bat`, backslash separators): `TANK_SCRIPT_NAME` is the POSIX `"tank"`, and `Join` follows the POSIX separator rule.
- Symbolic links and the resolution `fs::status` performs: a `Snapshot` entry is the already-resolved status of a path.
- `std::getline`'s `max_size` limit and character encodings: a stream is a sequence of `char`, and `'\n'` is the only delimiter.
- Exit codes are unbounded `int`s. `SentinelMeansAbnormal` assumes what POSIX guarantees: a normally exited child has a code from 0 to 255, so -1 cannot be a real exit code.
