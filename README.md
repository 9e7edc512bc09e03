# Forked-child process handle

A model of the handle that janet-fork's `fork.c` hands out for a child process
created with `fork()`. The handle is a four-field record (`pid`, `close_signal`,
`exited`, `wstatus`). The source acts on it in these ways:
- a status decoder;
- a wait that retries `waitpid()` on EINTR and caches the first terminal status it gets;
- a signal operation that retries `kill()` on EINTR;
- a graceful close;
- a garbage-collection finalizer that must leave the handle exited;
- construction from the three-way outcome of `fork()`;
- a property accessor for `pid` and `exit-code`.

The project has three modules:

- `Os` (os.dfy) holds the operating-system side.
  - errno values.
  - The raw wait status, kept abstract as the classification made by `WIFEXITED`/`WEXITSTATUS`/`WIFSIGNALED` in POSIX.1-2017 (IEEE Std 1003.1-2017, XSH wait()).
  - A scripted kernel. Each `waitpid()` or `kill()` call consumes the next reply of its script and is recorded in one call log, which keeps the order of all calls of both kinds. The last reply of a script is the answer to every further call, and it is never EINTR. So the model's kernel interrupts a call only finitely often, and the retry loops terminate.
  - The kernel exists both as a value (`Env`) and as an object (`Kernel`).
- `Lifecycle` (lifecycle.dfy) gives every operation as a function. Each takes a handle value and a kernel value, and returns the new handle, the new kernel and the C-level or host-level result. The properties are proved about these functions, including invariants over any run of operations.
- `Handle` (handle.dfy) has the handle as a class whose methods update its fields in place. The EINTR retries are `while` loops. The entry points the host calls are module-level methods. Each method's postcondition says its new state and result are those of the `Lifecycle` function of the same name. So every property proved in `Lifecycle` holds of the methods.

In three places the code does something other than what a caller might expect, and the model follows the code:
- Closing a pid -1 handle that has not exited fails with EINVAL. It is not a no-op. The signal step skips, and then the wait step rejects the handle.
- The close-signal override is checked after `fork()` has already run. In the child branch it is never checked.
- Only the value -1 is rejected as a signal number.

## Model

| member | source | states |
|---|---|---|
| `Os.WaitpidRetrying` | fork.c:75-77 | the retry loop ends on the first reply that is not EINTR; exactly the replies up to it are consumed, each by a call with the same pid and flags; kill() is untouched |
| `Os.KillRetrying` | fork.c:98-100 | the same for `kill()`: the first non-EINTR reply ends the loop, and every call in the log carries the same pid and signal |
| `Os.Kernel.Waitpid` | fork.c:76 | one `waitpid()` call consumes exactly the next scripted reply and is appended to the call log |
| `Os.Kernel.Kill` | fork.c:99 | one `kill()` call consumes exactly the next scripted reply and is appended to the call log |
| `Lifecycle.ExitCode` | fork.c:32-52 | the result is -1 (EINVAL) exactly when the handle has not exited, has pid -1, or its status is neither an exit nor a signal death; otherwise it is the exit status (0..255) for a normal exit and 129 for any signal death; -1 is never a valid code |
| `Lifecycle.ExitStatusIsKept` | fork.c:40-41 | two normal exits decode to the same code only if their exit statuses are equal |
| `Lifecycle.SignalNumberIsLost` | fork.c:42-44 | all signal deaths decode alike, and alike to a normal exit with status 129 |
| `Lifecycle.Wait` | fork.c:58-90 | pid -1 fails with EINVAL and changes nothing; on an exited handle it changes nothing, calls no `waitpid()` and returns the decoded cached status; a failure is never EINTR and leaves the handle unchanged; a blocking success marks the handle exited; a success without exit is a non-blocking -1 with the handle unchanged; on a live handle the kernel afterwards is exactly that left by the EINTR retry loop; pid and close signal never change; it never calls `kill()` |
| `Lifecycle.Signal` | fork.c:92-106 | the handle never changes; when exited or without a pid it calls no `kill()` and returns 0; otherwise the kernel is left as by the retry loop, and -1 is returned exactly when that loop ended in a failure, with that errno (never EINTR) |
| `Lifecycle.Finalize` | fork.c:108-123 | always returns 0; a handle with a pid is exited afterwards, even when the wait failed; kill failures are ignored; on a live handle the call log gains exactly the close-signal `kill()` calls of the EINTR retry loop and then the blocking `waitpid()` calls of the wait, in that order, and the kernel afterwards is that of the kill retry loop followed by the blocking wait; a successful wait leaves the handle as that wait does, and a failed one changes only `exited`; an inert handle is untouched |
| `Lifecycle.Get` | fork.c:142-155 | `pid` reads absent exactly when the pid is -1 and otherwise gives the pid, with no kernel call; `exit-code` performs a non-blocking wait and leaves handle and kernel as that wait does; it raises exactly when the wait failed, carrying the wait's errno, and then the handle is unchanged; a wait result of -1 reads absent and any other result is given as the value, which is the handle's decoded code in 0..255 |
| `Lifecycle.WaitFor` | fork.c:164-174 | a blocking wait that leaves handle and kernel as the wait does; a wait result is returned as the value, and it is the handle's decoded status; a wait failure raises "error waiting for process" with that wait's errno (never EINTR) and leaves the handle unchanged |
| `Lifecycle.SendSignal` | fork.c:176-188 | signal -1 is refused before the handle or the kernel is consulted; otherwise it does what the signal helper does and raises "unable to signal process" exactly when that helper returned -1, carrying the helper's errno |
| `Lifecycle.Close` | fork.c:190-208 | an exited handle is left alone and close succeeds; otherwise the close signal is sent first; if it fails, close raises with its errno and the handle is unchanged; if it succeeds, the call log gains the close-signal `kill()` calls and then the blocking `waitpid()` calls, in that order, handle and kernel are those of the blocking wait that follows, close succeeds exactly when that wait did, and a wait failure is raised with its errno; a successful close leaves the handle exited; on a pid -1 handle that has not exited it fails with EINVAL |
| `Lifecycle.Fork` | fork.c:210-235 | fork() failure raises with its errno; the child gets no handle; in the parent with an acceptable override the result is exactly the handle with the child's pid, the override or SIGTERM as close signal, not exited and status 0, with nothing dropped; a parent handle's pid is never -1 or 0 and its close signal never -1; an override of -1 raises, and exactly then a handle was allocated and dropped |
| `Lifecycle.WaitReportsExitStatus` | fork.c:86-88 | a reaped normal exit with status c makes the wait report c and caches the status |
| `Lifecycle.WaitReportsSignalDeath` | fork.c:42-44 | a reaped death by any signal makes the wait report 129, and the handle afterwards is exited with that signal death cached as its status |
| `Lifecycle.WaitCachesReapedStatus` | fork.c:75-88 | whatever status a reap delivers is cached with `exited` set, the kernel is that left by the retry loop, and a status that is neither an exit nor a signal death is reported as -1 |
| `Lifecycle.WaitFindsNoChange` | fork.c:82-88 | a `waitpid()` result of 0 under WNOHANG reports -1 and leaves the handle unchanged; without WNOHANG it marks the handle exited |
| `Lifecycle.WaitFailureLeavesHandle` | fork.c:75-80 | a non-EINTR failure of `waitpid()` is returned with its errno and leaves the handle unchanged |
| `Lifecycle.WaitIsCached` | fork.c:68-71 | after a successful blocking wait, every later wait returns the same value, calls no `waitpid()` and changes nothing |
| `Lifecycle.StillRunningThenExit` | fork.c:82-88 | a non-blocking wait that finds the child running does not prevent a later blocking wait from reporting the real exit status |
| `Lifecycle.InvalidStatusLooksRunning` | fork.c:68-71 | the decoder's -1 flows out of a successful wait: an exited handle with an unclassifiable status reports -1, the value that means "still running", and its `exit-code` reads absent (fork.c:153) |
| `Lifecycle.CloseIsIdempotent` | fork.c:194-195 | after a successful close, a second close succeeds, sends no signal and changes nothing |
| `Lifecycle.FinalizeLeavesInert` | fork.c:113-121 | after the finalizer, a handle with a pid is exited; if its wait failed, `exited` is the only field that changed |
| `Lifecycle.OverrideCheckedAfterFork` | fork.c:213-232 | a rejected override still leaves a forked child, whose dropped handle has the default SIGTERM close signal; the child branch ignores the override |
| `Lifecycle.Apply` | fork.c:108-208 | no host operation changes the pid or close signal or resets `exited`; on an exited handle, or one without a pid, every operation is a no-op |
| `Lifecycle.InertHandleIsFrozen` | fork.c:58-123 | no sequence of operations on an exited handle, or one without a pid, changes a field or makes a system call |
| `Lifecycle.IdentityIsFixed` | fork.c:21-26 | pid and close signal are the same after any sequence of operations |
| `Lifecycle.ExitedIsFinal` | fork.c:87 | once a run has left the handle exited, no further operations change it: `exited` never goes back to 0 and the cached status is never overwritten |
| `Lifecycle.NothingAfterFinalize` | fork.c:108-123 | once the finalizer has run on a handle with a pid, later operations change nothing |
| `Handle.Process.constructor` | fork.c:221-225 | a new handle has the child's pid, close signal SIGTERM, `exited` 0 and status 0 |
| `Handle.Process.Wait` | fork.c:58-90 | the fields and kernel afterwards, and the result, are those of `Lifecycle.Wait`; the `do`-`while` EINTR loop is proved against the retry function |
| `Handle.Process.Signal` | fork.c:92-106 | changes only the kernel; result and kernel are those of `Lifecycle.Signal` |
| `Handle.Process.Finalize` | fork.c:108-123 | fields, kernel and result are those of `Lifecycle.Finalize` |
| `Handle.Get` | fork.c:136-155 | fields, kernel and result are those of `Lifecycle.Get` |
| `Handle.WaitFor` | fork.c:164-174 | fields, kernel and result are those of `Lifecycle.WaitFor` |
| `Handle.SendSignal` | fork.c:176-188 | kernel and result are those of `Lifecycle.SendSignal`; the handle is not modified |
| `Handle.Close` | fork.c:190-208 | fields, kernel and result are those of `Lifecycle.Close` |
| `Handle.Fork` | fork.c:210-235 | the returned handle is fresh and its fields, the error raised, and the dropped handle all match `Lifecycle.Fork` |

## Left out

- Host-language glue is out of scope:
  - the method table lookup for `close`/`wait`/`signal` (fork.c:157);
  - keys that are not keywords, for which the accessor reports "not found" (fork.c:139-140);
  - unknown keywords, which fall through to that lookup;
  - arity checks and `janet_getabstract`;
  - the argument type check of `janet_getinteger` on the signal number (fork.c:179), which raises on a non-integer;
  - the raise of `janet_getnumber` on an override that is not a number (fork.c:228). Like a rejected -1 override, it happens after `fork()` and drops an allocated handle;
  - the abstract-type descriptor;
  - module registration.
  A host-language error (`janet_panic`) is modelled as the `Panic` case of the entry point's result.
- The real `fork()`, `waitpid()` and `kill()` are not modelled. They become inputs: fork's raw return value and errno are parameters, and the other two are answered by the scripted kernel. The process table itself is not modelled.
- The model's kernel interrupts a call only finitely often: each reply script ends in a non-EINTR reply that repeats. A real kernel could in principle interrupt forever, and the source's loops would then not terminate.
- `errno` is not a global in the model; its value is part of each result.
- The double-to-int conversion of the close-signal override (`janet_getnumber`) is not modelled: the override arrives as an integer.
- The raw wait status has no bit layout, since POSIX fixes none. The initial status word 0 is taken to read as a normal exit with status 0, as it does on Linux and the BSDs.
- Signal and close-signal numbers are plain integers, and only -1 is rejected, as in the source. Numeric signal values other than SIGTERM (15) are not modelled.
- When the garbage collector runs the finalizer is not modelled; the finalizer is an operation with a postcondition. A handle dropped because its override was rejected is returned as `orphan` and is not finalized automatically.
- Concurrency is left out. The source has none and does not share handles.
- The `flags` word is modelled as a single WNOHANG bit, the only flag the source passes.
