/** The forked-child handle as values: the four fields of the record, the
    operations on it as functions from a handle and a kernel to a new handle,
    a new kernel and the C-level result, and the properties of the lifecycle.

    The imperative class in module Handle is proved to compute exactly these
    functions; everything said here about them therefore holds of it.
 */
module Lifecycle {
  import opened Os

  datatype Option<+T> = None | Some(value: T)

  /** The record: `pid`, `close_signal`, `exited` and `wstatus`. */
  datatype Proc = Proc(pid: int, closeSignal: int, exited: bool, wstatus: WaitStatus)

  /** The pid that marks a handle without a process. */
  const NoPid: int := -1

  /** The code every signal death is reported as. */
  const SignalExitCode: int := 129

  /** The one signal value that the signal operation and the close-signal
      override reject. */
  const InvalidSignal: int := -1

  /** What the status decoder returns: a code, or -1 with errno set to EINVAL. */
  datatype ExitCodeResult = Code(code: int) | Invalid {
    /** The C int the decoder returns. */
    function AsInt(): int {
      if Code? then code else -1
    }
  }

  /** The C-level result of the wait helper: 0 with `*exit` written, or -1 with errno. */
  datatype WaitRc = Waited(exit: int) | WaitError(errno: Errno)

  /** The C-level result of the signal helper: 0, or -1 with errno. */
  datatype Rc = Zero | MinusOne(errno: Errno)

  /** Why an entry point raised a host-language error (one per message in the source). */
  datatype Reason =
    | ForkFailed(errno: Errno)          // "error fork failed"
    | BadCloseSignal                    // "invalid value for :close-signal"
    | BadSignal                         // "invalid signal"
    | SignalFailed(errno: Errno)        // "unable to signal process"
    | WaitFailed(errno: Errno)          // "error waiting for process"
    | CloseWaitFailed(errno: Errno)     // "unable to wait for process"
    | StatusCheckFailed(errno: Errno)   // "error checking exit status"

  /** An entry point either returns a value to the host or raises an error. */
  datatype Outcome<+T> = Return(value: T) | Panic(reason: Reason)

  /** The handle and the kernel after an operation, and what it returned. */
  datatype Step<+R> = Step(p: Proc, e: Env, ret: R)

  /** A handle on which wait, signal, close and the finalizer issue no system call. */
  predicate Inert(p: Proc) {
    p.exited || p.pid == NoPid
  }

  // ---------------------------------------------------------------------------
  // Status decoding

  /** Decode the cached raw status of a handle into an exit code. */
  function ExitCode(p: Proc): (r: ExitCodeResult)
    ensures r.Invalid? <==> !p.exited || p.pid == NoPid || p.wstatus.Other?
    ensures r.Code? ==> 0 <= r.code < 256
    ensures r.Code? && p.wstatus.Exited? ==> r.code == p.wstatus.status
    ensures r.Code? && p.wstatus.Signaled? ==> r.code == SignalExitCode
    ensures r.AsInt() == -1 <==> r.Invalid?
  {
    if !p.exited || p.pid == NoPid then Invalid
    else match p.wstatus
      case Exited(status) => Code(status)
      case Signaled(_) => Code(SignalExitCode)
      case Other => Invalid
  }

  /** Different normal exit statuses stay distinguishable. */
  lemma ExitStatusIsKept(p: Proc, a: ExitStatus, b: ExitStatus)
    requires p.exited && p.pid != NoPid
    ensures ExitCode(p.(wstatus := Exited(a))) == ExitCode(p.(wstatus := Exited(b))) <==> a == b
  {
  }

  /** Which signal killed the child is lost, and a death by signal reads the
      same as a normal exit with status 129. */
  lemma SignalNumberIsLost(p: Proc, s1: int, s2: int)
    requires p.exited && p.pid != NoPid
    ensures ExitCode(p.(wstatus := Signaled(s1))) == ExitCode(p.(wstatus := Signaled(s2)))
    ensures ExitCode(p.(wstatus := Signaled(s1))) == ExitCode(p.(wstatus := Exited(129)))
  {
  }

  // ---------------------------------------------------------------------------
  // The static helpers over the record

  /** Wait for the child, blocking unless `nohang`. */
  function Wait(p: Proc, e: Env, nohang: bool): (r: Step<WaitRc>)
    requires EnvOk(e)
    ensures EnvOk(r.e)
    ensures r.p.pid == p.pid && r.p.closeSignal == p.closeSignal
    ensures p.pid == NoPid ==> r == Step(p, e, WaitError(EINVAL))
    ensures p.exited ==> r.p == p && r.e == e
    ensures p.exited && p.pid != NoPid ==> r.ret == Waited(ExitCode(p).AsInt())
    ensures r.ret.WaitError? ==> r.p == p && r.ret.errno != EINTR
    ensures r.ret.Waited? && !nohang ==> r.p.exited
    ensures r.ret.Waited? && !r.p.exited ==> nohang && r.ret.exit == -1 && r.p == p
    ensures r.ret.Waited? && r.p.exited ==> r.ret.exit == ExitCode(r.p).AsInt()
    ensures r.e.killReplies == e.killReplies
    ensures |r.e.log| >= |e.log| && r.e.log[..|e.log|] == e.log
    ensures forall i :: |e.log| <= i < |r.e.log| ==> r.e.log[i] == WaitCall(p.pid, nohang)
    ensures !Inert(p) ==> r.e == WaitpidRetrying(e, p.pid, nohang).e
  {
    if p.pid == NoPid then Step(p, e, WaitError(EINVAL))
    else if p.exited then Step(p, e, Waited(ExitCode(p).AsInt()))
    else
      var s := WaitpidRetrying(e, p.pid, nohang);
      match s.reply
      case Failed(errno) => Step(p, s.e, WaitError(errno))
      case Returned(v) =>
        if nohang && v.NoChange? then Step(p, s.e, Waited(-1))
        else
          var p' := p.(exited := true, wstatus := if v.Reaped? then v.status else p.wstatus);
          Step(p', s.e, Waited(ExitCode(p').AsInt()))
  }

  /** Send `sig` to the child unless the handle is inert. The handle never changes. */
  function Signal(p: Proc, e: Env, sig: int): (r: Step<Rc>)
    requires EnvOk(e)
    ensures EnvOk(r.e) && r.p == p
    ensures Inert(p) ==> r.e == e && r.ret == Zero
    ensures !Inert(p) ==> r.e == KillRetrying(e, p.pid, sig).e
    ensures r.ret.MinusOne? <==> !Inert(p) && KillRetrying(e, p.pid, sig).reply.Failed?
    ensures r.ret.MinusOne? ==> r.ret == MinusOne(KillRetrying(e, p.pid, sig).reply.errno) && r.ret.errno != EINTR
    ensures r.e.waitReplies == e.waitReplies
    ensures |r.e.log| >= |e.log| && r.e.log[..|e.log|] == e.log
    ensures forall i :: |e.log| <= i < |r.e.log| ==> r.e.log[i] == KillCall(p.pid, sig)
  {
    if Inert(p) then Step(p, e, Zero)
    else
      var s := KillRetrying(e, p.pid, sig);
      Step(p, s.e, if s.reply.Failed? then MinusOne(s.reply.errno) else Zero)
  }

  /** The finalizer: send the close signal, reap the child, and mark the handle
      exited even when reaping failed. It always returns 0. */
  function Finalize(p: Proc, e: Env): (r: Step<int>)
    requires EnvOk(e)
    ensures EnvOk(r.e) && r.ret == 0
    ensures r.p.pid == p.pid && r.p.closeSignal == p.closeSignal
    ensures p.pid != NoPid ==> r.p.exited
    ensures Inert(p) ==> r.p == p && r.e == e
    ensures !Inert(p) ==>
      r.e.log == e.log + Repeat(KillCall(p.pid, p.closeSignal), LeadingInterrupts(e.killReplies) + 1)
                       + Repeat(WaitCall(p.pid, false), LeadingInterrupts(e.waitReplies) + 1)
    ensures !Inert(p) ==>
      var w := Wait(p, KillRetrying(e, p.pid, p.closeSignal).e, false);
      && r.e == w.e
      && (w.ret.Waited? ==> r.p == w.p)
      && (w.ret.WaitError? ==> r.p == p.(exited := true))
  {
    if !Inert(p) then
      var k := KillRetrying(e, p.pid, p.closeSignal);
      var w := Wait(p, k.e, false);
      Step(if w.ret.WaitError? then w.p.(exited := true) else w.p, w.e, 0)
    else
      Step(p, e, 0)
  }

  // ---------------------------------------------------------------------------
  // The entry points the host calls

  /** The keys the property accessor answers itself. */
  datatype Key = PidKey | ExitCodeKey

  /** Property read: the pid, or the exit code after a non-blocking wait. */
  function Get(p: Proc, e: Env, key: Key): (r: Step<Outcome<Option<int>>>)
    requires EnvOk(e)
    ensures EnvOk(r.e)
    ensures key == PidKey ==> r.p == p && r.e == e && r.ret.Return?
    ensures key == PidKey ==> (r.ret.value.None? <==> p.pid == NoPid)
    ensures key == PidKey && r.ret.value.Some? ==> r.ret.value.value == p.pid
    ensures key == ExitCodeKey ==> r.p == Wait(p, e, true).p && r.e == Wait(p, e, true).e
    ensures key == ExitCodeKey && r.ret.Panic? ==> r.p == p && r.ret.reason.StatusCheckFailed?
    ensures key == ExitCodeKey && r.ret.Return? && r.ret.value.Some? ==>
      r.p.exited && ExitCode(r.p) == Code(r.ret.value.value) && 0 <= r.ret.value.value < 256
    ensures key == ExitCodeKey && r.p.exited && p.pid != NoPid && ExitCode(r.p).Code? ==>
      r.ret == Return(Some(ExitCode(r.p).code))
    ensures key == ExitCodeKey ==> (r.ret.Panic? <==> Wait(p, e, true).ret.WaitError?)
    ensures key == ExitCodeKey && Wait(p, e, true).ret.WaitError? ==>
      r.ret == Panic(StatusCheckFailed(Wait(p, e, true).ret.errno))
    ensures key == ExitCodeKey && Wait(p, e, true).ret == Waited(-1) ==> r.ret == Return(None)
    ensures key == ExitCodeKey && Wait(p, e, true).ret.Waited? && Wait(p, e, true).ret.exit != -1 ==>
      r.ret == Return(Some(Wait(p, e, true).ret.exit))
  {
    match key
    case PidKey => Step(p, e, Return(if p.pid == NoPid then None else Some(p.pid)))
    case ExitCodeKey =>
      var w := Wait(p, e, true);
      match w.ret
      case WaitError(errno) => Step(w.p, w.e, Panic(StatusCheckFailed(errno)))
      case Waited(code) => Step(w.p, w.e, Return(if code == -1 then None else Some(code)))
  }

  /** Blocking wait as the host sees it. */
  function WaitFor(p: Proc, e: Env): (r: Step<Outcome<int>>)
    requires EnvOk(e)
    ensures EnvOk(r.e)
    ensures r.p == Wait(p, e, false).p && r.e == Wait(p, e, false).e
    ensures r.ret.Return? ==> r.p.exited && r.ret.value == ExitCode(r.p).AsInt()
    ensures r.ret.Panic? ==> r.p == p && r.ret.reason.WaitFailed? && r.ret.reason.errno != EINTR
    ensures p.pid == NoPid ==> r.ret == Panic(WaitFailed(EINVAL))
    ensures Wait(p, e, false).ret.Waited? ==> r.ret == Return(Wait(p, e, false).ret.exit)
    ensures Wait(p, e, false).ret.WaitError? ==> r.ret == Panic(WaitFailed(Wait(p, e, false).ret.errno))
  {
    var w := Wait(p, e, false);
    match w.ret
    case WaitError(errno) => Step(w.p, w.e, Panic(WaitFailed(errno)))
    case Waited(code) => Step(w.p, w.e, Return(code))
  }

  /** Signal delivery as the host sees it: -1 is refused before anything else. */
  function SendSignal(p: Proc, e: Env, sig: int): (r: Step<Outcome<()>>)
    requires EnvOk(e)
    ensures EnvOk(r.e) && r.p == p
    ensures sig == InvalidSignal ==> r == Step(p, e, Panic(BadSignal))
    ensures sig != InvalidSignal ==> r.e == Signal(p, e, sig).e
    ensures sig != InvalidSignal ==> (r.ret.Return? <==> Signal(p, e, sig).ret == Zero)
    ensures r.ret.Panic? ==> r.ret.reason == BadSignal || (r.ret.reason.SignalFailed? && r.ret.reason.errno != EINTR)
    ensures sig != InvalidSignal && Signal(p, e, sig).ret.MinusOne? ==>
      r.ret == Panic(SignalFailed(Signal(p, e, sig).ret.errno))
  {
    if sig == InvalidSignal then Step(p, e, Panic(BadSignal))
    else
      var s := Signal(p, e, sig);
      Step(p, s.e, if s.ret.MinusOne? then Panic(SignalFailed(s.ret.errno)) else Return(()))
  }

  /** Graceful close: nothing once exited, else the close signal and a blocking wait. */
  function Close(p: Proc, e: Env): (r: Step<Outcome<()>>)
    requires EnvOk(e)
    ensures EnvOk(r.e)
    ensures r.p.pid == p.pid && r.p.closeSignal == p.closeSignal
    ensures p.exited ==> r == Step(p, e, Return(()))
    ensures r.ret.Return? ==> r.p.exited
    ensures r.ret.Panic? ==> r.p == p && (r.ret.reason.SignalFailed? || r.ret.reason.CloseWaitFailed?)
    ensures !p.exited && p.pid == NoPid ==> r == Step(p, e, Panic(CloseWaitFailed(EINVAL)))
    ensures !Inert(p) ==> |r.e.log| > |e.log| && r.e.log[|e.log|] == KillCall(p.pid, p.closeSignal)
    ensures !Inert(p) && Signal(p, e, p.closeSignal).ret == Zero ==>
      r.e.log == e.log + Repeat(KillCall(p.pid, p.closeSignal), LeadingInterrupts(e.killReplies) + 1)
                       + Repeat(WaitCall(p.pid, false), LeadingInterrupts(e.waitReplies) + 1)
    ensures !p.exited && Signal(p, e, p.closeSignal).ret.MinusOne? ==>
      r == Step(p, Signal(p, e, p.closeSignal).e, Panic(SignalFailed(Signal(p, e, p.closeSignal).ret.errno)))
    ensures !p.exited && Signal(p, e, p.closeSignal).ret == Zero ==>
      var w := Wait(p, Signal(p, e, p.closeSignal).e, false);
      && r.p == w.p && r.e == w.e
      && (r.ret.Return? <==> w.ret.Waited?)
      && (w.ret.WaitError? ==> r.ret == Panic(CloseWaitFailed(w.ret.errno)))
  {
    if p.exited then Step(p, e, Return(()))
    else
      var s := Signal(p, e, p.closeSignal);
      if s.ret.MinusOne? then Step(p, s.e, Panic(SignalFailed(s.ret.errno)))
      else
        var w := Wait(p, s.e, false);
        if w.ret.WaitError? then Step(w.p, w.e, Panic(CloseWaitFailed(w.ret.errno)))
        else Step(w.p, w.e, Return(()))
  }

  /** The result of fork: the host's value or error, and the handle that was
      allocated but not handed out (an override rejected after fork). */
  datatype ForkResult = ForkResult(ret: Outcome<Option<Proc>>, orphan: Option<Proc>)

  /** Build a handle from fork()'s raw return value `child` (with `errno` when it
      is -1) and the optional close-signal override. */
  function Fork(child: int, errno: Errno, closeSignal: Option<int>): (r: ForkResult)
    ensures child == -1 ==> r == ForkResult(Panic(ForkFailed(errno)), None)
    ensures child == 0 ==> r == ForkResult(Return(None), None)
    ensures r.ret.Return? && r.ret.value.Some? ==>
      var h := r.ret.value.value;
      && h.pid == child && h.pid != NoPid && h.pid != 0
      && !h.exited && h.wstatus == ZeroStatus
      && h.closeSignal != InvalidSignal
      && h.closeSignal == (if closeSignal.Some? then closeSignal.value else SIGTERM)
    ensures r.ret == Panic(BadCloseSignal) <==> child != -1 && child != 0 && closeSignal == Some(InvalidSignal)
    ensures r.orphan.Some? <==> r.ret == Panic(BadCloseSignal)
    ensures r.orphan.Some? ==> r.orphan.value == Proc(child, SIGTERM, false, ZeroStatus)
    ensures child != -1 && child != 0 && closeSignal != Some(InvalidSignal) ==>
      r == ForkResult(Return(Some(Proc(child, if closeSignal.Some? then closeSignal.value else SIGTERM, false, ZeroStatus))), None)
  {
    if child == -1 then ForkResult(Panic(ForkFailed(errno)), None)
    else if child == 0 then ForkResult(Return(None), None)
    else
      var p := Proc(child, SIGTERM, false, ZeroStatus);
      if closeSignal.Some? then
        if closeSignal.value == InvalidSignal then ForkResult(Panic(BadCloseSignal), Some(p))
        else ForkResult(Return(Some(p.(closeSignal := closeSignal.value))), None)
      else ForkResult(Return(Some(p)), None)
  }

  // ---------------------------------------------------------------------------
  // Properties of single operations

  /** A normal exit with status `c` is reported as `c`, and the handle is then exited. */
  lemma WaitReportsExitStatus(p: Proc, e: Env, nohang: bool, c: ExitStatus)
    requires EnvOk(e) && !Inert(p)
    requires WaitpidRetrying(e, p.pid, nohang).reply == Returned(Reaped(Exited(c)))
    ensures Wait(p, e, nohang).ret == Waited(c)
    ensures Wait(p, e, nohang).p == p.(exited := true, wstatus := Exited(c))
  {
  }

  /** A death by any signal is reported as 129. */
  lemma WaitReportsSignalDeath(p: Proc, e: Env, nohang: bool, sig: int)
    requires EnvOk(e) && !Inert(p)
    requires WaitpidRetrying(e, p.pid, nohang).reply == Returned(Reaped(Signaled(sig)))
    ensures Wait(p, e, nohang).ret == Waited(SignalExitCode)
    ensures Wait(p, e, nohang).p == p.(exited := true, wstatus := Signaled(sig))
  {
  }

  /** Whatever status a reap delivers is cached; one that is neither an exit
      nor a signal death is reported as -1, like a child still running. */
  lemma WaitCachesReapedStatus(p: Proc, e: Env, nohang: bool, st: WaitStatus)
    requires EnvOk(e) && !Inert(p)
    requires WaitpidRetrying(e, p.pid, nohang).reply == Returned(Reaped(st))
    ensures Wait(p, e, nohang).p == p.(exited := true, wstatus := st)
    ensures Wait(p, e, nohang).e == WaitpidRetrying(e, p.pid, nohang).e
    ensures st.Other? ==> Wait(p, e, nohang).ret == Waited(-1)
  {
  }

  /** A waitpid() that returns 0: under WNOHANG the wait reports -1, the
      "still running" value, and leaves the handle alone; a blocking wait (where
      POSIX rules this reply out) marks the handle exited with its status untouched. */
  lemma WaitFindsNoChange(p: Proc, e: Env, nohang: bool)
    requires EnvOk(e) && !Inert(p)
    requires WaitpidRetrying(e, p.pid, nohang).reply == Returned(NoChange)
    ensures nohang ==> Wait(p, e, nohang) == Step(p, WaitpidRetrying(e, p.pid, nohang).e, Waited(-1))
    ensures !nohang ==> Wait(p, e, nohang).p == p.(exited := true)
  {
  }

  /** Only a failure other than EINTR ends the retry loop with an error, and
      then it is reported as is and the handle does not change. */
  lemma WaitFailureLeavesHandle(p: Proc, e: Env, nohang: bool)
    requires EnvOk(e) && !Inert(p)
    requires WaitpidRetrying(e, p.pid, nohang).reply.Failed?
    ensures Wait(p, e, nohang).ret == WaitError(WaitpidRetrying(e, p.pid, nohang).reply.errno)
    ensures Wait(p, e, nohang).ret.errno != EINTR
    ensures Wait(p, e, nohang).p == p
  {
  }

  /** Once a blocking wait succeeded, every later wait returns the same value,
      issues no waitpid() and changes nothing. */
  lemma WaitIsCached(p: Proc, e: Env, e2: Env, nohang: bool)
    requires EnvOk(e) && EnvOk(e2)
    requires Wait(p, e, false).ret.Waited?
    ensures Wait(Wait(p, e, false).p, e2, nohang) == Step(Wait(p, e, false).p, e2, Wait(p, e, false).ret)
  {
  }

  /** A non-blocking wait that finds the child running does not spoil a later
      blocking wait: that one reports the real exit status. */
  lemma StillRunningThenExit(p: Proc, e: Env, c: ExitStatus)
    requires EnvOk(e) && !Inert(p)
    requires WaitpidRetrying(e, p.pid, true).reply == Returned(NoChange)
    requires WaitpidRetrying(WaitpidRetrying(e, p.pid, true).e, p.pid, false).reply == Returned(Reaped(Exited(c)))
    ensures Wait(p, e, true).ret == Waited(-1)
    ensures Wait(Wait(p, e, true).p, Wait(p, e, true).e, false).ret == Waited(c)
  {
    WaitFindsNoChange(p, e, true);
    WaitReportsExitStatus(p, WaitpidRetrying(e, p.pid, true).e, false, c);
  }

  /** The decoder's -1 is passed on as a successful wait: an exited handle whose
      status is neither an exit nor a signal death reports -1, the same value as
      "still running", and the exit-code property then reads as absent. */
  lemma InvalidStatusLooksRunning(p: Proc, e: Env, nohang: bool)
    requires EnvOk(e) && p.exited && p.pid != NoPid && p.wstatus.Other?
    ensures Wait(p, e, nohang) == Step(p, e, Waited(-1))
    ensures Get(p, e, ExitCodeKey) == Step(p, e, Return(None))
  {
  }

  /** A second close after a successful one succeeds and sends no signal. */
  lemma CloseIsIdempotent(p: Proc, e: Env, e2: Env)
    requires EnvOk(e) && EnvOk(e2)
    requires Close(p, e).ret.Return?
    ensures Close(Close(p, e).p, e2) == Step(Close(p, e).p, e2, Return(()))
  {
  }

  /** The finalizer reaps or gives up on the child, and either way leaves a
      handle on which no later operation issues a system call. */
  lemma FinalizeLeavesInert(p: Proc, e: Env)
    requires EnvOk(e) && p.pid != NoPid
    ensures Inert(Finalize(p, e).p)
    ensures !p.exited && WaitpidRetrying(KillRetrying(e, p.pid, p.closeSignal).e, p.pid, false).reply.Failed? ==>
      Finalize(p, e).p == p.(exited := true)
  {
  }

  /** The override is checked only after fork() ran: a rejected override still
      leaves a child running, whose handle carries the default close signal, and
      the child branch never looks at the override. */
  lemma OverrideCheckedAfterFork(child: int, errno: Errno, closeSignal: Option<int>)
    requires child != -1
    ensures child != 0 && closeSignal == Some(InvalidSignal) ==>
      Fork(child, errno, closeSignal) == ForkResult(Panic(BadCloseSignal), Some(Proc(child, SIGTERM, false, ZeroStatus)))
    ensures child == 0 ==> Fork(child, errno, closeSignal).ret == Return(None)
  {
  }

  // ---------------------------------------------------------------------------
  // Runs of operations: the lifecycle invariants

  /** One operation the host can perform on a handle. */
  datatype Op = WaitOp | SignalOp(sig: int) | CloseOp | GetOp(key: Key) | FinalizeOp

  datatype Config = Config(p: Proc, e: Env)

  function Apply(c: Config, op: Op): (r: Config)
    requires EnvOk(c.e)
    ensures EnvOk(r.e)
    ensures r.p.pid == c.p.pid && r.p.closeSignal == c.p.closeSignal
    ensures c.p.exited ==> r.p.exited
    ensures Inert(c.p) ==> r == c
  {
    match op
    case WaitOp => var s := WaitFor(c.p, c.e); Config(s.p, s.e)
    case SignalOp(sig) => var s := SendSignal(c.p, c.e, sig); Config(s.p, s.e)
    case CloseOp => var s := Close(c.p, c.e); Config(s.p, s.e)
    case GetOp(key) => var s := Get(c.p, c.e, key); Config(s.p, s.e)
    case FinalizeOp => var s := Finalize(c.p, c.e); Config(s.p, s.e)
  }

  function Run(c: Config, ops: seq<Op>): (r: Config)
    requires EnvOk(c.e)
    ensures EnvOk(r.e)
    decreases |ops|
  {
    if ops == [] then c else Run(Apply(c, ops[0]), ops[1..])
  }

  /** An exited handle, or one without a process, is frozen: no run of
      operations changes a field or issues a system call. */
  lemma {:induction false} InertHandleIsFrozen(c: Config, ops: seq<Op>)
    requires EnvOk(c.e) && Inert(c.p)
    ensures Run(c, ops) == c
    decreases |ops|
  {
    if ops != [] {
      InertHandleIsFrozen(Apply(c, ops[0]), ops[1..]);
    }
  }

  /** The pid and the close signal are set at creation and never change. */
  lemma {:induction false} IdentityIsFixed(c: Config, ops: seq<Op>)
    requires EnvOk(c.e)
    ensures Run(c, ops).p.pid == c.p.pid && Run(c, ops).p.closeSignal == c.p.closeSignal
    decreases |ops|
  {
    if ops != [] {
      IdentityIsFixed(Apply(c, ops[0]), ops[1..]);
    }
  }

  lemma {:induction false} RunAppend(c: Config, ops1: seq<Op>, ops2: seq<Op>)
    requires EnvOk(c.e)
    ensures Run(c, ops1 + ops2) == Run(Run(c, ops1), ops2)
    decreases |ops1|
  {
    if ops1 == [] {
      assert ops1 + ops2 == ops2;
    } else {
      assert (ops1 + ops2)[1..] == ops1[1..] + ops2;
      RunAppend(Apply(c, ops1[0]), ops1[1..], ops2);
    }
  }

  /** `exited` never goes back from true to false, and the cached status never
      changes once set: what a run leaves exited stays as it is. */
  lemma ExitedIsFinal(c: Config, ops1: seq<Op>, ops2: seq<Op>)
    requires EnvOk(c.e) && Run(c, ops1).p.exited
    ensures Run(c, ops1 + ops2).p == Run(c, ops1).p
  {
    RunAppend(c, ops1, ops2);
    InertHandleIsFrozen(Run(c, ops1), ops2);
  }

  /** After the finalizer ran on a handle with a process, nothing else happens. */
  lemma NothingAfterFinalize(c: Config, ops: seq<Op>)
    requires EnvOk(c.e) && c.p.pid != NoPid
    ensures Run(c, [FinalizeOp] + ops) == Apply(c, FinalizeOp)
  {
    assert ([FinalizeOp] + ops)[1..] == ops;
    InertHandleIsFrozen(Apply(c, FinalizeOp), ops);
  }
}
