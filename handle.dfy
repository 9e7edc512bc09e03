/** The forked-child handle as the source keeps it: a record whose fields the
    helpers update in place, with the EINTR retry loops written as loops, and
    the entry points the host calls. Every method is proved to compute the
    function of the same name in module Lifecycle, so the lifecycle properties
    proved there hold of these methods.
 */
module Handle {
  import opened Os
  import opened Lifecycle

  class Process {
    var pid: int
    var closeSignal: int
    var exited: bool
    var wstatus: WaitStatus

    function State(): Proc
      reads this
    {
      Proc(pid, closeSignal, exited, wstatus)
    }

    /** The field-by-field initialisation of a new handle in the parent. */
    constructor (child: int)
      ensures State() == Proc(child, SIGTERM, false, ZeroStatus)
    {
      closeSignal := SIGTERM;
      pid := child;
      exited := false;
      wstatus := ZeroStatus;
    }

    /** Wait for the child; the status is stored in `wstatus` by waitpid() itself. */
    method Wait(os: Kernel, nohang: bool) returns (r: WaitRc)
      requires os.Valid()
      modifies this, os
      ensures os.Valid()
      ensures Step(State(), os.State(), r) == Lifecycle.Wait(old(State()), old(os.State()), nohang)
    {
      if pid == NoPid {
        return WaitError(EINVAL);
      }
      if exited {
        return Waited(ExitCode(State()).AsInt());
      }
      var o := os.Waitpid(pid, nohang);
      while o.Interrupted()
        invariant os.Valid() && State() == old(State())
        invariant o.Interrupted() ==>
          WaitpidRetrying(os.State(), pid, nohang) == WaitpidRetrying(old(os.State()), pid, nohang)
        invariant !o.Interrupted() ==>
          Settled(o, os.State()) == WaitpidRetrying(old(os.State()), pid, nohang)
        decreases |os.waitReplies| + if o.Interrupted() then 1 else 0
      {
        o := os.Waitpid(pid, nohang);
      }
      if o.Returned? && o.value.Reaped? {
        wstatus := o.value.status;
      }
      if o.Failed? {
        return WaitError(o.errno);
      }
      if nohang && o.value.NoChange? {
        return Waited(-1);
      }
      exited := true;
      r := Waited(ExitCode(State()).AsInt());
    }

    /** Send `sig` to the child, retrying on EINTR; a no-op once exited or without a pid. */
    method Signal(os: Kernel, sig: int) returns (r: Rc)
      requires os.Valid()
      modifies os
      ensures os.Valid()
      ensures Step(State(), os.State(), r) == Lifecycle.Signal(State(), old(os.State()), sig)
    {
      if exited || pid == NoPid {
        return Zero;
      }
      var o := os.Kill(pid, sig);
      while o.Interrupted()
        invariant os.Valid()
        invariant o.Interrupted() ==>
          KillRetrying(os.State(), pid, sig) == KillRetrying(old(os.State()), pid, sig)
        invariant !o.Interrupted() ==>
          Settled(o, os.State()) == KillRetrying(old(os.State()), pid, sig)
        decreases |os.killReplies| + if o.Interrupted() then 1 else 0
      {
        o := os.Kill(pid, sig);
      }
      if o.Failed? {
        return MinusOne(o.errno);
      }
      return Zero;
    }

    /** The finalizer: kill with the close signal ignoring failures, reap, and
        mark the handle exited even when reaping failed. */
    method Finalize(os: Kernel) returns (r: int)
      requires os.Valid()
      modifies this, os
      ensures os.Valid()
      ensures Step(State(), os.State(), r) == Lifecycle.Finalize(old(State()), old(os.State()))
    {
      if !exited && pid != NoPid {
        var o := os.Kill(pid, closeSignal);
        while o.Interrupted()
          invariant os.Valid() && State() == old(State())
          invariant o.Interrupted() ==>
            KillRetrying(os.State(), pid, closeSignal) == KillRetrying(old(os.State()), pid, closeSignal)
          invariant !o.Interrupted() ==>
            Settled(o, os.State()) == KillRetrying(old(os.State()), pid, closeSignal)
          decreases |os.killReplies| + if o.Interrupted() then 1 else 0
        {
          o := os.Kill(pid, closeSignal);
        }
        var w := Wait(os, false);
        if w.WaitError? {
          exited := true;
        }
      }
      return 0;
    }
  }

  /** The property accessor for the keys it answers itself. */
  method Get(p: Process, os: Kernel, key: Key) returns (r: Outcome<Option<int>>)
    requires os.Valid()
    modifies p, os
    ensures os.Valid()
    ensures Step(p.State(), os.State(), r) == Lifecycle.Get(old(p.State()), old(os.State()), key)
  {
    match key
    case PidKey =>
      r := Return(if p.pid == NoPid then None else Some(p.pid));
    case ExitCodeKey =>
      var w := p.Wait(os, true);
      if w.WaitError? {
        return Panic(StatusCheckFailed(w.errno));
      }
      r := Return(if w.exit == -1 then None else Some(w.exit));
  }

  /** Blocking wait, raising an error when it fails. */
  method WaitFor(p: Process, os: Kernel) returns (r: Outcome<int>)
    requires os.Valid()
    modifies p, os
    ensures os.Valid()
    ensures Step(p.State(), os.State(), r) == Lifecycle.WaitFor(old(p.State()), old(os.State()))
  {
    var w := p.Wait(os, false);
    if w.WaitError? {
      return Panic(WaitFailed(w.errno));
    }
    return Return(w.exit);
  }

  /** Signal delivery: the value -1 is refused before the handle is consulted. */
  method SendSignal(p: Process, os: Kernel, sig: int) returns (r: Outcome<()>)
    requires os.Valid()
    modifies os
    ensures os.Valid()
    ensures Step(p.State(), os.State(), r) == Lifecycle.SendSignal(p.State(), old(os.State()), sig)
  {
    if sig == InvalidSignal {
      return Panic(BadSignal);
    }
    var rc := p.Signal(os, sig);
    if rc.MinusOne? {
      return Panic(SignalFailed(rc.errno));
    }
    return Return(());
  }

  /** Graceful close: nothing once exited, else the close signal and a blocking wait. */
  method Close(p: Process, os: Kernel) returns (r: Outcome<()>)
    requires os.Valid()
    modifies p, os
    ensures os.Valid()
    ensures Step(p.State(), os.State(), r) == Lifecycle.Close(old(p.State()), old(os.State()))
  {
    if p.exited {
      return Return(());
    }
    var rc := p.Signal(os, p.closeSignal);
    if rc.MinusOne? {
      return Panic(SignalFailed(rc.errno));
    }
    var w := p.Wait(os, false);
    if w.WaitError? {
      return Panic(CloseWaitFailed(w.errno));
    }
    return Return(());
  }

  /** Turn fork()'s raw return value into a handle. A rejected override is
      detected only after the handle was allocated; that handle is returned as
      `orphan`, left for the finalizer. */
  method Fork(child: int, errno: Errno, closeSignal: Option<int>) returns (r: Outcome<Option<Process>>, orphan: Process?)
    ensures r.Panic? <==> Lifecycle.Fork(child, errno, closeSignal).ret.Panic?
    ensures r.Panic? ==> r.reason == Lifecycle.Fork(child, errno, closeSignal).ret.reason
    ensures r == Return(None) <==> Lifecycle.Fork(child, errno, closeSignal).ret == Return(None)
    ensures r.Return? && r.value.Some? ==>
      fresh(r.value.value) && Lifecycle.Fork(child, errno, closeSignal).ret == Return(Some(r.value.value.State()))
    ensures orphan != null <==> Lifecycle.Fork(child, errno, closeSignal).orphan.Some?
    ensures orphan != null ==>
      fresh(orphan) && Lifecycle.Fork(child, errno, closeSignal).orphan == Some(orphan.State())
  {
    if child == -1 {
      return Panic(ForkFailed(errno)), null;
    }
    if child == 0 {
      return Return(None), null;
    }
    var p := new Process(child);
    if closeSignal.Some? {
      if closeSignal.value == InvalidSignal {
        return Panic(BadCloseSignal), p;
      }
      p.closeSignal := closeSignal.value;
    }
    return Return(Some(p)), null;
  }
}
