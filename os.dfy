/** The operating-system side of a forked-child handle.

    The raw wait status of POSIX.1-2017 (IEEE Std 1003.1-2017, XSH wait()/waitpid())
    is kept abstract: only the classification made by WIFEXITED, WEXITSTATUS and
    WIFSIGNALED is modelled, since the standard fixes no bit layout.

    waitpid() and kill() are answered by a scripted kernel. Each call consumes the
    next reply of its script; the last reply of a script is the kernel's answer to
    every further call, and it is never EINTR. This is how the model says that a
    call is interrupted only finitely often, which is what lets the retry loops of
    the handle terminate.
 */
module Os {

  /** errno values. The handle tests only for EINTR and produces only EINVAL;
      every other value is carried through to the caller unchanged. */
  datatype Errno = EINTR | EINVAL | ECHILD | ESRCH | EPERM | OtherErrno(code: int)

  /** SIGTERM, numbered as in the XSI option of POSIX.1-2017 (the kill utility). */
  const SIGTERM: int := 15

  /** The status byte that WEXITSTATUS extracts. */
  type ExitStatus = c: int | 0 <= c < 256

  /** A raw wait status as the POSIX macros classify it. */
  datatype WaitStatus =
    | Exited(status: ExitStatus)   // WIFEXITED holds; WEXITSTATUS gives `status`
    | Signaled(signal: int)        // WIFSIGNALED holds
    | Other                        // neither (a stopped or continued child)

  /** The status word 0 a new handle starts with. On the encodings used by
      Linux and the BSDs it reads as a normal exit with status 0. */
  const ZeroStatus: WaitStatus := Exited(0)

  /** The outcome of one system call: -1 with errno set, or a return value. */
  datatype Syscall<+T> = Failed(errno: Errno) | Returned(value: T) {
    predicate Interrupted() {
      Failed? && errno == EINTR
    }
  }

  /** What a waitpid() that did not fail returned: 0, which only WNOHANG
      allows, or the child's pid with the status stored through `stat_loc`. */
  datatype WaitValue = NoChange | Reaped(status: WaitStatus)

  /** A waitpid() or kill() call the handle issued, as the kernel saw it. */
  datatype Call =
    | WaitCall(pid: int, nohang: bool)
    | KillCall(pid: int, sig: int)

  /** A script of replies is usable when it is non-empty and its last,
      sticky reply is not EINTR. */
  predicate Settles<T>(s: seq<Syscall<T>>) {
    |s| > 0 && !s[|s| - 1].Interrupted()
  }

  /** The number of EINTR replies at the head of a script. */
  function LeadingInterrupts<T>(s: seq<Syscall<T>>): (n: nat)
    requires Settles(s)
    ensures n < |s| && !s[n].Interrupted()
    ensures forall i :: 0 <= i < n ==> s[i].Interrupted()
  {
    if s[0].Interrupted() then 1 + LeadingInterrupts(s[1..]) else 0
  }

  /** The script after one call: the head is consumed unless it is the last reply. */
  function Next<T>(s: seq<Syscall<T>>): (r: seq<Syscall<T>>)
    requires Settles(s)
    ensures Settles(r)
    ensures |s| > 1 ==> r == s[1..]
    ensures |s| == 1 ==> r == s
  {
    if |s| == 1 then s else s[1..]
  }

  /** The script after `k` calls, closed form: the first `k` replies are gone,
      except that the last reply always stays. */
  function Rest<T>(s: seq<T>, k: nat): seq<T>
    requires 0 < k <= |s|
  {
    if k < |s| then s[k..] else s[|s| - 1..]
  }

  /** `n` copies of `x`. */
  function Repeat<T>(x: T, n: nat): (r: seq<T>)
    ensures |r| == n
    ensures forall i :: 0 <= i < n ==> r[i] == x
  {
    if n == 0 then [] else [x] + Repeat(x, n - 1)
  }

  /** The kernel as a value: the replies still to come and the calls issued
      so far, in the order they were issued. */
  datatype Env = Env(
    waitReplies: seq<Syscall<WaitValue>>,
    killReplies: seq<Syscall<()>>,
    log: seq<Call>)

  predicate EnvOk(e: Env) {
    Settles(e.waitReplies) && Settles(e.killReplies)
  }

  /** The reply a call received and the kernel afterwards. */
  datatype Settled<+T> = Settled(reply: Syscall<T>, e: Env)

  /** One waitpid(pid, &status, nohang ? WNOHANG : 0) call. */
  function CallWaitpid(e: Env, pid: int, nohang: bool): (r: Settled<WaitValue>)
    requires EnvOk(e)
    ensures EnvOk(r.e)
  {
    Settled(e.waitReplies[0], e.(waitReplies := Next(e.waitReplies), log := e.log + [WaitCall(pid, nohang)]))
  }

  /** One kill(pid, sig) call. */
  function CallKill(e: Env, pid: int, sig: int): (r: Settled<()>)
    requires EnvOk(e)
    ensures EnvOk(r.e)
  {
    Settled(e.killReplies[0], e.(killReplies := Next(e.killReplies), log := e.log + [KillCall(pid, sig)]))
  }

  /** `do waitpid(...) while (err < 0 && errno == EINTR)`: the reply that ends the
      loop is the first one that is not EINTR, and exactly the replies up to it
      were consumed, each by a call with the same arguments. kill() is untouched. */
  function WaitpidRetrying(e: Env, pid: int, nohang: bool): (r: Settled<WaitValue>)
    requires EnvOk(e)
    decreases |e.waitReplies|
    ensures EnvOk(r.e) && !r.reply.Interrupted()
    ensures var n := LeadingInterrupts(e.waitReplies);
      && r.reply == e.waitReplies[n]
      && r.e.waitReplies == Rest(e.waitReplies, n + 1)
      && r.e.log == e.log + Repeat(WaitCall(pid, nohang), n + 1)
    ensures r.e.killReplies == e.killReplies
  {
    var s := CallWaitpid(e, pid, nohang);
    if s.reply.Interrupted() then
      InterruptedStep(e.waitReplies);
      AppendRepeat(e.log, WaitCall(pid, nohang), LeadingInterrupts(s.e.waitReplies) + 1);
      assert s.e.waitReplies == e.waitReplies[1..];
      assert s.e.log == e.log + [WaitCall(pid, nohang)];
      WaitpidRetrying(s.e, pid, nohang)
    else
      s
  }

  /** `do kill(...) while (err < 0 && errno == EINTR)`, as WaitpidRetrying. */
  function KillRetrying(e: Env, pid: int, sig: int): (r: Settled<()>)
    requires EnvOk(e)
    decreases |e.killReplies|
    ensures EnvOk(r.e) && !r.reply.Interrupted()
    ensures var n := LeadingInterrupts(e.killReplies);
      && r.reply == e.killReplies[n]
      && r.e.killReplies == Rest(e.killReplies, n + 1)
      && r.e.log == e.log + Repeat(KillCall(pid, sig), n + 1)
    ensures r.e.waitReplies == e.waitReplies
  {
    var s := CallKill(e, pid, sig);
    if s.reply.Interrupted() then
      InterruptedStep(e.killReplies);
      AppendRepeat(e.log, KillCall(pid, sig), LeadingInterrupts(s.e.killReplies) + 1);
      assert s.e.killReplies == e.killReplies[1..];
      assert s.e.log == e.log + [KillCall(pid, sig)];
      KillRetrying(s.e, pid, sig)
    else
      s
  }

  /** Consuming an EINTR reply leaves one interrupt fewer and the same closed-form rest. */
  lemma InterruptedStep<T>(s: seq<Syscall<T>>)
    requires Settles(s) && s[0].Interrupted()
    ensures |s| > 1 && Next(s) == s[1..]
    ensures LeadingInterrupts(s) == LeadingInterrupts(s[1..]) + 1
    ensures Rest(s[1..], LeadingInterrupts(s[1..]) + 1) == Rest(s, LeadingInterrupts(s) + 1)
  {
    var t := s[1..];
    assert t[|t| - 1] == s[|s| - 1];
    var n := LeadingInterrupts(t);
    if n + 1 < |t| {
      assert t[n + 1..] == s[n + 2..];
    } else {
      assert t[|t| - 1..] == s[|s| - 1..];
    }
  }

  lemma AppendRepeat<T>(a: seq<T>, x: T, n: nat)
    ensures a + [x] + Repeat(x, n) == a + Repeat(x, n + 1)
  {
    assert Repeat(x, n + 1) == [x] + Repeat(x, n);
  }

  /** The kernel as the handle sees it: a stateful object answering calls. */
  class Kernel {
    var waitReplies: seq<Syscall<WaitValue>>
    var killReplies: seq<Syscall<()>>
    var log: seq<Call>

    function State(): Env
      reads this
    {
      Env(waitReplies, killReplies, log)
    }

    predicate Valid()
      reads this
    {
      EnvOk(State())
    }

    constructor (waits: seq<Syscall<WaitValue>>, kills: seq<Syscall<()>>)
      requires Settles(waits) && Settles(kills)
      ensures Valid() && State() == Env(waits, kills, [])
    {
      waitReplies, killReplies := waits, kills;
      log := [];
    }

    method Waitpid(pid: int, nohang: bool) returns (o: Syscall<WaitValue>)
      requires Valid()
      modifies this
      ensures Valid()
      ensures Settled(o, State()) == CallWaitpid(old(State()), pid, nohang)
    {
      o := waitReplies[0];
      waitReplies := Next(waitReplies);
      log := log + [WaitCall(pid, nohang)];
    }

    method Kill(pid: int, sig: int) returns (o: Syscall<()>)
      requires Valid()
      modifies this
      ensures Valid()
      ensures Settled(o, State()) == CallKill(old(State()), pid, sig)
    {
      o := killReplies[0];
      killReplies := Next(killReplies);
      log := log + [KillCall(pid, sig)];
    }
  }
}
