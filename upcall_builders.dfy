/** The three upcall builders of rts/Upcalls.c. Each turns a blocked thread's
    saved closure into an upcall; none touches a queue (callers enqueue with
    AddUpcall). */
module UpcallBuilders {
  import opened Closures
  import opened Threads

  /** The switch upcall's fixed integer argument (rts_mkInt (cap, 4)). Its
      meaning belongs to the cooperating Haskell scheduler and is kept opaque. */
  const SwitchPolicyArg: int := 4

  /** What an upcall, once run, asks the lightweight scheduler to do: read off
      the shape of the closure term. */
  datatype UpcallKind =
    | ResumeUpcall(saved: Closure)
    | SwitchUpcall(saved: Closure, policy: int)
    | OtherUpcall

  function Classify(u: Upcall): UpcallKind
  {
    if u.App? && u.fun == ResumeThreadClosure then ResumeUpcall(u.arg)
    else if u.App? && u.fun.App? && u.fun.fun == SwitchToNextThreadClosure && u.arg.IntLit?
    then SwitchUpcall(u.fun.arg, u.arg.n)
    else OtherUpcall
  }

  /** An upcall that resumes t from where it blocked. */
  function GetResumeThreadUpcall(t: Tso): (p: Upcall)
    requires !t.isUpcallThread
    requires t.resumeThread != DefaultUpcallClosure
    ensures Classify(p) == ResumeUpcall(t.resumeThread)
  {
    RtsApply(ResumeThreadClosure, t.resumeThread)
  }

  /** An upcall that hands the capability to the next runnable lightweight thread. */
  function GetSwitchToNextThreadUpcall(t: Tso): (p: Upcall)
    requires !t.isUpcallThread
    requires t.switchToNext != DefaultUpcallClosure
    ensures Classify(p) == SwitchUpcall(t.switchToNext, SwitchPolicyArg)
  {
    var p := RtsApply(SwitchToNextThreadClosure, t.switchToNext);
    RtsApply(p, RtsMkInt(SwitchPolicyArg))
  }

  /** The thread's saved finalizer, run as it is, with no application around it. */
  function GetFinalizerUpcall(t: Tso): (p: Upcall)
    requires !t.isUpcallThread
    ensures p == t.finalizer
  {
    t.finalizer
  }

}
