/** Abstract closure terms: the heap objects the runtime builds with
    rts_apply and rts_mkInt, kept as syntax rather than as memory. */
module Closures {

  datatype Closure =
    | Named(name: string)                 // a static closure such as resumeThread_closure
    | App(fun: Closure, arg: Closure)     // the application node rts_apply builds
    | IntLit(n: int)                      // a boxed Int built by rts_mkInt

  /** An upcall is a closure pointer (rts/Upcalls.h:19). */
  type Upcall = Closure

  const ResumeThreadClosure: Closure := Named("resumeThread")
  const SwitchToNextThreadClosure: Closure := Named("switchToNextThread")
  /** The placeholder a thread's saved closures hold until a blocking operation fills them. */
  const DefaultUpcallClosure: Closure := Named("defaultUpcall")

  function RtsApply(f: Closure, x: Closure): Closure
  {
    App(f, x)
  }

  function RtsMkInt(n: int): Closure
  {
    IntLit(n)
  }
}
