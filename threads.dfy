/** Thread records (StgTSO): only the fields the upcall core reads or writes. */
module Threads {
  import opened Options
  import opened Closures

  /** A thread handle. Identity is the handle; the record it names may change. */
  type Tid = nat

  datatype WhatNext = ThreadRunGHC | ThreadInterpret | ThreadKilled | ThreadComplete

  datatype WhyBlocked =
    | NotBlocked
    | BlockedOnMVar
    | BlockedOnBlackHole
    | BlockedOnMsgThrowTo
    | BlockedOnSTM
    | BlockedOnCCall
    | BlockedOnDelay

  /** One frame of a thread's stack, seen abstractly. */
  datatype Frame =
    | StopFrame                  // the sentinel frame that ends the thread when returned to
    | CallFrame(target: Closure) // the frames pushCallToClosure pushes to enter a closure
    | OtherFrame(info: string)   // whatever else a suspended computation left behind

  /** The thread's stack object: its dirty bit and its frames, oldest first. */
  datatype Stack = Stack(dirty: bool, frames: seq<Frame>)

  datatype Tso = Tso(
    isUpcallThread: bool,
    whatNext: WhatNext,
    whyBlocked: WhyBlocked,
    link: Option<Tid>,
    finalizer: Closure,
    resumeThread: Closure,
    switchToNext: Closure,
    stack: Stack)
}
