/** The upcall thread manager as functions on an abstract capability state:
    the queued upcalls (oldest first), the dual-purpose upcall_thread slot, and
    the thread records. The Capability class is proved to follow these. */
module UpcallSpec {
  import opened Options
  import opened Closures
  import opened Threads

  datatype CapState = CapState(queue: seq<Upcall>, slot: Option<Tid>, threads: map<Tid, Tso>)

  /** t is END_TSO_QUEUE or names a thread record. */
  predicate Known(s: CapState, t: Option<Tid>)
  {
    t.None? || t.value in s.threads
  }

  predicate WellFormed(s: CapState)
  {
    Known(s, s.slot)
  }

  /** isUpcallThread, with END_TSO_QUEUE counted as "not an upcall thread". */
  predicate IsUpcall(s: CapState, t: Option<Tid>)
    requires Known(s, t)
  {
    t.Some? && s.threads[t.value].isUpcallThread
  }

  /** The thread-identity invariant relative to the thread now active on the
      capability: the slot holds nothing or an (idle) upcall thread, except
      while the upcall thread is active, when it holds the saved original. */
  predicate SlotConsistent(s: CapState, active: Option<Tid>)
    requires WellFormed(s) && Known(s, active)
  {
    IsUpcall(s, active) || s.slot.None? || IsUpcall(s, s.slot)
  }

  /** Work for the upcall machinery: a queued upcall, or a saved original thread. */
  predicate Pending(s: CapState)
    requires WellFormed(s)
  {
    |s.queue| > 0 || (s.slot.Some? && !IsUpcall(s, s.slot))
  }

  /** Prepare creates the upcall thread: the current thread is not the upcall
      thread and the slot is empty. */
  predicate NeedsInit(s: CapState, current: Option<Tid>)
    requires Known(s, current)
  {
    !IsUpcall(s, current) && s.slot.None?
  }

  /** Prepare will proceed with an existing upcall thread that has not completed. */
  predicate ResumesRunning(s: CapState, current: Option<Tid>)
    requires WellFormed(s) && Known(s, current)
  {
    if IsUpcall(s, current) then s.threads[current.value].whatNext != ThreadComplete
    else s.slot.Some? && s.threads[s.slot.value].whatNext != ThreadComplete
  }

  /** What prepare demands: a known current thread, the identity invariant, and a
      queued upcall whenever the upcall thread must be primed with one. */
  predicate PrepareEnabled(s: CapState, current: Option<Tid>)
  {
    WellFormed(s) && Known(s, current) && SlotConsistent(s, current)
    && (|s.queue| > 0 || ResumesRunning(s, current))
  }

  /** newTid and init describe the thread initUpcallThreadOnCapability creates:
      a handle not yet in use and a record flagged as the upcall thread. */
  predicate NewUpcallThread(s: CapState, newTid: Tid, init: Tso)
  {
    newTid !in s.threads && init.isUpcallThread
  }

  /** The swap-in step of prepareUpcallThread: find the upcall thread, creating
      it when the slot is empty, and save the current thread in the slot. */
  function SwapIn(s: CapState, current: Option<Tid>, newTid: Tid, init: Tso): (r: (Tid, CapState))
    requires PrepareEnabled(s, current) && NewUpcallThread(s, newTid, init)
    ensures WellFormed(r.1) && r.0 in r.1.threads && r.1.threads[r.0].isUpcallThread
    ensures r.1.queue == s.queue
    ensures |r.1.queue| > 0 || r.1.threads[r.0].whatNext != ThreadComplete
  {
    if IsUpcall(s, current) then (current.value, s)
    else if s.slot.None? then (newTid, s.(slot := current, threads := s.threads[newTid := init]))
    else (s.slot.value, s.(slot := current))
  }

  /** The upcall thread's record once primed with uc: runnable, unlinked, not
      blocked, uc in its finalizer field, and a dirty stack holding exactly a
      stop frame and a call of uc. */
  function Prime(t: Tso, uc: Upcall): Tso
  {
    t.(link := None, whatNext := ThreadRunGHC, whyBlocked := NotBlocked, finalizer := uc,
       stack := Stack(true, [StopFrame, CallFrame(uc)]))
  }

  /** The dispatch step: a running upcall thread is left alone; a completed one
      is primed with an upcall popped from the owner's end of the queue. */
  function Dispatch(s: CapState, u: Tid): (r: CapState)
    requires u in s.threads
    requires |s.queue| > 0 || s.threads[u].whatNext != ThreadComplete
    ensures r.slot == s.slot && r.threads.Keys == s.threads.Keys
    ensures forall t :: t in s.threads && t != u ==> r.threads[t] == s.threads[t]
    ensures s.threads[u].whatNext != ThreadComplete <==> r == s
    ensures s.threads[u].whatNext == ThreadComplete ==>
              |r.queue| == |s.queue| - 1 && r.queue == s.queue[..|s.queue| - 1]
              && r.threads[u].isUpcallThread == s.threads[u].isUpcallThread
              && r.threads[u].whatNext == ThreadRunGHC
              && r.threads[u].finalizer == s.queue[|s.queue| - 1]
  {
    if s.threads[u].whatNext != ThreadComplete then s
    else
      var n := |s.queue|;
      s.(queue := s.queue[..n - 1], threads := s.threads[u := Prime(s.threads[u], s.queue[n - 1])])
  }

  /** prepareUpcallThread: returns the upcall thread, and leaves the current
      thread saved in the slot when it was not the upcall thread itself. */
  function Prepare(s: CapState, current: Option<Tid>, newTid: Tid, init: Tso): (r: (Tid, CapState))
    requires PrepareEnabled(s, current) && NewUpcallThread(s, newTid, init)
    ensures WellFormed(r.1) && r.0 in r.1.threads && r.1.threads[r.0].isUpcallThread
    ensures !IsUpcall(s, current) ==> !IsUpcall(r.1, r.1.slot)
    ensures r.1.slot == (if IsUpcall(s, current) then s.slot else current)
    ensures !IsUpcall(s, current) ==> Some(r.0) != current
    ensures NeedsInit(s, current) <==> r.0 !in s.threads
    ensures NeedsInit(s, current) ==> r.0 == newTid && r.1.threads.Keys == s.threads.Keys + {newTid}
    ensures !NeedsInit(s, current) ==> r.1.threads.Keys == s.threads.Keys
    ensures forall t :: t in s.threads ==> r.1.threads[t].isUpcallThread == s.threads[t].isUpcallThread
    ensures multiset{Some(r.0), r.1.slot}
            == multiset{current, if NeedsInit(s, current) then Some(newTid) else s.slot}
  {
    var (u, s1) := SwapIn(s, current, newTid, init);
    (u, Dispatch(s1, u))
  }

  /** The upcall thread has run to completion. */
  predicate Finished(s: CapState, t: Tid)
    requires t in s.threads
  {
    s.threads[t].isUpcallThread && s.threads[t].whatNext == ThreadComplete
  }

  /** restoreCurrentThreadIfNecessary. */
  function Restore(s: CapState, current: Tid): (r: (Option<Tid>, CapState))
    requires WellFormed(s) && current in s.threads
    ensures WellFormed(r.1) && Known(r.1, r.0)
    ensures r.1.queue == s.queue && r.1.threads == s.threads
    ensures Finished(s, current) ==> r.0 == s.slot && r.1.slot == Some(current)
    ensures !Finished(s, current) ==> r.0 == Some(current) && r.1.slot == s.slot
    ensures multiset{r.0, r.1.slot} == multiset{Some(current), s.slot}
    ensures SlotConsistent(s, Some(current)) ==> SlotConsistent(r.1, r.0)
    ensures Finished(s, current) ==> forall t :: Known(r.1, t) ==> SlotConsistent(r.1, t)
  {
    if Finished(s, current) then (s.slot, s.(slot := Some(current)))
    else (Some(current), s)
  }

  /** Re-entering a running upcall thread changes nothing: no upcall is popped. */
  lemma PrepareReentersRunningUpcall(s: CapState, u: Tid, newTid: Tid, init: Tso)
    requires PrepareEnabled(s, Some(u)) && NewUpcallThread(s, newTid, init)
    requires IsUpcall(s, Some(u)) && s.threads[u].whatNext != ThreadComplete
    ensures Prepare(s, Some(u), newTid, init) == (u, s)
  {
  }

  /** Switching to an upcall thread that blocked partway saves the current
      thread and resumes it as it is: no upcall is popped, no record changes. */
  lemma PrepareResumesBlockedUpcall(s: CapState, current: Option<Tid>, newTid: Tid, init: Tso)
    requires PrepareEnabled(s, current) && NewUpcallThread(s, newTid, init)
    requires !IsUpcall(s, current) && s.slot.Some?
    requires s.threads[s.slot.value].whatNext != ThreadComplete
    ensures Prepare(s, current, newTid, init) == (s.slot.value, s.(slot := current))
  {
  }

  /** A completed upcall thread is primed with the upcall at the owner's end of
      the queue; that one upcall is removed and every other record is kept. */
  lemma PreparePrimesCompletedThread(s: CapState, current: Option<Tid>, newTid: Tid, init: Tso)
    requires PrepareEnabled(s, current) && NewUpcallThread(s, newTid, init)
    requires var (u, s1) := SwapIn(s, current, newTid, init); s1.threads[u].whatNext == ThreadComplete
    ensures var (u, s1) := SwapIn(s, current, newTid, init);
            var (r, s2) := Prepare(s, current, newTid, init);
            var n := |s.queue|;
            n > 0 && r == u && s2.slot == s1.slot && s2.queue == s.queue[..n - 1]
            && s2.threads.Keys == s1.threads.Keys
            && (forall t :: t in s1.threads && t != u ==> s2.threads[t] == s1.threads[t])
            && s2.threads[u].isUpcallThread
            && s2.threads[u].link == None
            && s2.threads[u].whatNext == ThreadRunGHC
            && s2.threads[u].whyBlocked == NotBlocked
            && s2.threads[u].finalizer == s.queue[n - 1]
            && s2.threads[u].stack == Stack(true, [StopFrame, CallFrame(s.queue[n - 1])])
            && s2.threads[u].resumeThread == s1.threads[u].resumeThread
            && s2.threads[u].switchToNext == s1.threads[u].switchToNext
  {
  }

  /** Between prepare and restore the upcall thread ran to completion; nothing
      touched the slot, and no thread changed its upcall flag. */
  predicate RanToCompletion(s1: CapState, u: Tid, s2: CapState)
  {
    WellFormed(s2) && s2.slot == s1.slot && u in s2.threads && Finished(s2, u)
    && (forall t :: t in s1.threads ==> t in s2.threads && s2.threads[t].isUpcallThread == s1.threads[t].isUpcallThread)
  }

  /** One episode: prepare swaps the upcall thread in for the current thread,
      the upcall runs to completion, and restore hands back exactly the
      original thread and parks the upcall thread in the slot. The original is
      reported pending until restore runs. */
  lemma EpisodeRoundTrip(s: CapState, current: Option<Tid>, newTid: Tid, init: Tso, s2: CapState)
    requires PrepareEnabled(s, current) && NewUpcallThread(s, newTid, init) && !IsUpcall(s, current)
    requires RanToCompletion(Prepare(s, current, newTid, init).1, Prepare(s, current, newTid, init).0, s2)
    ensures var (u, s1) := Prepare(s, current, newTid, init);
            var (back, s3) := Restore(s2, u);
            Some(u) != current
            && (current.Some? ==> Pending(s2))
            && back == current && s3.slot == Some(u) && IsUpcall(s3, s3.slot)
            && SlotConsistent(s3, back)
            && (Pending(s3) <==> |s3.queue| > 0)
  {
  }

  /** The first episode from a capability with no upcall thread and one queued
      upcall: prepare creates the upcall thread, primes it with that upcall and
      empties the queue; after completion restore returns the original thread,
      and nothing is pending. */
  lemma FirstEpisode(s: CapState, t: Tid, uc: Upcall, newTid: Tid, init: Tso, s2: CapState)
    requires WellFormed(s) && s.queue == [uc] && s.slot == None
    requires t in s.threads && !s.threads[t].isUpcallThread
    requires NewUpcallThread(s, newTid, init) && init.whatNext == ThreadComplete
    requires RanToCompletion(Prepare(s, Some(t), newTid, init).1, Prepare(s, Some(t), newTid, init).0, s2)
    requires s2.queue == []
    ensures var (u, s1) := Prepare(s, Some(t), newTid, init);
            var (back, s3) := Restore(s2, u);
            u == newTid && u != t && s1.queue == [] && s1.slot == Some(t)
            && s1.threads[u].finalizer == uc
            && s1.threads[u].stack.frames == [StopFrame, CallFrame(uc)]
            && back == Some(t) && s3.slot == Some(u) && !Pending(s3)
  {
    EpisodeRoundTrip(s, Some(t), newTid, init, s2);
  }

  /** Idle reuse: after an episode, the next prepare from an ordinary thread
      takes the parked upcall thread from the slot instead of creating one. */
  lemma SecondEpisodeReusesUpcallThread(
    s: CapState, current: Option<Tid>, newTid: Tid, init: Tso, s2: CapState,
    current2: Option<Tid>, newTid2: Tid, init2: Tso)
    requires PrepareEnabled(s, current) && NewUpcallThread(s, newTid, init) && !IsUpcall(s, current)
    requires RanToCompletion(Prepare(s, current, newTid, init).1, Prepare(s, current, newTid, init).0, s2)
    requires var s3 := Restore(s2, Prepare(s, current, newTid, init).0).1;
             PrepareEnabled(s3, current2) && NewUpcallThread(s3, newTid2, init2) && !IsUpcall(s3, current2)
    ensures var u := Prepare(s, current, newTid, init).0;
            var s3 := Restore(s2, u).1;
            !NeedsInit(s3, current2)
            && Prepare(s3, current2, newTid2, init2).0 == u
            && Prepare(s3, current2, newTid2, init2).1.threads.Keys == s3.threads.Keys
  {
    EpisodeRoundTrip(s, current, newTid, init, s2);
  }
}
