/** One capability's upcall state, updated in place: the upcall queue (a
    work-stealing deque over a circular buffer of 2^logSize closure slots),
    the dual-purpose upcall_thread slot, and the thread records it refers to. */
module Upcalls {
  import opened Options
  import opened Closures
  import opened Threads
  import opened RingIndex
  import UpcallSpec

  /** barf, the runtime's fatal-error exit, is an outcome rather than output. */
  datatype Outcome = Done | Fatal(message: string)

  /** allocUpcallQueue's capacity, 4096 = 2^12 slots. */
  const UpcallQueueLogSize: nat := 12

  lemma UpcallQueueCapacity()
    ensures Pow2(UpcallQueueLogSize) == 4096
  {
  }

  class Capability {
    // the upcall queue (cap->upcall_queue)
    var elements: array<Upcall>
    var top: nat
    var bottom: nat
    var moduloSize: nat
    ghost var logSize: nat
    // cap->upcall_thread: the idle upcall thread, or the saved original thread
    var upcallThread: Option<Tid>
    // the thread records the capability's threads name
    var threads: map<Tid, Tso>
    // the next handle a new thread gets
    var nextTid: Tid

    ghost predicate Valid()
      reads this
    {
      elements.Length == Pow2(logSize) && moduloSize == Pow2(logSize) - 1
      && top <= bottom <= top + elements.Length
      && (upcallThread.Some? ==> upcallThread.value in threads)
      && (forall t :: t in threads ==> t < nextTid)
    }

    /** The queued upcalls, oldest first. */
    ghost function Contents(): seq<Upcall>
      reads this, elements
      requires Valid()
    {
      Live(elements[..], logSize, top, bottom - top)
    }

    ghost function State(): UpcallSpec.CapState
      reads this, elements
      requires Valid()
    {
      UpcallSpec.CapState(Contents(), upcallThread, threads)
    }

    /** A capability whose queue (allocUpcallQueue with 2^logSize slots) and
        slot are empty; threads holds the records of the threads that exist. */
    constructor (logSize: nat, threads: map<Tid, Tso>, nextTid: Tid)
      requires forall t :: t in threads ==> t < nextTid
      ensures Valid() && fresh(elements) && this.logSize == logSize
      ensures Contents() == [] && upcallThread == None
      ensures this.threads == threads && this.nextTid == nextTid
    {
      var size := Pow2(logSize);
      elements := new Upcall[size](_ => DefaultUpcallClosure);
      top, bottom := 0, 0;
      moduloSize := size - 1;
      this.logSize := logSize;
      upcallThread := None;
      this.threads := threads;
      this.nextTid := nextTid;
    }

    /** The capability as allocUpcallQueue sets it up: newWSDeque (4096). */
    constructor Alloc(threads: map<Tid, Tso>, nextTid: Tid)
      requires forall t :: t in threads ==> t < nextTid
      ensures Valid() && fresh(elements) && logSize == UpcallQueueLogSize
      ensures elements.Length == 4096 && Contents() == [] && upcallThread == None
      ensures this.threads == threads && this.nextTid == nextTid
    {
      UpcallQueueCapacity();
      var size := Pow2(UpcallQueueLogSize);
      elements := new Upcall[size](_ => DefaultUpcallClosure);
      top, bottom := 0, 0;
      moduloSize := size - 1;
      logSize := UpcallQueueLogSize;
      upcallThread := None;
      this.threads := threads;
      this.nextTid := nextTid;
    }

    /** upcallQueueSize: the deque's element count. */
    function UpcallQueueSize(): (n: int)
      reads this, elements
      requires Valid()
      ensures n == |Contents()| && n <= elements.Length
    {
      bottom - top
    }

    /** isUpcallThread: the thread's flag, and nothing else. */
    function IsUpcallThread(t: Tid): (b: bool)
      reads this
      requires t in threads
      ensures b <==> threads[t].isUpcallThread
    {
      threads[t].isUpcallThread
    }

    /** pendingUpcalls. */
    function PendingUpcalls(): (r: bool)
      reads this, elements
      requires Valid()
      ensures r == UpcallSpec.Pending(State())
      ensures r <==> |Contents()| >= 1
                     || (|Contents()| == 0 && upcallThread.Some? && !threads[upcallThread.value].isUpcallThread)
    {
      if UpcallQueueSize() > 0 then true
      else if upcallThread.Some? && !IsUpcallThread(upcallThread.value) then true
      else false
    }

    /** addUpcall, with the push of the deque: on a full queue it is fatal and
        nothing is written; otherwise uc is appended at the owner's end. */
    method AddUpcall(uc: Upcall) returns (r: Outcome)
      requires Valid()
      modifies this`bottom, elements
      ensures Valid()
      ensures r.Fatal? <==> old(|Contents()|) == elements.Length
      ensures r.Fatal? ==> r.message == "addUpcall overflow!!" && elements[..] == old(elements[..])
                           && bottom == old(bottom)
      ensures r.Done? ==> Contents() == old(Contents()) + [uc]
    {
      var b, t := bottom, top;
      if b - t > moduloSize {
        return Fatal("addUpcall overflow!!");
      }
      var i := BitAnd(b, moduloSize);
      assert i == SlotIndex(b, logSize);
      LiveAppend(elements[..], logSize, t, b - t, uc);
      elements[i] := uc;
      bottom := b + 1;
      r := Done;
    }

    /** popUpcallQueue, modelled on the owner's end of the deque (the newest
        upcall); an empty queue yields None (NULL). */
    method PopUpcallQueue() returns (uc: Option<Upcall>)
      requires Valid()
      modifies this`bottom
      ensures Valid()
      ensures old(|Contents()|) == 0 ==> uc == None && bottom == old(bottom)
      ensures old(|Contents()|) > 0 ==>
                uc == Some(old(Contents())[old(|Contents()|) - 1])
                && Contents() == old(Contents())[..old(|Contents()|) - 1]
    {
      if bottom == top {
        return None;
      }
      LiveShrink(elements[..], logSize, top, bottom - top);
      bottom := bottom - 1;
      var i := BitAnd(bottom, moduloSize);
      assert i == SlotIndex(top + (old(bottom) - top) - 1, logSize);
      uc := Some(elements[i]);
    }

    /** initUpcallThreadOnCapability (its body is not part of this model): the
        slot receives a new thread flagged as the upcall thread. */
    method InitUpcallThreadOnCapability() returns (ghost init: Tso)
      requires Valid()
      modifies this`upcallThread, this`threads, this`nextTid
      ensures Valid()
      ensures init.isUpcallThread && old(nextTid) !in old(threads)
      ensures upcallThread == Some(old(nextTid)) && threads == old(threads)[old(nextTid) := init]
    {
      var t := nextTid;
      var rec := Tso(true, ThreadComplete, NotBlocked, None, DefaultUpcallClosure,
                     DefaultUpcallClosure, DefaultUpcallClosure, Stack(false, [StopFrame]));
      threads := threads[t := rec];
      init := rec;
      nextTid := t + 1;
      upcallThread := Some(t);
    }

    /** The priming half of prepareUpcallThread (from the pop on): the completed
        upcall thread u is given the newest queued upcall as its next work. */
    method PrimeUpcallThread(u: Tid)
      requires Valid() && u in threads && threads[u].isUpcallThread
      requires threads[u].whatNext == ThreadComplete && |Contents()| > 0
      modifies this`bottom, this`threads
      ensures Valid()
      ensures State() == UpcallSpec.Dispatch(old(State()), u)
    {
      ghost var s1 := State();
      var upcall := PopUpcallQueue();
      assert threads[u].whatNext != ThreadKilled;
      var tso := threads[u];
      tso := tso.(link := None);
      tso := tso.(whatNext := ThreadRunGHC);
      tso := tso.(whyBlocked := NotBlocked);
      tso := tso.(finalizer := upcall.value);
      var stack := tso.stack;
      stack := stack.(dirty := true);
      stack := stack.(frames := []);                                       // pop everything
      stack := stack.(frames := stack.frames + [StopFrame]);               // push the stop frame
      stack := stack.(frames := stack.frames + [CallFrame(upcall.value)]); // pushCallToClosure
      tso := tso.(stack := stack);
      threads := threads[u := tso];
      assert stack.frames == [StopFrame, CallFrame(upcall.value)];
      assert tso == UpcallSpec.Prime(s1.threads[u], upcall.value);
    }

    /** prepareUpcallThread. When it creates the upcall thread, init is the
        record it was created with. */
    method PrepareUpcallThread(current: Option<Tid>) returns (ret: Tid, ghost init: Tso)
      requires Valid() && UpcallSpec.PrepareEnabled(State(), current)
      modifies this`bottom, this`upcallThread, this`threads, this`nextTid
      ensures Valid()
      ensures init.isUpcallThread && old(nextTid) !in old(threads)
      ensures (ret, State()) == UpcallSpec.Prepare(old(State()), current, old(nextTid), init)
    {
      ghost var s0 := State();
      var u: Tid;
      if current.None? || !IsUpcallThread(current.value) {
        if upcallThread.None? {
          init := InitUpcallThreadOnCapability();
        } else {
          init := threads[upcallThread.value];
        }
        u := upcallThread.value;
        upcallThread := current;  // save the current thread
      } else {
        u := current.value;
        init := threads[u];
      }
      assert IsUpcallThread(u);
      ghost var s1 := State();
      assert (u, s1) == UpcallSpec.SwapIn(s0, current, old(nextTid), init);

      // the upcall thread is still running an earlier upcall
      if threads[u].whatNext != ThreadComplete {
        return u, init;
      }

      ret := u;
      PrimeUpcallThread(u);
    }

    /** restoreCurrentThreadIfNecessary; the result may be None (END_TSO_QUEUE). */
    method RestoreCurrentThreadIfNecessary(current: Tid) returns (ret: Option<Tid>)
      requires Valid() && current in threads
      modifies this`upcallThread
      ensures Valid()
      ensures (ret, State()) == UpcallSpec.Restore(old(State()), current)
    {
      ret := Some(current);
      if IsUpcallThread(current) && threads[current].whatNext == ThreadComplete {
        ret := upcallThread;
        upcallThread := Some(current);  // park the upcall thread
      }
    }

    /** traverseUpcallQueue: evac is called once on each live slot, in counter
        order, and may rewrite that slot's closure. visited is the sequence of
        slots it is called on. */
    method TraverseUpcallQueue(evac: Upcall -> Upcall) returns (visited: seq<nat>)
      requires Valid()
      modifies elements
      ensures Valid()
      ensures |visited| == bottom - top
      ensures forall k :: 0 <= k < |visited| ==> visited[k] == SlotIndex(top + k, logSize)
      ensures forall k, l :: 0 <= k < l < |visited| ==> visited[k] != visited[l]
      ensures forall j :: 0 <= j < elements.Length ==>
                elements[j] == (if j in visited then evac(old(elements[j])) else old(elements[j]))
      ensures Contents() == MapAll(evac, old(Contents()))
    {
      var t := top;
      visited := [];
      while t < bottom
        invariant top <= t <= bottom
        invariant |visited| == t - top
        invariant forall k :: 0 <= k < |visited| ==> visited[k] == SlotIndex(top + k, logSize)
        invariant forall j :: 0 <= j < elements.Length ==>
                    elements[j] == (if j in visited then evac(old(elements[j])) else old(elements[j]))
      {
        var i := BitAnd(t, moduloSize);
        assert i == SlotIndex(t, logSize);
        forall k | 0 <= k < |visited|
          ensures visited[k] != i
        {
          SlotsDistinct(top + k, t, logSize);
        }
        elements[i] := evac(elements[i]);
        visited := visited + [i];
        t := t + 1;
      }
      forall k, l | 0 <= k < l < |visited|
        ensures visited[k] != visited[l]
      {
        SlotsDistinct(top + k, top + l, logSize);
      }
      ghost var was := old(Contents());
      forall k | 0 <= k < |was|
        ensures Contents()[k] == MapAll(evac, was)[k]
      {
        assert visited[k] in visited;
      }
    }
  }
}
