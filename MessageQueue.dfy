/*
 * A thread-safe FIFO of string messages for passing work between threads,
 * modelled sequentially. The two mutexes become two boolean flags that say
 * whether the lock is currently held; a lock that is held when an operation
 * wants it stands for a lock owned by some other thread.
 */
module ToolKit {

  /** `None` stands for the `null` that the timed pull returns when it times out; messages are non-null. */
  datatype Option<T> = None | Some(value: T)

  class MessageQueue {
    var msgs: seq<string>   // the message list; index 0 is the head
    var pushHeld: bool      // the push-side mutex is held
    var pullHeld: bool      // the pull-side mutex is held

    /** Between calls the push-side mutex is free: PushMsg releases it on its only exit path. */
    ghost predicate Valid()
      reads this
    {
      !pushHeld
    }

    /** A new queue is empty and neither mutex is held. */
    constructor ()
      ensures Valid()
      ensures msgs == [] && !pushHeld && !pullHeld
    {
      msgs := [];
      pushHeld := false;
      pullHeld := false;
    }

    /** Appends `msg` at the tail under the push-side mutex. */
    method PushMsg(msg: string)
      requires Valid()
      modifies this
      ensures Valid()
      ensures msgs == old(msgs) + [msg]
      ensures |msgs| == |old(msgs)| + 1 && msgs[..|old(msgs)|] == old(msgs)
      ensures pullHeld == old(pullHeld)
    {
      pushHeld := true;
      msgs := msgs + [msg];
      pushHeld := false;
    }

    /**
     * Blocking pull: takes the pull-side mutex, removes the head and
     * releases the mutex. On an empty queue, or with the mutex held
     * elsewhere, the call would wait forever; the precondition excludes that.
     */
    method WaitAndPullTop() returns (tosend: string)
      requires Valid()
      requires msgs != [] && !pullHeld
      modifies this
      ensures Valid()
      ensures tosend == old(msgs)[0] && msgs == old(msgs)[1..]
      ensures !pullHeld
    {
      pullHeld := true;
      tosend := msgs[0];
      msgs := msgs[1..];
      pullHeld := false;
    }

    /**
     * The polling phase of the timed pull: up to `ms / 250` rounds, one per
     * 250 ms sleep, stopping as soon as a message is present. Nothing pushes
     * during a sequential run, so the loop only counts.
     */
    method PollForMessage(ms: int) returns (ghost polls: nat)
      requires ms >= 0
      ensures polls <= ms / 250
      ensures polls == if msgs == [] then ms / 250 else 0
    {
      var rounds := ms / 250;
      var i := 0;
      while msgs == [] && i < rounds
        invariant 0 <= i <= rounds
        invariant msgs != [] ==> i == 0
      {
        i := i + 1;
      }
      polls := i;
    }

    /**
     * Timed pull. When the pull-side mutex cannot be taken it returns `None`
     * and changes nothing. Otherwise it polls; on a queue that stays empty it
     * returns `None` WITHOUT releasing the mutex, as the source does. On a
     * non-empty queue it removes the head and releases the mutex.
     */
    method WaitAndPullTopTimed(ms: int) returns (r: Option<string>, ghost polls: nat)
      requires Valid() && ms >= 0
      modifies this
      ensures Valid()
      ensures old(pullHeld) ==> r == None && msgs == old(msgs) && pullHeld && polls == 0
      ensures !old(pullHeld) && old(msgs) == [] ==>
                r == None && msgs == [] && pullHeld && polls == ms / 250
      ensures !old(pullHeld) && old(msgs) != [] ==>
                r == Some(old(msgs)[0]) && msgs == old(msgs)[1..] && !pullHeld && polls == 0
      ensures polls <= ms / 250
    {
      if pullHeld {
        return None, 0;
      }
      pullHeld := true;
      polls := PollForMessage(ms);
      if msgs == [] {
        return None, polls;
      }
      var tosend := msgs[0];
      msgs := msgs[1..];
      pullHeld := false;
      r := Some(tosend);
    }

    /**
     * The body of the background pull: the same dequeue as the blocking
     * pull, after which the removed message is handed to the caller's
     * callback. The callback itself is foreign code; the result here is the
     * argument it receives.
     */
    method WaitAndCallBack() returns (handedToCallBack: string)
      requires Valid()
      requires msgs != [] && !pullHeld
      modifies this
      ensures Valid()
      ensures handedToCallBack == old(msgs)[0] && msgs == old(msgs)[1..]
      ensures !pullHeld
    {
      pullHeld := true;
      var tosend := msgs[0];
      msgs := msgs[1..];
      pullHeld := false;
      handedToCallBack := tosend;
    }

    /**
     * Starts a thread that runs WaitAndCallBack. Run to completion, the
     * thread performs exactly that dequeue and hands the head to the callback.
     */
    method WaitInBackgroundAndCallBack() returns (handedToCallBack: string)
      requires Valid()
      requires msgs != [] && !pullHeld
      modifies this
      ensures Valid()
      ensures handedToCallBack == old(msgs)[0] && msgs == old(msgs)[1..]
      ensures !pullHeld
    {
      handedToCallBack := WaitAndCallBack();
    }
  }
}
