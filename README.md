# MessageQueue — a sequential model in Dafny

`MessageQueue` (namespace `VRSAD.ToolKit`) is a thread-safe FIFO of string
messages meant for passing messages between threads. It keeps one
`List<string>`, appends with `PushMsg` under a push-side mutex, and removes
the head under a pull-side mutex in three ways: the blocking
`WaitAndPullTop()`, the timed `WaitAndPullTop(int ms)`, and `WaitAndCallBack`,
which hands the removed message to a caller's callback and is what
`WaitInBackgroundAndCallBack` runs on a new thread.

This project models the class one call at a time, each call running to
completion before the next begins:

- `MessageQueue.dfy`, module `ToolKit`: class `MessageQueue` with the message
  list as `msgs: seq<string>` (head at index 0) and the two mutexes as flags
  `pushHeld` and `pullHeld`. A flag that is already set when an operation
  wants the mutex stands for a mutex owned by another thread, so calls made
  after the pull-side mutex was left held are taken to come from threads
  other than the one holding it. Every method
  states its whole new state in terms of the old one. The timed pull keeps
  its polling loop (`PollForMessage`, up to `ms / 250` rounds), and its `null`
  result is `Option.None`.
- `QueueProperties.dfy`, module `QueueProperties`: what a caller can prove
  from those contracts alone. It covers FIFO delivery, exactly-once delivery
  over any sequential run of pushes and blocking, timed and background
  pulls, and what follows from the timed pull's lock leak. The predicate
  `Completes` replays a run on (queue size, pull-mutex flag) only, one call
  at a time. `Returns` says when a call can return, and `After` gives the
  state it leaves. Together they mirror the preconditions and postconditions
  of `PushMsg`, `WaitAndPullTop`, `WaitAndPullTopTimed` and
  `WaitInBackgroundAndCallBack`. `Issue`'s contract proves that one real call
  moves the class's state exactly as `After` says.

The timed pull, as written, returns `null` on a queue that is still empty
after polling WITHOUT releasing the pull-side mutex (MessageQueue.cs:93-94).
The model keeps this behaviour. `WaitAndPullTopTimed` ends with `pullHeld`
set on that path. `LeakPersists`, `LeakedLockBlocksPull` and
`LeakStrandsMessages` show the consequence for every other thread: no later
blocking or background pull can return, and later timed pulls return `None`
even when messages are queued. The thread that left the mutex held is not
affected: .NET's `Mutex` is re-entrant, so its own next `WaitOne` succeeds.

## Model

| member | source | states |
|---|---|---|
| ToolKit.MessageQueue.constructor | MessageQueue.cs:36-42 | A new queue is empty and neither mutex is held. |
| ToolKit.MessageQueue.PushMsg | MessageQueue.cs:157-164 | The message is appended at the tail: the length grows by one, earlier messages are unchanged, the push mutex is released on exit and the pull mutex is untouched. |
| ToolKit.MessageQueue.WaitAndPullTop | MessageQueue.cs:53-66 | On a non-empty queue with a free pull mutex, returns the old head, leaves exactly the old tail, and releases the pull mutex. |
| ToolKit.MessageQueue.PollForMessage | MessageQueue.cs:85-91 | The polling loop runs at most `ms / 250` rounds: exactly `ms / 250` on an empty queue, none on a non-empty one. |
| ToolKit.MessageQueue.WaitAndPullTopTimed | MessageQueue.cs:79-103 | If the pull mutex cannot be taken, returns `None` and changes nothing. On an empty queue, returns `None` after `ms / 250` polls, leaves the queue empty and leaves the pull mutex held. Otherwise returns the head, removes exactly it, and releases the mutex. |
| ToolKit.MessageQueue.WaitAndCallBack | MessageQueue.cs:132-147 | Removes the head exactly once, releases the pull mutex, and hands that same removed message to the callback. |
| ToolKit.MessageQueue.WaitInBackgroundAndCallBack | MessageQueue.cs:116-120 | The background thread performs the same dequeue as WaitAndCallBack and hands the head to the callback. |
| QueueProperties.Pushed | MessageQueue.cs:161 | The messages a run of operations appends, in push order: at most one per operation, and none for a run with no pushes. |
| QueueProperties.PushedSnoc | MessageQueue.cs:157-164 | One more operation at the end of a run adds its pushed message, if any, after all earlier ones. |
| QueueProperties.BlockingPulls | MessageQueue.cs:53-66 | The number of blocking and background pulls in a run, each of which removes one message when it returns: at most one per operation, and none for a run without them. |
| QueueProperties.BlockingPullsSnoc | MessageQueue.cs:132-147 | One more operation at the end of a run adds one to that count exactly when it is a blocking or background pull. |
| QueueProperties.LeakedLockBlocksPull | MessageQueue.cs:93-94 | Once the timed pull has left the pull mutex held, any later blocking or background pull from another thread waits forever, however many messages are pushed. |
| QueueProperties.LeakPersists | MessageQueue.cs:82-94 | On any queue whose pull mutex is held elsewhere, pushes and timed pulls keep it held, there is one result per timed pull and every one is `None`, and the queue becomes the old queue followed by every pushed message. |
| QueueProperties.Issue | MessageQueue.cs:53-164 | One call of any kind on a queue where it can return moves (queue size, pull-mutex flag) exactly as `After` gives it. The messages it hands out, followed by the new queue, equal the old queue followed by the pushed message, if any. A blocking or background pull hands out exactly one message. |
| QueueProperties.FifoDelivery | MessageQueue.cs:53-66 | Pushing p1..pn onto a new queue and then pulling n times returns p1..pn in that order and leaves the queue empty. |
| QueueProperties.Run | MessageQueue.cs:53-164 | In any run of pushes and blocking, timed and background pulls whose blocking pulls all return, the delivered messages followed by the ones still queued are exactly the pushed messages in push order: none duplicated or reordered, and none lost, including across timed pulls that return `None`. Every blocking and background pull delivers a message, so at least that many are delivered. |
| QueueProperties.LeakStrandsMessages | MessageQueue.cs:82-94 | A timed pull on an empty new queue returns `None`. Afterwards, under any pushes and timed pulls from other threads, there is one result per timed pull, every one is `None`, and every pushed message stays queued in push order. |
| QueueProperties.TimedThenBlocking | MessageQueue.cs:85-102 | A timed pull on a non-empty queue returns the head with no polling round and releases the mutex, so a following blocking pull returns the next message. |

## Left out

- Threads and mutual exclusion: `Mutex` ownership, recursive acquisition by the owning thread, abandoned mutexes, interleavings of concurrent pushes and pulls, and the race from changing one `List` under two different mutexes. The mutexes are only flags. A flag already set means "owned by another thread".
- Timing: `SpinWait.SpinOnce`, `Thread.Sleep(250)` and the `WaitOne(ms)` timeout. A sleep is one polling round, and failing to take the mutex within `ms` is the flag being set.
- The spin loops of the blocking pulls (MessageQueue.cs:57-58, 136-137). Without another thread they never end on an empty queue. ToolKit.MessageQueue.WaitAndPullTop and ToolKit.MessageQueue.WaitAndCallBack therefore require a non-empty queue, where the spin runs zero rounds. They also require a free pull mutex, since blocking on one owned elsewhere never returns either.
- Negative `ms`: `-1` means an infinite wait and other negative values throw inside `WaitOne`, so `ms >= 0` is required.
- Thread creation in `WaitInBackgroundAndCallBack` and the moment the thread runs. The model runs the thread's body to completion at the call.
- ToolKit.MessageQueue.WaitInBackgroundAndCallBack: requires a non-empty queue and a free pull mutex, although the source starts the thread and returns at once in any state. Registering a callback on an empty queue and pushing afterwards, the method's typical use, is therefore outside the model and outside `Run` (`Completes([PullCallBack, Push(m)], 0, false)` is false).
- The callback's own effects (foreign code). Only the argument it receives is recorded.
- A null or non-`Action<string>` callback. `WaitInBackgroundAndCallBack(null)` passes `null`, and a `data` argument of another type makes the `as` cast yield `null`. Line 146 then throws `NullReferenceException` on the pulling thread after line 140 has removed the message, so that message is lost. The model always hands the message to a callback.
- Null messages. `PushMsg(null)` is legal, since `List<string>.Add` accepts `null`, and a later timed pull returns that `null` at line 102 with the mutex released. A caller cannot tell it apart from the timeout `null` of lines 83 and 94. Messages here are non-null strings, so `None` stands only for the timeout `null`.
- QueueProperties.LeakedLockBlocksPull: holds only for pulls made by threads other than the one that left the pull mutex held, and only while that thread is alive. .NET's `Mutex` is re-entrant, so the leaking thread's own next `WaitOne` (lines 55, 82, 134) succeeds and it is served. Once that thread has exited, the next `WaitOne` throws `AbandonedMutexException`.
- QueueProperties.LeakPersists: the same restriction. A timed pull by the thread that holds the mutex would re-acquire it and return the head.
- QueueProperties.LeakStrandsMessages: the same restriction. On the leaking thread itself, the sequence "timed pull, push `m`, timed pull" returns `m` from the second pull and leaves the queue empty.
- QueueProperties.Run: its precondition also rejects runs in which the thread that leaked the mutex makes a later blocking pull itself, which the re-entrant mutex would let through.
