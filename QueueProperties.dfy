/*
 * What callers can rely on, proved from the contracts of MessageQueue alone:
 * FIFO delivery, exactly-once delivery over any sequential run of pushes
 * and pulls, and the consequences of the pull-side mutex that the timed
 * pull leaves held on an empty queue.
 */
module QueueProperties {
  import opened ToolKit

  /** One call on the queue, as a caller issues it. */
  datatype Op = Push(msg: string) | Pull | PullTimed(ms: nat) | PullCallBack {
    /** A pull that waits for as long as it takes: blocking or background. */
    predicate Blocking() {
      Pull? || PullCallBack?
    }
  }

  /** The messages pushed by `ops`, in push order. */
  function Pushed(ops: seq<Op>): (r: seq<string>)
    ensures |r| <= |ops|
    ensures (forall i :: 0 <= i < |ops| ==> !ops[i].Push?) ==> r == []
  {
    if ops == [] then []
    else (if ops[0].Push? then [ops[0].msg] else []) + Pushed(ops[1..])
  }

  /** The number of blocking and background pulls in `ops`: each one removes a message when it returns. */
  function BlockingPulls(ops: seq<Op>): (n: nat)
    ensures n <= |ops|
    ensures (forall i :: 0 <= i < |ops| ==> !ops[i].Blocking()) ==> n == 0
  {
    if ops == [] then 0
    else (if ops[0].Blocking() then 1 else 0) + BlockingPulls(ops[1..])
  }

  /**
   * Every blocking pull in `ops` returns, starting from a queue of `size`
   * messages whose pull-side mutex is `held`: it finds a message and a free
   * mutex. The state is carried along as each operation's contract says.
   */
  predicate Completes(ops: seq<Op>, size: nat, held: bool)
    decreases |ops|
  {
    ops == [] ||
    (Returns(ops[0], size, held) &&
     var (size', held') := After(ops[0], size, held);
     Completes(ops[1..], size', held'))
  }

  /**
   * Whether `op` returns when issued on a queue of `size` messages whose
   * pull-side mutex is `held`: a blocking or background pull needs a message
   * and a free mutex; pushes and timed pulls always return.
   */
  predicate Returns(op: Op, size: nat, held: bool) {
    op.Blocking() ==> size > 0 && !held
  }

  /** The queue size and pull-mutex flag after `op` returns, as the class's contracts give them. */
  function After(op: Op, size: nat, held: bool): (nat, bool)
    requires Returns(op, size, held)
  {
    match op
    case Push(_) => (size + 1, held)
    case Pull => (size - 1, false)
    case PullCallBack => (size - 1, false)
    case PullTimed(_) =>
      if held then (size, true)
      else if size == 0 then (0, true)
      else (size - 1, false)
  }

  /** Appending one operation adds its message, if any, at the end. */
  lemma {:induction false} PushedSnoc(ops: seq<Op>, op: Op)
    ensures Pushed(ops + [op]) == Pushed(ops) + (if op.Push? then [op.msg] else [])
  {
    if ops == [] {
      assert ops + [op] == [op];
    } else {
      var longer := ops + [op];
      assert longer[0] == ops[0] && longer[1..] == ops[1..] + [op];
      PushedSnoc(ops[1..], op);
    }
  }

  /** Appending one operation adds one to the count exactly when it is a blocking or background pull. */
  lemma {:induction false} BlockingPullsSnoc(ops: seq<Op>, op: Op)
    ensures BlockingPulls(ops + [op]) == BlockingPulls(ops) + (if op.Blocking() then 1 else 0)
  {
    if ops == [] {
      assert ops + [op] == [op];
    } else {
      var longer := ops + [op];
      assert longer[0] == ops[0] && longer[1..] == ops[1..] + [op];
      BlockingPullsSnoc(ops[1..], op);
    }
  }

  /**
   * Once the pull-side mutex is left held, nothing in the queue's interface
   * releases it, so any later blocking or background pull waits forever,
   * however many messages are pushed. The later calls are taken to come from
   * threads other than the one that left the mutex held; that thread itself
   * would re-acquire the re-entrant mutex and be served.
   */
  lemma {:induction false} LeakedLockBlocksPull(ops: seq<Op>, size: nat)
    requires exists i :: 0 <= i < |ops| && ops[i].Blocking()
    ensures !Completes(ops, size, true)
  {
    if !ops[0].Blocking() {
      var i :| 0 <= i < |ops| && ops[i].Blocking();
      assert ops[1..][i - 1] == ops[i];
      LeakedLockBlocksPull(ops[1..], After(ops[0], size, true).0);
    }
  }

  /**
   * The leak persists on any queue: while the pull-side mutex is held
   * elsewhere, pushes still append, every timed pull (its result is in
   * `results`, in call order) returns `None`, and
   * the mutex stays held, so every pushed message stays queued.
   */
  method LeakPersists(q: MessageQueue, ops: seq<Op>) returns (results: seq<Option<string>>)
    requires q.Valid() && q.pullHeld
    requires forall i :: 0 <= i < |ops| ==> ops[i].Push? || ops[i].PullTimed?
    modifies q
    ensures q.Valid() && q.pullHeld
    ensures |results| == |ops| - |Pushed(ops)|
    ensures forall k :: 0 <= k < |results| ==> results[k] == None
    ensures q.msgs == old(q.msgs) + Pushed(ops)
  {
    results := [];
    var i := 0;
    while i < |ops|
      invariant 0 <= i <= |ops|
      invariant q.Valid() && q.pullHeld
      invariant |results| == i - |Pushed(ops[..i])|
      invariant forall k :: 0 <= k < |results| ==> results[k] == None
      invariant q.msgs == old(q.msgs) + Pushed(ops[..i])
    {
      assert ops[..i + 1] == ops[..i] + [ops[i]];
      PushedSnoc(ops[..i], ops[i]);
      if ops[i].Push? {
        q.PushMsg(ops[i].msg);
      } else {
        var r;
        ghost var polls;
        r, polls := q.WaitAndPullTopTimed(ops[i].ms);
        results := results + [r];
      }
      i := i + 1;
    }
    assert ops[..i] == ops;
  }

  /**
   * Issues one call on `q`. The queue size and pull-mutex flag move as
   * `After` says; the messages handed out (`out`) followed by the queue are
   * the old queue followed by the pushed message, if any; and a blocking or
   * background pull hands out exactly one message.
   */
  method Issue(q: MessageQueue, op: Op) returns (out: seq<string>)
    requires q.Valid() && Returns(op, |q.msgs|, q.pullHeld)
    modifies q
    ensures q.Valid()
    ensures (|q.msgs|, q.pullHeld) == After(op, old(|q.msgs|), old(q.pullHeld))
    ensures out + q.msgs == old(q.msgs) + (if op.Push? then [op.msg] else [])
    ensures op.Blocking() ==> |out| == 1
  {
    match op {
      case Push(m) =>
        q.PushMsg(m);
        out := [];
      case Pull =>
        var m := q.WaitAndPullTop();
        out := [m];
      case PullTimed(ms) =>
        var r;
        ghost var polls;
        r, polls := q.WaitAndPullTopTimed(ms);
        out := if r.Some? then [r.value] else [];
      case PullCallBack =>
        var m := q.WaitInBackgroundAndCallBack();
        out := [m];
    }
  }

  /**
   * FIFO: pushing `ps` onto a new queue and then pulling `|ps|` times
   * returns `ps` in order and leaves the queue empty.
   */
  method FifoDelivery(ps: seq<string>) returns (got: seq<string>, rest: seq<string>)
    ensures got == ps && rest == []
  {
    var q := new MessageQueue();
    var i := 0;
    while i < |ps|
      invariant 0 <= i <= |ps|
      invariant q.Valid() && !q.pullHeld
      invariant q.msgs == ps[..i]
    {
      q.PushMsg(ps[i]);
      i := i + 1;
    }
    got := [];
    while |got| < |ps|
      invariant |got| <= |ps|
      invariant q.Valid() && !q.pullHeld
      invariant got == ps[..|got|] && q.msgs == ps[|got|..]
    {
      var m := q.WaitAndPullTop();
      got := got + [m];
    }
    rest := q.msgs;
  }

  /**
   * Exactly-once delivery: running `ops` on a new queue, the messages
   * delivered (in delivery order) followed by those still queued are exactly
   * the messages pushed, in push order. No message is lost, duplicated or
   * reordered, whether it leaves by a blocking, timed or background pull;
   * timed pulls that return `None` included. Every blocking and background
   * pull delivers a message, so at least that many are delivered.
   */
  method Run(ops: seq<Op>) returns (delivered: seq<string>, rest: seq<string>)
    requires Completes(ops, 0, false)
    ensures delivered + rest == Pushed(ops)
    ensures |delivered| >= BlockingPulls(ops)
  {
    var q := new MessageQueue();
    delivered := [];
    var i := 0;
    while i < |ops|
      invariant 0 <= i <= |ops|
      invariant q.Valid()
      invariant Completes(ops[i..], |q.msgs|, q.pullHeld)
      invariant delivered + q.msgs == Pushed(ops[..i])
      invariant |delivered| >= BlockingPulls(ops[..i])
    {
      assert ops[..i + 1] == ops[..i] + [ops[i]];
      PushedSnoc(ops[..i], ops[i]);
      BlockingPullsSnoc(ops[..i], ops[i]);
      assert ops[i..][0] == ops[i] && ops[i..][1..] == ops[i + 1..];
      ghost var before := q.msgs;
      var out := Issue(q, ops[i]);
      assert (delivered + out) + q.msgs == delivered + (out + q.msgs);
      assert delivered + before == Pushed(ops[..i]);
      delivered := delivered + out;
      i := i + 1;
    }
    assert ops[..i] == ops;
    rest := q.msgs;
  }

  /**
   * The leak in action: a timed pull on an empty new queue returns `None`
   * and keeps the pull-side mutex. After that, whatever pushes and timed
   * pulls follow (from threads other than the one holding the mutex), each
   * of those timed pulls returns `None` and every pushed message stays
   * queued in order.
   */
  method LeakStrandsMessages(ms: nat, ops: seq<Op>) returns (first: Option<string>, later: seq<Option<string>>, rest: seq<string>)
    requires forall i :: 0 <= i < |ops| ==> ops[i].Push? || ops[i].PullTimed?
    ensures first == None && rest == Pushed(ops)
    ensures |later| == |ops| - |Pushed(ops)|
    ensures forall k :: 0 <= k < |later| ==> later[k] == None
  {
    var q := new MessageQueue();
    ghost var polls;
    first, polls := q.WaitAndPullTopTimed(ms);
    later := LeakPersists(q, ops);
    rest := q.msgs;
  }

  /**
   * A timed pull on a queue that already holds messages returns the head at
   * once (no polling round) and releases the mutex, so a following blocking
   * pull returns the next message.
   */
  method TimedThenBlocking(a: string, b: string, ms: nat) returns (first: Option<string>, ghost polls: nat, second: string)
    ensures first == Some(a) && polls == 0 && second == b
  {
    var q := new MessageQueue();
    q.PushMsg(a);
    q.PushMsg(b);
    first, polls := q.WaitAndPullTopTimed(ms);
    second := q.WaitAndPullTop();
  }
}
