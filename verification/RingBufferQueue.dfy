/** What each mutex-protected region of the bounded queue does, as functions on a plain sequence. */
module QueueSpec {
  import opened Records

  datatype OverflowPolicy = Block | DropNewest | DropOldest

  /** The queue as its clients see it: oldest record first. */
  datatype Queue = Queue(items: seq<LogRecord>, stop: bool, kick: bool)

  /** Outcome of one pass through the enqueue region: go to sleep on a full queue, or return. */
  datatype Attempt = Sleep | Finished(enqueued: bool, dropped: nat)

  /** The least size that is positive and at least the one requested. */
  function AtLeastOne(requested: nat): (n: nat)
    ensures n >= 1 && n >= requested
    ensures n == 1 || n == requested
  {
    if requested == 0 then 1 else requested
  }

  function Min(a: nat, b: nat): (m: nat)
    ensures m <= a && m <= b && (m == a || m == b)
  {
    if a < b then a else b
  }

  function Outcome(q: Queue, policy: OverflowPolicy, capacity: nat): Attempt {
    if q.stop then Finished(false, 0)
    else if |q.items| < capacity then Finished(true, 0)
    else match policy
      case Block => Sleep
      case DropNewest => Finished(false, 1)
      case DropOldest => Finished(true, 1)
  }

  function AfterEnqueue(q: Queue, policy: OverflowPolicy, capacity: nat, r: LogRecord): Queue
    requires capacity >= 1
  {
    match Outcome(q, policy, capacity)
    case Sleep => q
    case Finished(false, _) => q
    case Finished(true, d) =>
      if d == 0 || q.items == [] then q.(items := q.items + [r]) else q.(items := q.items[1..] + [r])
  }

  /** Whether the consumer's wait is over. */
  predicate HasWork(q: Queue) {
    q.stop || q.items != [] || q.kick
  }
}

/**
 * The mutex + condition-variable ring buffer. Each method is one region executed under the
 * mutex; `contents` is the abstract queue the region is specified on.
 */
module RingBufferQueue {
  import opened Records
  import opened QueueSpec

  /** (x + y) mod capacity for operands that exceed capacity at most once. */
  function Wrap(x: nat, capacity: nat): nat
    requires capacity > 0
  {
    if x < capacity then x else x - capacity
  }

  lemma WrapIsMod(x: nat, capacity: nat)
    requires x < 2 * capacity
    ensures x % capacity == Wrap(x, capacity) < capacity
  {
    var q := x / capacity;
    assert x == capacity * q + x % capacity;
    if q >= 2 {
      AtLeastTwice(capacity, q);
    } else {
      assert capacity * q == if q == 0 then 0 else capacity;
    }
  }

  lemma AtLeastTwice(a: nat, q: nat)
    requires q >= 2
    ensures a * q >= 2 * a
  {
  }

  /** Slot i is one of the `count` slots that start at `head`. */
  predicate Counted(i: nat, head: nat, count: nat, capacity: nat) {
    head <= i < head + count || i + capacity < head + count
  }

  /** The counted slots hold the contents in order, and exactly they are engaged. */
  ghost predicate Ring(slots: seq<Option<LogRecord>>, head: nat, contents: seq<LogRecord>) {
    && head < |slots|
    && |contents| <= |slots|
    && (forall k :: 0 <= k < |contents| ==> slots[Wrap(head + k, |slots|)] == Some(contents[k]))
    && (forall i :: 0 <= i < |slots| ==> (slots[i].Some? <==> Counted(i, head, |contents|, |slots|)))
  }

  lemma RingPush(slots: seq<Option<LogRecord>>, head: nat, contents: seq<LogRecord>, r: LogRecord)
    requires Ring(slots, head, contents) && |contents| < |slots|
    ensures Ring(slots[Wrap(head + |contents|, |slots|) := Some(r)], head, contents + [r])
  {
  }

  lemma RingPop(slots: seq<Option<LogRecord>>, head: nat, contents: seq<LogRecord>)
    requires Ring(slots, head, contents) && contents != []
    ensures slots[head] == Some(contents[0])
    ensures Ring(slots[head := None], Wrap(head + 1, |slots|), contents[1..])
  {
    var slots', head', rest := slots[head := None], Wrap(head + 1, |slots|), contents[1..];
    assert Wrap(head + 0, |slots|) == head;
    forall k | 0 <= k < |rest| ensures slots'[Wrap(head' + k, |slots|)] == Some(rest[k]) {
      assert Wrap(head' + k, |slots|) == Wrap(head + (k + 1), |slots|) != head;
    }
  }

  class MutexRingBufferQueue {
    var capacity: nat
    const policy: OverflowPolicy
    var buffer: array<Option<LogRecord>>
    var head: nat
    var tail: nat
    var count: nat
    var stopRequested: bool
    var flushKick: bool
    ghost var contents: seq<LogRecord>

    ghost predicate Valid()
      reads this, buffer
    {
      && 0 < capacity == buffer.Length
      && count == |contents|
      && tail == Wrap(head + count, capacity)
      && Ring(buffer[..], head, contents)
    }

    ghost function View(): Queue
      reads this
    {
      Queue(contents, stopRequested, flushKick)
    }

    constructor (requested: nat, policy: OverflowPolicy)
      ensures Valid() && fresh(buffer)
      ensures capacity == AtLeastOne(requested) && this.policy == policy
      ensures capacity == 1 || capacity == requested
      ensures View() == Queue([], false, false)
    {
      capacity := AtLeastOne(requested);
      this.policy := policy;
      buffer := new Option<LogRecord>[AtLeastOne(requested)](_ => None);
      head, tail, count := 0, 0, 0;
      stopRequested, flushKick := false, false;
      contents := [];
    }

    method PushUnlocked(r: LogRecord)
      requires Valid() && count < capacity
      modifies this`tail, this`count, this`contents, buffer
      ensures Valid() && contents == old(contents) + [r]
    {
      RingPush(buffer[..], head, contents, r);
      buffer[tail] := Some(r);
      WrapIsMod(tail + 1, capacity);
      tail := (tail + 1) % capacity;
      count := count + 1;
      contents := contents + [r];
    }

    method PopOldestUnlocked()
      requires Valid() && count > 0
      modifies this`head, this`count, this`contents, buffer
      ensures Valid() && contents == old(contents)[1..]
    {
      RingPop(buffer[..], head, contents);
      buffer[head] := None;
      WrapIsMod(head + 1, capacity);
      head := (head + 1) % capacity;
      count := count - 1;
      contents := contents[1..];
    }

    /** One pass through the enqueue region. Under Block on a full queue the caller goes to sleep
        on the not-full condition and passes through again once woken. */
    method Enqueue(r: LogRecord) returns (a: Attempt)
      requires Valid()
      modifies this`head, this`tail, this`count, this`contents, buffer
      ensures Valid()
      ensures a == Outcome(old(View()), policy, capacity)
      ensures View() == AfterEnqueue(old(View()), policy, capacity, r)
      ensures stopRequested == old(stopRequested) && flushKick == old(flushKick)
      ensures old(stopRequested) ==> a == Finished(false, 0) && contents == old(contents)
      ensures !old(stopRequested) && |old(contents)| < capacity ==>
                a == Finished(true, 0) && contents == old(contents) + [r]
      ensures !old(stopRequested) && |old(contents)| == capacity && policy == Block ==>
                a == Sleep && contents == old(contents)
      ensures !old(stopRequested) && |old(contents)| == capacity && policy == DropNewest ==>
                a == Finished(false, 1) && contents == old(contents)
      ensures !old(stopRequested) && |old(contents)| == capacity && policy == DropOldest ==>
                a == Finished(true, 1) && contents == old(contents)[1..] + [r]
    {
      if stopRequested {
        return Finished(false, 0);
      }
      var dropped := 0;
      if policy == Block {
        if !(count < capacity) {
          return Sleep;
        }
      } else if count >= capacity {
        if policy == DropNewest {
          return Finished(false, 1);
        }
        PopOldestUnlocked();
        dropped := 1;
      }
      PushUnlocked(r);
      return Finished(true, dropped);
    }

    /** Moves up to `max` records to the end of `out`; only counted (engaged) slots are read. */
    method DequeueBatch(out: seq<LogRecord>, max: nat) returns (filled: seq<LogRecord>, n: nat)
      requires Valid()
      modifies this`head, this`count, this`contents, buffer
      ensures Valid()
      ensures n == Min(|old(contents)|, max)
      ensures filled == out + old(contents)[..n] && contents == old(contents)[n..]
    {
      n := if count < max then count else max;
      filled := out;
      var i := 0;
      while i < n
        invariant 0 <= i <= n <= |old(contents)|
        invariant Valid() && contents == old(contents)[i..]
        invariant filled == out + old(contents)[..i]
      {
        RingPop(buffer[..], head, contents);
        assert buffer[..][head] == buffer[head];
        filled := filled + [buffer[head].value];
        PopOldestUnlocked();
        i := i + 1;
      }
    }

    method RequestStop()
      requires Valid()
      modifies this`stopRequested
      ensures Valid() && View() == old(View()).(stop := true)
    {
      stopRequested := true;
    }

    method KickForFlush()
      requires Valid()
      modifies this`flushKick
      ensures Valid() && View() == old(View()).(kick := true)
    {
      flushKick := true;
    }

    /** One evaluation of the consumer's wait predicate; the sticky kick is consumed on the way out. */
    method WaitForWork() returns (ready: bool)
      requires Valid()
      modifies this`flushKick
      ensures Valid() && ready == HasWork(old(View()))
      ensures ready <==> old(stopRequested) || old(contents) != [] || old(flushKick)
      ensures View() == if ready then old(View()).(kick := false) else old(View())
    {
      ready := stopRequested || count > 0 || flushKick;
      if ready {
        flushKick := false;
      }
    }
  }

  lemma SplitPoint(all: seq<LogRecord>, k: nat, n: nat)
    requires k + n <= |all|
    ensures all[k..][..n] == all[k..k + n] && all[k..][n..] == all[k + n..]
    ensures all[..k] + all[k..k + n] == all[..k + n]
  {
  }

  /** The worker's drain loop run without interference: whatever the positive batch size, the
      records come out in queue order, all of them, each once. */
  method Drain(q: MutexRingBufferQueue, maxBatch: nat) returns (written: seq<LogRecord>)
    requires q.Valid() && maxBatch > 0
    modifies q`head, q`count, q`contents, q.buffer
    ensures q.Valid() && q.contents == []
    ensures written == old(q.contents)
  {
    ghost var all, k := q.contents, 0;
    written := [];
    var batch, n := TakeNext(q, maxBatch, all, 0);
    while n > 0
      invariant q.Valid()
      invariant 0 <= k <= k + n <= |all|
      invariant n == 0 ==> k == |all|
      invariant batch == all[k..k + n] && q.contents == all[k + n..]
      invariant written == all[..k]
      decreases |all| - k
    {
      SplitPoint(all, k, n);
      written := written + batch;
      k := k + n;
      batch, n := TakeNext(q, maxBatch, all, k);
    }
  }

  /** One dequeue into a cleared batch, seen from the whole sequence that is being drained. */
  method TakeNext(q: MutexRingBufferQueue, maxBatch: nat, ghost all: seq<LogRecord>, ghost k: nat)
    returns (batch: seq<LogRecord>, n: nat)
    requires q.Valid() && maxBatch > 0 && k <= |all| && q.contents == all[k..]
    modifies q`head, q`count, q`contents, q.buffer
    ensures q.Valid() && k + n <= |all| && (n == 0 ==> k == |all|)
    ensures batch == all[k..k + n] && q.contents == all[k + n..]
  {
    batch, n := q.DequeueBatch([], maxBatch);
    SplitPoint(all, k, n);
    assert [] + all[k..][..n] == all[k..k + n];
  }
}
