/** Inductive invariants of the asynchronous sink, kept by every step of every interleaving. */
module AsyncInvariants {
  import opened Records
  import opened QueueSpec
  import opened AsyncSink

  // ----- what left the queue: an order-preserving selection of what was accepted -----

  /** The records of `xs` not evicted according to `gone`, in order. */
  ghost function Kept(xs: seq<LogRecord>, gone: seq<bool>): seq<LogRecord>
    requires |xs| == |gone|
  {
    if xs == [] then []
    else
      var n := |xs| - 1;
      Kept(xs[..n], gone[..n]) + (if gone[n] then [] else [xs[n]])
  }

  ghost function KeptCount(gone: seq<bool>): (n: nat)
    ensures n <= |gone|
  {
    if gone == [] then 0
    else KeptCount(gone[..|gone| - 1]) + (if gone[|gone| - 1] then 0 else 1)
  }

  lemma {:induction false} KeptLength(xs: seq<LogRecord>, gone: seq<bool>)
    requires |xs| == |gone|
    ensures |Kept(xs, gone)| == KeptCount(gone)
  {
    if xs != [] {
      KeptLength(xs[..|xs| - 1], gone[..|xs| - 1]);
    }
  }

  lemma KeptAppendOne(xs: seq<LogRecord>, gone: seq<bool>, x: LogRecord, b: bool)
    requires |xs| == |gone|
    ensures Kept(xs + [x], gone + [b]) == Kept(xs, gone) + (if b then [] else [x])
  {
    assert (xs + [x])[..|xs|] == xs && (gone + [b])[..|xs|] == gone;
  }

  lemma {:induction false} KeptAppend(xs: seq<LogRecord>, gone: seq<bool>, ys: seq<LogRecord>)
    requires |xs| == |gone|
    ensures Kept(xs + ys, gone + Survivors(|ys|)) == Kept(xs, gone) + ys
    decreases |ys|
  {
    if ys == [] {
      assert xs + ys == xs && gone + Survivors(0) == gone;
    } else {
      var n := |ys| - 1;
      KeptAppend(xs, gone, ys[..n]);
      KeptAppendOne(xs + ys[..n], gone + Survivors(n), ys[n], false);
      assert xs + ys == xs + ys[..n] + [ys[n]];
      assert gone + Survivors(|ys|) == gone + Survivors(n) + [false];
    }
  }

  lemma {:induction false} KeptCountMonotone(gone: seq<bool>, m: nat, n: nat)
    requires m <= n <= |gone|
    ensures KeptCount(gone[..m]) <= KeptCount(gone[..n])
    decreases n
  {
    if m < n {
      KeptCountMonotone(gone, m, n - 1);
      assert gone[..n][..n - 1] == gone[..n - 1];
    }
  }

  /** Position i of `xs` is found, if not evicted, at position KeptCount(gone[..i]) of the selection. */
  lemma {:induction false} KeptAt(xs: seq<LogRecord>, gone: seq<bool>, i: nat)
    requires i < |xs| == |gone| && !gone[i]
    ensures KeptCount(gone[..i]) < |Kept(xs, gone)|
    ensures Kept(xs, gone)[KeptCount(gone[..i])] == xs[i]
  {
    var n := |xs| - 1;
    if i == n {
      KeptLength(xs[..n], gone[..n]);
    } else {
      KeptAt(xs[..n], gone[..n], i);
      assert gone[..n][..i] == gone[..i];
    }
  }

  // ----- totals over the producers -----

  function Owes(p: Producer): nat { if p.pc.Counting? then p.pc.increment else 0 }

  function HasFinished(p: Producer): nat { if p.pc.Counting? || p.pc.Written? then 1 else 0 }

  ghost function Total(ps: seq<Producer>, weight: Producer -> nat): nat {
    if ps == [] then 0 else weight(ps[0]) + Total(ps[1..], weight)
  }

  lemma {:induction false} TotalAppend(ps: seq<Producer>, p: Producer, weight: Producer -> nat)
    ensures Total(ps + [p], weight) == Total(ps, weight) + weight(p)
    decreases |ps|
  {
    if ps != [] {
      TotalAppend(ps[1..], p, weight);
      assert (ps + [p])[1..] == ps[1..] + [p];
    }
  }

  lemma {:induction false} TotalUpdate(ps: seq<Producer>, i: nat, p: Producer, weight: Producer -> nat)
    requires i < |ps|
    ensures Total(ps[i := p], weight) == Total(ps, weight) - weight(ps[i]) + weight(p)
    decreases |ps|
  {
    if i == 0 {
      assert ps[i := p][1..] == ps[1..];
    } else {
      TotalUpdate(ps[1..], i - 1, p, weight);
      assert ps[i := p][1..] == ps[1..][i - 1 := p];
    }
  }

  lemma {:induction false} TotalPointwise(ps: seq<Producer>, qs: seq<Producer>, weight: Producer -> nat)
    requires |ps| == |qs| && forall i :: 0 <= i < |ps| ==> weight(ps[i]) == weight(qs[i])
    ensures Total(ps, weight) == Total(qs, weight)
    decreases |ps|
  {
    if ps != [] {
      TotalPointwise(ps[1..], qs[1..], weight);
    }
  }

  // ----- the invariants, each over the part of the state it is about -----

  predicate IsFinal(pc: WorkerPc) {
    pc.FinalDraining? || pc.FinalWriting? || FinallyDrained(pc)
  }

  predicate FinallyDrained(pc: WorkerPc) {
    pc.FinalFlushing? || pc.FinalLoading? || pc.FinalStoring? || pc.FinalNotifying? || pc.Exited?
  }

  /** The worker has loaded a generation that it has not stored yet. */
  predicate Committed(c: AsyncOptions, pc: WorkerPc) {
    pc.Flushing? || pc.Storing? || pc.FinalStoring? || (c.loadFirst && (pc.Draining? || pc.Writing?))
  }

  /** What the batch and the queue are at each point of the worker loop. */
  predicate Position(w: Worker, queue: Queue, stopper: StopperPc) {
    && (w.batch != [] <==> w.pc.Writing?)
    && (IsFinal(w.pc) ==> queue.stop && queue.items == [] && !w.pc.FinalWriting?)
    && (queue.stop <==> !stopper.Running?)
  }

  /** What the generation counters are at each point of the worker loop. */
  predicate Generations(c: AsyncOptions, w: Worker, done: nat, requested: nat, loaded: nat) {
    && done <= w.want <= requested
    && loaded == w.want
    && (!w.pc.FinalNotifying? && !w.pc.Exited? ==> w.lastSeen == done)
    && (!Committed(c, w.pc) ==> w.want == done)
  }

  /** The flush mutex is held exactly by the flusher between lock and sleep. */
  predicate Locks(lock: Option<nat>, fs: seq<Flusher>) {
    && (lock.Some? ==> lock.value < |fs|)
    && (forall f :: 0 <= f < |fs| ==> (fs[f].pc.AtTest? || fs[f].pc.AtSleep? <==> lock == Some(f)))
  }

  predicate Control(c: AsyncOptions, s: State) {
    && Position(s.w, s.queue, s.stopper)
    && Generations(c, s.w, s.done, |s.flushers|, |s.h.covers|)
    && Locks(s.flushLock, s.flushers)
  }

  /** The queue is the unconsumed suffix of what was accepted, and what was taken from it, in order,
      is everything before that suffix except the evicted records. */
  ghost predicate History(c: AsyncOptions, queue: Queue, batch: seq<LogRecord>, h: Past) {
    && |queue.items| <= Capacity(c)
    && |h.evictions| + |queue.items| == |h.accepted|
    && queue.items == h.accepted[|h.evictions|..]
    && h.handed + batch == Kept(h.accepted[..|h.evictions|], h.evictions)
    && (c.policy != DropOldest ==> forall i :: 0 <= i < |h.evictions| ==> !h.evictions[i])
    && (c.policy == Block && !queue.stop ==> h.rejected == 0)
  }

  /** Every finished attempt is accounted for, every drop counted once or still owed. */
  ghost predicate Accounting(s: State) {
    && Total(s.producers, HasFinished) == |s.h.accepted| + s.h.rejected
    && s.dropped + Total(s.producers, Owes) == s.h.rejected + (|s.h.evictions| - KeptCount(s.h.evictions))
    && s.failures == s.h.failedWrites + s.h.failedFlushes
  }

  /** No sleeper whose condition holds is left without a notification still to come. */
  ghost predicate WakeUps(c: AsyncOptions, s: State) {
    && (s.w.pc.Sleeping? && HasWork(s.queue) ==> WorkerNotifyDue(s))
    && (forall p :: 0 <= p < |s.producers| && s.producers[p].pc.Blocked? ==>
          c.policy == Block && ((!s.queue.stop && |s.queue.items| >= Capacity(c)) || ProducerNotifyDue(s)))
    && (forall f :: 0 <= f < |s.flushers| ==> WillWake(s.flushers[f], f + 1, s.w.pc, s.done))
  }

  ghost predicate WorkerNotifyDue(s: State) {
    s.stopper.NotifyWorkerDue? || s.stopper.StopKickNotifyDue?
    || exists f :: 0 <= f < |s.flushers| && s.flushers[f].pc.AtKickNotify?
  }

  predicate ProducerNotifyDue(s: State) {
    s.stopper.NotifyWorkerDue? || s.stopper.NotifyProducersDue?
  }

  /** A flusher that sleeps, or is about to, though its generation is stored, has a notification
      coming, unless the final one passed it by. */
  predicate WillWake(f: Flusher, gen: nat, pc: WorkerPc, done: nat) {
    && (f.missed ==> pc.Exited?)
    && (f.pc.Flushed? ==> done >= gen)
    && (f.pc.AtSleep? && done >= gen ==> pc.Locking? || pc.FinalNotifying? || (pc.Exited? && f.missed))
    && (f.pc.Asleep? && done >= gen ==>
          pc.Locking? || pc.Notifying? || pc.FinalNotifying? || (pc.Exited? && f.missed))
  }

  /** The worker is on its way to serving a generation, or cannot sleep before it is. */
  predicate OnTheWay(c: AsyncOptions, w: Worker, kick: bool, gen: nat) {
    || kick
    || w.pc.Loading? || (!c.loadFirst && (w.pc.Draining? || w.pc.Writing?))
    || (Committed(c, w.pc) && w.want >= gen)
    || w.pc.FinalDraining? || w.pc.FinalFlushing? || w.pc.FinalLoading?
    || ((w.pc.FinalStoring? || w.pc.FinalNotifying? || w.pc.Exited?) && w.want < gen)
  }

  predicate Kicks(c: AsyncOptions, s: State) {
    forall f :: 0 <= f < |s.flushers| ==>
      !s.flushers[f].pc.AtKick? && s.done < f + 1 ==> OnTheWay(c, s.w, s.queue.kick, f + 1)
  }

  /** The first m accepted records have each been evicted or handed to the wrapped sink. */
  ghost predicate Settled(h: Past, m: nat) {
    m <= |h.evictions| && KeptCount(h.evictions[..m]) <= |h.handed|
  }

  /** Moreover the wrapped sink was flushed after those hand-outs. */
  ghost predicate Durable(h: Past, m: nat) {
    m <= |h.evictions| && KeptCount(h.evictions[..m]) <= h.flushedUpTo
  }

  /** Stored generations have their coverage handed out and flushed. */
  ghost predicate Coverage(c: AsyncOptions, w: Worker, done: nat, h: Past) {
    && h.flushedUpTo <= |h.handed|
    && h.mark <= |h.accepted| && Settled(h, h.mark)
    && (forall g :: 0 <= g < |h.covers| ==> h.covers[g] <= |h.accepted|)
    && (forall g :: 0 <= g < |h.covers| && g < done ==> Durable(h, h.covers[g]))
    && (w.pc.Flushing? ==> forall g :: 0 <= g < |h.covers| ==> Settled(h, h.covers[g]))
    && (w.pc.Storing? || w.pc.FinalStoring? ==> forall g :: 0 <= g < |h.covers| ==> Durable(h, h.covers[g]))
    && (FinallyDrained(w.pc) ==> h.mark == |h.accepted|)
    && (FinallyDrained(w.pc) && !w.pc.FinalFlushing? ==> h.flushedUpTo == |h.handed|)
  }

  /** A flush covers everything accepted before it began exactly when it is clean. */
  predicate Cleanliness(c: AsyncOptions, fs: seq<Flusher>, w: Worker, items: seq<LogRecord>, h: Past) {
    && (!c.loadFirst && w.pc.Loading? ==> (|items| == 0 <==> h.mark == |h.accepted|))
    && (forall f :: 0 <= f < |fs| ==> CleanMeansCovered(c, fs[f], f, w.pc, h))
  }

  predicate CleanMeansCovered(c: AsyncOptions, f: Flusher, index: nat, pc: WorkerPc, h: Past) {
    && f.start <= |h.accepted|
    && (f.clean <==>
          if index < |h.covers| then f.start <= h.covers[index]
          else (!c.loadFirst && pc.Loading? ==> f.start <= h.mark))
  }

  ghost predicate Inv(c: AsyncOptions, s: State) {
    && Control(c, s)
    && History(c, s.queue, s.w.batch, s.h)
    && Accounting(s)
    && WakeUps(c, s)
    && Kicks(c, s)
    && Coverage(c, s.w, s.done, s.h)
    && Cleanliness(c, s.flushers, s.w, s.queue.items, s.h)
  }

  // ----- steps that leave the history and the generation counters alone -----

  /** Only program counters of clients, the kick, the stop flag and a sleeping worker may differ. */
  predicate Quiet(s: State, t: State) {
    && t.h == s.h && t.done == s.done && t.queue.items == s.queue.items
    && (t.w == s.w || (s.w.pc.Sleeping? && t.w == s.w.(pc := Waiting)))
    && |t.flushers| == |s.flushers|
    && (forall f :: 0 <= f < |s.flushers| ==> t.flushers[f].(pc := AtKick) == s.flushers[f].(pc := AtKick))
  }

  predicate IsClient(e: Event) {
    !e.Work? && !e.ProducerStep? && !e.FlushCall?
  }

  lemma ClientIsQuiet(c: AsyncOptions, s: State, e: Event)
    requires Enabled(s, e) && IsClient(e)
    ensures Quiet(s, Apply(c, s, e))
  {
    if e.FlushStep? {
      FlusherIsQuiet(s, e.f);
    }
  }

  lemma FlusherIsQuiet(s: State, f: nat)
    requires Enabled(s, FlushStep(f))
    ensures Quiet(s, FlusherNext(s, f))
  {
  }

  lemma QuietKeeps(c: AsyncOptions, s: State, t: State)
    requires Quiet(s, t)
    requires Coverage(c, s.w, s.done, s.h) && Cleanliness(c, s.flushers, s.w, s.queue.items, s.h)
    ensures Coverage(c, t.w, t.done, t.h) && Cleanliness(c, t.flushers, t.w, t.queue.items, t.h)
  {
    forall f | 0 <= f < |t.flushers|
      ensures CleanMeansCovered(c, t.flushers[f], f, t.w.pc, t.h)
    {
      assert t.flushers[f].(pc := AtKick) == s.flushers[f].(pc := AtKick);
      assert CleanMeansCovered(c, s.flushers[f], f, s.w.pc, s.h);
    }
  }

  // ----- control -----

  lemma PositionMain(c: AsyncOptions, s: State, ok: bool)
    requires Control(c, s) && Enabled(s, Work(ok)) && !IsFinal(s.w.pc)
    ensures var t := WorkerNext(c, s, ok); Position(t.w, t.queue, t.stopper)
  {
  }

  lemma PositionFinal(c: AsyncOptions, s: State, ok: bool)
    requires Control(c, s) && Enabled(s, Work(ok)) && IsFinal(s.w.pc)
    ensures var t := WorkerNext(c, s, ok); Position(t.w, t.queue, t.stopper)
  {
  }

  lemma GenerationsMain(c: AsyncOptions, s: State, ok: bool)
    requires Control(c, s) && Enabled(s, Work(ok)) && !IsFinal(s.w.pc)
    ensures var t := WorkerNext(c, s, ok); Generations(c, t.w, t.done, |t.flushers|, |t.h.covers|)
  {
  }

  lemma GenerationsFinal(c: AsyncOptions, s: State, ok: bool)
    requires Control(c, s) && Enabled(s, Work(ok)) && IsFinal(s.w.pc)
    ensures var t := WorkerNext(c, s, ok); Generations(c, t.w, t.done, |t.flushers|, |t.h.covers|)
  {
  }

  lemma LocksWork(c: AsyncOptions, s: State, ok: bool)
    requires Control(c, s) && Enabled(s, Work(ok))
    ensures var t := WorkerNext(c, s, ok); Locks(t.flushLock, t.flushers)
  {
  }

  lemma ControlFlusher(c: AsyncOptions, s: State, f: nat)
    requires Control(c, s) && Enabled(s, FlushStep(f))
    ensures Control(c, FlusherNext(s, f))
  {
    LocksFlusher(s, f);
    FlusherIsQuiet(s, f);
  }

  lemma LocksFlusher(s: State, f: nat)
    requires Locks(s.flushLock, s.flushers) && Enabled(s, FlushStep(f))
    ensures var t := FlusherNext(s, f); Locks(t.flushLock, t.flushers)
  {
    var t := FlusherNext(s, f);
    assert forall g :: 0 <= g < |s.flushers| && g != f ==> t.flushers[g] == s.flushers[g];
  }

  lemma ControlProducer(c: AsyncOptions, s: State, p: nat)
    requires Control(c, s) && Enabled(s, ProducerStep(p))
    ensures Control(c, ProducerNext(c, s, p))
  {
  }

  lemma ControlOther(c: AsyncOptions, s: State, e: Event)
    requires Control(c, s) && Enabled(s, e) && !e.Work? && !e.FlushStep? && !e.ProducerStep?
    ensures Control(c, Apply(c, s, e))
  {
  }

  lemma ControlStep(c: AsyncOptions, s: State, e: Event)
    requires Control(c, s) && Enabled(s, e)
    ensures Control(c, Apply(c, s, e))
  {
    match e {
      case Work(ok) =>
        if IsFinal(s.w.pc) {
          PositionFinal(c, s, ok);
          GenerationsFinal(c, s, ok);
        } else {
          PositionMain(c, s, ok);
          GenerationsMain(c, s, ok);
        }
        LocksWork(c, s, ok);
      case FlushStep(f) => ControlFlusher(c, s, f);
      case ProducerStep(p) => ControlProducer(c, s, p);
      case _ => ControlOther(c, s, e);
    }
  }

  // ----- notifications and kicks -----

  lemma KicksStep(c: AsyncOptions, s: State, e: Event)
    requires Control(c, s) && Kicks(c, s) && Enabled(s, e)
    ensures Kicks(c, Apply(c, s, e))
  {
    if e.Work? {
      KicksWork(c, s, e.ok);
    } else if e.FlushStep? {
      KicksFlusher(c, s, e.f);
    }
  }

  lemma KicksFlusher(c: AsyncOptions, s: State, f: nat)
    requires Kicks(c, s) && Enabled(s, FlushStep(f))
    ensures Kicks(c, FlusherNext(s, f))
  {
    var t := FlusherNext(s, f);
    assert forall g :: 0 <= g < |s.flushers| && g != f ==> t.flushers[g] == s.flushers[g];
  }

  lemma KicksWork(c: AsyncOptions, s: State, ok: bool)
    requires Control(c, s) && Kicks(c, s) && Enabled(s, Work(ok))
    ensures Kicks(c, WorkerNext(c, s, ok))
  {
    if IsFinal(s.w.pc) {
      KicksFinal(c, s, ok);
    }
  }

  lemma KicksFinal(c: AsyncOptions, s: State, ok: bool)
    requires Control(c, s) && Kicks(c, s) && Enabled(s, Work(ok)) && IsFinal(s.w.pc)
    ensures Kicks(c, WorkerNext(c, s, ok))
  {
  }

  lemma WakeUpsProducer(c: AsyncOptions, s: State, p: nat)
    requires WakeUps(c, s) && Enabled(s, ProducerStep(p))
    ensures WakeUps(c, ProducerNext(c, s, p))
  {
  }

  /** A pending notification of the worker is lost only by delivering it. */
  lemma NotifyDueClient(c: AsyncOptions, s: State, e: Event)
    requires WakeUps(c, s) && Enabled(s, e) && IsClient(e)
    ensures var t := Apply(c, s, e); t.w.pc.Sleeping? && HasWork(t.queue) ==> WorkerNotifyDue(t)
  {
    var t := Apply(c, s, e);
    if t.w.pc.Sleeping? && HasWork(t.queue) {
      if e.FlushStep? {
        assert s.flushers[e.f].pc.AtKick? ==> t.flushers[e.f].pc.AtKickNotify?;
      }
      if f :| 0 <= f < |s.flushers| && s.flushers[f].pc.AtKickNotify? {
        assert t.flushers[f].pc.AtKickNotify?;
      }
    }
  }

  lemma WakeUpsClient(c: AsyncOptions, s: State, e: Event)
    requires Control(c, s) && WakeUps(c, s) && Enabled(s, e) && IsClient(e)
    ensures WakeUps(c, Apply(c, s, e))
  {
    NotifyDueClient(c, s, e);
    if e.FlushStep? {
      WillWakeFlusher(c, s, e.f);
    }
  }

  lemma WillWakeFlusher(c: AsyncOptions, s: State, f: nat)
    requires Control(c, s) && WakeUps(c, s) && Enabled(s, FlushStep(f))
    ensures var t := FlusherNext(s, f);
            forall g :: 0 <= g < |t.flushers| ==> WillWake(t.flushers[g], g + 1, t.w.pc, t.done)
  {
  }

  lemma WillWakeWork(c: AsyncOptions, s: State, ok: bool)
    requires Control(c, s) && WakeUps(c, s) && Enabled(s, Work(ok))
    ensures var t := WorkerNext(c, s, ok);
            forall f :: 0 <= f < |t.flushers| ==> WillWake(t.flushers[f], f + 1, t.w.pc, t.done)
  {
    if s.w.pc.Storing? || s.w.pc.Locking? || s.w.pc.Notifying? {
      WillWakeServing(c, s, ok);
    } else if s.w.pc.FinalStoring? || s.w.pc.FinalNotifying? {
      WillWakeFinal(c, s, ok);
    }
  }

  lemma WillWakeServing(c: AsyncOptions, s: State, ok: bool)
    requires Control(c, s) && WakeUps(c, s) && Enabled(s, Work(ok))
    requires s.w.pc.Storing? || s.w.pc.Locking? || s.w.pc.Notifying?
    ensures var t := WorkerNext(c, s, ok);
            forall f :: 0 <= f < |t.flushers| ==> WillWake(t.flushers[f], f + 1, t.w.pc, t.done)
  {
  }

  lemma WillWakeFinal(c: AsyncOptions, s: State, ok: bool)
    requires Control(c, s) && WakeUps(c, s) && Enabled(s, Work(ok))
    requires s.w.pc.FinalStoring? || s.w.pc.FinalNotifying?
    ensures var t := WorkerNext(c, s, ok);
            forall f :: 0 <= f < |t.flushers| ==> WillWake(t.flushers[f], f + 1, t.w.pc, t.done)
  {
  }

  lemma WakeUpsWork(c: AsyncOptions, s: State, ok: bool)
    requires Control(c, s) && WakeUps(c, s) && Enabled(s, Work(ok))
    ensures WakeUps(c, WorkerNext(c, s, ok))
  {
    WillWakeWork(c, s, ok);
  }

  lemma WakeUpsStep(c: AsyncOptions, s: State, e: Event)
    requires Control(c, s) && WakeUps(c, s) && Enabled(s, e)
    ensures WakeUps(c, Apply(c, s, e))
  {
    match e {
      case Work(ok) => WakeUpsWork(c, s, ok);
      case ProducerStep(p) => WakeUpsProducer(c, s, p);
      case FlushCall =>
        if f :| 0 <= f < |s.flushers| && s.flushers[f].pc.AtKickNotify? {
          assert Apply(c, s, e).flushers[f].pc.AtKickNotify?;
        }
      case _ => WakeUpsClient(c, s, e);
    }
  }

  // ----- history and accounting -----

  lemma HistoryPush(c: AsyncOptions, q: Queue, batch: seq<LogRecord>, h: Past, r: LogRecord)
    requires History(c, q, batch, h) && !q.stop && |q.items| < Capacity(c)
    ensures History(c, q.(items := q.items + [r]), batch, h.(accepted := h.accepted + [r]))
  {
    var k := |h.evictions|;
    assert (h.accepted + [r])[..k] == h.accepted[..k];
    assert (h.accepted + [r])[k..] == q.items + [r];
  }

  lemma HistoryEvict(c: AsyncOptions, q: Queue, batch: seq<LogRecord>, h: Past)
    requires History(c, q, batch, h) && q.items != [] && c.policy == DropOldest
    ensures History(c, q.(items := q.items[1..]), batch, h.(evictions := h.evictions + [true]))
  {
    var k := |h.evictions|;
    KeptAppendOne(h.accepted[..k], h.evictions, h.accepted[k], true);
    Advance(h.accepted, k, 1);
    assert h.accepted[k..][..1] == [h.accepted[k]];
  }

  lemma HistoryReplace(c: AsyncOptions, q: Queue, batch: seq<LogRecord>, h: Past, r: LogRecord)
    requires History(c, q, batch, h) && !q.stop && q.items != [] && c.policy == DropOldest
    ensures History(c, q.(items := q.items[1..] + [r]), batch,
                    h.(accepted := h.accepted + [r], evictions := h.evictions + [true]))
  {
    HistoryEvict(c, q, batch, h);
    HistoryPush(c, q.(items := q.items[1..]), batch, h.(evictions := h.evictions + [true]), r);
  }

  /** Nothing that the history invariant is about. */
  predicate SameHistory(h: Past, k: Past) {
    k.accepted == h.accepted && k.evictions == h.evictions && k.handed == h.handed && k.rejected == h.rejected
  }

  lemma HistoryProducer(c: AsyncOptions, s: State, p: nat)
    requires History(c, s.queue, s.w.batch, s.h) && Enabled(s, ProducerStep(p))
    ensures var t := ProducerNext(c, s, p); History(c, t.queue, t.w.batch, t.h)
  {
    var q, h, r, t := s.queue, s.h, s.producers[p].record, ProducerNext(c, s, p);
    if s.producers[p].pc.Trying? && !q.stop {
      if |q.items| < Capacity(c) {
        HistoryPush(c, q, s.w.batch, h, r);
        assert SameHistory(h.(accepted := h.accepted + [r]), t.h);
      } else if c.policy == DropOldest {
        HistoryReplace(c, q, s.w.batch, h, r);
        assert SameHistory(h.(accepted := h.accepted + [r], evictions := h.evictions + [true]), t.h);
      }
    }
  }

  /** Taking the first n of the unconsumed suffix appends them to what is kept. */
  lemma KeptTaken(xs: seq<LogRecord>, gone: seq<bool>, rest: seq<LogRecord>, n: nat)
    requires |gone| + |rest| == |xs| && rest == xs[|gone|..] && n <= |rest|
    ensures Kept(xs[..|gone| + n], gone + Survivors(n)) == Kept(xs[..|gone|], gone) + rest[..n]
    ensures rest[n..] == xs[|gone| + n..]
  {
    var before, taken := xs[..|gone|], rest[..n];
    Advance(xs, |gone|, n);
    assert |taken| == n;
    KeptAppend(before, gone, taken);
    assert xs[..|gone| + n] == before + taken;
  }

  lemma HistoryMove(c: AsyncOptions, q: Queue, h: Past, n: nat)
    requires History(c, q, [], h) && n <= |q.items|
    ensures History(c, q.(items := q.items[n..]), q.items[..n], h.(evictions := h.evictions + Survivors(n)))
  {
    KeptTaken(h.accepted, h.evictions, q.items, n);
    assert h.handed + [] == h.handed;
  }

  lemma Advance(xs: seq<LogRecord>, k: nat, n: nat)
    requires k + n <= |xs|
    ensures xs[..k + n] == xs[..k] + xs[k..][..n] && xs[k + n..] == xs[k..][n..]
  {
  }

  lemma HistoryTake(c: AsyncOptions, s: State, pc: WorkerPc)
    requires History(c, s.queue, s.w.batch, s.h) && s.w.batch == []
    ensures var t := TakeBatch(c, s, pc); History(c, t.queue, t.w.batch, t.h)
  {
    var n := Min(|s.queue.items|, AtLeastOne(c.maxBatch));
    HistoryMove(c, s.queue, s.h, n);
    assert [] + s.queue.items[..n] == s.queue.items[..n];
  }

  lemma HistoryWrite(c: AsyncOptions, s: State, ok: bool, pc: WorkerPc, pc': WorkerPc)
    requires History(c, s.queue, s.w.batch, s.h) && s.w.batch != []
    ensures var t := WriteFirst(s, ok, pc, pc'); History(c, t.queue, t.w.batch, t.h)
  {
    assert s.h.handed + [s.w.batch[0]] + s.w.batch[1..] == s.h.handed + s.w.batch;
  }

  /** The worker moves records: it takes a batch or hands out a record. */
  predicate MovesRecords(s: State) {
    s.w.pc.Writing? || s.w.pc.FinalWriting? || ((s.w.pc.Draining? || s.w.pc.FinalDraining?) && s.queue.items != [])
  }

  predicate SameRecords(s: State, t: State) {
    && t.queue.items == s.queue.items && t.queue.stop == s.queue.stop && t.w.batch == s.w.batch
    && t.h.accepted == s.h.accepted && t.h.evictions == s.h.evictions && t.h.handed == s.h.handed
    && t.h.rejected == s.h.rejected && t.producers == s.producers && t.dropped == s.dropped
  }

  lemma OtherWorkSameRecords(c: AsyncOptions, s: State, ok: bool)
    requires Control(c, s) && Enabled(s, Work(ok)) && !MovesRecords(s)
    ensures SameRecords(s, WorkerNext(c, s, ok))
  {
  }

  lemma HistoryStep(c: AsyncOptions, s: State, e: Event)
    requires Control(c, s) && History(c, s.queue, s.w.batch, s.h) && Enabled(s, e)
    ensures var t := Apply(c, s, e); History(c, t.queue, t.w.batch, t.h)
  {
    match e {
      case ProducerStep(p) => HistoryProducer(c, s, p);
      case Work(ok) => HistoryWork(c, s, ok);
      case FlushCall =>
      case _ =>
        ClientIsQuiet(c, s, e);
        assert s.queue.stop ==> Apply(c, s, e).queue.stop;
    }
  }

  lemma HistoryWork(c: AsyncOptions, s: State, ok: bool)
    requires Control(c, s) && History(c, s.queue, s.w.batch, s.h) && Enabled(s, Work(ok))
    ensures var t := WorkerNext(c, s, ok); History(c, t.queue, t.w.batch, t.h)
  {
    if !MovesRecords(s) {
      OtherWorkSameRecords(c, s, ok);
    } else if s.w.pc.Writing? {
      HistoryWrite(c, s, ok, Writing, Draining);
    } else {
      HistoryTake(c, s, Writing);
    }
  }

  /** Both totals after one producer moved. */
  lemma TotalsSet(ps: seq<Producer>, i: nat, pc: ProducerPc)
    requires i < |ps|
    ensures var p := ps[i].(pc := pc);
            && Total(ps[i := p], HasFinished) == Total(ps, HasFinished) - HasFinished(ps[i]) + HasFinished(p)
            && Total(ps[i := p], Owes) == Total(ps, Owes) - Owes(ps[i]) + Owes(p)
  {
    TotalUpdate(ps, i, ps[i].(pc := pc), HasFinished);
    TotalUpdate(ps, i, ps[i].(pc := pc), Owes);
  }

  lemma TotalsWake(ps: seq<Producer>)
    ensures Total(WakeProducers(ps), HasFinished) == Total(ps, HasFinished)
    ensures Total(WakeProducers(ps), Owes) == Total(ps, Owes)
  {
    TotalPointwise(WakeProducers(ps), ps, HasFinished);
    TotalPointwise(WakeProducers(ps), ps, Owes);
  }

  lemma KeptCountAppend(gone: seq<bool>, b: bool)
    ensures KeptCount(gone + [b]) == KeptCount(gone) + (if b then 0 else 1)
  {
    assert (gone + [b])[..|gone|] == gone;
  }

  lemma {:induction false} KeptCountSurvivors(gone: seq<bool>, n: nat)
    ensures KeptCount(gone + Survivors(n)) == KeptCount(gone) + n
  {
    if n == 0 {
      assert gone + Survivors(0) == gone;
    } else {
      KeptCountSurvivors(gone, n - 1);
      KeptCountAppend(gone + Survivors(n - 1), false);
      assert gone + Survivors(n) == gone + Survivors(n - 1) + [false];
    }
  }

  /** An attempt counts as finished when it returns, and owes one drop if a record was lost to it. */
  lemma AccountingTrying(c: AsyncOptions, s: State, p: nat)
    requires Accounting(s) && Enabled(s, ProducerStep(p)) && s.producers[p].pc.Trying?
    ensures Accounting(ProducerNext(c, s, p))
  {
    if Outcome(s.queue, c.policy, Capacity(c)) == Finished(true, 1) {
      AccountingEvicting(c, s, p);
    } else {
      AccountingNotEvicting(c, s, p);
    }
  }

  lemma AccountingNotEvicting(c: AsyncOptions, s: State, p: nat)
    requires Accounting(s) && Enabled(s, ProducerStep(p)) && s.producers[p].pc.Trying?
    requires Outcome(s.queue, c.policy, Capacity(c)) != Finished(true, 1)
    ensures Accounting(ProducerNext(c, s, p))
  {
    var pc := ProducerNext(c, s, p).producers[p].pc;
    TotalsSet(s.producers, p, pc);
    assert ProducerNext(c, s, p).producers == s.producers[p := s.producers[p].(pc := pc)];
  }

  /** An evicting attempt owes the drop of the record it evicted. */
  lemma AccountingEvicting(c: AsyncOptions, s: State, p: nat)
    requires Accounting(s) && Enabled(s, ProducerStep(p)) && s.producers[p].pc.Trying?
    requires Outcome(s.queue, c.policy, Capacity(c)) == Finished(true, 1)
    ensures Accounting(ProducerNext(c, s, p))
  {
    var ps, h := s.producers, s.h;
    TotalsSet(ps, p, Counting(1));
    KeptCountAppend(h.evictions, true);
    var t := ProducerNext(c, s, p);
    assert t.producers == ps[p := ps[p].(pc := Counting(1))];
    assert t.h.evictions == h.evictions + [true] && |t.h.accepted| == |h.accepted| + 1;
  }

  lemma AccountingProducer(c: AsyncOptions, s: State, p: nat)
    requires Accounting(s) && Enabled(s, ProducerStep(p))
    ensures Accounting(ProducerNext(c, s, p))
  {
    if s.producers[p].pc.Trying? {
      AccountingTrying(c, s, p);
    } else {
      TotalsSet(s.producers, p, Written);
    }
  }

  lemma AccountingTake(c: AsyncOptions, s: State, pc: WorkerPc)
    requires Accounting(s)
    ensures Accounting(TakeBatch(c, s, pc))
  {
    TotalsWake(s.producers);
    KeptCountSurvivors(s.h.evictions, Min(|s.queue.items|, AtLeastOne(c.maxBatch)));
  }

  lemma AccountingWork(c: AsyncOptions, s: State, ok: bool)
    requires Control(c, s) && Accounting(s) && Enabled(s, Work(ok))
    ensures Accounting(WorkerNext(c, s, ok))
  {
    if !MovesRecords(s) {
      OtherWorkSameRecords(c, s, ok);
    } else if !s.w.pc.Writing? {
      AccountingTake(c, s, Writing);
    } else {
      AccountingWrite(s, ok);
    }
  }

  lemma AccountingWrite(s: State, ok: bool)
    requires Accounting(s) && s.w.batch != []
    ensures Accounting(WriteFirst(s, ok, Writing, Draining))
  {
  }

  lemma AccountingStop(c: AsyncOptions, s: State)
    requires Accounting(s) && Enabled(s, StopStep)
    ensures Accounting(StopperNext(s))
  {
    TotalsWake(s.producers);
  }

  lemma AccountingStep(c: AsyncOptions, s: State, e: Event)
    requires Control(c, s) && Accounting(s) && Enabled(s, e)
    ensures Accounting(Apply(c, s, e))
  {
    match e {
      case ProducerStep(p) => AccountingProducer(c, s, p);
      case Work(ok) => AccountingWork(c, s, ok);
      case WriteCall(r) =>
        TotalAppend(s.producers, Producer(r, Trying), HasFinished);
        TotalAppend(s.producers, Producer(r, Trying), Owes);
      case WakeProducer(p) => TotalsSet(s.producers, p, Trying);
      case StopStep => AccountingStop(c, s);
      case _ => AccountingUntouched(c, s, e);
    }
  }

  lemma AccountingUntouched(c: AsyncOptions, s: State, e: Event)
    requires Accounting(s) && (e.FlushCall? || e.FlushStep? || e.WakeFlusher? || e.WakeWorker?) && Enabled(s, e)
    ensures Accounting(Apply(c, s, e))
  {
    assert Apply(c, s, e).producers == s.producers;
  }

  // ----- coverage of flushes -----

  /** The history only grows, and flushes only advance. */
  predicate Grows(h: Past, k: Past) {
    h.evictions <= k.evictions && |h.handed| <= |k.handed| && h.flushedUpTo <= k.flushedUpTo
    && |h.accepted| <= |k.accepted|
  }

  lemma SettledStays(h: Past, k: Past, m: nat)
    requires Grows(h, k)
    ensures Settled(h, m) ==> Settled(k, m)
    ensures Durable(h, m) ==> Durable(k, m)
  {
    if m <= |h.evictions| {
      assert k.evictions[..m] == h.evictions[..m];
    }
  }

  lemma SettledAllStay(h: Past, k: Past)
    requires Grows(h, k)
    ensures forall m: nat :: Settled(h, m) ==> Settled(k, m)
    ensures forall m: nat :: Durable(h, m) ==> Durable(k, m)
  {
    forall m: nat ensures (Settled(h, m) ==> Settled(k, m)) && (Durable(h, m) ==> Durable(k, m)) {
      SettledStays(h, k, m);
    }
  }

  lemma SettledBelow(h: Past, m: nat, n: nat)
    requires m <= n
    ensures Settled(h, n) ==> Settled(h, m)
    ensures Durable(h, n) ==> Durable(h, m)
  {
    if n <= |h.evictions| {
      KeptCountMonotone(h.evictions, m, n);
    }
  }

  /** With the queue and the batch empty, everything accepted is settled. */
  lemma EmptyMeansSettled(c: AsyncOptions, s: State)
    requires History(c, s.queue, [], s.h) && s.queue.items == []
    ensures Settled(s.h, |s.h.accepted|)
  {
    KeptLength(s.h.accepted[..|s.h.evictions|], s.h.evictions);
    assert s.h.evictions[..|s.h.accepted|] == s.h.evictions;
  }

  lemma CoverageProducer(c: AsyncOptions, s: State, p: nat)
    requires Control(c, s) && Coverage(c, s.w, s.done, s.h) && Enabled(s, ProducerStep(p))
    ensures var t := ProducerNext(c, s, p); Coverage(c, t.w, t.done, t.h)
  {
    SettledAllStay(s.h, ProducerNext(c, s, p).h);
  }

  /** Steps that only extend the history keep coverage if they enter no point with a stronger claim. */
  lemma CoverageGrows(c: AsyncOptions, w: Worker, w': Worker, done: nat, h: Past, k: Past)
    requires Coverage(c, w, done, h) && Grows(h, k)
    requires k.mark == h.mark && k.covers == h.covers && k.flushedUpTo == h.flushedUpTo
    requires w'.pc.Draining? || w'.pc.Writing?
    ensures Coverage(c, w', done, k)
  {
    SettledAllStay(h, k);
  }

  lemma CoverageEmpty(c: AsyncOptions, s: State, pc: WorkerPc)
    requires History(c, s.queue, s.w.batch, s.h) && Coverage(c, s.w, s.done, s.h)
    requires s.queue.items == [] && s.w.batch == []
    requires pc.Loading? || pc.Waiting? || pc.Flushing? || pc.FinalFlushing?
    ensures var t := At(FoundEmpty(s), pc); Coverage(c, t.w, t.done, t.h)
  {
    var t := At(FoundEmpty(s), pc);
    EmptyMeansSettled(c, s);
    SettledAllStay(s.h, t.h);
    forall g | 0 <= g < |s.h.covers| ensures Settled(t.h, s.h.covers[g]) {
      SettledBelow(t.h, s.h.covers[g], |s.h.accepted|);
    }
  }

  lemma CoverageLoad(c: AsyncOptions, s: State, m: nat, pc: WorkerPc)
    requires Coverage(c, s.w, s.done, s.h) && |s.h.covers| == s.done && m <= |s.h.accepted|
    requires pc.Draining? || pc.Waiting? || (pc.Flushing? && Settled(s.h, m))
          || (pc.FinalStoring? && s.w.pc.FinalLoading? && Settled(s.h, m))
    ensures var t := At(Load(s, m), pc); Coverage(c, t.w, t.done, t.h)
  {
    var t := At(Load(s, m), pc);
    SettledAllStay(s.h, t.h);
    assert forall g :: |s.h.covers| <= g < |t.h.covers| ==> t.h.covers[g] == m;
  }

  lemma CoverageFlush(c: AsyncOptions, s: State, ok: bool, pc: WorkerPc)
    requires Coverage(c, s.w, s.done, s.h)
    requires (pc.Storing? && s.w.pc.Flushing?) || (pc.FinalLoading? && s.w.pc.FinalFlushing?)
    ensures var t := FlushWrapped(s, ok, pc); Coverage(c, t.w, t.done, t.h)
  {
    SettledAllStay(s.h, FlushWrapped(s, ok, pc).h);
  }

  lemma CoverageMove(c: AsyncOptions, s: State, ok: bool)
    requires Control(c, s) && Coverage(c, s.w, s.done, s.h) && Enabled(s, Work(ok)) && MovesRecords(s)
    ensures var t := WorkerNext(c, s, ok); Coverage(c, t.w, t.done, t.h)
  {
    var t := WorkerNext(c, s, ok);
    CoverageGrows(c, s.w, t.w, s.done, s.h, t.h);
  }

  /** The steps that neither move records nor change coverage. */
  lemma CoverageKept(c: AsyncOptions, s: State, ok: bool)
    requires Control(c, s) && Coverage(c, s.w, s.done, s.h) && Enabled(s, Work(ok))
    requires s.w.pc.Waiting? || s.w.pc.Locking? || s.w.pc.Notifying? || s.w.pc.FinalNotifying?
    ensures var t := WorkerNext(c, s, ok); Coverage(c, t.w, t.done, t.h)
  {
  }

  lemma CoverageStore(c: AsyncOptions, s: State, ok: bool)
    requires Control(c, s) && Coverage(c, s.w, s.done, s.h) && Enabled(s, Work(ok))
    requires s.w.pc.Storing? || s.w.pc.FinalStoring?
    ensures var t := WorkerNext(c, s, ok); Coverage(c, t.w, t.done, t.h)
  {
  }

  lemma CoverageWork(c: AsyncOptions, s: State, ok: bool)
    requires Control(c, s) && History(c, s.queue, s.w.batch, s.h) && Coverage(c, s.w, s.done, s.h)
    requires Enabled(s, Work(ok))
    ensures var t := WorkerNext(c, s, ok); Coverage(c, t.w, t.done, t.h)
  {
    if MovesRecords(s) {
      CoverageMove(c, s, ok);
    } else {
      var pc := WorkerNext(c, s, ok).w.pc;
      match s.w.pc {
        case Draining => CoverageEmpty(c, s, pc);
        case Loading => CoverageLoad(c, s, if c.loadFirst then |s.h.accepted| else s.h.mark, pc);
        case Flushing => CoverageFlush(c, s, ok, Storing);
        case FinalDraining => CoverageEmpty(c, s, FinalFlushing);
        case FinalFlushing => CoverageFlush(c, s, ok, FinalLoading);
        case FinalLoading => CoverageLoad(c, s, s.h.mark, FinalStoring);
        case Storing => CoverageStore(c, s, ok);
        case FinalStoring => CoverageStore(c, s, ok);
        case _ => CoverageKept(c, s, ok);
      }
    }
  }

  lemma CoverageStep(c: AsyncOptions, s: State, e: Event)
    requires Control(c, s) && History(c, s.queue, s.w.batch, s.h) && Enabled(s, e)
    requires Coverage(c, s.w, s.done, s.h) && Cleanliness(c, s.flushers, s.w, s.queue.items, s.h)
    ensures var t := Apply(c, s, e);
            Coverage(c, t.w, t.done, t.h) && Cleanliness(c, t.flushers, t.w, t.queue.items, t.h)
  {
    match e {
      case ProducerStep(p) =>
        CoverageProducer(c, s, p);
        CleanlinessProducer(c, s, p);
      case Work(ok) =>
        CoverageWork(c, s, ok);
        CleanlinessWork(c, s, ok);
      case FlushCall =>
      case _ =>
        ClientIsQuiet(c, s, e);
        QuietKeeps(c, s, Apply(c, s, e));
    }
  }

  lemma CleanlinessProducer(c: AsyncOptions, s: State, p: nat)
    requires History(c, s.queue, s.w.batch, s.h) && Enabled(s, ProducerStep(p))
    requires Coverage(c, s.w, s.done, s.h) && Cleanliness(c, s.flushers, s.w, s.queue.items, s.h)
    ensures var t := ProducerNext(c, s, p); Cleanliness(c, t.flushers, t.w, t.queue.items, t.h)
  {
  }

  /** A load turns the pending generations into covered ones. */
  lemma CleanlinessLoad(c: AsyncOptions, s: State, m: nat, pc: WorkerPc)
    requires Cleanliness(c, s.flushers, s.w, s.queue.items, s.h) && |s.h.covers| <= |s.flushers|
    requires m == (if c.loadFirst || s.w.pc.FinalLoading? then |s.h.accepted| else s.h.mark)
    requires s.w.pc.Loading? || s.w.pc.FinalLoading?
    requires !pc.Loading?
    ensures var t := At(Load(s, m), pc); Cleanliness(c, t.flushers, t.w, t.queue.items, t.h)
  {
    var t := At(Load(s, m), pc);
    forall f | 0 <= f < |t.flushers| ensures CleanMeansCovered(c, t.flushers[f], f, t.w.pc, t.h) {
      assert CleanMeansCovered(c, s.flushers[f], f, s.w.pc, s.h);
    }
  }

  /** The worker's other steps leave the flushers' claims alone: waiting and moving records ... */
  lemma CleanlinessRecords(c: AsyncOptions, s: State, ok: bool)
    requires Control(c, s) && Enabled(s, Work(ok))
    requires s.w.pc.Waiting? || s.w.pc.Draining? || s.w.pc.Writing?
    requires Cleanliness(c, s.flushers, s.w, s.queue.items, s.h)
    ensures var t := WorkerNext(c, s, ok); Cleanliness(c, t.flushers, t.w, t.queue.items, t.h)
  {
  }

  /** ... serving flushes in the loop ... */
  lemma CleanlinessServing(c: AsyncOptions, s: State, ok: bool)
    requires Control(c, s) && Enabled(s, Work(ok))
    requires s.w.pc.Flushing? || s.w.pc.Storing? || s.w.pc.Locking? || s.w.pc.Notifying?
    requires Cleanliness(c, s.flushers, s.w, s.queue.items, s.h)
    ensures var t := WorkerNext(c, s, ok); Cleanliness(c, t.flushers, t.w, t.queue.items, t.h)
  {
  }

  /** ... and after it. */
  lemma CleanlinessFinal(c: AsyncOptions, s: State, ok: bool)
    requires Control(c, s) && Enabled(s, Work(ok)) && IsFinal(s.w.pc) && !s.w.pc.FinalLoading?
    requires Cleanliness(c, s.flushers, s.w, s.queue.items, s.h)
    ensures var t := WorkerNext(c, s, ok); Cleanliness(c, t.flushers, t.w, t.queue.items, t.h)
  {
  }

  lemma CleanlinessWork(c: AsyncOptions, s: State, ok: bool)
    requires Control(c, s) && Enabled(s, Work(ok))
    requires Coverage(c, s.w, s.done, s.h) && Cleanliness(c, s.flushers, s.w, s.queue.items, s.h)
    ensures var t := WorkerNext(c, s, ok); Cleanliness(c, t.flushers, t.w, t.queue.items, t.h)
  {
    if s.w.pc.Loading? || s.w.pc.FinalLoading? {
      var m := if c.loadFirst then |s.h.accepted| else s.h.mark;
      CleanlinessLoad(c, s, m, WorkerNext(c, s, ok).w.pc);
    } else if s.w.pc.Waiting? || s.w.pc.Draining? || s.w.pc.Writing? {
      CleanlinessRecords(c, s, ok);
    } else if IsFinal(s.w.pc) {
      CleanlinessFinal(c, s, ok);
    } else {
      CleanlinessServing(c, s, ok);
    }
  }

  // ----- every reachable state -----

  lemma InitRecords(c: AsyncOptions)
    ensures var s := Init(); History(c, s.queue, s.w.batch, s.h) && Accounting(s)
  {
  }

  lemma InitFlushes(c: AsyncOptions)
    ensures var s := Init();
            && Control(c, s) && WakeUps(c, s) && Kicks(c, s)
            && Coverage(c, s.w, s.done, s.h) && Cleanliness(c, s.flushers, s.w, s.queue.items, s.h)
  {
  }

  lemma InitInv(c: AsyncOptions)
    ensures Inv(c, Init())
  {
    InitRecords(c);
    InitFlushes(c);
  }

  lemma StepKeepsRecords(c: AsyncOptions, s: State, e: Event)
    requires Inv(c, s) && Enabled(s, e)
    ensures var t := Apply(c, s, e); Control(c, t) && History(c, t.queue, t.w.batch, t.h) && Accounting(t)
  {
    ControlStep(c, s, e);
    HistoryStep(c, s, e);
    AccountingStep(c, s, e);
  }

  lemma StepKeepsWaits(c: AsyncOptions, s: State, e: Event)
    requires Inv(c, s) && Enabled(s, e)
    ensures var t := Apply(c, s, e); WakeUps(c, t) && Kicks(c, t)
  {
    WakeUpsStep(c, s, e);
    KicksStep(c, s, e);
  }

  lemma StepInv(c: AsyncOptions, s: State, e: Event)
    requires Inv(c, s) && Enabled(s, e)
    ensures Inv(c, Apply(c, s, e))
  {
    StepKeepsRecords(c, s, e);
    StepKeepsWaits(c, s, e);
    CoverageStep(c, s, e);
  }

  lemma {:induction false} RunInv(c: AsyncOptions, s: State, es: seq<Event>)
    requires Inv(c, s) && Feasible(c, s, es)
    ensures Inv(c, After(c, s, es))
    decreases |es|
  {
    if es != [] {
      StepInv(c, s, es[0]);
      RunInv(c, Apply(c, s, es[0]), es[1..]);
    }
  }

  /** Every reachable state, under every policy and in both worker orders, satisfies the invariant. */
  lemma ReachableInv(c: AsyncOptions, s: State)
    requires Reachable(c, s)
    ensures Inv(c, s)
  {
    var es :| Feasible(c, Init(), es) && After(c, Init(), es) == s;
    InitInv(c);
    RunInv(c, Init(), es);
  }
}
