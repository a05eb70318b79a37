/** What the invariants give to users of the asynchronous sink: in every reachable state, over every
    continuation, for any number of producers and flushers. */
module AsyncGuarantees {
  import opened Records
  import opened QueueSpec
  import opened AsyncSink
  import opened AsyncInvariants

  // ----- records: conservation and order -----

  /** Finished enqueue attempts = handed out + rest of the batch + queued + counted drops + drops that
      producers are still about to count; and every swallowed failure is counted. */
  lemma Conservation(c: AsyncOptions, s: State)
    requires Reachable(c, s)
    ensures Total(s.producers, HasFinished)
         == |s.h.handed| + |s.w.batch| + |s.queue.items| + s.dropped + Total(s.producers, Owes)
    ensures s.failures == s.h.failedWrites + s.h.failedFlushes
  {
    ReachableInv(c, s);
    KeptLength(s.h.accepted[..|s.h.evictions|], s.h.evictions);
  }

  /** Handed-out ++ batch ++ queue is the accepted sequence without the evicted records, in order;
      under Block and DropNewest nothing is missing. */
  lemma Order(c: AsyncOptions, s: State)
    requires Reachable(c, s)
    ensures |s.h.evictions| + |s.queue.items| == |s.h.accepted|
    ensures s.queue.items == s.h.accepted[|s.h.evictions|..]
    ensures s.h.handed + s.w.batch + s.queue.items
         == Kept(s.h.accepted, s.h.evictions + Survivors(|s.queue.items|))
    ensures c.policy != DropOldest ==> s.h.handed + s.w.batch + s.queue.items == s.h.accepted
    ensures c.policy == Block && !s.queue.stop ==> s.dropped == 0
  {
    ReachableInv(c, s);
    var k := |s.h.evictions|;
    KeptAppend(s.h.accepted[..k], s.h.evictions, s.queue.items);
    assert s.h.accepted == s.h.accepted[..k] + s.queue.items;
    if c.policy != DropOldest {
      assert s.h.evictions == Survivors(k);
      KeptAppend([], [], s.h.accepted[..k]);
      assert [] + s.h.accepted[..k] == s.h.accepted[..k] && [] + Survivors(k) == Survivors(k);
      KeptLength(s.h.accepted[..k], s.h.evictions);
    }
  }

  /** Record i was evicted, or is among the first `upTo` records given to the wrapped sink, at the place
      its order of acceptance gives it. */
  ghost predicate Accounted(h: Past, i: nat, upTo: nat) {
    && i < |h.evictions| && i < |h.accepted|
    && (h.evictions[i] ||
        var at := KeptCount(h.evictions[..i]);
        at < upTo && at < |h.handed| && h.handed[at] == h.accepted[i])
  }

  /** What flush() is documented to give, as far as the wrapped sink does not throw: the first m accepted
      records have been handed to the wrapped sink or evicted, and its flush was attempted after that. A
      write or flush that throws is swallowed and counted, here as in the implementation. */
  ghost predicate FlushedThrough(h: Past, m: nat) {
    forall i :: 0 <= i < m ==> Accounted(h, i, h.flushedUpTo)
  }

  lemma SettledMeansAccounted(c: AsyncOptions, s: State, m: nat, upTo: nat)
    requires History(c, s.queue, s.w.batch, s.h)
    requires m <= |s.h.evictions| && KeptCount(s.h.evictions[..m]) <= upTo <= |s.h.handed|
    ensures forall i :: 0 <= i < m ==> Accounted(s.h, i, upTo)
  {
    var h := s.h;
    var k := |h.evictions|;
    forall i | 0 <= i < m ensures Accounted(h, i, upTo) {
      if !h.evictions[i] {
        KeptAt(h.accepted[..k], h.evictions, i);
        KeptCountMonotone(h.evictions, i + 1, m);
        assert h.evictions[..i + 1][..i] == h.evictions[..i];
      }
    }
  }

  // ----- flush -----

  lemma FlusherKeepsItsStart(c: AsyncOptions, s: State, e: Event, f: nat)
    requires Enabled(s, e) && f < |s.flushers|
    ensures var t := Apply(c, s, e);
            f < |t.flushers| && t.flushers[f].start == s.flushers[f].start && t.flushers[f].clean == s.flushers[f].clean
  {
    if IsClient(e) {
      ClientIsQuiet(c, s, e);
      assert Apply(c, s, e).flushers[f].(pc := AtKick) == s.flushers[f].(pc := AtKick);
    } else if e.Work? {
      WorkKeepsStarts(c, s, e.ok);
    }
  }

  lemma WorkKeepsStarts(c: AsyncOptions, s: State, ok: bool)
    requires Enabled(s, Work(ok))
    ensures var t := WorkerNext(c, s, ok);
            && |t.flushers| == |s.flushers|
            && forall f :: 0 <= f < |s.flushers| ==>
                 t.flushers[f].start == s.flushers[f].start && t.flushers[f].clean == s.flushers[f].clean
  {
  }

  lemma {:induction false} RunKeepsStart(c: AsyncOptions, s: State, es: seq<Event>, f: nat)
    requires Feasible(c, s, es) && f < |s.flushers|
    ensures var t := After(c, s, es);
            f < |t.flushers| && t.flushers[f].start == s.flushers[f].start && t.flushers[f].clean == s.flushers[f].clean
    decreases |es|
  {
    if es != [] {
      FlusherKeepsItsStart(c, s, es[0], f);
      RunKeepsStart(c, Apply(c, s, es[0]), es[1..], f);
    }
  }

  /** What every flush gives as coded: a flush that has returned covers the records accepted when the
      worker last found the queue empty before loading its generation; all of them were handed out or
      evicted, and the wrapped sink was flushed after that. */
  lemma FlushAsCoded(c: AsyncOptions, s: State, f: nat)
    requires Reachable(c, s) && f < |s.flushers| && s.flushers[f].pc.Flushed?
    ensures s.done >= f + 1 && f < |s.h.covers| && FlushedThrough(s.h, s.h.covers[f])
    ensures s.flushers[f].start <= s.h.covers[f] <==> s.flushers[f].clean
  {
    ReachableInv(c, s);
    assert WillWake(s.flushers[f], f + 1, s.w.pc, s.done);
    assert CleanMeansCovered(c, s.flushers[f], f, s.w.pc, s.h);
    SettledMeansAccounted(c, s, s.h.covers[f], s.h.flushedUpTo);
  }

  /** However a run continues, the flush begun in s delivers the documented guarantee when it returns. */
  ghost predicate AlwaysHonoured(c: AsyncOptions, s: State) {
    forall es: seq<Event> :: Feasible(c, Apply(c, s, FlushCall), es) ==>
      var t := After(c, Apply(c, s, FlushCall), es);
      |s.flushers| < |t.flushers| && t.flushers[|s.flushers|].pc.Flushed? ==> FlushedThrough(t.h, |s.h.accepted|)
  }

  lemma OutsideWindowHonoured(c: AsyncOptions, s: State)
    requires Reachable(c, s) && !InWindow(c, s)
    ensures AlwaysHonoured(c, s)
  {
    ReachableInv(c, s);
    var f, s1 := |s.flushers|, Apply(c, s, FlushCall);
    StepInv(c, s, FlushCall);
    forall es: seq<Event> | Feasible(c, s1, es) && f < |After(c, s1, es).flushers|
                         && After(c, s1, es).flushers[f].pc.Flushed?
      ensures FlushedThrough(After(c, s1, es).h, |s.h.accepted|)
    {
      var t := After(c, s1, es);
      RunInv(c, s1, es);
      RunKeepsStart(c, s1, es, f);
      assert WillWake(t.flushers[f], f + 1, t.w.pc, t.done);
      assert CleanMeansCovered(c, t.flushers[f], f, t.w.pc, t.h);
      SettledBelow(t.h, |s.h.accepted|, t.h.covers[f]);
      SettledMeansAccounted(c, t, |s.h.accepted|, t.h.flushedUpTo);
    }
  }

  lemma Extend(c: AsyncOptions, s: State, es: seq<Event>, e: Event)
    requires Feasible(c, s, es) && Enabled(After(c, s, es), e)
    ensures Feasible(c, s, es + [e]) && After(c, s, es + [e]) == Apply(c, After(c, s, es), e)
  {
    AfterConcat(c, s, es, [e]);
  }

  lemma TwoSteps(c: AsyncOptions, s: State, d: Event, e: Event)
    requires Enabled(s, d) && Enabled(Apply(c, s, d), e)
    ensures Feasible(c, s, [d, e]) && After(c, s, [d, e]) == Apply(c, Apply(c, s, d), e)
  {
    Extend(c, s, [], d);
    Extend(c, s, [] + [d], e);
    assert [] + [d] + [e] == [d, e];
  }

  /** A flush in the window kicks the queue and notifies the worker, which is not sleeping. */
  lemma WindowKick(c: AsyncOptions, s: State)
    requires Control(c, s) && InWindow(c, s)
    ensures var s1, n := Apply(c, s, FlushCall), |s.flushers|;
            var es := [FlushStep(n), FlushStep(n)];
            && Feasible(c, s1, es)
            && var t := After(c, s1, es);
               && |t.flushers| == n + 1 && t.flushers[n].pc.AtLock? && t.flushLock == s.flushLock
               && Control(c, t) && t.w == s.w && t.done == s.done
               && t.queue.items == s.queue.items && t.h == s.h && t.failures == s.failures
  {
    var n, s1 := |s.flushers|, Apply(c, s, FlushCall);
    TwoSteps(c, s1, FlushStep(n), FlushStep(n));
    ControlStep(c, s, FlushCall);
    ControlStep(c, s1, FlushStep(n));
    ControlStep(c, Apply(c, s1, FlushStep(n)), FlushStep(n));
  }

  /** Then the worker loads its generation, flushes and stores at once, leaving the queue as it is. */
  lemma WindowServe(c: AsyncOptions, s: State) returns (es: seq<Event>)
    requires Control(c, s) && InWindow(c, s)
    ensures var s1 := Apply(c, s, FlushCall);
            && Feasible(c, s1, es)
            && var t := After(c, s1, es);
               && |t.flushers| == |s.flushers| + 1 && t.done == |t.flushers|
               && t.flushers[|s.flushers|].pc.AtLock?
               && Locks(t.flushLock, t.flushers)
               && t.queue.items == s.queue.items && t.h.evictions == s.h.evictions
               && t.failures == s.failures
  {
    var n := |s.flushers|;
    var kick, serve := [FlushStep(n), FlushStep(n)], [Work(true), Work(true), Work(true)];
    var s1 := Apply(c, s, FlushCall);
    WindowKick(c, s);
    WindowLoad(c, After(c, s1, kick));
    AfterConcat(c, s1, kick, serve);
    es := kick + serve;
  }

  lemma WindowLoad(c: AsyncOptions, s: State)
    requires Control(c, s) && !c.loadFirst && s.w.pc.Loading? && s.done < |s.flushers|
    ensures var es := [Work(true), Work(true), Work(true)];
            && Feasible(c, s, es)
            && var t := After(c, s, es);
               t.done == |s.flushers| && t.flushers == s.flushers && t.flushLock == s.flushLock
               && t.queue == s.queue && t.h.evictions == s.h.evictions && t.failures == s.failures
  {
    var s1 := Apply(c, s, Work(true));
    var s2 := Apply(c, s1, Work(true));
    var s3 := Apply(c, s2, Work(true));
    assert s1.w.pc.Flushing? && s2.w.pc.Storing?;
    Extend(c, s, [], Work(true));
    Extend(c, s, [Work(true)], Work(true));
    Extend(c, s, [Work(true), Work(true)], Work(true));
    assert [] + [Work(true)] == [Work(true)];
    assert [Work(true)] + [Work(true)] + [Work(true)] == [Work(true), Work(true), Work(true)];
  }

  /** Once its generation is stored, a flusher at the lock can return whoever holds the lock. */
  lemma ServedFlushReturns(c: AsyncOptions, s: State, n: nat) returns (es: seq<Event>)
    requires Locks(s.flushLock, s.flushers) && s.done == |s.flushers|
    requires n < |s.flushers| && s.flushers[n].pc.AtLock?
    ensures Feasible(c, s, es)
    ensures var t := After(c, s, es);
            |t.flushers| == |s.flushers| && t.flushers[n].pc.Flushed? && t.queue == s.queue && t.h == s.h
            && t.failures == s.failures
  {
    es := [];
    var s1 := s;
    if s.flushLock.Some? {
      var g := s.flushLock.value;
      assert s.flushers[g].pc.AtTest? || s.flushers[g].pc.AtSleep?;
      Extend(c, s, es, FlushStep(g));
      s1 := Apply(c, s, FlushStep(g));
      es := es + [FlushStep(g)];
    }
    Extend(c, s, es, FlushStep(n));
    es := es + [FlushStep(n)];
    Extend(c, s, es, FlushStep(n));
    es := es + [FlushStep(n)];
  }

  /** From any state in the window, a run that lets the flush return with the queue untouched. */
  lemma WindowRun(c: AsyncOptions, s: State) returns (es: seq<Event>)
    requires Inv(c, s) && InWindow(c, s)
    ensures var s1 := Apply(c, s, FlushCall);
            && Feasible(c, s1, es)
            && var t := After(c, s1, es);
               |t.flushers| == |s.flushers| + 1 && t.flushers[|s.flushers|].pc.Flushed?
               && t.queue.items == s.queue.items && t.h.evictions == s.h.evictions
               && t.failures == s.failures
  {
    var s1 := Apply(c, s, FlushCall);
    var first := WindowServe(c, s);
    var second := ServedFlushReturns(c, After(c, s1, first), |s.flushers|);
    AfterConcat(c, s1, first, second);
    es := first + second;
  }

  /** The guarantee, exactly: in the implementation's order a flush is honoured, up to exceptions of the
      wrapped sink, in every continuation if and only if it does not begin while the worker is between
      finding the queue empty and loading the generation with records queued behind its back. */
  lemma FlushHonouredIffOutsideWindow(c: AsyncOptions, s: State)
    requires Reachable(c, s) && !c.loadFirst
    ensures AlwaysHonoured(c, s) <==> !(s.w.pc.Loading? && s.queue.items != [])
  {
    ReachableInv(c, s);
    if InWindow(c, s) {
      var es := WindowRun(c, s);
      var t := After(c, Apply(c, s, FlushCall), es);
      var last := |s.h.accepted| - 1;
      assert !Accounted(t.h, last, t.h.flushedUpTo);
      assert !FlushedThrough(t.h, |s.h.accepted|);
    } else {
      OutsideWindowHonoured(c, s);
    }
  }

  /** With the generation loaded before the drain, every flush in every run is honoured. */
  lemma LoadFirstHonoured(c: AsyncOptions, s: State)
    requires Reachable(c, s) && c.loadFirst
    ensures AlwaysHonoured(c, s)
  {
    OutsideWindowHonoured(c, s);
  }

  /** The window is reached with a single client: it writes a record, the worker drains it and finds the
      queue empty, the client writes another and then calls flush(). */
  lemma OneClientReachesTheWindow(c: AsyncOptions, r: LogRecord) returns (s: State)
    requires !c.loadFirst
    ensures Reachable(c, s) && InWindow(c, s) && !AlwaysHonoured(c, s)
    ensures s.producers == [Producer(r, Written), Producer(r, Written)] && s.flushers == []
    ensures s.h.accepted == [r, r] && s.queue.items == [r]
  {
    var first := [WriteCall(r), ProducerStep(0)];
    var drain := [Work(true), Work(true), Work(true), Work(true)];
    TwoSteps(c, Init(), first[0], first[1]);
    var s1 := After(c, Init(), first);
    assert s1.queue.items == [r] && s1.producers == [Producer(r, Written)];
    DrainOne(c, s1);
    var s2 := After(c, s1, drain);
    TwoSteps(c, s2, WriteCall(r), ProducerStep(1));
    s := After(c, s2, [WriteCall(r), ProducerStep(1)]);
    AfterConcat(c, Init(), first, drain);
    AfterConcat(c, Init(), first + drain, [WriteCall(r), ProducerStep(1)]);
    FlushHonouredIffOutsideWindow(c, s);
  }

  lemma DrainOne(c: AsyncOptions, s: State)
    requires !c.loadFirst && s.w.pc.Waiting? && |s.queue.items| == 1 && !s.queue.stop && s.w.batch == []
    ensures var es := [Work(true), Work(true), Work(true), Work(true)];
            && Feasible(c, s, es)
            && var t := After(c, s, es);
               t.w.pc.Loading? && t.queue == Queue([], false, false) && t.flushers == s.flushers
               && t.producers == WakeProducers(s.producers) && t.h.accepted == s.h.accepted
  {
    TwoSteps(c, s, Work(true), Work(true));
    var s1 := After(c, s, [Work(true), Work(true)]);
    assert s1.w.batch == s.queue.items && s1.w.pc.Writing? && s1.queue.items == [];
    TwoSteps(c, s1, Work(true), Work(true));
    AfterConcat(c, s, [Work(true), Work(true)], [Work(true), Work(true)]);
    assert [Work(true), Work(true)] + [Work(true), Work(true)] == [Work(true), Work(true), Work(true), Work(true)];
  }

  // ----- no request and no wake-up is lost -----

  /** With the worker at its wait and a generation not stored, the kick is set or a flusher is still
      between taking its generation and its kick. */
  lemma NoFlushRequestLost(c: AsyncOptions, s: State)
    requires Reachable(c, s) && (s.w.pc.Waiting? || s.w.pc.Sleeping?) && s.done < |s.flushers|
    ensures s.queue.kick || exists f :: 0 <= f < |s.flushers| && s.flushers[f].pc.AtKick?
  {
    ReachableInv(c, s);
    var f := |s.flushers| - 1;
    assert s.flushers[f].pc.AtKick? || OnTheWay(c, s.w, s.queue.kick, f + 1);
  }

  /** A thread that sleeps although its condition holds always has a notification still to come, except
      a flusher that the final notification caught between its test and its sleep. */
  lemma NoWakeUpLost(c: AsyncOptions, s: State)
    requires Reachable(c, s)
    ensures s.w.pc.Sleeping? && HasWork(s.queue) ==> WorkerNotifyDue(s)
    ensures forall p :: 0 <= p < |s.producers| && s.producers[p].pc.Blocked? ==>
              (s.queue.stop || |s.queue.items| < Capacity(c) ==> ProducerNotifyDue(s))
    ensures forall f :: 0 <= f < |s.flushers| && s.flushers[f].pc.Asleep? && s.done >= f + 1 ==>
              s.w.pc.Locking? || s.w.pc.Notifying? || s.w.pc.FinalNotifying? || s.flushers[f].missed
    ensures forall f :: 0 <= f < |s.flushers| && s.flushers[f].missed ==> s.w.pc.Exited?
  {
    ReachableInv(c, s);
    forall f | 0 <= f < |s.flushers| ensures WillWake(s.flushers[f], f + 1, s.w.pc, s.done) {
    }
  }
}
