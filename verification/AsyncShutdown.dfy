/** Shutdown of the asynchronous sink: nothing accepted is left behind, nothing is accepted afterwards,
    and exactly which flusher can be left asleep. */
module AsyncShutdown {
  import opened QueueSpec
  import opened AsyncSink
  import opened AsyncInvariants
  import opened AsyncGuarantees

  /** Once the worker has left its main loop the queue is empty, every accepted record has been handed
      out or evicted, and from the final flush on the wrapped sink has been flushed after all of them. */
  lemma ShutdownComplete(c: AsyncOptions, s: State)
    requires Reachable(c, s) && IsFinal(s.w.pc)
    ensures s.queue.items == [] && s.w.batch == [] && s.queue.stop
    ensures forall i :: 0 <= i < |s.h.accepted| ==> Accounted(s.h, i, |s.h.handed|)
    ensures FinallyDrained(s.w.pc) && !s.w.pc.FinalFlushing? ==> FlushedThrough(s.h, |s.h.accepted|)
  {
    ReachableInv(c, s);
    EmptyMeansSettled(c, s);
    SettledMeansAccounted(c, s, |s.h.accepted|, |s.h.handed|);
  }

  lemma FrozenStep(c: AsyncOptions, s: State, e: Event)
    requires Control(c, s) && IsFinal(s.w.pc) && Enabled(s, e)
    ensures var t := Apply(c, s, e);
            IsFinal(t.w.pc) && t.queue.items == [] && t.h.accepted == s.h.accepted && t.h.handed == s.h.handed
            && t.h.evictions == s.h.evictions && t.h.rejected >= s.h.rejected
  {
    if IsClient(e) {
      ClientIsQuiet(c, s, e);
    }
  }

  /** The queue stays empty: no continuation accepts, evicts or hands out anything more. */
  lemma {:induction false} FrozenForever(c: AsyncOptions, s: State, es: seq<Event>)
    requires Inv(c, s) && IsFinal(s.w.pc) && Feasible(c, s, es)
    ensures var t := After(c, s, es);
            IsFinal(t.w.pc) && t.queue.items == [] && t.h.accepted == s.h.accepted && t.h.handed == s.h.handed
            && t.h.evictions == s.h.evictions
    decreases |es|
  {
    if es != [] {
      FrozenStep(c, s, es[0]);
      StepInv(c, s, es[0]);
      FrozenForever(c, Apply(c, s, es[0]), es[1..]);
    }
  }

  ghost function Lost(gone: seq<bool>): nat {
    |gone| - KeptCount(gone)
  }

  lemma StoppedStep(c: AsyncOptions, s: State, e: Event)
    requires Control(c, s) && s.queue.stop && Enabled(s, e)
    ensures var t := Apply(c, s, e);
            t.queue.stop && t.h.accepted == s.h.accepted && Lost(t.h.evictions) == Lost(s.h.evictions)
  {
    if IsClient(e) {
      ClientIsQuiet(c, s, e);
    } else if e.Work? {
      StoppedWork(c, s, e.ok);
    }
  }

  lemma StoppedWork(c: AsyncOptions, s: State, ok: bool)
    requires Control(c, s) && s.queue.stop && Enabled(s, Work(ok))
    ensures var t := WorkerNext(c, s, ok);
            t.queue.stop && t.h.accepted == s.h.accepted && Lost(t.h.evictions) == Lost(s.h.evictions)
  {
    if !MovesRecords(s) {
      OtherWorkSameRecords(c, s, ok);
    } else if s.w.pc.Draining? || s.w.pc.FinalDraining? {
      KeptCountSurvivors(s.h.evictions, Min(|s.queue.items|, AtLeastOne(c.maxBatch)));
    }
  }

  lemma {:induction false} StoppedAlong(c: AsyncOptions, s: State, es: seq<Event>)
    requires Inv(c, s) && s.queue.stop && Feasible(c, s, es)
    ensures var t := After(c, s, es);
            t.queue.stop && t.h.accepted == s.h.accepted && Lost(t.h.evictions) == Lost(s.h.evictions)
    decreases |es|
  {
    if es != [] {
      StoppedStep(c, s, es[0]);
      StepInv(c, s, es[0]);
      StoppedAlong(c, Apply(c, s, es[0]), es[1..]);
    }
  }

  /** After the stop, in every continuation, nothing is accepted, and the attempts that finish are exactly as
      many as the drops counted or owed since: each is rejected and costs one. */
  lemma StoppedWritesAreDrops(c: AsyncOptions, s: State, es: seq<Event>)
    requires Reachable(c, s) && s.queue.stop && Feasible(c, s, es)
    ensures var t := After(c, s, es);
            && t.h.accepted == s.h.accepted
            && Total(t.producers, HasFinished) - Total(s.producers, HasFinished) == t.h.rejected - s.h.rejected
            && Total(t.producers, HasFinished) - Total(s.producers, HasFinished)
               == (t.dropped + Total(t.producers, Owes)) - (s.dropped + Total(s.producers, Owes))
  {
    ReachableInv(c, s);
    RunInv(c, s, es);
    StoppedAlong(c, s, es);
  }

  // ----- flushers at shutdown -----

  /** The worker has loaded its last generation, and f came after it. */
  predicate TooLate(s: State, f: nat) {
    (s.w.pc.FinalStoring? || s.w.pc.FinalNotifying? || s.w.pc.Exited?) && s.done <= s.w.want < f + 1
  }

  lemma TooLateStep(c: AsyncOptions, s: State, e: Event, f: nat)
    requires Control(c, s) && TooLate(s, f) && Enabled(s, e)
    ensures TooLate(Apply(c, s, e), f)
  {
    if IsClient(e) {
      ClientIsQuiet(c, s, e);
    }
  }

  /** A flush that takes its generation after the worker's last load never returns. */
  lemma {:induction false} TooLateNeverReturns(c: AsyncOptions, s: State, es: seq<Event>, f: nat)
    requires Inv(c, s) && TooLate(s, f) && Feasible(c, s, es)
    ensures var t := After(c, s, es);
            t.done < f + 1 && (f < |t.flushers| ==> !t.flushers[f].pc.Flushed?)
    decreases |es|
  {
    if es == [] {
      if f < |s.flushers| {
        assert WillWake(s.flushers[f], f + 1, s.w.pc, s.done);
      }
    } else {
      TooLateStep(c, s, es[0], f);
      StepInv(c, s, es[0]);
      TooLateNeverReturns(c, Apply(c, s, es[0]), es[1..], f);
    }
  }

  /** Some continuation leaves the flusher asleep after the worker has exited. */
  ghost predicate CanBeStranded(c: AsyncOptions, s: State, f: nat) {
    exists es: seq<Event> :: Feasible(c, s, es) && Stranded(After(c, s, es), f)
  }

  predicate Stranded(s: State, f: nat) {
    s.w.pc.Exited? && f < |s.flushers| && s.flushers[f].pc.Asleep?
  }

  /** A stranded flusher sleeps until a spurious wake-up, although its generation may be stored. */
  lemma {:induction false} StrandedSleepsOn(c: AsyncOptions, s: State, es: seq<Event>, f: nat)
    requires Stranded(s, f) && Feasible(c, s, es) && WakeFlusher(f) !in es
    ensures Stranded(After(c, s, es), f)
    decreases |es|
  {
    if es != [] {
      assert WakeFlusher(f) !in es[1..];
      StrandedSleepsOn(c, Apply(c, s, es[0]), es[1..], f);
    }
  }

  /** The flusher is served and past the danger of missing the final notification. */
  predicate OutOfDanger(s: State, f: nat) {
    && f < |s.flushers| && s.done >= f + 1
    && (s.w.pc.FinalNotifying? || (s.w.pc.Exited? && !s.flushers[f].pc.Asleep?))
    && !s.flushers[f].pc.AtSleep?
  }

  lemma OutOfDangerStep(c: AsyncOptions, s: State, e: Event, f: nat)
    requires OutOfDanger(s, f) && Enabled(s, e)
    ensures OutOfDanger(Apply(c, s, e), f)
  {
  }

  lemma {:induction false} OutOfDangerForever(c: AsyncOptions, s: State, es: seq<Event>, f: nat)
    requires OutOfDanger(s, f) && Feasible(c, s, es)
    ensures OutOfDanger(After(c, s, es), f)
    decreases |es|
  {
    if es != [] {
      OutOfDangerStep(c, s, es[0], f);
      OutOfDangerForever(c, Apply(c, s, es[0]), es[1..], f);
    }
  }

  /** The final notification is sent without taking the flush mutex. A served flusher can be stranded by
      it exactly if it then sits between its test and its sleep. */
  lemma StrandedIffBetweenTestAndSleep(c: AsyncOptions, s: State, f: nat)
    requires Reachable(c, s) && s.w.pc.FinalNotifying? && f < |s.flushers| && s.done >= f + 1
    ensures CanBeStranded(c, s, f) <==> s.flushers[f].pc.AtSleep?
  {
    if s.flushers[f].pc.AtSleep? {
      TwoSteps(c, s, Work(true), FlushStep(f));
      assert Stranded(After(c, s, [Work(true), FlushStep(f)]), f);
    } else {
      forall es: seq<Event> | Feasible(c, s, es) ensures !Stranded(After(c, s, es), f) {
        OutOfDangerForever(c, s, es, f);
      }
    }
  }

  /** A flusher tests the predicate while the worker idles; then the sink is told to stop. */
  lemma FlusherTestsThenStop(c: AsyncOptions) returns (s: State)
    ensures Reachable(c, s) && |s.flushers| == 1 && s.flushers[0].pc.AtSleep?
    ensures s.w.pc.Waiting? && s.queue.stop && s.queue.items == []
  {
    var s0 := Init();
    var kick, test, stop := [FlushCall, FlushStep(0)], [FlushStep(0), FlushStep(0)], [FlushStep(0), StopStep];
    TwoSteps(c, s0, FlushCall, FlushStep(0));
    var s1 := After(c, s0, kick);
    TwoSteps(c, s1, FlushStep(0), FlushStep(0));
    AfterConcat(c, s0, kick, test);
    var s2 := After(c, s1, test);
    assert |s2.flushers| == 1 && s2.flushers[0].pc.AtTest? && s2.done == 0 && s2.w.pc.Waiting?;
    TwoSteps(c, s2, FlushStep(0), StopStep);
    AfterConcat(c, s0, kick + test, stop);
    s := After(c, s2, stop);
  }

  lemma ReachableAfter(c: AsyncOptions, s: State, es: seq<Event>)
    requires Reachable(c, s) && Feasible(c, s, es)
    ensures Reachable(c, After(c, s, es))
  {
    var before :| Feasible(c, Init(), before) && After(c, Init(), before) == s;
    AfterConcat(c, Init(), before, es);
  }

  /** The case above is reachable: an idle worker exits between a flusher's test and its sleep. */
  lemma AServedFlusherCanBeStranded(c: AsyncOptions) returns (s: State)
    ensures Reachable(c, s) && s.w.pc.FinalNotifying? && |s.flushers| == 1 == s.done
    ensures s.flushers[0].pc.AtSleep? && CanBeStranded(c, s, 0)
  {
    var s1 := FlusherTestsThenStop(c);
    ReachableInv(c, s1);
    IdleWorkerExits(c, s1);
    ReachableAfter(c, s1, [Work(true), Work(true)] + [Work(true), Work(true)]);
    var s2 := After(c, s1, [Work(true), Work(true)] + [Work(true), Work(true)]);
    Extend(c, s2, [], Work(true));
    ReachableAfter(c, s2, [] + [Work(true)]);
    s := Apply(c, s2, Work(true));
    StrandedIffBetweenTestAndSleep(c, s, 0);
  }

  lemma IdleWorkerExits(c: AsyncOptions, s: State)
    requires s.w.pc.Waiting? && s.queue.stop && s.queue.items == [] && s.w.batch == [] && |s.h.covers| <= |s.flushers|
    ensures var es := [Work(true), Work(true)] + [Work(true), Work(true)];
            && Feasible(c, s, es)
            && var t := After(c, s, es);
               t.w.pc.FinalStoring? && t.w.want == |s.flushers| && t.flushers == s.flushers
  {
    TwoSteps(c, s, Work(true), Work(true));
    var s1 := After(c, s, [Work(true), Work(true)]);
    assert s1.w.pc.FinalFlushing?;
    TwoSteps(c, s1, Work(true), Work(true));
    AfterConcat(c, s, [Work(true), Work(true)], [Work(true), Work(true)]);
  }
}
