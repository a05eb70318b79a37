/** Progress of the asynchronous sink in the implementation's order: nobody waits without a step that
    helps being enabled, and a kicked flush is served within a computable number of worker steps. */
module AsyncProgress {
  import opened Records
  import opened QueueSpec
  import opened AsyncSink
  import opened AsyncInvariants
  import opened AsyncGuarantees
  import opened AsyncShutdown

  /** A worker step, the delivery of a pending notification, or a step of the flush-mutex holder. */
  predicate Helps(s: State, e: Event) {
    match e
    case Work(_) => true
    case StopStep => s.stopper.NotifyWorkerDue? || s.stopper.NotifyProducersDue? || s.stopper.StopKickNotifyDue?
    case FlushStep(f) => f < |s.flushers| && (s.flushers[f].pc.AtKickNotify? || s.flushLock == Some(f))
    case _ => false
  }

  /** A producer asleep on a full queue. */
  predicate ProducerWaits(s: State, p: nat) {
    p < |s.producers| && s.producers[p].pc.Blocked?
  }

  /** A flush past its kick whose generation is not stored, taken before the worker's last load. */
  predicate FlushWaits(s: State, f: nat) {
    f < |s.flushers| && !s.flushers[f].pc.AtKick? && s.done < f + 1 && !TooLate(s, f)
  }

  /** No reachable state before the worker's exit leaves a waiting producer or flusher without an enabled
      helping step. */
  lemma WaitersAreHelped(c: AsyncOptions, s: State)
    requires Reachable(c, s) && !s.w.pc.Exited?
    requires (exists p: nat :: ProducerWaits(s, p)) || (exists f: nat :: FlushWaits(s, f))
    ensures exists e: Event :: Helps(s, e) && Enabled(s, e)
  {
    ReachableInv(c, s);
    if s.w.pc.Locking? && s.flushLock.Some? {
      var h := s.flushLock.value;
      assert Helps(s, FlushStep(h)) && Enabled(s, FlushStep(h));
    } else if !s.w.pc.Sleeping? {
      assert Helps(s, Work(true)) && Enabled(s, Work(true));
    } else if ProducerNotifyDue(s) || s.stopper.StopKickNotifyDue? {
      assert Helps(s, StopStep) && Enabled(s, StopStep);
    } else {
      if f: nat :| FlushWaits(s, f) {
        assert OnTheWay(c, s.w, s.queue.kick, f + 1);
      }
      assert HasWork(s.queue);
      var f :| 0 <= f < |s.flushers| && s.flushers[f].pc.AtKickNotify?;
      assert Helps(s, FlushStep(f)) && Enabled(s, FlushStep(f));
    }
  }

  /** Worker steps, at most, until generation `gen` is stored, when nothing more is enqueued. */
  function Rank(s: State, gen: nat): nat {
    var n := 3 * |s.queue.items|;
    match s.w.pc
    case FinalStoring => 1
    case FinalLoading => 2
    case FinalFlushing => 3
    case FinalDraining => 4
    case Storing => if s.w.want >= gen then 1 else 9 + n
    case Flushing => if s.w.want >= gen then 2 else 10 + n
    case Loading => 3
    case Draining => 4 + n
    case Writing => 4 + n + 2 * |s.w.batch|
    case Waiting => 5 + n
    case Sleeping => 6 + n
    case Notifying => 7 + n
    case Locking => 8 + n
    case _ => 0
  }

  predicate Served(s: State, f: nat) {
    s.done >= f + 1
  }

  lemma WorkerApproaches(c: AsyncOptions, s: State, ok: bool, f: nat)
    requires !c.loadFirst && Control(c, s) && Kicks(c, s) && Enabled(s, Work(ok)) && FlushWaits(s, f)
    ensures var t := WorkerNext(c, s, ok);
            Served(t, f) || (FlushWaits(t, f) && Rank(t, f + 1) < Rank(s, f + 1))
  {
    assert OnTheWay(c, s.w, s.queue.kick, f + 1);
  }

  /** Records accepted between two states of a run. */
  function Arrivals(s: State, t: State): nat {
    if |t.h.accepted| >= |s.h.accepted| then |t.h.accepted| - |s.h.accepted| else 0
  }

  lemma OthersDoNotHinder(c: AsyncOptions, s: State, e: Event, f: nat)
    requires Control(c, s) && Enabled(s, e) && !e.Work? && FlushWaits(s, f)
    ensures var t := Apply(c, s, e); FlushWaits(t, f) && Rank(t, f + 1) <= Rank(s, f + 1) + 3 * Arrivals(s, t)
  {
    if IsClient(e) {
      ClientIsQuiet(c, s, e);
      KicksStay(c, s, e, f);
    } else if e.ProducerStep? {
      ProducersDoNotHinder(c, s, e.p, f);
    }
  }

  lemma KicksStay(c: AsyncOptions, s: State, e: Event, f: nat)
    requires Enabled(s, e) && IsClient(e) && f < |s.flushers| && !s.flushers[f].pc.AtKick?
    ensures f < |Apply(c, s, e).flushers| && !Apply(c, s, e).flushers[f].pc.AtKick?
  {
  }

  lemma ProducersDoNotHinder(c: AsyncOptions, s: State, p: nat, f: nat)
    requires Control(c, s) && Enabled(s, ProducerStep(p)) && FlushWaits(s, f)
    ensures var t := ProducerNext(c, s, p); FlushWaits(t, f) && Rank(t, f + 1) <= Rank(s, f + 1) + 3 * Arrivals(s, t)
  {
  }

  lemma OnlyGrows(c: AsyncOptions, s: State, e: Event)
    requires Control(c, s) && Enabled(s, e)
    ensures |s.h.accepted| <= |Apply(c, s, e).h.accepted| && s.done <= Apply(c, s, e).done
    ensures s.queue.stop ==> Apply(c, s, e).queue.stop
    ensures |s.h.accepted| == |Apply(c, s, e).h.accepted| ==> Apply(c, s, e).h.accepted == s.h.accepted
  {
    if IsClient(e) {
      ClientIsQuiet(c, s, e);
    }
  }

  lemma {:induction false} OnlyGrowsAlong(c: AsyncOptions, s: State, es: seq<Event>)
    requires Inv(c, s) && Feasible(c, s, es)
    ensures |s.h.accepted| <= |After(c, s, es).h.accepted| && s.done <= After(c, s, es).done
    ensures s.queue.stop ==> After(c, s, es).queue.stop
    decreases |es|
  {
    if es != [] {
      OnlyGrows(c, s, es[0]);
      StepInv(c, s, es[0]);
      OnlyGrowsAlong(c, Apply(c, s, es[0]), es[1..]);
    }
  }

  function WorkerSteps(es: seq<Event>): nat {
    if es == [] then 0 else (if es[0].Work? then 1 else 0) + WorkerSteps(es[1..])
  }

  lemma RankIsPositive(c: AsyncOptions, s: State, f: nat)
    requires !c.loadFirst && Control(c, s) && FlushWaits(s, f)
    ensures Rank(s, f + 1) > 0
  {
  }

  lemma StepServes(c: AsyncOptions, s: State, e: Event, f: nat)
    requires !c.loadFirst && Inv(c, s) && FlushWaits(s, f) && Enabled(s, e)
    ensures var t := Apply(c, s, e);
            Served(t, f) || (FlushWaits(t, f)
              && Rank(t, f + 1) + (if e.Work? then 1 else 0) <= Rank(s, f + 1) + 3 * Arrivals(s, t))
  {
    if e.Work? {
      WorkerApproaches(c, s, e.ok, f);
    } else {
      OthersDoNotHinder(c, s, e, f);
    }
  }

  /** However the other threads interleave, a waiting flush is served by the time the worker has made Rank
      steps, and three more for each record accepted meanwhile. */
  lemma {:induction false} FlushServedWithin(c: AsyncOptions, s: State, es: seq<Event>, f: nat)
    requires !c.loadFirst && Inv(c, s) && FlushWaits(s, f) && Feasible(c, s, es)
    ensures var t := After(c, s, es);
            Served(t, f) ||
            (FlushWaits(t, f) && WorkerSteps(es) + Rank(t, f + 1) <= Rank(s, f + 1) + 3 * Arrivals(s, t))
    ensures var t := After(c, s, es);
            WorkerSteps(es) >= Rank(s, f + 1) + 3 * Arrivals(s, t) ==> Served(t, f)
    decreases |es|
  {
    if es == [] {
      RankIsPositive(c, s, f);
    } else {
      var s1, t := Apply(c, s, es[0]), After(c, s, es);
      StepInv(c, s, es[0]);
      OnlyGrows(c, s, es[0]);
      OnlyGrowsAlong(c, s1, es[1..]);
      StepServes(c, s, es[0], f);
      if !Served(s1, f) {
        FlushServedWithin(c, s1, es[1..], f);
        assert Arrivals(s, t) == Arrivals(s, s1) + Arrivals(s1, t);
      }
    }
  }

  // ----- a flush can starve -----

  /** The worker drains, with one record queued that it will take next. */
  predicate DrainingOne(s: State, r: LogRecord) {
    s.w.pc.Draining? && s.w.batch == [] && s.queue.items == [r] && !s.queue.stop
  }

  /** While the worker writes that record, a client writes the next. */
  lemma OneMoreArrives(c: AsyncOptions, s: State, r: LogRecord, f: nat) returns (es: seq<Event>)
    requires DrainingOne(s, r) && FlushWaits(s, f)
    ensures Feasible(c, s, es) && WorkerSteps(es) == 2
    ensures var t := After(c, s, es); DrainingOne(t, r) && FlushWaits(t, f) && Arrivals(s, t) == 1
  {
    var p := |s.producers|;
    TwoSteps(c, s, Work(true), WriteCall(r));
    var s1 := After(c, s, [Work(true), WriteCall(r)]);
    assert s1.w.pc.Writing? && s1.w.batch == [r] && s1.queue.items == [] && FlushWaits(s1, f);
    assert |s1.producers| == p + 1 && s1.producers[p] == Producer(r, Trying);
    TwoSteps(c, s1, ProducerStep(p), Work(true));
    AfterConcat(c, s, [Work(true), WriteCall(r)], [ProducerStep(p), Work(true)]);
    es := [Work(true), WriteCall(r)] + [ProducerStep(p), Work(true)];
    assert es == [Work(true), WriteCall(r), ProducerStep(p), Work(true)];
    assert WorkerSteps([Work(true)]) == 1 && WorkerSteps(es[1..]) == 1 by {
      assert es[1..] == [WriteCall(r), ProducerStep(p), Work(true)];
      assert es[1..][1..] == [ProducerStep(p), Work(true)] && es[1..][1..][1..] == [Work(true)];
    }
  }

  lemma {:induction false} WorkerStepsConcat(es: seq<Event>, fs: seq<Event>)
    ensures WorkerSteps(es + fs) == WorkerSteps(es) + WorkerSteps(fs)
  {
    if es == [] {
      assert es + fs == fs;
    } else {
      assert (es + fs)[0] == es[0] && (es + fs)[1..] == es[1..] + fs;
      WorkerStepsConcat(es[1..], fs);
    }
  }

  lemma {:induction false} KeepArriving(c: AsyncOptions, s: State, r: LogRecord, f: nat, n: nat) returns (es: seq<Event>)
    requires DrainingOne(s, r) && FlushWaits(s, f)
    ensures Feasible(c, s, es) && WorkerSteps(es) == 2 * n
    ensures var t := After(c, s, es); DrainingOne(t, r) && FlushWaits(t, f)
    decreases n
  {
    es := [];
    if n > 0 {
      var first := OneMoreArrives(c, s, r, f);
      var rest := KeepArriving(c, After(c, s, first), r, f, n - 1);
      AfterConcat(c, s, first, rest);
      WorkerStepsConcat(first, rest);
      es := first + rest;
    }
  }

  /** The dependence on arrivals is real: under every configuration there is a reachable state with a kicked
      flush such that, for any number of worker steps, steady writes keep the flush from being served. */
  lemma FlushCanStarve(c: AsyncOptions, r: LogRecord, n: nat) returns (s: State, es: seq<Event>)
    requires !c.loadFirst
    ensures Reachable(c, s) && |s.flushers| == 1 && FlushWaits(s, 0)
    ensures Feasible(c, s, es) && WorkerSteps(es) >= n
    ensures FlushWaits(After(c, s, es), 0) && !Served(After(c, s, es), 0)
  {
    var write, flush := [WriteCall(r), ProducerStep(0)], [Work(true), FlushCall];
    TwoSteps(c, Init(), write[0], write[1]);
    var s1 := After(c, Init(), write);
    assert s1.queue == Queue([r], false, false) && s1.w == Init().w && s1.flushers == [];
    TwoSteps(c, s1, flush[0], flush[1]);
    AfterConcat(c, Init(), write, flush);
    Extend(c, Init(), write + flush, FlushStep(0));
    s := After(c, Init(), write + flush + [FlushStep(0)]);
    assert DrainingOne(s, r) && FlushWaits(s, 0);
    es := KeepArriving(c, s, r, 0, n);
  }

  // ----- blocked producers -----

  /** Worker steps, at most, until a batch is taken from a queue that is not empty. */
  function WakeRank(w: Worker): nat {
    match w.pc
    case Draining => 1
    case Writing => 1 + |w.batch|
    case Waiting => 2
    case Sleeping => 3
    case Notifying => 3
    case Locking => 4
    case Storing => 5
    case Flushing => 6
    case Loading => 7
    case _ => 0
  }

  ghost predicate BlockedThroughout(c: AsyncOptions, s: State, es: seq<Event>, p: nat)
    requires Feasible(c, s, es)
    decreases |es|
  {
    ProducerWaits(s, p) && (es != [] ==> BlockedThroughout(c, Apply(c, s, es[0]), es[1..], p))
  }

  lemma BlockedStep(c: AsyncOptions, s: State, e: Event, p: nat)
    requires !c.loadFirst && Control(c, s) && WakeUps(c, s) && Enabled(s, e)
    requires ProducerWaits(s, p) && !s.queue.stop
    ensures var t := Apply(c, s, e);
            ProducerWaits(t, p) && !t.queue.stop ==>
              (if e.Work? then WakeRank(t.w) < WakeRank(s.w) else WakeRank(t.w) <= WakeRank(s.w))
  {
    if IsClient(e) {
      ClientIsQuiet(c, s, e);
    }
  }

  /** While the sink is not being stopped, a producer stays blocked for at most WakeRank worker steps
      without being woken, whatever the other threads do. */
  lemma {:induction false} BlockedProducerIsWoken(c: AsyncOptions, s: State, es: seq<Event>, p: nat)
    requires !c.loadFirst && Inv(c, s) && Feasible(c, s, es) && BlockedThroughout(c, s, es, p)
    requires !After(c, s, es).queue.stop
    ensures WorkerSteps(es) + WakeRank(After(c, s, es).w) <= WakeRank(s.w) <= 7 + |s.w.batch|
    decreases |es|
  {
    OnlyGrowsAlong(c, s, es);
    if es != [] {
      var s1 := Apply(c, s, es[0]);
      StepInv(c, s, es[0]);
      OnlyGrowsAlong(c, s1, es[1..]);
      BlockedStep(c, s, es[0], p);
      BlockedProducerIsWoken(c, s1, es[1..], p);
    }
  }

  // ----- what a woken producer can lose its place to -----

  /** Attempts of producer p. */
  function Attempts(es: seq<Event>, p: nat): nat {
    if es == [] then 0 else (if es[0] == ProducerStep(p) then 1 else 0) + Attempts(es[1..], p)
  }

  /** The write of p has neither been accepted nor rejected. */
  predicate IsPending(s: State, p: nat) {
    p < |s.producers| && (s.producers[p].pc.Trying? || s.producers[p].pc.Blocked?)
  }

  ghost predicate PendingThroughout(c: AsyncOptions, s: State, es: seq<Event>, p: nat)
    requires Feasible(c, s, es)
    decreases |es|
  {
    IsPending(s, p) && (es != [] ==> PendingThroughout(c, Apply(c, s, es[0]), es[1..], p))
  }

  /** The next attempt fails even if nothing is accepted before it. */
  function Doomed(c: AsyncOptions, s: State, p: nat): nat
    requires IsPending(s, p)
  {
    if s.producers[p].pc.Trying? && |s.queue.items| >= Capacity(c) then 1 else 0
  }

  lemma AttemptCosts(c: AsyncOptions, s: State, e: Event, p: nat)
    requires Inv(c, s) && Enabled(s, e) && e != WakeProducer(p) && !Apply(c, s, e).queue.stop
    requires IsPending(s, p) && IsPending(Apply(c, s, e), p)
    ensures var t := Apply(c, s, e);
            (if e == ProducerStep(p) then 1 else 0) + Doomed(c, t, p) <= Doomed(c, s, p) + Arrivals(s, t)
  {
    if e.ProducerStep? && e.p != p {
      OtherAttempt(c, s, e.p, p);
    } else if e.ProducerStep? {
      OwnAttempt(c, s, p);
    } else if e.Work? {
      BatchMakesRoom(c, s, e.ok, p);
    }
  }

  lemma OwnAttempt(c: AsyncOptions, s: State, p: nat)
    requires Enabled(s, ProducerStep(p)) && IsPending(s, p) && IsPending(ProducerNext(c, s, p), p)
    ensures Doomed(c, s, p) == 1 && ProducerNext(c, s, p).producers[p].pc.Blocked?
  {
  }

  lemma BatchMakesRoom(c: AsyncOptions, s: State, ok: bool, p: nat)
    requires Inv(c, s) && Enabled(s, Work(ok)) && IsPending(s, p)
    ensures IsPending(WorkerNext(c, s, ok), p) && Doomed(c, WorkerNext(c, s, ok), p) <= Doomed(c, s, p)
  {
    if s.w.pc.Draining? || s.w.pc.FinalDraining? {
      assert |s.queue.items| <= Capacity(c);
    }
  }

  lemma OtherAttempt(c: AsyncOptions, s: State, q: nat, p: nat)
    requires Enabled(s, ProducerStep(q)) && q != p && IsPending(s, p)
    ensures var t := ProducerNext(c, s, q);
            IsPending(t, p) && Doomed(c, t, p) <= Doomed(c, s, p) + Arrivals(s, t)
  {
  }

  /** While the sink is not being stopped and without spurious wake-ups, a producer whose write stays pending
      has attempted it at most once more than records of others were accepted meanwhile: it is overtaken at
      most once for each of them, and finds room as soon as it is woken and nobody overtakes it. */
  lemma {:induction false} OvertakenOnlyByAccepted(c: AsyncOptions, s: State, es: seq<Event>, p: nat)
    requires Inv(c, s) && Feasible(c, s, es) && PendingThroughout(c, s, es, p)
    requires WakeProducer(p) !in es && !After(c, s, es).queue.stop
    ensures Attempts(es, p) <= Doomed(c, s, p) + Arrivals(s, After(c, s, es)) <= 1 + Arrivals(s, After(c, s, es))
    decreases |es|
  {
    if es != [] {
      var s1, t := Apply(c, s, es[0]), After(c, s, es);
      StepInv(c, s, es[0]);
      OnlyGrows(c, s, es[0]);
      OnlyGrowsAlong(c, s1, es[1..]);
      assert PendingThroughout(c, s1, es[1..], p) && WakeProducer(p) !in es[1..];
      AttemptCosts(c, s, es[0], p);
      OvertakenOnlyByAccepted(c, s1, es[1..], p);
      assert Arrivals(s, t) == Arrivals(s, s1) + Arrivals(s1, t);
    }
  }
}
