/** The worker left alone: it comes to rest with nothing left to do, and exits once the sink is stopped. */
module AsyncRest {
  import opened QueueSpec
  import opened AsyncSink
  import opened AsyncInvariants
  import opened AsyncGuarantees

  /** Worker steps, at most, from its wait until it sleeps or has exited, if nobody else moves. */
  function WaitRank(q: Queue): nat {
    var last := if q.stop then 7 else 1;
    if q.items != [] then 7 + 3 * |q.items| + last
    else if q.kick && !q.stop then 7 + last
    else last
  }

  /** The same from every point of the worker loop. */
  function RestRank(s: State): nat {
    var q := s.queue;
    var emptied := WaitRank(q.(items := []));
    match s.w.pc
    case Waiting => WaitRank(q)
    case Draining => 6 + 3 * |q.items| + emptied
    case Writing => 6 + 3 * |q.items| + 2 * |s.w.batch| + emptied
    case Loading => 5 + WaitRank(q)
    case Flushing => 4 + WaitRank(q)
    case Storing => 3 + WaitRank(q)
    case Locking => 2 + WaitRank(q)
    case Notifying => 1 + WaitRank(q)
    case FinalDraining => 6
    case FinalFlushing => 5
    case FinalLoading => 4
    case FinalStoring => 3
    case FinalNotifying => 2
    case _ => 0
  }

  /** The worker takes no step by itself. */
  predicate AtRest(s: State) {
    s.w.pc.Sleeping? || s.w.pc.Exited?
  }

  lemma RestComesCloser(c: AsyncOptions, s: State, ok: bool)
    requires !c.loadFirst && Control(c, s) && Enabled(s, Work(ok))
    ensures RestRank(WorkerNext(c, s, ok)) < RestRank(s)
  {
    if IsFinal(s.w.pc) {
      FinalComesCloser(c, s, ok);
    }
  }

  lemma FinalComesCloser(c: AsyncOptions, s: State, ok: bool)
    requires Control(c, s) && Enabled(s, Work(ok)) && IsFinal(s.w.pc)
    ensures RestRank(WorkerNext(c, s, ok)) < RestRank(s)
  {
  }

  /** The queue after a worker step: stop and kick are only read, or the kick consumed. */
  lemma WorkOnQueue(c: AsyncOptions, s: State, ok: bool)
    requires Control(c, s) && Enabled(s, Work(ok))
    ensures var t := WorkerNext(c, s, ok);
            && t.queue.stop == s.queue.stop && t.flushLock == s.flushLock && t.h.accepted == s.h.accepted
            && |t.flushers| == |s.flushers| && t.stopper == s.stopper
            && (t.queue.kick ==> s.queue.kick)
  {
  }

  /** Only worker steps. */
  predicate OnlyWork(es: seq<Event>) {
    forall i :: 0 <= i < |es| ==> es[i].Work?
  }

  /** A worker that sleeps of its own accord has nothing to do. */
  predicate SleepsRightly(s: State) {
    s.w.pc.Sleeping? ==> !s.queue.stop && s.queue.items == [] && !s.queue.kick
  }

  lemma FallsAsleepRightly(c: AsyncOptions, s: State, ok: bool)
    requires Control(c, s) && Enabled(s, Work(ok))
    ensures SleepsRightly(WorkerNext(c, s, ok))
  {
  }

  lemma {:induction false} WorkUntilRest(c: AsyncOptions, s: State) returns (es: seq<Event>)
    requires !c.loadFirst && Inv(c, s) && s.flushLock.None? && SleepsRightly(s)
    ensures OnlyWork(es) && |es| <= RestRank(s) && Feasible(c, s, es)
    ensures var t := After(c, s, es);
            && AtRest(t) && SleepsRightly(t) && t.queue.stop == s.queue.stop && t.h.accepted == s.h.accepted
            && |t.flushers| == |s.flushers|
    decreases RestRank(s)
  {
    es := [];
    if !AtRest(s) {
      var t := Apply(c, s, Work(true));
      StepInv(c, s, Work(true));
      RestComesCloser(c, s, true);
      WorkOnQueue(c, s, true);
      FallsAsleepRightly(c, s, true);
      var rest := WorkUntilRest(c, t);
      es := [Work(true)] + rest;
      assert es[1..] == rest;
    }
  }

  /** At rest without a stop, everything accepted was handed out or evicted and every kicked flush is served. */
  lemma NothingLeftToDo(c: AsyncOptions, s: State)
    requires Inv(c, s) && s.w.pc.Sleeping? && SleepsRightly(s)
    ensures s.queue.items == [] && s.w.batch == []
    ensures forall i :: 0 <= i < |s.h.accepted| ==> Accounted(s.h, i, |s.h.handed|)
    ensures forall f :: 0 <= f < |s.flushers| && !s.flushers[f].pc.AtKick? ==> s.done >= f + 1
  {
    EmptyMeansSettled(c, s);
    SettledMeansAccounted(c, s, |s.h.accepted|, |s.h.handed|);
    forall f | 0 <= f < |s.flushers| && !s.flushers[f].pc.AtKick? ensures s.done >= f + 1 {
      assert s.done < f + 1 ==> OnTheWay(c, s.w, s.queue.kick, f + 1);
    }
  }

  /** Left alone from any reachable state, with the flush mutex free, the worker comes to rest within RestRank
      steps. It exits if the sink was told to stop; otherwise it sleeps with the queue empty, no kick pending,
      every accepted record handed out or evicted and every kicked flush served. */
  lemma WorkerComesToRest(c: AsyncOptions, s: State) returns (es: seq<Event>)
    requires !c.loadFirst && Reachable(c, s) && s.flushLock.None? && !s.w.pc.Sleeping?
    ensures OnlyWork(es) && |es| <= RestRank(s) && Feasible(c, s, es)
    ensures var t := After(c, s, es);
            && t.h.accepted == s.h.accepted && t.queue.items == [] && t.w.batch == []
            && (if s.queue.stop then t.w.pc.Exited? else t.w.pc.Sleeping? && !t.queue.kick)
            && (forall i :: 0 <= i < |t.h.accepted| ==> Accounted(t.h, i, |t.h.handed|))
            && (!s.queue.stop ==> forall f :: 0 <= f < |t.flushers| && !t.flushers[f].pc.AtKick? ==> t.done >= f + 1)
  {
    ReachableInv(c, s);
    es := WorkUntilRest(c, s);
    var t := After(c, s, es);
    RunInv(c, s, es);
    if t.w.pc.Sleeping? {
      NothingLeftToDo(c, t);
    } else {
      EmptyMeansSettled(c, t);
      SettledMeansAccounted(c, t, |t.h.accepted|, |t.h.handed|);
    }
  }

  /** The first two steps of a stop request: set the flag, notify the worker. */
  lemma StopFlagged(c: AsyncOptions, s: State)
    requires s.stopper.Running?
    ensures Feasible(c, s, [StopStep, StopStep])
    ensures After(c, s, [StopStep, StopStep])
         == NotifyWorker(s.(queue := s.queue.(stop := true), stopper := NotifyProducersDue))
  {
    TwoSteps(c, s, StopStep, StopStep);
  }

  /** The other three: wake the producers, kick, notify the worker again. */
  lemma StopKicked(c: AsyncOptions, s: State)
    requires s.stopper.NotifyProducersDue?
    ensures Feasible(c, s, [StopStep, StopStep] + [StopStep])
    ensures After(c, s, [StopStep, StopStep] + [StopStep])
         == NotifyWorker(s.(producers := WakeProducers(s.producers), queue := s.queue.(kick := true),
                            stopper := Stopped))
  {
    TwoSteps(c, s, StopStep, StopStep);
    Extend(c, s, [StopStep, StopStep], StopStep);
  }

  /** The whole stop request: flag and kick set, every blocked producer and a sleeping worker woken, nothing
      else touched. With the lemma above, the worker then exits. */
  lemma StopRequestEffect(c: AsyncOptions, s: State)
    requires Reachable(c, s) && s.stopper.Running?
    ensures var es := [StopStep, StopStep] + ([StopStep, StopStep] + [StopStep]);
            && Feasible(c, s, es)
            && var t := After(c, s, es);
               && t.stopper.Stopped? && t.queue == Queue(s.queue.items, true, true)
               && |t.producers| == |s.producers|
               && (forall p :: 0 <= p < |t.producers| ==> !t.producers[p].pc.Blocked?)
               && (if s.w.pc.Sleeping? then t.w == s.w.(pc := Waiting) else t.w == s.w)
               && t.h == s.h && t.flushers == s.flushers && t.flushLock == s.flushLock && t.done == s.done
  {
    StopFlagged(c, s);
    var s1 := After(c, s, [StopStep, StopStep]);
    StopKicked(c, s1);
    AfterConcat(c, s, [StopStep, StopStep], [StopStep, StopStep] + [StopStep]);
  }
}
