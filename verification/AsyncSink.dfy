/**
 * The asynchronous sink as a transition system: any number of producers and flushers, one
 * stopper and one worker, interleaved one atomic operation or mutex-protected region at a time.
 * All three condition variables are modelled as waiter sets: a sleeping thread moves again only
 * after a notification or a spurious wake-up.
 */
module AsyncSink {
  import opened Records
  import opened QueueSpec

  /** `loadFirst` selects the order of the worker loop: the implementation drains and then loads the
      requested generation (false); the variant loads it before draining (true). */
  datatype AsyncOptions = AsyncOptions(policy: OverflowPolicy, capacity: nat, maxBatch: nat, loadFirst: bool)

  function Capacity(c: AsyncOptions): (n: nat)
    ensures n >= 1
  {
    AtLeastOne(c.capacity)
  }

  /** One call of write(): trying to enqueue, asleep on not-full, about to add to the drop counter. */
  datatype ProducerPc = Trying | Blocked | Counting(increment: nat) | Written
  datatype Producer = Producer(record: LogRecord, pc: ProducerPc)

  /** One call of flush(): kick, notify the worker, lock, test the predicate, fall asleep. */
  datatype FlusherPc = AtKick | AtKickNotify | AtLock | AtTest | AtSleep | Asleep | Flushed

  /** `start` is the number of records accepted when the call took its generation; `clean` says that
      the worker was then not between its empty dequeue and its load with records queued; `missed`
      says that the final notification passed while the call was between test and sleep. */
  datatype Flusher = Flusher(pc: FlusherPc, start: nat, clean: bool, missed: bool)

  datatype StopperPc = Running | NotifyWorkerDue | NotifyProducersDue | StopKickDue | StopKickNotifyDue | Stopped

  datatype WorkerPc =
    | Waiting | Sleeping | Draining | Writing | Loading | Flushing | Storing | Locking | Notifying
    | FinalDraining | FinalWriting | FinalFlushing | FinalLoading | FinalStoring | FinalNotifying | Exited

  /** The worker's program counter and locals. */
  datatype Worker = Worker(pc: WorkerPc, batch: seq<LogRecord>, want: nat, lastSeen: nat)

  /** History: influences no step. */
  datatype Past = Past(
    accepted: seq<LogRecord>,   // every record pushed, in order
    evictions: seq<bool>,       // for each record that left the queue, in order: was it evicted?
    handed: seq<LogRecord>,     // every record passed to the wrapped sink, throwing or not
    rejected: nat,              // enqueue attempts that returned without pushing
    flushedUpTo: nat,           // records handed out when the wrapped sink was last flushed
    failedWrites: nat,
    failedFlushes: nat,
    mark: nat,                  // records accepted when the worker last found the queue empty
    covers: seq<nat>,           // per generation loaded: the records its flush is meant to cover
    landed: seq<bool>,          // for each record handed out: did the write return without throwing?
    soundUpTo: nat,             // records handed out when the wrapped sink was last flushed without throwing
    writers: seq<nat>,          // for each record pushed: the producer that pushed it
    refused: set<nat>)          // the producers whose attempt returned without pushing

  /** The flusher at index i holds generation i + 1, so `flush_request_gen_` is |flushers|. */
  datatype State = State(
    queue: Queue,
    producers: seq<Producer>,
    flushers: seq<Flusher>,
    stopper: StopperPc,
    flushLock: Option<nat>,
    done: nat,
    dropped: nat,
    failures: nat,
    w: Worker,
    h: Past)

  datatype Event =
    | WriteCall(record: LogRecord) | ProducerStep(p: nat) | WakeProducer(p: nat)
    | FlushCall | FlushStep(f: nat) | WakeFlusher(f: nat)
    | StopStep
    | Work(ok: bool) | WakeWorker

  function Init(): State {
    State(Queue([], false, false), [], [], Running, None, 0, 0, 0,
          Worker(Waiting, [], 0, 0), Past([], [], [], 0, 0, 0, 0, 0, [], [], 0, [], {}))
  }

  predicate Enabled(s: State, e: Event) {
    match e
    case WriteCall(_) => true
    case ProducerStep(p) => p < |s.producers| && !s.producers[p].pc.Blocked? && !s.producers[p].pc.Written?
    case WakeProducer(p) => p < |s.producers| && s.producers[p].pc.Blocked?
    case FlushCall => true
    case FlushStep(f) =>
      && f < |s.flushers|
      && !s.flushers[f].pc.Asleep? && !s.flushers[f].pc.Flushed?
      && (s.flushers[f].pc.AtLock? ==> s.flushLock.None?)
    case WakeFlusher(f) => f < |s.flushers| && s.flushers[f].pc.Asleep?
    case StopStep => !s.stopper.Stopped?
    case Work(_) => !s.w.pc.Sleeping? && !s.w.pc.Exited? && (s.w.pc.Locking? ==> s.flushLock.None?)
    case WakeWorker => s.w.pc.Sleeping?
  }

  function Apply(c: AsyncOptions, s: State, e: Event): State
    requires Enabled(s, e)
  {
    match e
    case WriteCall(r) => s.(producers := s.producers + [Producer(r, Trying)])
    case ProducerStep(p) => ProducerNext(c, s, p)
    case WakeProducer(p) => SetProducer(s, p, Trying)
    case FlushCall => s.(flushers := s.flushers + [NewFlusher(c, s)])
    case FlushStep(f) => FlusherNext(s, f)
    case WakeFlusher(f) => SetFlusher(s, f, AtLock)
    case StopStep => StopperNext(s)
    case Work(ok) => WorkerNext(c, s, ok)
    case WakeWorker => NotifyWorker(s)
  }

  // ----- notifications -----

  function At(s: State, pc: WorkerPc): State {
    s.(w := s.w.(pc := pc))
  }

  function NotifyWorker(s: State): State {
    if s.w.pc.Sleeping? then At(s, Waiting) else s
  }

  function WakeProducers(ps: seq<Producer>): (r: seq<Producer>)
    ensures |r| == |ps|
  {
    seq(|ps|, i requires 0 <= i < |ps| => if ps[i].pc.Blocked? then ps[i].(pc := Trying) else ps[i])
  }

  function WakeFlushers(fs: seq<Flusher>): (r: seq<Flusher>)
    ensures |r| == |fs|
  {
    seq(|fs|, i requires 0 <= i < |fs| => if fs[i].pc.Asleep? then fs[i].(pc := AtLock) else fs[i])
  }

  function MarkMissed(fs: seq<Flusher>): (r: seq<Flusher>)
    ensures |r| == |fs|
  {
    seq(|fs|, i requires 0 <= i < |fs| => if fs[i].pc.AtSleep? then fs[i].(missed := true) else fs[i])
  }

  // ----- producers -----

  function SetProducer(s: State, p: nat, pc: ProducerPc): State
    requires p < |s.producers|
  {
    s.(producers := s.producers[p := s.producers[p].(pc := pc)])
  }

  /** What write() adds to the drop counter for a finished attempt. */
  function DropIncrement(a: Attempt): nat
    requires a.Finished?
  {
    if a.dropped > 0 then a.dropped else if !a.enqueued then 1 else 0
  }

  function ProducerNext(c: AsyncOptions, s: State, p: nat): State
    requires Enabled(s, ProducerStep(p))
  {
    match s.producers[p].pc
    case Trying =>
      var a := Outcome(s.queue, c.policy, Capacity(c));
      if a.Sleep? then SetProducer(s, p, Blocked)
      else
        var inc := DropIncrement(a);
        var s1 := SetProducer(s, p, if inc > 0 then Counting(inc) else Written);
        if a.enqueued then
          var r := s.producers[p].record;
          NotifyWorker(s1.(
            queue := AfterEnqueue(s.queue, c.policy, Capacity(c), r),
            h := s.h.(
              accepted := s.h.accepted + [r],
              writers := s.h.writers + [p],
              evictions := if a.dropped > 0 then s.h.evictions + [true] else s.h.evictions)))
        else
          s1.(h := s.h.(rejected := s.h.rejected + 1, refused := s.h.refused + {p}))
    case Counting(n) => SetProducer(s, p, Written).(dropped := s.dropped + n)
    case _ => s
  }

  // ----- flushers and the stopper -----

  function SetFlusher(s: State, f: nat, pc: FlusherPc): State
    requires f < |s.flushers|
  {
    s.(flushers := s.flushers[f := s.flushers[f].(pc := pc)])
  }

  /** The worker has found the queue empty, has not loaded the generation yet, and records arrived. */
  predicate InWindow(c: AsyncOptions, s: State) {
    !c.loadFirst && s.w.pc.Loading? && s.queue.items != []
  }

  function NewFlusher(c: AsyncOptions, s: State): Flusher {
    Flusher(AtKick, |s.h.accepted|, !InWindow(c, s), false)
  }

  function FlusherNext(s: State, f: nat): State
    requires Enabled(s, FlushStep(f))
  {
    match s.flushers[f].pc
    case AtKick => SetFlusher(s, f, AtKickNotify).(queue := s.queue.(kick := true))
    case AtKickNotify => NotifyWorker(SetFlusher(s, f, AtLock))
    case AtLock => SetFlusher(s, f, AtTest).(flushLock := Some(f))
    case AtTest =>
      if s.done >= f + 1 then SetFlusher(s, f, Flushed).(flushLock := None) else SetFlusher(s, f, AtSleep)
    case AtSleep => SetFlusher(s, f, Asleep).(flushLock := None)
    case _ => s
  }

  function StopperNext(s: State): State {
    match s.stopper
    case Running => s.(queue := s.queue.(stop := true), stopper := NotifyWorkerDue)
    case NotifyWorkerDue => NotifyWorker(s.(stopper := NotifyProducersDue))
    case NotifyProducersDue => s.(producers := WakeProducers(s.producers), stopper := StopKickDue)
    case StopKickDue => s.(queue := s.queue.(kick := true), stopper := StopKickNotifyDue)
    case StopKickNotifyDue => NotifyWorker(s.(stopper := Stopped))
    case Stopped => s
  }

  // ----- the worker -----

  function Survivors(n: nat): (r: seq<bool>)
    ensures |r| == n && forall i :: 0 <= i < n ==> !r[i]
  {
    seq(n, _ => false)
  }

  function TakeBatch(c: AsyncOptions, s: State, next: WorkerPc): State {
    var n := Min(|s.queue.items|, AtLeastOne(c.maxBatch));
    s.(queue := s.queue.(items := s.queue.items[n..]),
       producers := WakeProducers(s.producers),
       w := s.w.(pc := next, batch := s.w.batch + s.queue.items[..n]),
       h := s.h.(evictions := s.h.evictions + Survivors(n)))
  }

  function WriteFirst(s: State, ok: bool, more: WorkerPc, finished: WorkerPc): State
    requires s.w.batch != []
  {
    s.(failures := if ok then s.failures else s.failures + 1,
       w := s.w.(pc := if |s.w.batch| == 1 then finished else more, batch := s.w.batch[1..]),
       h := s.h.(
         handed := s.h.handed + [s.w.batch[0]],
         landed := s.h.landed + [ok],
         failedWrites := if ok then s.h.failedWrites else s.h.failedWrites + 1))
  }

  function FlushWrapped(s: State, ok: bool, next: WorkerPc): State {
    s.(failures := if ok then s.failures else s.failures + 1,
       w := s.w.(pc := next),
       h := s.h.(
         flushedUpTo := |s.h.handed|,
         soundUpTo := if ok then |s.h.handed| else s.h.soundUpTo,
         failedFlushes := if ok then s.h.failedFlushes else s.h.failedFlushes + 1))
  }

  function Repeat(m: nat, n: int): (r: seq<nat>)
    ensures |r| == (if n > 0 then n else 0) && forall i :: 0 <= i < |r| ==> r[i] == m
  {
    seq(if n > 0 then n else 0, _ => m)
  }

  /** Loads the requested generation; `m` is what the newly seen generations are meant to cover. */
  function Load(s: State, m: nat): State {
    s.(w := s.w.(want := |s.flushers|),
       h := s.h.(covers := s.h.covers + Repeat(m, |s.flushers| - |s.h.covers|)))
  }

  function Decide(s: State): State {
    At(s, if s.w.want != s.w.lastSeen then Flushing else Waiting)
  }

  function FoundEmpty(s: State): State {
    s.(h := s.h.(mark := |s.h.accepted|))
  }

  function WorkerNext(c: AsyncOptions, s: State, ok: bool): State
    requires Enabled(s, Work(ok))
  {
    match s.w.pc
    case Waiting =>
      if !HasWork(s.queue) then At(s, Sleeping)
      else
        var s1 := s.(queue := s.queue.(kick := false));
        if s.queue.stop && s.queue.items == [] then At(s1, FinalDraining)
        else At(s1, if c.loadFirst then Loading else Draining)
    case Draining =>
      if s.queue.items != [] then TakeBatch(c, s, Writing)
      else if c.loadFirst then Decide(FoundEmpty(s))
      else At(FoundEmpty(s), Loading)
    case Writing => if s.w.batch == [] then At(s, Draining) else WriteFirst(s, ok, Writing, Draining)
    case Loading =>
      if c.loadFirst then At(Load(s, |s.h.accepted|), Draining)
      else Decide(Load(s, s.h.mark))
    case Flushing => FlushWrapped(s, ok, Storing)
    case Storing => s.(done := s.w.want, w := s.w.(lastSeen := s.w.want, pc := Locking))
    case Locking => At(s, Notifying)
    case Notifying => At(s.(flushers := WakeFlushers(s.flushers)), Waiting)
    case FinalDraining =>
      if s.queue.items != [] then TakeBatch(c, s, FinalWriting) else At(FoundEmpty(s), FinalFlushing)
    case FinalWriting =>
      if s.w.batch == [] then At(s, FinalDraining) else WriteFirst(s, ok, FinalWriting, FinalDraining)
    case FinalFlushing => FlushWrapped(s, ok, FinalLoading)
    case FinalLoading => At(Load(s, s.h.mark), FinalStoring)
    case FinalStoring => At(s.(done := s.w.want), FinalNotifying)
    case FinalNotifying => At(s.(flushers := WakeFlushers(MarkMissed(s.flushers))), Exited)
    case _ => s
  }

  // ----- runs -----

  predicate Feasible(c: AsyncOptions, s: State, es: seq<Event>)
    decreases |es|
  {
    es == [] || (Enabled(s, es[0]) && Feasible(c, Apply(c, s, es[0]), es[1..]))
  }

  function After(c: AsyncOptions, s: State, es: seq<Event>): State
    requires Feasible(c, s, es)
    decreases |es|
  {
    if es == [] then s else After(c, Apply(c, s, es[0]), es[1..])
  }

  ghost predicate Reachable(c: AsyncOptions, s: State) {
    exists es: seq<Event> :: Feasible(c, Init(), es) && After(c, Init(), es) == s
  }

  lemma {:induction false} AfterConcat(c: AsyncOptions, s: State, es: seq<Event>, fs: seq<Event>)
    requires Feasible(c, s, es) && Feasible(c, After(c, s, es), fs)
    ensures Feasible(c, s, es + fs) && After(c, s, es + fs) == After(c, After(c, s, es), fs)
    decreases |es|
  {
    if es == [] {
      assert es + fs == fs;
    } else {
      assert (es + fs)[0] == es[0] && (es + fs)[1..] == es[1..] + fs;
      AfterConcat(c, Apply(c, s, es[0]), es[1..], fs);
    }
  }
}
