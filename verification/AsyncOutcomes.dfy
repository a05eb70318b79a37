/** What flush() gives when the wrapped sink may throw: which records were written, and not only handed out,
    and were flushed afterwards by a flush that did not throw. */
module AsyncOutcomes {
  import opened Records
  import opened QueueSpec
  import opened AsyncSink
  import opened AsyncInvariants
  import opened AsyncGuarantees

  ghost function Thrown(landed: seq<bool>): nat {
    if landed == [] then 0 else Thrown(landed[..|landed| - 1]) + (if landed[|landed| - 1] then 0 else 1)
  }

  lemma ThrownAppend(landed: seq<bool>, ok: bool)
    ensures Thrown(landed + [ok]) == Thrown(landed) + (if ok then 0 else 1)
  {
    assert (landed + [ok])[..|landed|] == landed;
  }

  lemma {:induction false} NoneThrown(landed: seq<bool>)
    ensures Thrown(landed) == 0 <==> forall k :: 0 <= k < |landed| ==> landed[k]
  {
    if landed != [] {
      NoneThrown(landed[..|landed| - 1]);
    }
  }

  /** The outcomes of writes and flushes are what the failure counts say. */
  ghost predicate Outcomes(h: Past) {
    && |h.landed| == |h.handed|
    && h.failedWrites == Thrown(h.landed)
    && h.soundUpTo <= h.flushedUpTo
    && (h.failedFlushes == 0 ==> h.soundUpTo == h.flushedUpTo)
  }

  lemma OutcomesWork(c: AsyncOptions, s: State, ok: bool)
    requires Control(c, s) && Outcomes(s.h) && s.h.flushedUpTo <= |s.h.handed| && Enabled(s, Work(ok))
    ensures Outcomes(WorkerNext(c, s, ok).h)
  {
    if s.w.pc.Writing? {
      OutcomesWrite(s, ok);
    }
  }

  lemma OutcomesWrite(s: State, ok: bool)
    requires Outcomes(s.h) && s.w.batch != []
    ensures Outcomes(WriteFirst(s, ok, Writing, Draining).h)
  {
    ThrownAppend(s.h.landed, ok);
  }

  lemma OutcomesStep(c: AsyncOptions, s: State, e: Event)
    requires Inv(c, s) && Outcomes(s.h) && Enabled(s, e)
    ensures Outcomes(Apply(c, s, e).h)
  {
    if IsClient(e) {
      ClientIsQuiet(c, s, e);
    } else if e.Work? {
      OutcomesWork(c, s, e.ok);
    }
  }

  lemma {:induction false} OutcomesAlong(c: AsyncOptions, s: State, es: seq<Event>)
    requires Inv(c, s) && Outcomes(s.h) && Feasible(c, s, es)
    ensures Outcomes(After(c, s, es).h)
    decreases |es|
  {
    if es != [] {
      OutcomesStep(c, s, es[0]);
      StepInv(c, s, es[0]);
      OutcomesAlong(c, Apply(c, s, es[0]), es[1..]);
    }
  }

  lemma ReachableOutcomes(c: AsyncOptions, s: State)
    requires Reachable(c, s)
    ensures Inv(c, s) && Outcomes(s.h)
  {
    var es :| Feasible(c, Init(), es) && After(c, Init(), es) == s;
    InitInv(c);
    InitOutcomes();
    RunInv(c, Init(), es);
    OutcomesAlong(c, Init(), es);
  }

  lemma InitOutcomes()
    ensures Outcomes(Init().h)
  {
  }

  // ----- written, record by record -----

  /** Record i was evicted, or its own write returned without throwing and a later flush of the wrapped sink
      did so too. */
  ghost predicate IsWritten(h: Past, i: nat) {
    && Accounted(h, i, h.soundUpTo)
    && (h.evictions[i] || (var at := KeptCount(h.evictions[..i]); at < |h.landed| && h.landed[at]))
  }

  /** The documented promise of flush() about the first m accepted records. */
  ghost predicate WrittenThrough(h: Past, m: nat) {
    forall i :: 0 <= i < m ==> IsWritten(h, i)
  }

  /** Every place below the survivors of a prefix is that of a survivor in it. */
  lemma {:induction false} SurvivorAt(gone: seq<bool>, m: nat, k: nat) returns (i: nat)
    requires m <= |gone| && k < KeptCount(gone[..m])
    ensures i < m && !gone[i] && KeptCount(gone[..i]) == k
    decreases m
  {
    assert gone[..m][..m - 1] == gone[..m - 1];
    if k < KeptCount(gone[..m - 1]) {
      i := SurvivorAt(gone, m - 1, k);
    } else {
      i := m - 1;
    }
  }

  /** The place of a survivor is below the survivors of any prefix that holds it. */
  lemma PlaceBelow(gone: seq<bool>, i: nat, m: nat)
    requires i < m <= |gone| && !gone[i]
    ensures KeptCount(gone[..i]) < KeptCount(gone[..m])
  {
    assert gone[..i + 1][..i] == gone[..i];
    KeptCountMonotone(gone, i + 1, m);
  }

  /** The promise holds for a settled prefix exactly if none of the writes of its survivors threw and the
      wrapped sink has been flushed since without throwing. */
  lemma WrittenIffNoneThrew(c: AsyncOptions, s: State, m: nat)
    requires History(c, s.queue, s.w.batch, s.h) && Outcomes(s.h) && Durable(s.h, m)
    requires s.h.flushedUpTo <= |s.h.handed|
    ensures var survivors := KeptCount(s.h.evictions[..m]);
            WrittenThrough(s.h, m) <==>
              (survivors <= s.h.soundUpTo && forall k :: 0 <= k < survivors ==> s.h.landed[k])
  {
    var h, survivors := s.h, KeptCount(s.h.evictions[..m]);
    if WrittenThrough(h, m) {
      forall k | 0 <= k < survivors ensures k < h.soundUpTo && h.landed[k] {
        var i := SurvivorAt(h.evictions, m, k);
        assert IsWritten(h, i);
      }
      assert survivors > 0 ==> h.landed[survivors - 1];
    }
    if survivors <= h.soundUpTo && forall k :: 0 <= k < survivors ==> h.landed[k] {
      SettledMeansAccounted(c, s, m, h.soundUpTo);
      forall i | 0 <= i < m ensures IsWritten(h, i) {
        if !h.evictions[i] {
          PlaceBelow(h.evictions, i, m);
        }
      }
    }
  }

  /** For every flush that has returned: the documented promise about all it covers holds exactly if none of
      their writes threw and a flush that did not throw came after them. */
  lemma PromiseIffNoneThrew(c: AsyncOptions, s: State, f: nat)
    requires Reachable(c, s) && f < |s.flushers| && s.flushers[f].pc.Flushed?
    ensures f < |s.h.covers| <= |s.flushers| && s.h.covers[f] <= |s.h.evictions|
    ensures var survivors := KeptCount(s.h.evictions[..s.h.covers[f]]);
            && survivors <= |s.h.landed|
            && (WrittenThrough(s.h, s.h.covers[f]) <==>
                  (survivors <= s.h.soundUpTo && forall k :: 0 <= k < survivors ==> s.h.landed[k]))
  {
    ReachableOutcomes(c, s);
    FlushAsCoded(c, s, f);
    assert Durable(s.h, s.h.covers[f]);
    WrittenIffNoneThrew(c, s, s.h.covers[f]);
  }

  // ----- what a caller can check: the failure counter -----

  lemma NoFailureMeansWritten(h: Past, m: nat)
    requires Outcomes(h) && h.failedWrites == 0 && h.failedFlushes == 0 && FlushedThrough(h, m)
    ensures WrittenThrough(h, m)
  {
    NoneThrown(h.landed);
    forall i | 0 <= i < m ensures IsWritten(h, i) {
      assert Accounted(h, i, h.flushedUpTo);
    }
  }

  /** Whenever the flush begun in s returns with the failure counter at 0, everything accepted before it has
      been written, or evicted, and flushed. */
  ghost predicate PromiseKept(c: AsyncOptions, s: State) {
    forall es: seq<Event> :: Feasible(c, Apply(c, s, FlushCall), es) ==>
      var t := After(c, Apply(c, s, FlushCall), es);
      |s.flushers| < |t.flushers| && t.flushers[|s.flushers|].pc.Flushed? && t.failures == 0 ==>
        WrittenThrough(t.h, |s.h.accepted|)
  }

  lemma HonouredIsKept(c: AsyncOptions, s: State)
    requires Reachable(c, s) && AlwaysHonoured(c, s)
    ensures PromiseKept(c, s)
  {
    var f, s1 := |s.flushers|, Apply(c, s, FlushCall);
    ReachableOutcomes(c, s);
    StepInv(c, s, FlushCall);
    forall es: seq<Event> | Feasible(c, s1, es) && f < |After(c, s1, es).flushers|
                         && After(c, s1, es).flushers[f].pc.Flushed? && After(c, s1, es).failures == 0
      ensures WrittenThrough(After(c, s1, es).h, |s.h.accepted|)
    {
      RunInv(c, s1, es);
      OutcomesAlong(c, s1, es);
      NoFailureMeansWritten(After(c, s1, es).h, |s.h.accepted|);
    }
  }

  /** The documented promise in terms a caller can check: with no failure counted so far, a flush that returns
      with none counted has kept the promise in every continuation if and only if it did not begin while
      the worker was between finding the queue empty and loading the generation, with records queued. */
  lemma PromiseKeptIffOutsideWindow(c: AsyncOptions, s: State)
    requires Reachable(c, s) && !c.loadFirst && s.failures == 0
    ensures PromiseKept(c, s) <==> !(s.w.pc.Loading? && s.queue.items != [])
  {
    if InWindow(c, s) {
      ReachableInv(c, s);
      var es := WindowRun(c, s);
      var t := After(c, Apply(c, s, FlushCall), es);
      var last := |s.h.accepted| - 1;
      assert !IsWritten(t.h, last);
      assert !WrittenThrough(t.h, |s.h.accepted|);
    } else {
      OutsideWindowHonoured(c, s);
      HonouredIsKept(c, s);
    }
  }

  /** In the other order of the worker loop the promise is kept wherever the flush begins. */
  lemma LoadFirstKeepsPromise(c: AsyncOptions, s: State)
    requires Reachable(c, s) && c.loadFirst
    ensures PromiseKept(c, s)
  {
    LoadFirstHonoured(c, s);
    HonouredIsKept(c, s);
  }

  // ----- a run in which the wrapped sink throws -----

  lemma OneWritten(c: AsyncOptions, r: LogRecord) returns (s: State)
    ensures Reachable(c, s) && s.w == Worker(Waiting, [], 0, 0) && s.queue == Queue([r], false, false)
    ensures s.flushers == [] && s.flushLock.None? && s.done == 0 && s.failures == 0
    ensures s.h == Init().h.(accepted := [r], writers := [0])
  {
    TwoSteps(c, Init(), WriteCall(r), ProducerStep(0));
    s := After(c, Init(), [WriteCall(r), ProducerStep(0)]);
  }

  /** The worker takes the record, writes it and finds the queue empty ... */
  lemma WriteOne(c: AsyncOptions, s: State, r: LogRecord, ok: bool) returns (es: seq<Event>)
    requires !c.loadFirst && s.w == Worker(Waiting, [], 0, 0) && s.queue == Queue([r], false, true)
    requires s.h == Init().h.(accepted := [r], writers := [0]) && s.failures == 0
    ensures Feasible(c, s, es)
    ensures var t := After(c, s, es);
            && t.flushers == s.flushers && t.flushLock == s.flushLock && t.w == Worker(Loading, [], 0, 0)
            && t.failures == (if ok then 0 else 1) && t.h.evictions == [false] && t.h.landed == [ok]
            && |t.h.handed| == 1 && t.h.soundUpTo == 0
  {
    var take, write := [Work(true), Work(true)], [Work(ok), Work(true)];
    TwoSteps(c, s, take[0], take[1]);
    var s1 := After(c, s, take);
    assert s1.w == Worker(Writing, [r], 0, 0) && s1.queue.items == [] && s1.h.evictions == [false];
    TwoSteps(c, s1, write[0], write[1]);
    AfterConcat(c, s, take, write);
    es := take + write;
  }

  /** ... then it loads the generation, flushes and stores it. */
  lemma FlushOne(c: AsyncOptions, s: State, ok: bool) returns (es: seq<Event>)
    requires !c.loadFirst && s.w == Worker(Loading, [], 0, 0) && |s.flushers| == 1
    ensures Feasible(c, s, es)
    ensures var t := After(c, s, es);
            && t.flushers == s.flushers && t.flushLock == s.flushLock && t.done == 1
            && t.failures == s.failures + (if ok then 0 else 1)
            && t.h.evictions == s.h.evictions && t.h.landed == s.h.landed
            && t.h.soundUpTo == (if ok then |s.h.handed| else s.h.soundUpTo)
  {
    var load := [Work(true), Work(ok)];
    TwoSteps(c, s, load[0], load[1]);
    assert After(c, s, load).w.pc.Storing? && After(c, s, load).w.want == 1;
    Extend(c, s, load, Work(true));
    es := load + [Work(true)];
  }

  /** The promise is broken outside the window, and in either order of failures: whenever the write or the flush
      of the wrapped sink throws, a run with one record and one flush returns from the flush, with the
      failures counted and the record handed out, but not written and flushed. */
  lemma ThrowingSinkBreaksPromise(c: AsyncOptions, r: LogRecord, writeOk: bool, flushOk: bool)
    returns (s: State, es: seq<Event>)
    requires !c.loadFirst && !(writeOk && flushOk)
    ensures Reachable(c, s) && !InWindow(c, s) && s.failures == 0 && s.h.accepted == [r] && s.flushers == []
    ensures var s1 := Apply(c, s, FlushCall);
            && Feasible(c, s1, es)
            && var t := After(c, s1, es);
               && |t.flushers| == 1 && t.flushers[0].pc.Flushed?
               && t.failures == (if writeOk then 0 else 1) + (if flushOk then 0 else 1)
               && FlushedThrough(t.h, 1) && !WrittenThrough(t.h, 1)
  {
    s := OneWritten(c, r);
    var s1 := Apply(c, s, FlushCall);
    var kick, test := [FlushStep(0), FlushStep(0)], [FlushStep(0), FlushStep(0)];
    TwoSteps(c, s1, kick[0], kick[1]);
    var s2 := After(c, s1, kick);
    assert s2.flushers[0].pc.AtLock? && s2.w == s.w;
    var write := WriteOne(c, s2, r, writeOk);
    var s3 := After(c, s2, write);
    var flush := FlushOne(c, s3, flushOk);
    var s4 := After(c, s3, flush);
    TwoSteps(c, s4, test[0], test[1]);
    AfterConcat(c, s1, kick, write);
    AfterConcat(c, s1, kick + write, flush);
    AfterConcat(c, s1, kick + write + flush, test);
    es := kick + write + flush + test;
    var t := After(c, s1, es);
    assert t.h == s4.h;
    HonouredHere(c, s, es);
    assert !IsWritten(t.h, 0);
  }

  lemma HonouredHere(c: AsyncOptions, s: State, es: seq<Event>)
    requires Reachable(c, s) && !InWindow(c, s) && Feasible(c, Apply(c, s, FlushCall), es)
    requires var t := After(c, Apply(c, s, FlushCall), es);
             |s.flushers| < |t.flushers| && t.flushers[|s.flushers|].pc.Flushed?
    ensures FlushedThrough(After(c, Apply(c, s, FlushCall), es).h, |s.h.accepted|)
  {
    OutsideWindowHonoured(c, s);
  }
}
