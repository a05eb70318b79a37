/** What a client can do about the window: flush twice. */
module AsyncRepeatedFlush {
  import opened AsyncSink
  import opened AsyncInvariants
  import opened AsyncGuarantees

  /** When the worker is about to load, whatever an earlier load has seen began before the queue was last
      found empty. */
  predicate LoadedBeforeMark(c: AsyncOptions, s: State) {
    !c.loadFirst && s.w.pc.Loading? ==>
      forall f :: 0 <= f < |s.flushers| && f < |s.h.covers| ==> s.flushers[f].start <= s.h.mark
  }

  lemma LoadedWork(c: AsyncOptions, s: State, ok: bool)
    requires Control(c, s) && Cleanliness(c, s.flushers, s.w, s.queue.items, s.h) && Enabled(s, Work(ok))
    ensures LoadedBeforeMark(c, WorkerNext(c, s, ok))
  {
    if s.w.pc.Draining? {
      forall f | 0 <= f < |s.flushers| ensures s.flushers[f].start <= |s.h.accepted| {
        assert CleanMeansCovered(c, s.flushers[f], f, s.w.pc, s.h);
      }
    }
  }

  lemma LoadedStep(c: AsyncOptions, s: State, e: Event)
    requires Inv(c, s) && LoadedBeforeMark(c, s) && Enabled(s, e)
    ensures LoadedBeforeMark(c, Apply(c, s, e))
  {
    var t := Apply(c, s, e);
    if e.Work? {
      LoadedWork(c, s, e.ok);
    } else {
      forall f | 0 <= f < |t.flushers| && f < |t.h.covers|
        ensures f < |s.flushers| && t.flushers[f].start == s.flushers[f].start
      {
        FlusherKeepsItsStart(c, s, e, f);
      }
      OthersKeepMark(c, s, e);
    }
  }

  lemma OthersKeepMark(c: AsyncOptions, s: State, e: Event)
    requires Enabled(s, e) && !e.Work?
    ensures var t := Apply(c, s, e);
            && t.h.mark == s.h.mark && t.h.covers == s.h.covers && |s.h.accepted| <= |t.h.accepted|
            && (t.w.pc.Loading? <==> s.w.pc.Loading?)
  {
    if IsClient(e) {
      ClientIsQuiet(c, s, e);
    }
  }

  lemma {:induction false} LoadedAlong(c: AsyncOptions, s: State, es: seq<Event>)
    requires Inv(c, s) && LoadedBeforeMark(c, s) && Feasible(c, s, es)
    ensures LoadedBeforeMark(c, After(c, s, es))
    decreases |es|
  {
    if es != [] {
      LoadedStep(c, s, es[0]);
      StepInv(c, s, es[0]);
      LoadedAlong(c, Apply(c, s, es[0]), es[1..]);
    }
  }

  /** Generation f + 1 covers the first m accepted records, or will when it is loaded. */
  predicate WillCover(c: AsyncOptions, s: State, f: nat, m: nat) {
    && m <= |s.h.accepted|
    && if f < |s.h.covers| then m <= s.h.covers[f] else (!c.loadFirst && s.w.pc.Loading? ==> m <= s.h.mark)
  }

  lemma WillCoverWork(c: AsyncOptions, s: State, ok: bool, f: nat, m: nat)
    requires Control(c, s) && Coverage(c, s.w, s.done, s.h) && Enabled(s, Work(ok))
    requires f < |s.flushers| && WillCover(c, s, f, m)
    ensures WillCover(c, WorkerNext(c, s, ok), f, m)
  {
  }

  lemma WillCoverStep(c: AsyncOptions, s: State, e: Event, f: nat, m: nat)
    requires Inv(c, s) && Enabled(s, e) && f < |s.flushers| && WillCover(c, s, f, m)
    ensures f < |Apply(c, s, e).flushers| && WillCover(c, Apply(c, s, e), f, m)
  {
    FlusherKeepsItsStart(c, s, e, f);
    if e.Work? {
      WillCoverWork(c, s, e.ok, f, m);
    } else {
      OthersKeepMark(c, s, e);
    }
  }

  lemma {:induction false} WillCoverAlong(c: AsyncOptions, s: State, es: seq<Event>, f: nat, m: nat)
    requires Inv(c, s) && Feasible(c, s, es) && f < |s.flushers| && WillCover(c, s, f, m)
    ensures f < |After(c, s, es).flushers| && WillCover(c, After(c, s, es), f, m)
    decreases |es|
  {
    if es != [] {
      WillCoverStep(c, s, es[0], f, m);
      StepInv(c, s, es[0]);
      WillCoverAlong(c, Apply(c, s, es[0]), es[1..], f, m);
    }
  }

  lemma ReturnedFlushCoversNext(c: AsyncOptions, s: State, f: nat)
    requires Reachable(c, s) && f < |s.flushers| && s.flushers[f].pc.Flushed?
    ensures var t := Apply(c, s, FlushCall); Inv(c, t) && WillCover(c, t, |s.flushers|, s.flushers[f].start)
  {
    ReachableInv(c, s);
    var before :| Feasible(c, Init(), before) && After(c, Init(), before) == s;
    InitInv(c);
    LoadedAlong(c, Init(), before);
    FlushAsCoded(c, s, f);
    assert CleanMeansCovered(c, s.flushers[f], f, s.w.pc, s.h);
    StepInv(c, s, FlushCall);
  }

  lemma CoveredWhenFlushed(c: AsyncOptions, t: State, f: nat, m: nat)
    requires Inv(c, t) && f < |t.flushers| && t.flushers[f].pc.Flushed? && WillCover(c, t, f, m)
    ensures FlushedThrough(t.h, m)
  {
    assert WillWake(t.flushers[f], f + 1, t.w.pc, t.done);
    SettledBelow(t.h, m, t.h.covers[f]);
    SettledMeansAccounted(c, t, m, t.h.flushedUpTo);
  }

  /** Flushing twice is enough, even in the window: a flush that begins after another has returned delivers,
      when it returns in turn, the documented effect for everything accepted before that other one began. */
  lemma SecondFlushHonoursFirst(c: AsyncOptions, s: State, f: nat, es: seq<Event>)
    requires Reachable(c, s) && f < |s.flushers| && s.flushers[f].pc.Flushed?
    requires Feasible(c, Apply(c, s, FlushCall), es)
    requires var t := After(c, Apply(c, s, FlushCall), es);
             |s.flushers| < |t.flushers| && t.flushers[|s.flushers|].pc.Flushed?
    ensures FlushedThrough(After(c, Apply(c, s, FlushCall), es).h, s.flushers[f].start)
  {
    var n, m, s1 := |s.flushers|, s.flushers[f].start, Apply(c, s, FlushCall);
    ReturnedFlushCoversNext(c, s, f);
    WillCoverAlong(c, s1, es, n, m);
    RunInv(c, s1, es);
    CoveredWhenFlushed(c, After(c, s1, es), n, m);
  }
}
