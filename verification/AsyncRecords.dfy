/** Whose records the queue holds, and which records it may lose. */
module AsyncRecords {
  import opened Records
  import opened QueueSpec
  import opened AsyncSink
  import opened AsyncInvariants

  // ----- what one attempt does, policy by policy -----

  /** A producer about to try, with the queue not stopped. */
  predicate Attempts(s: State, p: nat) {
    p < |s.producers| && s.producers[p].pc.Trying? && !s.queue.stop
  }

  /** With room in the queue the record is appended; a full queue puts the producer to sleep, loses the new
      record or loses the oldest one. Stop flag, kick and batch are untouched, and so are the other producers. */
  lemma AttemptEffect(c: AsyncOptions, s: State, p: nat)
    requires Reachable(c, s) && Attempts(s, p)
    ensures Enabled(s, ProducerStep(p)) && |s.queue.items| <= Capacity(c)
    ensures var t, r := Apply(c, s, ProducerStep(p)), s.producers[p].record;
            && t.queue.stop == s.queue.stop && t.queue.kick == s.queue.kick && t.w.batch == s.w.batch
            && |t.producers| == |s.producers| && t.producers[p].record == r
            && (forall q :: 0 <= q < |s.producers| && q != p ==> t.producers[q] == s.producers[q])
            && if |s.queue.items| < Capacity(c) then
                 && t.queue.items == s.queue.items + [r] && t.h.accepted == s.h.accepted + [r]
                 && t.h.evictions == s.h.evictions && t.h.rejected == s.h.rejected && t.producers[p].pc.Written?
               else match c.policy
                 case Block =>
                   t.queue.items == s.queue.items && t.h == s.h && t.producers[p].pc.Blocked?
                 case DropNewest =>
                   && t.queue.items == s.queue.items && t.h.accepted == s.h.accepted
                   && t.h.evictions == s.h.evictions && t.h.rejected == s.h.rejected + 1
                   && t.producers[p].pc == Counting(1)
                 case DropOldest =>
                   && t.queue.items == s.queue.items[1..] + [r] && t.h.accepted == s.h.accepted + [r]
                   && t.h.evictions == s.h.evictions + [true] && t.h.rejected == s.h.rejected
                   && t.producers[p].pc == Counting(1)
  {
    ReachableInv(c, s);
  }

  /** A draining step moves the oldest records, as many as a batch may hold, and wakes every blocked producer. */
  lemma BatchEffect(c: AsyncOptions, s: State, ok: bool)
    requires Reachable(c, s) && s.w.pc.Draining? && s.queue.items != []
    ensures Enabled(s, Work(ok)) && s.w.batch == []
    ensures var t := Apply(c, s, Work(ok));
            && t.w.batch + t.queue.items == s.queue.items
            && |t.w.batch| <= AtLeastOne(c.maxBatch)
            && (t.queue.items != [] ==> |t.w.batch| == AtLeastOne(c.maxBatch))
            && t.w.pc.Writing? && t.queue.stop == s.queue.stop && t.queue.kick == s.queue.kick
            && (forall p :: 0 <= p < |t.producers| ==> !t.producers[p].pc.Blocked?)
  {
    ReachableInv(c, s);
    var n := Min(|s.queue.items|, AtLeastOne(c.maxBatch));
    assert s.queue.items == s.queue.items[..n] + s.queue.items[n..];
    assert s.w.batch + s.queue.items[..n] == s.queue.items[..n];
  }

  // ----- what can be lost -----

  ghost function Losses(h: Past): nat {
    h.rejected + (|h.evictions| - KeptCount(h.evictions))
  }

  /** Before the stop a record is lost, old or new, only when the queue is full and the policy is not Block. */
  lemma LostOnlyWhenFull(c: AsyncOptions, s: State, e: Event)
    requires Reachable(c, s) && !s.queue.stop && Enabled(s, e)
    ensures Losses(Apply(c, s, e).h) >= Losses(s.h)
    ensures Losses(Apply(c, s, e).h) > Losses(s.h) ==> |s.queue.items| == Capacity(c) && c.policy != Block
  {
    ReachableInv(c, s);
    match e {
      case ProducerStep(p) => KeptCountAppend(s.h.evictions, true);
      case Work(ok) => NoLossAtWork(c, s, ok);
      case FlushCall =>
      case _ => ClientIsQuiet(c, s, e);
    }
  }

  lemma NoLossAtWork(c: AsyncOptions, s: State, ok: bool)
    requires Control(c, s) && Enabled(s, Work(ok))
    ensures Losses(WorkerNext(c, s, ok).h) == Losses(s.h)
  {
    if !MovesRecords(s) {
      OtherWorkSameRecords(c, s, ok);
    } else if !s.w.pc.Writing? {
      KeptCountSurvivors(s.h.evictions, Min(|s.queue.items|, AtLeastOne(c.maxBatch)));
    }
  }

  lemma RejectsStep(c: AsyncOptions, s: State, e: Event)
    requires Control(c, s) && Enabled(s, e) && c.policy == DropOldest
    requires !s.queue.stop ==> s.h.rejected == 0
    ensures var t := Apply(c, s, e); !t.queue.stop ==> t.h.rejected == 0
  {
    if IsClient(e) {
      ClientIsQuiet(c, s, e);
    } else if e.Work? {
      RejectsWork(c, s, e.ok);
    }
  }

  lemma RejectsWork(c: AsyncOptions, s: State, ok: bool)
    requires Enabled(s, Work(ok))
    ensures WorkerNext(c, s, ok).h.rejected == s.h.rejected && WorkerNext(c, s, ok).queue.stop == s.queue.stop
  {
  }

  lemma {:induction false} RejectsAlong(c: AsyncOptions, s: State, es: seq<Event>)
    requires Inv(c, s) && Feasible(c, s, es) && c.policy == DropOldest && (!s.queue.stop ==> s.h.rejected == 0)
    ensures !After(c, s, es).queue.stop ==> After(c, s, es).h.rejected == 0
    decreases |es|
  {
    if es != [] {
      RejectsStep(c, s, es[0]);
      StepInv(c, s, es[0]);
      RejectsAlong(c, Apply(c, s, es[0]), es[1..]);
    }
  }

  /** DropOldest admits every record offered before the stop. */
  lemma DropOldestRejectsNothing(c: AsyncOptions, s: State)
    requires Reachable(c, s) && c.policy == DropOldest && !s.queue.stop
    ensures s.h.rejected == 0
  {
    var es :| Feasible(c, Init(), es) && After(c, Init(), es) == s;
    InitInv(c);
    RejectsAlong(c, Init(), es);
  }

  // ----- whose records were accepted -----

  predicate IsFinished(s: State, p: nat) {
    p < |s.producers| && (s.producers[p].pc.Counting? || s.producers[p].pc.Written?)
  }

  /** Each accepted record is the one its own writer came with, no writer has two, and every write that has
      finished was either accepted or refused, never both. */
  ghost predicate Authors(s: State) {
    && |s.h.writers| == |s.h.accepted|
    && (forall i :: 0 <= i < |s.h.writers| ==>
          IsFinished(s, s.h.writers[i]) && s.h.accepted[i] == s.producers[s.h.writers[i]].record)
    && (forall i, j :: 0 <= i < j < |s.h.writers| ==> s.h.writers[i] != s.h.writers[j])
    && |s.h.refused| == s.h.rejected
    && (forall p :: p in s.h.refused ==> IsFinished(s, p) && p !in s.h.writers)
    && (forall p: nat :: IsFinished(s, p) ==> p in s.h.writers || p in s.h.refused)
  }

  /** Records and finished writes of s are those of t. */
  ghost predicate SameWrites(s: State, t: State) {
    && t.h.accepted == s.h.accepted && t.h.writers == s.h.writers
    && t.h.refused == s.h.refused && t.h.rejected == s.h.rejected
    && |s.producers| <= |t.producers|
    && (forall p :: 0 <= p < |s.producers| ==> t.producers[p].record == s.producers[p].record)
    && (forall p: nat :: IsFinished(t, p) <==> IsFinished(s, p))
  }

  lemma SameWritesKeep(s: State, t: State)
    requires Authors(s) && SameWrites(s, t)
    ensures Authors(t)
  {
  }

  lemma AuthorsAttempt(c: AsyncOptions, s: State, p: nat)
    requires Authors(s) && Enabled(s, ProducerStep(p)) && s.producers[p].pc.Trying?
    ensures Authors(ProducerNext(c, s, p))
  {
    var t, a := ProducerNext(c, s, p), Outcome(s.queue, c.policy, Capacity(c));
    assert !IsFinished(s, p);
    assert forall q: nat :: q != p ==> (IsFinished(t, q) <==> IsFinished(s, q));
    if a.Finished? && a.enqueued {
      AuthorsAccepted(s, t, p);
    } else if a.Finished? {
      AuthorsRefused(s, t, p);
    } else {
      SameWritesKeep(s, t);
    }
  }

  /** From s to t, the write of p has finished and nothing else. */
  ghost predicate OnlyFinishes(s: State, t: State, p: nat) {
    && p < |s.producers| == |t.producers|
    && (forall q :: 0 <= q < |s.producers| ==> t.producers[q].record == s.producers[q].record)
    && !IsFinished(s, p) && IsFinished(t, p)
    && (forall q: nat :: q != p ==> (IsFinished(t, q) <==> IsFinished(s, q)))
  }

  lemma AuthorsAccepted(s: State, t: State, p: nat)
    requires Authors(s) && OnlyFinishes(s, t, p)
    requires t.h.accepted == s.h.accepted + [s.producers[p].record] && t.h.writers == s.h.writers + [p]
    requires t.h.refused == s.h.refused && t.h.rejected == s.h.rejected
    ensures Authors(t)
  {
    assert p !in s.h.writers && p !in s.h.refused;
    assert forall q :: q in t.h.writers <==> q in s.h.writers || q == p;
  }

  lemma AuthorsRefused(s: State, t: State, p: nat)
    requires Authors(s) && OnlyFinishes(s, t, p)
    requires t.h.accepted == s.h.accepted && t.h.writers == s.h.writers
    requires t.h.refused == s.h.refused + {p} && t.h.rejected == s.h.rejected + 1
    ensures Authors(t)
  {
    assert p !in s.h.writers && p !in s.h.refused;
  }

  lemma AuthorsStep(c: AsyncOptions, s: State, e: Event)
    requires Authors(s) && Enabled(s, e)
    ensures Authors(Apply(c, s, e))
  {
    if e.ProducerStep? && s.producers[e.p].pc.Trying? {
      AuthorsAttempt(c, s, e.p);
    } else {
      OtherStepsSameWrites(c, s, e);
      SameWritesKeep(s, Apply(c, s, e));
    }
  }

  lemma OtherStepsSameWrites(c: AsyncOptions, s: State, e: Event)
    requires Enabled(s, e) && (e.ProducerStep? ==> !s.producers[e.p].pc.Trying?)
    ensures SameWrites(s, Apply(c, s, e))
  {
    if e.Work? {
      WorkSameWrites(c, s, e.ok);
    }
  }

  lemma WorkSameWrites(c: AsyncOptions, s: State, ok: bool)
    requires Enabled(s, Work(ok))
    ensures SameWrites(s, WorkerNext(c, s, ok))
  {
  }

  lemma {:induction false} AuthorsAlong(c: AsyncOptions, s: State, es: seq<Event>)
    requires Authors(s) && Feasible(c, s, es)
    ensures Authors(After(c, s, es))
    decreases |es|
  {
    if es != [] {
      AuthorsStep(c, s, es[0]);
      AuthorsAlong(c, Apply(c, s, es[0]), es[1..]);
    }
  }

  /** In every reachable state the accepted records are records written by pairwise distinct calls, each the
      record of its own call, and every call that has finished was accepted or refused. */
  lemma AcceptedAreWritten(c: AsyncOptions, s: State)
    requires Reachable(c, s)
    ensures |s.h.writers| == |s.h.accepted|
    ensures forall i :: 0 <= i < |s.h.writers| ==>
              s.h.writers[i] < |s.producers| && s.h.accepted[i] == s.producers[s.h.writers[i]].record
              && HasFinished(s.producers[s.h.writers[i]]) == 1
    ensures forall i, j :: 0 <= i < j < |s.h.writers| ==> s.h.writers[i] != s.h.writers[j]
    ensures |s.h.refused| == s.h.rejected && forall p :: p in s.h.refused ==> p !in s.h.writers
    ensures forall p :: 0 <= p < |s.producers| && HasFinished(s.producers[p]) == 1 ==>
              p in s.h.writers || p in s.h.refused
  {
    var es :| Feasible(c, Init(), es) && After(c, Init(), es) == s;
    AuthorsAlong(c, Init(), es);
    forall p | 0 <= p < |s.producers| && HasFinished(s.producers[p]) == 1 ensures p in s.h.writers || p in s.h.refused {
      assert IsFinished(s, p);
    }
  }

  lemma RecordsStay(c: AsyncOptions, s: State, e: Event)
    requires Enabled(s, e)
    ensures |s.producers| <= |Apply(c, s, e).producers|
    ensures forall p :: 0 <= p < |s.producers| ==> Apply(c, s, e).producers[p].record == s.producers[p].record
  {
    if !(e.ProducerStep? && s.producers[e.p].pc.Trying?) {
      OtherStepsSameWrites(c, s, e);
    }
  }

  lemma {:induction false} RecordsStayAlong(c: AsyncOptions, s: State, es: seq<Event>, p: nat)
    requires Feasible(c, s, es) && p < |s.producers|
    ensures p < |After(c, s, es).producers| && After(c, s, es).producers[p].record == s.producers[p].record
    decreases |es|
  {
    if es != [] {
      RecordsStay(c, s, es[0]);
      RecordsStayAlong(c, Apply(c, s, es[0]), es[1..], p);
    }
  }

  /** The call begun by WriteCall(r) has r as its record in every continuation; if it has been accepted there,
      r is at exactly one place of the accepted records that is its own. */
  lemma WriteKeepsItsRecord(c: AsyncOptions, s: State, r: LogRecord, es: seq<Event>)
    requires Reachable(c, s) && Feasible(c, Apply(c, s, WriteCall(r)), es)
    ensures var p, t := |s.producers|, After(c, Apply(c, s, WriteCall(r)), es);
            && p < |t.producers| && t.producers[p].record == r
            && |t.h.writers| == |t.h.accepted|
            && forall i :: 0 <= i < |t.h.writers| && t.h.writers[i] == p ==> t.h.accepted[i] == r
  {
    var s1 := Apply(c, s, WriteCall(r));
    var before :| Feasible(c, Init(), before) && After(c, Init(), before) == s;
    AuthorsAlong(c, Init(), before);
    AuthorsStep(c, s, WriteCall(r));
    AuthorsAlong(c, s1, es);
    RecordsStayAlong(c, s1, es, |s.producers|);
  }
}
