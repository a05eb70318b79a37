/** Concurrent reads of effective settings as a transition system: a reader locks the loggers of its chain
    child to parent, keeping each locked while it reads the next, and setters interleave between its steps
    wherever they can take the lock they need. */
module LockedWalk {
  import opened Records
  import opened LoggerNames
  import opened Loggers

  /** A call that reads an effective setting: it holds the first `held` locks of the chain of `start`. Once
      it has the result it gives them back, the last taken first. */
  datatype Reader<T> = Reader(start: string, held: nat, result: Option<T>)

  datatype State<T> = State(settings: map<string, Setting<T>>, readers: seq<Reader<T>>)

  datatype Event<T> = Begin(name: string) | Read(k: nat) | Release(k: nat) | Change(name: string, setting: Setting<T>)

  predicate IsReading<T>(r: Reader<T>) {
    r.result.None? && r.held < |Chain(r.start)|
  }

  predicate HoldsLock<T>(r: Reader<T>, name: string) {
    r.held <= |Chain(r.start)| && name in Chain(r.start)[..r.held]
  }

  predicate IsLocked<T>(s: State<T>, name: string) {
    exists k :: 0 <= k < |s.readers| && HoldsLock(s.readers[k], name)
  }

  predicate HasChain<T>(s: State<T>, name: string) {
    forall i :: 0 <= i < |Chain(name)| ==> Chain(name)[i] in s.settings
  }

  predicate Enabled<T>(s: State<T>, e: Event<T>) {
    match e
    case Begin(name) => HasChain(s, name)
    case Read(k) =>
      && k < |s.readers| && IsReading(s.readers[k]) && HasChain(s, s.readers[k].start)
      && !IsLocked(s, Chain(s.readers[k].start)[s.readers[k].held])
    case Release(k) => k < |s.readers| && s.readers[k].result.Some? && s.readers[k].held > 0
    case Change(name, _) => name in s.settings && !IsLocked(s, name)
  }

  /** Locks the next logger and reads it: an overriding logger, or the last of the chain, gives the result. */
  function ReadNext<T>(s: State<T>, k: nat): Reader<T>
    requires Enabled(s, Read(k))
  {
    var r := s.readers[k];
    var setting := s.settings[Chain(r.start)[r.held]];
    r.(held := r.held + 1,
       result := if setting.overridden || r.held + 1 == |Chain(r.start)| then Some(setting.value) else None)
  }

  function Apply<T>(s: State<T>, e: Event<T>): State<T>
    requires Enabled(s, e)
  {
    match e
    case Begin(name) => s.(readers := s.readers + [Reader(name, 0, None)])
    case Read(k) => s.(readers := s.readers[k := ReadNext(s, k)])
    case Release(k) => s.(readers := s.readers[k := s.readers[k].(held := s.readers[k].held - 1)])
    case Change(name, setting) => s.(settings := s.settings[name := setting])
  }

  predicate Feasible<T>(s: State<T>, es: seq<Event<T>>)
    decreases |es|
  {
    es == [] || (Enabled(s, es[0]) && Feasible(Apply(s, es[0]), es[1..]))
  }

  function After<T>(s: State<T>, es: seq<Event<T>>): State<T>
    requires Feasible(s, es)
    decreases |es|
  {
    if es == [] then s else After(Apply(s, es[0]), es[1..])
  }

  /** The settings along a chain, as they are in one state. */
  function PathOf<T>(s: State<T>, name: string): (path: seq<Setting<T>>)
    requires HasChain(s, name)
    ensures |path| == |Chain(name)|
  {
    seq(|Chain(name)|, i requires 0 <= i < |Chain(name)| => s.settings[Chain(name)[i]])
  }

  // ----- what holding the locks gives -----

  /** A reader on its way holds locks of loggers that do not override. */
  predicate WellLocked<T>(s: State<T>, r: Reader<T>) {
    && HasChain(s, r.start)
    && r.held <= |Chain(r.start)|
    && (r.result.None? ==> IsReading(r))
    && (r.result.None? ==> forall i :: 0 <= i < r.held ==> !s.settings[Chain(r.start)[i]].overridden)
  }

  ghost predicate Inv<T>(s: State<T>) {
    forall k :: 0 <= k < |s.readers| ==> WellLocked(s, s.readers[k])
  }

  lemma ChangeKeeps<T>(s: State<T>, name: string, setting: Setting<T>, k: nat)
    requires Inv(s) && Enabled(s, Change(name, setting)) && k < |s.readers|
    ensures WellLocked(Apply(s, Change(name, setting)), s.readers[k])
  {
    var r := s.readers[k];
    assert WellLocked(s, r) && !HoldsLock(r, name);
    forall i | 0 <= i < r.held ensures Chain(r.start)[i] != name {
      assert Chain(r.start)[..r.held][i] == Chain(r.start)[i];
    }
  }

  lemma StepInv<T>(s: State<T>, e: Event<T>)
    requires Inv(s) && Enabled(s, e)
    ensures Inv(Apply(s, e))
  {
    var t := Apply(s, e);
    forall k | 0 <= k < |t.readers| ensures WellLocked(t, t.readers[k]) {
      if k < |s.readers| {
        assert WellLocked(s, s.readers[k]);
        if e.Change? {
          ChangeKeeps(s, e.name, e.setting, k);
        }
      }
    }
  }

  /** The read that decides returns what is effective in the very state it reads in. */
  lemma DecidingRead<T>(s: State<T>, k: nat)
    requires Inv(s) && Enabled(s, Read(k)) && ReadNext(s, k).result.Some?
    ensures ReadNext(s, k).result.value == Effective(PathOf(s, s.readers[k].start))
  {
    var r := s.readers[k];
    assert WellLocked(s, r);
    var path := PathOf(s, r.start);
    var i := EffectiveIsNearest(path);
    assert Decides(path, r.held);
  }

  /** One step of a run, seen from a call that has no result yet. */
  lemma StepOfCall<T>(s: State<T>, e: Event<T>, k: nat)
    requires Inv(s) && Enabled(s, e) && k < |s.readers| && s.readers[k].result.None?
    ensures k < |Apply(s, e).readers| && Apply(s, e).readers[k].start == s.readers[k].start
    ensures HasChain(s, s.readers[k].start)
    ensures Apply(s, e).readers[k].result.Some? ==>
              Apply(s, e).readers[k].result.value == Effective(PathOf(s, s.readers[k].start))
  {
    assert WellLocked(s, s.readers[k]);
    if e == Read(k) && ReadNext(s, k).result.Some? {
      DecidingRead(s, k);
    }
  }

  lemma {:induction false} ResultStays<T>(s: State<T>, es: seq<Event<T>>, k: nat)
    requires Feasible(s, es) && k < |s.readers| && s.readers[k].result.Some?
    ensures k < |After(s, es).readers| && After(s, es).readers[k].result == s.readers[k].result
    ensures After(s, es).readers[k].start == s.readers[k].start
    decreases |es|
  {
    if es != [] {
      ResultStays(Apply(s, es[0]), es[1..], k);
    }
  }

  lemma {:induction false} ResultWasEffective<T>(s: State<T>, es: seq<Event<T>>, k: nat) returns (i: nat)
    requires Inv(s) && Feasible(s, es) && k < |s.readers| && s.readers[k].result.None?
    requires k < |After(s, es).readers| && After(s, es).readers[k].result.Some?
    ensures i < |es| && Feasible(s, es[..i]) && HasChain(After(s, es[..i]), s.readers[k].start)
    ensures After(s, es).readers[k].result.value == Effective(PathOf(After(s, es[..i]), s.readers[k].start))
    decreases |es|
  {
    var s1 := Apply(s, es[0]);
    StepOfCall(s, es[0], k);
    if s1.readers[k].result.Some? {
      ResultStays(s1, es[1..], k);
      i := 0;
    } else {
      StepInv(s, es[0]);
      var j := ResultWasEffective(s1, es[1..], k);
      i := j + 1;
      assert es[..i][0] == es[0] && es[..i][1..] == es[1..][..j];
    }
  }

  /** Reading an effective setting is atomic, although it locks and reads one logger after the other: whatever
      setters and other readers do meanwhile, the value returned was the effective one of the whole chain
      at one moment between the call and its return. */
  lemma EffectiveReadIsAtomic<T>(s: State<T>, name: string, es: seq<Event<T>>) returns (i: nat)
    requires Inv(s) && Enabled(s, Begin(name)) && Feasible(Apply(s, Begin(name)), es)
    requires var t := After(Apply(s, Begin(name)), es);
             |s.readers| < |t.readers| && t.readers[|s.readers|].result.Some?
    ensures var s1 := Apply(s, Begin(name));
            && i < |es| && Feasible(s1, es[..i])
            && HasChain(After(s1, es[..i]), name)
            && After(s1, es).readers[|s.readers|].result.value == Effective(PathOf(After(s1, es[..i]), name))
  {
    StepInv(s, Begin(name));
    i := ResultWasEffective(Apply(s, Begin(name)), es, |s.readers|);
  }

  // ----- progress -----

  /** The readers that wait for their next lock. */
  function Waiters<T>(rs: seq<Reader<T>>): seq<Walker> {
    if rs == [] then []
    else
      var n := |rs| - 1;
      Waiters(rs[..n]) + (if rs[n].result.None? then [Walker(rs[n].start, rs[n].held)] else [])
  }

  predicate IsWaiter<T>(rs: seq<Reader<T>>, w: Walker) {
    exists k :: 0 <= k < |rs| && rs[k].result.None? && rs[k].start == w.start && rs[k].held == w.held
  }

  lemma {:induction false} WaitersAreReaders<T>(rs: seq<Reader<T>>, w: Walker)
    ensures w in Waiters(rs) <==> IsWaiter(rs, w)
  {
    if rs != [] {
      var n := |rs| - 1;
      WaitersAreReaders(rs[..n], w);
      if IsWaiter(rs[..n], w) {
        var k :| 0 <= k < n && rs[..n][k].result.None? && rs[..n][k].start == w.start && rs[..n][k].held == w.held;
        assert rs[k] == rs[..n][k];
      }
      if IsWaiter(rs, w) {
        var k :| 0 <= k < |rs| && rs[k].result.None? && rs[k].start == w.start && rs[k].held == w.held;
        assert k < n ==> rs[..n][k] == rs[k];
      }
    }
  }

  /** The calls cannot block each other: as long as one of them has not returned, one can take a step. */
  lemma SomeReaderMoves<T>(s: State<T>, k: nat)
    requires Inv(s) && k < |s.readers| && (s.readers[k].result.None? || s.readers[k].held > 0)
    ensures exists j: nat :: Enabled(s, Read(j)) || Enabled(s, Release(j))
  {
    if j: nat :| j < |s.readers| && s.readers[j].result.Some? && s.readers[j].held > 0 {
      assert Enabled(s, Release(j));
    } else {
      var j := SomeWaiterMoves(s, k);
    }
  }

  lemma SomeWaiterMoves<T>(s: State<T>, k: nat) returns (j: nat)
    requires Inv(s) && k < |s.readers| && s.readers[k].result.None?
    requires forall i :: 0 <= i < |s.readers| && s.readers[i].result.Some? ==> s.readers[i].held == 0
    ensures Enabled(s, Read(j))
  {
    var ws := Waiters(s.readers);
    WaitersAreReaders(s.readers, Walker(s.readers[k].start, s.readers[k].held));
    forall i | 0 <= i < |ws| ensures Waiting(ws[i]) {
      var m := ReaderOf(s, ws[i]);
      assert WellLocked(s, s.readers[m]);
    }
    NoDeadlock(ws);
    var i :| 0 <= i < |ws| && forall m :: 0 <= m < |ws| ==> !Holds(ws[m], Wanted(ws[i]));
    j := ReaderOf(s, ws[i]);
    assert WellLocked(s, s.readers[j]);
    NobodyHolds(s, ws, Wanted(ws[i]));
  }

  lemma ReaderOf<T>(s: State<T>, w: Walker) returns (k: nat)
    requires w in Waiters(s.readers)
    ensures k < |s.readers| && s.readers[k].result.None? && s.readers[k].start == w.start && s.readers[k].held == w.held
  {
    WaitersAreReaders(s.readers, w);
    k :| k < |s.readers| && s.readers[k].result.None? && s.readers[k].start == w.start && s.readers[k].held == w.held;
  }

  lemma NobodyHolds<T>(s: State<T>, ws: seq<Walker>, name: string)
    requires ws == Waiters(s.readers)
    requires forall i :: 0 <= i < |ws| ==> Waiting(ws[i]) && !Holds(ws[i], name)
    requires forall i :: 0 <= i < |s.readers| && s.readers[i].result.Some? ==> s.readers[i].held == 0
    ensures !IsLocked(s, name)
  {
    forall k | 0 <= k < |s.readers| ensures !HoldsLock(s.readers[k], name) {
      if s.readers[k].result.None? {
        var w := Walker(s.readers[k].start, s.readers[k].held);
        WaitersAreReaders(s.readers, w);
        var i :| 0 <= i < |ws| && ws[i] == w;
        assert !Holds(ws[i], name);
      }
    }
  }

  /** Own steps a read still needs, at most. */
  function StepsLeft<T>(r: Reader<T>): nat {
    if r.result.Some? then r.held
    else if r.held <= |Chain(r.start)| then 2 * |Chain(r.start)| - r.held else 0
  }

  /** Every own step brings a read closer to its return, with all its locks given back, and no other step
      touches it. */
  lemma ReadsFinish<T>(s: State<T>, e: Event<T>, k: nat)
    requires Inv(s) && Enabled(s, e) && k < |s.readers|
    ensures k < |Apply(s, e).readers| && Apply(s, e).readers[k].start == s.readers[k].start
    ensures e == Read(k) || e == Release(k) ==> StepsLeft(Apply(s, e).readers[k]) < StepsLeft(s.readers[k])
    ensures e != Read(k) && e != Release(k) ==> Apply(s, e).readers[k] == s.readers[k]
    ensures StepsLeft(s.readers[k]) == 0 <==> s.readers[k].result.Some? && s.readers[k].held == 0
  {
    assert WellLocked(s, s.readers[k]);
  }
}
