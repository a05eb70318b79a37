/** Concurrent get_logger calls as a transition system: each lookup and each insertion is one region under
    the registry mutex, and between them a call holds no lock. */
module RegistryProtocol {
  import opened Records
  import opened LoggerNames

  /** A logger object; loggers are identified by their index in the heap. */
  datatype LoggerObject = LoggerObject(name: string, parent: Option<nat>)

  datatype Phase = Lookup | Create(parent: Option<nat>) | Insert(candidate: nat) | Finished(result: nat)

  /** A call with its pending recursive activations: `frames` are their names, the active one last. */
  datatype Call = Call(frames: seq<string>, phase: Phase)

  datatype State = State(loggers: map<string, nat>, heap: seq<LoggerObject>, calls: seq<Call>)

  datatype Event = Begin(name: string) | CallStep(k: nat)

  function Init(): State {
    State(map[], [], [])
  }

  predicate Enabled(s: State, e: Event) {
    match e
    case Begin(_) => true
    case CallStep(k) => k < |s.calls| && s.calls[k].frames != [] && !s.calls[k].phase.Finished?
  }

  function Active(call: Call): string
    requires call.frames != []
  {
    call.frames[|call.frames| - 1]
  }

  /** The active activation returns a logger to the one that needed it as a parent, or to the caller. */
  function Return(call: Call, id: nat): Call
    requires call.frames != []
  {
    if |call.frames| == 1 then call.(phase := Finished(id))
    else Call(call.frames[..|call.frames| - 1], Create(Some(id)))
  }

  function Apply(s: State, e: Event): State
    requires Enabled(s, e)
  {
    match e
    case Begin(name) => s.(calls := s.calls + [Call([name], Lookup)])
    case CallStep(k) =>
      var call := s.calls[k];
      var name := Active(call);
      match call.phase
      case Lookup =>
        if name in s.loggers then s.(calls := s.calls[k := Return(call, s.loggers[name])])
        else if ParentName(name) == "" then s.(calls := s.calls[k := call.(phase := Create(None))])
        else s.(calls := s.calls[k := Call(call.frames + [ParentName(name)], Lookup)])
      case Create(parent) =>
        s.(heap := s.heap + [LoggerObject(name, parent)],
           calls := s.calls[k := call.(phase := Insert(|s.heap|))])
      case Insert(candidate) =>
        if name in s.loggers then s.(calls := s.calls[k := Return(call, s.loggers[name])])
        else s.(loggers := s.loggers[name := candidate], calls := s.calls[k := Return(call, candidate)])
      case Finished(_) => s
  }

  predicate Feasible(s: State, es: seq<Event>)
    decreases |es|
  {
    es == [] || (Enabled(s, es[0]) && Feasible(Apply(s, es[0]), es[1..]))
  }

  function After(s: State, es: seq<Event>): State
    requires Feasible(s, es)
    decreases |es|
  {
    if es == [] then s else After(Apply(s, es[0]), es[1..])
  }

  // ----- invariant -----

  /** `parent` is the logger registered under the parent name, if there is one. */
  predicate RightParent(loggers: map<string, nat>, name: string, parent: Option<nat>) {
    var p := ParentName(name);
    if p == "" then parent == None else p in loggers && parent == Some(loggers[p])
  }

  /** Each activation was started for the parent name of the one below it. */
  predicate Linked(frames: seq<string>) {
    var n := |frames| - 1;
    n <= 0 || (Linked(frames[..n]) && ParentName(frames[n - 1]) == frames[n] && frames[n] != "")
  }

  predicate WellFormedCall(s: State, call: Call) {
    && call.frames != []
    && Linked(call.frames)
    && match call.phase
       case Lookup => true
       case Create(parent) => RightParent(s.loggers, Active(call), parent)
       case Insert(candidate) =>
         && candidate < |s.heap| && s.heap[candidate].name == Active(call)
         && RightParent(s.loggers, Active(call), s.heap[candidate].parent)
       case Finished(result) =>
         |call.frames| == 1 && call.frames[0] in s.loggers && s.loggers[call.frames[0]] == result
  }

  /** Every registered logger carries its name, and its parent is the one registered for its parent name. */
  predicate WellFormedMap(s: State) {
    forall name :: name in s.loggers ==>
      && s.loggers[name] < |s.heap| && s.heap[s.loggers[name]].name == name
      && RightParent(s.loggers, name, s.heap[s.loggers[name]].parent)
  }

  ghost predicate Inv(s: State) {
    WellFormedMap(s) && forall k :: 0 <= k < |s.calls| ==> WellFormedCall(s, s.calls[k])
  }

  /** Entries are only added, objects never change. */
  predicate Grows(s: State, t: State) {
    && (forall name :: name in s.loggers ==> name in t.loggers && t.loggers[name] == s.loggers[name])
    && s.heap <= t.heap
  }

  lemma StepGrows(s: State, e: Event)
    requires Enabled(s, e)
    ensures Grows(s, Apply(s, e))
  {
  }

  lemma CallSurvives(s: State, t: State, call: Call)
    requires WellFormedCall(s, call) && Grows(s, t)
    ensures WellFormedCall(t, call)
  {
  }

  lemma ReturnWellFormed(s: State, call: Call, id: nat)
    requires call.frames != [] && Linked(call.frames)
    requires Active(call) in s.loggers && s.loggers[Active(call)] == id
    ensures WellFormedCall(s, Return(call, id))
  {
  }

  lemma LookupStep(s: State, k: nat)
    requires Inv(s) && Enabled(s, CallStep(k)) && s.calls[k].phase.Lookup?
    ensures var t := Apply(s, CallStep(k)); WellFormedMap(t) && WellFormedCall(t, t.calls[k])
  {
    var t, call := Apply(s, CallStep(k)), s.calls[k];
    assert WellFormedCall(s, call);
    if Active(call) in s.loggers {
      ReturnWellFormed(t, call, s.loggers[Active(call)]);
    } else {
      var frames := call.frames + [ParentName(Active(call))];
      assert frames[..|call.frames|] == call.frames;
    }
  }

  lemma CreateStep(s: State, k: nat)
    requires Inv(s) && Enabled(s, CallStep(k)) && s.calls[k].phase.Create?
    ensures var t := Apply(s, CallStep(k)); WellFormedMap(t) && WellFormedCall(t, t.calls[k])
  {
    assert WellFormedCall(s, s.calls[k]);
  }

  /** Registering a candidate keeps the map right: its parent is the one registered. */
  lemma InsertKeepsMap(s: State, name: string, id: nat)
    requires WellFormedMap(s) && name !in s.loggers
    requires id < |s.heap| && s.heap[id].name == name && RightParent(s.loggers, name, s.heap[id].parent)
    ensures WellFormedMap(s.(loggers := s.loggers[name := id]))
  {
  }

  lemma InsertStep(s: State, k: nat)
    requires Inv(s) && Enabled(s, CallStep(k)) && s.calls[k].phase.Insert?
    ensures var t := Apply(s, CallStep(k)); WellFormedMap(t) && WellFormedCall(t, t.calls[k])
  {
    var t, call := Apply(s, CallStep(k)), s.calls[k];
    assert WellFormedCall(s, call);
    if Active(call) !in s.loggers {
      InsertKeepsMap(s, Active(call), call.phase.candidate);
    }
    ReturnWellFormed(t, call, t.loggers[Active(call)]);
  }

  lemma OwnStep(s: State, k: nat)
    requires Inv(s) && Enabled(s, CallStep(k))
    ensures var t := Apply(s, CallStep(k)); WellFormedMap(t) && WellFormedCall(t, t.calls[k])
  {
    match s.calls[k].phase {
      case Lookup => LookupStep(s, k);
      case Create(_) => CreateStep(s, k);
      case Insert(_) => InsertStep(s, k);
    }
  }

  lemma OthersUntouched(s: State, e: Event, j: nat)
    requires Enabled(s, e) && j < |s.calls| && e != CallStep(j)
    ensures j < |Apply(s, e).calls| && Apply(s, e).calls[j] == s.calls[j]
  {
  }

  lemma StepInv(s: State, e: Event)
    requires Inv(s) && Enabled(s, e)
    ensures Inv(Apply(s, e))
  {
    var t := Apply(s, e);
    StepGrows(s, e);
    if e.CallStep? {
      OwnStep(s, e.k);
    }
    forall j | 0 <= j < |t.calls| ensures WellFormedCall(t, t.calls[j]) {
      if j < |s.calls| && e != CallStep(j) {
        OthersUntouched(s, e, j);
        assert WellFormedCall(s, s.calls[j]);
        CallSurvives(s, t, s.calls[j]);
      }
    }
  }

  lemma {:induction false} RunInv(s: State, es: seq<Event>)
    requires Inv(s) && Feasible(s, es)
    ensures Inv(After(s, es)) && Grows(s, After(s, es))
    decreases |es|
  {
    if es != [] {
      StepInv(s, es[0]);
      StepGrows(s, es[0]);
      RunInv(Apply(s, es[0]), es[1..]);
    }
  }

  // ----- what callers get -----

  /** Two finished calls for one name got one logger, however the calls and all others interleaved; it is
      the registered one, and it stays registered in every continuation. */
  lemma OneLoggerPerName(es: seq<Event>, fs: seq<Event>, i: nat, j: nat)
    requires Feasible(Init(), es) && Feasible(After(Init(), es), fs)
    requires var s, t := After(Init(), es), After(After(Init(), es), fs);
             && i < |s.calls| && s.calls[i].phase.Finished? && s.calls[i].frames != []
             && j < |t.calls| && t.calls[j].phase.Finished? && t.calls[j].frames == s.calls[i].frames
    ensures var s, t := After(Init(), es), After(After(Init(), es), fs);
            && t.calls[j].phase.result == s.calls[i].phase.result
            && t.calls[j].frames[0] in t.loggers && t.loggers[t.calls[j].frames[0]] == s.calls[i].phase.result
  {
    RunInv(Init(), es);
    RunInv(After(Init(), es), fs);
  }

  lemma NameOfCallStays(s: State, e: Event, k: nat)
    requires Enabled(s, e) && k < |s.calls| && s.calls[k].frames != []
    ensures var t := Apply(s, e);
            k < |t.calls| && t.calls[k].frames != [] && t.calls[k].frames[0] == s.calls[k].frames[0]
  {
  }

  lemma {:induction false} NameOfCallStaysAlong(s: State, es: seq<Event>, k: nat)
    requires Feasible(s, es) && k < |s.calls| && s.calls[k].frames != []
    ensures var t := After(s, es);
            k < |t.calls| && t.calls[k].frames != [] && t.calls[k].frames[0] == s.calls[k].frames[0]
    decreases |es|
  {
    if es != [] {
      NameOfCallStays(s, es[0], k);
      NameOfCallStaysAlong(Apply(s, es[0]), es[1..], k);
    }
  }

  /** A call begun with a name, however it and all others proceed, is answered with the logger of that name: it
      carries the name and is the one registered under it. */
  lemma CallAnswersItsName(es: seq<Event>, name: string, fs: seq<Event>)
    requires Feasible(Init(), es) && Feasible(Apply(After(Init(), es), Begin(name)), fs)
    ensures var k, t := |After(Init(), es).calls|, After(Apply(After(Init(), es), Begin(name)), fs);
            && k < |t.calls|
            && (t.calls[k].phase.Finished? ==>
                  && name in t.loggers && t.loggers[name] == t.calls[k].phase.result
                  && t.calls[k].phase.result < |t.heap| && t.heap[t.calls[k].phase.result].name == name)
  {
    var s := After(Init(), es);
    var k, s1 := |s.calls|, Apply(s, Begin(name));
    RunInv(Init(), es);
    StepInv(s, Begin(name));
    RunInv(s1, fs);
    NameOfCallStaysAlong(s1, fs, k);
    assert WellFormedCall(After(s1, fs), After(s1, fs).calls[k]);
  }

  /** In every reachable state the registry is closed under parent names, each registered logger's parent
      is the registered parent, and following parents walks the chain of names. */
  lemma ClosedUnderParents(es: seq<Event>, name: string)
    requires Feasible(Init(), es) && name in After(Init(), es).loggers
    ensures var s := After(Init(), es);
            && s.loggers[name] < |s.heap| && s.heap[s.loggers[name]].name == name
            && RightParent(s.loggers, name, s.heap[s.loggers[name]].parent)
            && forall i :: 0 <= i < |Chain(name)| ==> Chain(name)[i] in s.loggers
  {
    RunInv(Init(), es);
    ChainRegistered(After(Init(), es), name);
  }

  lemma {:induction false} ChainRegistered(s: State, name: string)
    requires WellFormedMap(s) && name in s.loggers
    ensures forall i :: 0 <= i < |Chain(name)| ==> Chain(name)[i] in s.loggers
    decreases Rank(name)
  {
    ParentIsSmaller(name);
    if ParentName(name) != "" {
      ChainRegistered(s, ParentName(name));
    }
  }

  lemma {:induction false} FramesOnChain(frames: seq<string>)
    requires frames != [] && Linked(frames)
    ensures |frames| <= |Chain(frames[0])| && Chain(frames[0])[|frames| - 1] == frames[|frames| - 1]
  {
    var n := |frames| - 1;
    if n > 0 {
      FramesOnChain(frames[..n]);
      ChainGoesOn(frames[0], n - 1);
    }
  }

  lemma {:induction false} ChainGoesOn(name: string, i: nat)
    requires i < |Chain(name)| && ParentName(Chain(name)[i]) != ""
    ensures i + 1 < |Chain(name)| && Chain(name)[i + 1] == ParentName(Chain(name)[i])
    decreases i
  {
    if i > 0 {
      ChainGoesOn(ParentName(name), i - 1);
    }
  }

  /** A step of a call adds to the registry at most one name: a missing one, from its own parent chain. */
  lemma AddsOnlyOwnMissingNames(s: State, k: nat, name: string)
    requires Inv(s) && Enabled(s, CallStep(k))
    requires var t := Apply(s, CallStep(k)); name in t.loggers && name !in s.loggers
    ensures name == Active(s.calls[k]) && name in Chain(s.calls[k].frames[0])
    ensures var t := Apply(s, CallStep(k)); t.loggers == s.loggers[name := t.loggers[name]]
  {
    assert WellFormedCall(s, s.calls[k]);
    FramesOnChain(s.calls[k].frames);
  }

  /** Own steps a call still needs, at most. */
  function Remaining(call: Call): nat
    requires call.frames != []
  {
    var pending := 2 * (|call.frames| - 1);
    match call.phase
    case Lookup => 3 * Rank(Active(call)) + 3 + pending
    case Create(_) => 2 + pending
    case Insert(_) => 1 + pending
    case Finished(_) => 0
  }

  /** Every own step brings a call closer to its end, and no other step touches it. */
  lemma CallsFinish(s: State, e: Event, k: nat)
    requires Enabled(s, e) && k < |s.calls| && s.calls[k].frames != []
    ensures k < |Apply(s, e).calls| && Apply(s, e).calls[k].frames != []
    ensures e == CallStep(k) ==> Remaining(Apply(s, e).calls[k]) < Remaining(s.calls[k])
    ensures e != CallStep(k) ==> Apply(s, e).calls[k] == s.calls[k]
  {
    if e == CallStep(k) {
      ParentIsSmaller(Active(s.calls[k]));
    } else {
      OthersUntouched(s, e, k);
    }
  }
}
