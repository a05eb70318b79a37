/** Loggers with inherited settings, and the registry that creates them. */
module Loggers {
  import opened Records
  import opened LoggerNames

  // ----- inheritance along a parent chain -----

  /** One logger's stored value of a setting and whether it overrides its parent. */
  datatype Setting<T> = Setting(value: T, overridden: bool)

  /** The value in effect at the head of a chain of settings, child first. */
  function Effective<T>(path: seq<Setting<T>>): T
    requires path != []
  {
    if path[0].overridden || |path| == 1 then path[0].value else Effective(path[1..])
  }

  /** Position i decides: it is the nearest that overrides, or the top of the chain if none does. */
  predicate Decides<T>(path: seq<Setting<T>>, i: nat) {
    && i < |path|
    && (forall j :: 0 <= j < i ==> !path[j].overridden)
    && (path[i].overridden || i == |path| - 1)
  }

  /** The effective setting is that of the nearest overriding ancestor, else the top logger's stored one. */
  lemma {:induction false} EffectiveIsNearest<T>(path: seq<Setting<T>>) returns (i: nat)
    requires path != []
    ensures Decides(path, i) && Effective(path) == path[i].value
    ensures forall j: nat :: Decides(path, j) ==> j == i
  {
    if path[0].overridden || |path| == 1 {
      i := 0;
    } else {
      var k := EffectiveIsNearest(path[1..]);
      i := k + 1;
      forall j: nat | Decides(path, j) ensures j == i {
        if j > 0 {
          assert Decides(path[1..], j - 1);
        }
      }
    }
  }

  /** A change at position i is visible at the head of the chain exactly if no nearer logger overrides. */
  lemma ChangeReaches<T>(path: seq<Setting<T>>, i: nat, s: Setting<T>)
    requires i < |path|
    ensures (exists j :: 0 <= j < i && path[j].overridden) ==> Effective(path[i := s]) == Effective(path)
    ensures (forall j :: 0 <= j < i ==> !path[j].overridden) ==> Effective(path[i := s]) == Effective(path[i..][0 := s])
  {
    SkipInherited(path[i := s], path, i);
  }

  /** Two chains that differ at most at position i. */
  lemma ChangedChain<T>(was: seq<Setting<T>>, now: seq<Setting<T>>, i: nat)
    requires i < |was| == |now| && forall j :: 0 <= j < |was| && j != i ==> now[j] == was[j]
    ensures Effective(now) ==
              if exists j :: 0 <= j < i && was[j].overridden then Effective(was) else Effective(now[i..])
  {
    assert now == was[i := now[i]] && now[i..] == was[i..][0 := now[i]];
    ChangeReaches(was, i, now[i]);
  }

  lemma {:induction false} SkipInherited<T>(path: seq<Setting<T>>, was: seq<Setting<T>>, i: nat)
    requires i < |path| == |was| && path[..i] == was[..i]
    ensures (exists j :: 0 <= j < i && was[j].overridden) ==> Effective(path) == Effective(was)
    ensures (forall j :: 0 <= j < i ==> !was[j].overridden) ==> Effective(path) == Effective(path[i..])
    decreases i
  {
    if i == 0 {
      assert path[0..] == path;
    } else {
      assert path[0] == path[..i][0] && was[0] == was[..i][0];
      assert path[1..][..i - 1] == path[..i][1..] && was[1..][..i - 1] == was[..i][1..];
      SkipInherited(path[1..], was[1..], i - 1);
      assert path[1..][i - 1..] == path[i..];
      if !was[0].overridden && exists j :: 0 <= j < i && was[j].overridden {
        var j :| 0 <= j < i && was[j].overridden;
        assert was[1..][j - 1].overridden;
      }
    }
  }

  // ----- loggers -----

  class Sink {
    constructor () {}
  }

  class Logger {
    const name: string
    const parent: Logger?
    ghost const ancestors: seq<Logger>
    /** The parent is referenced weakly: true once its last owner has dropped it. */
    var parentExpired: bool
    var level: Level
    var levelOverridden: bool
    var sinks: seq<Sink>
    var sinksOverridden: bool
    var immediateFlush: bool
    var immediateFlushOverridden: bool

    /** The parent chain is what `ancestors` lists; it ends, and the ranks of its names fall. */
    ghost predicate Valid()
      decreases |ancestors|
    {
      if parent == null then ancestors == [] && ParentName(name) == ""
      else
        && ancestors == [parent] + parent.ancestors
        && |parent.ancestors| < |ancestors|
        && parent.name == ParentName(name) != ""
        && parent.Valid()
    }

    ghost function Path(): seq<Logger> {
      [this] + ancestors
    }

    ghost function Footprint(): set<Logger> {
      set l | l in Path()
    }

    constructor (name: string, parent: Logger?)
      requires if parent == null then ParentName(name) == ""
               else parent.Valid() && parent.name == ParentName(name) != ""
      ensures this.name == name && this.parent == parent && Valid() && !parentExpired
      ensures level == Info && !levelOverridden && sinks == [] && !sinksOverridden
      ensures !immediateFlush && !immediateFlushOverridden
    {
      this.name := name;
      this.parent := parent;
      this.ancestors := if parent == null then [] else [parent] + parent.ancestors;
      parentExpired := false;
      level, levelOverridden := Info, false;
      sinks, sinksOverridden := [], false;
      immediateFlush, immediateFlushOverridden := false, false;
    }

    /** As created: nothing overridden, the default settings, the parent alive. */
    predicate IsNew()
      reads this
    {
      && level == Info && !levelOverridden
      && sinks == [] && !sinksOverridden
      && !immediateFlush && !immediateFlushOverridden
      && !parentExpired
    }

    lemma ParentWithin()
      requires Valid() && parent != null
      ensures parent.Footprint() <= Footprint() && forall l :: l in parent.Path() ==> l in Path()
    {
    }

    predicate HasParent()
      reads this
    {
      parent != null && !parentExpired
    }

    /** How many loggers of the path are reached before the chain of living parents ends. */
    ghost function Reach(): (n: nat)
      requires Valid()
      reads Footprint()
      ensures 1 <= n <= |Path()|
      decreases |ancestors|
    {
      if HasParent() then
        ParentWithin();
        1 + parent.Reach()
      else 1
    }

    ghost function LevelPath(): (r: seq<Setting<Level>>)
      requires Valid()
      reads Footprint()
      ensures |r| == Reach()
    {
      seq(Reach(), i requires 0 <= i < |Path()| reads Footprint() =>
        Setting(Path()[i].level, Path()[i].levelOverridden))
    }

    /** A logger that does not override has no sinks of its own. */
    ghost function SinksPath(): (r: seq<Setting<seq<Sink>>>)
      requires Valid()
      reads Footprint()
      ensures |r| == Reach()
    {
      seq(Reach(), i requires 0 <= i < |Path()| reads Footprint() =>
        Setting(if Path()[i].sinksOverridden then Path()[i].sinks else [], Path()[i].sinksOverridden))
    }

    ghost function FlushPath(): (r: seq<Setting<bool>>)
      requires Valid()
      reads Footprint()
      ensures |r| == Reach()
    {
      seq(Reach(), i requires 0 <= i < |Path()| reads Footprint() =>
        Setting(Path()[i].immediateFlush, Path()[i].immediateFlushOverridden))
    }

    function EffectiveLevel(): (r: Level)
      requires Valid()
      reads Footprint()
      ensures r == Effective(LevelPath())
      decreases |ancestors|
    {
      if levelOverridden then level
      else if HasParent() then
        ParentWithin();
        assert LevelPath()[1..] == parent.LevelPath();
        parent.EffectiveLevel()
      else level
    }

    function EffectiveImmediateFlush(): (r: bool)
      requires Valid()
      reads Footprint()
      ensures r == Effective(FlushPath())
      decreases |ancestors|
    {
      if immediateFlushOverridden then immediateFlush
      else if HasParent() then
        ParentWithin();
        assert FlushPath()[1..] == parent.FlushPath();
        parent.EffectiveImmediateFlush()
      else immediateFlush
    }

    function EffectiveSinks(): (r: seq<Sink>)
      requires Valid()
      reads Footprint()
      ensures r == Effective(SinksPath())
      decreases |ancestors|
    {
      if sinksOverridden then sinks
      else if HasParent() then
        ParentWithin();
        assert SinksPath()[1..] == parent.SinksPath();
        parent.EffectiveSinks()
      else []
    }

    method SetLevel(l: Level)
      modifies this`level, this`levelOverridden
      ensures level == l && levelOverridden
    {
      level := l;
      levelOverridden := true;
    }

    /** The stored level stays: a logger without (living) parent keeps its last set level. */
    method ClearLevelOverride()
      requires Valid()
      modifies this`levelOverridden
      ensures !levelOverridden
      ensures EffectiveLevel() == if parent != null && !parentExpired then parent.EffectiveLevel() else old(level)
    {
      levelOverridden := false;
    }

    method AddSink(s: Sink)
      modifies this`sinks, this`sinksOverridden
      ensures sinks == old(sinks) + [s] && sinksOverridden
    {
      sinks := sinks + [s];
      sinksOverridden := true;
    }

    method SetSinks(ss: seq<Sink>)
      modifies this`sinks, this`sinksOverridden
      ensures sinks == ss && sinksOverridden
    {
      sinks := ss;
      sinksOverridden := true;
    }

    method ClearSinkOverride()
      modifies this`sinks, this`sinksOverridden
      ensures sinks == [] && !sinksOverridden
    {
      sinksOverridden := false;
      sinks := [];
    }

    method SetImmediateFlush(enabled: bool)
      modifies this`immediateFlush, this`immediateFlushOverridden
      ensures immediateFlush == enabled && immediateFlushOverridden
    {
      immediateFlush := enabled;
      immediateFlushOverridden := true;
    }

    method ClearImmediateFlushOverride()
      requires Valid()
      modifies this`immediateFlushOverridden
      ensures !immediateFlushOverridden
      ensures EffectiveImmediateFlush() ==
                if parent != null && !parentExpired then parent.EffectiveImmediateFlush() else old(immediateFlush)
    {
      immediateFlushOverridden := false;
    }
  }

  // ----- effective settings, from the fields alone -----

  /** From x up to the i-th logger of its path, each is the living parent of the one before. */
  ghost predicate LivingUpTo(x: Logger, i: nat)
    requires i < |x.Path()|
    reads x.Footprint()
  {
    x.Path()[0] == x && forall j :: 0 <= j < i ==>
      !x.Path()[j].parentExpired && x.Path()[j].parent != null && x.Path()[j].parent == x.Path()[j + 1]
  }

  /** The i-th logger has no parent, or it has expired. */
  ghost predicate EndsAt(x: Logger, i: nat)
    requires i < |x.Path()|
    reads x.Footprint()
  {
    x.Path()[i].parent == null || x.Path()[i].parentExpired
  }

  lemma PathOfChild(x: Logger)
    requires x.Valid()
    ensures x.Path()[0] == x && |x.Path()| == (if x.parent == null then 1 else 1 + |x.parent.Path()|)
    ensures x.parent != null ==> forall j :: 0 <= j < |x.parent.Path()| ==> x.Path()[j + 1] == x.parent.Path()[j]
  {
  }

  /** The loggers reached from x are its living ancestors. */
  lemma {:induction false} ReachIsLiving(x: Logger)
    requires x.Valid()
    ensures LivingUpTo(x, x.Reach() - 1) && EndsAt(x, x.Reach() - 1)
    decreases |x.ancestors|
  {
    PathOfChild(x);
    assert x in x.Footprint();
    if x.HasParent() {
      x.ParentWithin();
      ReachIsLiving(x.parent);
      LivesBehind(x, x.parent.Reach() - 1);
    }
  }

  lemma LivesBehind(x: Logger, i: nat)
    requires x.Valid() && x.parent != null && !x.parentExpired && i < |x.parent.Path()| && i + 1 < |x.Path()|
    requires LivingUpTo(x.parent, i)
    ensures LivingUpTo(x, i + 1) && x.Path()[i + 1] == x.parent.Path()[i]
  {
    PathOfChild(x);
    forall j | 0 <= j < i + 1
      ensures !x.Path()[j].parentExpired && x.Path()[j].parent != null && x.Path()[j].parent == x.Path()[j + 1]
    {
      if j > 0 {
        assert x.Path()[j] == x.parent.Path()[j - 1];
      }
    }
  }

  /** As far as no parent has expired they are all of its ancestors. */
  lemma {:induction false} ReachIsAll(x: Logger)
    requires x.Valid() && forall l :: l in x.Path() ==> !l.parentExpired
    ensures x.Reach() == |x.Path()|
    decreases |x.ancestors|
  {
    PathOfChild(x);
    assert x in x.Path();
    if x.parent != null {
      x.ParentWithin();
      ReachIsAll(x.parent);
    }
  }

  /** The effective level is the level stored in the nearest overriding living ancestor, x included, or else in
      the last one that is reached. */
  lemma EffectiveLevelIsNearest(x: Logger) returns (i: nat)
    requires x.Valid()
    ensures i < |x.Path()| && LivingUpTo(x, i)
    ensures forall j :: 0 <= j < i ==> !x.Path()[j].levelOverridden
    ensures x.Path()[i].levelOverridden || EndsAt(x, i)
    ensures x.EffectiveLevel() == x.Path()[i].level
  {
    ReachIsLiving(x);
    i := EffectiveIsNearest(x.LevelPath());
    assert forall j :: 0 <= j <= i ==> x.LevelPath()[j] == Setting(x.Path()[j].level, x.Path()[j].levelOverridden);
  }

  /** The effective sinks are those of the nearest overriding living ancestor, x included, or else none. */
  lemma EffectiveSinksAreNearest(x: Logger) returns (i: nat)
    requires x.Valid()
    ensures i < |x.Path()| && LivingUpTo(x, i)
    ensures forall j :: 0 <= j < i ==> !x.Path()[j].sinksOverridden
    ensures x.Path()[i].sinksOverridden || EndsAt(x, i)
    ensures x.EffectiveSinks() == if x.Path()[i].sinksOverridden then x.Path()[i].sinks else []
  {
    ReachIsLiving(x);
    i := EffectiveIsNearest(x.SinksPath());
    assert forall j :: 0 <= j <= i ==> x.SinksPath()[j].overridden == x.Path()[j].sinksOverridden;
  }

  /** Likewise immediate flush. */
  lemma EffectiveFlushIsNearest(x: Logger) returns (i: nat)
    requires x.Valid()
    ensures i < |x.Path()| && LivingUpTo(x, i)
    ensures forall j :: 0 <= j < i ==> !x.Path()[j].immediateFlushOverridden
    ensures x.Path()[i].immediateFlushOverridden || EndsAt(x, i)
    ensures x.EffectiveImmediateFlush() == x.Path()[i].immediateFlush
  {
    ReachIsLiving(x);
    i := EffectiveIsNearest(x.FlushPath());
    assert forall j :: 0 <= j <= i ==> x.FlushPath()[j].overridden == x.Path()[j].immediateFlushOverridden;
  }

  /** A logger occurs once on a path: paths shrink from child to parent. */
  lemma {:induction false} PathTail(x: Logger, i: nat)
    requires x.Valid() && i < |x.Path()|
    ensures x.Path()[i].Valid() && x.Path()[i].Path() == x.Path()[i..]
    decreases i
  {
    if i == 0 {
      assert x.Path()[0..] == x.Path();
    } else {
      PathTail(x.parent, i - 1);
      assert x.Path()[i] == x.parent.Path()[i - 1];
      assert x.Path()[i..] == x.parent.Path()[i - 1..];
    }
  }

  lemma OnceOnPath(x: Logger, i: nat, j: nat)
    requires x.Valid() && i < |x.Path()| && j < |x.Path()| && x.Path()[i] == x.Path()[j]
    ensures i == j
  {
    PathTail(x, i);
    PathTail(x, j);
    assert |x.Path()[i..]| == |x.Path()[j..]|;
  }

  /** As many loggers are reached after dropping the first i. */
  lemma {:induction false} ReachTail(x: Logger, i: nat)
    requires x.Valid() && i < x.Reach() && x.Path()[i].Valid()
    ensures x.Reach() == i + x.Path()[i].Reach()
    decreases i
  {
    if i > 0 {
      assert x.Path()[i] == x.parent.Path()[i - 1];
      ReachTail(x.parent, i - 1);
    }
  }

  /** No parent on the path has expired meanwhile. */
  twostate predicate SameParents(x: Logger)
    reads x.Footprint()
  {
    forall m :: m in x.Footprint() ==> m.parentExpired == old(m.parentExpired)
  }

  twostate lemma {:induction false} SameReach(x: Logger)
    requires x.Valid() && SameParents(x)
    ensures x.Reach() == old(x.Reach())
    decreases |x.ancestors|
  {
    assert x.Path()[0] == x && x in x.Footprint();
    if x.HasParent() {
      x.ParentWithin();
      SameReach(x.parent);
    }
  }

  lemma LevelTail(x: Logger, i: nat)
    requires x.Valid() && i < x.Reach()
    ensures x.Path()[i].Valid() && x.LevelPath()[i..] == x.Path()[i].LevelPath()
  {
    PathTail(x, i);
    ReachTail(x, i);
  }

  /** A change of l's level setting, by set_level or clear_level_override, changes the effective level of l and
      of the loggers that reach it with no nearer override, to that of l, and of no other logger: as seen from
      x, across any step that changes no other level setting on x's path. */
  twostate lemma LevelChangeSeenFrom(l: Logger, x: Logger)
    requires x.Valid() && SameParents(x)
    requires forall m :: m in x.Footprint() && m != l ==>
               m.level == old(m.level) && m.levelOverridden == old(m.levelOverridden)
    ensures l !in x.Path()[..x.Reach()] ==> x.EffectiveLevel() == old(x.EffectiveLevel())
    ensures forall i :: 0 <= i < x.Reach() && x.Path()[i] == l ==>
              l.Valid() && x.EffectiveLevel() == if exists j :: 0 <= j < i && x.Path()[j].levelOverridden
                                        then old(x.EffectiveLevel()) else l.EffectiveLevel()
  {
    SameReach(x);
    var was, now := old(x.LevelPath()), x.LevelPath();
    forall j | 0 <= j < |was| && x.Path()[j] != l ensures was[j] == now[j] {
      assert x.Path()[j] in x.Footprint();
    }
    OnceEach(x);
    ChangedAt(x.Path(), l, was, now);
    forall i | 0 <= i < x.Reach() && x.Path()[i] == l
      ensures l.Valid() && now[i..] == l.LevelPath()
      ensures (exists j :: 0 <= j < i && now[j].overridden)
         <==> exists j :: 0 <= j < i && x.Path()[j].levelOverridden
    {
      LevelTail(x, i);
      assert forall j :: 0 <= j < i ==> now[j].overridden == x.Path()[j].levelOverridden;
    }
  }

  lemma SinksTail(x: Logger, i: nat)
    requires x.Valid() && i < x.Reach()
    ensures x.Path()[i].Valid() && x.SinksPath()[i..] == x.Path()[i].SinksPath()
  {
    PathTail(x, i);
    ReachTail(x, i);
  }

  /** The same for add_sink, set_sinks and clear_sink_override ... */
  twostate lemma SinksChangeSeenFrom(l: Logger, x: Logger)
    requires x.Valid() && SameParents(x)
    requires forall m :: m in x.Footprint() && m != l ==>
               m.sinks == old(m.sinks) && m.sinksOverridden == old(m.sinksOverridden)
    ensures l !in x.Path()[..x.Reach()] ==> x.EffectiveSinks() == old(x.EffectiveSinks())
    ensures forall i :: 0 <= i < x.Reach() && x.Path()[i] == l ==>
              l.Valid() && x.EffectiveSinks() == if exists j :: 0 <= j < i && x.Path()[j].sinksOverridden
                                        then old(x.EffectiveSinks()) else l.EffectiveSinks()
  {
    SameReach(x);
    var was, now := old(x.SinksPath()), x.SinksPath();
    forall j | 0 <= j < |was| && x.Path()[j] != l ensures was[j] == now[j] {
      assert x.Path()[j] in x.Footprint();
    }
    OnceEach(x);
    ChangedAt(x.Path(), l, was, now);
    forall i | 0 <= i < x.Reach() && x.Path()[i] == l
      ensures l.Valid() && now[i..] == l.SinksPath()
      ensures (exists j :: 0 <= j < i && now[j].overridden)
         <==> exists j :: 0 <= j < i && x.Path()[j].sinksOverridden
    {
      SinksTail(x, i);
      assert forall j :: 0 <= j < i ==> now[j].overridden == x.Path()[j].sinksOverridden;
    }
  }

  lemma FlushTail(x: Logger, i: nat)
    requires x.Valid() && i < x.Reach()
    ensures x.Path()[i].Valid() && x.FlushPath()[i..] == x.Path()[i].FlushPath()
  {
    PathTail(x, i);
    ReachTail(x, i);
  }

  /** ... and for set_immediate_flush and clear_immediate_flush_override. */
  twostate lemma FlushChangeSeenFrom(l: Logger, x: Logger)
    requires x.Valid() && SameParents(x)
    requires forall m :: m in x.Footprint() && m != l ==>
               m.immediateFlush == old(m.immediateFlush)
               && m.immediateFlushOverridden == old(m.immediateFlushOverridden)
    ensures l !in x.Path()[..x.Reach()] ==> x.EffectiveImmediateFlush() == old(x.EffectiveImmediateFlush())
    ensures forall i :: 0 <= i < x.Reach() && x.Path()[i] == l ==>
              l.Valid() && x.EffectiveImmediateFlush() ==
                if exists j :: 0 <= j < i && x.Path()[j].immediateFlushOverridden
                then old(x.EffectiveImmediateFlush()) else l.EffectiveImmediateFlush()
  {
    SameReach(x);
    var was, now := old(x.FlushPath()), x.FlushPath();
    forall j | 0 <= j < |was| && x.Path()[j] != l ensures was[j] == now[j] {
      assert x.Path()[j] in x.Footprint();
    }
    OnceEach(x);
    ChangedAt(x.Path(), l, was, now);
    forall i | 0 <= i < x.Reach() && x.Path()[i] == l
      ensures l.Valid() && now[i..] == l.FlushPath()
      ensures (exists j :: 0 <= j < i && now[j].overridden)
         <==> exists j :: 0 <= j < i && x.Path()[j].immediateFlushOverridden
    {
      FlushTail(x, i);
      assert forall j :: 0 <= j < i ==> now[j].overridden == x.Path()[j].immediateFlushOverridden;
    }
  }

  lemma OnceEach(x: Logger)
    requires x.Valid()
    ensures forall i, j :: 0 <= i < |x.Path()| && 0 <= j < |x.Path()| && x.Path()[i] == x.Path()[j] ==> i == j
  {
    forall i, j | 0 <= i < |x.Path()| && 0 <= j < |x.Path()| && x.Path()[i] == x.Path()[j] ensures i == j {
      OnceOnPath(x, i, j);
    }
  }

  /** The settings along a path before and after a change at l. */
  lemma ChangedAt<T>(path: seq<Logger>, l: Logger, was: seq<Setting<T>>, now: seq<Setting<T>>)
    requires 0 < |was| == |now| <= |path|
    requires forall i, j :: 0 <= i < |path| && 0 <= j < |path| && path[i] == path[j] ==> i == j
    requires forall j :: 0 <= j < |was| && path[j] != l ==> was[j] == now[j]
    ensures l !in path[..|was|] ==> Effective(now) == Effective(was)
    ensures forall i :: 0 <= i < |was| && path[i] == l ==>
              Effective(now) ==
                if exists j :: 0 <= j < i && now[j].overridden then Effective(was) else Effective(now[i..])
  {
    forall i | 0 <= i < |was| && path[i] == l
      ensures Effective(now) ==
                if exists j :: 0 <= j < i && now[j].overridden then Effective(was) else Effective(now[i..])
    {
      assert forall j :: 0 <= j < |was| && j != i ==> path[j] != path[i];
      ChangedChain(was, now, i);
      assert forall j :: 0 <= j < i ==> now[j] == was[j];
    }
    if l !in path[..|was|] {
      assert forall j :: 0 <= j < |was| ==> path[..|was|][j] == path[j];
      assert now == was;
    }
  }

  // ----- the registry, one call at a time -----

  class LoggerRegistry {
    var loggers: map<string, Logger>

    ghost predicate Valid()
      reads this
    {
      forall n :: n in loggers ==>
        && loggers[n].name == n && loggers[n].Valid()
        && (loggers[n].parent != null ==> ParentName(n) in loggers && loggers[ParentName(n)] == loggers[n].parent)
    }

    constructor ()
      ensures Valid() && loggers == map[]
    {
      loggers := map[];
    }

    /** Returns the registered logger, creating it and the missing part of its parent chain. */
    method GetLogger(name: string) returns (l: Logger)
      requires Valid()
      modifies this
      ensures Valid() && name in loggers && loggers[name] == l
      ensures forall n :: n in old(loggers) ==> n in loggers && loggers[n] == old(loggers)[n]
      ensures forall n :: n in loggers && n !in old(loggers) ==> n in Chain(name) && fresh(loggers[n])
      ensures forall n :: n in loggers && n !in old(loggers) ==> loggers[n].IsNew()
      decreases Rank(name)
    {
      if name in loggers {
        return loggers[name];
      }
      var parent: Logger? := null;
      ParentIsSmaller(name);
      var parentName := ParentName(name);
      if parentName != "" {
        parent := GetLogger(parentName);
      }
      var created := new Logger(name, parent);
      if name !in loggers {
        loggers := loggers[name := created];
      }
      return loggers[name];
    }

    method Clear()
      modifies this
      ensures Valid() && loggers == map[]
    {
      loggers := map[];
    }
  }
}
