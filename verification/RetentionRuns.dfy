/** Retention over whole runs: pruning leaves the newest rotations after every write exactly as long as the
    inputs plan no more rotations of one second than names can tell apart. */
module RetentionRuns {
  import opened RotationNames
  import opened RotationSpec
  import opened RotationRuns
  import opened RotationPlan
  import opened Retention

  /** Stamps of well-formed inputs that do not decrease. */
  ghost predicate StampsInOrder(ins: seq<Input>) {
    forall i, j :: 0 <= i < j < |ins| ==> !Less(ins[j].ts, ins[i].ts)
  }

  /** The rotated files found at construction all carry stamps before those of the inputs. */
  ghost predicate FoundBefore(c: RotationConfig, files: map<string, string>, ins: seq<Input>) {
    forall i :: 0 <= i < |ins| ==> Older(c.base, Candidates(files, c.base), ins[i].ts)
  }

  /** The assumptions on a run: time does not run backwards, neither within it nor across the restart. */
  ghost predicate RetentionRun(c: RotationConfig, files: map<string, string>, ins: seq<Input>, ss: seq<SinkState>) {
    Run(c, files, ins, ss) && StampsInOrder(ins) && FoundBefore(c, files, ins)
  }

  /** The sink takes lines, and its rotated files are the latest ones. */
  ghost predicate Fine(c: RotationConfig, found: map<string, string>, s: SinkState) {
    s.open && KeepsLatest(c, found, s)
  }

  /** No second is given more than PerStamp rotations. */
  ghost predicate WithinBound(c: RotationConfig, stamps: seq<string>) {
    forall ts :: Uses(stamps, ts) <= PerStamp(c)
  }

  // ----- the log and the plan -----

  lemma {:induction false} CountIsUses(log: seq<Rotation>, ts: string)
    ensures Count(log, ts) == Uses(Stamps(log), ts)
  {
    if log != [] {
      var n := |log| - 1;
      CountIsUses(log[..n], ts);
      assert Stamps(log) == Stamps(log[..n]) + [log[n].ts];
      UsesAppend(Stamps(log[..n]), log[n].ts, ts);
    }
  }

  /** An open sink's log, seen from its next input. */
  lemma LogAsPlanned(c: RotationConfig, files: map<string, string>, ins: seq<Input>, ss: seq<SinkState>, k: nat)
    requires Run(c, files, ins, ss) && StampsInOrder(ins) && k < |ins| && ss[k].open
    ensures IsLatest(ss[k].log, ins[k].ts)
    ensures Count(ss[k].log, ins[k].ts) == Uses(Plan(c, files, ins[..k]), ins[k].ts)
  {
    var log, plan := ss[k].log, Plan(c, files, ins[..k]);
    RotatesAsPlanned(c, files, ins, ss, k);
    PlanFromInputs(c, files, ins, k);
    forall j | 0 <= j < |log| ensures !Less(ins[k].ts, log[j].ts) {
      assert log[j].ts == Stamps(log)[j] == plan[j];
    }
    CountIsUses(log, ins[k].ts);
  }

  /** A write rotates exactly if the plan says so. */
  lemma NextUse(c: RotationConfig, files: map<string, string>, ins: seq<Input>, ss: seq<SinkState>, k: nat)
    requires Run(c, files, ins, ss) && k < |ins| && ss[k].open
    ensures Plan(c, files, ins[..k + 1])
         == Plan(c, files, ins[..k]) + (if MustRotate(c, ss[k], ins[k].line) then [ins[k].ts] else [])
  {
    RotatesAsPlanned(c, files, ins, ss, k);
    PlanStep(c, files, ins, k + 1);
  }

  lemma OneMoreUse(c: RotationConfig, stamps: seq<string>, x: string)
    ensures WithinBound(c, stamps + [x]) <==> WithinBound(c, stamps) && Uses(stamps, x) < PerStamp(c)
  {
    forall ts ensures Uses(stamps + [x], ts) == Uses(stamps, ts) + (if x == ts then 1 else 0) {
      UsesAppend(stamps, x, ts);
    }
    BoundWithOneMore(c, stamps, stamps + [x], x);
  }

  lemma BoundWithOneMore(c: RotationConfig, stamps: seq<string>, more: seq<string>, x: string)
    requires forall ts :: Uses(more, ts) == Uses(stamps, ts) + (if x == ts then 1 else 0)
    ensures WithinBound(c, more) <==> WithinBound(c, stamps) && Uses(stamps, x) < PerStamp(c)
  {
    if WithinBound(c, more) {
      assert Uses(more, x) == Uses(stamps, x) + 1;
      forall ts ensures Uses(stamps, ts) <= PerStamp(c) {
        assert Uses(more, ts) <= PerStamp(c);
      }
    }
  }

  // ----- one write -----

  lemma SameRotatedFiles(base: string, log: seq<Rotation>, files: map<string, string>, files': map<string, string>,
                         from: nat, aged: set<string>)
    requires files'.Keys == files.Keys && forall fn :: fn in files && fn != base ==> files'[fn] == files[fn]
    ensures Retains(base, log, files', from, aged) <==> Retains(base, log, files, from, aged)
  {
    BaseDoesNotParse(base);
    assert Candidates(files', base) == Candidates(files, base);
    if from <= |log| && Candidates(files, base) == NamesFrom(log, from) + aged {
      forall j | from <= j < |log| ensures log[j].name in Candidates(files, base) {
        assert log[j].name in NamesFrom(log, from);
      }
    }
  }

  lemma SameFoundFiles(c: RotationConfig, found: map<string, string>, files: map<string, string>,
                       files': map<string, string>, rotations: nat)
    requires files'.Keys == files.Keys && forall fn :: fn in files && fn != c.base ==> files'[fn] == files[fn]
    ensures OldKept(c.base, found, files') == OldKept(c.base, found, files)
    ensures KeepsFound(c, found, files', rotations) <==> KeepsFound(c, found, files, rotations)
  {
    BaseDoesNotParse(c.base);
    assert c.base !in OldKept(c.base, found, files);
  }

  lemma LineKeepsRetention(c: RotationConfig, found: map<string, string>, s: SinkState, line: string, t: SinkState,
                           r: WriteResult)
    requires WritesLine(c, s, line, t, r)
    ensures t.log == s.log && t.open == s.open && (KeepsLatest(c, found, t) <==> KeepsLatest(c, found, s))
  {
    SameFoundFiles(c, found, s.files, t.files, |s.log|);
    SameRotatedFiles(c.base, s.log, s.files, t.files, Oldest(|s.log|, c.limit), OldKept(c.base, found, s.files));
  }

  /** Whether a rotation leaves the sink fine depends on the earlier uses of its stamp. */
  lemma RotationDecided(c: RotationConfig, found: map<string, string>, s: SinkState, ts: string, t: SinkState,
                        r: WriteResult)
    requires Good(c, found, s) && s.open && Rotates(c, s, ts, t, r)
    requires IsNext(c, found, s.log, ts) && Count(s.log, ts) <= PerStamp(c)
    ensures Count(s.log, ts) < PerStamp(c) ==>
              Fine(c, found, t) && InOrder(t.log) && Numbered(c, t.log)
              && OlderThanLog(c.base, Candidates(found, c.base), t.log)
    ensures Count(s.log, ts) == PerStamp(c) ==> !Fine(c, found, t)
  {
    if Count(s.log, ts) < PerStamp(c) {
      GoodRotation(c, found, s, ts, t, r);
    } else if Prunable(c) {
      BadRotation(c, found, s, ts, t, r);
    } else {
      FailingRotation(c, found, s, ts, t, r);
    }
  }

  lemma WriteDecided(c: RotationConfig, found: map<string, string>, s: SinkState, i: Input, t: SinkState)
    requires Good(c, found, s) && s.open && Step(c, s, i, t)
    requires IsNext(c, found, s.log, i.ts) && Count(s.log, i.ts) <= PerStamp(c)
    ensures if MustRotate(c, s, i.line) && Count(s.log, i.ts) == PerStamp(c) then !Fine(c, found, t)
            else t.open && Good(c, found, t)
  {
    StepSound(c, s, i, t);
    var r :| Writes(c, s, i.line, i.ts, t, r);
    if !MustRotate(c, s, i.line) {
      LineKeepsRetention(c, found, s, i.line, t, r);
    } else {
      var u, q :| Rotates(c, s, i.ts, u, q)
                  && (if q == Written then WritesLine(c, u, i.line, t, r) else t == u && r == q);
      RotationDecided(c, found, s, i.ts, u, q);
      if q == Written {
        LineKeepsRetention(c, found, u, i.line, t, r);
      }
    }
  }

  // ----- whole runs -----

  lemma OpenedGood(c: RotationConfig, files: map<string, string>)
    ensures Good(c, files, Opened(c, files))
  {
    OpenedSound(c, files);
    OpenedCandidates(c, files);
    BaseDoesNotParse(c.base);
    var s := Opened(c, files);
    assert NamesFrom([], 0) == {};
    assert OldKept(c.base, files, s.files) == Candidates(files, c.base);
  }

  /** One more write of a run that is good and within the bound so far. */
  lemma OneMore(c: RotationConfig, files: map<string, string>, ins: seq<Input>, ss: seq<SinkState>, k: nat)
    requires RetentionRun(c, files, ins, ss) && k < |ins| && ss[k].open && Good(c, files, ss[k])
    requires WithinBound(c, Plan(c, files, ins[..k]))
    ensures if WithinBound(c, Plan(c, files, ins[..k + 1])) then ss[k + 1].open && Good(c, files, ss[k + 1])
            else !Fine(c, files, ss[k + 1])
  {
    LogAsPlanned(c, files, ins, ss, k);
    NextUse(c, files, ins, ss, k);
    OneMoreUse(c, Plan(c, files, ins[..k]), ins[k].ts);
    assert Plan(c, files, ins[..k]) + [] == Plan(c, files, ins[..k]);
    assert Uses(Plan(c, files, ins[..k]), ins[k].ts) <= PerStamp(c);
    WriteDecided(c, files, ss[k], ins[k], ss[k + 1]);
  }

  lemma OlderLeavesName(base: string, rotated: set<string>, ts: string)
    requires Older(base, rotated, ts)
    ensures LeavesName(base, rotated, ts)
  {
    LessTotal(ts, ts);
  }

  lemma PrunableStaysOpen(c: RotationConfig, files: map<string, string>, ins: seq<Input>, ss: seq<SinkState>, k: nat)
    requires RetentionRun(c, files, ins, ss) && Prunable(c) && k < |ss|
    ensures ss[k].open
  {
    forall i | 0 <= i < |ins| ensures LeavesName(c.base, Candidates(files, c.base), ins[i].ts) {
      OlderLeavesName(c.base, Candidates(files, c.base), ins[i].ts);
    }
    PruningStaysOpen(c, files, ins, ss, k);
  }

  lemma BoundOfPrefix(c: RotationConfig, files: map<string, string>, ins: seq<Input>, k: nat)
    requires 0 < k <= |ins| && WithinBound(c, Plan(c, files, ins[..k]))
    ensures WithinBound(c, Plan(c, files, ins[..k - 1]))
  {
    PlanStep(c, files, ins, k);
    OneMoreUse(c, Plan(c, files, ins[..k - 1]), ins[k - 1].ts);
    assert Plan(c, files, ins[..k - 1]) + [] == Plan(c, files, ins[..k - 1]);
  }

  lemma {:induction false} GoodWithinBound(c: RotationConfig, files: map<string, string>, ins: seq<Input>,
                                           ss: seq<SinkState>, k: nat)
    requires RetentionRun(c, files, ins, ss) && k < |ss| && WithinBound(c, Plan(c, files, ins[..k]))
    ensures ss[k].open && Good(c, files, ss[k])
  {
    if k == 0 {
      OpenedGood(c, files);
    } else {
      BoundOfPrefix(c, files, ins, k);
      GoodWithinBound(c, files, ins, ss, k - 1);
      OneMore(c, files, ins, ss, k - 1);
    }
  }

  ghost predicate FineUpTo(c: RotationConfig, files: map<string, string>, ss: seq<SinkState>, k: nat)
    requires k < |ss|
  {
    Fine(c, files, ss[k]) && (k > 0 ==> FineUpTo(c, files, ss, k - 1))
  }

  lemma {:induction false} AllFineUpTo(c: RotationConfig, files: map<string, string>, ss: seq<SinkState>, k: nat)
    requires k < |ss| && forall i :: 0 <= i <= k ==> Fine(c, files, ss[i])
    ensures FineUpTo(c, files, ss, k)
  {
    if k > 0 {
      AllFineUpTo(c, files, ss, k - 1);
    }
  }

  lemma {:induction false} FineMeansBounded(c: RotationConfig, files: map<string, string>, ins: seq<Input>,
                                            ss: seq<SinkState>, k: nat)
    requires RetentionRun(c, files, ins, ss) && k < |ss| && FineUpTo(c, files, ss, k)
    ensures WithinBound(c, Plan(c, files, ins[..k]))
  {
    if k == 0 {
      assert Plan(c, files, ins[..0]) == [];
    } else {
      FineMeansBounded(c, files, ins, ss, k - 1);
      GoodWithinBound(c, files, ins, ss, k - 1);
      OneMore(c, files, ins, ss, k - 1);
    }
  }

  lemma {:induction false} BoundOfPrefixes(c: RotationConfig, files: map<string, string>, ins: seq<Input>, i: nat,
                                           k: nat)
    requires i <= k <= |ins| && WithinBound(c, Plan(c, files, ins[..k]))
    ensures WithinBound(c, Plan(c, files, ins[..i]))
    decreases k
  {
    if i < k {
      BoundOfPrefix(c, files, ins, k);
      BoundOfPrefixes(c, files, ins, i, k - 1);
    }
  }

  /** Retention, exactly, for every limit: as long as time does not run backwards, neither in the run nor since
      the rotated files found at construction, the sink stays open and its rotated files are precisely the
      latest ones after every write if and only if the inputs plan at most PerStamp rotations of any one second: limit + 1
      when pruning can free a name of that second, 10000 otherwise. When it can, the sink stays open in
      any case. */
  lemma RetentionIffBounded(c: RotationConfig, files: map<string, string>, ins: seq<Input>, ss: seq<SinkState>)
    requires RetentionRun(c, files, ins, ss)
    ensures (forall i :: 0 <= i < |ss| ==> ss[i].open && KeepsLatest(c, files, ss[i]))
       <==> WithinBound(c, Plan(c, files, ins))
    ensures Prunable(c) ==>
              ((forall i :: 0 <= i < |ss| ==> KeepsLatest(c, files, ss[i])) <==> WithinBound(c, Plan(c, files, ins)))
  {
    var last := |ins|;
    assert ins[..last] == ins;
    if WithinBound(c, Plan(c, files, ins)) {
      forall i | 0 <= i <= last ensures ss[i].open && KeepsLatest(c, files, ss[i]) {
        BoundOfPrefixes(c, files, ins, i, last);
        GoodWithinBound(c, files, ins, ss, i);
      }
    } else if forall i :: 0 <= i <= last ==> Fine(c, files, ss[i]) {
      AllFineUpTo(c, files, ss, last);
      FineMeansBounded(c, files, ins, ss, last);
    }
    if Prunable(c) {
      forall i | 0 <= i <= last ensures ss[i].open {
        PrunableStaysOpen(c, files, ins, ss, i);
      }
    }
  }

  // ----- an input that fails -----

  function Copies(x: Input, n: nat): (ins: seq<Input>)
    ensures |ins| == n && forall k :: 0 <= k < n ==> ins[k] == x
  {
    seq(n, _ => x)
  }

  /** A line that fills a file makes every write rotate. */
  lemma {:induction false} LongLinesRotate(c: RotationConfig, files: map<string, string>, x: Input, ins: seq<Input>)
    requires |Terminated(x.line)| >= c.maxBytes && forall i :: 0 <= i < |ins| ==> ins[i] == x
    ensures Uses(Plan(c, files, ins), x.ts) == |ins|
    ensures WithinBound(c, Plan(c, files, ins)) <==> |ins| <= PerStamp(c)
  {
    if ins != [] {
      var before := Plan(c, files, ins[..|ins| - 1]);
      LongLinesRotate(c, files, x, ins[..|ins| - 1]);
      assert Plan(c, files, ins) == before + [x.ts];
      UsesAppend(before, x.ts, x.ts);
      OneMoreUse(c, before, x.ts);
    }
  }

  lemma CopiesInOrder(x: Input, n: nat)
    ensures StampsInOrder(Copies(x, n))
  {
    LessTotal(x.ts, x.ts);
  }

  /** The bound is sharp under every limit: one long line, written PerStamp + 1 times within one second,
      leaves the sink fine up to the last write and not after it. */
  lemma OneTooManyInASecond(c: RotationConfig, files: map<string, string>, x: Input)
    returns (ins: seq<Input>, ss: seq<SinkState>)
    requires Older(c.base, Candidates(files, c.base), x.ts) && IsStamp(x.ts) && |Terminated(x.line)| >= c.maxBytes
    ensures RetentionRun(c, files, ins, ss) && ins == Copies(x, PerStamp(c) + 1)
    ensures forall i :: 0 <= i < |ins| ==> Fine(c, files, ss[i])
    ensures !Fine(c, files, ss[|ins|])
    ensures Prunable(c) ==> ss[|ins|].open && !KeepsLatest(c, files, ss[|ins|])
  {
    var n := PerStamp(c);
    ins := Copies(x, n + 1);
    CopiesInOrder(x, n + 1);
    ss := RunExists(c, files, ins);
    forall i | 0 <= i <= n ensures Fine(c, files, ss[i]) {
      LongLinesRotate(c, files, x, ins[..i]);
      GoodWithinBound(c, files, ins, ss, i);
    }
    LastOneFails(c, files, x, n, ins, ss);
    if Prunable(c) {
      PrunableStaysOpen(c, files, ins, ss, n + 1);
    }
  }

  lemma LastOneFails(c: RotationConfig, files: map<string, string>, x: Input, n: nat, ins: seq<Input>,
                     ss: seq<SinkState>)
    requires |Terminated(x.line)| >= c.maxBytes && n == PerStamp(c) && ins == Copies(x, n + 1)
    requires RetentionRun(c, files, ins, ss)
    ensures !Fine(c, files, ss[n + 1])
  {
    LongLinesRotate(c, files, x, ins[..n]);
    LongLinesRotate(c, files, x, ins[..n + 1]);
    GoodWithinBound(c, files, ins, ss, n);
    OneMore(c, files, ins, ss, n);
  }
}
