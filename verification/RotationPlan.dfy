/** When a rotating sink rotates, from its inputs alone, and which directories leave it a name to rotate to. */
module RotationPlan {
  import opened RotationNames
  import opened RotationSpec
  import opened RotationRuns

  // ----- the stamps of the rotations, from the inputs -----

  /** Size of the base file after the writes, if `size` bytes were found and every write succeeds. */
  function SizeAfter(max: nat, size: nat, ins: seq<Input>): nat {
    if ins == [] then size
    else
      var n := |ins| - 1;
      var before, added := SizeAfter(max, size, ins[..n]), |Terminated(ins[n].line)|;
      if before + added >= max then added else before + added
  }

  /** The stamps of the writes that rotate. */
  function Planned(max: nat, size: nat, ins: seq<Input>): seq<string> {
    if ins == [] then []
    else
      var n := |ins| - 1;
      Planned(max, size, ins[..n])
        + (if SizeAfter(max, size, ins[..n]) + |Terminated(ins[n].line)| >= max then [ins[n].ts] else [])
  }

  /** How many of the stamps are this one. */
  function Uses(stamps: seq<string>, ts: string): nat {
    if stamps == [] then 0
    else Uses(stamps[..|stamps| - 1], ts) + (if stamps[|stamps| - 1] == ts then 1 else 0)
  }

  lemma UsesAppend(stamps: seq<string>, x: string, ts: string)
    ensures Uses(stamps + [x], ts) == Uses(stamps, ts) + (if x == ts then 1 else 0)
  {
    assert (stamps + [x])[..|stamps|] == stamps;
  }

  function Stamps(log: seq<Rotation>): seq<string> {
    seq(|log|, i requires 0 <= i < |log| => log[i].ts)
  }

  lemma StampsAppend(log: seq<Rotation>, x: Rotation)
    ensures Stamps(log + [x]) == Stamps(log) + [x.ts]
  {
  }

  /** The plan for a run of the sink, from what it finds and what it is given. */
  function Plan(c: RotationConfig, files: map<string, string>, ins: seq<Input>): seq<string> {
    Planned(c.maxBytes, |FoundAtStart(c, files)|, ins)
  }

  lemma PlanStep(c: RotationConfig, files: map<string, string>, ins: seq<Input>, k: nat)
    requires 0 < k <= |ins|
    ensures var size := |FoundAtStart(c, files)|;
            var before, added := SizeAfter(c.maxBytes, size, ins[..k - 1]), |Terminated(ins[k - 1].line)|;
            && SizeAfter(c.maxBytes, size, ins[..k]) == (if before + added >= c.maxBytes then added else before + added)
            && Plan(c, files, ins[..k])
               == Plan(c, files, ins[..k - 1]) + (if before + added >= c.maxBytes then [ins[k - 1].ts] else [])
  {
    assert ins[..k][..k - 1] == ins[..k - 1];
  }

  /** Planned rotations carry stamps of the inputs. */
  lemma {:induction false} PlanFromInputs(c: RotationConfig, files: map<string, string>, ins: seq<Input>, k: nat)
    requires k <= |ins|
    ensures forall j :: 0 <= j < |Plan(c, files, ins[..k])| ==>
              exists i :: 0 <= i < k && ins[i].ts == Plan(c, files, ins[..k])[j]
  {
    if k == 0 {
      assert Plan(c, files, ins[..0]) == [];
    } else {
      PlanFromInputs(c, files, ins, k - 1);
      PlanStep(c, files, ins, k);
      var before, plan := Plan(c, files, ins[..k - 1]), Plan(c, files, ins[..k]);
      forall j | 0 <= j < |plan| ensures exists i :: 0 <= i < k && ins[i].ts == plan[j] {
        if j < |before| {
          var i :| 0 <= i < k - 1 && ins[i].ts == before[j];
          assert ins[i].ts == plan[j];
        } else {
          assert ins[k - 1].ts == plan[j];
        }
      }
    }
  }

  lemma RotationPlanned(c: RotationConfig, s: SinkState, ts: string, u: SinkState, q: WriteResult)
    requires Rotates(c, s, ts, u, q)
    ensures q != Written ==> !u.open || (u == s && c.base !in s.files)
    ensures q == Written ==> s.open && u.open && u.bytes == 0 && Stamps(u.log) == Stamps(s.log) + [ts]
  {
    var found := FirstFree(s.files, c.base, ts, 0);
    if s.open && c.base in s.files && found.Some? {
      StampsAppend(s.log, Rotation(RotatedName(c.base, ts, found.value), ts, found.value, s.start, s.lines));
    }
  }

  lemma LinePlanned(c: RotationConfig, s: SinkState, line: string, t: SinkState, r: WriteResult)
    requires WritesLine(c, s, line, t, r) && t.open && c.base in s.files
    ensures s.open && t.bytes == s.bytes + |Terminated(line)| && t.log == s.log
  {
  }

  /** What one write does to an open sink's byte counter and log. */
  lemma StepPlanned(c: RotationConfig, s: SinkState, i: Input, t: SinkState)
    requires Sound(c, s) && AllBounded(c, s) && Step(c, s, i, t) && t.open
    ensures s.open
    ensures MustRotate(c, s, i.line) ==> t.bytes == |Terminated(i.line)| && Stamps(t.log) == Stamps(s.log) + [i.ts]
    ensures !MustRotate(c, s, i.line) ==> t.bytes == s.bytes + |Terminated(i.line)| && t.log == s.log
  {
    var r :| Writes(c, s, i.line, i.ts, t, r);
    if MustRotate(c, s, i.line) {
      var u, q :| Rotates(c, s, i.ts, u, q)
                  && (if q == Written then WritesLine(c, u, i.line, t, r) else t == u && r == q);
      RotationPlanned(c, s, i.ts, u, q);
      RotatesSound(c, s, i.ts, u, q);
      LinePlanned(c, u, i.line, t, r);
    } else {
      LinePlanned(c, s, i.line, t, r);
    }
  }

  /** A write rotates exactly if its line, with the newline it may need, would make the base file reach the
      limit; the rotation then carries the stamp of that write, and the base file starts anew with the line. */
  lemma RotatesExactlyWhenFull(c: RotationConfig, files: map<string, string>, ins: seq<Input>, ss: seq<SinkState>,
                               k: nat)
    requires Run(c, files, ins, ss) && k < |ins| && ss[k + 1].open
    ensures ss[k].open && c.base in ss[k].files && c.base in ss[k + 1].files
    ensures var line, before, after := ins[k].line, |ss[k].files[c.base]|, |ss[k + 1].files[c.base]|;
            var added := |line| + (if line != "" && line[|line| - 1] == '\n' then 0 else 1);
            if before + added >= c.maxBytes then
              after == added && |ss[k + 1].log| == |ss[k].log| + 1 && ss[k + 1].log[|ss[k].log|].ts == ins[k].ts
            else after == before + added && ss[k + 1].log == ss[k].log
  {
    RunSound(c, files, ins, ss, k);
    RunSound(c, files, ins, ss, k + 1);
    StepPlanned(c, ss[k], ins[k], ss[k + 1]);
    if MustRotate(c, ss[k], ins[k].line) {
      assert |Stamps(ss[k + 1].log)| == |Stamps(ss[k].log)| + 1;
      assert ss[k + 1].log[|ss[k].log|].ts == Stamps(ss[k + 1].log)[|ss[k].log|];
    }
  }

  lemma NothingPlanned(c: RotationConfig, files: map<string, string>)
    ensures Stamps(Opened(c, files).log) == Plan(c, files, []) == []
    ensures Opened(c, files).bytes == SizeAfter(c.maxBytes, |FoundAtStart(c, files)|, [])
  {
  }

  /** As long as a sink is open, its rotations are exactly the planned ones: which write rotates depends
      on nothing but the size found at construction and the lines. */
  lemma {:induction false} RotatesAsPlanned(c: RotationConfig, files: map<string, string>, ins: seq<Input>,
                                            ss: seq<SinkState>, k: nat)
    requires Run(c, files, ins, ss) && k < |ss| && ss[k].open
    ensures Stamps(ss[k].log) == Plan(c, files, ins[..k])
    ensures ss[k].bytes == SizeAfter(c.maxBytes, |FoundAtStart(c, files)|, ins[..k])
  {
    if k == 0 {
      NothingPlanned(c, files);
    } else {
      RunSound(c, files, ins, ss, k - 1);
      StepPlanned(c, ss[k - 1], ins[k - 1], ss[k]);
      RotatesAsPlanned(c, files, ins, ss, k - 1);
      PlanStep(c, files, ins, k);
    }
  }

  // ----- a free name -----

  function NamesUpTo(base: string, ts: string, n: nat): set<string> {
    set k | 0 <= k < n :: RotatedName(base, ts, k)
  }

  lemma {:induction false} NamesUpToCount(base: string, ts: string, n: nat)
    requires IsStamp(ts) && n <= MAX_SEQ
    ensures |NamesUpTo(base, ts, n)| == n
  {
    if n > 0 {
      var k := n - 1;
      NamesUpToCount(base, ts, k);
      if RotatedName(base, ts, k) in NamesUpTo(base, ts, k) {
        var j :| 0 <= j < k && RotatedName(base, ts, j) == RotatedName(base, ts, k);
        RotatedNameInjective(base, ts, j, ts, k);
      }
      assert NamesUpTo(base, ts, n) == NamesUpTo(base, ts, k) + {RotatedName(base, ts, k)};
    }
  }

  lemma {:induction false} SubsetIsSmaller(small: set<string>, large: set<string>)
    requires small <= large
    ensures |small| <= |large|
    decreases small
  {
    if small != {} {
      var x :| x in small;
      SubsetIsSmaller(small - {x}, large - {x});
    }
  }

  /** Few enough rotated files, or none of this second. */
  ghost predicate LeavesName(base: string, rotated: set<string>, ts: string) {
    |rotated| < MAX_SEQ || forall fn :: fn in rotated ==> Parse(fn, base).Some? && Parse(fn, base).value.ts != ts
  }

  /** With fewer than 10000 rotated files in the directory, or none of this second, the second has a free name. */
  lemma NameIsFree(files: map<string, string>, base: string, ts: string)
    requires IsStamp(ts) && LeavesName(base, Candidates(files, base), ts)
    ensures FirstFree(files, base, ts, 0).Some?
  {
    FirstFreeIsLeast(files, base, ts, 0);
    if FirstFree(files, base, ts, 0).None? {
      forall k | 0 <= k < MAX_SEQ ensures RotatedName(base, ts, k) in Candidates(files, base) {
        ParseOfRotatedName(base, ts, k);
      }
      ParseOfRotatedName(base, ts, 0);
      NamesUpToCount(base, ts, MAX_SEQ);
      SubsetIsSmaller(NamesUpTo(base, ts, MAX_SEQ), Candidates(files, base));
    }
  }

  lemma PrunedCount(files: map<string, string>, base: string, limit: nat, kept: map<string, string>)
    requires Prunes(files, base, limit, kept) && limit > 0
    ensures |Candidates(kept, base)| <= limit
  {
    var gone := files.Keys - kept.Keys;
    assert Candidates(kept, base) == Candidates(files, base) - gone;
    assert Candidates(files, base) * gone == gone;
  }

  /** A rotation with pruning succeeds and leaves at most `limit` rotated files. */
  lemma PrunedRotation(c: RotationConfig, s: SinkState, ts: string, t: SinkState, r: WriteResult)
    requires Sound(c, s) && s.open && IsStamp(ts) && c.limit > 0 && Rotates(c, s, ts, t, r)
    requires LeavesName(c.base, Candidates(s.files, c.base), ts)
    ensures r == Written && t.open && |Candidates(t.files, c.base)| <= c.limit
  {
    NameIsFree(s.files, c.base, ts);
    var n := FirstFree(s.files, c.base, ts, 0).value;
    PrunedCount(Renamed(c, Closed(s), ts, n).files, c.base, c.limit, t.files);
  }

  lemma LineKeepsCandidates(c: RotationConfig, s: SinkState, line: string, t: SinkState, r: WriteResult)
    requires c.base in s.files && s.open && WritesLine(c, s, line, t, r)
    ensures t.open && t.log == s.log && Candidates(t.files, c.base) == Candidates(s.files, c.base)
  {
    assert t.files.Keys == s.files.Keys;
  }

  /** The sink is open, with the rotated files it found until it rotates and at most `limit` from then on. */
  ghost predicate FewRotated(c: RotationConfig, found: set<string>, s: SinkState) {
    && s.open
    && if s.log == [] then Candidates(s.files, c.base) == found
       else |Candidates(s.files, c.base)| <= c.limit
  }

  lemma StepStaysOpen(c: RotationConfig, found: set<string>, s: SinkState, i: Input, t: SinkState)
    requires 0 < c.limit < MAX_SEQ && LeavesName(c.base, found, i.ts) && FewRotated(c, found, s)
    requires Sound(c, s) && AllBounded(c, s) && IsStamp(i.ts) && Step(c, s, i, t)
    ensures FewRotated(c, found, t)
  {
    var r :| Writes(c, s, i.line, i.ts, t, r);
    if MustRotate(c, s, i.line) {
      var u, q :| Rotates(c, s, i.ts, u, q)
                  && (if q == Written then WritesLine(c, u, i.line, t, r) else t == u && r == q);
      PrunedRotation(c, s, i.ts, u, q);
      RotatesSound(c, s, i.ts, u, q);
      RotationPlanned(c, s, i.ts, u, q);
      LineKeepsCandidates(c, u, i.line, t, r);
      assert |Stamps(u.log)| == |u.log| > 0;
    } else {
      LineKeepsCandidates(c, s, i.line, t, r);
    }
  }

  lemma OpenedCandidates(c: RotationConfig, files: map<string, string>)
    ensures Candidates(Opened(c, files).files, c.base) == Candidates(files, c.base)
  {
    BaseDoesNotParse(c.base);
  }

  lemma NextStaysOpen(c: RotationConfig, files: map<string, string>, ins: seq<Input>, ss: seq<SinkState>, k: nat,
                      found: set<string>)
    requires 0 < c.limit < MAX_SEQ && Run(c, files, ins, ss) && k < |ins| && LeavesName(c.base, found, ins[k].ts)
    requires FewRotated(c, found, ss[k])
    ensures FewRotated(c, found, ss[k + 1])
  {
    RunSound(c, files, ins, ss, k);
    StepStaysOpen(c, found, ss[k], ins[k], ss[k + 1]);
  }

  ghost predicate AlwaysLeavesName(base: string, rotated: set<string>, ins: seq<Input>) {
    forall i :: 0 <= i < |ins| ==> LeavesName(base, rotated, ins[i].ts)
  }

  lemma {:induction false} FewRotatedAt(c: RotationConfig, found: set<string>, ss: seq<SinkState>, k: nat)
    requires k < |ss| && FewRotated(c, found, ss[0])
    requires forall j :: 0 <= j < |ss| - 1 && FewRotated(c, found, ss[j]) ==> FewRotated(c, found, ss[j + 1])
    ensures FewRotated(c, found, ss[k])
  {
    if k > 0 {
      FewRotatedAt(c, found, ss, k - 1);
    }
  }

  /** Pruning to fewer than 10000 files never runs out of names: if fewer than 10000 were found, whatever the
      stamps, or none of a second that is written in, the sink stays open through every run, and from the
      first rotation on at most `limit` rotated files are left. */
  lemma PruningStaysOpen(c: RotationConfig, files: map<string, string>, ins: seq<Input>, ss: seq<SinkState>, k: nat)
    requires 0 < c.limit < MAX_SEQ && Run(c, files, ins, ss) && k < |ss|
    requires AlwaysLeavesName(c.base, Candidates(files, c.base), ins)
    ensures FewRotated(c, Candidates(files, c.base), ss[k])
  {
    var found := Candidates(files, c.base);
    OpenedCandidates(c, files);
    forall j | 0 <= j < |ss| - 1 && FewRotated(c, found, ss[j]) ensures FewRotated(c, found, ss[j + 1]) {
      NextStaysOpen(c, files, ins, ss, j, found);
    }
    FewRotatedAt(c, found, ss, k);
  }

  // ----- every sequence of inputs has a run -----

  lemma NotAfterChain(base: string, x: string, z: string, rest: set<string>)
    requires NotAfter(base, x, z) && forall y :: y in rest ==> NotAfter(base, z, y)
    ensures forall y :: y in rest ==> NotAfter(base, x, y)
  {
    forall y | y in rest ensures NotAfter(base, x, y) {
      BeforeOrder(Parse(x, base).value, Parse(z, base).value, Parse(y, base).value);
    }
  }

  /** A candidate that comes after no other. */
  lemma {:induction false} FirstCandidate(base: string, all: set<string>) returns (x: string)
    requires all != {} && forall fn :: fn in all ==> Parse(fn, base).Some?
    ensures x in all && forall y :: y in all ==> NotAfter(base, x, y)
    decreases all
  {
    x :| x in all;
    var key, rest := Parse(x, base).value, all - {x};
    assert all == {x} + rest;
    BeforeOrder(key, key, key);
    if rest != {} {
      var z := FirstCandidate(base, rest);
      BeforeOrder(key, Parse(z, base).value, key);
      if NotAfter(base, z, x) {
        x := z;
      } else {
        NotAfterChain(base, x, z, rest);
      }
    }
  }

  lemma {:induction false} FirstCandidates(base: string, all: set<string>, n: nat) returns (gone: set<string>)
    requires n <= |all| && forall fn :: fn in all ==> Parse(fn, base).Some?
    ensures gone <= all && |gone| == n && forall x, y :: x in gone && y in all - gone ==> NotAfter(base, x, y)
    decreases n
  {
    gone := {};
    if n > 0 {
      var x := FirstCandidate(base, all);
      var others := FirstCandidates(base, all - {x}, n - 1);
      gone := {x} + others;
      forall a, b | a in gone && b in all - gone ensures NotAfter(base, a, b) {
        assert b in (all - {x}) - others;
      }
    }
  }

  lemma PruneExists(files: map<string, string>, base: string, limit: nat) returns (kept: map<string, string>)
    ensures Prunes(files, base, limit, kept)
  {
    var all := Candidates(files, base);
    var gone := FirstCandidates(base, all, if limit == 0 || |all| <= limit then 0 else |all| - limit);
    kept := files - gone;
    ExcessDeleted(files, base, limit, gone);
  }

  lemma RotationExists(c: RotationConfig, s: SinkState, ts: string) returns (t: SinkState, r: WriteResult)
    ensures Rotates(c, s, ts, t, r)
  {
    if !s.open || c.base !in s.files {
      return s, NullHandle;
    }
    var found := FirstFree(s.files, c.base, ts, 0);
    if found.None? {
      return Closed(s), NoUniqueName;
    }
    var u := Renamed(c, Closed(s), ts, found.value);
    var kept := PruneExists(u.files, c.base, c.limit);
    return u.(files := kept), Written;
  }

  lemma LineExists(c: RotationConfig, s: SinkState, line: string) returns (t: SinkState, r: WriteResult)
    ensures WritesLine(c, s, line, t, r)
  {
    if !s.open || c.base !in s.files {
      return s, NullHandle;
    }
    return Appended(c, s, line), Written;
  }

  lemma StepExists(c: RotationConfig, s: SinkState, i: Input) returns (t: SinkState)
    ensures Step(c, s, i, t)
  {
    var r: WriteResult;
    if !MustRotate(c, s, i.line) {
      t, r := LineExists(c, s, i.line);
    } else {
      var u, q := RotationExists(c, s, i.ts);
      if q == Written {
        t, r := LineExists(c, u, i.line);
      } else {
        t, r := u, q;
      }
    }
    assert Writes(c, s, i.line, i.ts, t, r);
  }

  /** No input blocks: from every directory there is a run for every sequence of lines and stamps. */
  lemma {:induction false} RunExists(c: RotationConfig, files: map<string, string>, ins: seq<Input>)
    returns (ss: seq<SinkState>)
    requires forall k :: 0 <= k < |ins| ==> IsStamp(ins[k].ts)
    ensures Run(c, files, ins, ss)
    decreases |ins|
  {
    if ins == [] {
      ss := [Opened(c, files)];
    } else {
      var n := |ins| - 1;
      var before := RunExists(c, files, ins[..n]);
      var t := StepExists(c, before[n], ins[n]);
      ss := before + [t];
      forall k | 0 <= k < n ensures Step(c, ss[k], ins[k], ss[k + 1]) {
        assert ins[..n][k] == ins[k] && ss[k] == before[k] && ss[k + 1] == before[k + 1];
      }
    }
  }
}
