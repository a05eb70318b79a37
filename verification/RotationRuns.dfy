/** Every run of the rotating sink: nothing lost or overwritten, exact byte counts, bounded files. */
module RotationRuns {
  import opened Records
  import opened RotationNames
  import opened RotationSpec

  function Flatten(xs: seq<string>): string {
    if xs == [] then "" else Flatten(xs[..|xs| - 1]) + xs[|xs| - 1]
  }

  lemma FlattenAppend(xs: seq<string>, x: string)
    ensures Flatten(xs + [x]) == Flatten(xs) + x
  {
    assert (xs + [x])[..|xs|] == xs;
  }

  lemma FlattenOne(x: string)
    ensures Flatten([] + [x]) == x
  {
    FlattenAppend([], x);
  }

  lemma Regroup(a: string, b: string, d: string)
    ensures (a + b) + d == a + (b + d)
  {
  }

  function Content(r: Rotation): string {
    r.start + Flatten(r.lines)
  }

  function Contents(log: seq<Rotation>): seq<string> {
    seq(|log|, i requires 0 <= i < |log| => Content(log[i]))
  }

  /** The bytes of all input lines as they appear in the files. */
  function Submitted(ins: seq<Input>): seq<string> {
    seq(|ins|, i requires 0 <= i < |ins| => Terminated(ins[i].line))
  }

  // ----- the unique-name search -----

  /** r is the least number from k on whose name is free, or None if all are taken. */
  ghost predicate IsLeastFree(files: map<string, string>, base: string, ts: string, k: nat, r: Option<nat>) {
    && (r.None? <==> forall n :: k <= n < MAX_SEQ ==> RotatedName(base, ts, n) in files)
    && (r.Some? ==> k <= r.value < MAX_SEQ && RotatedName(base, ts, r.value) !in files
                    && forall n :: k <= n < r.value ==> RotatedName(base, ts, n) in files)
  }

  lemma TakenBelow(files: map<string, string>, base: string, ts: string, k: nat, r: Option<nat>)
    requires IsLeastFree(files, base, ts, k + 1, r) && RotatedName(base, ts, k) in files
    ensures IsLeastFree(files, base, ts, k, r)
  {
  }

  lemma {:induction false} FirstFreeIsLeast(files: map<string, string>, base: string, ts: string, k: nat)
    requires k <= MAX_SEQ
    ensures IsLeastFree(files, base, ts, k, FirstFree(files, base, ts, k))
    decreases MAX_SEQ - k
  {
    if k < MAX_SEQ && RotatedName(base, ts, k) in files {
      FirstFreeIsLeast(files, base, ts, k + 1);
      TakenBelow(files, base, ts, k, FirstFree(files, base, ts, k + 1));
    }
  }

  // ----- exact accounting and conservation -----

  /** The byte counter is the size of the base file; the base file is what it held at opening and the
      lines since; the finished files and the base file together are every byte ever taken. */
  ghost predicate Sound(c: RotationConfig, s: SinkState) {
    && c.base in s.files
    && (s.open ==> s.bytes == |s.files[c.base]|)
    && s.files[c.base] == s.start + Flatten(s.lines)
    && s.stream == Flatten(Contents(s.log)) + s.files[c.base]
    && s.rotations == |s.log|
  }

  /** Size of a file by how it was filled: below the limit, one line alone, or no line added. */
  predicate Bounded(c: RotationConfig, start: string, lines: seq<string>) {
    |start + Flatten(lines)| < c.maxBytes || (start == "" && |lines| == 1) || lines == []
  }

  predicate AllBounded(c: RotationConfig, s: SinkState) {
    && Bounded(c, s.start, s.lines)
    && (forall j :: 0 <= j < |s.log| ==> Bounded(c, s.log[j].start, s.log[j].lines))
    && (s.log != [] ==> s.start == "" && forall j :: 0 < j < |s.log| ==> s.log[j].start == "")
  }

  lemma RenamedSound(c: RotationConfig, s: SinkState, ts: string, n: nat)
    requires Sound(c, s) && AllBounded(c, s)
    ensures Sound(c, Renamed(c, Closed(s), ts, n)) && AllBounded(c, Renamed(c, Closed(s), ts, n))
  {
    var t := Renamed(c, Closed(s), ts, n);
    assert Contents(t.log) == Contents(s.log) + [s.files[c.base]];
    FlattenAppend(Contents(s.log), s.files[c.base]);
  }

  /** Pruning touches only files that parse as rotations, hence never the base file. */
  lemma PruneSpares(c: RotationConfig, files: map<string, string>, kept: map<string, string>)
    requires Prunes(files, c.base, c.limit, kept)
    ensures forall fn :: fn in files && Parse(fn, c.base).None? ==> fn in kept
    ensures forall fn :: fn in kept ==> fn in files && kept[fn] == files[fn]
    ensures c.base in files ==> c.base in kept
    ensures c.limit == 0 ==> kept == files
  {
    BaseDoesNotParse(c.base);
    if c.limit == 0 {
      assert files.Keys - kept.Keys == {};
    }
  }

  lemma RotatesSound(c: RotationConfig, s: SinkState, ts: string, t: SinkState, r: WriteResult)
    requires Sound(c, s) && AllBounded(c, s) && Rotates(c, s, ts, t, r)
    ensures Sound(c, t) && AllBounded(c, t)
    ensures r == Written ==> t.open && t.bytes == 0 && t.start == "" && t.lines == [] && t.stream == s.stream
    ensures r != Written ==> !t.open && t.stream == s.stream && t.files == s.files
  {
    var found := FirstFree(s.files, c.base, ts, 0);
    if s.open && found.Some? {
      RenamedSound(c, s, ts, found.value);
      PruneSpares(c, Renamed(c, Closed(s), ts, found.value).files, t.files);
    }
  }

  lemma AppendedSound(c: RotationConfig, s: SinkState, line: string)
    requires Sound(c, s) && AllBounded(c, s) && s.open
    requires !MustRotate(c, s, line) || (s.start == "" && s.lines == [])
    ensures Sound(c, Appended(c, s, line)) && AllBounded(c, Appended(c, s, line))
  {
    var data := Terminated(line);
    FlattenAppend(s.lines, data);
    Regroup(s.start, Flatten(s.lines), data);
    Regroup(Flatten(Contents(s.log)), s.files[c.base], data);
    if MustRotate(c, s, line) {
      FlattenOne(data);
    }
  }

  /** One write: the line is in the base file, which is then below the limit or that line alone; or the
      sink is closed and no byte has moved. */
  lemma WriteSound(c: RotationConfig, s: SinkState, line: string, ts: string, t: SinkState, r: WriteResult)
    requires Sound(c, s) && AllBounded(c, s) && Writes(c, s, line, ts, t, r)
    ensures Sound(c, t) && AllBounded(c, t)
    ensures r == Written <==> t.open
    ensures r == Written ==> s.open && t.stream == s.stream + Terminated(line)
    ensures r == Written ==> |t.files[c.base]| < c.maxBytes || t.files[c.base] == Terminated(line)
    ensures r != Written ==> t.stream == s.stream && t.files == s.files
  {
    if MustRotate(c, s, line) {
      var u, q :| Rotates(c, s, ts, u, q) && (if q == Written then WritesLine(c, u, line, t, r) else t == u && r == q);
      RotatesSound(c, s, ts, u, q);
      if q == Written {
        AppendedSound(c, u, line);
      }
    } else if s.open {
      AppendedSound(c, s, line);
    }
  }

  /** The rotation of an open sink fails, leaving it closed, exactly when every name of its second is taken. */
  lemma RotationFailsIffNamesExhausted(c: RotationConfig, s: SinkState, ts: string, t: SinkState, r: WriteResult)
    requires Sound(c, s) && s.open && Rotates(c, s, ts, t, r)
    ensures r == NoUniqueName <==> forall n :: 0 <= n < 10000 ==> RotatedName(c.base, ts, n) in s.files
    ensures r == NoUniqueName <==> !t.open
  {
    FirstFreeIsLeast(s.files, c.base, ts, 0);
  }

  // ----- whole runs -----

  lemma OpenedSound(c: RotationConfig, files: map<string, string>)
    ensures Sound(c, Opened(c, files)) && AllBounded(c, Opened(c, files))
  {
    var s := Opened(c, files);
    assert s.files[c.base] == s.start + "";
    assert Flatten(Contents([])) + s.start == s.start;
  }

  lemma StepSound(c: RotationConfig, s: SinkState, i: Input, t: SinkState)
    requires Sound(c, s) && AllBounded(c, s) && Step(c, s, i, t)
    ensures Sound(c, t) && AllBounded(c, t)
    ensures t.open ==> s.open && t.stream == s.stream + Terminated(i.line)
  {
    var r :| Writes(c, s, i.line, i.ts, t, r);
    WriteSound(c, s, i.line, i.ts, t, r);
  }

  lemma SubmittedAppend(before: string, ins: seq<Input>, k: nat)
    requires 0 < k <= |ins|
    ensures before + Flatten(Submitted(ins[..k]))
         == before + Flatten(Submitted(ins[..k - 1])) + Terminated(ins[k - 1].line)
  {
    var last := Terminated(ins[k - 1].line);
    assert Submitted(ins[..k]) == Submitted(ins[..k - 1]) + [last];
    FlattenAppend(Submitted(ins[..k - 1]), last);
    assert before + (Flatten(Submitted(ins[..k - 1])) + last) == before + Flatten(Submitted(ins[..k - 1])) + last;
  }

  lemma {:induction false} RunSound(c: RotationConfig, files: map<string, string>, ins: seq<Input>,
                                    ss: seq<SinkState>, k: nat)
    requires Run(c, files, ins, ss) && k < |ss|
    ensures Sound(c, ss[k]) && AllBounded(c, ss[k])
  {
    if k == 0 {
      OpenedSound(c, files);
    } else {
      RunSound(c, files, ins, ss, k - 1);
      StepSound(c, ss[k - 1], ins[k - 1], ss[k]);
    }
  }

  /** While the sink is open, its stream is the content found at construction and every line so far. */
  lemma {:induction false} RunStream(c: RotationConfig, files: map<string, string>, ins: seq<Input>,
                                     ss: seq<SinkState>, k: nat)
    requires Run(c, files, ins, ss) && k < |ss| && ss[k].open
    ensures ss[k].stream == Opened(c, files).stream + Flatten(Submitted(ins[..k]))
  {
    if k == 0 {
      assert Flatten(Submitted(ins[..0])) == "";
    } else {
      RunSound(c, files, ins, ss, k - 1);
      StepSound(c, ss[k - 1], ins[k - 1], ss[k]);
      RunStream(c, files, ins, ss, k - 1);
      SubmittedAppend(Opened(c, files).stream, ins, k);
    }
  }

  lemma ClosedStep(c: RotationConfig, s: SinkState, i: Input, t: SinkState)
    requires !s.open && Step(c, s, i, t)
    ensures t == s
  {
  }

  lemma {:induction false} ClosedFrom(c: RotationConfig, files: map<string, string>, ins: seq<Input>,
                                      ss: seq<SinkState>, k: nat, m: nat)
    requires Run(c, files, ins, ss) && k <= m < |ss| && !ss[k].open
    ensures ss[m] == ss[k]
    decreases m
  {
    if k < m {
      ClosedFrom(c, files, ins, ss, k, m - 1);
      ClosedStep(c, ss[m - 1], ins[m - 1], ss[m]);
    }
  }

  /** Once a write has failed the sink is closed, and every write of the rest of the run fails too and leaves
      the directory and all counters as that failure left them. */
  lemma ClosedForGood(c: RotationConfig, files: map<string, string>, ins: seq<Input>, ss: seq<SinkState>, k: nat,
                      m: nat, r: WriteResult)
    requires Run(c, files, ins, ss) && k < m < |ss|
    requires Writes(c, ss[k], ins[k].line, ins[k].ts, ss[k + 1], r) && r != Written
    ensures !ss[m].open && ss[m] == ss[k + 1] && ss[m].files == ss[k].files
  {
    RunSound(c, files, ins, ss, k);
    WriteSound(c, ss[k], ins[k].line, ins[k].ts, ss[k + 1], r);
    ClosedFrom(c, files, ins, ss, k + 1, m);
  }

  // ----- what the directory holds, under any retention limit -----

  function FoundAtStart(c: RotationConfig, files: map<string, string>): string {
    if c.base in files then files[c.base] else ""
  }

  /** The file is what one of the rotations renamed. */
  ghost predicate IsRotation(s: SinkState, fn: string) {
    fn in s.files && exists j :: 0 <= j < |s.log| && s.log[j].name == fn && s.files[fn] == Content(s.log[j])
  }

  predicate IsUntouched(files: map<string, string>, s: SinkState, fn: string) {
    fn in files && fn in s.files && s.files[fn] == files[fn]
  }

  /** Beside the base file there are only rotations and files as they were found; the first base file
      began with the content found at construction. */
  ghost predicate OnDisk(c: RotationConfig, files: map<string, string>, s: SinkState) {
    && (forall fn :: fn in s.files && fn != c.base ==> IsUntouched(files, s, fn) || IsRotation(s, fn))
    && FoundAtStart(c, files) == if s.log == [] then s.start else s.log[0].start
  }

  lemma RenamedOnDisk(c: RotationConfig, files: map<string, string>, s: SinkState, ts: string, n: nat)
    requires Sound(c, s) && OnDisk(c, files, s) && RotatedName(c.base, ts, n) !in s.files
    ensures OnDisk(c, files, Renamed(c, Closed(s), ts, n))
  {
    var t, m := Renamed(c, Closed(s), ts, n), |s.log|;
    assert t.log[..m] == s.log && t.log[m].name == RotatedName(c.base, ts, n);
    forall fn | fn in t.files && fn != c.base ensures IsUntouched(files, t, fn) || IsRotation(t, fn) {
      if fn == t.log[m].name {
        assert t.files[fn] == Content(t.log[m]);
      } else if !IsUntouched(files, s, fn) {
        var j :| 0 <= j < m && s.log[j].name == fn && s.files[fn] == Content(s.log[j]);
        assert t.log[j] == s.log[j];
      }
    }
  }

  /** No file beside the base file is new or changed. */
  ghost predicate SameButFewer(c: RotationConfig, s: SinkState, t: SinkState) {
    && t.log == s.log && t.start == s.start
    && (forall fn :: fn in t.files && fn != c.base ==> fn in s.files && t.files[fn] == s.files[fn])
  }

  lemma SmallerOnDisk(c: RotationConfig, files: map<string, string>, s: SinkState, t: SinkState)
    requires OnDisk(c, files, s) && SameButFewer(c, s, t)
    ensures OnDisk(c, files, t)
  {
    forall fn | fn in t.files && fn != c.base ensures IsUntouched(files, t, fn) || IsRotation(t, fn) {
      assert IsUntouched(files, s, fn) || IsRotation(s, fn);
    }
  }

  /** A rotation renames, leaving some of the files that are there then, or leaves the files alone. */
  lemma RotatesShape(c: RotationConfig, s: SinkState, ts: string, t: SinkState, r: WriteResult)
    returns (u: SinkState, n: nat)
    requires Sound(c, s) && Rotates(c, s, ts, t, r)
    ensures u == s || (RotatedName(c.base, ts, n) !in s.files && u == Renamed(c, Closed(s), ts, n))
    ensures SameButFewer(c, u, t)
  {
    u, n := s, 0;
    var found := FirstFree(s.files, c.base, ts, 0);
    if s.open && found.Some? {
      FirstFreeIsLeast(s.files, c.base, ts, 0);
      n := found.value;
      u := Renamed(c, Closed(s), ts, n);
      PruneSpares(c, u.files, t.files);
    }
  }

  lemma RotatesOnDisk(c: RotationConfig, files: map<string, string>, s: SinkState, ts: string, t: SinkState,
                      r: WriteResult)
    requires Sound(c, s) && OnDisk(c, files, s) && Rotates(c, s, ts, t, r)
    ensures OnDisk(c, files, t)
  {
    var u, n := RotatesShape(c, s, ts, t, r);
    if u != s {
      RenamedOnDisk(c, files, s, ts, n);
    }
    SmallerOnDisk(c, files, u, t);
  }

  lemma LineOnDisk(c: RotationConfig, files: map<string, string>, s: SinkState, line: string, t: SinkState,
                   r: WriteResult)
    requires OnDisk(c, files, s) && WritesLine(c, s, line, t, r)
    ensures OnDisk(c, files, t)
  {
    assert SameButFewer(c, s, t);
    SmallerOnDisk(c, files, s, t);
  }

  lemma StepOnDisk(c: RotationConfig, files: map<string, string>, s: SinkState, i: Input, t: SinkState)
    requires Sound(c, s) && OnDisk(c, files, s) && Step(c, s, i, t)
    ensures OnDisk(c, files, t)
  {
    var r :| Writes(c, s, i.line, i.ts, t, r);
    if MustRotate(c, s, i.line) {
      var u, q :| Rotates(c, s, i.ts, u, q)
                  && (if q == Written then WritesLine(c, u, i.line, t, r) else t == u && r == q);
      RotatesOnDisk(c, files, s, i.ts, u, q);
      if q == Written {
        LineOnDisk(c, files, u, i.line, t, r);
      }
    } else {
      LineOnDisk(c, files, s, i.line, t, r);
    }
  }

  lemma {:induction false} RunOnDisk(c: RotationConfig, files: map<string, string>, ins: seq<Input>,
                                     ss: seq<SinkState>, k: nat)
    requires Run(c, files, ins, ss) && k < |ss|
    ensures OnDisk(c, files, ss[k])
  {
    if k > 0 {
      RunOnDisk(c, files, ins, ss, k - 1);
      RunSound(c, files, ins, ss, k - 1);
      StepOnDisk(c, files, ss[k - 1], ins[k - 1], ss[k]);
    }
  }

  /** A rotated file is below the limit, one line alone, or the file found at construction, untouched. */
  ghost predicate WithinSize(c: RotationConfig, files: map<string, string>, s: SinkState, fn: string) {
    fn in s.files &&
    (|s.files[fn]| < c.maxBytes
     || (exists j :: 0 <= j < |s.log| && s.log[j].name == fn && s.log[j].lines == [s.files[fn]])
     || s.files[fn] == FoundAtStart(c, files))
  }

  lemma RotationWithinSize(c: RotationConfig, files: map<string, string>, s: SinkState, fn: string)
    requires c.maxBytes > 0 && AllBounded(c, s) && OnDisk(c, files, s) && IsRotation(s, fn)
    ensures WithinSize(c, files, s, fn)
  {
    var j :| 0 <= j < |s.log| && s.log[j].name == fn && s.files[fn] == Content(s.log[j]);
    ContentBounded(c, s.log[j]);
    if s.log[j].lines == [] {
      assert j > 0 ==> s.log[j].start == "";
    }
  }

  lemma ContentBounded(c: RotationConfig, r: Rotation)
    requires Bounded(c, r.start, r.lines)
    ensures |Content(r)| < c.maxBytes || r.lines == [Content(r)] || (r.lines == [] && Content(r) == r.start)
  {
    if |r.lines| == 1 && r.start == "" {
      assert r.lines == [] + [r.lines[0]];
      FlattenOne(r.lines[0]);
    }
  }

  lemma BaseBound(c: RotationConfig, s: SinkState, i: Input, t: SinkState)
    requires Sound(c, s) && AllBounded(c, s) && Step(c, s, i, t) && t.open
    ensures c.base in t.files
    ensures |t.files[c.base]| < c.maxBytes || t.files[c.base] == Terminated(i.line)
  {
    var r :| Writes(c, s, i.line, i.ts, t, r);
    WriteSound(c, s, i.line, i.ts, t, r);
  }

  lemma FilesBounded(c: RotationConfig, files: map<string, string>, s: SinkState)
    requires c.maxBytes > 0 && AllBounded(c, s) && OnDisk(c, files, s)
    ensures forall fn :: fn in s.files && fn != c.base ==>
              IsUntouched(files, s, fn) || (IsRotation(s, fn) && WithinSize(c, files, s, fn))
  {
    forall fn | IsRotation(s, fn) ensures WithinSize(c, files, s, fn) {
      RotationWithinSize(c, files, s, fn);
    }
  }

  /** In every run and under any retention limit: the byte counter is exact; after a write the base file
      is below the limit or that line alone; every other file is as it was found, or a rotation within
      the size bound. */
  lemma SizeBound(c: RotationConfig, files: map<string, string>, ins: seq<Input>, ss: seq<SinkState>, k: nat)
    requires c.maxBytes > 0 && Run(c, files, ins, ss) && k < |ss|
    ensures c.base in ss[k].files && (ss[k].open ==> ss[k].bytes == |ss[k].files[c.base]|)
    ensures k > 0 && ss[k].open ==>
              |ss[k].files[c.base]| < c.maxBytes || ss[k].files[c.base] == Terminated(ins[k - 1].line)
    ensures forall fn :: fn in ss[k].files && fn != c.base ==>
              IsUntouched(files, ss[k], fn) || (IsRotation(ss[k], fn) && WithinSize(c, files, ss[k], fn))
  {
    RunSound(c, files, ins, ss, k);
    RunOnDisk(c, files, ins, ss, k);
    FilesBounded(c, files, ss[k]);
    if k > 0 && ss[k].open {
      RunSound(c, files, ins, ss, k - 1);
      BaseBound(c, ss[k - 1], ins[k - 1], ss[k]);
    }
  }

  // ----- unlimited retention -----

  /** Every rotation is in the directory under its own name with its own content, no two share a name,
      and no file found at construction has been replaced. */
  ghost predicate NothingOverwritten(c: RotationConfig, files: map<string, string>, s: SinkState) {
    && (forall j :: 0 <= j < |s.log| ==>
          s.log[j].name in s.files && s.files[s.log[j].name] == Content(s.log[j]))
    && (forall j :: 0 <= j < |s.log| ==> s.log[j].name != c.base && s.log[j].name !in files)
    && (forall i, j :: 0 <= i < j < |s.log| ==> s.log[i].name != s.log[j].name)
    && (forall fn :: fn in files && fn != c.base ==> fn in s.files && s.files[fn] == files[fn])
  }

  lemma RenamedOverwritesNothing(c: RotationConfig, files: map<string, string>, s: SinkState, ts: string, n: nat)
    requires Sound(c, s) && NothingOverwritten(c, files, s) && RotatedName(c.base, ts, n) !in s.files
    ensures NothingOverwritten(c, files, Renamed(c, Closed(s), ts, n))
  {
    var t, m := Renamed(c, Closed(s), ts, n), |s.log|;
    assert t.log[..m] == s.log;
    forall j | 0 <= j < |t.log|
      ensures t.log[j].name in t.files && t.files[t.log[j].name] == Content(t.log[j])
      ensures t.log[j].name != c.base && t.log[j].name !in files && (j < m ==> t.log[j].name != t.log[m].name)
    {
      assert j < m ==> t.log[j] == s.log[j];
    }
  }

  lemma RotatesOverwritesNothing(c: RotationConfig, files: map<string, string>, s: SinkState, ts: string,
                                 t: SinkState, r: WriteResult)
    requires c.limit == 0 && Sound(c, s) && NothingOverwritten(c, files, s) && Rotates(c, s, ts, t, r)
    ensures NothingOverwritten(c, files, t)
  {
    var found := FirstFree(s.files, c.base, ts, 0);
    FirstFreeIsLeast(s.files, c.base, ts, 0);
    if s.open && found.Some? {
      RenamedOverwritesNothing(c, files, s, ts, found.value);
      PruneSpares(c, Renamed(c, Closed(s), ts, found.value).files, t.files);
    }
  }

  lemma AppendedOverwritesNothing(c: RotationConfig, files: map<string, string>, s: SinkState, line: string)
    requires Sound(c, s) && NothingOverwritten(c, files, s)
    ensures NothingOverwritten(c, files, Appended(c, s, line))
  {
  }

  lemma StepOverwritesNothing(c: RotationConfig, files: map<string, string>, s: SinkState, i: Input, t: SinkState)
    requires c.limit == 0 && Sound(c, s) && AllBounded(c, s)
    requires NothingOverwritten(c, files, s) && Step(c, s, i, t)
    ensures NothingOverwritten(c, files, t)
  {
    var r :| Writes(c, s, i.line, i.ts, t, r);
    if MustRotate(c, s, i.line) {
      var u, q :| Rotates(c, s, i.ts, u, q)
                  && (if q == Written then WritesLine(c, u, i.line, t, r) else t == u && r == q);
      RotatesOverwritesNothing(c, files, s, i.ts, u, q);
      if q == Written && u.open {
        RotatesSound(c, s, i.ts, u, q);
        AppendedOverwritesNothing(c, files, u, i.line);
      }
    } else {
      AppendedOverwritesNothing(c, files, s, i.line);
    }
  }

  lemma {:induction false} RunOverwritesNothing(c: RotationConfig, files: map<string, string>, ins: seq<Input>,
                                                ss: seq<SinkState>, k: nat)
    requires c.limit == 0 && Run(c, files, ins, ss) && k < |ss|
    ensures NothingOverwritten(c, files, ss[k])
  {
    if k > 0 {
      RunOverwritesNothing(c, files, ins, ss, k - 1);
      RunSound(c, files, ins, ss, k - 1);
      StepOverwritesNothing(c, files, ss[k - 1], ins[k - 1], ss[k]);
    }
  }

  /** The files the rotations went to, in rotation order. */
  function RotatedFiles(c: RotationConfig, s: SinkState): seq<string>
    requires forall j :: 0 <= j < |s.log| ==> s.log[j].name in s.files
  {
    seq(|s.log|, j requires 0 <= j < |s.log| => s.files[s.log[j].name])
  }

  /** With unlimited retention, the rotated files in rotation order followed by the base file are the
      content found at construction followed by every line written. */
  lemma RotationLosesNothing(c: RotationConfig, files: map<string, string>, ins: seq<Input>, ss: seq<SinkState>,
                             k: nat)
    requires c.limit == 0 && Run(c, files, ins, ss) && k < |ss| && ss[k].open
    ensures NothingOverwritten(c, files, ss[k]) && c.base in ss[k].files
    ensures Flatten(RotatedFiles(c, ss[k])) + ss[k].files[c.base]
         == FoundAtStart(c, files) + Flatten(Submitted(ins[..k]))
  {
    RunSound(c, files, ins, ss, k);
    RunStream(c, files, ins, ss, k);
    RunOverwritesNothing(c, files, ins, ss, k);
    assert RotatedFiles(c, ss[k]) == Contents(ss[k].log);
  }
}
