/** The file sink and the rotating file sink, as objects over a shared directory. */
module FileSinks {
  import opened Records
  import opened RotationNames
  import opened RotationSpec
  import opened StampOrder

  class Directory {
    var files: map<string, string>

    constructor (files: map<string, string>)
      ensures this.files == files
    {
      this.files := files;
    }
  }

  class FileSink {
    const dir: Directory
    var path: string
    var open: bool
    var bytesWritten: nat

    ghost predicate Valid()
      reads this, dir
    {
      open ==> path in dir.files
    }

    constructor (dir: Directory, path: string)
      ensures this.dir == dir && this.path == path && !open && bytesWritten == 0 && Valid()
    {
      this.dir := dir;
      this.path := path;
      open := false;
      bytesWritten := 0;
    }

    method WriteAll(data: string) returns (ok: bool)
      requires Valid()
      modifies dir
      ensures Valid() && ok == open
      ensures dir.files == if open then old(dir.files)[path := old(dir.files)[path] + data] else old(dir.files)
    {
      if !open {
        return false;
      }
      dir.files := dir.files[path := dir.files[path] + data];
      return true;
    }

    method WriteLine(line: string) returns (ok: bool)
      requires Valid()
      modifies this`bytesWritten, dir
      ensures Valid() && ok == open
      ensures !ok ==> dir.files == old(dir.files) && bytesWritten == old(bytesWritten)
      ensures ok ==> dir.files == old(dir.files)[path := old(dir.files)[path] + Terminated(line)]
      ensures ok ==> bytesWritten == old(bytesWritten) + |Terminated(line)|
    {
      ok := WriteAll(line);
      if !ok {
        return;
      }
      bytesWritten := bytesWritten + |line|;
      if line == "" || line[|line| - 1] != '\n' {
        ok := WriteAll("\n");
        bytesWritten := bytesWritten + 1;
        assert old(dir.files)[path] + line + "\n" == old(dir.files)[path] + (line + "\n");
      }
    }

    method Close()
      modifies this`open, this`bytesWritten
      ensures !open && bytesWritten == 0 && Valid()
    {
      open := false;
      bytesWritten := 0;
    }

    method Open()
      modifies this`open, this`bytesWritten, dir
      ensures Valid() && open
      ensures dir.files == OpenFile(old(dir.files), path) && bytesWritten == |dir.files[path]|
    {
      if path !in dir.files {
        dir.files := dir.files[path := ""];
      }
      open := true;
      bytesWritten := |dir.files[path]|;
    }

    method Reopen(newPath: string)
      modifies this`path, this`open, this`bytesWritten, dir
      ensures Valid() && open && path == newPath
      ensures dir.files == OpenFile(old(dir.files), path) && bytesWritten == |dir.files[path]|
    {
      Close();
      path := newPath;
      Open();
    }
  }

  datatype Candidate = Candidate(name: string, suffix: Suffix)

  class RotatingFileSink {
    const config: RotationConfig
    const file: FileSink
    var rotationsPerformed: nat
    ghost var log: seq<Rotation>
    ghost var start: string
    ghost var lines: seq<string>
    ghost var stream: string

    ghost predicate Valid()
      reads this, file, file.dir
    {
      file.Valid() && file.path == config.base
    }

    ghost function View(): SinkState
      reads this, file, file.dir
    {
      SinkState(file.dir.files, file.open, file.bytesWritten, rotationsPerformed, log, start, lines, stream)
    }

    /** The base-class part opens the file before the size limit is looked at. */
    static method Create(dir: Directory, base: string, maxBytes: nat, limit: nat)
      returns (r: Option<RotatingFileSink>)
      modifies dir
      ensures r.Some? <==> base != "" && maxBytes > 0
      ensures r.Some? ==> fresh(r.value) && fresh(r.value.file) && r.value.file.dir == dir && r.value.Valid()
      ensures r.Some? ==> r.value.config == RotationConfig(base, maxBytes, limit)
      ensures r.Some? ==> r.value.View() == Opened(r.value.config, old(dir.files))
      ensures r.None? ==> dir.files == if base == "" then old(dir.files) else OpenFile(old(dir.files), base)
    {
      if base == "" {
        return None;
      }
      var file := new FileSink(dir, base);
      file.Open();
      if maxBytes == 0 {
        return None;
      }
      var sink := new RotatingFileSink.Over(file, RotationConfig(base, maxBytes, limit));
      return Some(sink);
    }

    constructor Over(file: FileSink, config: RotationConfig)
      requires file.Valid() && file.open && file.path == config.base
      ensures this.file == file && this.config == config && Valid()
      ensures rotationsPerformed == 0 && log == [] && lines == []
      ensures start == file.dir.files[config.base] == stream
    {
      this.file := file;
      this.config := config;
      rotationsPerformed := 0;
      log, lines := [], [];
      start, stream := file.dir.files[config.base], file.dir.files[config.base];
    }

    /** The search for a name no file has yet. */
    method UniqueSeq(ts: string) returns (n: Option<nat>)
      ensures n == FirstFree(file.dir.files, config.base, ts, 0)
    {
      var k := 0;
      while k < MAX_SEQ
        invariant 0 <= k <= MAX_SEQ
        invariant FirstFree(file.dir.files, config.base, ts, 0) == FirstFree(file.dir.files, config.base, ts, k)
      {
        if RotatedName(config.base, ts, k) !in file.dir.files {
          return Some(k);
        }
        k := k + 1;
      }
      return None;
    }

    method Write(line: string, ts: string) returns (r: WriteResult)
      requires Valid()
      modifies this, file, file.dir
      ensures Valid()
      ensures Writes(config, old(View()), line, ts, View(), r)
    {
      var projected := file.bytesWritten + |line| + (if line == "" || line[|line| - 1] != '\n' then 1 else 0);
      ghost var s := View();
      if projected >= config.maxBytes {
        r := Rotate(ts);
        if r != Written {
          FailedRotation(config, s, line, ts, View(), r);
          return;
        }
      }
      ghost var u := View();
      r := Append(line);
      if projected >= config.maxBytes {
        RotatedThenWrote(config, s, line, ts, u, View(), r);
      }
    }

    method Append(line: string) returns (r: WriteResult)
      requires Valid()
      modifies this`lines, this`stream, file`bytesWritten, file.dir
      ensures Valid()
      ensures WritesLine(config, old(View()), line, View(), r)
    {
      var ok := file.WriteLine(line);
      if !ok {
        return NullHandle;
      }
      lines := lines + [Terminated(line)];
      stream := stream + Terminated(line);
      return Written;
    }

    method Rotate(ts: string) returns (r: WriteResult)
      requires Valid()
      modifies this, file, file.dir
      ensures Valid()
      ensures Rotates(config, old(View()), ts, View(), r)
    {
      if !file.open {
        return NullHandle;
      }
      ghost var content := file.dir.files[config.base];
      ghost var s := View();
      file.Close();
      var n := UniqueSeq(ts);
      if n.None? {
        return NoUniqueName;
      }
      var name := RotatedName(config.base, ts, n.value);
      file.dir.files := (file.dir.files - {config.base})[name := file.dir.files[config.base]];
      file.Reopen(config.base);
      rotationsPerformed := rotationsPerformed + 1;
      log := log + [Rotation(name, ts, n.value, start, lines)];
      start, lines := "", [];
      NameIsNotBase(config.base, ts, n.value);
      ghost var u := View();
      assert u == Renamed(config, Closed(s), ts, n.value);
      Prune();
      return Written;
    }

    method Prune()
      requires Valid() && file.open
      modifies file.dir
      ensures Valid()
      ensures Prunes(old(file.dir.files), config.base, config.limit, file.dir.files)
      ensures forall x, y :: x in old(file.dir.files) && x !in file.dir.files && y in file.dir.files ==>
                Parse(y, config.base).Some? ==> NoLater(config.base, x, y)
    {
      ghost var files := file.dir.files;
      if config.limit == 0 {
        NothingToPrune(files, config.base, config.limit);
        return;
      }
      var candidates := Collect(file.dir.files, config.base);
      CandidateCount(files, config.base, candidates);
      if |candidates| <= config.limit {
        NothingToPrune(files, config.base, config.limit);
        return;
      }
      PruneExcess(candidates);
      PrunesEarliest(files, config.base, config.limit, file.dir.files);
      BaseSurvives(files, config.base, config.limit, file.dir.files);
    }

    method PruneExcess(listed: seq<Candidate>)
      requires Lists(listed, file.dir.files, config.base) && 0 < config.limit < |listed|
      modifies file.dir
      ensures Prunes(old(file.dir.files), config.base, config.limit, file.dir.files)
    {
      ghost var files := file.dir.files;
      var oldest := OldestFirst(listed, file.dir.files, config.base, config.limit);
      DeleteAll(oldest);
      assert file.dir.files == files - Names(oldest);
    }

    method DeleteAll(candidates: seq<Candidate>)
      modifies file.dir
      ensures file.dir.files == old(file.dir.files) - Names(candidates)
    {
      var i := 0;
      while i < |candidates|
        invariant 0 <= i <= |candidates|
        invariant file.dir.files == old(file.dir.files) - Names(candidates[..i])
      {
        NamesAppend(candidates[..i], candidates[i]);
        assert candidates[..i + 1] == candidates[..i] + [candidates[i]];
        file.dir.files := file.dir.files - {candidates[i].name};
        i := i + 1;
      }
      assert candidates[..|candidates|] == candidates;
    }
  }

  lemma FailedRotation(c: RotationConfig, s: SinkState, line: string, ts: string, t: SinkState, r: WriteResult)
    requires MustRotate(c, s, line) && Rotates(c, s, ts, t, r) && r != Written
    ensures Writes(c, s, line, ts, t, r)
  {
  }

  lemma RotatedThenWrote(c: RotationConfig, s: SinkState, line: string, ts: string, u: SinkState, t: SinkState,
                         r: WriteResult)
    requires MustRotate(c, s, line) && Rotates(c, s, ts, u, Written) && WritesLine(c, u, line, t, r)
    ensures Writes(c, s, line, ts, t, r)
  {
  }

  lemma NothingToPrune(files: map<string, string>, base: string, limit: nat)
    requires limit == 0 || |Candidates(files, base)| <= limit
    ensures Prunes(files, base, limit, files)
  {
    assert files - {} == files;
    ExcessDeleted(files, base, limit, {});
  }

  lemma DeletingFirstPrunes(files: map<string, string>, base: string, limit: nat, cs: seq<Candidate>)
    requires Lists(cs, files, base) && Sorted(cs) && 0 < limit < |cs|
    ensures Prunes(files, base, limit, files - Names(cs[..|cs| - limit]))
  {
    FirstAreExcess(files, base, limit, cs);
    ExcessDeleted(files, base, limit, Names(cs[..|cs| - limit]));
  }

  /** The candidates to delete: all but the last `limit` in sorted order. */
  method OldestFirst(listed: seq<Candidate>, files: map<string, string>, base: string, limit: nat)
    returns (oldest: seq<Candidate>)
    requires Lists(listed, files, base) && 0 < limit < |listed|
    ensures Prunes(files, base, limit, files - Names(oldest))
  {
    var candidates := SortCandidates(listed, files, base);
    oldest := candidates[..|candidates| - limit];
    DeletingFirstPrunes(files, base, limit, candidates);
  }

  lemma BaseSurvives(files: map<string, string>, base: string, limit: nat, kept: map<string, string>)
    requires base in files && Prunes(files, base, limit, kept)
    ensures base in kept
  {
    BaseDoesNotParse(base);
    assert base !in Candidates(files, base);
  }

  lemma NameIsNotBase(base: string, ts: string, n: nat)
    ensures RotatedName(base, ts, n) != base
  {
    assert |RotatedName(base, ts, n)| > |base|;
  }

  // ----- the candidate list -----

  function Names(cs: seq<Candidate>): set<string> {
    set i | 0 <= i < |cs| :: cs[i].name
  }

  lemma NamesAppend(cs: seq<Candidate>, x: Candidate)
    ensures Names(cs + [x]) == Names(cs) + {x.name}
  {
    assert (cs + [x])[|cs|] == x;
    forall n | n in Names(cs) ensures n in Names(cs + [x]) {
      var i :| 0 <= i < |cs| && cs[i].name == n;
      assert (cs + [x])[i].name == n;
    }
  }

  /** Every candidate once, with its parsed suffix. */
  predicate Lists(cs: seq<Candidate>, files: map<string, string>, base: string) {
    && Names(cs) == Candidates(files, base)
    && (forall i :: 0 <= i < |cs| ==> Parse(cs[i].name, base) == Some(cs[i].suffix))
    && (forall i, j :: 0 <= i < j < |cs| ==> cs[i].name != cs[j].name)
  }

  predicate Sorted(cs: seq<Candidate>) {
    forall i, j :: 0 <= i < j < |cs| ==> !Before(cs[j].suffix, cs[i].suffix)
  }

  /** The directory scan, in whatever order the directory is listed. */
  method Collect(files: map<string, string>, base: string) returns (cs: seq<Candidate>)
    ensures Lists(cs, files, base)
  {
    var rest := files.Keys;
    cs := [];
    while rest != {}
      invariant rest <= files.Keys
      invariant Names(cs) == set fn | fn in files && fn !in rest && Parse(fn, base).Some?
      invariant forall i :: 0 <= i < |cs| ==> Parse(cs[i].name, base) == Some(cs[i].suffix)
      invariant forall i, j :: 0 <= i < j < |cs| ==> cs[i].name != cs[j].name
      decreases rest
    {
      var fn :| fn in rest;
      rest := rest - {fn};
      var suffix := ParseRotationSuffix(fn, base);
      if suffix.Some? {
        var x := Candidate(fn, suffix.value);
        assert forall i :: 0 <= i < |cs| ==> cs[i].name in Names(cs);
        NamesAppend(cs, x);
        cs := cs + [x];
      }
    }
  }

  /** A sort by (stamp, sequence number); the order of equal keys is not part of the contract. */
  method SortCandidates(cs: seq<Candidate>, files: map<string, string>, base: string) returns (r: seq<Candidate>)
    requires Lists(cs, files, base)
    ensures Lists(r, files, base) && |r| == |cs| && Sorted(r)
  {
    r := [];
    var i := 0;
    while i < |cs|
      invariant 0 <= i <= |cs|
      invariant |r| == i && Sorted(r) && multiset(r) == multiset(cs[..i])
    {
      r := InsertSorted(r, cs[i]);
      assert cs[..i + 1] == cs[..i] + [cs[i]];
      i := i + 1;
    }
    assert cs[..|cs|] == cs;
    PermutedLists(cs, r, files, base);
  }

  method InsertSorted(cs: seq<Candidate>, x: Candidate) returns (r: seq<Candidate>)
    requires Sorted(cs)
    ensures Sorted(r) && |r| == |cs| + 1 && multiset(r) == multiset(cs) + multiset{x}
  {
    var k := |cs|;
    while k > 0 && Before(x.suffix, cs[k - 1].suffix)
      invariant 0 <= k <= |cs|
      invariant forall i :: k <= i < |cs| ==> Before(x.suffix, cs[i].suffix)
    {
      k := k - 1;
    }
    r := cs[..k] + [x] + cs[k..];
    InsertedSorted(cs, x, k);
    InsertedSame(cs, x, k);
  }

  lemma InsertedSorted(cs: seq<Candidate>, x: Candidate, k: nat)
    requires Sorted(cs) && k <= |cs| && (k > 0 ==> !Before(x.suffix, cs[k - 1].suffix))
    requires forall i :: k <= i < |cs| ==> Before(x.suffix, cs[i].suffix)
    ensures Sorted(cs[..k] + [x] + cs[k..])
  {
    forall i | 0 <= i < k ensures !Before(x.suffix, cs[i].suffix) {
      BeforeOrder(cs[i].suffix, cs[k - 1].suffix, x.suffix);
    }
    forall i | k <= i < |cs| ensures !Before(cs[i].suffix, x.suffix) {
      BeforeOrder(x.suffix, cs[i].suffix, x.suffix);
    }
    var r := cs[..k] + [x] + cs[k..];
    forall i, j | 0 <= i < j < |r| ensures !Before(r[j].suffix, r[i].suffix) {
      assert r[i] == if i < k then cs[i] else if i == k then x else cs[i - 1];
      assert r[j] == if j < k then cs[j] else if j == k then x else cs[j - 1];
    }
  }

  lemma InsertedSame(cs: seq<Candidate>, x: Candidate, k: nat)
    requires k <= |cs|
    ensures multiset(cs[..k] + [x] + cs[k..]) == multiset(cs) + multiset{x}
  {
    assert cs == cs[..k] + cs[k..];
  }

  lemma PermutedLists(cs: seq<Candidate>, r: seq<Candidate>, files: map<string, string>, base: string)
    requires Lists(cs, files, base) && multiset(r) == multiset(cs)
    ensures Lists(r, files, base)
  {
    forall x ensures x in r <==> x in cs {
      assert x in r <==> x in multiset(r);
    }
    forall n ensures n in Names(r) <==> n in Names(cs) {
      if n in Names(r) {
        var i :| 0 <= i < |r| && r[i].name == n;
        assert r[i] in cs;
      }
      if n in Names(cs) {
        var i :| 0 <= i < |cs| && cs[i].name == n;
        assert cs[i] in r;
      }
    }
    forall i | 0 <= i < |r| ensures Parse(r[i].name, base) == Some(r[i].suffix) {
      assert r[i] in cs;
    }
    forall i, j | 0 <= i < j < |r| ensures r[i].name != r[j].name {
      if r[i].name == r[j].name {
        TwiceIn(r, i, j);
        OnceIn(cs, r[i]);
      }
    }
  }

  lemma TwiceIn(r: seq<Candidate>, i: nat, j: nat)
    requires i < j < |r| && r[i].suffix == r[j].suffix && r[i].name == r[j].name
    ensures multiset(r)[r[i]] >= 2
  {
    assert r == r[..i + 1] + r[i + 1..];
    assert r[i] in r[..i + 1] && r[i + 1..][j - i - 1] == r[i];
  }

  lemma {:induction false} OnceIn(cs: seq<Candidate>, x: Candidate)
    requires forall i, j :: 0 <= i < j < |cs| ==> cs[i].name != cs[j].name
    ensures multiset(cs)[x] <= 1
  {
    if cs != [] {
      OnceIn(cs[1..], x);
      assert cs == [cs[0]] + cs[1..];
      assert forall j :: 0 <= j < |cs[1..]| ==> cs[1..][j].name != cs[0].name;
    }
  }

  lemma {:induction false} NamesCount(cs: seq<Candidate>)
    requires forall i, j :: 0 <= i < j < |cs| ==> cs[i].name != cs[j].name
    ensures |Names(cs)| == |cs|
  {
    if cs != [] {
      var n := |cs| - 1;
      NamesCount(cs[..n]);
      NamesAppend(cs[..n], cs[n]);
      assert cs == cs[..n] + [cs[n]];
    }
  }

  lemma CandidateCount(files: map<string, string>, base: string, cs: seq<Candidate>)
    requires Lists(cs, files, base)
    ensures |Candidates(files, base)| == |cs|
  {
    NamesCount(cs);
  }

  /** The first names of the sorted list are the excess. */
  lemma FirstAreExcess(files: map<string, string>, base: string, limit: nat, cs: seq<Candidate>)
    requires Lists(cs, files, base) && Sorted(cs) && 0 < limit < |cs|
    ensures IsExcess(files, base, limit, Names(cs[..|cs| - limit]))
  {
    var k := |cs| - limit;
    var gone := Names(cs[..k]);
    NamesCount(cs);
    NamesCount(cs[..k]);
    forall j | 0 <= j < k ensures cs[j].name in gone {
      assert cs[..k][j].name == cs[j].name;
    }
    forall x | x in gone ensures x in Names(cs) {
      var i :| 0 <= i < k && cs[..k][i].name == x;
      assert cs[i].name == x;
    }
    forall x, y | x in gone && y in Candidates(files, base) - gone ensures NotAfter(base, x, y) {
      var i :| 0 <= i < k && cs[..k][i].name == x;
      var j :| 0 <= j < |cs| && cs[j].name == y;
      assert !Before(cs[j].suffix, cs[i].suffix);
    }
  }
}
