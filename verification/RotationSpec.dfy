/** Size-based rotation with retention as a transition system over a directory of named byte strings. */
module RotationSpec {
  import opened Records
  import opened RotationNames

  const MAX_SEQ: nat := 10000

  datatype RotationConfig = RotationConfig(base: string, maxBytes: nat, limit: nat)

  /** One finished rotation: the new name with its stamp and sequence number, and what was renamed to it:
      the bytes found at opening followed by the lines written since. */
  datatype Rotation = Rotation(name: string, ts: string, n: nat, start: string, lines: seq<string>)

  /** `log`, `start`, `lines` and `stream` are history: finished rotations, the content of the base file
      at its last opening and the lines written to it since, and every byte the sink is answerable for. */
  datatype SinkState = SinkState(
    files: map<string, string>,
    open: bool,
    bytes: nat,
    rotations: nat,
    log: seq<Rotation>,
    start: string,
    lines: seq<string>,
    stream: string)

  datatype WriteResult = Written | NullHandle | NoUniqueName

  /** The bytes a line occupies: a newline is added unless it ends in one. */
  function Terminated(line: string): string {
    if line == "" || line[|line| - 1] != '\n' then line + "\n" else line
  }

  /** A line becomes itself and at most one newline, and ends in one. */
  lemma TerminatedLaws(line: string)
    ensures line <= Terminated(line) && |Terminated(line)| <= |line| + 1
    ensures Terminated(line) != "" && Terminated(line)[|Terminated(line)| - 1] == '\n'
    ensures Terminated(line) == line <==> (line != "" && line[|line| - 1] == '\n')
    ensures Terminated(Terminated(line)) == Terminated(line)
  {
  }

  /** The least sequence number from k on whose name is free, if there is one below the maximum. */
  function FirstFree(files: map<string, string>, base: string, ts: string, k: nat): Option<nat>
    requires k <= MAX_SEQ
    decreases MAX_SEQ - k
  {
    if k == MAX_SEQ then None
    else if RotatedName(base, ts, k) !in files then Some(k)
    else FirstFree(files, base, ts, k + 1)
  }

  /** Opening in append mode creates the file if it is missing and counts what is there. */
  function OpenFile(files: map<string, string>, path: string): map<string, string> {
    if path in files then files else files[path := ""]
  }

  function Opened(c: RotationConfig, files: map<string, string>): SinkState {
    var content := if c.base in files then files[c.base] else "";
    SinkState(OpenFile(files, c.base), true, |content|, 0, [], content, [], content)
  }

  function Closed(s: SinkState): SinkState {
    s.(open := false, bytes := 0)
  }

  /** Rename the base file to a free name and start an empty one. */
  function Renamed(c: RotationConfig, s: SinkState, ts: string, n: nat): SinkState
    requires c.base in s.files
  {
    var name := RotatedName(c.base, ts, n);
    s.(files := (s.files - {c.base})[name := s.files[c.base]][c.base := ""],
       open := true, bytes := 0, rotations := s.rotations + 1,
       log := s.log + [Rotation(name, ts, n, s.start, s.lines)], start := "", lines := [])
  }

  function Appended(c: RotationConfig, s: SinkState, line: string): SinkState
    requires c.base in s.files
  {
    var data := Terminated(line);
    s.(files := s.files[c.base := s.files[c.base] + data], bytes := s.bytes + |data|,
       lines := s.lines + [data], stream := s.stream + data)
  }

  // ----- pruning -----

  /** The regular files that parse as rotations of the base file. */
  function Candidates(files: map<string, string>, base: string): set<string> {
    set fn | fn in files && Parse(fn, base).Some?
  }

  /** The first is not considered after the second. */
  predicate NotAfter(base: string, x: string, y: string) {
    && Parse(x, base).Some? && Parse(y, base).Some?
    && !Before(Parse(y, base).value, Parse(x, base).value)
  }

  /** `gone` are the excess candidates, oldest first; ties may be broken either way. */
  predicate IsExcess(files: map<string, string>, base: string, limit: nat, gone: set<string>) {
    var all := Candidates(files, base);
    && gone <= all
    && |gone| == (if limit == 0 || |all| <= limit then 0 else |all| - limit)
    && (forall x, y :: x in gone && y in all - gone ==> NotAfter(base, x, y))
  }

  predicate Prunes(files: map<string, string>, base: string, limit: nat, kept: map<string, string>) {
    && kept.Keys <= files.Keys
    && IsExcess(files, base, limit, files.Keys - kept.Keys)
    && kept == files - (files.Keys - kept.Keys)
  }

  /** Deleting the excess candidates is pruning. */
  lemma ExcessDeleted(files: map<string, string>, base: string, limit: nat, gone: set<string>)
    requires IsExcess(files, base, limit, gone)
    ensures Prunes(files, base, limit, files - gone)
  {
    assert Candidates(files, base) <= files.Keys;
    assert (files - gone).Keys == files.Keys - gone;
    assert files.Keys - (files.Keys - gone) == gone;
  }

  // ----- one write -----

  predicate MustRotate(c: RotationConfig, s: SinkState, line: string) {
    s.bytes + |Terminated(line)| >= c.maxBytes
  }

  /** Rotation: flush (which needs an open file), close, pick a name, rename, reopen, prune. */
  predicate Rotates(c: RotationConfig, s: SinkState, ts: string, t: SinkState, r: WriteResult) {
    if !s.open || c.base !in s.files then t == s && r == NullHandle
    else match FirstFree(s.files, c.base, ts, 0)
      case None => t == Closed(s) && r == NoUniqueName
      case Some(n) =>
        var u := Renamed(c, Closed(s), ts, n);
        Prunes(u.files, c.base, c.limit, t.files) && t == u.(files := t.files) && r == Written
  }

  predicate WritesLine(c: RotationConfig, s: SinkState, line: string, t: SinkState, r: WriteResult) {
    if !s.open || c.base !in s.files then t == s && r == NullHandle
    else t == Appended(c, s, line) && r == Written
  }

  ghost predicate Writes(c: RotationConfig, s: SinkState, line: string, ts: string, t: SinkState, r: WriteResult) {
    if MustRotate(c, s, line) then
      exists u, q :: Rotates(c, s, ts, u, q)
                     && (if q == Written then WritesLine(c, u, line, t, r) else t == u && r == q)
    else WritesLine(c, s, line, t, r)
  }

  // ----- runs of writes -----

  datatype Input = Input(line: string, ts: string)

  ghost predicate Step(c: RotationConfig, s: SinkState, i: Input, t: SinkState) {
    exists r :: Writes(c, s, i.line, i.ts, t, r)
  }

  /** ss[k + 1] follows from ss[k] by writing ins[k], from a freshly constructed sink on. */
  ghost predicate Run(c: RotationConfig, files: map<string, string>, ins: seq<Input>, ss: seq<SinkState>) {
    && |ss| == |ins| + 1
    && ss[0] == Opened(c, files)
    && (forall k :: 0 <= k < |ins| ==> IsStamp(ins[k].ts) && Step(c, ss[k], ins[k], ss[k + 1]))
  }
}
