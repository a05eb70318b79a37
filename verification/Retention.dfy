/** Retention, one rotation at a time: which name it takes and which rotated files pruning leaves. */
module Retention {
  import opened Records
  import opened RotationNames
  import opened RotationSpec
  import opened RotationRuns
  import opened RotationPlan

  /** How many of the rotations carry the stamp. */
  function Count(log: seq<Rotation>, ts: string): nat {
    if log == [] then 0
    else Count(log[..|log| - 1], ts) + (if log[|log| - 1].ts == ts then 1 else 0)
  }

  lemma {:induction false} CountMonotone(log: seq<Rotation>, j: nat, k: nat, ts: string)
    requires j <= k <= |log|
    ensures Count(log[..j], ts) <= Count(log[..k], ts)
    ensures (exists i :: j <= i < k && log[i].ts == ts) ==> Count(log[..j], ts) < Count(log[..k], ts)
    decreases k
  {
    if j < k {
      CountMonotone(log, j, k - 1, ts);
      assert log[..k][..k - 1] == log[..k - 1];
    }
  }

  /** Stamps never decrease. */
  ghost predicate InOrder(log: seq<Rotation>) {
    forall i, j :: 0 <= i < j < |log| ==> !Less(log[j].ts, log[i].ts)
  }

  /** The rotations of one stamp that end an ordered log are its last ones, numbered from zero. */
  lemma {:induction false} SameStampAtEnd(log: seq<Rotation>, ts: string, k: nat)
    requires InOrder(log) && (forall j :: 0 <= j < |log| ==> !Less(ts, log[j].ts)) && k < Count(log, ts)
    ensures Count(log, ts) <= |log|
    ensures var j := |log| - Count(log, ts) + k; log[j].ts == ts && Count(log[..j], ts) == k
    decreases |log|
  {
    var n := |log| - 1;
    if log[n].ts != ts {
      LessTotal(log[n].ts, ts);
      OlderStampsAbsent(log, ts);
    } else {
      CountBound(log[..n], ts);
      if k < Count(log[..n], ts) {
        SameStampAtEnd(log[..n], ts, k);
        var j := n - Count(log[..n], ts) + k;
        assert log[..n][..j] == log[..j];
      }
    }
  }

  lemma {:induction false} CountBound(log: seq<Rotation>, ts: string)
    ensures Count(log, ts) <= |log|
  {
    if log != [] {
      CountBound(log[..|log| - 1], ts);
    }
  }

  /** A stamp after all of an ordered log does not occur in it. */
  lemma {:induction false} OlderStampsAbsent(log: seq<Rotation>, ts: string)
    requires InOrder(log) && log != [] && Less(log[|log| - 1].ts, ts)
    ensures Count(log, ts) == 0
  {
    forall j | 0 <= j < |log| ensures log[j].ts != ts {
      LessTotal(log[j].ts, ts);
    }
    AbsentCount(log, ts);
  }

  lemma {:induction false} AbsentCount(log: seq<Rotation>, ts: string)
    requires forall j :: 0 <= j < |log| ==> log[j].ts != ts
    ensures Count(log, ts) == 0
  {
    if log != [] {
      AbsentCount(log[..|log| - 1], ts);
    }
  }

  /** No rotation in the log is later. */
  ghost predicate IsLatest(log: seq<Rotation>, ts: string) {
    forall j :: 0 <= j < |log| ==> !Less(ts, log[j].ts)
  }

  // ----- what retention promises -----

  function NamesFrom(log: seq<Rotation>, from: nat): set<string> {
    set j | from <= j < |log| :: log[j].name
  }

  ghost predicate DistinctFrom(log: seq<Rotation>, from: nat) {
    forall i, j :: from <= i < j < |log| ==> log[i].name != log[j].name
  }

  ghost predicate Stored(log: seq<Rotation>, files: map<string, string>, from: nat) {
    forall j :: from <= j < |log| ==> log[j].name in files && files[log[j].name] == Content(log[j])
  }

  /** The rotated files in the directory are the rotations from `from` on, each with its content, and the
      older ones in `aged`. */
  ghost predicate Retains(base: string, log: seq<Rotation>, files: map<string, string>, from: nat, aged: set<string>) {
    && from <= |log|
    && Candidates(files, base) == NamesFrom(log, from) + aged
    && Stored(log, files, from)
    && DistinctFrom(log, from)
  }

  /** The first rotation to be kept; a limit of 0 keeps them all. */
  function Oldest(rotations: nat, limit: nat): (from: nat)
    ensures from <= rotations
  {
    if limit == 0 || rotations <= limit then 0 else rotations - limit
  }

  function AtMost(a: nat, b: int): nat {
    if b <= 0 then 0 else if a <= b then a else b
  }

  /** How many of the rotated files found at construction are left: the first rotation prunes them to what
      the limit leaves beside the rotations. */
  function Room(found: nat, rotations: nat, limit: nat): nat {
    if limit == 0 || rotations == 0 then found else AtMost(found, limit - rotations)
  }

  /** The rotated files found at construction that are still there. */
  function OldKept(base: string, found: map<string, string>, files: map<string, string>): set<string> {
    Candidates(found, base) * files.Keys
  }

  /** Those left are as they were found, as many as there is room for, and none is older than one pruned. */
  ghost predicate KeepsFound(c: RotationConfig, found: map<string, string>, files: map<string, string>, rotations: nat) {
    var all, aged := Candidates(found, c.base), OldKept(c.base, found, files);
    && |aged| == Room(|all|, rotations, c.limit)
    && (forall fn :: fn in aged ==> files[fn] == found[fn])
    && (forall x, y :: x in all - aged && y in aged ==> NotAfter(c.base, x, y))
  }

  /** The rotated files are the latest ones: the last min(|log|, limit) rotations, each with its content, and,
      as far as the limit leaves room, the newest of the files found at construction. */
  ghost predicate KeepsLatest(c: RotationConfig, found: map<string, string>, s: SinkState) {
    && Retains(c.base, s.log, s.files, Oldest(|s.log|, c.limit), OldKept(c.base, found, s.files))
    && KeepsFound(c, found, s.files, |s.log|)
  }

  /** All of the files have stamps before ts. */
  ghost predicate Older(base: string, aged: set<string>, ts: string) {
    forall fn :: fn in aged ==> Parse(fn, base).Some? && Less(Parse(fn, base).value.ts, ts)
  }

  ghost predicate OlderThanLog(base: string, aged: set<string>, log: seq<Rotation>) {
    forall j :: 0 <= j < |log| ==> Older(base, aged, log[j].ts)
  }

  /** Pruning can get in the way of the names of one second. */
  predicate Prunable(c: RotationConfig) {
    1 <= c.limit < MAX_SEQ
  }

  /** How many rotations may share a stamp. */
  function PerStamp(c: RotationConfig): (n: nat)
    ensures 1 < n <= MAX_SEQ
  {
    if Prunable(c) then c.limit + 1 else MAX_SEQ
  }

  // ----- names and order of the rotations so far -----

  /** The rotation's name is printed from its stamp and number. */
  predicate Named(c: RotationConfig, r: Rotation) {
    IsStamp(r.ts) && r.n < MAX_SEQ && r.name == RotatedName(c.base, r.ts, r.n)
  }

  /** Each rotation is properly named and numbered by the earlier rotations of its stamp. */
  ghost predicate Numbered(c: RotationConfig, log: seq<Rotation>) {
    log == [] ||
    var n := |log| - 1;
    Numbered(c, log[..n]) && Named(c, log[n]) && log[n].n == Count(log[..n], log[n].ts)
  }

  lemma {:induction false} NumberedAt(c: RotationConfig, log: seq<Rotation>, j: nat)
    requires Numbered(c, log) && j < |log|
    ensures Named(c, log[j]) && log[j].n == Count(log[..j], log[j].ts)
  {
    var n := |log| - 1;
    if j < n {
      NumberedAt(c, log[..n], j);
      assert log[..n][..j] == log[..j];
    }
  }

  function Key(r: Rotation): Suffix {
    Suffix(r.ts, r.n)
  }

  lemma ParseName(c: RotationConfig, r: Rotation)
    requires Named(c, r)
    ensures Parse(r.name, c.base) == Some(Key(r))
  {
    ParseOfRotatedName(c.base, r.ts, r.n);
  }

  /** In a numbered ordered log the keys increase strictly, so an earlier file is pruned before a later. */
  lemma EarlierComesFirst(c: RotationConfig, log: seq<Rotation>, i: nat, j: nat)
    requires InOrder(log) && Numbered(c, log) && i < j < |log|
    ensures log[i].name != log[j].name && !NotAfter(c.base, log[j].name, log[i].name)
  {
    NumberedAt(c, log, i);
    NumberedAt(c, log, j);
    LessTotal(log[i].ts, log[j].ts);
    CountMonotone(log, i, j, log[j].ts);
    assert Before(Key(log[i]), Key(log[j]));
    SmallerKeyFirst(c, log[i], log[j]);
  }

  lemma SmallerKeyFirst(c: RotationConfig, a: Rotation, b: Rotation)
    requires Named(c, a) && Named(c, b) && Before(Key(a), Key(b))
    ensures a.name != b.name && !NotAfter(c.base, b.name, a.name)
  {
    ParseName(c, a);
    ParseName(c, b);
    LessTotal(a.ts, b.ts);
  }

  lemma NumberedAppend(c: RotationConfig, log: seq<Rotation>, r: Rotation)
    requires InOrder(log) && Numbered(c, log) && Named(c, r) && r.n == Count(log, r.ts) && IsLatest(log, r.ts)
    ensures InOrder(log + [r]) && Numbered(c, log + [r])
  {
    assert (log + [r])[..|log|] == log;
  }

  // ----- the next free number -----

  lemma LeastIsFirstFree(files: map<string, string>, base: string, ts: string, n: nat)
    requires n < MAX_SEQ && RotatedName(base, ts, n) !in files
    requires forall k :: 0 <= k < n ==> RotatedName(base, ts, k) in files
    ensures FirstFree(files, base, ts, 0) == Some(n)
  {
    FirstFreeIsLeast(files, base, ts, 0);
  }

  /** Until a stamp has been used PerStamp times, its next free number is the number of uses. */
  lemma NextNumber(c: RotationConfig, log: seq<Rotation>, files: map<string, string>, aged: set<string>, ts: string)
    requires Retains(c.base, log, files, Oldest(|log|, c.limit), aged) && InOrder(log) && Numbered(c, log)
    requires IsStamp(ts) && IsLatest(log, ts) && Older(c.base, aged, ts) && Count(log, ts) < PerStamp(c)
    ensures FirstFree(files, c.base, ts, 0) == Some(Count(log, ts))
  {
    var used := Count(log, ts);
    forall k | 0 <= k < used ensures RotatedName(c.base, ts, k) in files {
      UsedNumberIsLive(c, log, files, ts, k);
    }
    NumberNotLive(c, log, files, aged, ts, used);
    LeastIsFirstFree(files, c.base, ts, used);
  }

  /** Then, with pruning, number 0 is free again ... */
  lemma FreedNumber(c: RotationConfig, log: seq<Rotation>, files: map<string, string>, aged: set<string>, ts: string)
    requires Retains(c.base, log, files, Oldest(|log|, c.limit), aged) && Numbered(c, log)
    requires IsStamp(ts) && Older(c.base, aged, ts) && Prunable(c) && Count(log, ts) == PerStamp(c)
    ensures FirstFree(files, c.base, ts, 0) == Some(0)
  {
    NumberNotLive(c, log, files, aged, ts, 0);
    LeastIsFirstFree(files, c.base, ts, 0);
  }

  /** ... and without it no number is left. */
  lemma NoNumberLeft(c: RotationConfig, log: seq<Rotation>, files: map<string, string>, ts: string)
    requires Stored(log, files, Oldest(|log|, c.limit)) && InOrder(log) && Numbered(c, log)
    requires IsLatest(log, ts) && !Prunable(c) && Count(log, ts) == PerStamp(c)
    ensures FirstFree(files, c.base, ts, 0) == None
  {
    forall k | 0 <= k < MAX_SEQ ensures RotatedName(c.base, ts, k) in files {
      UsedNumberIsLive(c, log, files, ts, k);
    }
    FirstFreeIsLeast(files, c.base, ts, 0);
  }

  lemma UsedNumberIsLive(c: RotationConfig, log: seq<Rotation>, files: map<string, string>, ts: string, k: nat)
    requires Stored(log, files, Oldest(|log|, c.limit)) && InOrder(log) && Numbered(c, log) && IsLatest(log, ts)
    requires k < Count(log, ts) && (c.limit == 0 || Count(log, ts) <= c.limit)
    ensures RotatedName(c.base, ts, k) in files
  {
    SameStampAtEnd(log, ts, k);
    var j := |log| - Count(log, ts) + k;
    NumberedAt(c, log, j);
    assert log[j].name == RotatedName(c.base, ts, k);
  }

  /** A number no retained rotation of the stamp has is free. */
  lemma NumberNotLive(c: RotationConfig, log: seq<Rotation>, files: map<string, string>, aged: set<string>, ts: string,
                      n: nat)
    requires Retains(c.base, log, files, Oldest(|log|, c.limit), aged) && Numbered(c, log)
    requires IsStamp(ts) && n < MAX_SEQ && Older(c.base, aged, ts)
    requires n >= Count(log, ts) || (n == 0 && Prunable(c) && Count(log, ts) == c.limit + 1)
    ensures RotatedName(c.base, ts, n) !in files
  {
    var name, from := RotatedName(c.base, ts, n), Oldest(|log|, c.limit);
    ParseOfRotatedName(c.base, ts, n);
    LessTotal(ts, ts);
    if name in files {
      assert name in Candidates(files, c.base) && name !in aged;
      var j :| from <= j < |log| && log[j].name == name;
      NumberedAt(c, log, j);
      ParseName(c, log[j]);
      LiveNumber(log, ts, j);
    }
  }

  /** The rotation at j has a number below the uses of its stamp, and if it is 0, is that far back. */
  lemma LiveNumber(log: seq<Rotation>, ts: string, j: nat)
    requires j < |log| && log[j].ts == ts
    ensures Count(log[..j], ts) < Count(log, ts)
    ensures Count(log[..j], ts) == 0 ==> j + Count(log, ts) <= |log|
  {
    CountMonotone(log, j, |log|, ts);
    assert log[..|log|] == log;
    if Count(log[..j], ts) == 0 {
      FirstIsGone(log, ts, j);
    }
  }

  /** If the stamp has c uses, the rotation at j with number 0 is at least c places from the end. */
  lemma {:induction false} FirstIsGone(log: seq<Rotation>, ts: string, j: nat)
    requires j < |log| && log[j].ts == ts && Count(log[..j], ts) == 0
    ensures j + Count(log, ts) <= |log|
    decreases |log|
  {
    var n := |log| - 1;
    if j < n {
      assert log[..n][..j] == log[..j];
      FirstIsGone(log[..n], ts, j);
    }
  }

  // ----- the directory after renaming and pruning -----

  lemma {:induction false} NamesFromCount(log: seq<Rotation>, from: nat)
    requires from <= |log| && DistinctFrom(log, from)
    ensures |NamesFrom(log, from)| == |log| - from
    decreases |log|
  {
    if from < |log| {
      NamesFromCount(log[..|log| - 1], from);
      NamesFromSplit(log, from);
    } else {
      assert NamesFrom(log, from) == {};
    }
  }

  lemma NamesFromSplit(log: seq<Rotation>, from: nat)
    requires from < |log|
    ensures NamesFrom(log, from) == NamesFrom(log[..|log| - 1], from) + {log[|log| - 1].name}
  {
    var n := |log| - 1;
    forall x | x in NamesFrom(log, from) ensures x in NamesFrom(log[..n], from) + {log[n].name} {
      var j :| from <= j < |log| && log[j].name == x;
      assert j < n ==> log[..n][j] == log[j];
    }
    forall x | x in NamesFrom(log[..n], from) ensures x in NamesFrom(log, from) {
      var j :| from <= j < n && log[..n][j].name == x;
      assert log[j].name == x;
    }
    assert log[n].name in NamesFrom(log, from);
  }

  lemma NamesFromTail(log: seq<Rotation>, from: nat)
    requires from < |log| && DistinctFrom(log, from)
    ensures NamesFrom(log, from + 1) == NamesFrom(log, from) - {log[from].name}
  {
  }

  /** Renaming to a free name adds exactly that name to the rotated files. */
  lemma RenamedCandidates(c: RotationConfig, s: SinkState, ts: string, n: nat)
    requires c.base in s.files && IsStamp(ts) && n < MAX_SEQ && RotatedName(c.base, ts, n) !in s.files
    ensures var files := Renamed(c, Closed(s), ts, n).files;
            && Candidates(files, c.base) == Candidates(s.files, c.base) + {RotatedName(c.base, ts, n)}
            && (forall fn :: fn in Candidates(s.files, c.base) ==> files[fn] == s.files[fn])
            && files[RotatedName(c.base, ts, n)] == s.files[c.base]
  {
    ParseOfRotatedName(c.base, ts, n);
    BaseDoesNotParse(c.base);
  }

  /** One more rotation, under a name not retained, is retained with the others. */
  lemma RetainsOneMore(base: string, log: seq<Rotation>, files: map<string, string>, from: nat, aged: set<string>,
                       x: Rotation, files': map<string, string>)
    requires Retains(base, log, files, from, aged) && x.name !in Candidates(files, base)
    requires Candidates(files', base) == Candidates(files, base) + {x.name}
    requires forall fn :: fn in Candidates(files, base) ==> files'[fn] == files[fn]
    requires files'[x.name] == Content(x)
    ensures Retains(base, log + [x], files', from, aged)
  {
    var log' := log + [x];
    assert log'[..|log|] == log;
    NamesFromSplit(log', from);
    forall j | from <= j < |log|
      ensures log[j].name in files' && files'[log[j].name] == Content(log[j]) && log[j].name != x.name
    {
      assert log[j].name in NamesFrom(log, from);
    }
  }

  lemma NothingExceeds(files: map<string, string>, base: string, limit: nat, kept: map<string, string>)
    requires Prunes(files, base, limit, kept) && (limit == 0 || |Candidates(files, base)| <= limit)
    ensures kept == files
  {
    assert files.Keys - kept.Keys == {};
  }

  /** With one file too many, pruning removes a file that no remaining one precedes. */
  lemma OneIsGone(files: map<string, string>, base: string, limit: nat, kept: map<string, string>)
    returns (gone: string)
    requires 1 <= limit && Prunes(files, base, limit, kept)
    requires |Candidates(files, base)| == limit + 1
    ensures gone in Candidates(files, base)
    ensures Candidates(kept, base) == Candidates(files, base) - {gone}
    ensures forall fn :: fn in kept ==> fn in files && kept[fn] == files[fn]
    ensures forall y :: y in Candidates(kept, base) ==> NotAfter(base, gone, y)
  {
    var out := files.Keys - kept.Keys;
    assert |out| == 1;
    gone :| gone in out;
    assert |out - {gone}| == 0;
    assert out == {gone};
  }

  /** Rotations are pruned after all older files. */
  lemma OlderComesFirst(c: RotationConfig, log: seq<Rotation>, j: nat, aged: set<string>, y: string)
    requires Numbered(c, log) && j < |log| && Older(c.base, aged, log[j].ts) && y in aged
    ensures y != log[j].name && !NotAfter(c.base, log[j].name, y)
  {
    NumberedAt(c, log, j);
    ParseName(c, log[j]);
    LessTotal(log[j].ts, log[j].ts);
  }

  lemma OldIsApart(c: RotationConfig, log: seq<Rotation>, from: nat, aged: set<string>)
    requires Numbered(c, log) && OlderThanLog(c.base, aged, log)
    ensures NamesFrom(log, from) !! aged
    ensures forall x, y :: x in NamesFrom(log, from) && y in aged ==> !NotAfter(c.base, x, y)
  {
    forall x, y | x in NamesFrom(log, from) && y in aged ensures x != y && !NotAfter(c.base, x, y) {
      var j :| from <= j < |log| && log[j].name == x;
      OlderComesFirst(c, log, j, aged, y);
    }
  }

  /** As long as older files are enough to make room, nothing else goes. */
  lemma OldGoFirst(base: string, names: set<string>, aged: set<string>, gone: set<string>)
    requires gone <= names + aged && |gone| <= |aged|
    requires forall x, y :: x in gone && y in (names + aged) - gone ==> NotAfter(base, x, y)
    requires forall x, y :: x in names && y in aged ==> !NotAfter(base, x, y)
    requires names !! aged
    ensures gone <= aged
  {
    if x :| x in gone && x !in aged {
      forall y | y in aged ensures y in gone {
        assert x in names;
      }
      assert |aged + {x}| == |aged| + 1;
      SubsetIsSmaller(aged + {x}, gone);
    }
  }

  /** What pruning leaves of the older files. */
  ghost predicate KeepsNewest(base: string, aged: set<string>, kept: map<string, string>, size: nat) {
    && |aged * kept.Keys| == size
    && (forall x, y :: x in aged - kept.Keys && y in aged * kept.Keys ==> NotAfter(base, x, y))
  }

  lemma CandidateCount(c: RotationConfig, log: seq<Rotation>, files: map<string, string>, from: nat, aged: set<string>)
    requires Retains(c.base, log, files, from, aged) && Numbered(c, log) && OlderThanLog(c.base, aged, log)
    ensures |Candidates(files, c.base)| == |log| - from + |aged|
  {
    NamesFromCount(log, from);
    OldIsApart(c, log, from, aged);
  }

  /** How many older files pruning leaves beside the rotations. */
  function OlderLeft(aged: nat, rotations: nat, limit: nat): nat {
    if limit == 0 then aged else AtMost(aged, limit - rotations)
  }

  /** Pruning after one more rotation leaves the latest: older files go first, then the oldest rotation. */
  lemma PrunedToLatest(c: RotationConfig, log: seq<Rotation>, files: map<string, string>, aged: set<string>,
                       kept: map<string, string>)
    requires log != [] && InOrder(log) && Numbered(c, log) && Prunes(files, c.base, c.limit, kept)
    requires Retains(c.base, log, files, Oldest(|log| - 1, c.limit), aged) && OlderThanLog(c.base, aged, log)
    requires aged != {} && c.limit > 0 ==> |log| <= c.limit
    ensures Retains(c.base, log, kept, Oldest(|log|, c.limit), aged * kept.Keys)
    ensures KeepsNewest(c.base, aged, kept, OlderLeft(|aged|, |log|, c.limit))
  {
    var from := Oldest(|log| - 1, c.limit);
    CandidateCount(c, log, files, from, aged);
    if c.limit == 0 || |log| - from + |aged| <= c.limit {
      DropsNothing(c, log, files, aged, kept);
    } else if aged == {} {
      EmptyKeepsNewest(c.base, aged, kept);
      DropsOneRotation(c, log, files, kept);
    } else {
      DropsOlder(c, log, files, aged, kept);
    }
  }

  lemma DropsNothing(c: RotationConfig, log: seq<Rotation>, files: map<string, string>, aged: set<string>,
                     kept: map<string, string>)
    requires log != [] && Retains(c.base, log, files, Oldest(|log| - 1, c.limit), aged)
    requires Prunes(files, c.base, c.limit, kept)
    requires |Candidates(files, c.base)| == |log| - Oldest(|log| - 1, c.limit) + |aged|
    requires c.limit == 0 || |Candidates(files, c.base)| <= c.limit
    ensures Retains(c.base, log, kept, Oldest(|log|, c.limit), aged * kept.Keys)
    ensures KeepsNewest(c.base, aged, kept, OlderLeft(|aged|, |log|, c.limit))
  {
    NothingExceeds(files, c.base, c.limit, kept);
    assert aged <= Candidates(files, c.base);
    assert aged * kept.Keys == aged;
  }

  lemma DropsOneRotation(c: RotationConfig, log: seq<Rotation>, files: map<string, string>, kept: map<string, string>)
    requires log != [] && Retains(c.base, log, files, Oldest(|log| - 1, c.limit), {})
    requires InOrder(log) && Numbered(c, log) && Prunes(files, c.base, c.limit, kept)
    requires 1 <= c.limit && |log| - Oldest(|log| - 1, c.limit) == c.limit + 1
    ensures Retains(c.base, log, kept, Oldest(|log|, c.limit), {})
  {
    var from := Oldest(|log| - 1, c.limit);
    NothingOlder(c.base, log, files, from);
    OldestDropped(c, log, files, from, kept);
    DropsOldest(c.base, log, files, from, kept);
  }

  lemma NothingOlder(base: string, log: seq<Rotation>, files: map<string, string>, from: nat)
    requires Retains(base, log, files, from, {})
    ensures Candidates(files, base) == NamesFrom(log, from)
  {
  }

  lemma EmptyKeepsNewest(base: string, aged: set<string>, kept: map<string, string>)
    requires aged == {}
    ensures aged * kept.Keys == {} && KeepsNewest(base, aged, kept, 0)
  {
  }

  lemma OldestDropped(c: RotationConfig, log: seq<Rotation>, files: map<string, string>, from: nat,
                      kept: map<string, string>)
    requires 1 <= c.limit && from + c.limit + 1 == |log| && Candidates(files, c.base) == NamesFrom(log, from)
    requires DistinctFrom(log, from) && InOrder(log) && Numbered(c, log) && Prunes(files, c.base, c.limit, kept)
    ensures Candidates(kept, c.base) == Candidates(files, c.base) - {log[from].name}
    ensures forall fn :: fn in kept ==> fn in files && kept[fn] == files[fn]
  {
    NamesFromCount(log, from);
    var gone := OneIsGone(files, c.base, c.limit, kept);
    OldestIsGone(c, log, from, gone, Candidates(kept, c.base));
  }

  lemma DropsOldest(base: string, log: seq<Rotation>, files: map<string, string>, from: nat, kept: map<string, string>)
    requires Candidates(files, base) == NamesFrom(log, from) && from < |log|
    requires Stored(log, files, from) && DistinctFrom(log, from)
    requires Candidates(kept, base) == Candidates(files, base) - {log[from].name}
    requires forall fn :: fn in kept ==> fn in files && kept[fn] == files[fn]
    ensures Retains(base, log, kept, from + 1, {})
  {
    NamesFromTail(log, from);
    forall j | from + 1 <= j < |log| ensures log[j].name in kept && kept[log[j].name] == Content(log[j]) {
      assert log[j].name in NamesFrom(log, from + 1);
    }
  }

  lemma DropsOlder(c: RotationConfig, log: seq<Rotation>, files: map<string, string>, aged: set<string>,
                   kept: map<string, string>)
    requires Retains(c.base, log, files, 0, aged) && Numbered(c, log) && OlderThanLog(c.base, aged, log)
    requires Prunes(files, c.base, c.limit, kept) && 0 < |log| <= c.limit < |Candidates(files, c.base)|
    ensures Retains(c.base, log, kept, 0, aged * kept.Keys)
    ensures KeepsNewest(c.base, aged, kept, OlderLeft(|aged|, |log|, c.limit))
  {
    var gone := OnlyOlderGo(c, log, files, aged, kept);
    WithoutOlder(files.Keys, aged, gone);
    RetainsWithout(c.base, log, files, aged, gone);
  }

  lemma OnlyOlderGo(c: RotationConfig, log: seq<Rotation>, files: map<string, string>, aged: set<string>,
                    kept: map<string, string>) returns (gone: set<string>)
    requires Retains(c.base, log, files, 0, aged) && Numbered(c, log) && OlderThanLog(c.base, aged, log)
    requires Prunes(files, c.base, c.limit, kept) && 0 < |log| <= c.limit < |Candidates(files, c.base)|
    ensures gone <= aged <= files.Keys && |gone| == |log| + |aged| - c.limit && kept == files - gone
    ensures NamesFrom(log, 0) !! aged
    ensures forall x, y :: x in gone && y in aged - gone ==> NotAfter(c.base, x, y)
  {
    gone := files.Keys - kept.Keys;
    CandidateCount(c, log, files, 0, aged);
    OldIsApart(c, log, 0, aged);
    OldGoFirst(c.base, NamesFrom(log, 0), aged, gone);
    assert aged <= Candidates(files, c.base) <= files.Keys;
  }

  lemma WithoutOlder(keys: set<string>, aged: set<string>, gone: set<string>)
    requires gone <= aged <= keys
    ensures aged * (keys - gone) == aged - gone && aged - (keys - gone) == gone
    ensures |aged - gone| == |aged| - |gone|
  {
  }

  lemma CandidatesWithout(files: map<string, string>, base: string, gone: set<string>)
    ensures Candidates(files - gone, base) == Candidates(files, base) - gone
  {
  }

  lemma RetainsWithout(base: string, log: seq<Rotation>, files: map<string, string>, aged: set<string>,
                       gone: set<string>)
    requires Retains(base, log, files, 0, aged) && gone <= aged && NamesFrom(log, 0) !! aged
    ensures Retains(base, log, files - gone, 0, aged - gone)
  {
    CandidatesWithout(files, base, gone);
    forall j | 0 <= j < |log| ensures log[j].name in files && log[j].name !in gone {
      assert log[j].name in NamesFrom(log, 0);
    }
  }

  lemma OldestIsGone(c: RotationConfig, log: seq<Rotation>, from: nat, gone: string, rest: set<string>)
    requires InOrder(log) && Numbered(c, log) && from < |log|
    requires gone in NamesFrom(log, from) && rest == NamesFrom(log, from) - {gone}
    requires forall y :: y in rest ==> NotAfter(c.base, gone, y)
    ensures gone == log[from].name
  {
    forall j | from < j < |log|
      ensures log[j].name != log[from].name && !NotAfter(c.base, log[j].name, log[from].name)
    {
      EarlierComesFirst(c, log, from, j);
    }
    assert log[from].name in NamesFrom(log, from);
  }

  /** A file with number 0 of the latest stamp, renamed when the limit is reached, is the one pruned. */
  lemma NewestIsGone(c: RotationConfig, log: seq<Rotation>, files: map<string, string>, ts: string,
                     files': map<string, string>, kept: map<string, string>)
    requires Retains(c.base, log, files, Oldest(|log|, c.limit), {}) && Numbered(c, log)
    requires IsStamp(ts) && IsLatest(log, ts) && InOrder(log)
    requires Prunable(c) && Count(log, ts) == c.limit + 1
    requires RotatedName(c.base, ts, 0) !in files
    requires Candidates(files', c.base) == Candidates(files, c.base) + {RotatedName(c.base, ts, 0)}
    requires Prunes(files', c.base, c.limit, kept)
    ensures RotatedName(c.base, ts, 0) !in kept
  {
    var name, from := RotatedName(c.base, ts, 0), Oldest(|log|, c.limit);
    CountBound(log, ts);
    NamesFromCount(log, from);
    assert name !in Candidates(files, c.base);
    var gone := OneIsGone(files', c.base, c.limit, kept);
    if gone != name {
      assert name in Candidates(kept, c.base);
      var j :| from <= j < |log| && log[j].name == gone;
      NewestComesFirst(c, log, ts, j);
    }
  }

  /** The retained rotations then all have the latest stamp and a number above 0. */
  lemma NewestComesFirst(c: RotationConfig, log: seq<Rotation>, ts: string, j: nat)
    requires InOrder(log) && Numbered(c, log) && IsStamp(ts) && IsLatest(log, ts) && c.limit >= 1
    requires Count(log, ts) == c.limit + 1 && Oldest(|log|, c.limit) <= j < |log|
    ensures !NotAfter(c.base, log[j].name, RotatedName(c.base, ts, 0))
  {
    CountBound(log, ts);
    SameStampAtEnd(log, ts, j - (|log| - Count(log, ts)));
    NumberedAt(c, log, j);
    assert Named(c, Rotation(RotatedName(c.base, ts, 0), ts, 0, "", []));
    SmallerKeyFirst(c, Rotation(RotatedName(c.base, ts, 0), ts, 0, "", []), log[j]);
  }

  // ----- one rotation -----

  ghost predicate Good(c: RotationConfig, found: map<string, string>, s: SinkState) {
    && Sound(c, s) && AllBounded(c, s)
    && KeepsLatest(c, found, s)
    && InOrder(s.log) && Numbered(c, s.log)
    && OlderThanLog(c.base, Candidates(found, c.base), s.log)
  }

  /** The stamp can be that of the next rotation: no rotation is later, and all files found are older. */
  ghost predicate IsNext(c: RotationConfig, found: map<string, string>, log: seq<Rotation>, ts: string) {
    IsStamp(ts) && IsLatest(log, ts) && Older(c.base, Candidates(found, c.base), ts)
  }

  /** What a rotation that found number n does to log and directory. */
  lemma RotationTaken(c: RotationConfig, s: SinkState, ts: string, t: SinkState, r: WriteResult, n: nat)
    returns (x: Rotation)
    requires Sound(c, s) && s.open && Rotates(c, s, ts, t, r) && FirstFree(s.files, c.base, ts, 0) == Some(n)
    ensures x.name == RotatedName(c.base, ts, n) && x.ts == ts && x.n == n && Content(x) == s.files[c.base]
    ensures n < MAX_SEQ && x.name !in s.files
    ensures t.log == s.log + [x] && t.open && r == Written
    ensures Prunes(Renamed(c, Closed(s), ts, n).files, c.base, c.limit, t.files)
  {
    FirstFreeIsLeast(s.files, c.base, ts, 0);
    x := Rotation(RotatedName(c.base, ts, n), ts, n, s.start, s.lines);
  }

  /** Renaming leaves the files found alone. */
  lemma RenamedKeepsFound(c: RotationConfig, found: map<string, string>, s: SinkState, ts: string, n: nat)
    requires c.base in s.files && IsStamp(ts) && n < MAX_SEQ && Older(c.base, Candidates(found, c.base), ts)
    ensures var files := Renamed(c, Closed(s), ts, n).files;
            && OldKept(c.base, found, files) == OldKept(c.base, found, s.files)
            && forall fn :: fn in OldKept(c.base, found, s.files) ==> files[fn] == s.files[fn]
  {
    ParseOfRotatedName(c.base, ts, n);
    LessTotal(ts, ts);
    BaseDoesNotParse(c.base);
    assert RotatedName(c.base, ts, n) !in Candidates(found, c.base) && c.base !in Candidates(found, c.base);
  }

  /** What pruning leaves of the older files is what there is room for. */
  lemma FoundAfterPruning(c: RotationConfig, found: map<string, string>, files: map<string, string>,
                          kept: map<string, string>, rotations: nat)
    requires KeepsFound(c, found, files, rotations) && kept.Keys <= files.Keys
    requires forall fn :: fn in kept ==> kept[fn] == files[fn]
    requires var aged := OldKept(c.base, found, files);
             KeepsNewest(c.base, aged, kept, OlderLeft(|aged|, rotations + 1, c.limit))
    ensures OldKept(c.base, found, kept) == OldKept(c.base, found, files) * kept.Keys
    ensures KeepsFound(c, found, kept, rotations + 1)
  {
    var all, aged, aged' := Candidates(found, c.base), OldKept(c.base, found, files), OldKept(c.base, found, kept);
    assert aged' == aged * kept.Keys;
    forall x, y | x in all - aged' && y in aged' ensures NotAfter(c.base, x, y) {
      if x in aged {
        assert x in aged - kept.Keys;
      } else {
        assert x in all - aged;
      }
    }
  }

  /** A rotation under a stamp used less than PerStamp times succeeds and keeps retention exact. */
  lemma GoodRotation(c: RotationConfig, found: map<string, string>, s: SinkState, ts: string, t: SinkState,
                     r: WriteResult)
    requires Good(c, found, s) && s.open && Rotates(c, s, ts, t, r)
    requires IsNext(c, found, s.log, ts) && Count(s.log, ts) < PerStamp(c)
    ensures r == Written && t.open && KeepsLatest(c, found, t) && InOrder(t.log) && Numbered(c, t.log)
    ensures OlderThanLog(c.base, Candidates(found, c.base), t.log)
    ensures |t.log| == |s.log| + 1 && t.log[..|s.log|] == s.log && t.log[|s.log|].ts == ts
  {
    var n := Count(s.log, ts);
    NextNumber(c, s.log, s.files, OldKept(c.base, found, s.files), ts);
    var x := RotationTaken(c, s, ts, t, r, n);
    NumberedAppend(c, s.log, x);
    OlderThanOneMore(c.base, Candidates(found, c.base), s.log, x);
    RenamedRetains(c, found, s, ts, n, x);
    PruneAfterRenaming(c, found, t.log, Renamed(c, Closed(s), ts, n).files, t.files);
  }

  lemma OlderThanOneMore(base: string, all: set<string>, log: seq<Rotation>, x: Rotation)
    requires OlderThanLog(base, all, log) && Older(base, all, x.ts)
    ensures OlderThanLog(base, all, log + [x])
  {
  }

  lemma FoundUntouched(c: RotationConfig, found: map<string, string>, files: map<string, string>,
                       files': map<string, string>, rotations: nat)
    requires KeepsFound(c, found, files, rotations) && OldKept(c.base, found, files') == OldKept(c.base, found, files)
    requires forall fn :: fn in OldKept(c.base, found, files) ==> files'[fn] == files[fn]
    ensures KeepsFound(c, found, files', rotations)
  {
  }

  lemma OlderSubset(base: string, all: set<string>, aged: set<string>, log: seq<Rotation>)
    requires OlderThanLog(base, all, log) && aged <= all
    ensures OlderThanLog(base, aged, log)
  {
    forall j | 0 <= j < |log| ensures Older(base, aged, log[j].ts) {
      assert Older(base, all, log[j].ts);
    }
  }

  /** The directory between renaming and pruning. */
  lemma RenamedRetains(c: RotationConfig, found: map<string, string>, s: SinkState, ts: string, n: nat, x: Rotation)
    requires c.base in s.files && IsStamp(ts) && n < MAX_SEQ && Older(c.base, Candidates(found, c.base), ts)
    requires KeepsLatest(c, found, s) && x.name == RotatedName(c.base, ts, n) && x.name !in s.files
    requires Content(x) == s.files[c.base]
    ensures var files := Renamed(c, Closed(s), ts, n).files;
            && Retains(c.base, s.log + [x], files, Oldest(|s.log|, c.limit), OldKept(c.base, found, files))
            && KeepsFound(c, found, files, |s.log|)
  {
    var files := Renamed(c, Closed(s), ts, n).files;
    RenamedCandidates(c, s, ts, n);
    RenamedKeepsFound(c, found, s, ts, n);
    RetainsOneMore(c.base, s.log, s.files, Oldest(|s.log|, c.limit), OldKept(c.base, found, s.files), x, files);
    FoundUntouched(c, found, s.files, files, |s.log|);
  }

  lemma PruneAfterRenaming(c: RotationConfig, found: map<string, string>, log: seq<Rotation>,
                           files: map<string, string>, kept: map<string, string>)
    requires log != [] && InOrder(log) && Numbered(c, log) && OlderThanLog(c.base, Candidates(found, c.base), log)
    requires Retains(c.base, log, files, Oldest(|log| - 1, c.limit), OldKept(c.base, found, files))
    requires KeepsFound(c, found, files, |log| - 1) && Prunes(files, c.base, c.limit, kept)
    ensures Retains(c.base, log, kept, Oldest(|log|, c.limit), OldKept(c.base, found, kept))
    ensures KeepsFound(c, found, kept, |log|)
  {
    PruneRotations(c, found, log, files, kept);
    FoundAfterPruning(c, found, files, kept, |log| - 1);
  }

  lemma PruneRotations(c: RotationConfig, found: map<string, string>, log: seq<Rotation>,
                       files: map<string, string>, kept: map<string, string>)
    requires log != [] && InOrder(log) && Numbered(c, log) && OlderThanLog(c.base, Candidates(found, c.base), log)
    requires Retains(c.base, log, files, Oldest(|log| - 1, c.limit), OldKept(c.base, found, files))
    requires KeepsFound(c, found, files, |log| - 1) && Prunes(files, c.base, c.limit, kept)
    ensures var aged := OldKept(c.base, found, files);
            && Retains(c.base, log, kept, Oldest(|log|, c.limit), aged * kept.Keys)
            && KeepsNewest(c.base, aged, kept, OlderLeft(|aged|, |log|, c.limit))
    ensures kept.Keys <= files.Keys && forall fn :: fn in kept ==> kept[fn] == files[fn]
  {
    var aged := OldKept(c.base, found, files);
    OlderSubset(c.base, Candidates(found, c.base), aged, log);
    RoomForOlder(c, found, files, |log| - 1);
    PrunedToLatest(c, log, files, aged, kept);
  }

  /** Older files are left only while the rotations stay below the limit. */
  lemma RoomForOlder(c: RotationConfig, found: map<string, string>, files: map<string, string>, rotations: nat)
    requires KeepsFound(c, found, files, rotations)
    ensures OldKept(c.base, found, files) != {} && c.limit > 0 ==> rotations == 0 || rotations < c.limit
  {
  }

  lemma MissingIsNotRetained(base: string, log: seq<Rotation>, files: map<string, string>, from: nat,
                             aged: set<string>, j: nat)
    requires from <= j < |log| && log[j].name !in files
    ensures !Retains(base, log, files, from, aged)
  {
  }

  /** With pruning, a rotation under a stamp already used limit + 1 times reuses the number 0 that pruning
      has freed, and the file it has just rotated is pruned at once. */
  lemma BadRotation(c: RotationConfig, found: map<string, string>, s: SinkState, ts: string, t: SinkState,
                    r: WriteResult)
    requires Good(c, found, s) && s.open && Rotates(c, s, ts, t, r)
    requires IsNext(c, found, s.log, ts) && Prunable(c) && Count(s.log, ts) == c.limit + 1
    ensures |t.log| == |s.log| + 1 && t.log[..|s.log|] == s.log && t.log[|s.log|].ts == ts
    ensures t.log[|s.log|].name == RotatedName(c.base, ts, 0) && t.log[|s.log|].name !in t.files
    ensures Content(t.log[|s.log|]) == s.files[c.base]
    ensures !KeepsLatest(c, found, t)
  {
    FreedIsNext(c, found, s, ts);
    var x := RotationTaken(c, s, ts, t, r, 0);
    NewestPruned(c, s, ts, t.files);
    MissingIsNotRetained(c.base, t.log, t.files, Oldest(|t.log|, c.limit), OldKept(c.base, found, t.files), |s.log|);
  }

  lemma FreedIsNext(c: RotationConfig, found: map<string, string>, s: SinkState, ts: string)
    requires KeepsLatest(c, found, s) && Numbered(c, s.log) && IsStamp(ts)
    requires Prunable(c) && Count(s.log, ts) == c.limit + 1
    ensures FirstFree(s.files, c.base, ts, 0) == Some(0)
    ensures Retains(c.base, s.log, s.files, Oldest(|s.log|, c.limit), {})
  {
    NoneOlderLeft(c, found, s, ts);
    FreedNumber(c, s.log, s.files, {}, ts);
  }

  lemma NoneOlderLeft(c: RotationConfig, found: map<string, string>, s: SinkState, ts: string)
    requires KeepsLatest(c, found, s) && c.limit > 0 && Count(s.log, ts) > c.limit
    ensures Retains(c.base, s.log, s.files, Oldest(|s.log|, c.limit), {})
  {
    CountBound(s.log, ts);
    RoomForOlder(c, found, s.files, |s.log|);
  }

  lemma NewestPruned(c: RotationConfig, s: SinkState, ts: string, kept: map<string, string>)
    requires c.base in s.files && IsStamp(ts) && IsLatest(s.log, ts) && InOrder(s.log) && Numbered(c, s.log)
    requires Retains(c.base, s.log, s.files, Oldest(|s.log|, c.limit), {}) && RotatedName(c.base, ts, 0) !in s.files
    requires Prunable(c) && Count(s.log, ts) == c.limit + 1
    requires Prunes(Renamed(c, Closed(s), ts, 0).files, c.base, c.limit, kept)
    ensures RotatedName(c.base, ts, 0) !in kept
  {
    RenamedCandidates(c, s, ts, 0);
    NewestIsGone(c, s.log, s.files, ts, Renamed(c, Closed(s), ts, 0).files, kept);
  }

  /** Without pruning, a rotation under a stamp used 10000 times fails and closes the sink. */
  lemma FailingRotation(c: RotationConfig, found: map<string, string>, s: SinkState, ts: string, t: SinkState,
                        r: WriteResult)
    requires Good(c, found, s) && s.open && Rotates(c, s, ts, t, r)
    requires IsLatest(s.log, ts) && !Prunable(c) && Count(s.log, ts) == PerStamp(c)
    ensures r == NoUniqueName && !t.open
  {
    NoNumberLeft(c, s.log, s.files, ts);
  }

  // ----- what pruning spares -----

  /** Every file of s but the base file and rotated files is in t, unchanged. */
  ghost predicate Spares(c: RotationConfig, s: SinkState, t: SinkState) {
    forall fn :: fn in s.files && fn != c.base && Parse(fn, c.base).None? ==>
      fn in t.files && t.files[fn] == s.files[fn]
  }

  lemma RenamedSpares(c: RotationConfig, s: SinkState, ts: string, n: nat)
    requires c.base in s.files && RotatedName(c.base, ts, n) !in s.files
    ensures Spares(c, s, Renamed(c, Closed(s), ts, n))
  {
  }

  lemma RotationSpares(c: RotationConfig, s: SinkState, ts: string, t: SinkState, r: WriteResult)
    requires Sound(c, s) && Rotates(c, s, ts, t, r)
    ensures Spares(c, s, t)
  {
    var found := FirstFree(s.files, c.base, ts, 0);
    if s.open && found.Some? {
      FirstFreeIsLeast(s.files, c.base, ts, 0);
      RenamedSpares(c, s, ts, found.value);
      PruneSpares(c, Renamed(c, Closed(s), ts, found.value).files, t.files);
    }
  }

  lemma LineSpares(c: RotationConfig, s: SinkState, u: SinkState, line: string, t: SinkState, r: WriteResult)
    requires Spares(c, s, u) && WritesLine(c, u, line, t, r)
    ensures Spares(c, s, t)
  {
  }

  /** Whatever the stamps, no write deletes the base file or a file that does not parse as a rotation. */
  lemma OnlyRotationsArePruned(c: RotationConfig, s: SinkState, i: Input, t: SinkState)
    requires Sound(c, s) && AllBounded(c, s) && Step(c, s, i, t)
    ensures c.base in t.files && Spares(c, s, t)
  {
    StepSound(c, s, i, t);
    var r :| Writes(c, s, i.line, i.ts, t, r);
    if MustRotate(c, s, i.line) {
      var u, q :| Rotates(c, s, i.ts, u, q)
                  && (if q == Written then WritesLine(c, u, i.line, t, r) else t == u && r == q);
      RotationSpares(c, s, i.ts, u, q);
      if q == Written {
        LineSpares(c, s, u, i.line, t, r);
      }
    } else {
      LineSpares(c, s, s, i.line, t, r);
    }
  }
}
