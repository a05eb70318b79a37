/** The pattern language of the formatter: what its two scanners find, and what formatting does. */
module PatternFormatter {
  import opened Records

  datatype Field = LevelName | SimTime | Met | WallNs | ThreadId | File | Line | Func | LoggerName | Msg

  /** The text of each field of one record. */
  datatype Rendering = Rendering(
    level: string, sim: string, met: string, wallNs: string, thread: string,
    file: string, line: string, func: string, logger: string, msg: string)

  function TokenOf(f: Field): string {
    match f
    case LevelName => "level"
    case SimTime => "sim"
    case Met => "met"
    case WallNs => "wall_ns"
    case ThreadId => "thread"
    case File => "file"
    case Line => "line"
    case Func => "function"
    case LoggerName => "logger"
    case Msg => "msg"
  }

  function TextOf(r: Rendering, f: Field): string {
    match f
    case LevelName => r.level
    case SimTime => r.sim
    case Met => r.met
    case WallNs => r.wallNs
    case ThreadId => r.thread
    case File => r.file
    case Line => r.line
    case Func => r.func
    case LoggerName => r.logger
    case Msg => r.msg
  }

  const FIELDS: seq<Field> := [LevelName, SimTime, Met, WallNs, ThreadId, File, Line, Func, LoggerName, Msg]

  /** The first of the fields whose token this is. */
  function Find(token: string, fields: seq<Field>): Option<Field> {
    if fields == [] then None
    else if token == TokenOf(fields[0]) then Some(fields[0])
    else Find(token, fields[1..])
  }

  function FieldOf(token: string): Option<Field> {
    Find(token, FIELDS)
  }

  predicate IsTokenChar(ch: char) {
    '0' <= ch <= '9' || 'a' <= ch <= 'z' || 'A' <= ch <= 'Z' || ch == '_'
  }

  predicate IsTokenName(t: string) {
    t != "" && forall i :: 0 <= i < |t| ==> IsTokenChar(t[i])
  }

  // ----- the grammar -----

  /** A character outside braces, a braced run up to the next closing brace, or the rest of a pattern
      behind an opening brace that is never closed. */
  datatype Segment = Plain(ch: char) | Braced(token: string) | Unclosed(rest: string)

  /** The next closing brace at or after `from`, or the end. */
  function NextClose(p: string, from: nat): (j: nat)
    requires from <= |p|
    ensures from <= j <= |p| && (j < |p| ==> p[j] == '}')
    decreases |p| - from
  {
    if from == |p| || p[from] == '}' then from else NextClose(p, from + 1)
  }

  function Segments(p: string): seq<Segment>
    decreases |p|
  {
    if p == "" then []
    else if p[0] != '{' then [Plain(p[0])] + Segments(p[1..])
    else
      var j := NextClose(p, 1);
      if j == |p| then [Unclosed(p)] else [Braced(p[1..j])] + Segments(p[j + 1..])
  }

  function Source(s: Segment): string {
    match s
    case Plain(ch) => [ch]
    case Braced(t) => "{" + t + "}"
    case Unclosed(rest) => rest
  }

  /** What a braced run is replaced by: the field's text for a known token, else itself. */
  function Replacement(token: string, r: Rendering): string {
    if FieldOf(token).Some? then TextOf(r, FieldOf(token).value) else "{" + token + "}"
  }

  function Replacing(r: Rendering): string -> string {
    t => Replacement(t, r)
  }

  function Substitute(s: Segment, sub: string -> string): string {
    if s.Braced? then sub(s.token) else Source(s)
  }

  function Render(ss: seq<Segment>, sub: string -> string): string {
    if ss == [] then "" else Substitute(ss[0], sub) + Render(ss[1..], sub)
  }

  /** Formatting with any replacement of braced runs. */
  function FormatWith(p: string, sub: string -> string): string
    decreases |p|
  {
    if p == "" then ""
    else if p[0] != '{' then [p[0]] + FormatWith(p[1..], sub)
    else
      var j := NextClose(p, 1);
      if j == |p| then p else sub(p[1..j]) + FormatWith(p[j + 1..], sub)
  }

  /** Formatting renders the segments one after the other. */
  lemma {:induction false} FormatIsRender(p: string, sub: string -> string)
    ensures FormatWith(p, sub) == Render(Segments(p), sub)
    decreases |p|
  {
    if p == "" {
    } else if p[0] != '{' {
      FormatIsRender(p[1..], sub);
      RenderCons(Plain(p[0]), Segments(p[1..]), sub);
    } else {
      var j := NextClose(p, 1);
      if j < |p| {
        FormatIsRender(p[j + 1..], sub);
        RenderCons(Braced(p[1..j]), Segments(p[j + 1..]), sub);
      } else {
        RenderCons(Unclosed(p), [], sub);
        assert p + "" == p;
      }
    }
  }

  lemma RenderCons(s: Segment, ss: seq<Segment>, sub: string -> string)
    ensures Render([s] + ss, sub) == Substitute(s, sub) + Render(ss, sub)
  {
    assert ([s] + ss)[1..] == ss;
  }

  function Format(p: string, r: Rendering): string {
    FormatWith(p, Replacing(r))
  }

  /** The well-formed tokens between matched braces. */
  function TokensIn(ss: seq<Segment>): set<string> {
    set s | s in ss && s.Braced? && IsTokenName(s.token) :: s.token
  }

  function Tokens(p: string): set<string> {
    TokensIn(Segments(p))
  }

  // ----- the two scanners -----

  method ScanToClose(p: string, start: nat) returns (j: nat)
    requires start <= |p|
    ensures j == NextClose(p, start)
  {
    j := start;
    while j < |p| && p[j] != '}'
      invariant start <= j <= |p|
      invariant NextClose(p, start) == NextClose(p, j)
    {
      j := j + 1;
    }
  }

  method CheckToken(p: string, start: nat, j: nat) returns (ok: bool)
    requires start <= j <= |p|
    ensures ok == IsTokenName(p[start..j])
  {
    ok := j > start;
    var k := start;
    while k < j
      invariant start <= k <= j && (k < j ==> ok)
      invariant ok ==> forall m :: start <= m < k ==> IsTokenChar(p[m])
      invariant ok == (j > start)
    {
      if !IsTokenChar(p[k]) {
        assert p[start..j][k - start] == p[k];
        return false;
      }
      k := k + 1;
    }
  }

  /** The tokens found so far and those from i on are all of them. */
  ghost predicate Gathered(p: string, i: nat, out: set<string>) {
    i <= |p| && out + Tokens(p[i..]) == Tokens(p)
  }

  method ExtractTokens(p: string) returns (out: set<string>)
    ensures out == Tokens(p)
  {
    out := {};
    var i := 0;
    GatheredAtStart(p);
    while i < |p|
      invariant Gathered(p, i, out)
    {
      out, i := TakePart(p, i, out);
    }
    GatheredAtEnd(p, out);
  }

  /** One turn of the loop: a plain character, a braced run, or the rest behind an unmatched brace. */
  method TakePart(p: string, i: nat, found: set<string>) returns (out: set<string>, next: nat)
    requires Gathered(p, i, found) && i < |p|
    ensures Gathered(p, next, out) && next > i
  {
    if p[i] != '{' {
      GatheredPlain(p, i, found);
      return found, i + 1;
    }
    var j := ScanToClose(p, i + 1);
    if j >= |p| {
      GatheredUnclosed(p, i, found);
      return found, |p|;
    }
    var ok := CheckToken(p, i + 1, j);
    GatheredBraced(p, i, j, found);
    out := if ok then found + {p[i + 1..j]} else found;
    next := j + 1;
  }

  lemma GatheredUnclosed(p: string, i: nat, out: set<string>)
    requires Gathered(p, i, out) && i < |p| && p[i] == '{' && NextClose(p, i + 1) == |p|
    ensures Gathered(p, |p|, out)
  {
    TokensAfterUnclosed(p, i);
    assert p[|p|..] == "" && Tokens("") == {};
  }

  lemma GatheredAtStart(p: string)
    ensures Gathered(p, 0, {})
  {
    assert p[0..] == p;
  }

  lemma GatheredAtEnd(p: string, out: set<string>)
    requires Gathered(p, |p|, out)
    ensures out == Tokens(p)
  {
  }

  lemma GatheredPlain(p: string, i: nat, out: set<string>)
    requires Gathered(p, i, out) && i < |p| && p[i] != '{'
    ensures Gathered(p, i + 1, out)
  {
    TokensAfterPlain(p, i);
  }

  lemma GatheredBraced(p: string, i: nat, j: nat, out: set<string>)
    requires Gathered(p, i, out) && i < |p| && p[i] == '{' && j == NextClose(p, i + 1) < |p|
    ensures Gathered(p, j + 1, if IsTokenName(p[i + 1..j]) then out + {p[i + 1..j]} else out)
  {
    TokensAfterBraced(p, i, j);
    var token := if IsTokenName(p[i + 1..j]) then {p[i + 1..j]} else {};
    UnionRegroup(out, token, Tokens(p[j + 1..]));
  }

  lemma {:induction false} NoCloseBefore(p: string, from: nat, k: nat)
    requires from <= |p| && from <= k < NextClose(p, from)
    ensures p[k] != '}'
    decreases |p| - from
  {
    if from < k {
      NoCloseBefore(p, from + 1, k);
    }
  }

  lemma {:induction false} NextCloseIs(p: string, from: nat, j: nat)
    requires from <= j <= |p| && (j < |p| ==> p[j] == '}')
    requires forall k :: from <= k < j ==> p[k] != '}'
    ensures NextClose(p, from) == j
    decreases j - from
  {
    if from < j {
      NextCloseIs(p, from + 1, j);
    }
  }

  lemma {:induction false} CloseOfDrop(p: string, i: nat, from: nat)
    requires i <= from <= |p|
    ensures NextClose(p[i..], from - i) == NextClose(p, from) - i
    decreases |p| - from
  {
    if from < |p| && p[from] != '}' {
      CloseOfDrop(p, i, from + 1);
    }
  }

  lemma CloseOfRest(p: string, i: nat)
    requires i < |p|
    ensures NextClose(p[i..], 1) == NextClose(p, i + 1) - i
  {
    CloseOfDrop(p, i, i + 1);
  }

  // ----- formatting, one segment at a time -----

  lemma FormatPlain(p: string, sub: string -> string)
    requires p != "" && p[0] != '{'
    ensures FormatWith(p, sub) == [p[0]] + FormatWith(p[1..], sub)
  {
  }

  lemma FormatBraced(p: string, j: nat, sub: string -> string)
    requires p != "" && p[0] == '{' && j == NextClose(p, 1) < |p|
    ensures FormatWith(p, sub) == sub(p[1..j]) + FormatWith(p[j + 1..], sub)
  {
  }

  lemma FormatUnclosed(p: string, sub: string -> string)
    requires p != "" && p[0] == '{' && NextClose(p, 1) == |p|
    ensures FormatWith(p, sub) == p
  {
  }

  lemma UnionRegroup(a: set<string>, b: set<string>, d: set<string>)
    ensures a + (b + d) == a + b + d
  {
  }

  lemma Regroup(a: string, b: string, d: string)
    ensures a + (b + d) == a + b + d
  {
  }

  lemma TokensAfterPlain(p: string, i: nat)
    requires i < |p| && p[i] != '{'
    ensures Tokens(p[i..]) == Tokens(p[i + 1..])
  {
    assert p[i..][1..] == p[i + 1..];
    assert Segments(p[i..]) == [Plain(p[i])] + Segments(p[i + 1..]);
  }

  lemma TokensAfterUnclosed(p: string, i: nat)
    requires i < |p| && p[i] == '{' && NextClose(p, i + 1) == |p|
    ensures Tokens(p[i..]) == {}
  {
    CloseOfRest(p, i);
    assert Segments(p[i..]) == [Unclosed(p[i..])];
  }

  lemma TokensAfterBraced(p: string, i: nat, j: nat)
    requires i < |p| && p[i] == '{' && j == NextClose(p, i + 1) < |p|
    ensures Tokens(p[i..]) == (if IsTokenName(p[i + 1..j]) then {p[i + 1..j]} else {}) + Tokens(p[j + 1..])
  {
    CloseOfRest(p, i);
    assert p[i..][1..j - i] == p[i + 1..j] && p[i..][j - i + 1..] == p[j + 1..];
    SegmentsBraced(p[i..], j - i, p[i + 1..j], p[j + 1..]);
    TokensOfCons(Braced(p[i + 1..j]), Segments(p[j + 1..]));
  }

  lemma TokensOfCons(s: Segment, rest: seq<Segment>)
    requires s.Braced?
    ensures TokensIn([s] + rest) == (if IsTokenName(s.token) then {s.token} else {}) + TokensIn(rest)
  {
    assert ([s] + rest)[0] == s;
    assert forall x :: x in [s] + rest <==> x == s || x in rest;
  }

  /** Formatting from position i on, by positions instead of suffixes. */
  ghost function FormatFrom(p: string, i: nat, sub: string -> string): string
    requires i <= |p|
    decreases |p| - i
  {
    if i == |p| then ""
    else if p[i] != '{' then [p[i]] + FormatFrom(p, i + 1, sub)
    else
      var j := NextClose(p, i + 1);
      if j == |p| then p[i..] else sub(p[i + 1..j]) + FormatFrom(p, j + 1, sub)
  }

  lemma FromPlain(p: string, i: nat, sub: string -> string)
    requires i < |p| && p[i] != '{' && FormatFrom(p, i + 1, sub) == FormatWith(p[i + 1..], sub)
    ensures FormatFrom(p, i, sub) == FormatWith(p[i..], sub)
  {
    PlainAt(p, i, sub);
  }

  lemma FromBraced(p: string, i: nat, j: nat, sub: string -> string)
    requires i < |p| && p[i] == '{' && j == NextClose(p, i + 1) < |p|
    requires FormatFrom(p, j + 1, sub) == FormatWith(p[j + 1..], sub)
    ensures FormatFrom(p, i, sub) == FormatWith(p[i..], sub)
  {
    BracedAt(p, i, j, sub);
    FormatFromBraced(p, i, j, sub);
  }

  lemma FormatFromBraced(p: string, i: nat, j: nat, sub: string -> string)
    requires i < |p| && p[i] == '{' && j == NextClose(p, i + 1) < |p|
    ensures FormatFrom(p, i, sub) == sub(p[i + 1..j]) + FormatFrom(p, j + 1, sub)
  {
  }

  lemma {:induction false} FormatFromIsFormat(p: string, i: nat, sub: string -> string)
    requires i <= |p|
    ensures FormatFrom(p, i, sub) == FormatWith(p[i..], sub)
    decreases |p| - i
  {
    if i == |p| {
      EmptyRest(p, sub);
    } else if p[i] != '{' {
      FormatFromIsFormat(p, i + 1, sub);
      FromPlain(p, i, sub);
    } else if NextClose(p, i + 1) < |p| {
      FormatFromIsFormat(p, NextClose(p, i + 1) + 1, sub);
      FromBraced(p, i, NextClose(p, i + 1), sub);
    } else {
      UnclosedAt(p, i, sub);
    }
  }

  lemma UnclosedAt(p: string, i: nat, sub: string -> string)
    requires i < |p| && p[i] == '{' && NextClose(p, i + 1) == |p|
    ensures FormatWith(p[i..], sub) == p[i..]
  {
    CloseOfRest(p, i);
    FormatUnclosed(p[i..], sub);
  }

  lemma PlainAt(p: string, i: nat, sub: string -> string)
    requires i < |p| && p[i] != '{'
    ensures FormatWith(p[i..], sub) == [p[i]] + FormatWith(p[i + 1..], sub)
  {
    FormatPlain(p[i..], sub);
    assert p[i..][1..] == p[i + 1..];
  }

  lemma BracedAt(p: string, i: nat, j: nat, sub: string -> string)
    requires i < |p| && p[i] == '{' && j == NextClose(p, i + 1) < |p|
    ensures FormatWith(p[i..], sub) == sub(p[i + 1..j]) + FormatWith(p[j + 1..], sub)
  {
    CloseOfRest(p, i);
    assert p[i..][1..j - i] == p[i + 1..j] && p[i..][j - i + 1..] == p[j + 1..];
    FormatBraced(p[i..], j - i, sub);
  }

  method FormatRecord(p: string, r: Rendering) returns (out: string)
    ensures out == Format(p, r)
  {
    out := FormatLoop(p, r, Replacing(r));
    FormatFromIsFormat(p, 0, Replacing(r));
    assert p[0..] == p;
  }

  /** The output so far and what is still to come from i on are the whole. */
  ghost predicate Formatted(p: string, i: nat, sub: string -> string, out: string) {
    i <= |p| && out + FormatFrom(p, i, sub) == FormatFrom(p, 0, sub)
  }

  /** The text of what starts at i, and where the next part starts. */
  ghost predicate FormatsPart(p: string, i: nat, sub: string -> string, text: string, next: nat) {
    i < next <= |p| && FormatFrom(p, i, sub) == text + FormatFrom(p, next, sub)
  }

  lemma FormattedPart(p: string, i: nat, sub: string -> string, out: string, text: string, next: nat)
    requires Formatted(p, i, sub, out) && FormatsPart(p, i, sub, text, next)
    ensures Formatted(p, next, sub, out + text)
  {
    Regroup(out, text, FormatFrom(p, next, sub));
  }

  lemma FormattedAll(p: string, sub: string -> string, out: string)
    requires Formatted(p, |p|, sub, out)
    ensures out == FormatFrom(p, 0, sub)
  {
  }

  /** The formatting loop; `sub` names the replacement it applies. */
  method FormatLoop(p: string, r: Rendering, ghost sub: string -> string) returns (out: string)
    requires sub == Replacing(r)
    ensures out == FormatFrom(p, 0, sub)
  {
    out := "";
    var i := 0;
    while i < |p|
      invariant Formatted(p, i, sub, out)
    {
      var text, next := FormatPart(p, i, r, sub);
      FormattedPart(p, i, sub, out, text, next);
      out := out + text;
      i := next;
    }
    FormattedAll(p, sub, out);
  }

  /** One turn of the loop: a plain character, a braced run, or the rest behind an unmatched brace. */
  method FormatPart(p: string, i: nat, r: Rendering, ghost sub: string -> string) returns (text: string, next: nat)
    requires i < |p| && sub == Replacing(r)
    ensures FormatsPart(p, i, sub, text, next)
  {
    if p[i] != '{' {
      return [p[i]], i + 1;
    }
    var j := ScanToClose(p, i + 1);
    if j >= |p| {
      return p[i..], |p|;
    }
    FormatFromBraced(p, i, j, sub);
    text := SubstituteToken(p[i + 1..j], r, sub);
    next := j + 1;
  }

  method SubstituteToken(token: string, r: Rendering, ghost sub: string -> string) returns (text: string)
    requires sub == Replacing(r)
    ensures text == sub(token)
  {
    ghost var f := LevelName;
    if token == "level" { text := r.level; }
    else if token == "sim" { text, f := r.sim, SimTime; }
    else if token == "met" { text, f := r.met, Met; }
    else if token == "wall_ns" { text, f := r.wallNs, WallNs; }
    else if token == "thread" { text, f := r.thread, ThreadId; }
    else if token == "file" { text, f := r.file, File; }
    else if token == "line" { text, f := r.line, Line; }
    else if token == "function" { text, f := r.func, Func; }
    else if token == "logger" { text, f := r.logger, LoggerName; }
    else if token == "msg" { text, f := r.msg, Msg; }
    else {
      text := "{" + token + "}";
      FieldOfToken(token);
      return;
    }
    assert token == TokenOf(f);
    KnownToken(f);
    assert Replacement(token, r) == TextOf(r, f);
  }

  /** Construction fails exactly if {met} is demanded and missing. */
  method Create(p: string, requireMet: bool) returns (tokens: Option<set<string>>)
    ensures tokens == if requireMet && "met" !in Tokens(p) then None else Some(Tokens(p))
  {
    var found := ExtractTokens(p);
    if requireMet && "met" !in found {
      return None;
    }
    return Some(found);
  }

  // ----- the scanners agree -----

  lemma {:induction false} FindSound(token: string, fields: seq<Field>)
    ensures Find(token, fields).Some? ==> TokenOf(Find(token, fields).value) == token
    ensures Find(token, fields).None? ==> forall f :: f in fields ==> TokenOf(f) != token
  {
    if fields != [] {
      FindSound(token, fields[1..]);
    }
  }

  lemma FieldListed(f: Field)
    ensures f in FIELDS
  {
    assert FIELDS[0] == LevelName && FIELDS[1] == SimTime && FIELDS[2] == Met && FIELDS[3] == WallNs;
    assert FIELDS[4] == ThreadId && FIELDS[5] == File && FIELDS[6] == Line && FIELDS[7] == Func;
    assert FIELDS[8] == LoggerName && FIELDS[9] == Msg;
  }

  lemma TokensDiffer(f: Field, g: Field)
    ensures IsTokenName(TokenOf(f))
    ensures TokenOf(f) == TokenOf(g) ==> f == g
  {
    assert f != g ==> |TokenOf(f)| != |TokenOf(g)| || TokenOf(f)[0] != TokenOf(g)[0] || TokenOf(f)[1] != TokenOf(g)[1];
  }

  lemma KnownToken(f: Field)
    ensures IsTokenName(TokenOf(f)) && FieldOf(TokenOf(f)) == Some(f)
  {
    FindSound(TokenOf(f), FIELDS);
    FieldListed(f);
    TokensDiffer(f, if FieldOf(TokenOf(f)).Some? then FieldOf(TokenOf(f)).value else f);
  }

  lemma FieldOfToken(t: string)
    ensures FieldOf(t).Some? ==> t == TokenOf(FieldOf(t).value) && IsTokenName(t)
  {
    FindSound(t, FIELDS);
    if FieldOf(t).Some? {
      KnownToken(FieldOf(t).value);
    }
  }

  /** Rendering looks only at the replacements of the braced runs that occur. */
  lemma {:induction false} RenderAgrees(ss: seq<Segment>, sub: string -> string, sub': string -> string)
    requires forall t :: Braced(t) in ss ==> sub(t) == sub'(t)
    ensures Render(ss, sub) == Render(ss, sub')
  {
    if ss != [] {
      assert forall s :: s in ss[1..] ==> s in ss;
      RenderAgrees(ss[1..], sub, sub');
      assert ss[0].Braced? ==> Braced(ss[0].token) in ss;
    }
  }

  lemma FormatsAgree(p: string, sub: string -> string, sub': string -> string)
    requires forall t :: Braced(t) in Segments(p) ==> sub(t) == sub'(t)
    ensures FormatWith(p, sub) == FormatWith(p, sub')
  {
    RenderAgrees(Segments(p), sub, sub');
    FormatIsRender(p, sub);
    FormatIsRender(p, sub');
  }

  const BLANK := Rendering("", "", "", "", "", "", "", "", "", "")

  function Marked(f: Field): Rendering {
    match f
    case LevelName => BLANK.(level := "x")
    case SimTime => BLANK.(sim := "x")
    case Met => BLANK.(met := "x")
    case WallNs => BLANK.(wallNs := "x")
    case ThreadId => BLANK.(thread := "x")
    case File => BLANK.(file := "x")
    case Line => BLANK.(line := "x")
    case Func => BLANK.(func := "x")
    case LoggerName => BLANK.(logger := "x")
    case Msg => BLANK.(msg := "x")
  }

  /** Only field f may differ. */
  predicate DifferOnlyAt(r: Rendering, q: Rendering, f: Field) {
    forall g :: g != f ==> TextOf(r, g) == TextOf(q, g)
  }

  /** Lengthening the replacement of one run that occurs lengthens the output. */
  lemma {:induction false} LongerShows(ss: seq<Segment>, token: string, sub: string -> string, sub': string -> string)
    requires |sub(token)| < |sub'(token)| && forall t :: |sub(t)| <= |sub'(t)|
    ensures |Render(ss, sub)| + (if Braced(token) in ss then 1 else 0) <= |Render(ss, sub')|
  {
    if ss != [] {
      LongerShows(ss[1..], token, sub, sub');
    }
  }

  lemma MarkIsLonger(f: Field, t: string)
    ensures |Replacement(t, BLANK)| <= |Replacement(t, Marked(f))|
    ensures |Replacement(TokenOf(f), BLANK)| < |Replacement(TokenOf(f), Marked(f))|
  {
    KnownToken(f);
  }

  lemma MarkShows(p: string, f: Field)
    requires TokenOf(f) in Tokens(p)
    ensures Format(p, BLANK) != Format(p, Marked(f))
  {
    forall t ensures |Replacing(BLANK)(t)| <= |Replacing(Marked(f))(t)| {
      MarkIsLonger(f, t);
    }
    MarkIsLonger(f, TokenOf(f));
    FormatIsRender(p, Replacing(BLANK));
    FormatIsRender(p, Replacing(Marked(f)));
    LongerShows(Segments(p), TokenOf(f), Replacing(BLANK), Replacing(Marked(f)));
  }

  lemma AbsentFieldIgnored(p: string, f: Field, r: Rendering, q: Rendering)
    requires TokenOf(f) !in Tokens(p) && DifferOnlyAt(r, q, f)
    ensures Format(p, r) == Format(p, q)
  {
    KnownToken(f);
    forall t | Braced(t) in Segments(p) ensures Replacing(r)(t) == Replacing(q)(t) {
      FieldOfToken(t);
    }
    FormatsAgree(p, Replacing(r), Replacing(q));
  }

  /** The output depends on a field exactly if the token scanner reports the field's token. */
  lemma DependsExactlyOnTokens(p: string, f: Field)
    ensures TokenOf(f) in Tokens(p)
       <==> exists r, q :: DifferOnlyAt(r, q, f) && Format(p, r) != Format(p, q)
  {
    if TokenOf(f) in Tokens(p) {
      MarkShows(p, f);
      assert DifferOnlyAt(BLANK, Marked(f), f);
    } else {
      forall r, q | DifferOnlyAt(r, q, f) ensures Format(p, r) == Format(p, q) {
        AbsentFieldIgnored(p, f, r, q);
      }
    }
  }

  // ----- formatting is compositional -----

  lemma {:induction false} RenderConcat(ss: seq<Segment>, ts: seq<Segment>, sub: string -> string)
    ensures Render(ss + ts, sub) == Render(ss, sub) + Render(ts, sub)
  {
    if ss == [] {
      assert ss + ts == ts;
    } else {
      RenderConcat(ss[1..], ts, sub);
      assert (ss + ts)[0] == ss[0] && (ss + ts)[1..] == ss[1..] + ts;
      Regroup(Substitute(ss[0], sub), Render(ss[1..], sub), Render(ts, sub));
    }
  }

  /** Every opening brace has a closing brace after it. */
  predicate Closed(p: string) {
    forall i :: 0 <= i < |p| && p[i] == '{' ==> HasClose(p, i)
  }

  predicate HasClose(p: string, i: nat) {
    exists j :: i < j < |p| && p[j] == '}'
  }

  lemma ClosedSuffix(p: string, k: nat)
    requires k <= |p|
    ensures Closed(p) ==> Closed(p[k..])
    ensures Closed(p[k..]) && (forall i :: 0 <= i < k && p[i] == '{' ==> HasClose(p, i)) ==> Closed(p)
  {
    forall i | 0 <= i < |p[k..]| && p[k..][i] == '{' && HasClose(p, k + i) ensures HasClose(p[k..], i) {
      var j :| k + i < j < |p| && p[j] == '}';
      assert p[k..][j - k] == '}';
    }
    if Closed(p) {
      forall i | 0 <= i < |p[k..]| && p[k..][i] == '{' ensures HasClose(p[k..], i) {
        assert p[k + i] == '{';
        assert HasClose(p, k + i);
      }
    }
    if Closed(p[k..]) {
      forall i | k <= i < |p| && p[i] == '{' ensures HasClose(p, i) {
        assert p[k..][i - k] == '{';
        assert HasClose(p[k..], i - k);
        var j :| i - k < j < |p[k..]| && p[k..][j] == '}';
        assert p[k + j] == '}';
      }
    }
  }

  lemma {:induction false} CloseWithin(p: string, q: string, from: nat)
    requires from <= |p| && NextClose(p, from) < |p|
    ensures NextClose(p + q, from) == NextClose(p, from)
    decreases |p| - from
  {
    assert (p + q)[from] == p[from];
    if p[from] != '}' {
      CloseWithin(p, q, from + 1);
    }
  }

  lemma CloseInPrefix(p: string, q: string)
    requires p != "" && NextClose(p, 1) < |p|
    ensures NextClose(p + q, 1) == NextClose(p, 1)
  {
    CloseWithin(p, q, 1);
  }

  lemma SliceOfConcat(p: string, q: string, j: nat)
    requires 0 < j < |p|
    ensures (p + q)[0] == p[0] && (p + q)[1..] == p[1..] + q
    ensures (p + q)[1..j] == p[1..j] && (p + q)[j + 1..] == p[j + 1..] + q
  {
  }

  lemma SegmentsBraced(p: string, j: nat, t: string, rest: string)
    requires p != "" && p[0] == '{' && j == NextClose(p, 1) < |p| && t == p[1..j] && rest == p[j + 1..]
    ensures Segments(p) == [Braced(t)] + Segments(rest)
  {
  }

  lemma Glue(s: Segment, a: seq<Segment>, b: seq<Segment>)
    ensures [s] + (a + b) == [s] + a + b
  {
  }

  lemma ConcatPlain(p: string, q: string)
    requires p != "" && p[0] != '{' && Segments(p[1..] + q) == Segments(p[1..]) + Segments(q)
    ensures Segments(p + q) == Segments(p) + Segments(q)
  {
    assert (p + q)[0] == p[0] && (p + q)[1..] == p[1..] + q;
    Glue(Plain(p[0]), Segments(p[1..]), Segments(q));
  }

  lemma ConcatBraced(p: string, j: nat, q: string)
    requires p != "" && p[0] == '{' && j == NextClose(p, 1) < |p|
    requires Segments(p[j + 1..] + q) == Segments(p[j + 1..]) + Segments(q)
    ensures Segments(p + q) == Segments(p) + Segments(q)
  {
    CloseInPrefix(p, q);
    SliceOfConcat(p, q, j);
    SegmentsBraced(p, j, p[1..j], p[j + 1..]);
    SegmentsBraced(p + q, j, p[1..j], p[j + 1..] + q);
    Glue(Braced(p[1..j]), Segments(p[j + 1..]), Segments(q));
  }

  lemma CloseExists(p: string)
    requires Closed(p) && p != "" && p[0] == '{'
    ensures NextClose(p, 1) < |p|
  {
    assert HasClose(p, 0);
    var j :| 0 < j < |p| && p[j] == '}';
    if NextClose(p, 1) == |p| {
      NoCloseBefore(p, 1, j);
    }
  }

  lemma {:induction false} SegmentsConcat(p: string, q: string)
    requires Closed(p)
    ensures Segments(p + q) == Segments(p) + Segments(q)
    decreases |p|
  {
    if p == "" {
      assert p + q == q;
    } else if p[0] != '{' {
      ClosedSuffix(p, 1);
      SegmentsConcat(p[1..], q);
      ConcatPlain(p, q);
    } else {
      CloseExists(p);
      var j := NextClose(p, 1);
      ClosedSuffix(p, j + 1);
      SegmentsConcat(p[j + 1..], q);
      ConcatBraced(p, j, q);
    }
  }

  lemma SplitAt(p: string, q: string, sub: string -> string)
    requires Closed(p)
    ensures FormatWith(p + q, sub) == FormatWith(p, sub) + FormatWith(q, sub)
  {
    SegmentsConcat(p, q);
    RenderConcat(Segments(p), Segments(q), sub);
    FormatIsRender(p, sub);
    FormatIsRender(q, sub);
    FormatIsRender(p + q, sub);
  }

  lemma SplitThree(p: string, t: string, q: string, sub: string -> string)
    requires Closed(p) && Closed(t)
    ensures FormatWith(p + t + q, sub) == FormatWith(p, sub) + FormatWith(t, sub) + FormatWith(q, sub)
  {
    SplitAt(p, t + q, sub);
    SplitAt(t, q, sub);
    Regroup(p, t, q);
    Regroup(FormatWith(p, sub), FormatWith(t, sub), FormatWith(q, sub));
  }

  /** The first segment of p, if closed, is also the first of p + m, and renders to the same text x. */
  lemma SharedHead(p: string, m: string, sub: string -> string) returns (x: string, k: nat)
    requires p != "" && (p[0] == '{' ==> NextClose(p, 1) < |p|)
    ensures 0 < k <= |p| && (if p[0] == '{' then p[k - 1] == '}' else k == 1)
    ensures FormatWith(p, sub) == x + FormatWith(p[k..], sub)
    ensures FormatWith(p + m, sub) == x + FormatWith((p + m)[k..], sub)
  {
    if p[0] != '{' {
      FormatPlain(p, sub);
      FormatPlain(p + m, sub);
      x, k := [p[0]], 1;
    } else {
      var j := NextClose(p, 1);
      var t := p[1..j];
      CloseInPrefix(p, m);
      assert (p + m)[1..j] == t;
      FormatBraced(p, j, sub);
      FormatBraced(p + m, j, sub);
      x, k := sub(t), j + 1;
    }
  }

  /** A braced run of its own, whose content itself holds an opening brace. */
  predicate IsBraced(m: string) {
    |m| >= 2 && m[0] == '{' && m[|m| - 1] == '}' && forall k :: 0 <= k < |m| - 1 ==> m[k] != '}'
  }

  /** Runs that hold an opening brace are left as they are. */
  predicate KeepsNested(sub: string -> string, t: string) {
    '{' in t ==> sub(t) == "{" + t + "}"
  }

  ghost predicate KeepsAllNested(sub: string -> string) {
    forall t :: KeepsNested(sub, t)
  }

  /** Behind an unclosed brace, a following braced run is swallowed and printed as it stands. */
  lemma {:induction false} UnclosedSwallows(p: string, m: string, sub: string -> string)
    requires !Closed(p) && IsBraced(m) && KeepsAllNested(sub)
    ensures FormatWith(p + m, sub) == FormatWith(p, sub) + m
    decreases |p|
  {
    if p[0] == '{' && NextClose(p, 1) == |p| {
      FormatUnclosed(p, sub);
      SwallowedRun(p, m, sub);
    } else {
      var x, k := SharedHead(p, m, sub);
      ClosedHead(p, k);
      UnclosedSwallows(p[k..], m, sub);
      HeadThenSwallowed(p, m, k, x, sub);
    }
  }

  lemma HeadThenSwallowed(p: string, m: string, k: nat, x: string, sub: string -> string)
    requires k <= |p| && FormatWith(p[k..] + m, sub) == FormatWith(p[k..], sub) + m
    requires FormatWith(p, sub) == x + FormatWith(p[k..], sub)
    requires FormatWith(p + m, sub) == x + FormatWith((p + m)[k..], sub)
    ensures FormatWith(p + m, sub) == FormatWith(p, sub) + m
  {
    assert (p + m)[k..] == p[k..] + m;
    Regroup(x, FormatWith(p[k..], sub), m);
  }

  lemma WholeRun(q: string, sub: string -> string)
    requires |q| >= 2 && q[0] == '{' && NextClose(q, 1) == |q| - 1
    requires sub(q[1..|q| - 1]) == "{" + q[1..|q| - 1] + "}"
    ensures FormatWith(q, sub) == q
  {
    FormatBraced(q, |q| - 1, sub);
    Rejoin(q, |q| - 1);
    EmptyRest(q, sub);
  }

  lemma SwallowedRun(p: string, m: string, sub: string -> string)
    requires p != "" && p[0] == '{' && NextClose(p, 1) == |p| && IsBraced(m)
    requires KeepsAllNested(sub)
    ensures FormatWith(p + m, sub) == p + m
  {
    CloseAtEnd(p, m);
    NestedBrace(p, m);
    NestedWhole(p + m, sub);
  }

  lemma NestedWhole(q: string, sub: string -> string)
    requires |q| >= 2 && q[0] == '{' && NextClose(q, 1) == |q| - 1
    requires KeepsAllNested(sub) && '{' in q[1..|q| - 1]
    ensures FormatWith(q, sub) == q
  {
    assert KeepsNested(sub, q[1..|q| - 1]);
    WholeRun(q, sub);
  }

  lemma NestedBrace(p: string, m: string)
    requires p != "" && IsBraced(m)
    ensures '{' in (p + m)[1..|p + m| - 1]
  {
    assert (p + m)[1..|p + m| - 1][|p| - 1] == m[0];
  }

  lemma EmptyRest(q: string, sub: string -> string)
    ensures FormatWith(q[|q|..], sub) == "" && q[|q|..] == ""
  {
  }

  lemma CloseAtEnd(p: string, m: string)
    requires p != "" && NextClose(p, 1) == |p| && IsBraced(m)
    ensures NextClose(p + m, 1) == |p + m| - 1
  {
    var q := p + m;
    forall k | 1 <= k < |q| - 1 ensures q[k] != '}' {
      if k < |p| {
        NoCloseBefore(p, 1, k);
      }
    }
    NextCloseIs(q, 1, |q| - 1);
  }

  lemma ClosedHead(p: string, k: nat)
    requires 0 < k <= |p| && (if p[0] == '{' then p[k - 1] == '}' else k == 1)
    ensures Closed(p[k..]) ==> Closed(p)
  {
    forall i | 0 <= i < k && p[i] == '{' ensures HasClose(p, i) {
      assert p[k - 1] == '}';
    }
    ClosedSuffix(p, k);
  }

  lemma NestedKept(t: string, r: Rendering)
    ensures KeepsNested(Replacing(r), t)
  {
    FieldOfToken(t);
    if '{' in t {
      var i :| 0 <= i < |t| && t[i] == '{';
      assert !IsTokenChar(t[i]);
    }
  }

  lemma AllNestedKept(r: Rendering)
    ensures KeepsAllNested(Replacing(r))
  {
    forall t ensures KeepsNested(Replacing(r), t) {
      NestedKept(t, r);
    }
  }

  lemma UnclosedDoesNotSplit(p: string, f: Field, r: Rendering)
    requires !Closed(p) && TextOf(r, f) == ""
    ensures Format(p + Run(f), r) != Format(p, r) + Format(Run(f), r)
  {
    OneToken(f, r);
    RunIsBraced(f);
    BlankedDoesNotSplit(p, Run(f), r);
  }

  lemma BlankedDoesNotSplit(p: string, m: string, r: Rendering)
    requires !Closed(p) && IsBraced(m) && Format(m, r) == ""
    ensures Format(p + m, r) != Format(p, r) + Format(m, r)
  {
    AllNestedKept(r);
    UnclosedBreaks(p, m, Replacing(r));
  }

  lemma RunIsBraced(f: Field)
    ensures IsBraced(Run(f))
  {
    KnownToken(f);
    assert forall k :: 1 <= k < |Run(f)| - 1 ==> IsTokenChar(Run(f)[k]);
  }

  lemma UnclosedBreaks(p: string, m: string, sub: string -> string)
    requires !Closed(p) && IsBraced(m) && KeepsAllNested(sub) && |FormatWith(m, sub)| != |m|
    ensures FormatWith(p + m, sub) != FormatWith(p, sub) + FormatWith(m, sub)
  {
    UnclosedSwallows(p, m, sub);
  }

  /** Formatting splits at the end of p, for every continuation and every record, exactly if every opening
      brace of p has a closing brace after it. */
  lemma CompositionalIffClosed(p: string)
    ensures Closed(p) <==> forall q, r :: Format(p + q, r) == Format(p, r) + Format(q, r)
  {
    if Closed(p) {
      forall q, r ensures Format(p + q, r) == Format(p, r) + Format(q, r) {
        SplitAt(p, q, Replacing(r));
      }
    } else {
      UnclosedDoesNotSplit(p, Msg, BLANK);
    }
  }

  /** A field's token between braces. */
  function Run(f: Field): string {
    "{" + TokenOf(f) + "}"
  }

  lemma OneRun(t: string, sub: string -> string)
    requires IsTokenName(t)
    ensures Closed("{" + t + "}") && FormatWith("{" + t + "}", sub) == sub(t)
  {
    var p := "{" + t + "}";
    assert p[|p| - 1] == '}';
    assert forall k :: 1 <= k < |p| - 1 ==> p[k] == t[k - 1];
    NextCloseIs(p, 1, |p| - 1);
    assert p[1..|p| - 1] == t && p[|p|..] == "";
    FormatBraced(p, |p| - 1, sub);
    forall i | 0 <= i < |p| && p[i] == '{' ensures HasClose(p, i) {
      assert i < |p| - 1;
    }
  }

  lemma OneToken(f: Field, r: Rendering)
    ensures Closed(Run(f)) && Format(Run(f), r) == TextOf(r, f)
  {
    KnownToken(f);
    OneRun(TokenOf(f), Replacing(r));
  }

  lemma RunsLiterally()
    ensures Run(LevelName) == "{level}" && Run(SimTime) == "{sim}" && Run(Met) == "{met}"
    ensures Run(WallNs) == "{wall_ns}" && Run(ThreadId) == "{thread}" && Run(File) == "{file}"
    ensures Run(Line) == "{line}" && Run(Func) == "{function}" && Run(LoggerName) == "{logger}" && Run(Msg) == "{msg}"
  {
  }

  /** Each of the ten tokens prints its own field: what the record says of time and origin ... */
  lemma TokensLiterally(p: string, r: Rendering)
    ensures p == "{level}" ==> Format(p, r) == r.level
    ensures p == "{sim}" ==> Format(p, r) == r.sim
    ensures p == "{met}" ==> Format(p, r) == r.met
    ensures p == "{wall_ns}" ==> Format(p, r) == r.wallNs
    ensures p == "{thread}" ==> Format(p, r) == r.thread
  {
    RunsLiterally();
    PrintsField(p, LevelName, r);
    PrintsField(p, SimTime, r);
    PrintsField(p, Met, r);
    PrintsField(p, WallNs, r);
    PrintsField(p, ThreadId, r);
  }

  /** ... and of the place, the logger and the message. */
  lemma OtherTokensLiterally(p: string, r: Rendering)
    ensures p == "{file}" ==> Format(p, r) == r.file
    ensures p == "{line}" ==> Format(p, r) == r.line
    ensures p == "{function}" ==> Format(p, r) == r.func
    ensures p == "{logger}" ==> Format(p, r) == r.logger
    ensures p == "{msg}" ==> Format(p, r) == r.msg
  {
    RunsLiterally();
    PrintsField(p, File, r);
    PrintsField(p, Line, r);
    PrintsField(p, Func, r);
    PrintsField(p, LoggerName, r);
    PrintsField(p, Msg, r);
  }

  lemma PrintsField(p: string, f: Field, r: Rendering)
    ensures p == Run(f) ==> Format(p, r) == TextOf(r, f)
  {
    if p == Run(f) {
      OneToken(f, r);
    }
  }

  /** The token scanner reports the name between the braces of a run ... */
  lemma TokenOfRun(t: string)
    requires IsTokenName(t)
    ensures Tokens("{" + t + "}") == {t}
  {
    var p := "{" + t + "}";
    NextCloseIs(p, 1, |t| + 1);
    assert p[1..|t| + 1] == t && p[|t| + 2..] == "";
    SegmentsBraced(p, |t| + 1, t, "");
    assert Segments(p) == [Braced(t)];
  }

  /** ... and of a pattern without unmatched opening braces, its tokens beside those of what follows. */
  lemma TokensConcat(p: string, q: string)
    requires Closed(p)
    ensures Tokens(p + q) == Tokens(p) + Tokens(q)
  {
    SegmentsConcat(p, q);
  }

  /** Names of tokens are made of letters of either case, digits and underscores. */
  lemma TokenNamesLiterally()
    ensures IsTokenName("aZ_09") && !IsTokenName("") && !IsTokenName("a-b") && !IsTokenName("a b")
    ensures forall ch :: IsTokenName([ch]) <==>
              ('a' <= ch <= 'z' || 'A' <= ch <= 'Z' || '0' <= ch <= '9' || ch == '_')
  {
    assert "a-b"[1] == '-' && "a b"[1] == ' ';
    forall ch ensures IsTokenName([ch]) <==> IsTokenChar(ch) {
      assert [ch][0] == ch;
    }
  }

  /** A token is replaced by its field's text as it is: text with braces or tokens is never scanned again. */
  lemma SubstitutedTextIsNotRescanned(p: string, f: Field, q: string, r: Rendering)
    requires Closed(p)
    ensures Format(p + Run(f) + q, r) == Format(p, r) + TextOf(r, f) + Format(q, r)
  {
    OneToken(f, r);
    SplitThree(p, Run(f), q, Replacing(r));
  }

  // ----- patterns that print themselves -----

  lemma Rejoin(p: string, j: nat)
    requires 0 < j < |p| && p[0] == '{' && p[j] == '}'
    ensures "{" + p[1..j] + "}" + p[j + 1..] == p
  {
  }

  /** Replacing every run by itself gives the pattern back. */
  lemma {:induction false} VerbatimPrintsItself(p: string, sub: string -> string)
    requires forall t :: sub(t) == "{" + t + "}"
    ensures FormatWith(p, sub) == p
    decreases |p|
  {
    if p == "" {
    } else if p[0] != '{' {
      VerbatimPrintsItself(p[1..], sub);
      FormatPlain(p, sub);
    } else if NextClose(p, 1) < |p| {
      var j := NextClose(p, 1);
      VerbatimPrintsItself(p[j + 1..], sub);
      FormatBraced(p, j, sub);
      Rejoin(p, j);
    } else {
      FormatUnclosed(p, sub);
    }
  }

  lemma NoKnownTokenPrintsItself(p: string, r: Rendering)
    requires forall f :: TokenOf(f) !in Tokens(p)
    ensures Format(p, r) == p
  {
    var verbatim := (t: string) => "{" + t + "}";
    forall t | Braced(t) in Segments(p) ensures Replacing(r)(t) == verbatim(t) {
      FieldOfToken(t);
      assert IsTokenName(t) ==> t in Tokens(p);
    }
    FormatsAgree(p, Replacing(r), verbatim);
    VerbatimPrintsItself(p, verbatim);
  }

  /** A pattern prints itself for every record exactly if the token scanner finds no known token in it. */
  lemma PrintsItselfIffNoKnownToken(p: string)
    ensures (forall r :: Format(p, r) == p) <==> forall f :: TokenOf(f) !in Tokens(p)
  {
    if f :| TokenOf(f) in Tokens(p) {
      MarkShows(p, f);
    } else {
      forall r ensures Format(p, r) == p {
        NoKnownTokenPrintsItself(p, r);
      }
    }
  }
}
