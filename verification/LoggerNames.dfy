/** Parent names of loggers. */
module LoggerNames {

  /** Index of the last dot, or -1. */
  function LastDot(name: string): (pos: int)
    ensures -1 <= pos < |name|
    ensures pos >= 0 ==> name[pos] == '.'
    ensures forall i :: pos < i < |name| ==> name[i] != '.'
  {
    if name == "" then -1
    else if name[|name| - 1] == '.' then |name| - 1
    else LastDot(name[..|name| - 1])
  }

  /** The name of the parent logger; "" for none. */
  function ParentName(name: string): string
    decreases |name|
  {
    if name == "" || name == "root" then ""
    else
      var pos := LastDot(name);
      if pos <= 0 then "root"
      else if pos == |name| - 1 then ParentName(name[..|name| - 1])
      else name[..pos]
  }

  function Rank(name: string): nat {
    if name == "" || name == "root" then 0 else |name| + 1
  }

  /** "" and "root", the latter followed by any number of dots. */
  predicate IsTop(name: string) {
    name == "" || ("root" <= name && forall i :: 4 <= i < |name| ==> name[i] == '.')
  }

  /** Every step to a parent goes to a strictly smaller rank, so parent chains end. */
  lemma {:induction false} ParentIsSmaller(name: string)
    ensures ParentName(name) != "" ==> Rank(ParentName(name)) < Rank(name)
    ensures |ParentName(name)| <= |name| || ParentName(name) == "root"
    decreases |name|
  {
    if name != "" && name != "root" && LastDot(name) == |name| - 1 && LastDot(name) > 0 {
      ParentIsSmaller(name[..|name| - 1]);
    }
  }

  /** A logger has no parent exactly if its name is "", or "root" followed by dots. */
  lemma {:induction false} NoParentIffTop(name: string)
    ensures ParentName(name) == "" <==> IsTop(name)
    decreases |name|
  {
    if name != "" && name != "root" && LastDot(name) == |name| - 1 && LastDot(name) > 0 {
      var shorter := name[..|name| - 1];
      NoParentIffTop(shorter);
      if IsTop(name) {
        assert |name| > 4;
        assert "root" <= shorter;
      }
      if IsTop(shorter) {
        assert shorter != "";
        assert "root" <= name;
      }
    } else if "root" <= name && |name| > 4 {
      assert name[|name| - 1] != '.';
    }
  }

  /** The parent of a.b is a, for a component b without dots. */
  lemma ParentOfChild(a: string, b: string)
    requires a != "" && b != "" && forall i :: 0 <= i < |b| ==> b[i] != '.'
    ensures ParentName(a + "." + b) == a
  {
    var name := a + "." + b;
    DotIsLast(a, b);
    assert name[..|a|] == a;
    NotRoot(name, |a|);
  }

  lemma DotIsLast(a: string, b: string)
    requires forall i :: 0 <= i < |b| ==> b[i] != '.'
    ensures LastDot(a + "." + b) == |a|
  {
    NoDotAfter(a, b);
    assert (a + "." + b)[|a|] == '.';
    assert LastDot(a + "." + b) <= |a|;
  }

  lemma NoDotAfter(a: string, b: string)
    requires forall i :: 0 <= i < |b| ==> b[i] != '.'
    ensures forall i :: |a| < i < |a + "." + b| ==> (a + "." + b)[i] != '.'
  {
    forall i | |a| < i < |a + "." + b| ensures (a + "." + b)[i] != '.' {
      assert (a + "." + b)[i] == b[i - |a| - 1];
    }
  }

  lemma NotRoot(name: string, i: nat)
    requires i < |name| && name[i] == '.'
    ensures name != "root"
  {
    assert forall j :: 0 <= j < 4 ==> "root"[j] != '.';
  }

  /** A name without dots has the root logger as its parent, and so has one whose only dot comes first. */
  lemma ParentOfTopLevel(name: string)
    requires name != "" && name != "root" && forall i :: 1 <= i < |name| ==> name[i] != '.'
    ensures ParentName(name) == "root"
  {
    assert LastDot(name) <= 0;
  }

  /** The root logger and the nameless one have none. */
  lemma ParentsLiterally()
    ensures ParentName("") == "" == ParentName("root")
    ensures ParentName("app") == "root" == ParentName(".app")
    ensures ParentName("app.net") == "app" && ParentName("app.net.tcp") == "app.net"
  {
    ParentOfTopLevel("app");
    ParentOfTopLevel(".app");
    ParentOfChild("app", "net");
    ParentOfChild("app.net", "tcp");
    assert "app" + "." + "net" == "app.net" && "app.net" + "." + "tcp" == "app.net.tcp";
  }

  /** A trailing dot does not change the parent. */
  lemma ParentIgnoresTrailingDot(name: string)
    requires name != ""
    ensures ParentName(name + ".") == ParentName(name)
  {
    assert (name + ".")[..|name|] == name;
    assert (name + ".")[|name|] == '.';
  }

  /** The logger and its ancestors, nearest first. */
  function Chain(name: string): (r: seq<string>)
    ensures r != [] && r[0] == name
    decreases Rank(name)
  {
    ParentIsSmaller(name);
    if ParentName(name) == "" then [name] else [name] + Chain(ParentName(name))
  }

  /** Ranks fall along a chain, and the chain ends at a top name. */
  lemma {:induction false} ChainDescends(name: string)
    ensures IsTop(Chain(name)[|Chain(name)| - 1])
    ensures forall i, j :: 0 <= i < j < |Chain(name)| ==> Rank(Chain(name)[j]) < Rank(Chain(name)[i])
    ensures forall i :: 0 <= i < |Chain(name)| - 1 ==> ParentName(Chain(name)[i]) == Chain(name)[i + 1]
    decreases Rank(name)
  {
    NoParentIffTop(name);
    ParentIsSmaller(name);
    if ParentName(name) != "" {
      var rest := Chain(ParentName(name));
      ChainDescends(ParentName(name));
      forall j | 0 < j < |Chain(name)| ensures Rank(Chain(name)[j]) < Rank(name) {
        assert Chain(name)[j] == rest[j - 1];
      }
    }
  }

  /** A thread computing an effective setting: it has locked `held` loggers of the chain of `start`, child
      to parent, and asks for the next. */
  datatype Walker = Walker(start: string, held: nat)

  predicate Waiting(w: Walker) {
    w.held < |Chain(w.start)|
  }

  function Wanted(w: Walker): string
    requires Waiting(w)
  {
    Chain(w.start)[w.held]
  }

  predicate Holds(w: Walker, name: string)
    requires Waiting(w)
  {
    name in Chain(w.start)[..w.held]
  }

  function MinRank(ws: seq<Walker>): (k: nat)
    requires ws != [] && forall i :: 0 <= i < |ws| ==> Waiting(ws[i])
    ensures k < |ws| && forall i :: 0 <= i < |ws| ==> Rank(Wanted(ws[k])) <= Rank(Wanted(ws[i]))
  {
    if |ws| == 1 then 0
    else
      var k := MinRank(ws[1..]) + 1;
      assert forall i :: 1 <= i < |ws| ==> ws[i] == ws[1..][i - 1];
      if Rank(Wanted(ws[0])) <= Rank(Wanted(ws[k])) then 0 else k
  }

  /** Nested child-to-parent locking cannot deadlock: among any threads waiting for a parent's lock, one
      waits for a lock that none of them holds. */
  lemma NoDeadlock(ws: seq<Walker>)
    requires ws != [] && forall i :: 0 <= i < |ws| ==> Waiting(ws[i])
    ensures exists k :: 0 <= k < |ws| && forall i :: 0 <= i < |ws| ==> !Holds(ws[i], Wanted(ws[k]))
  {
    var k := MinRank(ws);
    forall i | 0 <= i < |ws| ensures !Holds(ws[i], Wanted(ws[k])) {
      ChainDescends(ws[i].start);
    }
  }
}
