/** The order of rotated files is the order of time: stamps compare as the numbers their digits form. */
module StampOrder {
  import opened RotationNames
  import opened RotationSpec

  /** The fourteen digits of a stamp, as one number. */
  function StampValue(ts: string): nat
    requires IsStamp(ts)
  {
    Value(ts[..8]) * 1_000_000 + Value(ts[9..])
  }

  // ----- lexicographic comparison -----

  /** A string is less than another exactly if at some position, the first where they differ, it has ended or
      has the smaller character. */
  lemma {:induction false} LessIff(a: string, b: string)
    ensures Less(a, b) <==>
              exists k :: 0 <= k <= |a| && k < |b| && a[..k] == b[..k] && (k < |a| ==> a[k] < b[k])
  {
    if a != "" && b != "" && a[0] == b[0] {
      LessIff(a[1..], b[1..]);
      if k :| 0 <= k <= |a| && k < |b| && a[..k] == b[..k] && (k < |a| ==> a[k] < b[k]) {
        assert k > 0;
        assert a[1..][..k - 1] == a[..k][1..] && b[1..][..k - 1] == b[..k][1..];
        assert k < |a| ==> a[1..][k - 1] < b[1..][k - 1];
      }
      if k :| 0 <= k <= |a[1..]| && k < |b[1..]| && a[1..][..k] == b[1..][..k]
              && (k < |a[1..]| ==> a[1..][k] < b[1..][k]) {
        assert a[..k + 1] == [a[0]] + a[1..][..k] && b[..k + 1] == [b[0]] + b[1..][..k];
        assert k + 1 < |a| ==> a[k + 1] < b[k + 1];
      }
    } else if b != "" {
      if a == "" || a[0] < b[0] {
        assert a[..0] == b[..0];
      }
      if k :| 0 <= k <= |a| && k < |b| && a[..k] == b[..k] && (k < |a| ==> a[k] < b[k]) {
        SameHead(a, b, k);
      }
    }
  }

  lemma SameHead(a: string, b: string, k: nat)
    ensures 0 < k <= |a| && k <= |b| && a[..k] == b[..k] ==> a[0] == b[0]
  {
    if 0 < k <= |a| && k <= |b| && a[..k] == b[..k] {
      assert a[..k][0] == b[..k][0];
    }
  }

  lemma {:induction false} LessConcat(a: string, b: string, x: string, y: string)
    requires |a| == |b|
    ensures Less(a + x, b + y) <==> Less(a, b) || (a == b && Less(x, y))
  {
    if a == "" {
      assert a + x == x && b + y == y;
    } else {
      assert (a + x)[1..] == a[1..] + x && (b + y)[1..] == b[1..] + y;
      assert a == [a[0]] + a[1..] && b == [b[0]] + b[1..];
      LessConcat(a[1..], b[1..], x, y);
    }
  }

  lemma LessOne(x: char, y: char)
    ensures Less([x], [y]) <==> x < y
  {
    assert [x][1..] == "" == [y][1..];
  }

  // ----- numbers -----

  function Pow10(n: nat): nat {
    if n == 0 then 1 else 10 * Pow10(n - 1)
  }

  lemma {:induction false} ValueBelow(s: string)
    requires AllDigits(s)
    ensures Value(s) < Pow10(|s|)
  {
    if s != "" {
      ValueBelow(s[..|s| - 1]);
    }
  }

  /** Digit strings of one length compare as their values. */
  lemma {:induction false} LessIsSmaller(a: string, b: string)
    requires AllDigits(a) && AllDigits(b) && |a| == |b|
    ensures Less(a, b) <==> Value(a) < Value(b)
    ensures a == b <==> Value(a) == Value(b)
  {
    if a != "" {
      var n := |a| - 1;
      LessIsSmaller(a[..n], b[..n]);
      LessConcat(a[..n], b[..n], [a[n]], [b[n]]);
      LessOne(a[n], b[n]);
      assert a == a[..n] + [a[n]] && b == b[..n] + [b[n]];
    }
  }

  lemma StampParts(ts: string)
    requires IsStamp(ts)
    ensures ts == ts[..8] + ("_" + ts[9..])
    ensures Value(ts[9..]) < 1_000_000
  {
    ValueBelow(ts[9..]);
    assert Pow10(6) == 1_000_000;
  }

  /** Stamps are ordered as the numbers they spell, most significant digits first. */
  lemma LessIsEarlier(a: string, b: string)
    requires IsStamp(a) && IsStamp(b)
    ensures Less(a, b) <==> StampValue(a) < StampValue(b)
    ensures a == b <==> StampValue(a) == StampValue(b)
  {
    StampParts(a);
    StampParts(b);
    LessIsSmaller(a[..8], b[..8]);
    LessIsSmaller(a[9..], b[9..]);
    LessConcat(a[..8], b[..8], "_" + a[9..], "_" + b[9..]);
    LessConcat("_", "_", a[9..], b[9..]);
    LessOne('_', '_');
  }

  /** A rotation is considered before another exactly if its stamp is earlier, or it has the same stamp and a
      smaller number. */
  lemma BeforeIsEarlier(x: Suffix, y: Suffix)
    requires IsStamp(x.ts) && IsStamp(y.ts)
    ensures Before(x, y) <==>
              (StampValue(x.ts) < StampValue(y.ts) || (StampValue(x.ts) == StampValue(y.ts) && x.n < y.n))
  {
    LessIsEarlier(x.ts, y.ts);
  }

  // ----- what pruning deletes -----

  /** x parses, and is no later than y. */
  ghost predicate NoLater(base: string, x: string, y: string) {
    && Parse(x, base).Some? && Parse(y, base).Some?
    && var p, q := Parse(x, base).value, Parse(y, base).value;
       && IsStamp(p.ts) && IsStamp(q.ts)
       && (StampValue(p.ts) < StampValue(q.ts) || (StampValue(p.ts) == StampValue(q.ts) && p.n <= q.n))
  }

  /** No file that pruning deletes is later than a rotated file that it keeps. */
  lemma PrunesEarliest(files: map<string, string>, base: string, limit: nat, kept: map<string, string>)
    requires Prunes(files, base, limit, kept)
    ensures forall x, y :: x in files && x !in kept && y in kept && Parse(y, base).Some? ==> NoLater(base, x, y)
  {
    forall x, y | x in files && x !in kept && y in kept && Parse(y, base).Some? ensures NoLater(base, x, y) {
      var gone := files.Keys - kept.Keys;
      assert x in gone && y in Candidates(files, base) - gone;
      assert NotAfter(base, x, y);
      BeforeIsEarlier(Parse(y, base).value, Parse(x, base).value);
    }
  }
}
