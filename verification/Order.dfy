/** The byte-wise order on strings that paths, shas, names and keys are sorted by. */
module Order {
  import opened Wrappers

  /** Byte-wise order. */
  predicate Less(a: string, b: string)
    decreases |a|
  {
    b != "" && (a == "" || a[0] < b[0] || (a[0] == b[0] && Less(a[1..], b[1..])))
  }

  lemma {:induction false} LessTrichotomy(a: string, b: string)
    ensures Less(a, b) || a == b || Less(b, a)
    ensures !(Less(a, b) && Less(b, a)) && !Less(a, a)
    decreases |a|
  {
    if a != "" && b != "" && a[0] == b[0] {
      LessTrichotomy(a[1..], b[1..]);
      assert a == [a[0]] + a[1..] && b == [b[0]] + b[1..];
    }
    if a != "" {
      LessIrreflexive(a);
    }
  }

  lemma {:induction false} LessIrreflexive(a: string)
    ensures !Less(a, a)
    decreases |a|
  {
    if a != "" {
      LessIrreflexive(a[1..]);
    }
  }

  lemma {:induction false} LessTransitive(a: string, b: string, c: string)
    requires Less(a, b) && Less(b, c)
    ensures Less(a, c)
    decreases |a|
  {
    if a != "" && a[0] == b[0] && b[0] == c[0] {
      LessTransitive(a[1..], b[1..], c[1..]);
    }
  }

  // ---- ranks -----------------------------------------------------------------------------

  /** How many come before x. */
  function Rank(s: set<string>, x: string): nat {
    |set y | y in s && Less(y, x)|
  }

  lemma RankLess(s: set<string>, x: string, y: string)
    requires x in s && y in s
    ensures Less(x, y) <==> Rank(s, x) < Rank(s, y)
    ensures Rank(s, x) == Rank(s, y) <==> x == y
  {
    LessTrichotomy(x, y);
    if Less(x, y) {
      RankGrows(s, x, y);
    } else if x != y {
      RankGrows(s, y, x);
    }
  }

  lemma RankGrows(s: set<string>, x: string, y: string)
    requires x in s && Less(x, y)
    ensures Rank(s, x) < Rank(s, y)
  {
    var a, b := set z | z in s && Less(z, x), set z | z in s && Less(z, y);
    forall z | z in a
      ensures z in b
    {
      LessTransitive(z, x, y);
    }
    LessIrreflexive(x);
    assert x in b && x !in a;
    SubsetSize(a, b);
  }

  lemma {:induction false} Last(s: set<string>) returns (m: string)
    requires s != {}
    ensures m in s && forall x :: x in s && x != m ==> Less(x, m)
  {
    m :| m in s;
    if s != {m} {
      var n := Last(s - {m});
      LessTrichotomy(m, n);
      if Less(m, n) {
        m := n;
      } else {
        forall x | x in s && x != m
          ensures Less(x, m)
        {
          if x != n {
            LessTransitive(x, n, m);
          }
        }
      }
    }
  }

  lemma RankOfLast(s: set<string>, m: string)
    requires m in s && forall x :: x in s && x != m ==> Less(x, m)
    ensures Rank(s, m) == |s| - 1
    ensures forall x :: x in s && x != m ==> Rank(s, x) == Rank(s - {m}, x)
  {
    LessIrreflexive(m);
    assert (set y | y in s && Less(y, m)) == s - {m};
    forall x | x in s && x != m
      ensures Rank(s, x) == Rank(s - {m}, x)
    {
      LessTrichotomy(x, m);
      assert (set y | y in s && Less(y, x)) == set y | y in s - {m} && Less(y, x);
    }
  }

  /** Every rank below the size is somebody's. */
  lemma {:induction false} RankTaken(s: set<string>, r: nat) returns (x: string)
    requires r < |s|
    ensures x in s && Rank(s, x) == r
    decreases |s|
  {
    var m := Last(s);
    RankOfLast(s, m);
    if r == |s| - 1 {
      x := m;
    } else {
      x := RankTaken(s - {m}, r);
    }
  }

  lemma RankInside(s: set<string>, x: string)
    requires x in s
    ensures Rank(s, x) < |s|
  {
    LessIrreflexive(x);
    var a := set y | y in s && Less(y, x);
    assert a <= s && x !in a;
    SubsetSize(a, s);
  }

  // ---- sorting ---------------------------------------------------------------------------

  /** Sorted, and so without repetition. */
  predicate InOrder(ks: seq<string>) {
    forall i, j :: 0 <= i < j < |ks| ==> Less(ks[i], ks[j])
  }

  method SortedKeys(keys: set<string>) returns (ks: seq<string>)
    ensures forall k :: k in ks <==> k in keys
    ensures InOrder(ks)
  {
    ks := [];
    var todo := keys;
    while todo != {}
      invariant todo <= keys
      invariant forall k :: k in ks <==> k in keys && k !in todo
      invariant InOrder(ks)
      decreases todo
    {
      var k :| k in todo;
      ks := InsertKey(ks, k);
      todo := todo - {k};
    }
  }

  method InsertKey(ks: seq<string>, k: string) returns (r: seq<string>)
    requires k !in ks && InOrder(ks)
    ensures forall x :: x in r <==> x == k || x in ks
    ensures InOrder(r)
  {
    var i := 0;
    while i < |ks| && Less(ks[i], k)
      invariant 0 <= i <= |ks|
      invariant forall j :: 0 <= j < i ==> Less(ks[j], k)
    {
      i := i + 1;
    }
    r := ks[..i] + [k] + ks[i..];
    if i < |ks| {
      LessTrichotomy(ks[i], k);
    }
    assert ks == ks[..i] + ks[i..];
    InsertedInOrder(ks, k, i, r);
  }

  lemma InsertedInOrder(ks: seq<string>, k: string, i: nat, r: seq<string>)
    requires i <= |ks| && r == ks[..i] + [k] + ks[i..] && InOrder(ks)
    requires forall j :: 0 <= j < i ==> Less(ks[j], k)
    requires i < |ks| ==> Less(k, ks[i])
    ensures InOrder(r)
  {
    forall a, b | 0 <= a < b < |r|
      ensures Less(r[a], r[b])
    {
      assert r[a] == if a < i then ks[a] else if a == i then k else ks[a - 1];
      assert r[b] == if b < i then ks[b] else if b == i then k else ks[b - 1];
      if a == i && b > i + 1 {
        LessTransitive(k, ks[i], ks[b - 1]);
      }
    }
  }
}
