/** The lock file a repository commits: one entry per path, and the merge of two branches' locks. */
module Locks {
  import opened Wrappers
  import opened Order

  datatype Entry = Entry(path: string, sha: string, size: int, location: string, pushedAt: int, pusher: string,
                         history: bool, preserve: bool, deleted: bool, versions: seq<string>)

  /** Entries by path. */
  type LockMap = map<string, Entry>

  predicate DistinctPaths(es: seq<Entry>) {
    forall i, j :: 0 <= i < j < |es| ==> es[i].path != es[j].path
  }

  predicate Sorted(es: seq<Entry>) {
    forall i, j :: 0 <= i < j < |es| ==> Less(es[i].path, es[j].path)
  }

  predicate WellKeyed(m: LockMap) {
    forall p :: p in m ==> m[p].path == p
  }

  /** The entries by path, the last one of a path winning. */
  function ByPath(es: seq<Entry>): (m: LockMap)
    ensures WellKeyed(m)
    ensures forall e :: e in es ==> e.path in m
    ensures forall p :: p in m ==> m[p] in es
  {
    if es == [] then map[]
    else
      var n := |es| - 1;
      ByPath(es[..n])[es[n].path := es[n]]
  }

  lemma ByPathDistinct(es: seq<Entry>, i: nat)
    requires DistinctPaths(es) && i < |es|
    ensures es[i].path in ByPath(es) && ByPath(es)[es[i].path] == es[i]
  {
    assert es[i] in es;
    var j :| 0 <= j < |es| && es[j] == ByPath(es)[es[i].path];
    assert i < j || j < i || i == j;
  }

  // ---- what a lock keeps alive -----------------------------------------------------------

  predicate References(e: Entry, sha: string) {
    sha != "" && (e.sha == sha || sha in e.versions)
  }

  ghost predicate Referenced(m: LockMap, sha: string) {
    exists p :: p in m && References(m[p], sha)
  }

  /** The shas an entry list keeps alive, each once, empty ones skipped. */
  method ReferencedSHAs(es: seq<Entry>) returns (out: seq<string>)
    ensures forall sha :: sha in out <==> exists e :: e in es && References(e, sha)
    ensures forall i, j :: 0 <= i < j < |out| ==> out[i] != out[j]
  {
    out := [];
    for i := 0 to |es|
      invariant forall sha :: sha in out <==> exists e :: e in es[..i] && References(e, sha)
      invariant forall i, j :: 0 <= i < j < |out| ==> out[i] != out[j]
    {
      out := AddEntry(out, es[i]);
      assert es[..i + 1] == es[..i] + [es[i]];
      assert es[i] in es[..i + 1];
    }
    assert es[..|es|] == es;
  }

  method AddEntry(out: seq<string>, e: Entry) returns (r: seq<string>)
    requires forall i, j :: 0 <= i < j < |out| ==> out[i] != out[j]
    ensures forall s :: s in r <==> s in out || References(e, s)
    ensures forall i, j :: 0 <= i < j < |r| ==> r[i] != r[j]
  {
    r := AddSHA(out, e.sha);
    ghost var before := r;
    for j := 0 to |e.versions|
      invariant forall s :: s in r <==> s in before || (s != "" && s in e.versions[..j])
      invariant forall i, j :: 0 <= i < j < |r| ==> r[i] != r[j]
    {
      assert e.versions[..j + 1] == e.versions[..j] + [e.versions[j]];
      r := AddSHA(r, e.versions[j]);
    }
    assert e.versions[..|e.versions|] == e.versions;
  }

  method AddSHA(out: seq<string>, sha: string) returns (r: seq<string>)
    requires forall i, j :: 0 <= i < j < |out| ==> out[i] != out[j]
    ensures forall s :: s in r <==> s in out || (s == sha && sha != "")
    ensures forall i, j :: 0 <= i < j < |r| ==> r[i] != r[j]
  {
    r := if sha == "" || sha in out then out else out + [sha];
  }

  // ---- merging ---------------------------------------------------------------------------

  /** The non-empty shas of s that out does not have yet, appended in order. */
  function AddAll(out: seq<string>, s: seq<string>): seq<string>
    decreases |s|
  {
    if s == [] then out
    else AddAll(if s[0] == "" || s[0] in out then out else out + [s[0]], s[1..])
  }

  function UnionVersions(primary: seq<string>, secondary: seq<string>): seq<string> {
    AddAll(AddAll([], primary), secondary)
  }

  lemma {:induction false} AddAllMembers(out: seq<string>, s: seq<string>)
    ensures forall x :: x in AddAll(out, s) <==> x in out || (x in s && x != "")
    ensures out <= AddAll(out, s)
    decreases |s|
  {
    if s != [] {
      AddAllMembers(if s[0] == "" || s[0] in out then out else out + [s[0]], s[1..]);
      assert s == [s[0]] + s[1..];
    }
  }

  lemma UnionVersionsMembers(a: seq<string>, b: seq<string>)
    ensures forall x :: x in UnionVersions(a, b) <==> x != "" && (x in a || x in b)
  {
    AddAllMembers([], a);
    AddAllMembers(AddAll([], a), b);
  }

  /** The winner of two entries that disagree on content: the newer push, then the greater sha. */
  predicate Beats(a: Entry, b: Entry) {
    a.pushedAt > b.pushedAt || (a.pushedAt == b.pushedAt && !Less(a.sha, b.sha))
  }

  function Resolve(a: Entry, b: Entry): Entry {
    if Beats(a, b) then a.(versions := UnionVersions(a.versions, b.versions))
    else b.(versions := UnionVersions(b.versions, a.versions))
  }

  function Combine(o: Entry, e: Entry): Entry {
    if o.sha == e.sha then o.(versions := UnionVersions(o.versions, e.versions), deleted := o.deleted && e.deleted)
    else Resolve(o, e)
  }

  /** The merge, path by path. */
  function MergeMap(a: LockMap, b: LockMap): LockMap {
    map p | p in a.Keys + b.Keys :: MergeAt(a, b, p)
  }

  method UnionOf(primary: seq<string>, secondary: seq<string>) returns (out: seq<string>)
    ensures out == UnionVersions(primary, secondary)
  {
    out := [];
    for i := 0 to |primary|
      invariant AddAll([], primary) == AddAll(out, primary[i..])
    {
      assert primary[i..][1..] == primary[i + 1..];
      out := if primary[i] == "" || primary[i] in out then out else out + [primary[i]];
    }
    assert primary[|primary|..] == [];
    for i := 0 to |secondary|
      invariant UnionVersions(primary, secondary) == AddAll(out, secondary[i..])
    {
      assert secondary[i..][1..] == secondary[i + 1..];
      out := if secondary[i] == "" || secondary[i] in out then out else out + [secondary[i]];
    }
    assert secondary[|secondary|..] == [];
  }

  method CombineEntries(o: Entry, e: Entry) returns (r: Entry)
    ensures r == Combine(o, e)
  {
    if o.sha == e.sha {
      var vs := UnionOf(o.versions, e.versions);
      return o.(versions := vs, deleted := o.deleted && e.deleted);
    }
    var winner, loser := o, e;
    if e.pushedAt > o.pushedAt {
      winner, loser := e, o;
    } else if o.pushedAt > e.pushedAt {
      winner, loser := o, e;
    } else if Less(o.sha, e.sha) {
      winner, loser := e, o;
    }
    LessTrichotomy(o.sha, e.sha);
    var vs := UnionOf(winner.versions, loser.versions);
    r := winner.(versions := vs);
  }

  function MergeAt(a: LockMap, b: LockMap, p: string): Entry
    requires p in a || p in b
  {
    if p !in b then a[p] else if p !in a then b[p] else Combine(a[p], b[p])
  }

  lemma MergeOne(a: LockMap, b: LockMap, e: Entry, m: LockMap, n: LockMap)
    requires e.path !in b && m == MergeMap(a, b) && n == MergeMap(a, b[e.path := e])
    ensures n == m[e.path := if e.path in m then Combine(m[e.path], e) else e]
  {
    var want := m[e.path := if e.path in m then Combine(m[e.path], e) else e];
    forall p | p in want
      ensures n[p] == want[p]
    {
    }
  }

  lemma MergeStep(a: LockMap, theirs: seq<Entry>, i: nat)
    requires DistinctPaths(theirs) && i < |theirs|
    ensures ByPath(theirs[..i + 1]) == ByPath(theirs[..i])[theirs[i].path := theirs[i]]
    ensures theirs[i].path !in ByPath(theirs[..i])
  {
    assert theirs[..i + 1][..i] == theirs[..i];
    assert forall x :: x in theirs[..i] ==> x.path != theirs[i].path;
  }

  /** One more entry of theirs goes into the map. */
  method MergeEntry(byPath: LockMap, e: Entry, ghost a: LockMap, ghost b: LockMap) returns (r: LockMap)
    requires byPath == MergeMap(a, b) && e.path !in b
    ensures r == MergeMap(a, b[e.path := e])
  {
    MergeOne(a, b, e, byPath, MergeMap(a, b[e.path := e]));
    if e.path !in byPath {
      r := byPath[e.path := e];
    } else {
      var combined := CombineEntries(byPath[e.path], e);
      r := byPath[e.path := combined];
    }
  }

  /** Merge two committed locks into a canonical one. */
  method Merge(ours: seq<Entry>, theirs: seq<Entry>) returns (merged: seq<Entry>)
    requires DistinctPaths(theirs)
    ensures Sorted(merged) && ByPath(merged) == MergeMap(ByPath(ours), ByPath(theirs))
  {
    var byPath := ByPath(ours);
    ghost var a := byPath;
    assert MergeMap(a, ByPath([])) == a;
    for i := 0 to |theirs|
      invariant byPath == MergeMap(a, ByPath(theirs[..i]))
    {
      MergeStep(a, theirs, i);
      byPath := MergeEntry(byPath, theirs[i], a, ByPath(theirs[..i]));
    }
    assert theirs[..|theirs|] == theirs;
    MergeWellKeyed(a, ByPath(theirs));
    merged := SortByPath(byPath);
  }

  lemma MergeWellKeyed(a: LockMap, b: LockMap)
    requires WellKeyed(a) && WellKeyed(b)
    ensures WellKeyed(MergeMap(a, b))
  {
  }

  /** The entries of a map as a sorted list. */
  method SortByPath(m: LockMap) returns (es: seq<Entry>)
    requires WellKeyed(m)
    ensures Sorted(es) && ByPath(es) == m
  {
    var ks := SortedKeys(m.Keys);
    es := seq(|ks|, i requires 0 <= i < |ks| => assert ks[i] in ks; m[ks[i]]);
    assert forall i :: 0 <= i < |es| ==> ks[i] in ks && es[i] == m[ks[i]] && es[i].path == ks[i];
    forall e: Entry | e.path in m && m[e.path] == e
      ensures e in es
    {
      var i :| 0 <= i < |ks| && ks[i] == e.path;
      assert es[i] == e;
    }
    SortedIsMap(es, m);
  }

  lemma SortedIsMap(es: seq<Entry>, m: LockMap)
    requires Sorted(es) && WellKeyed(m) && forall e :: e in es <==> e.path in m && m[e.path] == e
    ensures ByPath(es) == m
  {
    forall p
      ensures p in ByPath(es) <==> p in m
      ensures p in m ==> ByPath(es)[p] == m[p]
    {
      if p in m {
        assert m[p] in es;
      }
    }
  }

  // ---- laws of the merge -----------------------------------------------------------------

  /** Two entries that mean the same: content, liveness and recorded versions. */
  ghost predicate Agree(a: Entry, b: Entry) {
    a.path == b.path && a.sha == b.sha && a.deleted == b.deleted && forall x :: x in a.versions <==> x in b.versions
  }

  lemma CombineCommutes(a: Entry, b: Entry)
    requires a.path == b.path
    ensures Agree(Combine(a, b), Combine(b, a))
  {
    UnionVersionsMembers(a.versions, b.versions);
    UnionVersionsMembers(b.versions, a.versions);
    LessTrichotomy(a.sha, b.sha);
  }

  /** An entry but for its recorded versions. */
  function Bare(e: Entry): Entry {
    e.(versions := [])
  }

  /** Where contents agree the merged entry is ours, live if either is; where they differ it is the newer
      push, or of two of one time the one with the greater sha, and nothing of it changes. Either way it
      records the versions of both, its own side's first. */
  lemma CombineKeepsEntry(a: Entry, b: Entry)
    ensures var r := Combine(a, b);
            Bare(r) == if a.sha == b.sha then Bare(a.(deleted := a.deleted && b.deleted))
                       else if a.pushedAt > b.pushedAt || (a.pushedAt == b.pushedAt && Less(b.sha, a.sha)) then Bare(a) else Bare(b)
    ensures forall x :: x in Combine(a, b).versions <==> x != "" && (x in a.versions || x in b.versions)
  {
    LessTrichotomy(a.sha, b.sha);
    UnionVersionsMembers(a.versions, b.versions);
    UnionVersionsMembers(b.versions, a.versions);
  }

  /** The merge of two locks, path by path. */
  lemma MergeKeepsEntries(a: LockMap, b: LockMap, p: string)
    requires p in a || p in b
    ensures var m := MergeMap(a, b);
            && p in m && (p !in b ==> m[p] == a[p]) && (p !in a ==> m[p] == b[p])
            && (p in a && p in b && a[p].sha == b[p].sha ==> Bare(m[p]) == Bare(a[p].(deleted := a[p].deleted && b[p].deleted)))
            && (p in a && p in b && a[p].sha != b[p].sha ==>
                  Bare(m[p]) == if a[p].pushedAt > b[p].pushedAt || (a[p].pushedAt == b[p].pushedAt && Less(b[p].sha, a[p].sha)) then Bare(a[p]) else Bare(b[p]))
  {
    if p in a && p in b {
      CombineKeepsEntry(a[p], b[p]);
    }
  }

  /** Versions are recorded once each, the winner's in their order before the loser's. */
  lemma {:induction false} AddAllOrder(out: seq<string>, s: seq<string>)
    requires forall i, j :: 0 <= i < j < |out| ==> out[i] != out[j]
    ensures var r := AddAll(out, s); out <= r && forall i, j :: 0 <= i < j < |r| ==> r[i] != r[j]
    decreases |s|
  {
    if s != [] {
      AddAllOrder(if s[0] == "" || s[0] in out then out else out + [s[0]], s[1..]);
    }
  }

  /** Newest first stays newest first: a list without blanks or repeats comes through as it is. */
  lemma {:induction false} AddAllFresh(out: seq<string>, s: seq<string>)
    requires "" !in s && (forall i, j :: 0 <= i < j < |s| ==> s[i] != s[j]) && forall x :: x in s ==> x !in out
    ensures AddAll(out, s) == out + s
    decreases |s|
  {
    if s == [] {
      assert out + s == out;
    } else {
      assert s == [s[0]] + s[1..];
      AddAllFresh(out + [s[0]], s[1..]);
      assert out + [s[0]] + s[1..] == out + s;
    }
  }

  lemma UnionOrder(xs: seq<string>, ys: seq<string>)
    requires "" !in xs && forall i, j :: 0 <= i < j < |xs| ==> xs[i] != xs[j]
    ensures var vs := UnionVersions(xs, ys); xs <= vs && forall i, j :: 0 <= i < j < |vs| ==> vs[i] != vs[j]
  {
    AddAllFresh([], xs);
    assert [] + xs == xs;
    AddAllOrder(xs, ys);
  }

  lemma MergedVersionsOrder(a: Entry, b: Entry)
    requires "" !in a.versions && (forall i, j :: 0 <= i < j < |a.versions| ==> a.versions[i] != a.versions[j])
    requires "" !in b.versions && (forall i, j :: 0 <= i < j < |b.versions| ==> b.versions[i] != b.versions[j])
    ensures var vs := Combine(a, b).versions;
            && (forall i, j :: 0 <= i < j < |vs| ==> vs[i] != vs[j])
            && (if a.sha == b.sha || a.pushedAt > b.pushedAt || (a.pushedAt == b.pushedAt && Less(b.sha, a.sha)) then a.versions else b.versions) <= vs
  {
    LessTrichotomy(a.sha, b.sha);
    UnionOrder(a.versions, b.versions);
    UnionOrder(b.versions, a.versions);
  }

  /** The merge keeps exactly the union of paths, and either branch may be ours: both orders agree on
      sha, liveness and versions. */
  lemma MergeCommutes(a: LockMap, b: LockMap)
    requires WellKeyed(a) && WellKeyed(b)
    ensures MergeMap(a, b).Keys == a.Keys + b.Keys == MergeMap(b, a).Keys
    ensures forall p :: p in MergeMap(a, b) ==> Agree(MergeMap(a, b)[p], MergeMap(b, a)[p])
  {
    forall p | p in MergeMap(a, b)
      ensures Agree(MergeMap(a, b)[p], MergeMap(b, a)[p])
    {
      if p in a && p in b {
        CombineCommutes(a[p], b[p]);
      }
    }
  }

  /** The one content a merge of two entries can lose: the current sha of the side that lost, when
      neither side lists it as a version. */
  predicate Dropped(a: Entry, b: Entry, sha: string) {
    var loser := if Beats(a, b) then b else a;
    a.sha != b.sha && sha == loser.sha && sha != "" && sha !in a.versions && sha !in b.versions
  }

  lemma CombineReferences(a: Entry, b: Entry, sha: string)
    ensures References(Combine(a, b), sha) <==> (References(a, sha) || References(b, sha)) && !Dropped(a, b, sha)
  {
    UnionVersionsMembers(a.versions, b.versions);
    UnionVersionsMembers(b.versions, a.versions);
  }

  /** A sha either branch kept alive at a path is kept alive there by the merge, except exactly for
      that one. */
  lemma MergeKeepsReferences(a: LockMap, b: LockMap, p: string, sha: string)
    requires p in a || p in b
    ensures References(MergeMap(a, b)[p], sha) <==>
      ((p in a && References(a[p], sha)) || (p in b && References(b[p], sha))) && !(p in a && p in b && Dropped(a[p], b[p], sha))
  {
    if p in a && p in b {
      CombineReferences(a[p], b[p], sha);
    }
  }

  /** Live beats tombstone when both sides hold the same content, and only then: a newer tombstone of
      other content wins over a live entry. */
  lemma LiveBeatsTombstoneIff(a: Entry, b: Entry)
    requires !a.deleted && b.deleted
    ensures !Combine(a, b).deleted <==> a.sha == b.sha || Beats(a, b)
  {
  }

  /** Every sha a merged lock points at is one a branch pointed at. */
  lemma MergePointsAtOld(a: LockMap, b: LockMap, p: string)
    requires p in MergeMap(a, b)
    ensures (p in a && MergeMap(a, b)[p].sha == a[p].sha) || (p in b && MergeMap(a, b)[p].sha == b[p].sha)
  {
  }

  /** Merging a third branch is another matter: when two branches hold the same content, the merge
      keeps our push time and forgets theirs. The order of the merges does not matter for the content
      exactly when the third branch fares against the kept push time no better than against the
      forgotten one. */
  predicate OrderFree(x: Entry, y: Entry, z: Entry) {
    && (x.sha == y.sha && x.sha != z.sha ==> (Beats(y, z) ==> Beats(x, z)))
    && (y.sha == z.sha && x.sha != y.sha ==> (Beats(x, y) ==> Beats(x, z)))
  }

  lemma BeatsTotal(a: Entry, b: Entry)
    requires a.sha != b.sha
    ensures Beats(a, b) <==> !Beats(b, a)
  {
    LessTrichotomy(a.sha, b.sha);
  }

  lemma BeatsTransitive(a: Entry, b: Entry, c: Entry)
    requires Beats(a, b) && Beats(b, c)
    ensures Beats(a, c)
  {
    LessTrichotomy(a.sha, b.sha);
    LessTrichotomy(b.sha, c.sha);
    LessTrichotomy(a.sha, c.sha);
    if Less(b.sha, a.sha) && Less(c.sha, b.sha) {
      LessTransitive(c.sha, b.sha, a.sha);
    }
  }

  /** Combining keeps the sha and push time of one side. */
  lemma CombineKeepsOne(a: Entry, b: Entry)
    ensures var r := Combine(a, b);
            r.sha == (if a.sha == b.sha || Beats(a, b) then a.sha else b.sha) && r.pushedAt == (if a.sha == b.sha || Beats(a, b) then a.pushedAt else b.pushedAt)
  {
  }

  lemma MergeOrderIff(x: Entry, y: Entry, z: Entry)
    ensures Combine(Combine(x, y), z).sha == Combine(x, Combine(y, z)).sha <==> OrderFree(x, y, z)
  {
    var xy, yz := Combine(x, y), Combine(y, z);
    CombineKeepsOne(x, y);
    CombineKeepsOne(y, z);
    CombineKeepsOne(xy, z);
    CombineKeepsOne(x, yz);
    if x.sha != y.sha && y.sha != z.sha && x.sha != z.sha {
      BeatsTotal(x, y);
      BeatsTotal(y, z);
      BeatsTotal(x, z);
      if Beats(x, y) && Beats(y, z) {
        BeatsTransitive(x, y, z);
      }
      if Beats(z, y) && Beats(y, x) {
        BeatsTransitive(z, y, x);
      }
    } else if x.sha == y.sha && x.sha != z.sha {
      BeatsTotal(x, z);
      BeatsTotal(y, z);
    } else if y.sha == z.sha && x.sha != y.sha {
      BeatsTotal(x, y);
      BeatsTotal(x, z);
    }
  }

  /** An instance: a push between two pushes of one content wins or loses with the order. */
  lemma MergeOrderMatters(x: Entry, y: Entry, z: Entry)
    requires x.sha == y.sha && z.sha != x.sha && x.pushedAt < z.pushedAt < y.pushedAt
    ensures Combine(Combine(x, y), z).sha == z.sha
    ensures Combine(x, Combine(y, z)).sha == x.sha
  {
  }

  function ShaAt(m: LockMap, p: string): string {
    if p in m then m[p].sha else ""
  }

  predicate FreeAt(a: LockMap, b: LockMap, c: LockMap, p: string) {
    p in a && p in b && p in c ==> OrderFree(a[p], b[p], c[p])
  }

  lemma MergeAtOrderIff(a: LockMap, b: LockMap, c: LockMap, p: string)
    ensures var l, r := MergeMap(MergeMap(a, b), c), MergeMap(a, MergeMap(b, c));
            (p in l <==> p in r) && (p in l <==> p in a || p in b || p in c) && (ShaAt(l, p) == ShaAt(r, p) <==> FreeAt(a, b, c, p))
  {
    if p in a && p in b && p in c {
      MergeOrderIff(a[p], b[p], c[p]);
    }
  }

  /** Three branches merge to the same paths in either order, and to the same content at every path
      exactly when the order is free at every path that all three hold. */
  lemma MergeMapOrderIff(a: LockMap, b: LockMap, c: LockMap)
    ensures var l, r := MergeMap(MergeMap(a, b), c), MergeMap(a, MergeMap(b, c));
            l.Keys == r.Keys && ((forall p :: p in l ==> ShaAt(l, p) == ShaAt(r, p)) <==> forall p :: p in a && p in b && p in c ==> FreeAt(a, b, c, p))
  {
    var l, r := MergeMap(MergeMap(a, b), c), MergeMap(a, MergeMap(b, c));
    forall p
      ensures p in l <==> p in r
      ensures p in a && p in b && p in c ==> p in l
      ensures ShaAt(l, p) == ShaAt(r, p) <==> FreeAt(a, b, c, p)
    {
      MergeAtOrderIff(a, b, c, p);
    }
    assert forall p :: p in l && FreeAt(a, b, c, p) ==> ShaAt(l, p) == ShaAt(r, p);
  }
}
