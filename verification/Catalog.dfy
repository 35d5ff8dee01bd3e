/** A node's catalog: one row per file, unique by path. The class keeps the slice the code edits in
    place; Rows is what the slice means, and the federation-level modules work on that map. */
module Catalogs {
  import opened Wrappers
  import opened Order

  datatype Genesis = Genesis(contentSha: string, originalPath: string, ingestOpID: string, originNode: string)

  datatype File = File(id: string, genesis: Genesis, sha: string, path: string, syncMode: string, size: int,
                       createdAt: int, updatedAt: int, lastScanned: int)

  const GIT := "git"
  const MANUAL := "manual"

  /** Rows by path. */
  type RowMap = map<string, File>

  function Lookup(fs: seq<File>, path: string): Option<File> {
    if fs == [] then None else if fs[0].path == path then Some(fs[0]) else Lookup(fs[1..], path)
  }

  function Paths(fs: seq<File>): set<string> {
    set f | f in fs :: f.path
  }

  predicate DistinctPaths(fs: seq<File>) {
    forall i, j :: 0 <= i < j < |fs| ==> fs[i].path != fs[j].path
  }

  lemma {:induction false} LookupIn(fs: seq<File>, path: string)
    ensures Lookup(fs, path).Some? <==> path in Paths(fs)
    ensures Lookup(fs, path).Some? ==> Lookup(fs, path).value in fs && Lookup(fs, path).value.path == path
  {
    if fs != [] {
      LookupIn(fs[1..], path);
      assert fs == [fs[0]] + fs[1..];
    }
  }

  function Rows(fs: seq<File>): (m: RowMap)
    ensures m.Keys == Paths(fs)
    ensures forall p :: p in m ==> Lookup(fs, p) == Some(m[p])
  {
    LookupInAll(fs);
    map p | p in Paths(fs) :: Lookup(fs, p).value
  }

  lemma LookupInAll(fs: seq<File>)
    ensures forall p :: p in Paths(fs) <==> Lookup(fs, p).Some?
  {
    forall p
      ensures p in Paths(fs) <==> Lookup(fs, p).Some?
    {
      LookupIn(fs, p);
    }
  }

  /** Every key is its row's path: what any Rows map satisfies. */
  predicate WellKeyed(m: RowMap) {
    forall p :: p in m ==> m[p].path == p
  }

  lemma RowsWellKeyed(fs: seq<File>)
    ensures WellKeyed(Rows(fs))
  {
    forall p | p in Rows(fs)
      ensures Rows(fs)[p].path == p
    {
      LookupIn(fs, p);
    }
  }

  lemma {:induction false} DistinctLookup(fs: seq<File>, i: nat)
    requires DistinctPaths(fs) && i < |fs|
    ensures Lookup(fs, fs[i].path) == Some(fs[i])
  {
    if i > 0 {
      assert fs[0].path != fs[i].path;
      DistinctLookup(fs[1..], i - 1);
    }
  }

  /** With unique paths the map holds exactly the rows of the slice. */
  lemma RowsAreFiles(fs: seq<File>)
    requires DistinctPaths(fs)
    ensures forall f :: f in fs <==> f.path in Rows(fs) && Rows(fs)[f.path] == f
  {
    forall f
      ensures f in fs <==> f.path in Rows(fs) && Rows(fs)[f.path] == f
    {
      if f in fs {
        var i :| 0 <= i < |fs| && fs[i] == f;
        DistinctLookup(fs, i);
      } else if f.path in Rows(fs) {
        LookupIn(fs, f.path);
      }
    }
  }

  // ---- the specification of Upsert and Remove --------------------------------------------

  function UpsertAt(fs: seq<File>, f: File): seq<File> {
    if fs == [] then [f]
    else if fs[0].path == f.path then [f] + fs[1..]
    else [fs[0]] + UpsertAt(fs[1..], f)
  }

  function RemoveAll(fs: seq<File>, path: string): seq<File> {
    if fs == [] then [] else if fs[0].path == path then RemoveAll(fs[1..], path) else [fs[0]] + RemoveAll(fs[1..], path)
  }

  lemma {:induction false} UpsertLooksUp(fs: seq<File>, f: File, p: string)
    ensures Lookup(UpsertAt(fs, f), p) == if p == f.path then Some(f) else Lookup(fs, p)
  {
    if fs != [] && fs[0].path != f.path {
      UpsertLooksUp(fs[1..], f, p);
      assert UpsertAt(fs, f)[1..] == UpsertAt(fs[1..], f);
    } else if fs != [] {
      assert UpsertAt(fs, f)[1..] == fs[1..];
    }
  }

  lemma {:induction false} RemoveLooksUp(fs: seq<File>, path: string, p: string)
    ensures Lookup(RemoveAll(fs, path), p) == if p == path then None else Lookup(fs, p)
  {
    if fs != [] {
      RemoveLooksUp(fs[1..], path, p);
      if fs[0].path != path {
        assert RemoveAll(fs, path)[1..] == RemoveAll(fs[1..], path);
      }
    }
  }

  /** Upsert is a map update. */
  lemma UpsertRows(fs: seq<File>, f: File)
    ensures Rows(UpsertAt(fs, f)) == Rows(fs)[f.path := f]
  {
    var m, n := Rows(UpsertAt(fs, f)), Rows(fs)[f.path := f];
    forall p
      ensures p in m <==> p in n
      ensures p in m ==> m[p] == n[p]
    {
      UpsertLooksUp(fs, f, p);
      LookupIn(UpsertAt(fs, f), p);
      LookupIn(fs, p);
    }
  }

  /** Remove is a map deletion. */
  lemma RemoveRows(fs: seq<File>, path: string)
    ensures Rows(RemoveAll(fs, path)) == Rows(fs) - {path}
  {
    var m, n := Rows(RemoveAll(fs, path)), Rows(fs) - {path};
    forall p
      ensures p in m <==> p in n
      ensures p in m ==> m[p] == n[p]
    {
      RemoveLooksUp(fs, path, p);
      LookupIn(RemoveAll(fs, path), p);
      LookupIn(fs, p);
    }
  }

  lemma ConsDistinct(f: File, fs: seq<File>)
    requires DistinctPaths(fs) && f.path !in Paths(fs)
    ensures DistinctPaths([f] + fs)
  {
    forall j | 0 <= j < |fs|
      ensures fs[j].path != f.path
    {
      assert fs[j].path in Paths(fs);
    }
  }

  lemma ConsPaths(f: File, fs: seq<File>)
    ensures Paths([f] + fs) == {f.path} + Paths(fs)
  {
    forall p
      ensures p in Paths([f] + fs) <==> p == f.path || p in Paths(fs)
    {
      if p in Paths(fs) {
        var g :| g in fs && g.path == p;
        assert g in [f] + fs;
      }
      if p == f.path {
        assert f in [f] + fs;
      }
    }
  }

  lemma TailDistinct(fs: seq<File>)
    requires DistinctPaths(fs) && fs != []
    ensures DistinctPaths(fs[1..]) && fs[0].path !in Paths(fs[1..]) && Paths(fs) == {fs[0].path} + Paths(fs[1..])
  {
    assert fs == [fs[0]] + fs[1..];
    ConsPaths(fs[0], fs[1..]);
    forall g | g in fs[1..]
      ensures g.path != fs[0].path
    {
      var j :| 0 <= j < |fs[1..]| && fs[1..][j] == g;
      assert fs[j + 1] == g;
    }
  }

  lemma {:induction false} UpsertDistinct(fs: seq<File>, f: File)
    requires DistinctPaths(fs)
    ensures DistinctPaths(UpsertAt(fs, f)) && Paths(UpsertAt(fs, f)) == Paths(fs) + {f.path}
  {
    if fs == [] {
      assert Paths([f]) == {f.path};
    } else {
      TailDistinct(fs);
      if fs[0].path == f.path {
        ConsDistinct(f, fs[1..]);
        ConsPaths(f, fs[1..]);
      } else {
        UpsertDistinct(fs[1..], f);
        ConsDistinct(fs[0], UpsertAt(fs[1..], f));
        ConsPaths(fs[0], UpsertAt(fs[1..], f));
      }
    }
  }

  lemma {:induction false} RemoveDistinct(fs: seq<File>, path: string)
    requires DistinctPaths(fs)
    ensures DistinctPaths(RemoveAll(fs, path)) && forall f :: f in RemoveAll(fs, path) <==> f in fs && f.path != path
  {
    if fs != [] {
      assert fs == [fs[0]] + fs[1..];
      RemoveDistinct(fs[1..], path);
      var r := RemoveAll(fs[1..], path);
      forall j | 0 <= j < |r|
        ensures r[j].path != fs[0].path
      {
        assert r[j] in fs[1..];
      }
    }
  }

  // ---- ids -------------------------------------------------------------------------------

  /** The row that currently carries an id, if any; ids are unique within a catalog. */
  predicate DistinctIDs(m: RowMap) {
    forall p, q :: p in m && q in m && m[p].id == m[q].id ==> p == q
  }

  /** The first row of the slice with this id. */
  function FindIDIn(fs: seq<File>, id: string): (r: Option<File>)
    ensures r.Some? ==> r.value in fs && r.value.id == id
    ensures r.None? ==> forall f :: f in fs ==> f.id != id
  {
    if fs == [] then None else if fs[0].id == id then Some(fs[0]) else FindIDIn(fs[1..], id)
  }

  predicate HoldsID(m: RowMap, id: string) {
    exists p :: p in m && m[p].id == id
  }

  // ---- canonical order -------------------------------------------------------------------

  /** Sorted by path, no path twice: the canonical form of a catalog. */
  predicate Canonical(fs: seq<File>) {
    forall i, j :: 0 <= i < j < |fs| ==> Less(fs[i].path, fs[j].path)
  }

  lemma HeadOnce(a: seq<File>)
    requires Canonical(a) && a != []
    ensures a[0] !in a[1..]
  {
    if a[0] in a[1..] {
      var k :| 0 <= k < |a[1..]| && a[1..][k] == a[0];
      assert Less(a[0].path, a[k + 1].path);
      LessIrreflexive(a[0].path);
    }
  }

  /** The canonical form is unique: catalogs with the same rows serialize alike. */
  lemma {:induction false} CanonicalUnique(a: seq<File>, b: seq<File>)
    requires Canonical(a) && Canonical(b)
    requires forall f :: f in a <==> f in b
    ensures a == b
  {
    assert a != [] ==> a[0] in b;
    assert b != [] ==> b[0] in a;
    if a != [] {
      assert a[0] in b && b[0] in a;
      var i :| 0 <= i < |b| && b[i] == a[0];
      var j :| 0 <= j < |a| && a[j] == b[0];
      LessTrichotomy(a[0].path, b[0].path);
      assert a[0] == b[0];
      HeadOnce(a);
      HeadOnce(b);
      assert a == [a[0]] + a[1..] && b == [b[0]] + b[1..];
      assert forall f :: f in a[1..] <==> f in a && f != a[0];
      assert forall f :: f in b[1..] <==> f in b && f != b[0];
      CanonicalUnique(a[1..], b[1..]);
    }
  }

  class Catalog {
    var files: seq<File>

    ghost predicate Valid()
      reads this
    {
      DistinctPaths(files)
    }

    constructor (files: seq<File>)
      ensures this.files == files
    {
      this.files := files;
    }

    method Find(path: string) returns (r: Option<File>)
      ensures r == if path in Rows(files) then Some(Rows(files)[path]) else None
    {
      for i := 0 to |files|
        invariant Lookup(files, path) == Lookup(files[i..], path)
      {
        assert files[i..][1..] == files[i + 1..];
        if files[i].path == path {
          LookupIn(files, path);
          return Some(files[i]);
        }
      }
      LookupIn(files, path);
      return None;
    }

    method FindID(id: string) returns (r: Option<File>)
      requires Valid()
      ensures r == FindIDIn(files, id)
      ensures r.Some? ==> r.value.id == id && r.value.path in Rows(files) && Rows(files)[r.value.path] == r.value
      ensures r.None? <==> !HoldsID(Rows(files), id)
    {
      RowsAreFiles(files);
      for i := 0 to |files|
        invariant forall j :: 0 <= j < i ==> files[j].id != id
        invariant FindIDIn(files, id) == FindIDIn(files[i..], id)
      {
        assert files[i..][1..] == files[i + 1..];
        if files[i].id == id {
          assert files[i] in files;
          return Some(files[i]);
        }
      }
      assert forall p :: p in Rows(files) ==> Rows(files)[p] in files by {
        forall p | p in Rows(files)
          ensures Rows(files)[p] in files
        {
          LookupIn(files, p);
        }
      }
      return None;
    }

    /** Replace the row with the same path, or append. */
    method Upsert(f: File)
      requires Valid()
      modifies this
      ensures Valid() && files == UpsertAt(old(files), f) && Rows(files) == Rows(old(files))[f.path := f]
    {
      UpsertDistinct(files, f);
      UpsertRows(files, f);
      files := UpsertSlice(files, f);
    }

    /** Drop the rows with the given path. */
    method Remove(path: string) returns (removed: bool)
      requires Valid()
      modifies this
      ensures Valid() && files == RemoveAll(old(files), path) && Rows(files) == Rows(old(files)) - {path}
      ensures removed == (path in Rows(old(files)))
    {
      RemoveDistinct(files, path);
      RemoveRows(files, path);
      files, removed := RemoveSlice(files, path);
    }

    /** Sort by path. */
    method Canonicalize()
      requires Valid()
      modifies this
      ensures Valid() && Canonical(files) && Rows(files) == Rows(old(files))
      ensures forall f :: f in files <==> f in old(files)
    {
      ghost var before := files;
      var sorted: seq<File> := [];
      for k := 0 to |files|
        invariant files == before
        invariant Canonical(sorted)
        invariant forall f :: f in sorted <==> f in before[..k]
      {
        assert before[..k + 1] == before[..k] + [before[k]];
        assert forall f :: f in before[..k] ==> f.path != before[k].path;
        sorted := InsertByPath(sorted, files[k]);
      }
      assert before[..|before|] == before;
      files := sorted;
      CanonicalDistinct(sorted);
      SameRows(before, sorted);
    }
  }

  lemma UpsertStep(fs: seq<File>, f: File, i: nat)
    requires i < |fs|
    ensures fs[i].path == f.path ==> fs[..i] + UpsertAt(fs[i..], f) == fs[i := f]
    ensures fs[i].path != f.path ==> fs[..i] + UpsertAt(fs[i..], f) == fs[..i + 1] + UpsertAt(fs[i + 1..], f)
  {
    assert fs[i..][1..] == fs[i + 1..] && fs[..i + 1] == fs[..i] + [fs[i]];
  }

  method UpsertSlice(fs: seq<File>, f: File) returns (r: seq<File>)
    ensures r == UpsertAt(fs, f)
  {
    for i := 0 to |fs|
      invariant UpsertAt(fs, f) == fs[..i] + UpsertAt(fs[i..], f)
    {
      UpsertStep(fs, f, i);
      if fs[i].path == f.path {
        return fs[i := f];
      }
    }
    assert fs[|fs|..] == [];
    return fs + [f];
  }

  method RemoveSlice(fs: seq<File>, path: string) returns (out: seq<File>, removed: bool)
    ensures out == RemoveAll(fs, path) && removed == (path in Paths(fs))
  {
    out, removed := [], false;
    for i := 0 to |fs|
      invariant RemoveAll(fs, path) == out + RemoveAll(fs[i..], path)
      invariant removed == exists j :: 0 <= j < i && fs[j].path == path
    {
      assert fs[i..][1..] == fs[i + 1..];
      if fs[i].path == path {
        removed := true;
      } else {
        out := out + [fs[i]];
      }
    }
    assert fs[|fs|..] == [];
  }

  lemma InsertedMembers(fs: seq<File>, f: File, i: nat)
    requires i <= |fs|
    ensures forall g :: g in fs[..i] + [f] + fs[i..] <==> g == f || g in fs
  {
    assert fs == fs[..i] + fs[i..];
  }

  lemma InsertedCanonical(fs: seq<File>, f: File, i: nat, r: seq<File>)
    requires i <= |fs| && Canonical(fs) && r == fs[..i] + [f] + fs[i..]
    requires forall k :: 0 <= k < i ==> Less(fs[k].path, f.path)
    requires i < |fs| ==> Less(f.path, fs[i].path)
    ensures Canonical(r)
  {
    forall p, q | 0 <= p < q < |r|
      ensures Less(r[p].path, r[q].path)
    {
      assert r[p] == if p < i then fs[p] else if p == i then f else fs[p - 1];
      assert r[q] == if q < i then fs[q] else if q == i then f else fs[q - 1];
      if p == i && q > i + 1 {
        LessTransitive(f.path, fs[i].path, fs[q - 1].path);
      }
    }
  }

  method InsertByPath(fs: seq<File>, f: File) returns (r: seq<File>)
    requires Canonical(fs) && forall g :: g in fs ==> g.path != f.path
    ensures Canonical(r) && forall g :: g in r <==> g == f || g in fs
  {
    var i := 0;
    while i < |fs| && Less(fs[i].path, f.path)
      invariant 0 <= i <= |fs|
      invariant forall k :: 0 <= k < i ==> Less(fs[k].path, f.path)
    {
      i := i + 1;
    }
    r := fs[..i] + [f] + fs[i..];
    if i < |fs| {
      assert fs[i] in fs;
      LessTrichotomy(fs[i].path, f.path);
    }
    InsertedMembers(fs, f, i);
    InsertedCanonical(fs, f, i, r);
  }

  lemma CanonicalDistinct(fs: seq<File>)
    requires Canonical(fs)
    ensures DistinctPaths(fs)
  {
    forall i, j | 0 <= i < j < |fs|
      ensures fs[i].path != fs[j].path
    {
      LessIrreflexive(fs[i].path);
    }
  }

  lemma SameRows(a: seq<File>, b: seq<File>)
    requires DistinctPaths(a) && DistinctPaths(b) && forall f :: f in a <==> f in b
    ensures Rows(a) == Rows(b)
  {
    RowsAreFiles(a);
    RowsAreFiles(b);
    forall p
      ensures p in Rows(a) <==> p in Rows(b)
      ensures p in Rows(a) ==> Rows(a)[p] == Rows(b)[p]
    {
      LookupIn(a, p);
      LookupIn(b, p);
    }
  }
}
