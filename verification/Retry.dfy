/** Finishing one pending op from its journal entry: what the strict replay and the full projection
    agree on, and what running it twice does. */
module Retries {
  import opened Wrappers
  import opened Text
  import opened Wal
  import opened Catalogs
  import opened Identity
  import opened Commands
  import opened Moves
  import opened Scan
  import opened Projection

  // ---- rows up to the times written ------------------------------------------------------

  predicate SameButTimes(a: File, b: File) {
    a.(createdAt := b.createdAt, updatedAt := b.updatedAt, lastScanned := b.lastScanned) == b
  }

  predicate Alike(xs: seq<File>, ys: seq<File>) {
    |xs| == |ys| && forall i :: 0 <= i < |xs| ==> SameButTimes(xs[i], ys[i])
  }

  /** Alike catalogs have the same paths and the same ids. */
  lemma AlikeMembers(xs: seq<File>, ys: seq<File>, f: File)
    requires Alike(xs, ys) && f in xs
    ensures exists g :: g in ys && SameButTimes(f, g)
  {
    var i :| 0 <= i < |xs| && xs[i] == f;
    assert ys[i] in ys;
  }

  lemma AlikeBack(xs: seq<File>, ys: seq<File>)
    requires Alike(xs, ys)
    ensures Alike(ys, xs)
  {
  }

  lemma {:induction false} UpsertAlike(fs: seq<File>, f: File, g: File)
    requires SameButTimes(f, g)
    ensures Alike(UpsertAt(fs, f), UpsertAt(fs, g))
  {
    if fs != [] && fs[0].path != f.path {
      UpsertAlike(fs[1..], f, g);
    }
  }

  /** An upsert leaves a catalog alike exactly when the row was already there, up to its times. */
  lemma {:induction false} UpsertNothingNew(fs: seq<File>, f: File)
    ensures Alike(fs, UpsertAt(fs, f)) <==> Lookup(fs, f.path).Some? && SameButTimes(Lookup(fs, f.path).value, f)
  {
    if fs != [] {
      var out := UpsertAt(fs, f);
      if fs[0].path == f.path {
        assert Alike(fs, out) <==> SameButTimes(fs[0], out[0]);
      } else {
        UpsertNothingNew(fs[1..], f);
        assert out[0] == fs[0] && out[1..] == UpsertAt(fs[1..], f);
        AlikeCons(fs, out);
      }
    }
  }

  lemma AlikeCons(xs: seq<File>, ys: seq<File>)
    requires xs != [] && ys != [] && xs[0] == ys[0]
    ensures Alike(xs, ys) <==> Alike(xs[1..], ys[1..])
  {
    if Alike(xs[1..], ys[1..]) {
      forall i | 0 <= i < |xs|
        ensures SameButTimes(xs[i], ys[i])
      {
        assert i > 0 ==> xs[1..][i - 1] == xs[i] && ys[1..][i - 1] == ys[i];
      }
    }
  }

  lemma {:induction false} RemoveShrinks(fs: seq<File>, path: string)
    ensures |RemoveAll(fs, path)| <= |fs|
    ensures (exists f :: f in fs && f.path == path) ==> |RemoveAll(fs, path)| < |fs|
  {
    if fs != [] {
      RemoveShrinks(fs[1..], path);
      assert fs == [fs[0]] + fs[1..];
    }
  }

  predicate NamesNone(fs: seq<File>, ids: seq<string>) {
    forall f :: f in fs ==> f.id !in ids
  }

  /** Removing ids removes nothing exactly when no row has one. */
  lemma {:induction false} RemoveIDsShrinks(fs: seq<File>, ids: seq<string>)
    ensures |RemoveIDs(fs, ids)| <= |fs|
    ensures NamesNone(fs, ids) ==> RemoveIDs(fs, ids) == fs
    ensures !NamesNone(fs, ids) ==> |RemoveIDs(fs, ids)| < |fs|
    decreases |ids|
  {
    if ids != [] {
      assert ids == [ids[0]] + ids[1..];
      var f := FindIDIn(fs, ids[0]);
      if f.Some? {
        RemoveShrinks(fs, f.value.path);
        RemoveIDsShrinks(RemoveAll(fs, f.value.path), ids[1..]);
      } else {
        RemoveIDsShrinks(fs, ids[1..]);
      }
    }
  }

  /** Which rows removing ids leaves. */
  lemma {:induction false} RemoveIDsLeaves(fs: seq<File>, ids: seq<string>, g: File)
    requires DistinctPaths(fs) && DistinctIDs(Rows(fs))
    ensures g in RemoveIDs(fs, ids) <==> g in fs && g.id !in ids
    decreases |ids|
  {
    if ids != [] {
      assert ids == [ids[0]] + ids[1..];
      var f := FindIDIn(fs, ids[0]);
      if f.Some? {
        OneRowPerID(fs, f.value, g);
        RemoveDistinct(fs, f.value.path);
        RemoveRows(fs, f.value.path);
        RemoveIDsLeaves(RemoveAll(fs, f.value.path), ids[1..], g);
      } else {
        RemoveIDsLeaves(fs, ids[1..], g);
      }
    }
  }

  lemma OneRowPerID(fs: seq<File>, f: File, g: File)
    requires DistinctPaths(fs) && DistinctIDs(Rows(fs)) && f in fs
    ensures g in fs ==> (g.id == f.id <==> g.path == f.path)
  {
    RowsAreFiles(fs);
    if g in fs {
      assert Rows(fs)[f.path] == f && Rows(fs)[g.path] == g;
    }
  }

  // ---- when a retry of a move does what the projection does ------------------------------

  /** The strict replay finds nothing to rename. */
  predicate Quiet(fs: seq<File>, e: Entry) {
    var f := FindMoved(fs, e.blobRefs, ArgOf(e, From));
    f.None? || f.value.path == ArgOf(e, To)
  }

  function ArrivedRow(e: Entry): File {
    File(ArgOf(e, Id), GenesisFromArgs(e), ArgOf(e, ContentSha256), ArgOf(e, DestPath), SyncModeOrManual(ArgOf(e, SyncModeArg)),
         ParseSize(ArgOf(e, Size)), e.createdAt, e.createdAt, e.createdAt)
  }

  /** A rename with a target is replayed as it should be. A departure is, if there is nothing to let go
      of; an arrival, if the row has already arrived; and neither, if some row would be renamed. */
  predicate ReplaysRight(fs: seq<File>, e: Entry) {
    if ArgOf(e, MovedTo) != "" then Quiet(fs, e) && NamesNone(fs, e.blobRefs)
    else if ArgOf(e, DestPath) != "" && ArgOf(e, Id) != "" then
      Quiet(fs, e) && Lookup(fs, ArgOf(e, DestPath)).Some? && SameButTimes(Lookup(fs, ArgOf(e, DestPath)).value, ArrivedRow(e))
    else ArgOf(e, To) != "" || Quiet(fs, e)
  }

  lemma FoundRow(fs: seq<File>, e: Entry)
    ensures var f := FindMoved(fs, e.blobRefs, ArgOf(e, From)); f.Some? ==> f.value in fs
  {
    LookupIn(fs, ArgOf(e, From));
  }

  /** A catalog whose row f was renamed no longer has f's path, and has f's id at the new one. */
  lemma Renamed(fs: seq<File>, f: File, to: string, now: int)
    requires f in fs && f.path != to
    ensures var out := UpsertAt(RemoveAll(fs, f.path), f.(path := to, updatedAt := now, lastScanned := now));
      && (forall g :: g in out ==> g.path != f.path)
      && (exists g :: g in out && g.id == f.id && g.path == to)
  {
    var f' := f.(path := to, updatedAt := now, lastScanned := now);
    var mid := RemoveAll(fs, f.path);
    var out := UpsertAt(mid, f');
    UpsertLooksUp(mid, f', f.path);
    RemoveLooksUp(fs, f.path, f.path);
    LookupIn(out, f.path);
    UpsertLooksUp(mid, f', to);
    LookupIn(out, to);
    forall g | g in out
      ensures g.path != f.path
    {
      assert g.path in Paths(out);
    }
  }

  lemma NotAlikeByPath(xs: seq<File>, ys: seq<File>, f: File)
    requires f in ys && forall g :: g in xs ==> g.path != f.path
    ensures !Alike(xs, ys)
  {
    if Alike(xs, ys) {
      AlikeBack(xs, ys);
      AlikeMembers(ys, xs, f);
    }
  }

  lemma NotAlikeByID(xs: seq<File>, ys: seq<File>, f: File)
    requires f in xs && forall g :: g in ys ==> g.id != f.id
    ensures !Alike(xs, ys)
  {
    if Alike(xs, ys) {
      AlikeMembers(xs, ys, f);
    }
  }

  lemma DepartureAgreesIff(h: string -> string, fs: seq<File>, e: Entry, node: string, now: int)
    requires e.opType == OpType.Move && DistinctPaths(fs) && DistinctIDs(Rows(fs)) && ArgOf(e, MovedTo) != ""
    ensures Alike(ApplyOp(h, fs, e, node, now).value, ProjectOp(h, fs, e, node)) <==> ReplaysRight(fs, e)
  {
    RemoveIDsShrinks(fs, e.blobRefs);
    if !Quiet(fs, e) {
      var f := FindMoved(fs, e.blobRefs, ArgOf(e, From)).value;
      FoundRow(fs, e);
      var out := ApplyOp(h, fs, e, node, now).value;
      Renamed(fs, f, ArgOf(e, To), now);
      var left := RemoveIDs(fs, e.blobRefs);
      if f.id in e.blobRefs {
        var g :| g in out && g.id == f.id;
        forall x | x in left
          ensures x.id != f.id
        {
          RemoveIDsLeaves(fs, e.blobRefs, x);
        }
        NotAlikeByID(out, left, g);
      } else {
        RemoveIDsLeaves(fs, e.blobRefs, f);
        NotAlikeByPath(out, left, f);
      }
    }
  }

  lemma ArrivalAgreesIff(h: string -> string, fs: seq<File>, e: Entry, node: string, now: int)
    requires e.opType == OpType.Move && ArgOf(e, MovedTo) == "" && ArgOf(e, DestPath) != "" && ArgOf(e, Id) != ""
    ensures Alike(ApplyOp(h, fs, e, node, now).value, ProjectOp(h, fs, e, node)) <==> ReplaysRight(fs, e)
  {
    var row := ArrivedRow(e);
    assert ProjectOp(h, fs, e, node) == UpsertAt(fs, row);
    if Quiet(fs, e) {
      UpsertNothingNew(fs, row);
    } else {
      var f := FindMoved(fs, e.blobRefs, ArgOf(e, From)).value;
      FoundRow(fs, e);
      Renamed(fs, f, ArgOf(e, To), now);
      UpsertLooksUp(fs, row, f.path);
      LookupIn(fs, f.path);
      LookupIn(UpsertAt(fs, row), f.path);
      assert f.path in Paths(fs);
      var g := Lookup(UpsertAt(fs, row), f.path).value;
      NotAlikeByPath(ApplyOp(h, fs, e, node, now).value, UpsertAt(fs, row), g);
    }
  }

  lemma RenameAgreesIff(h: string -> string, fs: seq<File>, e: Entry, node: string, now: int)
    requires e.opType == OpType.Move && ArgOf(e, MovedTo) == "" && (ArgOf(e, DestPath) == "" || ArgOf(e, Id) == "")
    ensures Alike(ApplyOp(h, fs, e, node, now).value, ProjectOp(h, fs, e, node)) <==> ReplaysRight(fs, e)
  {
    if !Quiet(fs, e) {
      var f := FindMoved(fs, e.blobRefs, ArgOf(e, From)).value;
      FoundRow(fs, e);
      var to := ArgOf(e, To);
      if to == "" {
        Renamed(fs, f, to, now);
        NotAlikeByPath(ApplyOp(h, fs, e, node, now).value, fs, f);
      } else {
        UpsertAlike(RemoveAll(fs, f.path), f.(path := to, updatedAt := now, lastScanned := now), f.(path := to, updatedAt := e.createdAt, lastScanned := e.createdAt));
      }
    }
  }

  /** The exact condition: a retried move entry does to the catalog what the projection of that entry does,
      times apart, if and only if it is a rename with a target or there was nothing left to do. */
  lemma MoveReplaysRightIff(h: string -> string, fs: seq<File>, e: Entry, node: string, now: int)
    requires e.opType == OpType.Move && DistinctPaths(fs) && DistinctIDs(Rows(fs))
    ensures ApplyOp(h, fs, e, node, now).Some?
    ensures Alike(ApplyOp(h, fs, e, node, now).value, ProjectOp(h, fs, e, node)) <==> ReplaysRight(fs, e)
  {
    if ArgOf(e, MovedTo) != "" {
      DepartureAgreesIff(h, fs, e, node, now);
    } else if ArgOf(e, DestPath) != "" && ArgOf(e, Id) != "" {
      ArrivalAgreesIff(h, fs, e, node, now);
    } else {
      RenameAgreesIff(h, fs, e, node, now);
    }
  }

  /** The renames that commands and scans journal are always replayed right. */
  lemma JournaledRenamesReplayRight(h: string -> string, fs: seq<File>, member: string, f: File, to: string, who: Who, node: string, now: int)
    requires DistinctPaths(fs) && DistinctIDs(Rows(fs)) && to != ""
    ensures Alike(ApplyOp(h, fs, RenameEntry(member, f, to, who), node, now).value, ProjectOp(h, fs, RenameEntry(member, f, to, who), node))
    ensures var e := ScanEntry(h, node, Moved(f, to, f.sha, f.size), who); Alike(ApplyOp(h, fs, e, node, now).value, ProjectOp(h, fs, e, node))
  {
    MoveReplaysRightIff(h, fs, RenameEntry(member, f, to, who), node, now);
    MoveReplaysRightIff(h, fs, ScanEntry(h, node, Moved(f, to, f.sha, f.size), who), node, now);
  }

  /** The strict replay is meant for catch-up ops only. Given the source end of a cross-member move,
      whose to names a member, it does not let go of the file: it renames it to the member's name. */
  lemma CrossMoveMisreplayed(h: string -> string, fs: seq<File>, m: Move, node: string, now: int)
    requires FindIDIn(fs, m.file.id).Some? && FindIDIn(fs, m.file.id).value.path != m.dst
    ensures var gs := ApplyOp(h, fs, SrcIntent(m), node, now);
            gs.Some? && Lookup(gs.value, m.dst).Some? && Lookup(gs.value, m.dst).value.id == m.file.id
    ensures DistinctPaths(fs) && DistinctIDs(Rows(fs)) && m.dst != "" ==> forall f :: f in ProjectOp(h, fs, SrcIntent(m), node) ==> f.id != m.file.id
  {
    var f := FindIDIn(fs, m.file.id).value;
    UpsertLooksUp(RemoveAll(fs, f.path), f.(path := m.dst, updatedAt := now, lastScanned := now), m.dst);
    if DistinctPaths(fs) && DistinctIDs(Rows(fs)) && m.dst != "" {
      RowsAreFiles(fs);
      RemoveDistinct(fs, f.path);
      var gs := RemoveIDs(fs, [m.file.id]);
      assert [m.file.id][1..] == [];
      assert RemoveIDs(RemoveAll(fs, f.path), [m.file.id][1..]) == RemoveAll(fs, f.path);
      assert gs == RemoveAll(fs, f.path);
      forall g | g in gs
        ensures g.id != m.file.id
      {
        assert g in fs && Rows(fs)[g.path] == g && Rows(fs)[f.path] == f;
      }
    }
  }

  /** What a reader of the catalog insists on. */
  predicate PathsNamed(fs: seq<File>) {
    forall f :: f in fs ==> f.path != ""
  }

  /** The destination end names no target path, so the strict replay takes it to be empty. Once the row is
      live it renames it there, and no reader will accept the catalog; before that it does nothing, while
      the projection brings the row in, and the retry marks the op done all the same. */
  lemma ArrivalMisreplayed(h: string -> string, fs: seq<File>, m: Move, node: string, now: int)
    requires m.destPath != "" && m.file.id != ""
    ensures FindIDIn(fs, m.file.id).Some? && FindIDIn(fs, m.file.id).value.path != "" ==>
      (var gs := ApplyOp(h, fs, DstIntent(m), node, now).value;
       Lookup(gs, "").Some? && Lookup(gs, "").value.id == m.file.id && !PathsNamed(gs))
    ensures FindIDIn(fs, m.file.id).None? && Lookup(fs, m.src).None? ==>
      (ApplyOp(h, fs, DstIntent(m), node, now) == Some(fs)
       && Lookup(ProjectOp(h, fs, DstIntent(m), node), m.destPath).Some?
       && Lookup(ProjectOp(h, fs, DstIntent(m), node), m.destPath).value.id == m.file.id)
  {
    var e := DstIntent(m);
    ArrivalEntry(m);
    var r := FindIDIn(fs, m.file.id);
    if r.Some? && r.value.path != "" {
      var f := r.value.(path := "", updatedAt := now, lastScanned := now);
      UpsertLooksUp(RemoveAll(fs, r.value.path), f, "");
      LookupIn(UpsertAt(RemoveAll(fs, r.value.path), f), "");
    }
    UpsertLooksUp(fs, ArrivedRow(e), m.destPath);
  }

  lemma ArrivalEntry(m: Move)
    ensures var e := DstIntent(m);
            ArgOf(e, To) == "" && ArgOf(e, MovedTo) == "" && ArgOf(e, From) == m.src && ArgOf(e, DestPath) == m.destPath && ArgOf(e, Id) == m.file.id
  {
  }

  // ---- retrying twice --------------------------------------------------------------------

  lemma {:induction false} UpsertAgain(fs: seq<File>, f: File)
    ensures UpsertAt(UpsertAt(fs, f), f) == UpsertAt(fs, f)
  {
    if fs != [] && fs[0].path != f.path {
      UpsertAgain(fs[1..], f);
    }
  }

  lemma {:induction false} RemoveAgain(fs: seq<File>, path: string)
    ensures RemoveAll(RemoveAll(fs, path), path) == RemoveAll(fs, path)
  {
    if fs != [] {
      RemoveAgain(fs[1..], path);
    }
  }

  lemma RetriedRename(h: string -> string, fs: seq<File>, e: Entry, node: string, now: int, later: int)
    requires e.opType == OpType.Move && DistinctPaths(fs) && DistinctIDs(Rows(fs))
    ensures var gs := ApplyOp(h, fs, e, node, now).value; ApplyOp(h, gs, e, node, later) == Some(gs)
  {
    if !Quiet(fs, e) {
      var to, from := ArgOf(e, To), ArgOf(e, From);
      var f := FindMoved(fs, e.blobRefs, from).value;
      var f' := f.(path := to, updatedAt := now, lastScanned := now);
      var mid := RemoveAll(fs, f.path);
      var gs := UpsertAt(mid, f');
      FoundRow(fs, e);
      Renamed(fs, f, to, now);
      RemoveDistinct(fs, f.path);
      forall g | g in gs
        ensures g == f' || (g in fs && g.id != f.id)
      {
        UpsertMembers(mid, f', g);
        OneRowPerID(fs, f, g);
      }
      LookupIn(fs, from);
      LookupIn(gs, from);
    }
  }

  lemma {:induction false} UpsertMembers(fs: seq<File>, f: File, g: File)
    ensures g in UpsertAt(fs, f) ==> g == f || g in fs
  {
    if fs != [] && fs[0].path != f.path {
      UpsertMembers(fs[1..], f, g);
    }
  }

  /** Retrying a catch-up op that had already taken effect, at whatever later time, changes nothing more,
      times apart. */
  lemma RetryIsIdempotent(h: string -> string, fs: seq<File>, e: Entry, node: string, now: int, later: int)
    requires ApplyOp(h, fs, e, node, now).Some? && DistinctPaths(fs) && DistinctIDs(Rows(fs))
    ensures var gs := ApplyOp(h, fs, e, node, now).value;
            ApplyOp(h, gs, e, node, later).Some? && Alike(gs, ApplyOp(h, gs, e, node, later).value)
  {
    match e.opType
    case Ingest => UpsertAgain(fs, RowFromEntry(h, e, node).value);
    case Scan =>
      var path := ArgOf(e, Arg.Path);
      var f := Lookup(fs, path).value;
      LookupIn(fs, path);
      var g := f.(sha := if ArgOf(e, NewSha256) != "" then ArgOf(e, NewSha256) else f.sha, updatedAt := now, lastScanned := now);
      UpsertLooksUp(fs, g, path);
      UpsertNothingNew(UpsertAt(fs, g), g.(updatedAt := later, lastScanned := later));
    case Delete => RemoveAgain(fs, ArgOf(e, Arg.Path));
    case Move => RetriedRename(h, fs, e, node, now, later);
  }
}
