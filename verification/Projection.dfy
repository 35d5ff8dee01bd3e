/** Rebuilding a catalog from the log alone: replay every done entry, and the result is the live
    catalog. The functions here follow the replay branch by branch; the live side is what each writer
    does to its own catalog. */
module Projection {
  import opened Wrappers
  import opened Text
  import opened Wal
  import opened Catalogs
  import opened Identity
  import opened Vaults
  import opened Commands
  import opened Moves
  import opened Scan
  import opened GcFed

  // ---- the replay ------------------------------------------------------------------------

  function GenesisFromArgs(e: Entry): Genesis {
    Genesis(ArgOf(e, ContentSha256), ArgOf(e, OriginalPath), ArgOf(e, IngestOpId), ArgOf(e, OriginNode))
  }

  /** Remove the row of each id in turn. */
  function RemoveIDs(fs: seq<File>, ids: seq<string>): seq<File>
    decreases |ids|
  {
    if ids == [] then fs
    else
      var f := FindIDIn(fs, ids[0]);
      RemoveIDs(if f.Some? then RemoveAll(fs, f.value.path) else fs, ids[1..])
  }

  /** The row a rename refers to: by its first blob ref, else by its source path. */
  function FindMoved(fs: seq<File>, refs: seq<string>, from: string): Option<File> {
    if refs != [] && FindIDIn(fs, refs[0]).Some? then FindIDIn(fs, refs[0]) else Lookup(fs, from)
  }

  function ProjectRename(fs: seq<File>, e: Entry): seq<File> {
    var to := ArgOf(e, To);
    var f := FindMoved(fs, e.blobRefs, ArgOf(e, From));
    if to == "" || f.None? || f.value.path == to then fs
    else UpsertAt(RemoveAll(fs, f.value.path), f.value.(path := to, updatedAt := e.createdAt, lastScanned := e.createdAt))
  }

  /** A move entry: a departure, an arrival, or a rename on the spot. */
  function ProjectMove(fs: seq<File>, e: Entry): seq<File> {
    if ArgOf(e, MovedTo) != "" then RemoveIDs(fs, e.blobRefs)
    else if ArgOf(e, DestPath) != "" && ArgOf(e, Id) != "" then
      UpsertAt(fs, File(ArgOf(e, Id), GenesisFromArgs(e), ArgOf(e, ContentSha256), ArgOf(e, DestPath), SyncModeOrManual(ArgOf(e, SyncModeArg)),
                        ParseSize(ArgOf(e, Size)), e.createdAt, e.createdAt, e.createdAt))
    else ProjectRename(fs, e)
  }

  function ProjectRestore(h: string -> string, fs: seq<File>, e: Entry): seq<File> {
    var path, id, g := ArgOf(e, Arg.Path), ArgOf(e, RestoredId), GenesisFromArgs(e);
    var f := Lookup(fs, path);
    if path == "" || id == "" || f.None? || !Verify(h, g, id) then fs
    else UpsertAt(fs, f.value.(id := id, genesis := g, updatedAt := e.createdAt))
  }

  function ProjectScan(fs: seq<File>, e: Entry): seq<File> {
    var f := Lookup(fs, ArgOf(e, Arg.Path));
    if f.None? then fs
    else
      var sha := if ArgOf(e, NewSha256) != "" then ArgOf(e, NewSha256) else f.value.sha;
      UpsertAt(fs, f.value.(sha := sha, updatedAt := e.createdAt, lastScanned := e.createdAt))
  }

  function ProjectSyncMode(fs: seq<File>, e: Entry): seq<File> {
    var f := Lookup(fs, ArgOf(e, Arg.Path));
    if f.None? then fs
    else
      var mode := if ArgOf(e, ToMode) != "" then ArgOf(e, ToMode) else f.value.syncMode;
      var sha := if ArgOf(e, NewSha256) != "" then ArgOf(e, NewSha256) else f.value.sha;
      var scanned := ReadInteger(ArgOf(e, LastScannedAt));
      UpsertAt(fs, f.value.(syncMode := mode, sha := sha, updatedAt := e.createdAt,
                            lastScanned := if scanned.Some? then scanned.value else f.value.lastScanned))
  }

  function ProjectOp(h: string -> string, fs: seq<File>, e: Entry, node: string): seq<File> {
    match e.opType
    case Ingest => (match RowFromEntry(h, e, node) case None => fs case Some(row) => UpsertAt(fs, row))
    case Scan => ProjectScan(fs, e)
    case Move => ProjectMove(fs, e)
    case Delete => RemoveAll(fs, ArgOf(e, Arg.Path))
    case Gc => RemoveIDs(fs, e.blobRefs)
    case Restore => ProjectRestore(h, fs, e)
    case SyncMode => ProjectSyncMode(fs, e)
    case Roster => fs
    case Passwd => fs
    case UnknownOp(_) => fs
  }

  /** Only completed effects are real. */
  function Project(h: string -> string, recs: seq<Rec>, node: string): seq<File> {
    if recs == [] then []
    else
      var last := recs[|recs| - 1];
      var fs := Project(h, recs[..|recs| - 1], node);
      if last.state == Done then ProjectOp(h, fs, last.entry, node) else fs
  }

  // ---- the replay as it runs -------------------------------------------------------------

  method RemoveEach(cat: Catalog, ids: seq<string>)
    requires cat.Valid()
    modifies cat
    ensures cat.Valid() && cat.files == RemoveIDs(old(cat.files), ids)
  {
    ghost var fs := cat.files;
    for i := 0 to |ids|
      invariant cat.Valid() && RemoveIDs(fs, ids) == RemoveIDs(cat.files, ids[i..])
    {
      assert ids[i..][1..] == ids[i + 1..];
      var f := cat.FindID(ids[i]);
      if f.Some? {
        var _ := cat.Remove(f.value.path);
      }
    }
    assert ids[|ids|..] == [];
  }

  lemma FindIsLookup(fs: seq<File>, path: string)
    ensures Lookup(fs, path) == if path in Rows(fs) then Some(Rows(fs)[path]) else None
  {
    LookupIn(fs, path);
  }

  method RenameInto(cat: Catalog, e: Entry)
    requires cat.Valid()
    modifies cat
    ensures cat.Valid() && cat.files == ProjectRename(old(cat.files), e)
  {
    var to, from := ArgOf(e, To), ArgOf(e, From);
    if to == "" {
      return;
    }
    var f := None;
    if |e.blobRefs| > 0 {
      f := cat.FindID(e.blobRefs[0]);
    }
    if f.None? {
      FindIsLookup(cat.files, from);
      f := cat.Find(from);
    }
    if f.Some? && f.value.path != to {
      var _ := cat.Remove(f.value.path);
      cat.Upsert(f.value.(path := to, updatedAt := e.createdAt, lastScanned := e.createdAt));
    }
  }

  method MoveInto(cat: Catalog, e: Entry)
    requires cat.Valid()
    modifies cat
    ensures cat.Valid() && cat.files == ProjectMove(old(cat.files), e)
  {
    if ArgOf(e, MovedTo) != "" {
      RemoveEach(cat, e.blobRefs);
      return;
    }
    var dest, id := ArgOf(e, DestPath), ArgOf(e, Id);
    if dest != "" && id != "" {
      cat.Upsert(File(id, GenesisFromArgs(e), ArgOf(e, ContentSha256), dest, SyncModeOrManual(ArgOf(e, SyncModeArg)),
                      ParseSize(ArgOf(e, Size)), e.createdAt, e.createdAt, e.createdAt));
      return;
    }
    RenameInto(cat, e);
  }

  method UpdateInto(cat: Catalog, h: string -> string, e: Entry)
    requires cat.Valid() && e.opType in {OpType.Scan, OpType.SyncMode, OpType.Restore}
    modifies cat
    ensures cat.Valid() && cat.files == ProjectOp(h, old(cat.files), e, "")
  {
    var path := ArgOf(e, Arg.Path);
    FindIsLookup(cat.files, path);
    var found := cat.Find(path);
    if found.None? {
      return;
    }
    var f := found.value;
    if e.opType == OpType.Restore {
      var id, g := ArgOf(e, RestoredId), GenesisFromArgs(e);
      if path != "" && id != "" && Verify(h, g, id) {
        cat.Upsert(f.(id := id, genesis := g, updatedAt := e.createdAt));
      }
      return;
    }
    var sha := if ArgOf(e, NewSha256) != "" then ArgOf(e, NewSha256) else f.sha;
    if e.opType == OpType.Scan {
      cat.Upsert(f.(sha := sha, updatedAt := e.createdAt, lastScanned := e.createdAt));
    } else {
      var mode := if ArgOf(e, ToMode) != "" then ArgOf(e, ToMode) else f.syncMode;
      var scanned := ReadInteger(ArgOf(e, LastScannedAt));
      if scanned.Some? {
        f := f.(lastScanned := scanned.value);
      }
      cat.Upsert(f.(syncMode := mode, sha := sha, updatedAt := e.createdAt));
    }
  }

  method ProjectInto(cat: Catalog, h: string -> string, e: Entry, node: string)
    requires cat.Valid()
    modifies cat
    ensures cat.Valid() && cat.files == ProjectOp(h, old(cat.files), e, node)
  {
    match e.opType {
      case Ingest =>
        var row := RowFromEntry(h, e, node);
        if row.Some? {
          cat.Upsert(row.value);
        }
      case Move => MoveInto(cat, e);
      case Delete => var _ := cat.Remove(ArgOf(e, Arg.Path));
      case Gc => RemoveEach(cat, e.blobRefs);
      case Scan => UpdateInto(cat, h, e);
      case Restore => UpdateInto(cat, h, e);
      case SyncMode => UpdateInto(cat, h, e);
      case Roster =>
      case Passwd =>
      case UnknownOp(_) =>
    }
  }

  method ProjectCatalog(h: string -> string, recs: seq<Rec>, node: string) returns (cat: Catalog)
    ensures cat.Valid() && Canonical(cat.files) && Rows(cat.files) == Rows(Project(h, recs, node))
  {
    cat := new Catalog([]);
    for i := 0 to |recs|
      invariant cat.Valid() && fresh(cat) && cat.files == Project(h, recs[..i], node)
    {
      assert recs[..i + 1][..i] == recs[..i];
      if recs[i].state == Done {
        ProjectInto(cat, h, recs[i].entry, node);
      }
    }
    assert recs[..|recs|] == recs;
    cat.Canonicalize();
  }

  // ---- finishing one pending op ----------------------------------------------------------

  /** The strict replay that a retry uses: only catch-up ops, and a missing row is an error. */
  function ApplyOp(h: string -> string, fs: seq<File>, e: Entry, node: string, now: int): Option<seq<File>> {
    match e.opType
    case Ingest => (match RowFromEntry(h, e, node) case None => None case Some(row) => Some(UpsertAt(fs, row)))
    case Scan =>
      var f := Lookup(fs, ArgOf(e, Arg.Path));
      if f.None? then None
      else
        var sha := if ArgOf(e, NewSha256) != "" then ArgOf(e, NewSha256) else f.value.sha;
        Some(UpsertAt(fs, f.value.(sha := sha, updatedAt := now, lastScanned := now)))
    case Move =>
      var f := FindMoved(fs, e.blobRefs, ArgOf(e, From));
      if f.None? || f.value.path == ArgOf(e, To) then Some(fs)
      else Some(UpsertAt(RemoveAll(fs, f.value.path), f.value.(path := ArgOf(e, To), updatedAt := now, lastScanned := now)))
    case Delete => Some(RemoveAll(fs, ArgOf(e, Arg.Path)))
    case _ => None
  }

  method ReplayOp(cat: Catalog, c: Cluster, n: string, h: string -> string, e: Entry, node: string, now: int) returns (ok: bool)
    requires cat.Valid() && n in c.nodes
    modifies cat, c
    ensures cat.Valid() && ok == ApplyOp(h, old(cat.files), e, node, now).Some?
    ensures ok ==> cat.files == ApplyOp(h, old(cat.files), e, node, now).value
    ensures ok ==> c.nodes == old(c.nodes)[n := Finish(Persist(old(c.nodes)[n], Rows(cat.files)), e.opID, true)]
    ensures !ok ==> cat.files == old(cat.files) && c.nodes == old(c.nodes)
  {
    ok := ApplyInto(cat, h, e, node, now);
    if ok {
      c.PersistCatalog(n, Rows(cat.files));
      c.Mark(n, e.opID, true);
    }
  }

  method ApplyInto(cat: Catalog, h: string -> string, e: Entry, node: string, now: int) returns (ok: bool)
    requires cat.Valid()
    modifies cat
    ensures cat.Valid() && ok == ApplyOp(h, old(cat.files), e, node, now).Some?
    ensures cat.files == if ok then ApplyOp(h, old(cat.files), e, node, now).value else old(cat.files)
  {
    match e.opType {
      case Ingest =>
        var row := RowFromEntry(h, e, node);
        if row.Some? {
          cat.Upsert(row.value);
        }
        return row.Some?;
      case Scan =>
        FindIsLookup(cat.files, ArgOf(e, Arg.Path));
        var f := cat.Find(ArgOf(e, Arg.Path));
        if f.None? {
          return false;
        }
        var sha := if ArgOf(e, NewSha256) != "" then ArgOf(e, NewSha256) else f.value.sha;
        cat.Upsert(f.value.(sha := sha, updatedAt := now, lastScanned := now));
      case Move => RenameOnRetry(cat, e, now);
      case Delete => var _ := cat.Remove(ArgOf(e, Arg.Path));
      case _ => return false;
    }
    return true;
  }

  method RenameOnRetry(cat: Catalog, e: Entry, now: int)
    requires cat.Valid()
    modifies cat
    ensures cat.Valid()
    ensures var f := FindMoved(old(cat.files), e.blobRefs, ArgOf(e, From));
            cat.files == if f.None? || f.value.path == ArgOf(e, To) then old(cat.files)
                         else UpsertAt(RemoveAll(old(cat.files), f.value.path), f.value.(path := ArgOf(e, To), updatedAt := now, lastScanned := now))
  {
    var f := None;
    if |e.blobRefs| > 0 {
      f := cat.FindID(e.blobRefs[0]);
    }
    if f.None? {
      FindIsLookup(cat.files, ArgOf(e, From));
      f := cat.Find(ArgOf(e, From));
    }
    if f.Some? && f.value.path != ArgOf(e, To) {
      var _ := cat.Remove(f.value.path);
      cat.Upsert(f.value.(path := ArgOf(e, To), updatedAt := now, lastScanned := now));
    }
  }
}
