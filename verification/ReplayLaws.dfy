/** What replaying one entry does to each row, field by field: the entry's own time is the only clock, and
    no entry touches a row it does not name. */
module ReplayLaws {
  import opened Wrappers
  import opened Text
  import opened Wal
  import opened Catalogs
  import opened Identity
  import opened Commands
  import opened Projection
  import opened Retries

  /** All but one path look up as before. */
  ghost predicate OnlyAt(fs: seq<File>, gs: seq<File>, path: string) {
    forall p :: p != path ==> Lookup(gs, p) == Lookup(fs, p)
  }

  ghost predicate OnlyAtTwo(fs: seq<File>, gs: seq<File>, a: string, b: string) {
    forall p :: p != a && p != b ==> Lookup(gs, p) == Lookup(fs, p)
  }

  lemma UpsertOnlyAt(fs: seq<File>, f: File)
    ensures OnlyAt(fs, UpsertAt(fs, f), f.path) && Lookup(UpsertAt(fs, f), f.path) == Some(f)
  {
    forall p
      ensures Lookup(UpsertAt(fs, f), p) == if p == f.path then Some(f) else Lookup(fs, p)
    {
      UpsertLooksUp(fs, f, p);
    }
  }

  lemma RemoveOnlyAt(fs: seq<File>, path: string)
    ensures OnlyAt(fs, RemoveAll(fs, path), path) && Lookup(RemoveAll(fs, path), path).None?
  {
    forall p
      ensures Lookup(RemoveAll(fs, path), p) == if p == path then None else Lookup(fs, p)
    {
      RemoveLooksUp(fs, path, p);
    }
  }

  /** An ingest brings in the row its arguments describe, if the birth record is a valid one. */
  lemma IngestReplayed(h: string -> string, fs: seq<File>, e: Entry, node: string)
    requires e.opType == OpType.Ingest
    ensures var path, sha := ArgOf(e, Arg.Path), ArgOf(e, ContentSha256);
            var g := Genesis(sha, path, e.opID, node);
            var gs := ProjectOp(h, fs, e, node);
            if IsHex64(sha) && path != "" && e.opID != "" && node != "" then
              && OnlyAt(fs, gs, path)
              && Lookup(gs, path) == Some(File(MintID(h, g), g, sha, path, if ArgOf(e, SyncModeArg) == "" then "manual" else ArgOf(e, SyncModeArg),
                                               ParseSize(ArgOf(e, Size)), e.createdAt, e.createdAt, e.createdAt))
            else gs == fs
  {
    var row := RowFromEntry(h, e, node);
    if row.Some? {
      UpsertOnlyAt(fs, row.value);
    }
  }

  /** A scan entry changes one row's hash and times. */
  lemma ScanReplayed(h: string -> string, fs: seq<File>, e: Entry, node: string)
    requires e.opType == OpType.Scan
    ensures var path, gs := ArgOf(e, Arg.Path), ProjectOp(h, fs, e, node);
            var f := Lookup(fs, path);
            && OnlyAt(fs, gs, path) && (f.None? ==> gs == fs)
            && (f.Some? ==> Lookup(gs, path) == Some(f.value.(sha := if ArgOf(e, NewSha256) == "" then f.value.sha else ArgOf(e, NewSha256), updatedAt := e.createdAt, lastScanned := e.createdAt)))
  {
    LookupIn(fs, ArgOf(e, Arg.Path));
    var f := Lookup(fs, ArgOf(e, Arg.Path));
    if f.Some? {
      UpsertOnlyAt(fs, f.value.(sha := if ArgOf(e, NewSha256) == "" then f.value.sha else ArgOf(e, NewSha256), updatedAt := e.createdAt, lastScanned := e.createdAt));
    }
  }

  /** A mode flip changes one row's mode, hash and times; the scan time is the one journaled. */
  lemma SyncModeReplayed(h: string -> string, fs: seq<File>, e: Entry, node: string)
    requires e.opType == OpType.SyncMode
    ensures var path, gs, at := ArgOf(e, Arg.Path), ProjectOp(h, fs, e, node), ReadInteger(ArgOf(e, LastScannedAt));
            var f := Lookup(fs, path);
            && OnlyAt(fs, gs, path) && (f.None? ==> gs == fs)
            && (f.Some? ==> Lookup(gs, path) == Some(f.value.(syncMode := if ArgOf(e, ToMode) == "" then f.value.syncMode else ArgOf(e, ToMode),
                                                              sha := if ArgOf(e, NewSha256) == "" then f.value.sha else ArgOf(e, NewSha256),
                                                              updatedAt := e.createdAt, lastScanned := if at.None? then f.value.lastScanned else at.value)))
  {
    LookupIn(fs, ArgOf(e, Arg.Path));
    var f := Lookup(fs, ArgOf(e, Arg.Path));
    if f.Some? {
      var at := ReadInteger(ArgOf(e, LastScannedAt));
      UpsertOnlyAt(fs, f.value.(syncMode := if ArgOf(e, ToMode) == "" then f.value.syncMode else ArgOf(e, ToMode),
                                sha := if ArgOf(e, NewSha256) == "" then f.value.sha else ArgOf(e, NewSha256),
                                updatedAt := e.createdAt, lastScanned := if at.None? then f.value.lastScanned else at.value));
    }
  }

  /** A restore gives a row the recorded id and birth record, if the one certifies the other. */
  lemma RestoreReplayed(h: string -> string, fs: seq<File>, e: Entry, node: string)
    requires e.opType == OpType.Restore
    ensures var path, id, gs := ArgOf(e, Arg.Path), ArgOf(e, RestoredId), ProjectOp(h, fs, e, node);
            var g := Genesis(ArgOf(e, ContentSha256), ArgOf(e, OriginalPath), ArgOf(e, IngestOpId), ArgOf(e, OriginNode));
            var f := Lookup(fs, path);
            && OnlyAt(fs, gs, path)
            && (f.None? || path == "" || id == "" || !Verify(h, g, id) ==> gs == fs)
            && (f.Some? && path != "" && id != "" && Verify(h, g, id) ==> Lookup(gs, path) == Some(f.value.(id := id, genesis := g, updatedAt := e.createdAt)))
  {
    LookupIn(fs, ArgOf(e, Arg.Path));
    var f := Lookup(fs, ArgOf(e, Arg.Path));
    if f.Some? {
      UpsertOnlyAt(fs, f.value.(id := ArgOf(e, RestoredId), genesis := GenesisFromArgs(e), updatedAt := e.createdAt));
    }
  }

  lemma DeleteReplayed(h: string -> string, fs: seq<File>, e: Entry, node: string)
    requires e.opType == OpType.Delete
    ensures var path, gs := ArgOf(e, Arg.Path), ProjectOp(h, fs, e, node); OnlyAt(fs, gs, path) && Lookup(gs, path).None?
  {
    RemoveOnlyAt(fs, ArgOf(e, Arg.Path));
  }

  /** An arrival brings in the row its arguments describe. */
  lemma ArrivalReplayed(h: string -> string, fs: seq<File>, e: Entry, node: string)
    requires e.opType == OpType.Move && ArgOf(e, MovedTo) == "" && ArgOf(e, DestPath) != "" && ArgOf(e, Id) != ""
    ensures var path, gs := ArgOf(e, DestPath), ProjectOp(h, fs, e, node);
            var g := Genesis(ArgOf(e, ContentSha256), ArgOf(e, OriginalPath), ArgOf(e, IngestOpId), ArgOf(e, OriginNode));
            && OnlyAt(fs, gs, path)
            && Lookup(gs, path) == Some(File(ArgOf(e, Id), g, ArgOf(e, ContentSha256), path, if ArgOf(e, SyncModeArg) == "" then "manual" else ArgOf(e, SyncModeArg),
                                             ParseSize(ArgOf(e, Size)), e.createdAt, e.createdAt, e.createdAt))
  {
    UpsertOnlyAt(fs, ArrivedRow(e));
  }

  /** A rename moves the row with the entry's first id, or else the one at its source path, and leaves it as
      it was but for path and times. */
  lemma RenameReplayed(h: string -> string, fs: seq<File>, e: Entry, node: string)
    requires e.opType == OpType.Move && ArgOf(e, MovedTo) == "" && (ArgOf(e, DestPath) == "" || ArgOf(e, Id) == "") && e.blobRefs != []
    ensures var from, to, gs := ArgOf(e, From), ArgOf(e, To), ProjectOp(h, fs, e, node);
            var f := if FindIDIn(fs, e.blobRefs[0]).Some? then FindIDIn(fs, e.blobRefs[0]) else Lookup(fs, from);
            && (f.None? || to == "" || f.value.path == to ==> gs == fs)
            && (f.Some? && to != "" && f.value.path != to ==>
                  OnlyAtTwo(fs, gs, f.value.path, to) && Lookup(gs, f.value.path).None? && Lookup(gs, to) == Some(f.value.(path := to, updatedAt := e.createdAt, lastScanned := e.createdAt)))
  {
    var f := FindMoved(fs, e.blobRefs, ArgOf(e, From));
    if f.Some? {
      RemoveOnlyAt(fs, f.value.path);
      UpsertOnlyAt(RemoveAll(fs, f.value.path), f.value.(path := ArgOf(e, To), updatedAt := e.createdAt, lastScanned := e.createdAt));
    }
  }

  /** A departure, and a sweep, take out the rows with the entry's ids and leave the rest as they are. */
  lemma RowsForgotten(h: string -> string, fs: seq<File>, e: Entry, node: string, g: File)
    requires e.opType == OpType.Gc || (e.opType == OpType.Move && ArgOf(e, MovedTo) != "")
    requires DistinctPaths(fs) && DistinctIDs(Rows(fs))
    ensures g in ProjectOp(h, fs, e, node) <==> g in fs && g.id !in e.blobRefs
  {
    RemoveIDsLeaves(fs, e.blobRefs, g);
  }

  /** Entries that are about the federation, or of a kind this version does not know, change no file. */
  lemma OthersIgnored(h: string -> string, fs: seq<File>, e: Entry, node: string)
    requires e.opType.Roster? || e.opType.Passwd? || e.opType.UnknownOp?
    ensures ProjectOp(h, fs, e, node) == fs
  {
  }

  /** The strict replay takes four kinds of entry, each of which must have what it needs, and gives the time
      of the retry to the rows it changes. */
  lemma StrictReplay(h: string -> string, fs: seq<File>, e: Entry, node: string, now: int)
    ensures ApplyOp(h, fs, e, node, now).Some? <==>
              match e.opType
              case Ingest => IsHex64(ArgOf(e, ContentSha256)) && ArgOf(e, Arg.Path) != "" && e.opID != "" && node != ""
              case Scan => Lookup(fs, ArgOf(e, Arg.Path)).Some?
              case Move => true
              case Delete => true
              case _ => false
    ensures e.opType.Ingest? && ApplyOp(h, fs, e, node, now).Some? ==> ApplyOp(h, fs, e, node, now).value == ProjectOp(h, fs, e, node)
    ensures e.opType.Delete? ==> ApplyOp(h, fs, e, node, now).value == ProjectOp(h, fs, e, node)
    ensures e.opType.Scan? && ApplyOp(h, fs, e, node, now).Some? ==>
              var path, gs := ArgOf(e, Arg.Path), ApplyOp(h, fs, e, node, now).value;
              var f := Lookup(fs, path).value;
              && OnlyAt(fs, gs, path)
              && Lookup(gs, path) == Some(f.(sha := if ArgOf(e, NewSha256) == "" then f.sha else ArgOf(e, NewSha256), updatedAt := now, lastScanned := now))
    ensures e.opType.Move? && e.blobRefs != [] ==>
              var from, to, gs := ArgOf(e, From), ArgOf(e, To), ApplyOp(h, fs, e, node, now).value;
              var f := if FindIDIn(fs, e.blobRefs[0]).Some? then FindIDIn(fs, e.blobRefs[0]) else Lookup(fs, from);
              && (f.None? || f.value.path == to ==> gs == fs)
              && (f.Some? && f.value.path != to ==>
                    OnlyAtTwo(fs, gs, f.value.path, to) && Lookup(gs, f.value.path).None? && Lookup(gs, to) == Some(f.value.(path := to, updatedAt := now, lastScanned := now)))
  {
    LookupIn(fs, ArgOf(e, Arg.Path));
    if e.opType.Scan? && Lookup(fs, ArgOf(e, Arg.Path)).Some? {
      var f := Lookup(fs, ArgOf(e, Arg.Path)).value;
      UpsertOnlyAt(fs, f.(sha := if ArgOf(e, NewSha256) == "" then f.sha else ArgOf(e, NewSha256), updatedAt := now, lastScanned := now));
    }
    if e.opType.Move? {
      var f := FindMoved(fs, e.blobRefs, ArgOf(e, From));
      if f.Some? {
        RemoveOnlyAt(fs, f.value.path);
        UpsertOnlyAt(RemoveAll(fs, f.value.path), f.value.(path := ArgOf(e, To), updatedAt := now, lastScanned := now));
      }
    }
  }
}
