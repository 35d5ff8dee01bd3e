/** Rebuilding a catalog from a log that was pruned: what the entries after the cut still tell. */
module PruneReplay {
  import opened Wrappers
  import opened Wal
  import opened Catalogs
  import opened Identity
  import opened Vaults
  import opened Commands
  import opened Moves
  import opened Scan
  import opened GcFed
  import opened Projection
  import opened LiveReplay

  /** The rows at some of the paths. */
  function Of(rows: RowMap, known: set<string>): RowMap {
    map p | p in rows && p in known :: rows[p]
  }

  function Follow(known: set<string>, path: string, to: string): set<string> {
    if path in known then known - {path} + {to} else known
  }

  /** Which paths hold a row that was born or arrived since, one operation on: a rename carries that along,
      a removal ends it, and an update leaves it. */
  function KnownAfter(rows: RowMap, d: Completed, known: set<string>): set<string> {
    match d
    case Did(c, _) =>
      (match c
       case PutFile(path, _, _) => known + {path}
       case Rename(path, to) => Follow(known, path, to)
       case Rm(path) => known - {path}
       case _ => known)
    case Departed(m) => known - {m.file.path}
    case Arrival(m, _, _) => known + {m.destPath}
    case Reconciled(ch, _) =>
      (match ch
       case Added(path, _, _) => known + {path}
       case Moved(f, path, _, _) => Follow(known, f.path, path)
       case Deleted(f) => known - {f.path}
       case _ => known)
    case Collected(shas, _, _) => set p | p in known && p in rows && rows[p].sha !in shas
    case Noted(_, _) => known
  }

  lemma OfRowsOk(h: string -> string, rows: RowMap, known: set<string>)
    requires RowsOk(h, rows)
    ensures RowsOk(h, Of(rows, known))
  {
  }

  lemma OfBirthOk(node: string, path: string, sha: string, rows: RowMap, who: Who, known: set<string>)
    requires BirthOk(node, path, sha, rows, who)
    ensures BirthOk(node, path, sha, Of(rows, known), who)
  {
  }

  // ---- an entry about a row the rebuilt catalog does not have --------------------------

  lemma {:induction false} RemoveAbsent(fs: seq<File>, path: string)
    requires path !in Paths(fs)
    ensures RemoveAll(fs, path) == fs
  {
    if fs != [] {
      RemoveAbsent(fs[1..], path);
      assert fs == [fs[0]] + fs[1..];
      assert fs[0].path in Paths(fs) && forall p :: p in Paths(fs[1..]) ==> p in Paths(fs);
    }
  }

  lemma AbsentIn(live: RowMap, fs: seq<File>, shas: bool, path: string)
    requires Sim(live, fs, shas) && path !in live
    ensures Lookup(fs, path).None? && path !in Paths(fs)
  {
    FindIsLookup(fs, path);
    LookupIn(fs, path);
  }

  lemma UnknownUpdate(h: string -> string, node: string, live: RowMap, fs: seq<File>, shas: bool, e: Entry)
    requires Sim(live, fs, shas) && e.opType in {OpType.Scan, OpType.SyncMode, OpType.Restore, OpType.Delete} && ArgOf(e, Arg.Path) !in live
    ensures ProjectOp(h, fs, e, node) == fs
  {
    AbsentIn(live, fs, shas, ArgOf(e, Arg.Path));
    RemoveAbsent(fs, ArgOf(e, Arg.Path));
  }

  lemma UnknownRename(h: string -> string, node: string, live: RowMap, fs: seq<File>, shas: bool, id: string, e: Entry)
    requires Sim(live, fs, shas) && DistinctIDs(live) && WellKeyed(live) && !HoldsID(live, id) && ArgOf(e, From) !in live
    requires e.opType == OpType.Move && e.blobRefs == [id] && ArgOf(e, MovedTo) == "" && ArgOf(e, DestPath) == ""
    ensures ProjectOp(h, fs, e, node) == fs
  {
    SimFindID(live, fs, shas, id);
    AbsentIn(live, fs, shas, ArgOf(e, From));
  }

  // ---- the known rows after an update ----------------------------------------------------

  lemma OfPut(live: RowMap, known: set<string>, p: string, f: File)
    ensures Of(live[p := f], known + {p}) == Of(live, known)[p := f]
  {
  }

  lemma OfSet(live: RowMap, known: set<string>, p: string, f: File)
    requires p in live
    ensures Of(live[p := f], known) == if p in known then Of(live, known)[p := f] else Of(live, known)
  {
  }

  lemma OfRename(live: RowMap, known: set<string>, p: string, q: string, g: File)
    requires p in live && q !in live && known <= live.Keys
    ensures Of((live - {p})[q := g], Follow(known, p, q)) == if p in known then (Of(live, known) - {p})[q := g] else Of(live, known)
  {
  }

  lemma OfCollected(live: RowMap, known: set<string>, gone: seq<string>, ids: seq<string>)
    requires Aligned(live, gone, ids)
    ensures Of(Without(live, gone), set p | p in known && p in live && live[p].sha !in gone) == WithoutIDs(Of(live, known), ids)
  {
  }

  lemma OfDeparted(live: RowMap, known: set<string>, p: string)
    requires DistinctIDs(live) && p in live
    ensures Of(live - {p}, known - {p}) == WithoutIDs(Of(live, known), [live[p].id])
  {
    WithoutOne(live, p);
    var a, b := Of(live - {p}, known - {p}), WithoutIDs(Of(live, known), [live[p].id]);
    assert forall q :: q in a <==> q in b;
  }

  // ---- one operation ---------------------------------------------------------------------

  lemma PutKnown(h: string -> string, node: string, live: RowMap, known: set<string>, fs: seq<File>, shas: bool, path: string, sha: string, size: int, who: Who)
    requires Sim(Of(live, known), fs, shas) && BirthOk(node, path, sha, live, who)
    ensures Sim(Of(live[path := NewRow(h, node, path, sha, size, who)], known + {path}), ProjectOp(h, fs, IngestEntry(h, node, path, sha, size, who), node), shas)
  {
    OfBirthOk(node, path, sha, live, who, known);
    IngestProjects(h, node, Of(live, known), fs, shas, path, sha, size, who);
    OfPut(live, known, path, NewRow(h, node, path, sha, size, who));
  }

  lemma RenameKnown(h: string -> string, node: string, live: RowMap, known: set<string>, fs: seq<File>, shas: bool, f: File, g: File, e: Entry)
    requires Sim(Of(live, known), fs, shas) && DistinctIDs(live) && WellKeyed(live) && known <= live.Keys
    requires f.path in live && live[f.path] == f && g.path !in live && g.path != "" && SameRow(g, f.(path := g.path), true)
    requires e.opType == OpType.Move && e.blobRefs == [f.id] && ArgOf(e, To) == g.path && ArgOf(e, From) == f.path && ArgOf(e, MovedTo) == "" && ArgOf(e, DestPath) == ""
    ensures Sim(Of((live - {f.path})[g.path := g], Follow(known, f.path, g.path)), ProjectOp(h, fs, e, node), shas)
  {
    OfRename(live, known, f.path, g.path, g);
    if f.path in known {
      RenameProjects(h, node, Of(live, known), fs, shas, f, g, e);
    } else {
      UnknownRename(h, node, Of(live, known), fs, shas, f.id, e);
    }
  }

  lemma RemoveKnown(h: string -> string, node: string, live: RowMap, known: set<string>, fs: seq<File>, shas: bool, path: string, e: Entry)
    requires Sim(Of(live, known), fs, shas) && e.opType == OpType.Delete && ArgOf(e, Arg.Path) == path
    ensures Sim(Of(live - {path}, known - {path}), ProjectOp(h, fs, e, node), shas)
  {
    assert Of(live - {path}, known - {path}) == Of(live, known) - {path};
    SimRemove(Of(live, known), fs, shas, path);
  }

  lemma SetModeKnown(h: string -> string, node: string, live: RowMap, known: set<string>, fs: seq<File>, shas: bool, path: string, g: File, e: Entry)
    requires Sim(Of(live, known), fs, shas) && WellKeyed(live) && path in live
    requires g.path == path && g.id == live[path].id && g.genesis == live[path].genesis && g.syncMode != "" && g.sha != ""
    requires e.opType == OpType.SyncMode && ArgOf(e, Arg.Path) == path && ArgOf(e, ToMode) == g.syncMode && ArgOf(e, NewSha256) == g.sha
    ensures Sim(Of(live[path := g], known), ProjectOp(h, fs, e, node), shas)
  {
    OfSet(live, known, path, g);
    if path in known {
      SetModeProjects(h, node, Of(live, known), fs, shas, path, g, e);
    } else {
      UnknownUpdate(h, node, Of(live, known), fs, shas, e);
    }
  }

  lemma RestoreKnown(h: string -> string, node: string, live: RowMap, known: set<string>, fs: seq<File>, shas: bool, path: string, id: string, g: Genesis, e: Entry, f: File)
    requires Sim(Of(live, known), fs, shas) && WellKeyed(live) && path in live && path != "" && id != "" && GoodHash(h) && id == MintID(h, g)
    requires e.opType == OpType.Restore && ArgOf(e, Arg.Path) == path && ArgOf(e, RestoredId) == id && GenesisFromArgs(e) == g
    requires SameRow(f, live[path].(id := id, genesis := g), true)
    ensures Sim(Of(live[path := f], known), ProjectOp(h, fs, e, node), shas)
  {
    OfSet(live, known, path, f);
    if path in known {
      RestoreProjects(h, node, Of(live, known), fs, shas, path, id, g, e, f);
    } else {
      UnknownUpdate(h, node, Of(live, known), fs, shas, e);
    }
  }

  lemma EditKnown(h: string -> string, node: string, live: RowMap, known: set<string>, fs: seq<File>, shas: bool, f: File, g: File, e: Entry)
    requires Sim(Of(live, known), fs, shas) && WellKeyed(live) && f.path in live && live[f.path] == f && g.sha != "" && SameRow(g, f.(sha := g.sha), true)
    requires e.opType == OpType.Scan && ArgOf(e, Arg.Path) == f.path && ArgOf(e, NewSha256) == g.sha
    ensures Sim(Of(live[f.path := g], known), ProjectOp(h, fs, e, node), shas)
  {
    OfSet(live, known, f.path, g);
    if f.path in known {
      EditProjects(h, node, Of(live, known), fs, shas, f, g, e);
    } else {
      UnknownUpdate(h, node, Of(live, known), fs, shas, e);
    }
  }

  lemma DepartedKnown(h: string -> string, node: string, live: RowMap, known: set<string>, fs: seq<File>, shas: bool, path: string, e: Entry)
    requires RowsOk(h, live) && Sim(Of(live, known), fs, shas) && path in live
    requires e.opType == OpType.Move && ArgOf(e, MovedTo) != "" && e.blobRefs == [live[path].id]
    ensures Sim(Of(live - {path}, known - {path}), ProjectOp(h, fs, e, node), shas)
  {
    SimRemoveIDs(Of(live, known), fs, shas, e.blobRefs);
    OfDeparted(live, known, path);
  }

  lemma ForgetKnown(h: string -> string, node: string, live: RowMap, known: set<string>, fs: seq<File>, shas: bool, ids: seq<string>, e: Entry)
    requires RowsOk(h, live) && Sim(Of(live, known), fs, shas) && e.opType == OpType.Gc && e.blobRefs == ids
    ensures Sim(WithoutIDs(Of(live, known), ids), ProjectOp(h, fs, e, node), shas)
  {
    OfRowsOk(h, live, known);
    SimRemoveIDs(Of(live, known), fs, shas, ids);
  }

  lemma CollectedKnown(h: string -> string, node: string, live: RowMap, known: set<string>, fs: seq<File>, shas: bool, gone: seq<string>, ids: seq<string>, who: Who)
    requires RowsOk(h, live) && Sim(Of(live, known), fs, shas) && Aligned(live, gone, ids)
    ensures Sim(Of(Without(live, gone), set p | p in known && p in live && live[p].sha !in gone), ProjectOp(h, fs, GcEntry(ids, who), node), shas)
  {
    OfCollected(live, known, gone, ids);
    ForgetKnown(h, node, live, known, fs, shas, ids, GcEntry(ids, who));
  }

  lemma ArrivalKnown(h: string -> string, node: string, live: RowMap, known: set<string>, fs: seq<File>, shas: bool, e: Entry, f: File)
    requires Sim(Of(live, known), fs, shas) && f.path != "" && f.id != "" && f.syncMode != ""
    requires e.opType == OpType.Move && ArgOf(e, MovedTo) == "" && ArgOf(e, DestPath) == f.path && ArgOf(e, Id) == f.id
    requires ArgOf(e, SyncModeArg) == f.syncMode && GenesisFromArgs(e) == f.genesis && (shas ==> ArgOf(e, ContentSha256) == f.sha)
    ensures Sim(Of(live[f.path := f], known + {f.path}), ProjectOp(h, fs, e, node), shas)
  {
    ArrivalProjects(h, node, Of(live, known), fs, shas, e, f);
    OfPut(live, known, f.path, f);
  }

  lemma FromArgs(member: string, f: File, to: string, who: Who)
    ensures ArgOf(RenameEntry(member, f, to, who), From) == f.path
  {
  }

  lemma DidKnown(h: string -> string, node: string, s: Node, known: set<string>, fs: seq<File>, c: Command, who: Who, shas: bool)
    requires GoodHash(h) && s.cat.Some? && RowsOk(h, s.cat.value) && Sim(Of(s.cat.value, known), fs, shas) && known <= s.cat.value.Keys && DidOk(h, node, s, c, who)
    ensures var p := PlanOf(h, node, s, c, who).value; Sim(Of(p.rows, KnownAfter(s.cat.value, Did(c, who), known)), ProjectOp(h, fs, p.intent, node), shas)
  {
    var live, p := s.cat.value, PlanOf(h, node, s, c, who).value;
    match c
    case PutFile(path, sha, size) => PutKnown(h, node, live, known, fs, shas, path, sha, size, who);
    case Rename(path, to) =>
      RenameArgs(node, live[path], to, who);
      FromArgs(node, live[path], to, who);
      RenameKnown(h, node, live, known, fs, shas, live[path], live[path].(path := to, updatedAt := who.now), p.intent);
    case Rm(path) =>
      assert ArgOf(RmEntry(live[path], who), Arg.Path) == path;
      RemoveKnown(h, node, live, known, fs, shas, path, p.intent);
    case SetMode(path, mode) =>
      SetModeArgs(live[path], mode, p.rows[path].sha, p.rows[path].lastScanned, who);
      SetModeKnown(h, node, live, known, fs, shas, path, p.rows[path], p.intent);
    case RestoreID(path, id, g) =>
      RestoreArgs(live[path], id, g, who);
      RestoreKnown(h, node, live, known, fs, shas, path, id, g, p.intent, p.rows[path]);
  }

  ghost predicate StaysKnown(h: string -> string, node: string, live: RowMap, known: set<string>, fs: seq<File>, ch: Change, who: Who, shas: bool)
    requires NeedsIntent(ch)
  {
    var stays := Sim(Of(Mutate(h, node, ch, who, live), KnownAfter(live, Reconciled(ch, who), known)), ProjectOp(h, fs, ScanEntry(h, node, ch, who), node), shas);
    stays
  }

  lemma ScanAddKnown(h: string -> string, node: string, live: RowMap, known: set<string>, fs: seq<File>, path: string, sha: string, size: int, who: Who, shas: bool)
    requires Sim(Of(live, known), fs, shas) && BirthOk(node, path, sha, live, who)
    ensures StaysKnown(h, node, live, known, fs, Added(path, sha, size), who, shas)
  {
    PutKnown(h, node, live, known, fs, shas, path, sha, size, who);
  }

  lemma ScanMoveArgs(h: string -> string, node: string, f: File, path: string, sha: string, size: int, who: Who)
    ensures var e := ScanEntry(h, node, Moved(f, path, sha, size), who);
            && e.opType == OpType.Move && e.blobRefs == [f.id] && ArgOf(e, From) == f.path && ArgOf(e, To) == path
            && ArgOf(e, MovedTo) == "" && ArgOf(e, DestPath) == ""
  {
  }

  lemma ScanEditKnown(h: string -> string, node: string, live: RowMap, known: set<string>, fs: seq<File>, f: File, sha: string, size: int, who: Who, shas: bool)
    requires RowsOk(h, live) && Sim(Of(live, known), fs, shas) && f.path in live && live[f.path] == f && sha != ""
    ensures StaysKnown(h, node, live, known, fs, Edited(f, sha, size), who, shas)
  {
    var ch := Edited(f, sha, size);
    ScanArgs(h, node, ch, who);
    EditKnown(h, node, live, known, fs, shas, f, f.(sha := sha, size := size, updatedAt := who.now, lastScanned := who.now), ScanEntry(h, node, ch, who));
  }

  lemma ScanMoveStays(h: string -> string, node: string, live: RowMap, known: set<string>, fs: seq<File>, f: File, path: string, sha: string, size: int, who: Who, e: Entry, shas: bool)
    requires e == ScanEntry(h, node, Moved(f, path, sha, size), who)
    requires Sim(Of((live - {f.path})[path := f.(path := path, updatedAt := who.now, lastScanned := who.now)], Follow(known, f.path, path)), ProjectOp(h, fs, e, node), shas)
    ensures StaysKnown(h, node, live, known, fs, Moved(f, path, sha, size), who, shas)
  {
  }

  lemma ScanMoveKnown(h: string -> string, node: string, live: RowMap, known: set<string>, fs: seq<File>, f: File, path: string, sha: string, size: int, who: Who, shas: bool)
    requires RowsOk(h, live) && Sim(Of(live, known), fs, shas) && known <= live.Keys && f.path in live && live[f.path] == f && path !in live && path != ""
    ensures StaysKnown(h, node, live, known, fs, Moved(f, path, sha, size), who, shas)
  {
    var e := ScanEntry(h, node, Moved(f, path, sha, size), who);
    ScanMoveArgs(h, node, f, path, sha, size, who);
    RenameKnown(h, node, live, known, fs, shas, f, f.(path := path, updatedAt := who.now, lastScanned := who.now), e);
    ScanMoveStays(h, node, live, known, fs, f, path, sha, size, who, e, shas);
  }

  lemma ScanDeleteKnown(h: string -> string, node: string, live: RowMap, known: set<string>, fs: seq<File>, f: File, who: Who, shas: bool)
    requires Sim(Of(live, known), fs, shas)
    ensures StaysKnown(h, node, live, known, fs, Change.Deleted(f), who, shas)
  {
    ScanArgs(h, node, Change.Deleted(f), who);
    RemoveKnown(h, node, live, known, fs, shas, f.path, ScanEntry(h, node, Change.Deleted(f), who));
  }

  lemma ReconciledKnown(h: string -> string, node: string, live: RowMap, known: set<string>, fs: seq<File>, ch: Change, who: Who, shas: bool)
    requires RowsOk(h, live) && Sim(Of(live, known), fs, shas) && known <= live.Keys && NeedsIntent(ch)
    requires ch.Added? ==> BirthOk(node, ch.path, ch.sha, live, who)
    requires !ch.Added? ==> ch.file.path in live && live[ch.file.path] == ch.file
    requires ch.Edited? ==> ch.sha != ""
    requires ch.Moved? ==> ch.path !in live && ch.path != ""
    ensures StaysKnown(h, node, live, known, fs, ch, who, shas)
  {
    match ch
    case Added(path, sha, size) => ScanAddKnown(h, node, live, known, fs, path, sha, size, who, shas);
    case Edited(f, sha, size) => ScanEditKnown(h, node, live, known, fs, f, sha, size, who, shas);
    case Moved(f, path, sha, size) => ScanMoveKnown(h, node, live, known, fs, f, path, sha, size, who, shas);
    case Deleted(f) => ScanDeleteKnown(h, node, live, known, fs, f, who, shas);
  }

  lemma SiteKnown(h: string -> string, node: string, s: Node, known: set<string>, fs: seq<File>, d: Completed, shas: bool)
    requires GoodHash(h) && s.cat.Some? && RowsOk(h, s.cat.value) && Sim(Of(s.cat.value, known), fs, shas) && known <= s.cat.value.Keys
    requires Admissible(h, node, s, d) && Site(h, node, s, d).Some? && (shas ==> Faithful(d))
    ensures var p := Site(h, node, s, d).value; Sim(Of(p.rows, KnownAfter(s.cat.value, d, known)), ProjectOp(h, fs, p.intent, node), shas)
  {
    var live := s.cat.value;
    match d
    case Did(c, who) => DidKnown(h, node, s, known, fs, c, who, shas);
    case Departed(m) =>
      DepartedArgs(m);
      DepartedKnown(h, node, live, known, fs, shas, m.file.path, SrcIntent(m));
    case Arrival(m, hash, size) =>
      ArrivalArgs(m);
      ArrivalKnown(h, node, live, known, fs, shas, DstIntent(m), Arrived(m, hash, size));
    case Reconciled(ch, who) => ReconciledKnown(h, node, live, known, fs, ch, who, shas);
    case Collected(gone, ids, who) => CollectedKnown(h, node, live, known, fs, shas, gone, ids, who);
  }

  // ---- whole histories -------------------------------------------------------------------

  /** The entries from n on rebuild exactly the known rows. */
  ghost predicate KnownInStep(h: string -> string, node: string, s: Node, n: nat, known: set<string>, shas: bool) {
    && s.cat.Some? && RowsOk(h, s.cat.value) && known <= s.cat.value.Keys && n <= |s.log.recs|
    && Sim(Of(s.cat.value, known), Project(h, s.log.recs[n..], node), shas)
  }

  lemma SuffixSnoc(h: string -> string, recs: seq<Rec>, n: nat, r: Rec, node: string)
    requires n <= |recs|
    ensures Project(h, (recs + [r])[n..], node) == if r.state == Done then ProjectOp(h, Project(h, recs[n..], node), r.entry, node) else Project(h, recs[n..], node)
  {
    assert (recs + [r])[n..] == recs[n..] + [r];
    ProjectSnoc(h, recs[n..], r, node);
  }

  lemma PlanKeepsKnown(h: string -> string, node: string, s: Node, n: nat, known: set<string>, p: Plan, after: set<string>, shas: bool)
    requires KnownInStep(h, node, s, n, known, shas) && FreshOp(s.log, p.intent) && RowsOk(h, p.rows) && after <= p.rows.Keys
    requires Sim(Of(p.rows, after), ProjectOp(h, Project(h, s.log.recs[n..], node), p.intent, node), shas)
    ensures KnownInStep(h, node, Finish(Persist(AfterWrites(Intend(s, p.intent), p.writes), p.rows), p.intent.opID, true), n, after, shas)
  {
    WritesKeepLog(Intend(s, p.intent), p.writes);
    CompletedOp(s.log, p.intent);
    SuffixSnoc(h, s.log.recs, n, Rec(Candidate(s.log, p.intent), Done), node);
    ReplayIgnoresPlace(h, Project(h, s.log.recs[n..], node), s.log, p.intent, node);
  }

  lemma NotedKeepsKnown(h: string -> string, node: string, s: Node, n: nat, known: set<string>, e: Entry, failed: bool, shas: bool)
    requires KnownInStep(h, node, s, n, known, shas) && FreshOp(s.log, e)
    ensures KnownInStep(h, node, if failed then Finish(Intend(s, e), e.opID, false) else Intend(s, e), n, known, shas)
  {
    AppendFresh(s.log, e);
    var a := AppendRec(s.log, e);
    var k := |s.log.recs|;
    SuffixSnoc(h, s.log.recs, n, a.recs[k], node);
    if failed {
      assert a.recs[k].entry.opID == e.opID;
      assert forall i :: 0 <= i < k ==> a.recs[i].entry.opID != e.opID;
      assert FindOp(a, e.opID) == Some(k);
      var w := MarkRec(a, k, false);
      assert w.recs == s.log.recs + [w.recs[k]];
      SuffixSnoc(h, s.log.recs, n, w.recs[k], node);
    }
  }

  lemma KnownWithin(h: string -> string, node: string, s: Node, d: Completed, known: set<string>)
    requires s.cat.Some? && known <= s.cat.value.Keys && Admissible(h, node, s, d) && Site(h, node, s, d).Some?
    ensures KnownAfter(s.cat.value, d, known) <= Site(h, node, s, d).value.rows.Keys
  {
  }

  lemma CompleteKeepsKnown(h: string -> string, node: string, s: Node, n: nat, known: set<string>, d: Completed, shas: bool)
    requires GoodHash(h) && KnownInStep(h, node, s, n, known, shas) && Admissible(h, node, s, d) && (shas ==> Faithful(d))
    ensures KnownInStep(h, node, Complete(h, node, s, d), n, KnownAfter(s.cat.value, d, known), shas)
  {
    var site := Site(h, node, s, d);
    if site.Some? {
      SiteKnown(h, node, s, known, Project(h, s.log.recs[n..], node), d, shas);
      SiteRowsOk(h, node, s, d);
      SiteIsFresh(h, node, s, d);
      KnownWithin(h, node, s, d, known);
      PlanKeepsKnown(h, node, s, n, known, site.value, KnownAfter(s.cat.value, d, known), shas);
    } else {
      match d
      case Noted(e, failed) => NotedKeepsKnown(h, node, s, n, known, e, failed, shas);
      case Reconciled(ch, who) =>
        if ch.Verified? {
          TouchKeepsKnown(h, node, s, n, known, ch.file, ch.file.(lastScanned := who.now), shas);
        }
      case _ =>
    }
  }

  lemma TouchKeepsKnown(h: string -> string, node: string, s: Node, n: nat, known: set<string>, f: File, g: File, shas: bool)
    requires KnownInStep(h, node, s, n, known, shas) && f.path in s.cat.value && s.cat.value[f.path] == f && SameRow(g, f, true)
    ensures KnownInStep(h, node, Persist(s, s.cat.value[f.path := g]), n, known, shas)
  {
    RowsTouch(h, s.cat.value, f, g);
    OfSet(s.cat.value, known, f.path, g);
    if f.path in known {
      SimTouch(Of(s.cat.value, known), Project(h, s.log.recs[n..], node), shas, f, g);
    }
  }

  /** The paths whose rows were born or arrived in the course of a history. */
  function Known(h: string -> string, node: string, s: Node, ds: seq<Completed>, known: set<string>): set<string>
    decreases |ds|
  {
    if ds == [] || s.cat.None? then known else Known(h, node, Complete(h, node, s, ds[0]), ds[1..], KnownAfter(s.cat.value, ds[0], known))
  }

  lemma {:induction false} HistoryKeepsKnown(h: string -> string, node: string, s: Node, n: nat, known: set<string>, ds: seq<Completed>, shas: bool)
    requires GoodHash(h) && KnownInStep(h, node, s, n, known, shas) && AllAdmissible(h, node, s, ds) && (shas ==> forall d :: d in ds ==> Faithful(d))
    ensures KnownInStep(h, node, History(h, node, s, ds), n, Known(h, node, s, ds, known), shas)
    decreases |ds|
  {
    if ds != [] {
      assert ds[0] in ds;
      CompleteKeepsKnown(h, node, s, n, known, ds[0], shas);
      HistoryKeepsKnown(h, node, Complete(h, node, s, ds[0]), n, KnownAfter(s.cat.value, ds[0], known), ds[1..], shas);
    }
  }

  /** When a rebuilt catalog survives a prune: after any history, dropping all that was in the log before it
      leaves a log that rebuilds exactly the rows born or arrived since. It rebuilds the live catalog if and
      only if those are all of them. */
  lemma PrunedReplayIff(h: string -> string, node: string, s: Node, ds: seq<Completed>, shas: bool)
    requires GoodHash(h) && s.cat.Some? && RowsOk(h, s.cat.value) && AllAdmissible(h, node, s, ds) && (shas ==> forall d :: d in ds ==> Faithful(d))
    ensures var t, known := History(h, node, s, ds), Known(h, node, s, ds, {});
            t.cat.Some? && |s.log.recs| <= |t.log.recs| &&
            var fs := Project(h, Pruned(t.log, |s.log.recs|).recs, node);
            Sim(Of(t.cat.value, known), fs, shas) && (Sim(t.cat.value, fs, shas) <==> known == t.cat.value.Keys)
  {
    var n := |s.log.recs|;
    NothingKnown(h, node, s, shas);
    HistoryKeepsKnown(h, node, s, n, {}, ds, shas);
    var t, known := History(h, node, s, ds), Known(h, node, s, ds, {});
    assert Pruned(t.log, n).recs == t.log.recs[n..];
    OfAllIff(t.cat.value, known, Project(h, t.log.recs[n..], node), shas);
  }

  lemma NothingKnown(h: string -> string, node: string, s: Node, shas: bool)
    requires s.cat.Some? && RowsOk(h, s.cat.value)
    ensures KnownInStep(h, node, s, |s.log.recs|, {}, shas)
  {
    assert s.log.recs[|s.log.recs|..] == [] && Of(s.cat.value, {}) == map[];
  }

  lemma OfAllIff(live: RowMap, known: set<string>, fs: seq<File>, shas: bool)
    requires known <= live.Keys && Sim(Of(live, known), fs, shas)
    ensures Sim(live, fs, shas) <==> known == live.Keys
  {
    assert Of(live, known).Keys == known;
    if known == live.Keys {
      assert Of(live, known) == live;
    }
  }
}
