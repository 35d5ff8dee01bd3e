/** Why the catalog is a projection of the log: whatever fresh operations a member completes, in any
    order and by whatever command, replaying its log gives the catalog it lives with. */
module LiveReplay {
  import opened Wrappers
  import opened Text
  import opened Wal
  import opened Catalogs
  import opened Identity
  import opened Vaults
  import opened Commands
  import opened Moves
  import opened Scan
  import opened ScanDiff
  import opened GcFed
  import opened Projection
  import opened Journals
  import opened Bootstrap

  /** An operation this member has seen through: a vault command, one end of a cross-member move, a
      scan change, a sweep, or an entry that never completed or names no file-list effect. */
  datatype Completed =
    | Did(c: Command, who: Who)
    | Departed(m: Move)
    | Arrival(m: Move, hash: string, size: int)
    | Reconciled(ch: Change, who: Who)
    | Collected(shas: seq<string>, ids: seq<string>, who: Who)
    | Noted(e: Entry, failed: bool)

  function Site(h: string -> string, node: string, s: Node, d: Completed): Option<Plan> {
    if s.cat.None? then None
    else
      var rows := s.cat.value;
      match d
      case Did(c, who) => PlanOf(h, node, s, c, who)
      case Departed(m) => Some(Plan(SrcIntent(m), [], rows - {m.file.path}))
      case Arrival(m, hash, size) => Some(Plan(DstIntent(m), [Upload(hash, hash)], rows[m.destPath := Arrived(m, hash, size)]))
      case Reconciled(ch, who) => if NeedsIntent(ch) then Some(Plan(ScanEntry(h, node, ch, who), [], Mutate(h, node, ch, who, rows))) else None
      case Collected(shas, ids, who) => Some(GcPlan(rows, shas, ids, who))
      case Noted(e, _) => None
  }

  /** The member after the operation: a completed plan, or just a row touched or an entry noted. */
  function Complete(h: string -> string, node: string, s: Node, d: Completed): Node {
    match Site(h, node, s, d)
    case Some(p) => Finish(Persist(AfterWrites(Intend(s, p.intent), p.writes), p.rows), p.intent.opID, true)
    case None =>
      match d
      case Reconciled(ch, who) => if s.cat.Some? then Persist(s, Mutate(h, node, ch, who, s.cat.value)) else s
      case Noted(e, failed) => if failed then Finish(Intend(s, e), e.opID, false) else Intend(s, e)
      case _ => s
  }

  predicate FreshOp(v: LogView, e: Entry) {
    !HasOp(v, e.opID) && !Blocked(v, e.blobRefs) && Next(v) < MARKER_LIMIT
  }

  predicate BirthOk(node: string, path: string, sha: string, rows: RowMap, who: Who) {
    path !in rows && path != "" && IsHex64(sha) && who.opID != "" && node != "" && Unborn(rows, Genesis(sha, path, who.opID, node))
  }

  ghost predicate DidOk(h: string -> string, node: string, s: Node, c: Command, who: Who) {
    s.cat.Some? && PlanOf(h, node, s, c, who).Some? && FreshOp(s.log, PlanOf(h, node, s, c, who).value.intent) &&
    match c
    case PutFile(path, sha, _) => BirthOk(node, path, sha, s.cat.value, who)
    case Rename(_, to) => to != ""
    case SetMode(path, _) => s.cat.value[path].sha != "" && forall k :: k in s.objects ==> s.objects[k] != ""
    case RestoreID(path, id, _) => path != "" && id != ""
    case Rm(_) => true
  }

  /** What the operation needs of the catalog it starts from. */
  ghost predicate Admissible(h: string -> string, node: string, s: Node, d: Completed) {
    s.cat.Some? &&
    var rows := s.cat.value;
    match d
    case Did(c, who) => DidOk(h, node, s, c, who)
    case Departed(m) => m.file.path in rows && rows[m.file.path] == m.file && m.dst != "" && FreshOp(s.log, SrcIntent(m))
    case Arrival(m, _, _) =>
      && m.destPath !in rows && m.destPath != "" && m.file.id != "" && m.file.syncMode != "" && !HoldsID(rows, m.file.id)
      && m.file.id == MintID(h, m.file.genesis) && m.file.sha == m.file.genesis.contentSha && FreshOp(s.log, DstIntent(m))
    case Reconciled(ch, who) =>
      (NeedsIntent(ch) ==> FreshOp(s.log, ScanEntry(h, node, ch, who))) &&
      (match ch
       case Added(path, sha, _) => BirthOk(node, path, sha, rows, who)
       case Moved(f, path, _, _) => f.path in rows && rows[f.path] == f && path !in rows && path != ""
       case Edited(f, sha, _) => f.path in rows && rows[f.path] == f && sha != ""
       case _ => ch.file.path in rows && rows[ch.file.path] == ch.file)
    case Collected(shas, ids, who) => Aligned(rows, shas, ids) && FreshOp(s.log, GcEntry(ids, who))
    case Noted(e, failed) => FreshOp(s.log, e)
  }

  /** The journal of an arrival carries the sha the source had recorded. */
  predicate Faithful(d: Completed) {
    d.Arrival? ==> d.hash == d.m.file.sha
  }

  /** Live and rebuilt rows agree on what the log promises: path, id, birth record and mode, and the
      sha as long as no drifted file has arrived. */
  predicate SameRow(a: File, b: File, shas: bool) {
    a.path == b.path && a.id == b.id && a.genesis == b.genesis && a.syncMode == b.syncMode && (shas ==> a.sha == b.sha)
  }

  ghost predicate Sim(live: RowMap, fs: seq<File>, shas: bool) {
    && DistinctPaths(fs)
    && Rows(fs).Keys == live.Keys
    && forall p :: p in live ==> SameRow(live[p], Rows(fs)[p], shas)
  }

  // ---- one operation ---------------------------------------------------------------------

  lemma SimUpsert(live: RowMap, fs: seq<File>, shas: bool, a: File, b: File)
    requires Sim(live, fs, shas) && SameRow(a, b, shas)
    ensures Sim(live[a.path := a], UpsertAt(fs, b), shas)
  {
    UpsertDistinct(fs, b);
    UpsertRows(fs, b);
  }

  lemma SimRemove(live: RowMap, fs: seq<File>, shas: bool, path: string)
    requires Sim(live, fs, shas)
    ensures Sim(live - {path}, RemoveAll(fs, path), shas)
  {
    RemoveDistinct(fs, path);
    RemoveRows(fs, path);
  }

  lemma SimLookup(live: RowMap, fs: seq<File>, shas: bool, path: string)
    requires Sim(live, fs, shas) && path in live && WellKeyed(live)
    ensures Lookup(fs, path).Some? && SameRow(live[path], Lookup(fs, path).value, shas) && Lookup(fs, path).value.path == path
  {
    FindIsLookup(fs, path);
  }

  /** The rebuilt row with a given id sits at the live row's path. */
  lemma SimFindID(live: RowMap, fs: seq<File>, shas: bool, id: string)
    requires Sim(live, fs, shas) && DistinctIDs(live) && WellKeyed(live)
    ensures FindIDIn(fs, id).Some? <==> HoldsID(live, id)
    ensures forall p :: p in live && live[p].id == id ==> FindIDIn(fs, id).Some? && FindIDIn(fs, id).value.path == p && SameRow(live[p], FindIDIn(fs, id).value, shas)
  {
    RowsAreFiles(fs);
    var r := FindIDIn(fs, id);
    if r.Some? {
      assert live[r.value.path].id == id;
    }
    forall p | p in live && live[p].id == id
      ensures r.Some? && r.value.path == p && SameRow(live[p], r.value, shas)
    {
      LookupIn(fs, p);
      assert Rows(fs)[p] in fs;
    }
  }

  lemma WithoutFirst(live: RowMap, ids: seq<string>)
    requires ids != [] && DistinctIDs(live)
    ensures !HoldsID(live, ids[0]) ==> WithoutIDs(live, ids[1..]) == WithoutIDs(live, ids)
    ensures forall p :: p in live && live[p].id == ids[0] ==> WithoutIDs(live - {p}, ids[1..]) == WithoutIDs(live, ids)
  {
    assert ids == [ids[0]] + ids[1..];
    forall p | p in live && live[p].id == ids[0]
      ensures WithoutIDs(live - {p}, ids[1..]) == WithoutIDs(live, ids)
    {
      assert forall q :: q in live && live[q].id == ids[0] ==> q == p;
    }
  }

  lemma {:induction false} SimRemoveIDs(live: RowMap, fs: seq<File>, shas: bool, ids: seq<string>)
    requires Sim(live, fs, shas) && DistinctIDs(live) && WellKeyed(live)
    ensures Sim(WithoutIDs(live, ids), RemoveIDs(fs, ids), shas)
    decreases |ids|
  {
    if ids == [] {
      assert WithoutIDs(live, ids) == live;
    } else {
      SimFindID(live, fs, shas, ids[0]);
      WithoutFirst(live, ids);
      if HoldsID(live, ids[0]) {
        var p :| p in live && live[p].id == ids[0];
        SimRemove(live, fs, shas, p);
        SimRemoveIDs(live - {p}, RemoveAll(fs, p), shas, ids[1..]);
      } else {
        SimRemoveIDs(live, fs, shas, ids[1..]);
      }
    }
  }

  lemma IngestProjects(h: string -> string, node: string, live: RowMap, fs: seq<File>, shas: bool, path: string, sha: string, size: int, who: Who)
    requires Sim(live, fs, shas) && BirthOk(node, path, sha, live, who)
    ensures Sim(live[path := NewRow(h, node, path, sha, size, who)], ProjectOp(h, fs, IngestEntry(h, node, path, sha, size, who), node), shas)
  {
    var row := RowFromEntry(h, IngestEntry(h, node, path, sha, size, who), node).value;
    SimUpsert(live, fs, shas, NewRow(h, node, path, sha, size, who), row);
  }

  /** Any rename, by the command or by a scan: the entry names the row's id, its path and the new one. */
  lemma RenameProjects(h: string -> string, node: string, live: RowMap, fs: seq<File>, shas: bool, f: File, g: File, e: Entry)
    requires Sim(live, fs, shas) && DistinctIDs(live) && WellKeyed(live)
    requires f.path in live && live[f.path] == f && g.path !in live && g.path != "" && SameRow(g, f.(path := g.path), true)
    requires e.opType == OpType.Move && e.blobRefs == [f.id] && ArgOf(e, To) == g.path && ArgOf(e, MovedTo) == "" && ArgOf(e, DestPath) == ""
    ensures Sim((live - {f.path})[g.path := g], ProjectOp(h, fs, e, node), shas)
  {
    SimFindID(live, fs, shas, f.id);
    SimRemove(live, fs, shas, f.path);
    var r := FindIDIn(fs, f.id).value;
    SimUpsert(live - {f.path}, RemoveAll(fs, f.path), shas, g, r.(path := g.path, updatedAt := e.createdAt, lastScanned := e.createdAt));
  }

  lemma SetModeProjects(h: string -> string, node: string, live: RowMap, fs: seq<File>, shas: bool, path: string, g: File, e: Entry)
    requires Sim(live, fs, shas) && WellKeyed(live) && path in live
    requires g.path == path && g.id == live[path].id && g.genesis == live[path].genesis && g.syncMode != "" && g.sha != ""
    requires e.opType == OpType.SyncMode && ArgOf(e, Arg.Path) == path && ArgOf(e, ToMode) == g.syncMode && ArgOf(e, NewSha256) == g.sha
    ensures Sim(live[path := g], ProjectOp(h, fs, e, node), shas)
  {
    SimLookup(live, fs, shas, path);
    var r := Lookup(fs, path).value;
    var scanned := ReadInteger(ArgOf(e, LastScannedAt));
    SimUpsert(live, fs, shas, g, r.(syncMode := g.syncMode, sha := g.sha, updatedAt := e.createdAt,
                                    lastScanned := if scanned.Some? then scanned.value else r.lastScanned));
  }

  lemma RestoreArgs(f: File, id: string, g: Genesis, who: Who)
    ensures var e := RestoreEntry(f, id, g, who);
            ArgOf(e, Arg.Path) == f.path && ArgOf(e, RestoredId) == id && GenesisFromArgs(e) == g
  {
  }

  lemma RestoreProjects(h: string -> string, node: string, live: RowMap, fs: seq<File>, shas: bool, path: string, id: string, g: Genesis, e: Entry, f: File)
    requires Sim(live, fs, shas) && WellKeyed(live) && path in live && path != "" && id != "" && GoodHash(h) && id == MintID(h, g)
    requires e.opType == OpType.Restore && ArgOf(e, Arg.Path) == path && ArgOf(e, RestoredId) == id && GenesisFromArgs(e) == g
    requires SameRow(f, live[path].(id := id, genesis := g), true)
    ensures Sim(live[path := f], ProjectOp(h, fs, e, node), shas)
  {
    SimLookup(live, fs, shas, path);
    MintedVerifies(h, g);
    SimUpsert(live, fs, shas, f, Lookup(fs, path).value.(id := id, genesis := g, updatedAt := e.createdAt));
  }

  lemma EditProjects(h: string -> string, node: string, live: RowMap, fs: seq<File>, shas: bool, f: File, g: File, e: Entry)
    requires Sim(live, fs, shas) && WellKeyed(live) && f.path in live && live[f.path] == f && g.sha != "" && SameRow(g, f.(sha := g.sha), true)
    requires e.opType == OpType.Scan && ArgOf(e, Arg.Path) == f.path && ArgOf(e, NewSha256) == g.sha
    ensures Sim(live[f.path := g], ProjectOp(h, fs, e, node), shas)
  {
    SimLookup(live, fs, shas, f.path);
    SimUpsert(live, fs, shas, g, Lookup(fs, f.path).value.(sha := g.sha, updatedAt := e.createdAt, lastScanned := e.createdAt));
  }

  lemma ArrivalArgs(m: Move)
    ensures var e := DstIntent(m);
            && ArgOf(e, MovedTo) == "" && ArgOf(e, DestPath) == m.destPath && ArgOf(e, Id) == m.file.id && ArgOf(e, ContentSha256) == m.file.sha
            && ArgOf(e, SyncModeArg) == m.file.syncMode && GenesisFromArgs(e).originalPath == m.file.genesis.originalPath
            && GenesisFromArgs(e).ingestOpID == m.file.genesis.ingestOpID && GenesisFromArgs(e).originNode == m.file.genesis.originNode
  {
  }

  lemma ArrivalProjects(h: string -> string, node: string, live: RowMap, fs: seq<File>, shas: bool, e: Entry, f: File)
    requires Sim(live, fs, shas) && f.path != "" && f.id != "" && f.syncMode != ""
    requires e.opType == OpType.Move && ArgOf(e, MovedTo) == "" && ArgOf(e, DestPath) == f.path && ArgOf(e, Id) == f.id
    requires ArgOf(e, SyncModeArg) == f.syncMode && GenesisFromArgs(e) == f.genesis && (shas ==> ArgOf(e, ContentSha256) == f.sha)
    ensures Sim(live[f.path := f], ProjectOp(h, fs, e, node), shas)
  {
    SimUpsert(live, fs, shas, f,
              File(f.id, f.genesis, ArgOf(e, ContentSha256), f.path, f.syncMode, ParseSize(ArgOf(e, Size)), e.createdAt, e.createdAt, e.createdAt));
  }

  /** The journal of an arrival has one sha for two purposes: the content that moved, and the birth
      record. A rebuilt row gets its birth record right exactly when the content never changed. */
  lemma ArrivalRebuildsGenesisIff(h: string -> string, node: string, fs: seq<File>, m: Move)
    requires m.destPath != "" && m.file.id != ""
    ensures var r := Lookup(ProjectOp(h, fs, DstIntent(m), node), m.destPath);
            r.Some? && r.value.id == m.file.id && (r.value.genesis == m.file.genesis <==> m.file.sha == m.file.genesis.contentSha)
  {
    var e := DstIntent(m);
    ArrivalArgs(m);
    UpsertLooksUp(fs, File(m.file.id, GenesisFromArgs(e), m.file.sha, m.destPath, SyncModeOrManual(m.file.syncMode), ParseSize(ArgOf(e, Size)), e.createdAt, e.createdAt, e.createdAt), m.destPath);
  }

  lemma RenameArgs(member: string, f: File, to: string, who: Who)
    ensures var e := RenameEntry(member, f, to, who); ArgOf(e, To) == to && ArgOf(e, MovedTo) == "" && ArgOf(e, DestPath) == ""
  {
  }

  lemma SetModeArgs(f: File, mode: string, sha: string, scanned: int, who: Who)
    ensures var e := SetModeEntry(f, mode, sha, scanned, who); ArgOf(e, Arg.Path) == f.path && ArgOf(e, ToMode) == mode && ArgOf(e, NewSha256) == sha
  {
  }

  lemma RenameDid(h: string -> string, node: string, live: RowMap, fs: seq<File>, path: string, to: string, who: Who, shas: bool)
    requires RowsOk(h, live) && Sim(live, fs, shas) && to != "" && RenamePlan(node, live, path, to, who).Some?
    ensures var p := RenamePlan(node, live, path, to, who).value; Sim(p.rows, ProjectOp(h, fs, p.intent, node), shas)
  {
    var f := live[path];
    RenameArgs(node, f, to, who);
    RenameProjects(h, node, live, fs, shas, f, f.(path := to, updatedAt := who.now), RenameEntry(node, f, to, who));
  }

  lemma RmDid(h: string -> string, node: string, live: RowMap, fs: seq<File>, path: string, who: Who, shas: bool)
    requires RowsOk(h, live) && Sim(live, fs, shas) && path in live
    ensures var p := RmPlan(live, path, who).value; Sim(p.rows, ProjectOp(h, fs, p.intent, node), shas)
  {
    SimRemove(live, fs, shas, path);
    assert ArgOf(RmEntry(live[path], who), Arg.Path) == path;
  }

  lemma SetModeDid(h: string -> string, node: string, live: RowMap, objects: map<string, string>, fs: seq<File>, path: string, mode: string, who: Who, shas: bool)
    requires RowsOk(h, live) && Sim(live, fs, shas) && SetModePlan(live, objects, path, mode, who).Some?
    requires live[path].sha != "" && forall k :: k in objects ==> objects[k] != ""
    ensures var p := SetModePlan(live, objects, path, mode, who).value; Sim(p.rows, ProjectOp(h, fs, p.intent, node), shas)
  {
    var p := SetModePlan(live, objects, path, mode, who).value;
    var g := p.rows[path];
    SetModeArgs(live[path], mode, g.sha, g.lastScanned, who);
    SetModeProjects(h, node, live, fs, shas, path, g, p.intent);
  }

  lemma RestoreDid(h: string -> string, node: string, live: RowMap, fs: seq<File>, path: string, id: string, g: Genesis, who: Who, shas: bool)
    requires GoodHash(h) && RowsOk(h, live) && Sim(live, fs, shas) && path != "" && id != "" && RestorePlan(h, live, path, id, g, who).Some?
    ensures var p := RestorePlan(h, live, path, id, g, who).value; Sim(p.rows, ProjectOp(h, fs, p.intent, node), shas)
  {
    RestoreArgs(live[path], id, g, who);
    RestoreProjects(h, node, live, fs, shas, path, id, g, RestoreEntry(live[path], id, g, who), live[path].(id := id, genesis := g, updatedAt := who.now));
  }

  lemma DidProjects(h: string -> string, node: string, s: Node, fs: seq<File>, c: Command, who: Who, shas: bool)
    requires GoodHash(h) && s.cat.Some? && RowsOk(h, s.cat.value) && Sim(s.cat.value, fs, shas) && DidOk(h, node, s, c, who)
    ensures var p := PlanOf(h, node, s, c, who).value; Sim(p.rows, ProjectOp(h, fs, p.intent, node), shas)
  {
    var live := s.cat.value;
    match c
    case PutFile(path, sha, size) => IngestProjects(h, node, live, fs, shas, path, sha, size, who);
    case Rename(path, to) => RenameDid(h, node, live, fs, path, to, who, shas);
    case Rm(path) => RmDid(h, node, live, fs, path, who, shas);
    case SetMode(path, mode) => SetModeDid(h, node, live, s.objects, fs, path, mode, who, shas);
    case RestoreID(path, id, g) => RestoreDid(h, node, live, fs, path, id, g, who, shas);
  }

  lemma ScanArgs(h: string -> string, node: string, ch: Change, who: Who)
    requires NeedsIntent(ch)
    ensures var e := ScanEntry(h, node, ch, who);
      && (ch.Edited? ==> ArgOf(e, Arg.Path) == ch.file.path && ArgOf(e, NewSha256) == ch.sha)
      && (ch.Moved? ==> ArgOf(e, To) == ch.path && ArgOf(e, MovedTo) == "" && ArgOf(e, DestPath) == "")
      && (ch.Deleted? ==> ArgOf(e, Arg.Path) == ch.file.path)
  {
  }

  lemma ReconciledProjects(h: string -> string, node: string, live: RowMap, fs: seq<File>, ch: Change, who: Who, shas: bool)
    requires RowsOk(h, live) && Sim(live, fs, shas) && NeedsIntent(ch)
    requires ch.Added? ==> BirthOk(node, ch.path, ch.sha, live, who)
    requires !ch.Added? ==> ch.file.path in live && live[ch.file.path] == ch.file
    requires ch.Edited? ==> ch.sha != ""
    requires ch.Moved? ==> ch.path !in live && ch.path != ""
    ensures Sim(Mutate(h, node, ch, who, live), ProjectOp(h, fs, ScanEntry(h, node, ch, who), node), shas)
  {
    var e := ScanEntry(h, node, ch, who);
    ScanArgs(h, node, ch, who);
    match ch
    case Added(path, sha, size) => IngestProjects(h, node, live, fs, shas, path, sha, size, who);
    case Edited(f, sha, size) => EditProjects(h, node, live, fs, shas, f, f.(sha := sha, size := size, updatedAt := who.now, lastScanned := who.now), e);
    case Moved(f, path, sha, size) => RenameProjects(h, node, live, fs, shas, f, f.(path := path, updatedAt := who.now, lastScanned := who.now), e);
    case Deleted(f) => SimRemove(live, fs, shas, f.path);
  }

  lemma DepartedArgs(m: Move)
    ensures ArgOf(SrcIntent(m), MovedTo) == m.dst
  {
  }

  lemma DepartedProjects(h: string -> string, node: string, live: RowMap, fs: seq<File>, path: string, e: Entry, shas: bool)
    requires RowsOk(h, live) && Sim(live, fs, shas) && path in live
    requires e.opType == OpType.Move && ArgOf(e, MovedTo) != "" && e.blobRefs == [live[path].id]
    ensures Sim(live - {path}, ProjectOp(h, fs, e, node), shas)
  {
    SimRemoveIDs(live, fs, shas, e.blobRefs);
    WithoutOne(live, path);
  }

  lemma WithoutOne(live: RowMap, path: string)
    requires DistinctIDs(live) && path in live
    ensures WithoutIDs(live, [live[path].id]) == live - {path}
  {
    var a, b := WithoutIDs(live, [live[path].id]), live - {path};
    assert forall p :: p in live && live[p].id == live[path].id ==> p == path;
    assert forall p :: p in a <==> p in b;
  }

  lemma CollectedProjects(h: string -> string, node: string, live: RowMap, fs: seq<File>, gone: seq<string>, ids: seq<string>, who: Who, shas: bool)
    requires RowsOk(h, live) && Sim(live, fs, shas) && Aligned(live, gone, ids)
    ensures Sim(Without(live, gone), ProjectOp(h, fs, GcEntry(ids, who), node), shas)
  {
    SimRemoveIDs(live, fs, shas, ids);
    assert WithoutIDs(live, ids) == Without(live, gone);
  }

  lemma SiteProjects(h: string -> string, node: string, s: Node, fs: seq<File>, d: Completed, shas: bool)
    requires GoodHash(h) && s.cat.Some? && RowsOk(h, s.cat.value) && Sim(s.cat.value, fs, shas) && Admissible(h, node, s, d)
    requires Site(h, node, s, d).Some? && (shas ==> Faithful(d))
    ensures var p := Site(h, node, s, d).value; Sim(p.rows, ProjectOp(h, fs, p.intent, node), shas)
  {
    var live := s.cat.value;
    match d
    case Did(c, who) => DidProjects(h, node, s, fs, c, who, shas);
    case Departed(m) =>
      DepartedArgs(m);
      DepartedProjects(h, node, live, fs, m.file.path, SrcIntent(m), shas);
    case Arrival(m, hash, size) =>
      ArrivalArgs(m);
      ArrivalProjects(h, node, live, fs, shas, DstIntent(m), Arrived(m, hash, size));
    case Reconciled(ch, who) => ReconciledProjects(h, node, live, fs, ch, who, shas);
    case Collected(gone, ids, who) => CollectedProjects(h, node, live, fs, gone, ids, who, shas);
  }

  lemma ScanRowsOk(h: string -> string, node: string, live: RowMap, ch: Change, who: Who)
    requires GoodHash(h) && RowsOk(h, live) && NeedsIntent(ch)
    requires ch.Added? ==> BirthOk(node, ch.path, ch.sha, live, who)
    requires !ch.Added? ==> ch.file.path in live && live[ch.file.path] == ch.file
    ensures RowsOk(h, Mutate(h, node, ch, who, live))
  {
    var out := Mutate(h, node, ch, who, live);
    match ch
    case Added(path, sha, size) =>
      UnbornMintsNewID(h, live, Genesis(sha, path, who.opID, node));
      AddedRowOk(h, live, out[path]);
    case Edited(f, _, _) => KeptRowOk(h, live, f.path, out[f.path]);
    case Moved(f, path, _, _) => KeptRowOk(h, live, f.path, out[path]);
    case Deleted(f) => RemovedRowOk(h, live, f.path);
  }

  lemma SweptRowsOk(h: string -> string, live: RowMap, shas: seq<string>)
    requires RowsOk(h, live)
    ensures RowsOk(h, Without(live, shas))
  {
  }

  lemma SiteRowsOk(h: string -> string, node: string, s: Node, d: Completed)
    requires GoodHash(h) && s.cat.Some? && RowsOk(h, s.cat.value) && Admissible(h, node, s, d) && Site(h, node, s, d).Some?
    ensures RowsOk(h, Site(h, node, s, d).value.rows)
  {
    var live := s.cat.value;
    match d
    case Did(c, who) => CommandKeepsRows(h, node, s, c, who);
    case Departed(m) => RemovedRowOk(h, live, m.file.path);
    case Arrival(m, hash, size) => AddedRowOk(h, live, Arrived(m, hash, size));
    case Reconciled(ch, who) => ScanRowsOk(h, node, live, ch, who);
    case Collected(shas, ids, who) => SweptRowsOk(h, live, shas);
  }

  // ---- whole histories -------------------------------------------------------------------

  lemma {:induction false} WritesKeepLog(n: Node, ws: seq<ObjectWrite>)
    ensures AfterWrites(n, ws).log == n.log
    decreases |ws|
  {
    if ws != [] {
      WritesKeepLog(Write(n, ws[0]), ws[1..]);
    }
  }

  /** A replay does not look at where an entry stands in the chain. */
  lemma ReplayIgnoresPlace(h: string -> string, fs: seq<File>, v: LogView, e: Entry, node: string)
    ensures ProjectOp(h, fs, Candidate(v, e), node) == ProjectOp(h, fs, e, node)
  {
    var c := Candidate(v, e);
    assert forall k :: ArgOf(c, k) == ArgOf(e, k);
    assert FromIngestEntry(c, node) == FromIngestEntry(e, node);
    assert GenesisFromArgs(c) == GenesisFromArgs(e);
  }

  lemma ProjectSnoc(h: string -> string, recs: seq<Rec>, r: Rec, node: string)
    ensures Project(h, recs + [r], node) == if r.state == Done then ProjectOp(h, Project(h, recs, node), r.entry, node) else Project(h, recs, node)
  {
    assert (recs + [r])[..|recs|] == recs;
  }

  /** An entry that was noted leaves a replay where it was. */
  lemma NotedProjects(h: string -> string, v: LogView, e: Entry, failed: bool, node: string)
    requires FreshOp(v, e)
    ensures var w := if failed then MarkOp(Append(v, e).1, e.opID, false) else Append(v, e).1;
            Project(h, w.recs, node) == Project(h, v.recs, node)
  {
    AppendFresh(v, e);
    var a := AppendRec(v, e);
    var n := |v.recs|;
    ProjectSnoc(h, v.recs, a.recs[n], node);
    if failed {
      assert a.recs[n].entry.opID == e.opID;
      assert forall k :: 0 <= k < n ==> a.recs[k].entry.opID != e.opID;
      assert FindOp(a, e.opID) == Some(n);
      var w := MarkRec(a, n, false);
      assert w.recs == v.recs + [w.recs[n]];
      ProjectSnoc(h, v.recs, w.recs[n], node);
    }
  }

  ghost predicate InStep(h: string -> string, node: string, s: Node, shas: bool) {
    s.cat.Some? && RowsOk(h, s.cat.value) && Sim(s.cat.value, Project(h, s.log.recs, node), shas)
  }

  lemma PlanKeepsStep(h: string -> string, node: string, s: Node, p: Plan, shas: bool)
    requires InStep(h, node, s, shas) && FreshOp(s.log, p.intent) && RowsOk(h, p.rows)
    requires Sim(p.rows, ProjectOp(h, Project(h, s.log.recs, node), p.intent, node), shas)
    ensures InStep(h, node, Finish(Persist(AfterWrites(Intend(s, p.intent), p.writes), p.rows), p.intent.opID, true), shas)
  {
    WritesKeepLog(Intend(s, p.intent), p.writes);
    CompletedOp(s.log, p.intent);
    ProjectSnoc(h, s.log.recs, Rec(Candidate(s.log, p.intent), Done), node);
    ReplayIgnoresPlace(h, Project(h, s.log.recs, node), s.log, p.intent, node);
  }

  lemma TouchKeepsStep(h: string -> string, node: string, s: Node, f: File, g: File, shas: bool)
    requires InStep(h, node, s, shas) && f.path in s.cat.value && s.cat.value[f.path] == f && SameRow(g, f, true)
    ensures InStep(h, node, Persist(s, s.cat.value[f.path := g]), shas)
  {
    SimTouch(s.cat.value, Project(h, s.log.recs, node), shas, f, g);
    RowsTouch(h, s.cat.value, f, g);
  }

  lemma SimTouch(live: RowMap, fs: seq<File>, shas: bool, f: File, g: File)
    requires Sim(live, fs, shas) && f.path in live && live[f.path] == f && SameRow(g, f, true)
    ensures Sim(live[f.path := g], fs, shas)
  {
  }

  lemma RowsTouch(h: string -> string, live: RowMap, f: File, g: File)
    requires RowsOk(h, live) && f.path in live && live[f.path] == f && SameRow(g, f, true)
    ensures RowsOk(h, live[f.path := g])
  {
  }

  lemma SiteIsFresh(h: string -> string, node: string, s: Node, d: Completed)
    requires Admissible(h, node, s, d) && Site(h, node, s, d).Some?
    ensures FreshOp(s.log, Site(h, node, s, d).value.intent)
  {
  }

  /** One completed operation keeps the live catalog and the replay of the log in step. */
  lemma CompleteKeepsStep(h: string -> string, node: string, s: Node, d: Completed, shas: bool)
    requires GoodHash(h) && InStep(h, node, s, shas) && Admissible(h, node, s, d) && (shas ==> Faithful(d))
    ensures InStep(h, node, Complete(h, node, s, d), shas)
  {
    var site := Site(h, node, s, d);
    if site.Some? {
      SiteProjects(h, node, s, Project(h, s.log.recs, node), d, shas);
      SiteRowsOk(h, node, s, d);
      SiteIsFresh(h, node, s, d);
      PlanKeepsStep(h, node, s, site.value, shas);
    } else {
      match d
      case Noted(e, failed) => NotedProjects(h, s.log, e, failed, node);
      case Reconciled(ch, who) =>
        if ch.Verified? {
          TouchKeepsStep(h, node, s, ch.file, ch.file.(lastScanned := who.now), shas);
        }
      case _ =>
    }
  }

  function History(h: string -> string, node: string, s: Node, ds: seq<Completed>): Node
    decreases |ds|
  {
    if ds == [] then s else History(h, node, Complete(h, node, s, ds[0]), ds[1..])
  }

  ghost predicate AllAdmissible(h: string -> string, node: string, s: Node, ds: seq<Completed>)
    decreases |ds|
  {
    ds != [] ==> Admissible(h, node, s, ds[0]) && AllAdmissible(h, node, Complete(h, node, s, ds[0]), ds[1..])
  }

  /** The catalog is a projection of the log: after any history of freshly journaled, completed
      operations the replay of the log has exactly the live paths, with the live ids, birth records
      and modes, and with the live shas unless drifted files have arrived. Ids stay distinct. */
  lemma {:induction false} CatalogIsProjection(h: string -> string, node: string, s: Node, ds: seq<Completed>, shas: bool)
    requires GoodHash(h) && InStep(h, node, s, shas) && AllAdmissible(h, node, s, ds) && (shas ==> forall d :: d in ds ==> Faithful(d))
    ensures InStep(h, node, History(h, node, s, ds), shas)
    decreases |ds|
  {
    if ds != [] {
      assert ds[0] in ds;
      CompleteKeepsStep(h, node, s, ds[0], shas);
      CatalogIsProjection(h, node, Complete(h, node, s, ds[0]), ds[1..], shas);
    }
  }

  /** A new member starts in step. */
  lemma EmptyInStep(h: string -> string, node: string)
    ensures InStep(h, node, EMPTY_NODE, true)
  {
  }

  /** The two ends of a cross-member move are two completed operations: a finished move leaves each
      member with the catalog and log of its own departure or arrival. */
  lemma MoveIsDepartureAndArrival(h: string -> string, a: string, b: string, s: Pair, m: Move, size: int)
    requires Moves.Fresh(s, m)
    ensures var p := Phase(s, m, 8, size);
      && Complete(h, a, s.src, Departed(m)).cat == p.src.cat && Complete(h, a, s.src, Departed(m)).log == p.src.log
      && Complete(h, b, s.dst, Arrival(m, Carried(s, m), size)).cat == p.dst.cat && Complete(h, b, s.dst, Arrival(m, Carried(s, m), size)).log == p.dst.log
  {
    WritesKeepLog(Intend(s.src, SrcIntent(m)), []);
    WritesKeepLog(Intend(s.dst, DstIntent(m)), [Upload(Carried(s, m), Carried(s, m))]);
  }

  // ---- a scan is a history ---------------------------------------------------------------

  lemma {:induction false} MarkAllAppend(v: LogView, e: Entry, owed: seq<string>, k: nat)
    requires !HasOp(v, e.opID) && !Blocked(v, e.blobRefs) && k <= |owed| && e.opID !in owed
    ensures MarkAll(Append(v, e).1, owed, k) == Append(MarkAll(v, owed, k), e).1
    ensures !HasOp(MarkAll(v, owed, k), e.opID) && !Blocked(MarkAll(v, owed, k), e.blobRefs)
  {
    if k > 0 {
      MarkAllAppend(v, e, owed, k - 1);
      assert owed[k - 1] in owed;
      MarkAppendCommute(MarkAll(v, owed, k - 1), e, owed[k - 1]);
    }
  }

  lemma {:induction false} MarkAllPrefix(v: LogView, owed: seq<string>, id: string, k: nat)
    requires k <= |owed|
    ensures MarkAll(v, owed + [id], k) == MarkAll(v, owed, k)
  {
    if k > 0 {
      MarkAllPrefix(v, owed, id, k - 1);
    }
  }

  /** What an apply would leave if it stopped here and settled what it owes. */
  function SettledNode(a: Applying, objects: map<string, string>): Node {
    Node(Some(a.rows), MarkAll(a.log, a.owed, |a.owed|), objects)
  }

  /** The change could be journaled, under an op id this apply has not used. */
  predicate Journalable(h: string -> string, node: string, a: Applying, ch: Change, who: Who) {
    NeedsIntent(ch) ==> Append(a.log, ScanEntry(h, node, ch, who)).0.Fresh? && who.opID !in a.owed
  }

  lemma ApplyOneCompletes(h: string -> string, node: string, a: Applying, ch: Change, who: Who, objects: map<string, string>)
    requires !ch.Suspect? && Journalable(h, node, a, ch, who)
    ensures SettledNode(ApplyOne(h, node, a, ch, who), objects) == Complete(h, node, SettledNode(a, objects), Reconciled(ch, who))
  {
    if NeedsIntent(ch) {
      var e := ScanEntry(h, node, ch, who);
      var n := |a.owed|;
      assert e.opID == who.opID;
      MarkAllAppend(a.log, e, a.owed, n);
      MarkAllPrefix(Append(a.log, e).1, a.owed, who.opID, n);
    }
  }

  function Reconciliations(chs: seq<Change>, whos: seq<Who>, k: nat): seq<Completed>
    requires |chs| == |whos| && k <= |chs|
  {
    if k == 0 then []
    else Reconciliations(chs, whos, k - 1) + if chs[k - 1].Suspect? then [] else [Reconciled(chs[k - 1], whos[k - 1])]
  }

  lemma {:induction false} HistorySnoc(h: string -> string, node: string, s: Node, ds: seq<Completed>, d: Completed)
    ensures History(h, node, s, ds + [d]) == Complete(h, node, History(h, node, s, ds), d)
    decreases |ds|
  {
    if ds == [] {
      assert ds + [d] == [d] && [d][1..] == [];
      assert History(h, node, s, [d]) == History(h, node, Complete(h, node, s, d), []);
    } else {
      assert (ds + [d])[1..] == ds[1..] + [d];
      HistorySnoc(h, node, Complete(h, node, s, ds[0]), ds[1..], d);
    }
  }

  function Scanned(h: string -> string, node: string, s: Node, chs: seq<Change>, whos: seq<Who>, k: nat): Applying
    requires s.cat.Some? && |chs| == |whos| && k <= |chs|
  {
    ApplyUpTo(h, node, Applying(s.log, s.cat.value, [], [], []), chs, whos, k)
  }

  /** After k changes: the member as if each of them had been completed by itself. */
  ghost predicate ScannedOneByOne(h: string -> string, node: string, s: Node, chs: seq<Change>, whos: seq<Who>, k: nat)
    requires s.cat.Some? && |chs| == |whos| && k <= |chs|
  {
    SettledNode(Scanned(h, node, s, chs, whos, k), s.objects) == History(h, node, s, Reconciliations(chs, whos, k))
  }

  lemma OneMoreChange(h: string -> string, node: string, s: Node, chs: seq<Change>, whos: seq<Who>, k: nat)
    requires s.cat.Some? && |chs| == |whos| && k < |chs| && ScannedOneByOne(h, node, s, chs, whos, k)
    requires Journalable(h, node, Scanned(h, node, s, chs, whos, k), chs[k], whos[k])
    ensures ScannedOneByOne(h, node, s, chs, whos, k + 1)
  {
    var a, ds := Scanned(h, node, s, chs, whos, k), Reconciliations(chs, whos, k);
    if chs[k].Suspect? {
      assert ds + [] == ds;
    } else {
      ApplyOneCompletes(h, node, a, chs[k], whos[k], s.objects);
      HistorySnoc(h, node, s, ds, Reconciled(chs[k], whos[k]));
    }
  }

  /** The scan journals everything first and marks it done at the end; that leaves exactly the member
      that completing its changes one after the other would have left. */
  lemma ScanIsHistory(h: string -> string, node: string, s: Node, chs: seq<Change>, whos: seq<Who>)
    requires s.cat.Some? && |chs| == |whos|
    requires forall i :: 0 <= i < |chs| ==> Journalable(h, node, Scanned(h, node, s, chs, whos, i), chs[i], whos[i])
    ensures SettledNode(Scanned(h, node, s, chs, whos, |chs|), s.objects) == History(h, node, s, Reconciliations(chs, whos, |chs|))
  {
    for i := 0 to |chs|
      invariant ScannedOneByOne(h, node, s, chs, whos, i)
    {
      OneMoreChange(h, node, s, chs, whos, i);
    }
  }

  // ---- a bootstrap is a history ----------------------------------------------------------

  /** The additions a plan stands for. */
  function Additions(b: Job, k: nat): seq<Completed>
    requires k <= |b.plan|
  {
    if k == 0 then [] else Additions(b, k - 1) + [Reconciled(Addition(b, k - 1), Issuer(b, k - 1))]
  }

  function Addition(b: Job, i: nat): Change
    requires i < |b.plan|
  {
    Added(b.plan[i].rel, b.plan[i].sha, b.plan[i].size)
  }

  function Issuer(b: Job, i: nat): Who
    requires i < |b.plan|
  {
    Who(OpOf(b, i), b.actor, b.now)
  }

  /** The plan names real files, none of which the log has seen, on a node with a name. */
  ghost predicate NewPlan(h: string -> string, b: Job, v: LogView) {
    && b.node != "" && b.mint == (g => MintID(h, g))
    && forall c :: c in b.plan ==> IsHex64(c.sha) && c.rel != "" && b.op(c.rel) != "" && !RecordedIn(v, b.op(c.rel)) && 0 <= c.size <= MAX_INT64
  }

  lemma NewEntryIsScanEntry(h: string -> string, b: Job, v: LogView, i: nat)
    requires NewPlan(h, b, v) && i < |b.plan|
    ensures NewEntry(b, b.plan[i]) == ScanEntry(h, b.node, Addition(b, i), Issuer(b, i))
  {
  }

  lemma PlannedRowIsNewRow(h: string -> string, b: Job, v: LogView, i: nat)
    requires NewPlan(h, b, v) && i < |b.plan|
    ensures Row(b, v, b.plan[i]) == NewRow(h, b.node, b.plan[i].rel, b.plan[i].sha, b.plan[i].size, Issuer(b, i))
  {
    var c := b.plan[i];
    assert c in b.plan;
    var e := NewEntry(b, c);
    assert EntryFor(b, v, c) == e;
    assert ArgOf(e, ContentSha256) == c.sha && ArgOf(e, Arg.Path) == c.rel && ArgOf(e, SyncModeArg) == MANUAL && ArgOf(e, Size) == Integer(c.size);
    IntegerReadsBack(c.size);
  }

  lemma OneAddition(h: string -> string, b: Job, v: LogView, s: Node, i: nat)
    requires NewPlan(h, b, v) && i < |b.plan| && s.cat.Some?
    ensures Complete(h, b.node, s, Reconciled(Addition(b, i), Issuer(b, i)))
         == Node(Some(s.cat.value[b.plan[i].rel := Row(b, v, b.plan[i])]), CompleteOne(s.log, NewEntry(b, b.plan[i])), s.objects)
  {
    NewEntryIsScanEntry(h, b, v, i);
    PlannedRowIsNewRow(h, b, v, i);
  }

  /** The first k files taken in: the member as if their additions had been completed one by one. */
  ghost predicate AddedOneByOne(h: string -> string, b: Job, s: Node, k: nat)
    requires s.cat.Some? && k <= |b.plan|
  {
    History(h, b.node, s, Additions(b, k)) == Node(Some(Ingested(b, s.log, s.cat.value, k)), CompleteAll(s.log, PlanEntries(b), k), s.objects)
  }

  lemma OneMoreAddition(h: string -> string, b: Job, s: Node, k: nat)
    requires s.cat.Some? && NewPlan(h, b, s.log) && k < |b.plan| && AddedOneByOne(h, b, s, k)
    ensures AddedOneByOne(h, b, s, k + 1)
  {
    var t := History(h, b.node, s, Additions(b, k));
    HistorySnoc(h, b.node, s, Additions(b, k), Reconciled(Addition(b, k), Issuer(b, k)));
    OneAddition(h, b, s.log, t, k);
    IngestedStep(b, s.log, s.cat.value, k);
  }

  /** An uninterrupted bootstrap of files the log has not seen leaves exactly the member that completing
      their additions one after the other would have left. With ResumeSameOutcome, so does one that
      crashed and was run again, any number of times. */
  lemma BootstrapIsHistory(h: string -> string, b: Job, s: Node)
    requires s.cat.Some? && NewPlan(h, b, s.log)
    ensures History(h, b.node, s, Additions(b, |b.plan|)) == Outcome(b, s)
  {
    for i := 0 to |b.plan|
      invariant AddedOneByOne(h, b, s, i)
    {
      OneMoreAddition(h, b, s, i);
    }
  }

  // ---- retrying a put --------------------------------------------------------------------

  lemma IngestRow(h: string -> string, node: string, path: string, sha: string, size: int, who: Who)
    requires path != "" && IsHex64(sha) && who.opID != "" && node != ""
    ensures var row := RowFromEntry(h, IngestEntry(h, node, path, sha, size, who), node);
            row.Some? && row.value.path == path && row.value.id == MintID(h, Genesis(sha, path, who.opID, node)) && row.value.sha == sha
  {
  }

  lemma RetriedPutRows(h: string -> string, node: string, fs: seq<File>, path: string, sha: string, size: int, who: Who, now: int)
    requires BirthOk(node, path, sha, Rows(fs), who)
    ensures var gs := ApplyOp(h, fs, IngestEntry(h, node, path, sha, size, who), node, now);
      && gs.Some? && path in Rows(gs.value)
      && Rows(gs.value)[path].id == MintID(h, Genesis(sha, path, who.opID, node)) && Rows(gs.value)[path].sha == sha
      && Rows(gs.value) - {path} == Rows(fs)
  {
    var e := IngestEntry(h, node, path, sha, size, who);
    IngestRow(h, node, path, sha, size, who);
    var row := RowFromEntry(h, e, node).value;
    assert ApplyOp(h, fs, e, node, now) == Some(UpsertAt(fs, row));
    UpsertRows(fs, row);
    var m := Rows(fs);
    assert m[path := row] - {path} == m;
  }

  /** A retry finishes a put from its journal entry alone and never looks at the bytes. It keeps the
      write-ahead invariant exactly when the put had got as far as uploading them. */
  lemma RetriedPutCoveredIff(h: string -> string, node: string, s: Node, fs: seq<File>, path: string, sha: string, size: int, who: Who, now: int, backed: set<string>)
    requires s.cat == Some(Rows(fs)) && BirthOk(node, path, sha, Rows(fs), who) && WriteAhead(s, backed)
    requires FreshOp(s.log, IngestEntry(h, node, path, sha, size, who))
    requires var id := MintID(h, Genesis(sha, path, who.opID, node)); id in backed && !Protected(s.log, id)
    ensures var e := IngestEntry(h, node, path, sha, size, who);
            WriteAhead(Finish(Persist(Intend(s, e), Rows(ApplyOp(h, fs, e, node, now).value)), who.opID, true), backed) <==> sha in s.objects
  {
    var e := IngestEntry(h, node, path, sha, size, who);
    RetriedPutRows(h, node, fs, path, sha, size, who, now);
    var rows := Rows(ApplyOp(h, fs, e, node, now).value);
    var x := Finish(Persist(Intend(s, e), rows), who.opID, true);
    if sha in s.objects {
      forall q | q in rows && rows[q].id in backed && rows[q].sha !in s.objects
        ensures Protected(x.log, rows[q].id)
      {
        assert q != path && q in rows - {path} && rows[q] == Rows(fs)[q];
        OtherOpsKeepProtection(s, e, rows[q].id);
      }
    } else {
      var id := rows[path].id;
      if Protected(x.log, id) {
        FinishLosesProtection(Intend(s, e).log, who.opID, id);
      }
      OtherIntentsProtectNothing(s, e, id);
    }
  }
}
