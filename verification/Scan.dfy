/** Reconciling the catalog with the files on disk: classify every difference, pair deletions with
    additions into moves, journal and apply what is safe. */
module Scan {
  import opened Wrappers
  import opened Text
  import opened Wal
  import opened Catalogs
  import opened Identity
  import opened Commands

  /** A file on disk, as a walk and a hash of it report it. */
  datatype DiskFile = DiskFile(sha: string, size: int, mtime: int)

  type Disk = map<string, DiskFile>

  /** One reconciled difference. file is the catalog row it concerns. */
  datatype Change =
    | Added(path: string, sha: string, size: int)
    | Edited(file: File, sha: string, size: int)
    | Suspect(file: File, sha: string, size: int)
    | Moved(file: File, path: string, sha: string, size: int)
    | Deleted(file: File)
    | Verified(file: File, sha: string, size: int)

  predicate Touched(f: File, d: DiskFile) {
    d.size != f.size || d.mtime > f.lastScanned
  }

  /** Bytes that drifted with no sign of an edit may have rotted: report, never absorb. */
  function ClassifyDrift(f: File, d: DiskFile): Change {
    if Touched(f, d) then Edited(f, d.sha, d.size) else Suspect(f, d.sha, d.size)
  }

  /** What a catalog row that is still on disk reports, if anything. */
  function RowChange(f: File, d: DiskFile, paranoid: bool): Option<Change> {
    if !paranoid && !Touched(f, d) then None
    else if d.sha == f.sha then Some(Verified(f, d.sha, d.size))
    else Some(ClassifyDrift(f, d))
  }

  // ---- what a diff should contain --------------------------------------------------------

  predicate Gone(rows: RowMap, disk: Disk, f: File) {
    f.path in rows && rows[f.path] == f && f.syncMode != GIT && f.path !in disk
  }

  predicate New(rows: RowMap, disk: Disk, path: string) {
    path in disk && path !in rows
  }

  /** A deletion and an addition of the same bytes, with no other candidate on either side. */
  predicate Pairs(rows: RowMap, disk: Disk, f: File, path: string) {
    && Gone(rows, disk, f) && New(rows, disk, path) && disk[path].sha == f.sha
    && (forall p :: p in rows && Gone(rows, disk, rows[p]) && rows[p].sha == f.sha ==> p == f.path)
    && (forall q :: q in disk && New(rows, disk, q) && disk[q].sha == f.sha ==> q == path)
  }

  predicate GoneUnpaired(rows: RowMap, disk: Disk, f: File) {
    Gone(rows, disk, f) && forall q :: q in disk ==> !Pairs(rows, disk, f, q)
  }

  predicate NewUnpaired(rows: RowMap, disk: Disk, path: string) {
    New(rows, disk, path) && forall p :: p in rows ==> !Pairs(rows, disk, rows[p], path)
  }

  predicate OnDisk(rows: RowMap, disk: Disk, f: File) {
    f.path in rows && rows[f.path] == f && f.syncMode != GIT && f.path in disk
  }

  /** The changes a diff reports, one by one. */
  predicate IsChange(rows: RowMap, disk: Disk, paranoid: bool, ch: Change) {
    match ch
    case Added(path, sha, size) => NewUnpaired(rows, disk, path) && sha == disk[path].sha && size == disk[path].size
    case Moved(f, path, sha, size) => Pairs(rows, disk, f, path) && sha == f.sha && size == disk[path].size
    case Deleted(f) => GoneUnpaired(rows, disk, f)
    case _ => OnDisk(rows, disk, ch.file) && RowChange(ch.file, disk[ch.file.path], paranoid) == Some(ch)
  }

  ghost predicate DiffOf(rows: RowMap, disk: Disk, paranoid: bool, changes: seq<Change>) {
    && (forall ch :: ch in changes <==> IsChange(rows, disk, paranoid, ch))
    && (forall i, j :: 0 <= i < j < |changes| ==> changes[i] != changes[j])
  }

  /** Pairing loses nothing and duplicates nothing: every deleted row is reported exactly one way, as
      a deletion or as the source of one move, and so is every new file. */
  lemma EveryDeletionOnce(rows: RowMap, disk: Disk, paranoid: bool, changes: seq<Change>, f: File)
    requires DiffOf(rows, disk, paranoid, changes) && Gone(rows, disk, f)
    ensures Deleted(f) in changes <==> !exists ch :: ch in changes && ch.Moved? && ch.file == f
    ensures forall a, b :: a in changes && b in changes && a.Moved? && b.Moved? && a.file == f && b.file == f ==> a == b
  {
    forall q | q in disk && Pairs(rows, disk, f, q)
      ensures Moved(f, q, f.sha, disk[q].size) in changes
    {
      assert IsChange(rows, disk, paranoid, Moved(f, q, f.sha, disk[q].size));
    }
    assert IsChange(rows, disk, paranoid, Deleted(f)) <==> GoneUnpaired(rows, disk, f);
  }

  lemma EveryAdditionOnce(rows: RowMap, disk: Disk, paranoid: bool, changes: seq<Change>, path: string)
    requires DiffOf(rows, disk, paranoid, changes) && New(rows, disk, path) && WellKeyed(rows)
    ensures Added(path, disk[path].sha, disk[path].size) in changes <==> !exists ch :: ch in changes && ch.Moved? && ch.path == path
    ensures forall a, b :: a in changes && b in changes && a.Moved? && b.Moved? && a.path == path && b.path == path ==> a == b
  {
    forall p | p in rows && Pairs(rows, disk, rows[p], path)
      ensures Moved(rows[p], path, rows[p].sha, disk[path].size) in changes
    {
      assert IsChange(rows, disk, paranoid, Moved(rows[p], path, rows[p].sha, disk[path].size));
    }
    assert IsChange(rows, disk, paranoid, Added(path, disk[path].sha, disk[path].size)) <==> NewUnpaired(rows, disk, path);
  }

  /** Bytes that changed under a row while its size stayed and no time moved on. */
  predicate Rotten(f: File, d: DiskFile) {
    d.sha != f.sha && d.size == f.size && d.mtime <= f.lastScanned
  }

  /** A scan that hashes only what moved never suspects anything; one that hashes everything reports exactly
      the rotten files as suspects. */
  lemma SuspectsAreRotten(rows: RowMap, disk: Disk, paranoid: bool, changes: seq<Change>, f: File)
    requires DiffOf(rows, disk, paranoid, changes) && OnDisk(rows, disk, f)
    ensures var d := disk[f.path]; Suspect(f, d.sha, d.size) in changes <==> paranoid && Rotten(f, d)
    ensures forall ch :: ch in changes && ch.Suspect? && ch.file == f ==> ch == Suspect(f, disk[f.path].sha, disk[f.path].size)
  {
    var d := disk[f.path];
    assert IsChange(rows, disk, paranoid, Suspect(f, d.sha, d.size)) <==> Suspect(f, d.sha, d.size) in changes;
  }

  /** Every other drifted file was edited: either scan reports it as that, with the hash it has now. */
  lemma EditsAreReported(rows: RowMap, disk: Disk, paranoid: bool, changes: seq<Change>, f: File)
    requires DiffOf(rows, disk, paranoid, changes) && OnDisk(rows, disk, f)
    ensures var d := disk[f.path]; Edited(f, d.sha, d.size) in changes <==> d.sha != f.sha && (d.size != f.size || d.mtime > f.lastScanned)
    ensures forall ch :: ch in changes && ch.Edited? && ch.file == f ==> ch == Edited(f, disk[f.path].sha, disk[f.path].size)
  {
    var d := disk[f.path];
    assert IsChange(rows, disk, paranoid, Edited(f, d.sha, d.size)) <==> Edited(f, d.sha, d.size) in changes;
  }

  /** An unchanged file is reported as verified exactly when it was hashed: always, or because it moved. */
  lemma VerifiedWereHashed(rows: RowMap, disk: Disk, paranoid: bool, changes: seq<Change>, f: File)
    requires DiffOf(rows, disk, paranoid, changes) && OnDisk(rows, disk, f)
    ensures var d := disk[f.path]; Verified(f, d.sha, d.size) in changes <==> d.sha == f.sha && (paranoid || d.size != f.size || d.mtime > f.lastScanned)
    ensures forall ch :: ch in changes && ch.Verified? && ch.file == f ==> ch == Verified(f, disk[f.path].sha, disk[f.path].size)
  {
    var d := disk[f.path];
    assert IsChange(rows, disk, paranoid, Verified(f, d.sha, d.size)) <==> Verified(f, d.sha, d.size) in changes;
  }

  /** Rows of the git flow are nobody's change. */
  lemma GitRowsUntouched(rows: RowMap, disk: Disk, paranoid: bool, changes: seq<Change>, ch: Change)
    requires DiffOf(rows, disk, paranoid, changes) && ch in changes && !ch.Added?
    ensures ch.file.path in rows && rows[ch.file.path] == ch.file && ch.file.syncMode != "git"
  {
    assert IsChange(rows, disk, paranoid, ch);
  }

  // ---- applying --------------------------------------------------------------------------

  predicate NeedsIntent(ch: Change) {
    ch.Added? || ch.Edited? || ch.Moved? || ch.Deleted?
  }

  /** The intent journaled for a change. */
  function ScanEntry(h: string -> string, node: string, ch: Change, who: Who): Entry
    requires NeedsIntent(ch)
  {
    match ch
    case Added(path, sha, size) => IngestEntry(h, node, path, sha, size, who)
    case Edited(f, sha, size) => Intention(who, OpType.Scan, [f.id], map[Arg.Path := f.path, OldSha256 := f.sha, NewSha256 := sha])
    case Moved(f, path, sha, size) => Intention(who, OpType.Move, [f.id], map[From := f.path, To := path])
    case Deleted(f) => Intention(who, OpType.Delete, [f.id], map[Arg.Path := f.path])
  }

  /** Its effect on the catalog. Suspects have none. */
  function Mutate(h: string -> string, node: string, ch: Change, who: Who, rows: RowMap): RowMap {
    match ch
    case Added(path, sha, size) => rows[path := NewRow(h, node, path, sha, size, who)]
    case Edited(f, sha, size) => rows[f.path := f.(sha := sha, size := size, updatedAt := who.now, lastScanned := who.now)]
    case Moved(f, path, sha, size) => (rows - {f.path})[path := f.(path := path, updatedAt := who.now, lastScanned := who.now)]
    case Deleted(f) => rows - {f.path}
    case Verified(f, sha, size) => rows[f.path := f.(lastScanned := who.now)]
    case Suspect(_, _, _) => rows
  }

  /** What each change does to the catalog: it touches the rows it names and no other, keeps what a file is,
      and leaves its time. */
  lemma ChangeTakesEffect(h: string -> string, node: string, ch: Change, who: Who, rows: RowMap)
    ensures var out := Mutate(h, node, ch, who, rows);
            && (forall p :: p !in Touches(ch) ==> (p in out <==> p in rows) && (p in out ==> out[p] == rows[p]))
            && match ch
               case Added(path, sha, size) =>
                 var g := Genesis(sha, path, who.opID, node);
                 path in out && out[path] == File(MintID(h, g), g, sha, path, "manual", size, who.now, who.now, who.now)
               case Edited(f, sha, size) => f.path in out && out[f.path] == f.(sha := sha, size := size, updatedAt := who.now, lastScanned := who.now)
               case Moved(f, path, _, _) => path in out && out[path] == f.(path := path, updatedAt := who.now, lastScanned := who.now) && (f.path != path ==> f.path !in out)
               case Deleted(f) => f.path !in out
               case Verified(f, _, _) => f.path in out && out[f.path] == f.(lastScanned := who.now)
               case Suspect(_, _, _) => out == rows
  {
  }

  /** What each change journals. */
  lemma ChangeTells(h: string -> string, node: string, ch: Change, who: Who)
    requires NeedsIntent(ch)
    ensures var e := ScanEntry(h, node, ch, who);
            && e.opID == who.opID && e.actor == who.actor && e.createdAt == who.now
            && match ch
               case Added(path, sha, size) =>
                 && e.opType == OpType.Ingest && e.blobRefs == [MintID(h, Genesis(sha, path, who.opID, node))] && ArgOf(e, Arg.Path) == path
                 && ArgOf(e, ContentSha256) == sha && ArgOf(e, OriginNode) == node && ArgOf(e, SyncModeArg) == "manual" && ArgOf(e, Size) == Integer(size)
               case Edited(f, sha, _) => e.opType == OpType.Scan && e.blobRefs == [f.id] && ArgOf(e, Arg.Path) == f.path && ArgOf(e, OldSha256) == f.sha && ArgOf(e, NewSha256) == sha
               case Moved(f, path, _, _) => e.opType == OpType.Move && e.blobRefs == [f.id] && ArgOf(e, From) == f.path && ArgOf(e, To) == path && ArgOf(e, MovedTo) == ""
               case Deleted(f) => e.opType == OpType.Delete && e.blobRefs == [f.id] && ArgOf(e, Arg.Path) == f.path
    ensures NeedsIntent(ch) <==> !ch.Verified? && !ch.Suspect?
  {
  }

  function MutateAll(h: string -> string, node: string, chs: seq<Change>, whos: seq<Who>, rows: RowMap): RowMap
    requires |chs| == |whos|
  {
    if chs == [] then rows
    else Mutate(h, node, chs[|chs| - 1], whos[|chs| - 1], MutateAll(h, node, chs[..|chs| - 1], whos[..|chs| - 1], rows))
  }

  // ---- convergence -----------------------------------------------------------------------

  /** The paths a change writes or removes. */
  function Touches(ch: Change): set<string> {
    match ch
    case Added(path, _, _) => {path}
    case Moved(f, path, _, _) => {f.path, path}
    case Deleted(f) => {f.path}
    case _ => {ch.file.path}
  }

  /** No two reported changes touch the same path. */
  lemma ChangesDisjoint(rows: RowMap, disk: Disk, paranoid: bool, a: Change, b: Change, p: string)
    requires WellKeyed(rows) && IsChange(rows, disk, paranoid, a) && IsChange(rows, disk, paranoid, b)
    requires p in Touches(a) && p in Touches(b)
    ensures a == b
  {
  }

  lemma {:induction false} UntouchedStays(h: string -> string, node: string, chs: seq<Change>, whos: seq<Who>, rows: RowMap, p: string)
    requires |chs| == |whos| && forall ch :: ch in chs ==> p !in Touches(ch)
    ensures p in MutateAll(h, node, chs, whos, rows) <==> p in rows
    ensures p in rows ==> MutateAll(h, node, chs, whos, rows)[p] == rows[p]
  {
    if chs != [] {
      assert chs[|chs| - 1] in chs;
      UntouchedStays(h, node, chs[..|chs| - 1], whos[..|chs| - 1], rows, p);
    }
  }

  predicate AgreeAt(a: RowMap, b: RowMap, p: string) {
    (p in a <==> p in b) && (p in a ==> a[p] == b[p])
  }

  /** A change acts on each path by itself. */
  lemma MutateLocal(h: string -> string, node: string, ch: Change, who: Who, a: RowMap, b: RowMap, p: string)
    ensures AgreeAt(a, b, p) ==> AgreeAt(Mutate(h, node, ch, who, a), Mutate(h, node, ch, who, b), p)
    ensures p !in Touches(ch) ==> AgreeAt(Mutate(h, node, ch, who, a), a, p)
  {
  }

  /** What the one change that touches p leaves there, whatever else is applied around it. */
  lemma {:induction false} TouchedOnce(h: string -> string, node: string, chs: seq<Change>, whos: seq<Who>, rows: RowMap, p: string, k: nat)
    requires |chs| == |whos| && k < |chs| && p in Touches(chs[k])
    requires forall i :: 0 <= i < |chs| && i != k ==> p !in Touches(chs[i])
    ensures AgreeAt(MutateAll(h, node, chs, whos, rows), Mutate(h, node, chs[k], whos[k], rows), p)
  {
    var n := |chs| - 1;
    var before := MutateAll(h, node, chs[..n], whos[..n], rows);
    MutateLocal(h, node, chs[n], whos[n], before, rows, p);
    MutateLocal(h, node, chs[n], whos[n], before, before, p);
    if k == n {
      forall ch | ch in chs[..n]
        ensures p !in Touches(ch)
      {
        var i :| 0 <= i < n && chs[..n][i] == ch;
        assert ch == chs[i];
      }
      UntouchedStays(h, node, chs[..n], whos[..n], rows, p);
    } else {
      TouchedOnce(h, node, chs[..n], whos[..n], rows, p, k);
    }
  }

  /** Where one path ends up when a whole paranoid diff is applied. */
  lemma AppliedAt(h: string -> string, node: string, rows: RowMap, disk: Disk, paranoid: bool, chs: seq<Change>, whos: seq<Who>, ch: Change, p: string) returns (who: Who)
    requires WellKeyed(rows) && DiffOf(rows, disk, paranoid, chs) && |chs| == |whos| && ch in chs && p in Touches(ch)
    ensures AgreeAt(MutateAll(h, node, chs, whos, rows), Mutate(h, node, ch, who, rows), p)
  {
    var k :| 0 <= k < |chs| && chs[k] == ch;
    forall i | 0 <= i < |chs| && i != k
      ensures p !in Touches(chs[i])
    {
      assert chs[i] in chs;
      if p in Touches(chs[i]) {
        ChangesDisjoint(rows, disk, paranoid, chs[i], ch, p);
      }
    }
    TouchedOnce(h, node, chs, whos, rows, p, k);
    who := whos[k];
  }

  /** A file on disk that is not git-owned ends up recorded with its current hash, unless its row is a
      suspect, which is left as it was. */
  lemma DiskRecorded(h: string -> string, node: string, rows: RowMap, disk: Disk, chs: seq<Change>, whos: seq<Who>, p: string)
    requires WellKeyed(rows) && DiffOf(rows, disk, true, chs) && |chs| == |whos|
    requires p in disk && (p in rows ==> rows[p].syncMode != GIT)
    ensures var out := MutateAll(h, node, chs, whos, rows);
            p in out && out[p].path == p && (out[p].sha == disk[p].sha || (p in rows && out[p] == rows[p] && Suspect(rows[p], disk[p].sha, disk[p].size) in chs))
  {
    if p in rows {
      var ch := RowChange(rows[p], disk[p], true).value;
      assert IsChange(rows, disk, true, ch);
      var _ := AppliedAt(h, node, rows, disk, true, chs, whos, ch, p);
    } else if NewUnpaired(rows, disk, p) {
      var ch := Added(p, disk[p].sha, disk[p].size);
      assert IsChange(rows, disk, true, ch);
      var _ := AppliedAt(h, node, rows, disk, true, chs, whos, ch, p);
    } else {
      var q :| q in rows && Pairs(rows, disk, rows[q], p);
      var ch := Moved(rows[q], p, rows[q].sha, disk[p].size);
      assert IsChange(rows, disk, true, ch);
      var _ := AppliedAt(h, node, rows, disk, true, chs, whos, ch, p);
    }
  }

  /** A path with no file on disk ends up with no row, or with its git-owned row untouched. */
  lemma NothingElseRecorded(h: string -> string, node: string, rows: RowMap, disk: Disk, chs: seq<Change>, whos: seq<Who>, p: string)
    requires WellKeyed(rows) && DiffOf(rows, disk, true, chs) && |chs| == |whos|
    requires p !in disk || (p in rows && rows[p].syncMode == GIT)
    ensures var out := MutateAll(h, node, chs, whos, rows);
            (p in out <==> p in rows && rows[p].syncMode == GIT) && (p in out ==> out[p] == rows[p])
  {
    if p in rows && rows[p].syncMode != GIT {
      assert Gone(rows, disk, rows[p]);
      if GoneUnpaired(rows, disk, rows[p]) {
        assert IsChange(rows, disk, true, Deleted(rows[p]));
        var _ := AppliedAt(h, node, rows, disk, true, chs, whos, Deleted(rows[p]), p);
      } else {
        var q :| q in disk && Pairs(rows, disk, rows[p], q);
        var ch := Moved(rows[p], q, rows[p].sha, disk[q].size);
        assert IsChange(rows, disk, true, ch);
        var _ := AppliedAt(h, node, rows, disk, true, chs, whos, ch, p);
      }
    } else {
      forall ch | ch in chs
        ensures p !in Touches(ch)
      {
        assert IsChange(rows, disk, true, ch);
      }
      UntouchedStays(h, node, chs, whos, rows, p);
    }
  }

  /** Convergence: apply a whole paranoid diff, and the next paranoid diff of the same disk finds
      nothing but verified files, and the same suspects. */
  lemma ScanConverges(h: string -> string, node: string, rows: RowMap, disk: Disk, chs: seq<Change>, whos: seq<Who>, ch: Change)
    requires WellKeyed(rows) && DiffOf(rows, disk, true, chs) && |chs| == |whos|
    requires IsChange(MutateAll(h, node, chs, whos, rows), disk, true, ch)
    ensures ch.Verified? || (ch.Suspect? && ch in chs)
  {
    var out := MutateAll(h, node, chs, whos, rows);
    var p := if ch.Added? then ch.path else ch.file.path;
    if p in disk && (p in rows ==> rows[p].syncMode != GIT) {
      DiskRecorded(h, node, rows, disk, chs, whos, p);
    } else {
      NothingElseRecorded(h, node, rows, disk, chs, whos, p);
    }
  }

  /** And every suspect is still reported. */
  lemma SuspectsRemain(h: string -> string, node: string, rows: RowMap, disk: Disk, chs: seq<Change>, whos: seq<Who>, ch: Change)
    requires WellKeyed(rows) && DiffOf(rows, disk, true, chs) && |chs| == |whos|
    requires ch in chs && ch.Suspect?
    ensures IsChange(MutateAll(h, node, chs, whos, rows), disk, true, ch)
  {
    var _ := AppliedAt(h, node, rows, disk, true, chs, whos, ch, ch.file.path);
  }

  lemma {:induction false} OnlySuspected(h: string -> string, node: string, chs: seq<Change>, whos: seq<Who>, rows: RowMap, p: string)
    requires |chs| == |whos| && p in rows && forall ch :: ch in chs && p in Touches(ch) ==> ch.Suspect?
    ensures p in MutateAll(h, node, chs, whos, rows) && MutateAll(h, node, chs, whos, rows)[p] == rows[p]
  {
    if chs != [] {
      assert chs[|chs| - 1] in chs;
      OnlySuspected(h, node, chs[..|chs| - 1], whos[..|chs| - 1], rows, p);
    }
  }

  /** Applying a diff never takes up rotten bytes: the row stays as it is, hash and all. */
  lemma RotIsNeverAdopted(h: string -> string, node: string, rows: RowMap, disk: Disk, paranoid: bool, chs: seq<Change>, whos: seq<Who>, f: File)
    requires WellKeyed(rows) && DiffOf(rows, disk, paranoid, chs) && |chs| == |whos| && OnDisk(rows, disk, f) && Rotten(f, disk[f.path])
    ensures f.path in MutateAll(h, node, chs, whos, rows) && MutateAll(h, node, chs, whos, rows)[f.path] == f
  {
    forall ch | ch in chs && f.path in Touches(ch)
      ensures ch.Suspect?
    {
      assert IsChange(rows, disk, paranoid, ch);
    }
    OnlySuspected(h, node, chs, whos, rows, f.path);
  }

  /** An edit is taken up by either scan: the row has the new hash and size, its id and birth record. */
  lemma EditIsAdopted(h: string -> string, node: string, rows: RowMap, disk: Disk, paranoid: bool, chs: seq<Change>, whos: seq<Who>, f: File)
    requires WellKeyed(rows) && DiffOf(rows, disk, paranoid, chs) && |chs| == |whos| && OnDisk(rows, disk, f)
    requires var d := disk[f.path]; d.sha != f.sha && (d.size != f.size || d.mtime > f.lastScanned)
    ensures var out := MutateAll(h, node, chs, whos, rows);
            f.path in out && out[f.path].sha == disk[f.path].sha && out[f.path].size == disk[f.path].size && out[f.path].id == f.id && out[f.path].genesis == f.genesis
  {
    var d := disk[f.path];
    EditsAreReported(rows, disk, paranoid, chs, f);
    var _ := AppliedAt(h, node, rows, disk, paranoid, chs, whos, Edited(f, d.sha, d.size), f.path);
  }
}
