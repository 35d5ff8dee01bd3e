/** The single-member vault commands: put, rename, rm, sync-mode and restore-identity. Each decides
    what to do from the live catalog, journals an intent, touches objects, overwrites the catalog,
    and only then marks the op done; it may die after any of these writes. */
module Commands {
  import opened Wrappers
  import opened Text
  import opened Wal
  import opened Journals
  import opened Catalogs
  import opened Identity
  import opened Vaults

  /** Who runs a command, when, and under which op id. */
  datatype Who = Who(opID: string, actor: string, now: int)

  datatype Command =
    | PutFile(path: string, sha: string, size: int)
    | Rename(path: string, to: string)
    | Rm(path: string)
    | SetMode(path: string, mode: string)
    | RestoreID(path: string, id: string, genesis: Genesis)

  /** An object write: create if absent, or delete. */
  datatype ObjectWrite = Upload(key: string, hash: string) | Erase(key: string)

  /** What a command has decided to do once it reaches its intent. */
  datatype Plan = Plan(intent: Entry, writes: seq<ObjectWrite>, rows: RowMap)

  /** An instant as an argument value; the calendar form is in Codec.dfy. */
  function Rfc(t: int): string {
    Integer(t)
  }

  function Intention(who: Who, t: OpType, refs: seq<string>, args: map<Arg, string>): Entry {
    Entry(0, who.opID, ZeroHash, t, refs, who.actor, who.now, args)
  }

  // ---- what each command decides ---------------------------------------------------------

  function IngestEntry(h: string -> string, node: string, path: string, sha: string, size: int, who: Who): Entry {
    IngestEntryOf(MintID(h, Genesis(sha, path, who.opID, node)), node, path, sha, size, who)
  }

  function IngestEntryOf(id: string, node: string, path: string, sha: string, size: int, who: Who): Entry {
    Intention(who, OpType.Ingest, [id],
              map[Arg.Path := path, ContentSha256 := sha, OriginNode := node, SyncModeArg := MANUAL, Size := Integer(size)])
  }

  function NewRow(h: string -> string, node: string, path: string, sha: string, size: int, who: Who): File {
    var g := Genesis(sha, path, who.opID, node);
    File(MintID(h, g), g, sha, path, MANUAL, size, who.now, who.now, who.now)
  }

  function SyncModeOrManual(s: string): string {
    if s == "" then MANUAL else s
  }

  /** The row an ingest entry stands for; None if its birth record is not valid. */
  function RowFromEntry(h: string -> string, e: Entry, node: string): Option<File> {
    MintedRow(g => MintID(h, g), e, node)
  }

  function MintedRow(mint: Genesis -> string, e: Entry, node: string): Option<File> {
    match FromIngestEntry(e, node)
    case None => None
    case Some(g) =>
      Some(File(mint(g), g, ArgOf(e, ContentSha256), ArgOf(e, Arg.Path), SyncModeOrManual(ArgOf(e, SyncModeArg)),
                ParseSize(ArgOf(e, Size)), e.createdAt, e.createdAt, e.createdAt))
  }

  function PutPlan(h: string -> string, node: string, rows: RowMap, path: string, sha: string, size: int, who: Who): Option<Plan> {
    if path in rows then None
    else Some(Plan(IngestEntry(h, node, path, sha, size, who), [Upload(sha, sha)], rows[path := NewRow(h, node, path, sha, size, who)]))
  }

  function RenameEntry(member: string, f: File, to: string, who: Who): Entry {
    Intention(who, OpType.Move, [f.id], map[From := f.path, To := to, MemberName := member])
  }

  function RenamePlan(member: string, rows: RowMap, path: string, to: string, who: Who): Option<Plan> {
    if path !in rows || to in rows then None
    else
      var f := rows[path];
      Some(Plan(RenameEntry(member, f, to, who), [], (rows - {path})[to := f.(path := to, updatedAt := who.now)]))
  }

  function RmEntry(f: File, who: Who): Entry {
    Intention(who, OpType.Delete, [f.id],
              map[Id := f.id, Arg.Path := f.path, ContentSha256 := f.sha, OriginalPath := f.genesis.originalPath, OriginNode := f.genesis.originNode])
  }

  function Referents(rows: RowMap, sha: string): set<string> {
    set p | p in rows && rows[p].sha == sha
  }

  function RmPlan(rows: RowMap, path: string, who: Who): Option<Plan> {
    if path !in rows then None
    else
      var f := rows[path];
      Some(Plan(RmEntry(f, who), if |Referents(rows, f.sha)| <= 1 then [Erase(f.sha)] else [], rows - {path}))
  }

  function SetModeEntry(f: File, mode: string, newSha: string, scanned: int, who: Who): Entry {
    Intention(who, OpType.SyncMode, [f.id],
              map[Id := f.id, Arg.Path := f.path, FromMode := f.syncMode, ToMode := mode, NewSha256 := newSha, LastScannedAt := Rfc(scanned)])
  }

  /** A flip to git re-hashes the object and adopts its true hash; a flip to manual looks at nothing. */
  function SetModePlan(rows: RowMap, objects: map<string, string>, path: string, mode: string, who: Who): Option<Plan> {
    if mode !in {GIT, MANUAL} || path !in rows || rows[path].syncMode == mode then None
    else if mode == GIT && rows[path].sha !in objects then None
    else
      var f := rows[path];
      var newSha := if mode == GIT then objects[f.sha] else f.sha;
      var scanned := if mode == GIT then who.now else f.lastScanned;
      Some(Plan(SetModeEntry(f, mode, newSha, scanned, who),
                if newSha != f.sha then [Upload(newSha, objects[f.sha])] else [],
                rows[path := f.(syncMode := mode, sha := newSha, lastScanned := scanned, updatedAt := who.now)]))
  }

  function RestoreEntry(f: File, id: string, g: Genesis, who: Who): Entry {
    Intention(who, OpType.Restore, [id],
              map[Arg.Path := f.path, OldId := f.id, RestoredId := id, ContentSha256 := g.contentSha,
                  OriginalPath := g.originalPath, IngestOpId := g.ingestOpID, OriginNode := g.originNode])
  }

  function RestorePlan(h: string -> string, rows: RowMap, path: string, id: string, g: Genesis, who: Who): Option<Plan> {
    if !Validate(g) || MintID(h, g) != id || path !in rows || rows[path].id == id || HoldsID(rows, id) then None
    else
      var f := rows[path];
      Some(Plan(RestoreEntry(f, id, g, who), [], rows[path := f.(id := id, genesis := g, updatedAt := who.now)]))
  }

  function PlanOf(h: string -> string, node: string, s: Node, c: Command, who: Who): Option<Plan> {
    if s.cat.None? then None
    else match c
      case PutFile(path, sha, size) => PutPlan(h, node, s.cat.value, path, sha, size, who)
      case Rename(path, to) => RenamePlan(node, s.cat.value, path, to, who)
      case Rm(path) => RmPlan(s.cat.value, path, who)
      case SetMode(path, mode) => SetModePlan(s.cat.value, s.objects, path, mode, who)
      case RestoreID(path, id, g) => RestorePlan(h, s.cat.value, path, id, g, who)
  }

  // ---- what every plan keeps to ----------------------------------------------------------

  /** The paths a command is about. */
  function PathsOf(c: Command): set<string> {
    match c
    case PutFile(path, _, _) => {path}
    case Rename(path, to) => {path, to}
    case Rm(path) => {path}
    case SetMode(path, _) => {path}
    case RestoreID(path, _, _) => {path}
  }

  /** When a command refuses, before it journals anything. */
  lemma RefusedIff(h: string -> string, node: string, s: Node, c: Command, who: Who)
    requires s.cat.Some?
    ensures var rows := s.cat.value;
            PlanOf(h, node, s, c, who).None? <==>
              match c
              case PutFile(path, _, _) => path in rows
              case Rename(path, to) => path !in rows || to in rows
              case Rm(path) => path !in rows
              case SetMode(path, mode) => (mode != "git" && mode != "manual") || path !in rows || rows[path].syncMode == mode || (mode == "git" && rows[path].sha !in s.objects)
              case RestoreID(path, id, g) =>
                !(IsHex64(g.contentSha) && g.originalPath != "" && g.ingestOpID != "" && g.originNode != "") || MintID(h, g) != id || path !in rows
                || exists p :: p in rows && rows[p].id == id
  {
  }

  /** No command touches a row it is not about, and none but restore changes what a file is: its id, its
      birth record and the time it was first taken in. A file's path, mode and hash change only by the
      command for that, and every command leaves its time. */
  lemma PlanTouchesOneFile(h: string -> string, node: string, s: Node, c: Command, who: Who)
    requires s.cat.Some? && PlanOf(h, node, s, c, who).Some?
    ensures var rows, out := s.cat.value, PlanOf(h, node, s, c, who).value.rows;
            && (forall p :: p !in PathsOf(c) ==> (p in out <==> p in rows) && (p in out ==> out[p] == rows[p]))
            && match c
               case PutFile(path, sha, size) =>
                 var g := Genesis(sha, path, who.opID, node);
                 path in out && out[path] == File(MintID(h, g), g, sha, path, "manual", size, who.now, who.now, who.now)
               case Rename(path, to) => path !in out && to in out && out[to] == rows[path].(path := to, updatedAt := who.now)
               case Rm(path) => path !in out
               case SetMode(path, mode) =>
                 && path in out && out[path].(syncMode := rows[path].syncMode, sha := rows[path].sha, lastScanned := rows[path].lastScanned, updatedAt := rows[path].updatedAt) == rows[path]
                 && out[path].syncMode == mode && out[path].updatedAt == who.now
                 && (mode == "git" ==> out[path].sha == s.objects[rows[path].sha] && out[path].lastScanned == who.now)
                 && (mode == "manual" ==> out[path].sha == rows[path].sha && out[path].lastScanned == rows[path].lastScanned)
               case RestoreID(path, id, g) => path in out && out[path] == rows[path].(id := id, genesis := g, updatedAt := who.now)
  {
  }

  /** Bytes are sent only by a put, and by a flip that found them drifted; they are erased only by an rm of
      the last row that has them. */
  lemma PlanTouchesOneBlob(h: string -> string, node: string, s: Node, c: Command, who: Who)
    requires s.cat.Some? && PlanOf(h, node, s, c, who).Some?
    ensures var rows, writes := s.cat.value, PlanOf(h, node, s, c, who).value.writes;
            match c
            case PutFile(_, sha, _) => writes == [Upload(sha, sha)]
            case Rm(path) => (forall w :: w in writes ==> w == Erase(rows[path].sha)) && |writes| <= 1
                             && (writes != [] <==> forall q :: q in rows && rows[q].sha == rows[path].sha ==> q == path)
            case SetMode(path, mode) =>
              var hash := if mode == "git" then s.objects[rows[path].sha] else rows[path].sha;
              writes == if hash == rows[path].sha then [] else [Upload(hash, hash)]
            case _ => writes == []
  {
    if c.Rm? {
      LastReferent(s.cat.value, c.path);
    }
  }

  lemma LastReferent(rows: RowMap, path: string)
    requires path in rows
    ensures |Referents(rows, rows[path].sha)| <= 1 <==> forall q :: q in rows && rows[q].sha == rows[path].sha ==> q == path
  {
    var all := Referents(rows, rows[path].sha);
    assert forall q :: q in rows && rows[q].sha == rows[path].sha ==> q in all;
    if q :| q in all && q != path {
      SubsetSize({path, q}, all);
    } else {
      assert all == {path};
    }
  }

  /** What a command journals: under whose name, when, on which file, and with what a reader of the log needs
      to know. */
  lemma IntentTells(h: string -> string, node: string, s: Node, c: Command, who: Who)
    requires s.cat.Some? && WellKeyed(s.cat.value) && PlanOf(h, node, s, c, who).Some?
    ensures var rows, e := s.cat.value, PlanOf(h, node, s, c, who).value.intent;
            && e.opID == who.opID && e.actor == who.actor && e.createdAt == who.now
            && match c
               case PutFile(path, sha, size) =>
                 && e.opType == OpType.Ingest && e.blobRefs == [MintID(h, Genesis(sha, path, who.opID, node))]
                 && ArgOf(e, Arg.Path) == path && ArgOf(e, ContentSha256) == sha && ArgOf(e, OriginNode) == node && ArgOf(e, SyncModeArg) == "manual" && ArgOf(e, Size) == Integer(size)
               case Rename(path, to) =>
                 e.opType == OpType.Move && e.blobRefs == [rows[path].id] && ArgOf(e, From) == path && ArgOf(e, To) == to && ArgOf(e, MemberName) == node && ArgOf(e, MovedTo) == ""
               case Rm(path) =>
                 && e.opType == OpType.Delete && e.blobRefs == [rows[path].id] && ArgOf(e, Id) == rows[path].id && ArgOf(e, Arg.Path) == path
                 && ArgOf(e, ContentSha256) == rows[path].sha && ArgOf(e, OriginalPath) == rows[path].genesis.originalPath && ArgOf(e, OriginNode) == rows[path].genesis.originNode
               case SetMode(path, mode) =>
                 && e.opType == OpType.SyncMode && e.blobRefs == [rows[path].id] && ArgOf(e, Id) == rows[path].id && ArgOf(e, Arg.Path) == path
                 && ArgOf(e, FromMode) == rows[path].syncMode && ArgOf(e, ToMode) == mode
                 && ArgOf(e, NewSha256) == (if mode == "git" then s.objects[rows[path].sha] else rows[path].sha)
               case RestoreID(path, id, g) =>
                 && e.opType == OpType.Restore && e.blobRefs == [id] && ArgOf(e, Arg.Path) == path && ArgOf(e, OldId) == rows[path].id && ArgOf(e, RestoredId) == id
                 && Genesis(ArgOf(e, ContentSha256), ArgOf(e, OriginalPath), ArgOf(e, IngestOpId), ArgOf(e, OriginNode)) == g
  {
  }

  // ---- the writes of a command -----------------------------------------------------------

  function Write(n: Node, w: ObjectWrite): Node {
    match w
    case Upload(key, hash) => PutObject(n, key, hash)
    case Erase(key) => DropObject(n, key)
  }

  function AfterWrites(n: Node, ws: seq<ObjectWrite>): Node
    decreases |ws|
  {
    if ws == [] then n else AfterWrites(Write(n, ws[0]), ws[1..])
  }

  function WriteStates(n: Node, ws: seq<ObjectWrite>): seq<Node>
    decreases |ws|
  {
    if ws == [] then [] else [Write(n, ws[0])] + WriteStates(Write(n, ws[0]), ws[1..])
  }

  /** The states a planned command goes through: intent, objects, catalog, done. A held file stops it
      at the intent; a duplicate op id is a resumed command and goes on. */
  function Script(s: Node, p: Plan): (states: seq<Node>)
    ensures states != []
  {
    var a := Intend(s, p.intent);
    if Append(s.log, p.intent).0.Held? then [a]
    else
      var b := AfterWrites(a, p.writes);
      [a] + WriteStates(a, p.writes) + [Persist(b, p.rows), Finish(Persist(b, p.rows), p.intent.opID, true)]
  }

  function Final(s: Node, p: Plan): Node {
    Script(s, p)[|Script(s, p)| - 1]
  }

  // ---- write-ahead protection ------------------------------------------------------------

  /** A not-done delete or gc names the file: whoever finds its bytes gone knows why. */
  ghost predicate Protected(v: LogView, id: string) {
    exists i :: 0 <= i < |v.recs| && Guards(v.recs[i], id)
  }

  predicate Guards(r: Rec, id: string) {
    r.state != Done && r.entry.opType in {OpType.Delete, OpType.Gc} && id in r.entry.blobRefs
  }

  /** Every row whose id is among the object-backed ones has its bytes, or a pending op says why not. */
  ghost predicate WriteAhead(n: Node, backed: set<string>) {
    n.cat.Some? ==> RowsCovered(n.cat.value, n.objects, n.log, backed)
  }

  ghost predicate RowsCovered(rows: RowMap, objects: map<string, string>, v: LogView, backed: set<string>) {
    forall p :: p in rows && rows[p].id in backed ==> rows[p].sha in objects || Protected(v, rows[p].id)
  }

  /** The op id was derived from what the op is for, so a record that already has it is the same request. */
  ghost predicate OpFits(v: LogView, e: Entry) {
    forall i :: 0 <= i < |v.recs| && v.recs[i].entry.opID == e.opID ==> v.recs[i].entry.opType == e.opType && v.recs[i].entry.blobRefs == e.blobRefs
  }

  lemma IntendKeepsProtection(s: Node, e: Entry, id: string)
    requires Protected(s.log, id)
    ensures Protected(Intend(s, e).log, id)
  {
    var i :| 0 <= i < |s.log.recs| && Guards(s.log.recs[i], id);
    assert Intend(s, e).log.recs[i] == s.log.recs[i];
  }

  lemma FinishLosesProtection(v: LogView, opID: string, id: string)
    requires Protected(MarkOp(v, opID, true), id)
    ensures Protected(v, id)
  {
    var w := MarkOp(v, opID, true);
    var i :| 0 <= i < |w.recs| && Guards(w.recs[i], id);
    assert Guards(v.recs[i], id);
  }

  /** Marking an op done only ends the protection that op gave. */
  lemma FinishKeepsOthers(v: LogView, opID: string, id: string, i: nat)
    requires i < |v.recs| && Guards(v.recs[i], id) && v.recs[i].entry.opID != opID
    ensures Protected(MarkOp(v, opID, true), id)
  {
    var w := MarkOp(v, opID, true);
    assert w.recs[i] == v.recs[i];
  }

  /** Marking an op failed ends no protection. */
  lemma FailKeepsProtection(v: LogView, opID: string, id: string)
    requires Protected(v, id)
    ensures Protected(MarkOp(v, opID, false), id)
  {
    var i :| 0 <= i < |v.recs| && Guards(v.recs[i], id);
    assert Guards(MarkOp(v, opID, false).recs[i], id);
  }

  lemma {:induction false} WritesKeepCovered(n: Node, ws: seq<ObjectWrite>, backed: set<string>)
    requires WriteAhead(n, backed)
    requires forall w :: w in ws && w.Erase? && n.cat.Some? ==>
      forall p :: p in n.cat.value && n.cat.value[p].sha == w.key && n.cat.value[p].id in backed ==> Protected(n.log, n.cat.value[p].id)
    ensures forall m :: m in WriteStates(n, ws) ==> WriteAhead(m, backed)
    ensures AfterWrites(n, ws).cat == n.cat && AfterWrites(n, ws).log == n.log
    decreases |ws|
  {
    if ws != [] {
      assert ws == [ws[0]] + ws[1..];
      assert ws[0] in ws;
      var m := Write(n, ws[0]);
      assert WriteAhead(m, backed);
      WritesKeepCovered(m, ws[1..], backed);
    }
  }

  /** The shape all write-ahead arguments share. */
  lemma ScriptSafe(s: Node, p: Plan, backed: set<string>)
    requires WriteAhead(s, backed)
    requires forall w :: w in p.writes && w.Erase? && s.cat.Some? ==>
      forall q :: q in s.cat.value && s.cat.value[q].sha == w.key && s.cat.value[q].id in backed ==> Protected(Intend(s, p.intent).log, s.cat.value[q].id)
    requires RowsCovered(p.rows, AfterWrites(Intend(s, p.intent), p.writes).objects, Finish(Intend(s, p.intent), p.intent.opID, true).log, backed)
    ensures forall n :: n in Script(s, p) ==> WriteAhead(n, backed)
  {
    var a := Intend(s, p.intent);
    assert WriteAhead(a, backed) by {
      IntendKeepsAhead(s, p.intent, backed);
    }
    if !Append(s.log, p.intent).0.Held? {
      WritesKeepCovered(a, p.writes, backed);
      var b := Persist(AfterWrites(a, p.writes), p.rows);
      var c := Finish(b, p.intent.opID, true);
      assert WriteAhead(c, backed);
      assert WriteAhead(b, backed) by {
        forall q | q in p.rows && p.rows[q].id in backed
          ensures p.rows[q].sha in b.objects || Protected(b.log, p.rows[q].id)
        {
          if p.rows[q].sha !in b.objects {
            FinishLosesProtection(a.log, p.intent.opID, p.rows[q].id);
          }
        }
      }
    }
  }

  lemma IntendKeepsAhead(s: Node, e: Entry, backed: set<string>)
    requires WriteAhead(s, backed)
    ensures WriteAhead(Intend(s, e), backed)
  {
    if s.cat.Some? {
      forall q | q in s.cat.value && s.cat.value[q].id in backed
        ensures s.cat.value[q].sha in s.objects || Protected(Intend(s, e).log, s.cat.value[q].id)
      {
        if s.cat.value[q].sha !in s.objects {
          IntendKeepsProtection(s, e, s.cat.value[q].id);
        }
      }
    }
  }

  /** An op that is neither a delete nor a gc takes no protection away when it completes. */
  lemma OtherOpsKeepProtection(s: Node, e: Entry, id: string)
    requires Protected(s.log, id) && OpFits(s.log, e) && e.opType !in {OpType.Delete, OpType.Gc}
    ensures Protected(Finish(Intend(s, e), e.opID, true).log, id)
  {
    var i :| 0 <= i < |s.log.recs| && Guards(s.log.recs[i], id);
    var v := Intend(s, e).log;
    assert v.recs[i] == s.log.recs[i];
    FinishKeepsOthers(v, e.opID, id, i);
  }

  /** A row that a plan leaves with the same id and sha stays covered, if the plan erases nothing. */
  lemma KeptRowCovered(s: Node, p: Plan, q: string, f: File, backed: set<string>)
    requires WriteAhead(s, backed) && s.cat.Some? && q in s.cat.value && s.cat.value[q].id == f.id && s.cat.value[q].sha == f.sha && f.id in backed
    requires OpFits(s.log, p.intent) && p.intent.opType !in {OpType.Delete, OpType.Gc}
    requires forall w :: w in p.writes ==> w.Upload?
    ensures f.sha in AfterWrites(Intend(s, p.intent), p.writes).objects || Protected(Finish(Intend(s, p.intent), p.intent.opID, true).log, f.id)
  {
    if f.sha in s.objects {
      UploadsKeep(Intend(s, p.intent), p.writes);
    } else {
      OtherOpsKeepProtection(s, p.intent, f.id);
    }
  }

  lemma {:induction false} UploadsKeep(n: Node, ws: seq<ObjectWrite>)
    requires forall w :: w in ws ==> w.Upload?
    ensures n.objects.Keys <= AfterWrites(n, ws).objects.Keys
    ensures forall w :: w in ws ==> w.key in AfterWrites(n, ws).objects
    decreases |ws|
  {
    if ws != [] {
      assert ws == [ws[0]] + ws[1..];
      assert ws[0] in ws;
      UploadsKeep(Write(n, ws[0]), ws[1..]);
    }
  }

  /** Put, rename and sync-mode keep the write-ahead invariant at every crash point; so does restore
      when the row it re-labels has its bytes, or an op already explains why the restored id has none. */
  lemma NonDeletingCommandsWriteAhead(h: string -> string, node: string, s: Node, c: Command, who: Who, backed: set<string>)
    requires WriteAhead(s, backed) && !c.Rm?
    requires PlanOf(h, node, s, c, who).Some? && OpFits(s.log, PlanOf(h, node, s, c, who).value.intent)
    requires c.RestoreID? && c.id in backed ==> s.cat.value[c.path].sha in s.objects || Protected(s.log, c.id)
    ensures forall n :: n in Script(s, PlanOf(h, node, s, c, who).value) ==> WriteAhead(n, backed)
  {
    var p := PlanOf(h, node, s, c, who).value;
    var a := Intend(s, p.intent);
    var b := AfterWrites(a, p.writes);
    UploadsKeep(a, p.writes);
    forall q | q in p.rows && p.rows[q].id in backed
      ensures p.rows[q].sha in b.objects || Protected(Finish(a, p.intent.opID, true).log, p.rows[q].id)
    {
      RowCovered(h, node, s, c, who, backed, q);
    }
    ScriptSafe(s, p, backed);
  }

  lemma RowCovered(h: string -> string, node: string, s: Node, c: Command, who: Who, backed: set<string>, q: string)
    requires WriteAhead(s, backed) && !c.Rm?
    requires PlanOf(h, node, s, c, who).Some? && OpFits(s.log, PlanOf(h, node, s, c, who).value.intent)
    requires c.RestoreID? && c.id in backed ==> s.cat.value[c.path].sha in s.objects || Protected(s.log, c.id)
    requires var p := PlanOf(h, node, s, c, who).value; q in p.rows && p.rows[q].id in backed
    ensures var p := PlanOf(h, node, s, c, who).value; var a := Intend(s, p.intent);
            p.rows[q].sha in AfterWrites(a, p.writes).objects || Protected(Finish(a, p.intent.opID, true).log, p.rows[q].id)
  {
    var p := PlanOf(h, node, s, c, who).value;
    var rows := s.cat.value;
    var a := Intend(s, p.intent);
    UploadsKeep(a, p.writes);
    match c
    case PutFile(path, sha, size) =>
      if q == path {
        assert Upload(sha, sha) in p.writes;
      } else {
        KeptRowCovered(s, p, q, p.rows[q], backed);
      }
    case Rename(path, to) => KeptRowCovered(s, p, if q == to then path else q, p.rows[q], backed);
    case SetMode(path, mode) =>
      if q == path && mode == GIT {
        if p.rows[q].sha != rows[path].sha {
          assert Upload(p.rows[q].sha, p.rows[q].sha) in p.writes;
        } else {
          assert rows[path].sha in a.objects;
        }
      } else {
        KeptRowCovered(s, p, q, p.rows[q], backed);
      }
    case RestoreID(path, id, g) =>
      if q != path {
        KeptRowCovered(s, p, q, p.rows[q], backed);
      } else if rows[path].sha !in s.objects {
        OtherOpsKeepProtection(s, p.intent, id);
      }
  }

  lemma OtherIntentsProtectNothing(s: Node, e: Entry, id: string)
    requires e.opType !in {OpType.Delete, OpType.Gc}
    ensures Protected(Intend(s, e).log, id) ==> Protected(s.log, id)
  {
    var v := Intend(s, e).log;
    if Protected(v, id) {
      var i :| 0 <= i < |v.recs| && Guards(v.recs[i], id);
      assert Guards(s.log.recs[i], id);
    }
  }

  /** Restore locks the id it brings back, not the id it replaces. Once it gets past its intent it keeps
      the invariant exactly when the row's bytes are there, or the restored id is not object-backed or
      is itself accounted for: the op that explained missing bytes names the old id. */
  ghost predicate RestoreGuarded(s: Node, c: Command, intent: Entry, backed: set<string>)
    requires c.RestoreID? && s.cat.Some? && c.path in s.cat.value
  {
    Append(s.log, intent).0.Held? || c.id !in backed || s.cat.value[c.path].sha in s.objects || Protected(s.log, c.id)
  }

  lemma RestoreWriteAheadIff(h: string -> string, node: string, s: Node, c: Command, who: Who, backed: set<string>)
    requires WriteAhead(s, backed) && c.RestoreID?
    requires PlanOf(h, node, s, c, who).Some? && OpFits(s.log, PlanOf(h, node, s, c, who).value.intent)
    ensures (forall n :: n in Script(s, PlanOf(h, node, s, c, who).value) ==> WriteAhead(n, backed))
       <==> RestoreGuarded(s, c, PlanOf(h, node, s, c, who).value.intent, backed)
  {
    var p := PlanOf(h, node, s, c, who).value;
    if Append(s.log, p.intent).0.Held? {
      assert Script(s, p) == [s];
    } else if RestoreGuarded(s, c, p.intent, backed) {
      NonDeletingCommandsWriteAhead(h, node, s, c, who, backed);
    } else {
      var a := Intend(s, p.intent);
      var b := Persist(a, p.rows);
      assert b == Script(s, p)[1];
      OtherIntentsProtectNothing(s, p.intent, c.id);
      assert !WriteAhead(b, backed) by {
        assert c.path in p.rows && p.rows[c.path].id == c.id;
      }
    }
  }

  // ---- rm --------------------------------------------------------------------------------

  lemma OnlyReferent(rows: RowMap, p: string, q: string)
    requires p in rows && q in rows && rows[p].sha == rows[q].sha && |Referents(rows, rows[p].sha)| <= 1
    ensures p == q
  {
    var r := Referents(rows, rows[p].sha);
    SubsetSize({p, q}, r);
  }

  /** The intent of an rm protects its file unless the op id was already done. */
  lemma RmIntentProtects(s: Node, path: string, who: Who)
    requires s.cat.Some? && path in s.cat.value && OpFits(s.log, RmEntry(s.cat.value[path], who))
    requires !Append(s.log, RmEntry(s.cat.value[path], who)).0.Held? && !DoneIn(s.log, who.opID)
    ensures Protected(Intend(s, RmEntry(s.cat.value[path], who)).log, s.cat.value[path].id)
  {
    var e := RmEntry(s.cat.value[path], who);
    var v := Intend(s, e).log;
    var at := FindOp(s.log, who.opID);
    var i := if at.Some? then at.value else |s.log.recs|;
    assert s.cat.value[path].id in e.blobRefs;
    assert Guards(v.recs[i], s.cat.value[path].id);
  }

  /** An rm keeps the invariant at every crash point when its op is new or still pending. */
  lemma RmWriteAhead(s: Node, path: string, who: Who, backed: set<string>)
    requires WriteAhead(s, backed) && s.cat.Some? && path in s.cat.value && DistinctIDs(s.cat.value)
    requires OpFits(s.log, RmEntry(s.cat.value[path], who)) && !DoneIn(s.log, who.opID)
    ensures forall n :: n in Script(s, RmPlan(s.cat.value, path, who).value) ==> WriteAhead(n, backed)
  {
    var rows := s.cat.value;
    var p := RmPlan(rows, path, who).value;
    var a := Intend(s, p.intent);
    IntendKeepsAhead(s, p.intent, backed);
    if !Append(s.log, p.intent).0.Held? {
      RmIntentProtects(s, path, who);
      forall w, q | w in p.writes && w.Erase? && q in rows && rows[q].sha == w.key && rows[q].id in backed
        ensures Protected(a.log, rows[q].id)
      {
        OnlyReferent(rows, path, q);
      }
      forall q | q in p.rows && p.rows[q].id in backed
        ensures p.rows[q].sha in AfterWrites(a, p.writes).objects || Protected(Finish(a, p.intent.opID, true).log, p.rows[q].id)
      {
        RmOtherRowCovered(s, path, who, backed, q);
      }
      ScriptSafe(s, p, backed);
    }
  }

  /** What an rm erases is no other row's, and its completion ends no other file's protection. */
  lemma RmOtherRowCovered(s: Node, path: string, who: Who, backed: set<string>, q: string)
    requires WriteAhead(s, backed) && s.cat.Some? && path in s.cat.value && DistinctIDs(s.cat.value)
    requires OpFits(s.log, RmEntry(s.cat.value[path], who))
    requires q in s.cat.value && q != path && s.cat.value[q].id in backed
    ensures var p := RmPlan(s.cat.value, path, who).value; var a := Intend(s, p.intent);
            s.cat.value[q].sha in AfterWrites(a, p.writes).objects || Protected(Finish(a, p.intent.opID, true).log, s.cat.value[q].id)
  {
    var rows := s.cat.value;
    var p := RmPlan(rows, path, who).value;
    var a := Intend(s, p.intent);
    if rows[q].sha in s.objects {
      if p.writes != [] && rows[q].sha == rows[path].sha {
        OnlyReferent(rows, path, q);
      }
    } else {
      var i :| 0 <= i < |s.log.recs| && Guards(s.log.recs[i], rows[q].id);
      assert a.log.recs[i] == s.log.recs[i];
      assert rows[q].id != rows[path].id;
      FinishKeepsOthers(a.log, who.opID, rows[q].id, i);
    }
  }

  /** The rm op id is derived from the file id and sha alone, so putting the same file back and
      removing it again repeats an op that is already done, and nothing is journaled. */
  ghost predicate RmGuarded(s: Node, path: string, who: Who, backed: set<string>)
    requires s.cat.Some? && path in s.cat.value
  {
    var f := s.cat.value[path];
    !DoneIn(s.log, who.opID) || |Referents(s.cat.value, f.sha)| > 1 || f.id !in backed || Protected(s.log, f.id)
  }

  /** An rm whose op is already done is safe when it erases nothing, or when the file's absence is
      already accounted for. */
  lemma RepeatedRmWriteAhead(s: Node, path: string, who: Who, backed: set<string>)
    requires WriteAhead(s, backed) && s.cat.Some? && path in s.cat.value && DistinctIDs(s.cat.value)
    requires OpFits(s.log, RmEntry(s.cat.value[path], who)) && DoneIn(s.log, who.opID) && RmGuarded(s, path, who, backed)
    ensures forall n :: n in Script(s, RmPlan(s.cat.value, path, who).value) ==> WriteAhead(n, backed)
  {
    var rows := s.cat.value;
    var p := RmPlan(rows, path, who).value;
    assert Intend(s, p.intent) == s;
    forall w, q | w in p.writes && w.Erase? && q in rows && rows[q].sha == w.key && rows[q].id in backed
      ensures Protected(s.log, rows[q].id)
    {
      OnlyReferent(rows, path, q);
    }
    forall q | q in p.rows && p.rows[q].id in backed
      ensures p.rows[q].sha in AfterWrites(s, p.writes).objects || Protected(Finish(s, p.intent.opID, true).log, p.rows[q].id)
    {
      RmOtherRowCovered(s, path, who, backed, q);
    }
    ScriptSafe(s, p, backed);
  }

  /** An rm keeps the invariant at every crash point exactly when its op is not already done, or another
      row keeps the bytes, or the file is not object-backed, or its absence is already accounted for. */
  lemma RmWriteAheadIff(s: Node, path: string, who: Who, backed: set<string>)
    requires WriteAhead(s, backed) && s.cat.Some? && path in s.cat.value && DistinctIDs(s.cat.value)
    requires OpFits(s.log, RmEntry(s.cat.value[path], who))
    ensures (forall n :: n in Script(s, RmPlan(s.cat.value, path, who).value) ==> WriteAhead(n, backed))
       <==> RmGuarded(s, path, who, backed)
  {
    var f := s.cat.value[path];
    var p := RmPlan(s.cat.value, path, who).value;
    if !DoneIn(s.log, who.opID) {
      RmWriteAhead(s, path, who, backed);
    } else if RmGuarded(s, path, who, backed) {
      RepeatedRmWriteAhead(s, path, who, backed);
    } else {
      assert Intend(s, p.intent) == s;
      var b := Write(s, Erase(f.sha));
      assert p.writes == [Erase(f.sha)];
      assert b == WriteStates(s, p.writes)[0] && b == Script(s, p)[1];
      assert !WriteAhead(b, backed);
    }
  }

  // ---- identity in the catalog -----------------------------------------------------------

  /** What every reachable catalog keeps: rows keyed by their path, each id the hash of its birth
      record, and no id twice. */
  ghost predicate RowsOk(h: string -> string, rows: RowMap) {
    WellKeyed(rows) && DistinctIDs(rows) && forall p :: p in rows ==> rows[p].id == MintID(h, rows[p].genesis)
  }

  /** No row has this birth record. */
  predicate Unborn(rows: RowMap, g: Genesis) {
    forall p :: p in rows ==> rows[p].genesis != g
  }

  /** A birth record no row has mints an id no row has. */
  lemma UnbornMintsNewID(h: string -> string, rows: RowMap, g: Genesis)
    requires Injective(h) && RowsOk(h, rows)
    ensures Unborn(rows, g) <==> !HoldsID(rows, MintID(h, g))
  {
    forall p | p in rows
      ensures rows[p].id == MintID(h, g) <==> rows[p].genesis == g
    {
      if rows[p].id == MintID(h, g) {
        EqualIDsEqualGenesis(h, rows[p].genesis, g);
      }
    }
  }

  /** Putting the same bytes at the same path repeats the birth record. A put at a free path keeps ids
      distinct exactly when no row was born that way: when the file put there before has not been
      renamed away. */
  lemma PutKeepsRowsIff(h: string -> string, node: string, rows: RowMap, path: string, sha: string, size: int, who: Who)
    requires Injective(h) && RowsOk(h, rows) && path !in rows
    ensures RowsOk(h, rows[path := NewRow(h, node, path, sha, size, who)]) <==> Unborn(rows, Genesis(sha, path, who.opID, node))
  {
    var f := NewRow(h, node, path, sha, size, who);
    UnbornMintsNewID(h, rows, f.genesis);
    if Unborn(rows, f.genesis) {
      AddedRowOk(h, rows, f);
    } else {
      var q :| q in rows && rows[q].genesis == f.genesis;
      var out := rows[path := f];
      assert out[q].id == out[path].id && q != path;
    }
  }

  lemma AddedRowOk(h: string -> string, rows: RowMap, f: File)
    requires RowsOk(h, rows) && !HoldsID(rows, f.id) && f.id == MintID(h, f.genesis)
    ensures RowsOk(h, rows[f.path := f])
  {
  }

  lemma KeptRowOk(h: string -> string, rows: RowMap, path: string, f: File)
    requires RowsOk(h, rows) && path in rows && f.id == rows[path].id && f.genesis == rows[path].genesis
    ensures RowsOk(h, (rows - {path})[f.path := f])
    ensures f.path == path ==> RowsOk(h, rows[path := f])
  {
  }

  lemma RemovedRowOk(h: string -> string, rows: RowMap, path: string)
    requires RowsOk(h, rows)
    ensures RowsOk(h, rows - {path})
  {
  }

  lemma RelabelledRowOk(h: string -> string, rows: RowMap, path: string, f: File)
    requires RowsOk(h, rows) && path in rows && f.path == path && !HoldsID(rows, f.id) && f.id == MintID(h, f.genesis)
    ensures RowsOk(h, rows[path := f])
  {
  }

  lemma CommandKeepsRows(h: string -> string, node: string, s: Node, c: Command, who: Who)
    requires Injective(h) && s.cat.Some? && RowsOk(h, s.cat.value)
    requires PlanOf(h, node, s, c, who).Some? && (c.PutFile? ==> Unborn(s.cat.value, Genesis(c.sha, c.path, who.opID, node)))
    ensures RowsOk(h, PlanOf(h, node, s, c, who).value.rows)
  {
    var rows, out := s.cat.value, PlanOf(h, node, s, c, who).value.rows;
    match c
    case PutFile(path, sha, size) => PutKeepsRowsIff(h, node, rows, path, sha, size, who);
    case Rename(path, to) => KeptRowOk(h, rows, path, out[to]);
    case Rm(path) => RemovedRowOk(h, rows, path);
    case SetMode(path, _) => KeptRowOk(h, rows, path, out[path]);
    case RestoreID(path, _, _) => RelabelledRowOk(h, rows, path, out[path]);
  }

  // ---- runs with crashes -----------------------------------------------------------------

  /** One command of a run, dead after so many writes. */
  datatype Event = Event(c: Command, who: Who, writes: nat)

  function Perform(h: string -> string, node: string, s: Node, ev: Event): Node {
    var p := PlanOf(h, node, s, ev.c, ev.who);
    if p.None? || ev.writes == 0 then s
    else
      var states := Script(s, p.value);
      if ev.writes >= |states| then states[|states| - 1] else states[ev.writes - 1]
  }

  function Run(h: string -> string, node: string, s: Node, evs: seq<Event>): Node
    decreases |evs|
  {
    if evs == [] then s else Run(h, node, Perform(h, node, s, evs[0]), evs[1..])
  }

  /** The guard of each command: what PutKeepsRowsIff, RmWriteAheadIff and RestoreWriteAheadIff show to be
      exactly what the command needs. Renames and mode changes need nothing. */
  ghost predicate Guarded(node: string, s: Node, c: Command, who: Who, intent: Entry, backed: set<string>)
    requires s.cat.Some?
  {
    match c
    case PutFile(path, sha, _) => Unborn(s.cat.value, Genesis(sha, path, who.opID, node))
    case Rm(path) => path in s.cat.value && RmGuarded(s, path, who, backed)
    case RestoreID(path, _, _) => path in s.cat.value && RestoreGuarded(s, c, intent, backed)
    case _ => true
  }

  /** A command of the run meets its guard, and its op id does not clash with another request's. */
  ghost predicate Careful(h: string -> string, node: string, s: Node, ev: Event, backed: set<string>) {
    var p := PlanOf(h, node, s, ev.c, ev.who);
    p.Some? ==> OpFits(s.log, p.value.intent) && Guarded(node, s, ev.c, ev.who, p.value.intent, backed)
  }

  ghost predicate AllCareful(h: string -> string, node: string, s: Node, evs: seq<Event>, backed: set<string>)
    decreases |evs|
  {
    evs != [] ==> Careful(h, node, s, evs[0], backed) && AllCareful(h, node, Perform(h, node, s, evs[0]), evs[1..], backed)
  }

  lemma {:induction false} WriteStatesKeepCatalog(n: Node, ws: seq<ObjectWrite>)
    ensures forall m :: m in WriteStates(n, ws) ==> m.cat == n.cat
    ensures AfterWrites(n, ws).cat == n.cat
    decreases |ws|
  {
    if ws != [] {
      WriteStatesKeepCatalog(Write(n, ws[0]), ws[1..]);
    }
  }

  lemma ScriptCatalogs(s: Node, p: Plan)
    ensures forall n :: n in Script(s, p) ==> n.cat == s.cat || n.cat == Some(p.rows)
  {
    var a := Intend(s, p.intent);
    WriteStatesKeepCatalog(a, p.writes);
  }

  lemma PerformsAState(h: string -> string, node: string, s: Node, ev: Event)
    ensures Perform(h, node, s, ev) == s
      || (PlanOf(h, node, s, ev.c, ev.who).Some? && Perform(h, node, s, ev) in Script(s, PlanOf(h, node, s, ev.c, ev.who).value))
  {
  }

  /** The guards are exact: a planned command leaves only covered states, and its plan keeps ids
      distinct and self-certified, if and only if it meets its guard. */
  lemma CommandSafeIff(h: string -> string, node: string, s: Node, c: Command, who: Who, backed: set<string>)
    requires Injective(h) && s.cat.Some? && RowsOk(h, s.cat.value) && WriteAhead(s, backed)
    requires PlanOf(h, node, s, c, who).Some? && OpFits(s.log, PlanOf(h, node, s, c, who).value.intent)
    ensures var p := PlanOf(h, node, s, c, who).value;
            (RowsOk(h, p.rows) && forall n :: n in Script(s, p) ==> WriteAhead(n, backed)) <==> Guarded(node, s, c, who, p.intent, backed)
  {
    match c
    case PutFile(path, sha, size) =>
      NonDeletingCommandsWriteAhead(h, node, s, c, who, backed);
      PutKeepsRowsIff(h, node, s.cat.value, path, sha, size, who);
    case Rm(path) =>
      RmWriteAheadIff(s, path, who, backed);
      CommandKeepsRows(h, node, s, c, who);
    case RestoreID(_, _, _) =>
      RestoreWriteAheadIff(h, node, s, c, who, backed);
      CommandKeepsRows(h, node, s, c, who);
    case _ =>
      NonDeletingCommandsWriteAhead(h, node, s, c, who, backed);
      CommandKeepsRows(h, node, s, c, who);
  }

  lemma EventKeeps(h: string -> string, node: string, s: Node, ev: Event, backed: set<string>)
    requires Injective(h) && s.cat.Some? && RowsOk(h, s.cat.value) && WriteAhead(s, backed) && Careful(h, node, s, ev, backed)
    ensures var t := Perform(h, node, s, ev); t.cat.Some? && RowsOk(h, t.cat.value) && WriteAhead(t, backed)
  {
    PerformsAState(h, node, s, ev);
    var p := PlanOf(h, node, s, ev.c, ev.who);
    if p.Some? {
      CommandSafeIff(h, node, s, ev.c, ev.who, backed);
      ScriptCatalogs(s, p.value);
    }
  }

  /** Over any run of commands, each of which may crash after any write and be run again or not, the
      catalog keeps one home per id and every object-backed row has its bytes or a pending op that
      says why not. */
  lemma {:induction false} RunKeeps(h: string -> string, node: string, s: Node, evs: seq<Event>, backed: set<string>)
    requires Injective(h) && s.cat.Some? && RowsOk(h, s.cat.value) && WriteAhead(s, backed) && AllCareful(h, node, s, evs, backed)
    ensures var t := Run(h, node, s, evs); t.cat.Some? && RowsOk(h, t.cat.value) && WriteAhead(t, backed)
    decreases |evs|
  {
    if evs != [] {
      EventKeeps(h, node, s, evs[0], backed);
      RunKeeps(h, node, Perform(h, node, s, evs[0]), evs[1..], backed);
    }
  }

  const EMPTY_NODE: Node := Node(Some(map[]), LogView(None, []), map[])

  lemma PerformAll(h: string -> string, node: string, s: Node, ev: Event)
    requires PlanOf(h, node, s, ev.c, ev.who).Some?
    requires var p := PlanOf(h, node, s, ev.c, ev.who).value; !Append(s.log, p.intent).0.Held? && ev.writes >= |Script(s, p)|
    ensures var p := PlanOf(h, node, s, ev.c, ev.who).value;
            Perform(h, node, s, ev) == Finish(Persist(AfterWrites(Intend(s, p.intent), p.writes), p.rows), p.intent.opID, true)
  {
  }

  const EVERY_WRITE: nat := 4

  lemma PutCompletes(h: string -> string, node: string, s: Node, path: string, sha: string, size: int, who: Who)
    requires s.cat.Some? && path !in s.cat.value
    requires !Append(s.log, IngestEntry(h, node, path, sha, size, who)).0.Held?
    ensures Perform(h, node, s, Event(PutFile(path, sha, size), who, EVERY_WRITE))
         == Node(Some(s.cat.value[path := NewRow(h, node, path, sha, size, who)]),
                 MarkOp(Append(s.log, IngestEntry(h, node, path, sha, size, who)).1, who.opID, true),
                 if sha in s.objects then s.objects else s.objects[sha := sha])
  {
    UnfoldOne(Intend(s, IngestEntry(h, node, path, sha, size, who)), Upload(sha, sha));
    PerformAll(h, node, s, Event(PutFile(path, sha, size), who, EVERY_WRITE));
  }

  lemma RmAlone(h: string -> string, node: string, s: Node, path: string, who: Who)
    requires s.cat.Some? && path in s.cat.value && Referents(s.cat.value, s.cat.value[path].sha) == {path}
    requires !Append(s.log, RmEntry(s.cat.value[path], who)).0.Held?
    ensures var f := s.cat.value[path];
            var a := Intend(s, RmEntry(f, who));
            && Perform(h, node, s, Event(Rm(path), who, EVERY_WRITE))
               == Node(Some(s.cat.value - {path}), MarkOp(a.log, who.opID, true), s.objects - {f.sha})
            && Perform(h, node, s, Event(Rm(path), who, 2)) == DropObject(a, f.sha)
  {
    UnfoldOne(Intend(s, RmEntry(s.cat.value[path], who)), Erase(s.cat.value[path].sha));
    PerformAll(h, node, s, Event(Rm(path), who, EVERY_WRITE));
  }

  /** Presenting a completed op again changes nothing in the log. */
  lemma DoneOpAgain(v: LogView, e: Entry)
    requires DoneIn(v, e.opID)
    ensures !Append(v, e).0.Held? && Append(v, e).1 == v && MarkOp(v, e.opID, true) == v
  {
  }

  lemma RunThree(h: string -> string, node: string, s: Node, a: Event, b: Event, c: Event)
    ensures Run(h, node, s, [a, b, c]) == Perform(h, node, Perform(h, node, Perform(h, node, s, a), b), c)
  {
    var evs := [a, b, c];
    var s1 := Perform(h, node, s, a);
    var s2 := Perform(h, node, s1, b);
    assert evs[1..] == [b, c] && [b, c][1..] == [c] && [c][1..] == [];
    assert Run(h, node, s2, [c]) == Run(h, node, Perform(h, node, s2, c), []);
    assert Run(h, node, s1, [b, c]) == Run(h, node, s2, [c]);
  }

  lemma UnfoldOne(n: Node, w: ObjectWrite)
    ensures AfterWrites(n, [w]) == Write(n, w) && WriteStates(n, [w]) == [Write(n, w)]
  {
  }

  /** The log of a node that saw one put and one rm of the same file complete. */
  function PutRmLog(e: Entry, f: Entry): LogView {
    var v1 := MarkOp(Append(EMPTY_NODE.log, e).1, e.opID, true);
    MarkOp(Append(v1, f).1, f.opID, true)
  }

  lemma PutRmLogIs(e: Entry, f: Entry)
    requires e.opID != f.opID
    ensures var v1 := MarkOp(Append(EMPTY_NODE.log, e).1, e.opID, true);
            var v2 := PutRmLog(e, f);
      && !HasOp(EMPTY_NODE.log, e.opID) && !Append(EMPTY_NODE.log, e).0.Held? && !Append(v1, f).0.Held?
      && DoneIn(v2, e.opID) && DoneIn(v2, f.opID)
      && forall id :: !Protected(v2, id)
  {
    CompletedOp(EMPTY_NODE.log, e);
    CompletedOp(MarkOp(Append(EMPTY_NODE.log, e).1, e.opID, true), f);
  }

  lemma PutThenRm(h: string -> string, node: string, put: Who, rm: Who, path: string, sha: string, size: int)
    requires put.opID != rm.opID
    ensures Run(h, node, EMPTY_NODE, [Event(PutFile(path, sha, size), put, EVERY_WRITE), Event(Rm(path), rm, EVERY_WRITE), Event(PutFile(path, sha, size), put, EVERY_WRITE)])
         == Node(Some(map[path := NewRow(h, node, path, sha, size, put)]),
                 PutRmLog(IngestEntry(h, node, path, sha, size, put), RmEntry(NewRow(h, node, path, sha, size, put), rm)),
                 map[sha := sha])
  {
    var put1, rm1 := Event(PutFile(path, sha, size), put, EVERY_WRITE), Event(Rm(path), rm, EVERY_WRITE);
    var row := NewRow(h, node, path, sha, size, put);
    var e, f := IngestEntry(h, node, path, sha, size, put), RmEntry(row, rm);
    var v1 := MarkOp(Append(EMPTY_NODE.log, e).1, e.opID, true);
    var v2 := PutRmLog(e, f);
    PutRmLogIs(e, f);
    var s1, s2, s3 := Node(Some(map[path := row]), v1, map[sha := sha]), Node(Some(map[]), v2, map[]), Node(Some(map[path := row]), v2, map[sha := sha]);
    assert Perform(h, node, EMPTY_NODE, put1) == s1 by {
      PutCompletes(h, node, EMPTY_NODE, path, sha, size, put);
    }
    assert Perform(h, node, s1, rm1) == s2 by {
      RmAlone(h, node, s1, path, rm);
      assert Perform(h, node, s1, rm1).objects == s2.objects;
    }
    DoneOpAgain(v2, e);
    assert Perform(h, node, s2, put1) == s3 by {
      PutCompletes(h, node, s2, path, sha, size, put);
    }
    RunThree(h, node, EMPTY_NODE, put1, rm1, put1);
  }

  /** The hole, as a run: put a file, remove it, put it back, and remove it again. The second put and
      the second rm repeat op ids that are done, so a crash inside the second rm loses the bytes with
      the row still live and nothing pending. */
  lemma PutRmPutRm(h: string -> string, node: string, put: Who, rm: Who, path: string, sha: string, size: int)
    requires put.opID != rm.opID
    ensures var c, d := PutFile(path, sha, size), Rm(path);
            var s := Run(h, node, EMPTY_NODE, [Event(c, put, EVERY_WRITE), Event(d, rm, EVERY_WRITE), Event(c, put, EVERY_WRITE)]);
            var t := Perform(h, node, s, Event(d, rm, 2));
            var id := MintID(h, Genesis(sha, path, put.opID, node));
            WriteAhead(s, {id}) && !WriteAhead(t, {id}) && t.log == s.log && path in t.cat.value
  {
    PutThenRm(h, node, put, rm, path, sha, size);
    var row := NewRow(h, node, path, sha, size, put);
    var e, f := IngestEntry(h, node, path, sha, size, put), RmEntry(row, rm);
    var s3 := Node(Some(map[path := row]), PutRmLog(e, f), map[sha := sha]);
    PutRmLogIs(e, f);
    DoneOpAgain(PutRmLog(e, f), f);
    RmAlone(h, node, s3, path, rm);
  }

  lemma RenameCompletes(h: string -> string, node: string, s: Node, path: string, to: string, who: Who)
    requires s.cat.Some? && path in s.cat.value && to !in s.cat.value
    requires !Append(s.log, RenameEntry(node, s.cat.value[path], to, who)).0.Held?
    ensures Perform(h, node, s, Event(Rename(path, to), who, EVERY_WRITE))
         == Node(Some((s.cat.value - {path})[to := s.cat.value[path].(path := to, updatedAt := who.now)]),
                 MarkOp(Append(s.log, RenameEntry(node, s.cat.value[path], to, who)).1, who.opID, true), s.objects)
  {
    PerformAll(h, node, s, Event(Rename(path, to), who, EVERY_WRITE));
  }

  /** The hole in distinct ids, as a run: put a file, rename it, put the same bytes where it was. Two
      live rows carry one id. */
  lemma PutRenamePut(h: string -> string, node: string, put: Who, mv: Who, a: string, b: string, sha: string, size: int)
    requires put.opID != mv.opID && a != b
    ensures var s := Run(h, node, EMPTY_NODE, [Event(PutFile(a, sha, size), put, EVERY_WRITE), Event(Rename(a, b), mv, EVERY_WRITE), Event(PutFile(a, sha, size), put, EVERY_WRITE)]);
            s.cat.Some? && a in s.cat.value && b in s.cat.value && s.cat.value[a].id == s.cat.value[b].id && !DistinctIDs(s.cat.value)
  {
    var put1, mv1 := Event(PutFile(a, sha, size), put, EVERY_WRITE), Event(Rename(a, b), mv, EVERY_WRITE);
    var row := NewRow(h, node, a, sha, size, put);
    var e, f := IngestEntry(h, node, a, sha, size, put), RenameEntry(node, row, b, mv);
    var v1 := MarkOp(Append(EMPTY_NODE.log, e).1, e.opID, true);
    var v2 := MarkOp(Append(v1, f).1, f.opID, true);
    CompletedOp(EMPTY_NODE.log, e);
    CompletedOp(v1, f);
    var s1 := Perform(h, node, EMPTY_NODE, put1);
    PutCompletes(h, node, EMPTY_NODE, a, sha, size, put);
    assert s1 == Node(Some(map[a := row]), v1, map[sha := sha]);
    var s2 := Perform(h, node, s1, mv1);
    RenameCompletes(h, node, s1, a, b, mv);
    assert s2.log == v2 && a !in s2.cat.value && b in s2.cat.value && s2.cat.value[b].id == row.id;
    DoneOpAgain(v2, e);
    PutCompletes(h, node, s2, a, sha, size, put);
    RunThree(h, node, EMPTY_NODE, put1, mv1, put1);
  }

  /** A crashed put can be repeated as the same command exactly while its catalog has not been written:
      from then on the conflict check finds the path taken. */
  lemma PutResumeAcceptedIff(h: string -> string, node: string, s: Node, path: string, sha: string, size: int, who: Who, k: nat)
    requires s.cat.Some? && path !in s.cat.value
    requires Append(s.log, IngestEntry(h, node, path, sha, size, who)).0.Fresh?
    ensures var p := PutPlan(h, node, s.cat.value, path, sha, size, who).value;
            |Script(s, p)| == 4 && (k < 4 ==> (PlanOf(h, node, Script(s, p)[k], PutFile(path, sha, size), who).Some? <==> k < 2))
  {
    var p := PutPlan(h, node, s.cat.value, path, sha, size, who).value;
    UnfoldOne(Intend(s, p.intent), Upload(sha, sha));
  }
}
