/** The cross-member move: eight steps over two nodes, any of which may be the last one a crashing
    client performs, and the queries a resolver may race it with. */
module Moves {
  import opened Wrappers
  import opened Text
  import opened Wal
  import opened Catalogs
  import opened Vaults
  import opened Rosters
  import opened Commands

  /** The inputs of one move: the row as resolved, both members, the destination path, and the clock. */
  datatype Move = Move(file: File, src: string, dst: string, destPath: string, opID: string, actor: string, at: Clocks)

  /** The clock each end's intent and the destination row were written with. One run has one clock; a
      move that crashed and was run again may show several. */
  datatype Clocks = Clocks(src: int, dst: int, row: int)

  predicate WellPosed(m: Move) {
    m.src != m.dst && m.dst != ""
  }

  function SrcIntent(m: Move): Entry {
    Entry(0, m.opID, ZeroHash, OpType.Move, [m.file.id], m.actor, m.at.src,
          map[From := m.src, To := m.dst, MovedTo := m.dst, SrcPath := m.file.path, DestPath := m.destPath, ContentSha256 := m.file.sha])
  }

  function DstIntent(m: Move): Entry {
    Entry(0, m.opID, ZeroHash, OpType.Move, [m.file.id], m.actor, m.at.dst,
          map[Id := m.file.id, From := m.src, SrcPath := m.file.path, DestPath := m.destPath, ContentSha256 := m.file.sha,
              OriginalPath := m.file.genesis.originalPath, IngestOpId := m.file.genesis.ingestOpID, OriginNode := m.file.genesis.originNode,
              SyncModeArg := m.file.syncMode, Size := Integer(m.file.size)])
  }

  /** The row that goes live at the destination: id, genesis and mode carried over, sha re-hashed on drift. */
  function Arrived(m: Move, hash: string, size: int): File {
    m.file.(path := m.destPath, sha := hash, size := size, updatedAt := m.at.row,
            lastScanned := if hash == m.file.sha then m.file.lastScanned else m.at.row)
  }

  datatype Pair = Pair(src: Node, dst: Node)

  /** What the destination holds under the file's key once the transfer is through. */
  function Carried(s: Pair, m: Move): string {
    if m.file.sha in s.dst.objects then s.dst.objects[m.file.sha] else Bytes(s.src, m.file.sha)
  }

  function Bytes(n: Node, key: string): string {
    if key in n.objects then n.objects[key] else ""
  }

  function RowsOf(n: Node): RowMap {
    if n.cat.Some? then n.cat.value else map[]
  }

  /** Step k of a move that started from s, on the nodes as the earlier steps left them. */
  function Step(s: Pair, m: Move, k: nat, size: int, p: Pair): Pair
  {
    match k
    case 1 => p.(src := Intend(p.src, SrcIntent(m)))
    case 2 => p.(dst := Intend(p.dst, DstIntent(m)))
    case 3 => p.(dst := PutObject(p.dst, m.file.sha, Bytes(s.src, m.file.sha)))
    case 4 => p.(dst := PutObject(p.dst, Carried(s, m), Carried(s, m)))
    case 5 => p.(dst := Persist(p.dst, RowsOf(s.dst)[m.destPath := Arrived(m, Carried(s, m), size)]))
    case 6 => p.(dst := Finish(p.dst, m.opID, true))
    case 7 => p.(src := Persist(p.src, RowsOf(s.src) - {m.file.path}))
    case _ => p.(src := Finish(p.src, m.opID, true))
  }

  /** The two nodes after the first k steps, in closed form. */
  function Phase(s: Pair, m: Move, k: nat, size: int): Pair
  {
    Pair(Node(if k >= 7 then Some(RowsOf(s.src) - {m.file.path}) else s.src.cat,
              Journaled(s.src.log, SrcIntent(m), k >= 1, k >= 8),
              s.src.objects),
         Node(if k >= 5 then Some(RowsOf(s.dst)[m.destPath := Arrived(m, Carried(s, m), size)]) else s.dst.cat,
              Journaled(s.dst.log, DstIntent(m), k >= 2, k >= 6),
              Received(s, m, k)))
  }

  function Journaled(v: LogView, e: Entry, appended: bool, done: bool): LogView {
    var w := if appended then Append(v, e).1 else v;
    if done then MarkOp(w, e.opID, true) else w
  }

  function Received(s: Pair, m: Move, k: nat): map<string, string> {
    var a := if k >= 3 then PutObject(s.dst, m.file.sha, Bytes(s.src, m.file.sha)) else s.dst;
    if k >= 4 then PutObject(a, Carried(s, m), Carried(s, m)).objects else a.objects
  }

  /** The closed form is what performing the steps one by one gives. */
  lemma StepAdvances(s: Pair, m: Move, k: nat, size: int)
    requires 1 <= k <= 8
    ensures Phase(s, m, k, size) == Step(s, m, k, size, Phase(s, m, k - 1, size))
    ensures Phase(s, m, 0, size) == s
  {
  }

  /** The source holds the row and its bytes, the destination knows nothing of the id or the path. */
  ghost predicate Staged(s: Pair, m: Move) {
    && WellPosed(m)
    && s.src.cat.Some? && WellKeyed(s.src.cat.value) && m.file.path in s.src.cat.value && s.src.cat.value[m.file.path] == m.file
    && DistinctIDs(s.src.cat.value)
    && s.dst.cat.Some? && WellKeyed(s.dst.cat.value) && m.destPath !in s.dst.cat.value && !HoldsID(s.dst.cat.value, m.file.id)
    && m.file.sha in s.src.objects
    && (Carried(s, m) == m.file.sha || m.file.syncMode == MANUAL)
  }

  /** A fresh move: staged, and neither log has seen the op or has an intent on the file. */
  ghost predicate Fresh(s: Pair, m: Move) {
    && Staged(s, m)
    && !HasOp(s.src.log, m.opID) && !HasOp(s.dst.log, m.opID)
    && !Blocked(s.src.log, [m.file.id]) && !Blocked(s.dst.log, [m.file.id])
  }

  predicate Holds(n: Node, id: string) {
    n.cat.Some? && HoldsID(n.cat.value, id)
  }

  /** What the two intents tell a reader of either log. Both carry the one op id. */
  lemma IntentsTell(m: Move)
    ensures var e := SrcIntent(m);
            && e.opID == m.opID && e.opType == OpType.Move && e.blobRefs == [m.file.id] && e.actor == m.actor && e.createdAt == m.at.src
            && ArgOf(e, From) == m.src && ArgOf(e, To) == m.dst && ArgOf(e, MovedTo) == m.dst
            && ArgOf(e, SrcPath) == m.file.path && ArgOf(e, DestPath) == m.destPath && ArgOf(e, ContentSha256) == m.file.sha
    ensures var e := DstIntent(m);
            && e.opID == m.opID && e.opType == OpType.Move && e.blobRefs == [m.file.id] && e.actor == m.actor && e.createdAt == m.at.dst
            && ArgOf(e, Id) == m.file.id && ArgOf(e, From) == m.src && ArgOf(e, MovedTo) == "" && ArgOf(e, To) == ""
            && ArgOf(e, SrcPath) == m.file.path && ArgOf(e, DestPath) == m.destPath && ArgOf(e, ContentSha256) == m.file.sha
            && ArgOf(e, OriginalPath) == m.file.genesis.originalPath && ArgOf(e, IngestOpId) == m.file.genesis.ingestOpID && ArgOf(e, OriginNode) == m.file.genesis.originNode
            && ArgOf(e, SyncModeArg) == m.file.syncMode && ArgOf(e, Size) == Integer(m.file.size)
  {
  }

  /** The move changes one row on each node and nothing else in the catalogs. The row that arrives is the
      same file: its id, birth record, mode and first time are kept, its hash is that of the bytes that
      came, and it counts as scanned now only if they are not the ones recorded. */
  lemma MoveTouchesOneFile(s: Pair, m: Move, k: nat, size: int)
    requires Fresh(s, m) && k <= 8
    ensures var src, dst := Phase(s, m, k, size).src.cat, Phase(s, m, k, size).dst.cat;
            && src.Some? && dst.Some?
            && (forall q :: q != m.file.path ==> (q in src.value <==> q in s.src.cat.value) && (q in src.value ==> src.value[q] == s.src.cat.value[q]))
            && (m.file.path in src.value <==> k <= 6) && (k <= 6 ==> src.value[m.file.path] == m.file)
            && (forall q :: q != m.destPath ==> (q in dst.value <==> q in s.dst.cat.value) && (q in dst.value ==> dst.value[q] == s.dst.cat.value[q]))
            && (m.destPath in dst.value <==> k >= 5)
            && (k >= 5 ==>
                  var f := dst.value[m.destPath];
                  && f.path == m.destPath && f.id == m.file.id && f.genesis == m.file.genesis && f.syncMode == m.file.syncMode && f.createdAt == m.file.createdAt
                  && f.sha == Carried(s, m) && f.size == size && f.updatedAt == m.at.row
                  && f.lastScanned == if Carried(s, m) == m.file.sha then m.file.lastScanned else m.at.row)
  {
    PhaseParts(s, m, k, size);
  }

  /** It takes no bytes from anybody: the source keeps its objects, and the destination gains at most the
      file's, under the recorded hash from step 3 and under their own from step 4. */
  lemma MoveOnlyAddsBytes(s: Pair, m: Move, k: nat, size: int)
    requires Fresh(s, m) && k <= 8
    ensures var p := Phase(s, m, k, size);
            && p.src.objects == s.src.objects
            && (forall key :: key in s.dst.objects ==> key in p.dst.objects && p.dst.objects[key] == s.dst.objects[key])
            && (forall key :: key in p.dst.objects && key !in s.dst.objects ==> p.dst.objects[key] == Carried(s, m) && ((k >= 3 && key == m.file.sha) || (k >= 4 && key == Carried(s, m))))
            && (k >= 3 ==> m.file.sha in p.dst.objects) && (k >= 4 ==> Carried(s, m) in p.dst.objects)
    ensures Carried(s, m) == if m.file.sha in s.dst.objects then s.dst.objects[m.file.sha] else s.src.objects[m.file.sha]
  {
  }

  /** And in the logs it leaves one record each: pending from the first and second step, done from the sixth
      at the destination and the last at the source. */
  lemma MoveRecords(s: Pair, m: Move, k: nat, size: int)
    requires Fresh(s, m) && k <= 8 && Next(s.src.log) < MARKER_LIMIT && Next(s.dst.log) < MARKER_LIMIT
    ensures var src, dst := Phase(s, m, k, size).src.log.recs, Phase(s, m, k, size).dst.log.recs;
            && src == s.src.log.recs + (if k < 1 then [] else [Rec(Candidate(s.src.log, SrcIntent(m)), if k < 8 then Intent else Done)])
            && dst == s.dst.log.recs + (if k < 2 then [] else [Rec(Candidate(s.dst.log, DstIntent(m)), if k < 6 then Intent else Done)])
  {
    PhaseParts(s, m, k, size);
    CompletedOp(s.src.log, SrcIntent(m));
    CompletedOp(s.dst.log, DstIntent(m));
    AppendFresh(s.src.log, SrcIntent(m));
    AppendFresh(s.dst.log, DstIntent(m));
  }

  /** Where the catalogs, logs and objects stand in each phase. */
  ghost predicate Parts(s: Pair, m: Move, k: nat, size: int, p: Pair)
  {
    && p.src.cat == (if k >= 7 then Some(RowsOf(s.src) - {m.file.path}) else s.src.cat)
    && p.dst.cat == (if k >= 5 then Some(RowsOf(s.dst)[m.destPath := Arrived(m, Carried(s, m), size)]) else s.dst.cat)
    && p.src.log == LogAt(s.src.log, SrcIntent(m), k >= 1, k >= 8)
    && p.dst.log == LogAt(s.dst.log, DstIntent(m), k >= 2, k >= 6)
    && p.src.objects == s.src.objects
    && (k < 3 ==> p.dst.objects == s.dst.objects)
    && (k >= 3 ==> m.file.sha in p.dst.objects && p.dst.objects[m.file.sha] == Carried(s, m))
    && (k >= 4 ==> Carried(s, m) in p.dst.objects)
    && s.dst.objects.Keys <= p.dst.objects.Keys
  }

  function LogAt(v: LogView, e: Entry, appended: bool, done: bool): LogView {
    if !appended then v else if !done then AppendRec(v, e) else MarkOp(AppendRec(v, e), e.opID, true)
  }

  lemma {:induction false} PhaseParts(s: Pair, m: Move, k: nat, size: int)
    requires Fresh(s, m) && k <= 8
    ensures Parts(s, m, k, size, Phase(s, m, k, size))
  {
    AppendFresh(s.src.log, SrcIntent(m));
    AppendFresh(s.dst.log, DstIntent(m));
    if k > 0 {
      PhaseParts(s, m, k - 1, size);
    }
  }

  predicate Pending(v: LogView, opID: string) {
    exists i :: 0 <= i < |v.recs| && v.recs[i].entry.opID == opID && v.recs[i].state == Intent
  }

  /** Never zero homes, two only between going live at the destination and leaving the source,
      and then the source's intent is still pending; every row carries the same id and genesis. */
  lemma NeverHomeless(s: Pair, m: Move, k: nat, size: int)
    requires Fresh(s, m) && k <= 8
    ensures var p := Phase(s, m, k, size);
      && p.src.cat.Some? && p.dst.cat.Some?
      && (Holds(p.src, m.file.id) <==> k < 7)
      && (Holds(p.dst, m.file.id) <==> k >= 5)
      && (Holds(p.src, m.file.id) && Holds(p.dst, m.file.id) ==>
            Pending(p.src.log, m.opID))
      && (forall q :: q in p.src.cat.value && p.src.cat.value[q].id == m.file.id ==> p.src.cat.value[q].genesis == m.file.genesis)
      && (forall q :: q in p.dst.cat.value && p.dst.cat.value[q].id == m.file.id ==> p.dst.cat.value[q].genesis == m.file.genesis)
  {
    PhaseParts(s, m, k, size);
    var p := Phase(s, m, k, size);
    if k < 7 {
      assert m.file.path in p.src.cat.value;
    }
    if k >= 5 {
      assert m.destPath in p.dst.cat.value && p.dst.cat.value[m.destPath].id == m.file.id;
    }
    if 1 <= k < 8 {
      var last := |p.src.log.recs| - 1;
      assert p.src.log.recs[last] == Rec(Candidate(s.src.log, SrcIntent(m)), Intent);
    }
  }

  /** The op id is derived from id, members and path, so moving a file there, back and there again presents
      an op that is already done. While the file has two homes the source's log says so exactly when the
      op it has is a pending one. */
  lemma TwoHomesPendingIff(s: Pair, m: Move, k: nat, size: int)
    requires Staged(s, m) && 5 <= k <= 6 && DistinctOps(s.src.log) && !Append(s.src.log, SrcIntent(m)).0.Held?
    ensures Holds(Phase(s, m, k, size).src, m.file.id) && Holds(Phase(s, m, k, size).dst, m.file.id)
    ensures Pending(Phase(s, m, k, size).src.log, m.opID) <==> !HasOp(s.src.log, m.opID) || Pending(s.src.log, m.opID)
  {
    var p := Phase(s, m, k, size);
    assert m.file.path in p.src.cat.value && m.destPath in p.dst.cat.value && p.dst.cat.value[m.destPath].id == m.file.id;
    if !HasOp(s.src.log, m.opID) {
      assert p.src.log.recs[|s.src.log.recs|].entry.opID == m.opID;
    }
  }

  lemma DoneStays(v: LogView, e: Entry, opID: string)
    requires !HasOp(v, e.opID) && !Blocked(v, e.blobRefs) && opID != e.opID && HasOp(v, opID) && !Pending(v, opID)
    ensures var w := Journaled(v, e, true, true); HasOp(w, opID) && !Pending(w, opID)
  {
    AppendFresh(v, e);
    var a, w := AppendRec(v, e), Journaled(v, e, true, true);
    assert forall i :: 0 <= i < |v.recs| ==> a.recs[i] == v.recs[i];
    assert a.recs[|v.recs|].entry.opID == e.opID;
    assert forall i :: 0 <= i < |a.recs| && a.recs[i].entry.opID == opID ==> w.recs[i] == a.recs[i];
    var i :| 0 <= i < |v.recs| && v.recs[i].entry.opID == opID;
    assert a.recs[i].entry.opID == opID;
  }

  /** The failing run: there, back, and there again to the same path. The file has two homes and no op of
      that move is pending at the source. */
  lemma ThereAndBackAgain(s: Pair, m: Move, back: Move, again: Move, k: nat, size: int, size2: int, size3: int)
    requires Fresh(s, m) && Next(s.src.log) < MARKER_LIMIT && 5 <= k <= 6
    requires var p := Phase(s, m, 8, size); Fresh(Pair(p.dst, p.src), back) && back.opID != m.opID && again.opID == m.opID
    requires var p := Phase(s, m, 8, size); var q := Phase(Pair(p.dst, p.src), back, 8, size2); Staged(Pair(q.dst, q.src), again)
    ensures var p := Phase(s, m, 8, size); var q := Phase(Pair(p.dst, p.src), back, 8, size2);
            var r := Phase(Pair(q.dst, q.src), again, k, size3);
            Holds(r.src, again.file.id) && Holds(r.dst, again.file.id) && !Pending(r.src.log, again.opID)
  {
    var p := Phase(s, m, 8, size);
    var q := Phase(Pair(p.dst, p.src), back, 8, size2);
    FinishedMove(s, m, size);
    DoneStays(p.src.log, DstIntent(back), m.opID);
    TwoHomes(Pair(q.dst, q.src), again, k, size3);
  }

  lemma FinishedMove(s: Pair, m: Move, size: int)
    requires Fresh(s, m) && Next(s.src.log) < MARKER_LIMIT
    ensures var v := Phase(s, m, 8, size).src.log; HasOp(v, m.opID) && !Pending(v, m.opID)
  {
    CompletedOp(s.src.log, SrcIntent(m));
    var v := Phase(s, m, 8, size).src.log;
    assert v.recs[|s.src.log.recs|].entry.opID == m.opID;
  }

  lemma TwoHomes(t: Pair, m: Move, k: nat, size: int)
    requires Staged(t, m) && HasOp(t.src.log, m.opID) && 5 <= k <= 6
    ensures var r := Phase(t, m, k, size); Holds(r.src, m.file.id) && Holds(r.dst, m.file.id) && r.src.log == t.src.log
  {
    var r := Phase(t, m, k, size);
    assert m.file.path in r.src.cat.value && m.destPath in r.dst.cat.value && r.dst.cat.value[m.destPath].id == m.file.id;
  }

  lemma MoveOpsKeepProtection(v: LogView, e: Entry, id: string, appended: bool, done: bool)
    requires e.opType == OpType.Move && !HasOp(v, e.opID) && Protected(v, id)
    ensures Protected(LogAt(v, e, appended, done), id)
  {
    var i :| 0 <= i < |v.recs| && Guards(v.recs[i], id);
    assert v.recs[i].entry.opID != e.opID;
    var a := AppendRec(v, e);
    assert a.recs[i] == v.recs[i];
    FinishKeepsOthers(a, e.opID, id, i);
    assert Guards(a.recs[i], id);
  }

  /** The bytes are at the destination before the row is: at every crash point both nodes keep the
      write-ahead invariant. */
  lemma MoveWriteAhead(s: Pair, m: Move, k: nat, size: int, backed: set<string>)
    requires Fresh(s, m) && k <= 8 && WriteAhead(s.src, backed) && WriteAhead(s.dst, backed)
    ensures WriteAhead(Phase(s, m, k, size).src, backed) && WriteAhead(Phase(s, m, k, size).dst, backed)
  {
    PhaseParts(s, m, k, size);
    var p := Phase(s, m, k, size);
    forall q | q in p.src.cat.value && p.src.cat.value[q].id in backed && p.src.cat.value[q].sha !in p.src.objects
      ensures Protected(p.src.log, p.src.cat.value[q].id)
    {
      assert p.src.cat.value[q] == s.src.cat.value[q];
      MoveOpsKeepProtection(s.src.log, SrcIntent(m), p.src.cat.value[q].id, k >= 1, k >= 8);
    }
    forall q | q in p.dst.cat.value && p.dst.cat.value[q].id in backed && p.dst.cat.value[q].sha !in p.dst.objects
      ensures Protected(p.dst.log, p.dst.cat.value[q].id)
    {
      assert p.dst.cat.value[q] == s.dst.cat.value[q];
      MoveOpsKeepProtection(s.dst.log, DstIntent(m), p.dst.cat.value[q].id, k >= 2, k >= 6);
    }
  }

  // ---- crash and resume ------------------------------------------------------------------

  /** The same move as a later run of the command issues it: same op id, new clock. */
  function Again(m: Move, t: Clocks): Move {
    m.(at := t)
  }

  /** Which clock is on what, after a first run did k steps and a second one j: an intent keeps the clock
      it was first journaled with, a row the clock it was last written with. */
  function Mixed(m: Move, t: Clocks, k: nat, j: nat): Move {
    m.(at := Clocks(if k >= 1 then m.at.src else t.src, if k >= 2 then m.at.dst else t.dst, if j >= 5 then t.row else m.at.row))
  }

  /** Presenting an intent again, whatever its clock, and marking it again change nothing. */
  lemma JournaledAgain(v: LogView, e: Entry, f: Entry, a1: bool, d1: bool, a2: bool, d2: bool)
    requires e.opID == f.opID && e.blobRefs == f.blobRefs && !HasOp(v, e.opID) && !Blocked(v, e.blobRefs)
    requires (d1 ==> a1) && (d2 ==> a2)
    ensures Journaled(Journaled(v, e, a1, d1), f, a2, d2) == Journaled(v, if a1 then e else f, a1 || a2, d1 || d2)
  {
    if a1 {
      AppendFresh(v, e);
      var a := AppendRec(v, e);
      assert a.recs[|v.recs|].entry.opID == f.opID;
      MarkTwice(a, e.opID);
    }
  }

  /** The transfer again finds what the first one left. */
  lemma ReceivedAgain(s: Pair, m: Move, t: Clocks, k: nat, j: nat, size: int)
    requires Fresh(s, m) && k <= 8 && j <= 8
    ensures var p := Phase(s, m, k, size);
            Carried(p, Again(m, t)) == Carried(s, m) && Received(p, Again(m, t), j) == Received(s, m, if j <= k then k else j)
  {
    PhaseParts(s, m, k, size);
  }

  lemma CatalogsAgain(s: Pair, m: Move, t: Clocks, k: nat, j: nat, size: int, size2: int)
    requires Fresh(s, m) && k <= 8 && j <= 8
    ensures var p, q := Phase(Phase(s, m, k, size), Again(m, t), j, size2), Phase(s, Mixed(m, t, k, j), if j <= k then k else j, if j >= 5 then size2 else size);
            p.src.cat == q.src.cat && p.dst.cat == q.dst.cat
  {
    ReceivedAgain(s, m, t, k, j, size);
    var p := Phase(s, m, k, size);
    var hash := Carried(s, m);
    assert (RowsOf(s.src) - {m.file.path}) - {m.file.path} == RowsOf(s.src) - {m.file.path};
    assert k >= 5 ==> RowsOf(p.dst)[m.destPath := Arrived(Again(m, t), hash, size2)] == RowsOf(s.dst)[m.destPath := Arrived(Again(m, t), hash, size2)];
  }

  /** Running the move again from where a crash left it, at a later time, passes through the phases of one
      move: what the first run did stays, with its clock, and the rest picks up where it stopped. */
  lemma ResumeContinues(s: Pair, m: Move, t: Clocks, k: nat, j: nat, size: int, size2: int)
    requires Fresh(s, m) && k <= 8 && j <= 8
    ensures Phase(Phase(s, m, k, size), Again(m, t), j, size2)
         == Phase(s, Mixed(m, t, k, j), if j <= k then k else j, if j >= 5 then size2 else size)
  {
    JournaledAgain(s.src.log, SrcIntent(m), SrcIntent(Again(m, t)), k >= 1, k >= 8, j >= 1, j >= 8);
    JournaledAgain(s.dst.log, DstIntent(m), DstIntent(Again(m, t)), k >= 2, k >= 6, j >= 2, j >= 6);
    ReceivedAgain(s, m, t, k, j, size);
    CatalogsAgain(s, m, t, k, j, size, size2);
    assert Received(s, Mixed(m, t, k, j), if j <= k then k else j) == Received(s, m, if j <= k then k else j);
    var l := Phase(Phase(s, m, k, size), Again(m, t), j, size2);
    var r := Phase(s, Mixed(m, t, k, j), if j <= k then k else j, if j >= 5 then size2 else size);
    assert l.src.log == r.src.log && l.dst.log == r.dst.log && l.dst.objects == r.dst.objects && l.src.objects == r.src.objects;
  }

  predicate SameButTime(a: File, b: File) {
    a.(updatedAt := b.updatedAt, lastScanned := b.lastScanned) == b
  }

  predicate SameLogButTime(v: LogView, w: LogView) {
    && v.anchor == w.anchor && |v.recs| == |w.recs|
    && forall i :: 0 <= i < |v.recs| ==> v.recs[i].(entry := v.recs[i].entry.(createdAt := w.recs[i].entry.createdAt)) == w.recs[i]
  }

  predicate SameNodeButTime(a: Node, b: Node) {
    && a.objects == b.objects && SameLogButTime(a.log, b.log) && (a.cat.Some? <==> b.cat.Some?)
    && (a.cat.Some? ==> a.cat.value.Keys == b.cat.value.Keys && forall p :: p in a.cat.value ==> SameButTime(a.cat.value[p], b.cat.value[p]))
  }

  lemma JournaledButTime(v: LogView, e: Entry, f: Entry, done: bool)
    requires e.(createdAt := 0) == f.(createdAt := 0) && !HasOp(v, e.opID) && !Blocked(v, e.blobRefs)
    ensures SameLogButTime(Journaled(v, e, true, done), Journaled(v, f, true, done))
  {
    AppendFresh(v, e);
    AppendFresh(v, f);
    var a, b := AppendRec(v, e), AppendRec(v, f);
    var n := |v.recs|;
    assert a.recs[n].entry.opID == e.opID && b.recs[n].entry.opID == e.opID;
    assert forall k :: 0 <= k < n ==> a.recs[k] == v.recs[k] && b.recs[k] == v.recs[k];
    assert FindOp(a, e.opID) == Some(n) && FindOp(b, e.opID) == Some(n);
  }

  lemma ResumeEndsAlike(s: Pair, m: Move, t: Clocks, k: nat, size: int)
    requires Fresh(s, m) && k <= 8
    ensures var p, q := Phase(Phase(s, m, k, size), Again(m, t), 8, size), Phase(s, m, 8, size);
            SameNodeButTime(p.src, q.src) && SameNodeButTime(p.dst, q.dst)
  {
    ResumeContinues(s, m, t, k, 8, size, size);
    var x := Mixed(m, t, k, 8);
    JournaledButTime(s.src.log, SrcIntent(x), SrcIntent(m), true);
    JournaledButTime(s.dst.log, DstIntent(x), DstIntent(m), true);
  }

  /** All that a run needs to get through: neither intent is held up, the source still has the bytes, and
      a content-addressed file arrives as what it was. */
  predicate Unhindered(s: Pair, m: Move) {
    && !Append(s.src.log, SrcIntent(m)).0.Held? && !Append(s.dst.log, DstIntent(m)).0.Held?
    && m.file.sha in s.src.objects && (Carried(s, m) == m.file.sha || m.file.syncMode == MANUAL)
  }

  lemma JournaledNotHeld(v: LogView, e: Entry, f: Entry, appended: bool, done: bool)
    requires !HasOp(v, e.opID) && !Blocked(v, e.blobRefs) && f.opID == e.opID && f.blobRefs == e.blobRefs
    ensures !Append(LogAt(v, e, appended, done), f).0.Held?
  {
    if appended {
      var a := AppendRec(v, e);
      assert a.recs[|v.recs|].entry.opID == f.opID;
      assert FindOp(a, f.opID).Some?;
      MarkedFinds(a, e.opID, true);
    }
  }

  /** The intents a crash leaves do not hold up the run that resumes the move: wherever the first run
      stopped, the next one gets through. */
  lemma ResumeUnhindered(s: Pair, m: Move, t: Clocks, k: nat, size: int)
    requires Fresh(s, m) && k <= 8
    ensures Unhindered(s, m) && Unhindered(Phase(s, m, k, size), Again(m, t))
  {
    PhaseParts(s, m, k, size);
    ReceivedAgain(s, m, t, k, 0, size);
    JournaledNotHeld(s.src.log, SrcIntent(m), SrcIntent(Again(m, t)), k >= 1, k >= 8);
    JournaledNotHeld(s.dst.log, DstIntent(m), DstIntent(Again(m, t)), k >= 2, k >= 6);
  }

  /** A move that crashed anywhere and is run again later gets through and ends where an uninterrupted run
      ends, up to the times written; run again and crashed again, it is still a phase of one move. */
  lemma MoveConverges(s: Pair, m: Move, t: Clocks, k: nat, j: nat, size: int)
    requires Fresh(s, m) && k <= 8 && j <= 8
    ensures var p, q := Phase(Phase(s, m, k, size), Again(m, t), 8, size), Phase(s, m, 8, size);
            SameNodeButTime(p.src, q.src) && SameNodeButTime(p.dst, q.dst)
    ensures Unhindered(Phase(s, m, k, size), Again(m, t))
    ensures exists i, mixed :: k <= i <= 8 && Fresh(s, mixed) && Again(mixed, m.at) == m && Phase(Phase(s, m, k, size), Again(m, t), j, size) == Phase(s, mixed, i, size)
  {
    ResumeEndsAlike(s, m, t, k, size);
    ResumeUnhindered(s, m, t, k, size);
    ResumeContinues(s, m, t, k, j, size, size);
    var y := Mixed(m, t, k, j);
    assert Fresh(s, y) && Again(y, m.at) == m;
    assert Phase(Phase(s, m, k, size), Again(m, t), j, size) == Phase(s, y, if j <= k then k else j, size);
  }

  /** The command's own preflight: the destination path must be free in the live catalog. */
  predicate Preflight(dst: Node, destPath: string) {
    dst.cat.Some? && destPath !in dst.cat.value
  }

  /** A crashed move can be repeated as the same command only while the destination row is not
      live: from step 5 on the preflight finds the path taken and refuses. */
  lemma ResumeAcceptedIff(s: Pair, m: Move, k: nat, size: int)
    requires Fresh(s, m) && k <= 8
    ensures Preflight(Phase(s, m, k, size).dst, m.destPath) <==> k < 5
  {
    PhaseParts(s, m, k, size);
  }

  function PairOf(nodes: Nodes, m: Move): Pair
    requires m.src in nodes && m.dst in nodes
  {
    Pair(nodes[m.src], nodes[m.dst])
  }

  /** Each state this run put the cluster in is a phase of the move, in order; bystanders are untouched. */
  ghost predicate Tracks(start: Nodes, m: Move, size: int, states: seq<Nodes>, phases: seq<nat>)
    requires m.src in start && m.dst in start
  {
    && |states| == |phases|
    && (forall i, j :: 0 <= i < j < |phases| ==> phases[i] < phases[j])
    && forall i :: 0 <= i < |states| ==> 1 <= phases[i] <= 8 && At(start, m, size, states[i], phases[i])
  }

  ghost predicate At(start: Nodes, m: Move, size: int, now: Nodes, k: nat)
    requires m.src in start && m.dst in start
  {
    && now.Keys == start.Keys
    && (forall n :: n in start && n != m.src && n != m.dst ==> now[n] == start[n])
    && PairOf(now, m) == Phase(PairOf(start, m), m, k, size)
  }

  /** What holds after step k: everything recorded since trail0 is on track, and the nodes are at phase k. */
  ghost predicate OnTrack(start: Nodes, m: Move, size: int, trail0: seq<Nodes>, trail: seq<Nodes>, now: Nodes, phases: seq<nat>, k: nat)
    requires m.src in start && m.dst in start
  {
    && trail0 <= trail
    && Tracks(start, m, size, trail[|trail0|..], phases)
    && At(start, m, size, now, k)
    && forall i :: 0 <= i < |phases| ==> phases[i] <= k
  }

  /** One more recorded write. */
  lemma Advance(start: Nodes, m: Move, size: int, trail0: seq<Nodes>, trail: seq<Nodes>, now: Nodes, phases: seq<nat>, next: Nodes, k: nat)
    requires m.src in start && m.dst in start && m.src != m.dst && 1 <= k <= 8
    requires OnTrack(start, m, size, trail0, trail, now, phases, k - 1)
    requires next.Keys == now.Keys && forall n :: n in now && n != m.src && n != m.dst ==> next[n] == now[n]
    requires PairOf(next, m) == Step(PairOf(start, m), m, k, size, PairOf(now, m))
    ensures OnTrack(start, m, size, trail0, trail + [next], next, phases + [k], k)
  {
    StepAdvances(PairOf(start, m), m, k, size);
    assert At(start, m, size, next, k);
    assert (trail + [next])[|trail0|..] == trail[|trail0|..] + [next];
  }

  /** A step that writes nothing. */
  lemma SkipStep(start: Nodes, m: Move, size: int, trail0: seq<Nodes>, trail: seq<Nodes>, now: Nodes, phases: seq<nat>, k: nat)
    requires m.src in start && m.dst in start && m.src != m.dst && 1 <= k <= 8
    requires OnTrack(start, m, size, trail0, trail, now, phases, k - 1)
    requires PairOf(now, m) == Step(PairOf(start, m), m, k, size, PairOf(now, m))
    ensures OnTrack(start, m, size, trail0, trail, now, phases, k)
  {
    StepAdvances(PairOf(start, m), m, k, size);
  }

  /** One run of the command: where the cluster stood and what had been recorded when it began. */
  datatype Run = Run(m: Move, size: int, start: Nodes, trail0: seq<Nodes>)

  predicate WellFormed(r: Run) {
    WellPosed(r.m) && r.m.src in r.start && r.m.dst in r.start
  }

  ghost predicate On(c: Cluster, r: Run, phases: seq<nat>, k: nat)
    requires WellFormed(r)
    reads c
  {
    OnTrack(r.start, r.m, r.size, r.trail0, c.trail, c.nodes, phases, k)
  }

  method LockSource(c: Cluster, ghost r: Run, m: Move) returns (held: bool)
    requires WellFormed(r) && r.m == m && On(c, r, [], 0)
    modifies c
    ensures On(c, r, [1], 1)
    ensures held == Append(r.start[m.src].log, SrcIntent(m)).0.Held?
  {
    ghost var before, trail := c.nodes, c.trail;
    var a := c.AppendIntent(m.src, SrcIntent(m));
    Advance(r.start, m, r.size, r.trail0, trail, before, [], c.nodes, 1);
    held := a.Held?;
  }

  method LockDest(c: Cluster, ghost r: Run, m: Move) returns (held: bool)
    requires WellFormed(r) && r.m == m && On(c, r, [1], 1)
    modifies c
    ensures On(c, r, [1, 2], 2)
    ensures held == Append(r.start[m.dst].log, DstIntent(m)).0.Held?
  {
    ghost var before, trail := c.nodes, c.trail;
    var a := c.AppendIntent(m.dst, DstIntent(m));
    Advance(r.start, m, r.size, r.trail0, trail, before, [1], c.nodes, 2);
    held := a.Held?;
  }

  method Transfer(c: Cluster, ghost r: Run, m: Move) returns (got: Option<string>)
    requires WellFormed(r) && r.m == m && On(c, r, [1, 2], 2)
    modifies c
    ensures got.Some? ==> On(c, r, [1, 2, 3], 3) && got.value == Carried(PairOf(r.start, m), m)
    ensures got.None? ==> On(c, r, [1, 2], 2)
    ensures got.None? <==> m.file.sha !in r.start[m.src].objects
  {
    ghost var before, trail := c.nodes, c.trail;
    var bytes := c.HashObject(m.src, m.file.sha);
    if bytes.None? {
      return None;
    }
    c.Put(m.dst, m.file.sha, bytes.value);
    Advance(r.start, m, r.size, r.trail0, trail, before, [1, 2], c.nodes, 3);
    got := c.HashObject(m.dst, m.file.sha);
  }

  method Rehome(c: Cluster, ghost r: Run, m: Move, hash: string) returns (ok: bool, ghost phases: seq<nat>)
    requires WellFormed(r) && r.m == m && On(c, r, [1, 2, 3], 3)
    requires m.file.sha in r.start[m.src].objects && hash == Carried(PairOf(r.start, m), m)
    modifies c
    ensures ok ==> On(c, r, phases, 4) && phases in {[1, 2, 3], [1, 2, 3, 4]}
    ensures !ok ==> On(c, r, phases, 3) && phases == [1, 2, 3]
    ensures ok <==> hash == m.file.sha || m.file.syncMode == MANUAL
  {
    ghost var before, trail := c.nodes, c.trail;
    phases := [1, 2, 3];
    if hash != m.file.sha && m.file.syncMode != MANUAL {
      return false, phases;
    }
    if hash != m.file.sha {
      c.Put(m.dst, hash, hash);
      Advance(r.start, m, r.size, r.trail0, trail, before, [1, 2, 3], c.nodes, 4);
      return true, [1, 2, 3, 4];
    }
    SkipStep(r.start, m, r.size, r.trail0, trail, before, [1, 2, 3], 4);
    return true, phases;
  }

  /** Steps 1 to 4: both intents, the transfer, and the integrity check. */
  method Carry(c: Cluster, ghost r: Run, m: Move) returns (hash: Option<string>, ghost phases: seq<nat>, ghost k: nat)
    requires WellFormed(r) && r.m == m && On(c, r, [], 0)
    modifies c
    ensures On(c, r, phases, k)
    ensures hash.Some? ==> k == 4 && hash.value == Carried(PairOf(r.start, m), m)
    ensures phases != [] && (hash.None? ==> 1 <= k < 4 && phases[|phases| - 1] == k)
    ensures hash.Some? <==> Unhindered(PairOf(r.start, m), m)
  {
    var s1 := LockSource(c, r, m);
    if s1 {
      return None, [1], 1;
    }
    var s2 := LockDest(c, r, m);
    if s2 {
      return None, [1, 2], 2;
    }
    hash := Transfer(c, r, m);
    if hash.None? {
      return None, [1, 2], 2;
    }
    var ok;
    ok, phases := Rehome(c, r, m, hash.value);
    if !ok {
      return None, phases, 3;
    }
    return hash, phases, 4;
  }

  method GoLive(c: Cluster, ghost r: Run, m: Move, size: int, destCat: RowMap, hash: string, ghost phases: seq<nat>)
    requires WellFormed(r) && r.m == m && r.size == size && On(c, r, phases, 4)
    requires r.start[m.dst].cat == Some(destCat) && hash == Carried(PairOf(r.start, m), m)
    modifies c
    ensures On(c, r, phases + [5, 6], 6)
  {
    ghost var before, trail := c.nodes, c.trail;
    c.PersistCatalog(m.dst, destCat[m.destPath := Arrived(m, hash, size)]);
    Advance(r.start, m, size, r.trail0, trail, before, phases, c.nodes, 5);
    before, trail := c.nodes, c.trail;
    c.Mark(m.dst, m.opID, true);
    Advance(r.start, m, size, r.trail0, trail, before, phases + [5], c.nodes, 6);
    assert phases + [5] + [6] == phases + [5, 6];
  }

  method Forget(c: Cluster, ghost r: Run, m: Move, ghost phases: seq<nat>)
    requires WellFormed(r) && r.m == m && On(c, r, phases, 6) && r.start[m.src].cat.Some?
    modifies c
    ensures On(c, r, phases + [7, 8], 8)
  {
    ghost var before, trail := c.nodes, c.trail;
    var srcCat := c.ReadCatalog(m.src);
    if srcCat.Some? {
      c.PersistCatalog(m.src, srcCat.value - {m.file.path});
    }
    Advance(r.start, m, r.size, r.trail0, trail, before, phases, c.nodes, 7);
    before, trail := c.nodes, c.trail;
    c.Mark(m.src, m.opID, true);
    Advance(r.start, m, r.size, r.trail0, trail, before, phases + [7], c.nodes, 8);
    assert phases + [7] + [8] == phases + [7, 8];
  }

  /** The file left the one catalog and is in the other, under its own id and birth record. */
  predicate Relocated(m: Move, src: Option<RowMap>, dst: Option<RowMap>) {
    && src.Some? && m.file.path !in src.value
    && dst.Some? && m.destPath in dst.value && dst.value[m.destPath].id == m.file.id && dst.value[m.destPath].genesis == m.file.genesis
  }

  /** The command body. It stops with the intents pending exactly when the file is locked by another op,
      the source has lost the bytes, or a content-addressed file arrives with the wrong hash. */
  method MvCross(c: Cluster, m: Move, size: int) returns (ok: bool, ghost phases: seq<nat>)
    requires m.src in c.nodes && m.dst in c.nodes && WellPosed(m)
    requires c.nodes[m.src].cat.Some? && c.nodes[m.dst].cat.Some?
    modifies c
    ensures old(c.trail) <= c.trail
    ensures Tracks(old(c.nodes), m, size, c.trail[|old(c.trail)|..], phases)
    ensures phases != [] && At(old(c.nodes), m, size, c.nodes, phases[|phases| - 1])
    ensures ok <==> phases[|phases| - 1] == 8
    ensures ok <==> Unhindered(PairOf(old(c.nodes), m), m)
    ensures c.nodes.Keys == old(c.nodes).Keys && forall n :: n in c.nodes && n != m.src && n != m.dst ==> c.nodes[n] == old(c.nodes)[n]
    ensures ok ==> Relocated(m, c.nodes[m.src].cat, c.nodes[m.dst].cat)
  {
    ghost var r := Run(m, size, c.nodes, c.trail);
    StepAdvances(PairOf(c.nodes, m), m, 1, size);
    var destCat := c.nodes[m.dst].cat.value;
    ghost var k;
    var hash;
    hash, phases, k := Carry(c, r, m);
    ok := false;
    if hash.Some? {
      GoLive(c, r, m, size, destCat, hash.value, phases);
      Forget(c, r, m, phases + [5, 6]);
      phases := phases + [5, 6] + [7, 8];
      ok := true;
    }
  }
}
