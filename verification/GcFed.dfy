/** Federated garbage collection: three gates decide what may be swept, and the sweep is journaled so
    that a crash in the middle of it can be finished from the log alone. */
module GcFed {
  import opened Wrappers
  import opened Wal
  import opened Journals
  import opened Catalogs
  import opened Rosters
  import opened Vaults
  import opened Commands

  // ---- marking ---------------------------------------------------------------------------

  /** What the mark step concludes: what may go, and how many blobs stay for which reason. */
  datatype Plan0 = Plan0(eligible: seq<string>, kept: nat, preserved: nat)

  function Eligible(stored: seq<string>, keep: set<string>, preserve: set<string>): seq<string> {
    if stored == [] then []
    else
      var n := |stored| - 1;
      Eligible(stored[..n], keep, preserve) + if stored[n] !in keep && stored[n] !in preserve then [stored[n]] else []
  }

  lemma {:induction false} EligibleMembers(stored: seq<string>, keep: set<string>, preserve: set<string>)
    ensures forall sha :: sha in Eligible(stored, keep, preserve) <==> sha in stored && sha !in keep && sha !in preserve
    ensures |Eligible(stored, keep, preserve)| <= |stored|
  {
    if stored != [] {
      var n := |stored| - 1;
      EligibleMembers(stored[..n], keep, preserve);
      assert stored == stored[..n] + [stored[n]];
    }
  }

  method PlanSweep(stored: seq<string>, keep: set<string>, preserve: set<string>) returns (p: Plan0)
    ensures p.eligible == Eligible(stored, keep, preserve)
    ensures p.kept + p.preserved + |p.eligible| == |stored|
    ensures p.kept == |set i | 0 <= i < |stored| && stored[i] in keep| && p.preserved == |set i | 0 <= i < |stored| && stored[i] !in keep && stored[i] in preserve|
    ensures forall sha :: sha in p.eligible <==> sha in stored && sha !in keep && sha !in preserve
  {
    p := Plan0([], 0, 0);
    for i := 0 to |stored|
      invariant p.eligible == Eligible(stored[..i], keep, preserve)
      invariant p.kept + p.preserved + |p.eligible| == i
      invariant p.kept == |set j | 0 <= j < i && stored[j] in keep| && p.preserved == |set j | 0 <= j < i && stored[j] !in keep && stored[j] in preserve|
    {
      assert stored[..i + 1][..i] == stored[..i];
      assert (set j | 0 <= j < i + 1 && stored[j] in keep) == (set j | 0 <= j < i && stored[j] in keep) + if stored[i] in keep then {i} else {};
      assert (set j | 0 <= j < i + 1 && stored[j] !in keep && stored[j] in preserve) == (set j | 0 <= j < i && stored[j] !in keep && stored[j] in preserve) + if stored[i] !in keep && stored[i] in preserve then {i} else {};
      var sha := stored[i];
      if sha in keep {
        p := p.(kept := p.kept + 1);
      } else if sha in preserve {
        p := p.(preserved := p.preserved + 1);
      } else {
        p := p.(eligible := p.eligible + [sha]);
      }
    }
    assert stored[..|stored|] == stored;
    EligibleMembers(stored, keep, preserve);
  }

  // ---- the three gates -------------------------------------------------------------------

  /** sha to file id over the git-mode rows, the last row winning. */
  function GitModeIndex(files: seq<File>): map<string, string> {
    if files == [] then map[]
    else
      var n := |files| - 1;
      var m := GitModeIndex(files[..n]);
      if files[n].syncMode == GIT then m[files[n].sha := files[n].id] else m
  }

  /** The file id a sha stands for. */
  function IndexedID(files: seq<File>, sha: string): string {
    var index := GitModeIndex(files);
    if sha in index then index[sha] else ""
  }

  /** Only git-mode files are ever candidates, and each candidate stands for a git-mode row. */
  lemma {:induction false} IndexIsGitMode(files: seq<File>, sha: string)
    ensures sha in GitModeIndex(files) <==> exists f :: f in files && f.syncMode == GIT && f.sha == sha
    ensures sha in GitModeIndex(files) ==> exists f :: f in files && f.syncMode == GIT && f.sha == sha && f.id == GitModeIndex(files)[sha]
  {
    if files != [] {
      var n := |files| - 1;
      IndexIsGitMode(files[..n], sha);
      assert files == files[..n] + [files[n]];
    }
  }

  method BuildIndex(files: seq<File>) returns (m: map<string, string>)
    ensures m == GitModeIndex(files)
  {
    m := map[];
    for i := 0 to |files|
      invariant m == GitModeIndex(files[..i])
    {
      assert files[..i + 1][..i] == files[..i];
      if files[i].syncMode == GIT {
        m := m[files[i].sha := files[i].id];
      }
    }
    assert files[..|files|] == files;
  }

  predicate Locked(recs: seq<Rec>, id: string) {
    exists i :: 0 <= i < |recs| && recs[i].state == Intent && id in recs[i].entry.blobRefs
  }

  /** The lock a sweep respects is the log's own. */
  lemma LockedIsBlocked(recs: seq<Rec>, id: string)
    ensures Locked(recs, id) <==> Blocked(LogView(None, recs), [id])
  {
    if Locked(recs, id) {
      var i :| 0 <= i < |recs| && recs[i].state == Intent && id in recs[i].entry.blobRefs;
      var k :| 0 <= k < |recs[i].entry.blobRefs| && recs[i].entry.blobRefs[k] == id;
      assert SharesBlob(recs[i].entry.blobRefs, [id]);
    }
  }

  /** So the intent of a sweep of what was planned is never held up by what the plan saw. */
  lemma UnlockedNotBlocked(shas: seq<string>, index: map<string, string>, recs: seq<Rec>)
    ensures !Blocked(LogView(None, recs), Unlocked(shas, index, recs).1)
  {
    var ids := Unlocked(shas, index, recs).1;
    UnlockedMembers(shas, index, recs);
    forall i | 0 <= i < |recs| && recs[i].state == Intent
      ensures !SharesBlob(recs[i].entry.blobRefs, ids)
    {
      forall k | 0 <= k < |recs[i].entry.blobRefs|
        ensures recs[i].entry.blobRefs[k] !in ids
      {
        assert Locked(recs, recs[i].entry.blobRefs[k]);
      }
    }
  }

  method PendingIDs(recs: seq<Rec>) returns (ids: set<string>)
    ensures forall id :: id in ids <==> Locked(recs, id)
  {
    ids := {};
    for i := 0 to |recs|
      invariant forall id :: id in ids <==> exists j :: 0 <= j < i && recs[j].state == Intent && id in recs[j].entry.blobRefs
    {
      if recs[i].state == Intent {
        ids := ids + set x | x in recs[i].entry.blobRefs;
      }
    }
  }

  datatype PlanResult =
    | NeedAllMembers(unreachable: set<string>)
    | Planned(eligible: seq<string>, doomedIDs: seq<string>, skippedPending: seq<string>)

  /** The shas among those given that no pending op locks, and the file ids they stand for. */
  function Unlocked(shas: seq<string>, index: map<string, string>, recs: seq<Rec>): (seq<string>, seq<string>) {
    if shas == [] then ([], [])
    else
      var n := |shas| - 1;
      var (es, ids) := Unlocked(shas[..n], index, recs);
      var id := if shas[n] in index then index[shas[n]] else "";
      if id != "" && Locked(recs, id) then (es, ids) else (es + [shas[n]], if id == "" then ids else ids + [id])
  }

  lemma {:induction false} UnlockedMembers(shas: seq<string>, index: map<string, string>, recs: seq<Rec>)
    ensures forall sha :: sha in Unlocked(shas, index, recs).0 <==> sha in shas && !(sha in index && index[sha] != "" && Locked(recs, index[sha]))
    ensures forall id :: id in Unlocked(shas, index, recs).1 <==> id != "" && exists sha :: sha in Unlocked(shas, index, recs).0 && sha in index && index[sha] == id
  {
    if shas != [] {
      var n := |shas| - 1;
      UnlockedMembers(shas[..n], index, recs);
      assert shas == shas[..n] + [shas[n]];
    }
  }

  /** Drop the shas whose file a pending op has locked. */
  method SkipPending(shas: seq<string>, index: map<string, string>, recs: seq<Rec>) returns (free: seq<string>, ids: seq<string>, skipped: seq<string>)
    ensures (free, ids) == Unlocked(shas, index, recs)
    ensures forall sha :: sha in skipped <==> sha in shas && sha !in free
  {
    var pending := PendingIDs(recs);
    free, ids, skipped := [], [], [];
    for i := 0 to |shas|
      invariant (free, ids) == Unlocked(shas[..i], index, recs)
      invariant forall sha :: sha in skipped <==> sha in shas[..i] && sha in index && index[sha] != "" && index[sha] in pending
    {
      assert shas[..i + 1][..i] == shas[..i];
      assert shas[..i + 1] == shas[..i] + [shas[i]];
      var id := if shas[i] in index then index[shas[i]] else "";
      if id != "" && id in pending {
        skipped := skipped + [shas[i]];
      } else {
        free := free + [shas[i]];
        if id != "" {
          ids := ids + [id];
        }
      }
    }
    assert shas[..|shas|] == shas;
    UnlockedMembers(shas, index, recs);
  }

  method Candidates(stored: seq<string>, index: map<string, string>) returns (r: seq<string>)
    ensures forall sha :: sha in r <==> sha in stored && sha in index
  {
    r := [];
    for i := 0 to |stored|
      invariant forall sha :: sha in r <==> sha in stored[..i] && sha in index
    {
      assert stored[..i + 1] == stored[..i] + [stored[i]];
      if stored[i] in index {
        r := r + [stored[i]];
      }
    }
    assert stored[..|stored|] == stored;
  }

  predicate Collectable(files: seq<File>, recs: seq<Rec>, stored: seq<string>, keep: set<string>, preserve: set<string>, sha: string) {
    && sha in stored && sha !in keep && sha !in preserve
    && sha in GitModeIndex(files) && (IndexedID(files, sha) == "" || !Locked(recs, IndexedID(files, sha)))
  }

  /** Nothing is computed past a partial view; and what may be swept is exactly what is stored,
      git-mode, referenced by no branch, not preserved, and not locked by a pending op. */
  method PlanFederated(members: seq<Member>, up: string -> bool, files: seq<File>, recs: seq<Rec>, stored: seq<string>, keep: set<string>, preserve: set<string>)
    returns (r: PlanResult)
    ensures r.NeedAllMembers? <==> exists m :: m in members && m.status == ACTIVE && !up(m.name)
    ensures r.Planned? ==> forall sha :: sha in r.eligible <==> Collectable(files, recs, stored, keep, preserve, sha)
    ensures r.Planned? ==> !Blocked(LogView(None, recs), r.doomedIDs)
    ensures r.Planned? ==> forall sha :: sha in r.skippedPending <==>
      && sha in stored && sha !in keep && sha !in preserve && sha in GitModeIndex(files)
      && IndexedID(files, sha) != "" && Blocked(LogView(None, recs), [IndexedID(files, sha)])
    ensures r.Planned? ==> forall id :: id in r.doomedIDs <==> id != "" && exists sha :: sha in r.eligible && IndexedID(files, sha) == id
  {
    var active := Active(members);
    var unreachable := set m | m in active && !up(m.name) :: m.name;
    forall m
      ensures m in active <==> m in members && m.status == ACTIVE
    {
      ActiveIn(members, m);
    }
    if unreachable != {} {
      return NeedAllMembers(unreachable);
    }
    assert forall m :: m in active && !up(m.name) ==> m.name in unreachable;
    var index := BuildIndex(files);
    var candidates := Candidates(stored, index);
    var plan := PlanSweep(candidates, keep, preserve);
    var free, ids, skipped := SkipPending(plan.eligible, index, recs);
    UnlockedMembers(plan.eligible, index, recs);
    UnlockedNotBlocked(plan.eligible, index, recs);
    forall id
      ensures Locked(recs, id) <==> Blocked(LogView(None, recs), [id])
    {
      LockedIsBlocked(recs, id);
    }
    r := Planned(free, ids, skipped);
  }

  // ---- the sweep -------------------------------------------------------------------------

  function GcEntry(ids: seq<string>, who: Who): Entry {
    Intention(who, OpType.Gc, ids, map[])
  }

  function Erasures(shas: seq<string>): seq<ObjectWrite> {
    seq(|shas|, i requires 0 <= i < |shas| => Erase(shas[i]))
  }

  function Without(rows: RowMap, shas: seq<string>): RowMap {
    map p | p in rows && rows[p].sha !in shas :: rows[p]
  }

  /** A sweep is one more planned command: its intent locks the doomed ids, it erases their objects,
      and it drops every row whose sha was doomed. */
  function GcPlan(rows: RowMap, shas: seq<string>, ids: seq<string>, who: Who): Plan {
    Plan(GcEntry(ids, who), Erasures(shas), Without(rows, shas))
  }

  datatype Sweep = Idle | Refused | Failed(deleted: nat) | Swept(deleted: nat)

  lemma {:induction false} WriteStatesSnoc(n: Node, ws: seq<ObjectWrite>, w: ObjectWrite)
    ensures AfterWrites(n, ws + [w]) == Write(AfterWrites(n, ws), w)
    ensures WriteStates(n, ws + [w]) == WriteStates(n, ws) + [Write(AfterWrites(n, ws), w)]
    decreases |ws|
  {
    if ws == [] {
      UnfoldOne(n, w);
      assert [] + [w] == [w];
    } else {
      WriteStatesSnoc(Write(n, ws[0]), ws[1..], w);
      assert (ws + [w])[1..] == ws[1..] + [w];
    }
  }

  /** Delete the objects in turn, as far as the storage lets us. */
  method EraseAll(c: Cluster, n: string, shas: seq<string>, io: nat -> bool, ghost start: Nodes, ghost trail0: seq<Nodes>, ghost a: Node) returns (deleted: nat)
    requires n in start && n in c.nodes && c.nodes[n] == a && Followed(start, n, trail0, [a], c.trail, c.nodes)
    modifies c
    ensures deleted <= |shas| && (forall i :: 0 <= i < deleted ==> io(i)) && (deleted < |shas| ==> !io(deleted))
    ensures Followed(start, n, trail0, [a] + WriteStates(a, Erasures(shas[..deleted])), c.trail, c.nodes)
    ensures n in c.nodes && c.nodes[n] == AfterWrites(a, Erasures(shas[..deleted]))
  {
    assert [a] + [] == [a];
    deleted := 0;
    while deleted < |shas| && io(deleted)
      invariant deleted <= |shas| && forall i :: 0 <= i < deleted ==> io(i)
      invariant n in c.nodes && c.nodes[n] == AfterWrites(a, Erasures(shas[..deleted]))
      invariant Followed(start, n, trail0, [a] + WriteStates(a, Erasures(shas[..deleted])), c.trail, c.nodes)
    {
      ErasuresSnoc(shas, deleted);
      WriteStatesSnoc(a, Erasures(shas[..deleted]), Erase(shas[deleted]));
      ghost var was := AfterWrites(a, Erasures(shas[..deleted]));
      FollowOn(start, n, trail0, [a] + WriteStates(a, Erasures(shas[..deleted])), c.trail, c.nodes, DropObject(was, shas[deleted]));
      c.Delete(n, shas[deleted]);
      assert [a] + (WriteStates(a, Erasures(shas[..deleted])) + [DropObject(was, shas[deleted])])
          == [a] + WriteStates(a, Erasures(shas[..deleted])) + [DropObject(was, shas[deleted])];
      deleted := deleted + 1;
    }
  }

  lemma ErasuresSnoc(shas: seq<string>, i: nat)
    requires i < |shas|
    ensures Erasures(shas[..i + 1]) == Erasures(shas[..i]) + [Erase(shas[i])]
  {
  }

  /** The rows left when the doomed ones among the first i files are gone. */
  ghost predicate PartlyWithout(files: seq<File>, shas: seq<string>, i: nat, r: RowMap)
    requires i <= |files|
  {
    var rows := Rows(files);
    var kept := forall p :: p in r <==> p in rows && !(exists j :: 0 <= j < i && files[j].path == p && files[j].sha in shas);
    kept && forall p :: p in r ==> p in rows && r[p] == rows[p]
  }

  lemma RemovedOneByOne(files: seq<File>, shas: seq<string>, i: nat, r: RowMap)
    requires i < |files| && PartlyWithout(files, shas, i, r)
    ensures PartlyWithout(files, shas, i + 1, if files[i].sha in shas then r - {files[i].path} else r)
  {
  }

  lemma AllRemoved(files: seq<File>, shas: seq<string>, r: RowMap)
    requires DistinctPaths(files) && PartlyWithout(files, shas, |files|, r)
    ensures r == Without(Rows(files), shas)
  {
    var rows := Rows(files);
    RowsAreFiles(files);
    forall p | p in rows
      ensures p in r <==> rows[p].sha !in shas
    {
      LookupIn(files, p);
      assert rows[p] in files;
      var j :| 0 <= j < |files| && files[j] == rows[p];
      assert forall k :: 0 <= k < |files| && files[k].path == p ==> k == j;
    }
  }

  /** Drop every catalog row whose sha was doomed. */
  method RemoveFilesBySHA(cat: Catalog, shas: seq<string>)
    requires cat.Valid()
    modifies cat
    ensures cat.Valid() && Rows(cat.files) == Without(Rows(old(cat.files)), shas)
  {
    var todo := cat.files;
    for i := 0 to |todo|
      invariant cat.Valid() && PartlyWithout(todo, shas, i, Rows(cat.files))
    {
      RemovedOneByOne(todo, shas, i, Rows(cat.files));
      if todo[i].sha in shas {
        var _ := cat.Remove(todo[i].path);
      }
    }
    AllRemoved(todo, shas, Rows(cat.files));
  }

  /** Only git-mode files are planned for, but rows go by sha: a sweep of what was planned drops a manual row,
      and its bytes, exactly when they are stored and referenced nowhere, and a git-mode row that no op
      has locked has the same bytes. */
  lemma ManualRowDroppedIff(files: seq<File>, recs: seq<Rec>, stored: seq<string>, keep: set<string>, preserve: set<string>, eligible: seq<string>, f: File)
    requires DistinctPaths(files) && f in files && f.syncMode == MANUAL
    requires forall sha :: sha in eligible <==> Collectable(files, recs, stored, keep, preserve, sha)
    ensures f.path !in Without(Rows(files), Unlocked(eligible, GitModeIndex(files), recs).0)
       <==> f.sha in stored && f.sha !in keep && f.sha !in preserve
            && (exists g :: g in files && g.syncMode == GIT && g.sha == f.sha)
            && (IndexedID(files, f.sha) == "" || !Locked(recs, IndexedID(files, f.sha)))
  {
    RowsAreFiles(files);
    IndexIsGitMode(files, f.sha);
    UnlockedMembers(eligible, GitModeIndex(files), recs);
    assert Rows(files)[f.path] == f;
  }

  /** The states of a sweep whose storage failed after k deletes: the op is marked failed and stays
      not-done. After all deletes it is the catalog write that failed. */
  function FailedScript(s: Node, shas: seq<string>, ids: seq<string>, who: Who, k: nat): seq<Node>
    requires k <= |shas|
  {
    var a := Intend(s, GcEntry(ids, who));
    var ws := Erasures(shas[..k]);
    [a] + WriteStates(a, ws) + [Finish(AfterWrites(a, ws), who.opID, false)]
  }

  /** The journaled sweep. A refused intent deletes nothing. io says which of its storage calls succeed:
      the deletes in order, then the catalog write. */
  method SweepFederated(c: Cluster, n: string, cat: Catalog, eligible: seq<string>, who: Who, io: nat -> bool) returns (r: Sweep, ghost shas: seq<string>, ghost ids: seq<string>)
    requires n in c.nodes && cat.Valid() && c.nodes[n].cat == Some(Rows(cat.files))
    modifies c, cat
    ensures (shas, ids) == Unlocked(eligible, GitModeIndex(old(cat.files)), old(c.nodes)[n].log.recs)
    ensures r.Idle? || r.Refused? ==> c.nodes == old(c.nodes)
    ensures r.Idle? <==> shas == []
    ensures r.Refused? <==> shas != [] && !Append(old(c.nodes)[n].log, GcEntry(ids, who)).0.Fresh?
    ensures r.Swept? ==> r.deleted == |shas| && forall i :: 0 <= i <= |shas| ==> io(i)
    ensures r.Swept? ==> Followed(old(c.nodes), n, old(c.trail), Script(old(c.nodes)[n], GcPlan(Rows(old(cat.files)), shas, ids, who)), c.trail, c.nodes)
    ensures r.Failed? ==> r.deleted <= |shas| && !io(r.deleted)
    ensures r.Failed? ==> Followed(old(c.nodes), n, old(c.trail), FailedScript(old(c.nodes)[n], shas, ids, who, r.deleted), c.trail, c.nodes)
  {
    ghost var start, trail0, s := c.nodes, c.trail, c.nodes[n];
    var index := BuildIndex(cat.files);
    var free, doomed, skipped := SkipPending(eligible, index, c.nodes[n].log.recs);
    shas, ids := free, doomed;
    if |free| == 0 {
      return Idle, shas, ids;
    }
    ghost var p := GcPlan(Rows(cat.files), free, doomed, who);
    ghost var a := Intend(s, p.intent);
    FollowOn(start, n, trail0, [], c.trail, c.nodes, a);
    var got := c.AppendIntent(n, GcEntry(doomed, who));
    if !got.Fresh? {
      return Refused, shas, ids;
    }
    assert [] + [a] == [a];
    var deleted := EraseAll(c, n, free, io, start, trail0, a);
    if deleted < |free| || !io(|free|) {
      FailSweep(c, n, who.opID, start, trail0, [a] + WriteStates(a, Erasures(free[..deleted])), AfterWrites(a, Erasures(free[..deleted])));
      return Sweep.Failed(deleted), shas, ids;
    }
    assert free[..deleted] == free;
    RemoveFilesBySHA(cat, free);
    FinishSweep(c, n, Rows(cat.files), who.opID, start, trail0, [a] + WriteStates(a, p.writes), AfterWrites(a, p.writes));
    r := Swept(|free|);
  }

  method FailSweep(c: Cluster, n: string, opID: string, ghost start: Nodes, ghost trail0: seq<Nodes>, ghost states: seq<Node>, ghost b: Node)
    requires n in start && n in c.nodes && c.nodes[n] == b && Followed(start, n, trail0, states, c.trail, c.nodes)
    modifies c
    ensures Followed(start, n, trail0, states + [Finish(b, opID, false)], c.trail, c.nodes)
  {
    FollowOn(start, n, trail0, states, c.trail, c.nodes, Finish(b, opID, false));
    c.Mark(n, opID, false);
  }

  method FinishSweep(c: Cluster, n: string, rows: RowMap, opID: string, ghost start: Nodes, ghost trail0: seq<Nodes>, ghost states: seq<Node>, ghost b: Node)
    requires n in start && n in c.nodes && c.nodes[n] == b && Followed(start, n, trail0, states, c.trail, c.nodes)
    modifies c
    ensures Followed(start, n, trail0, states + [Persist(b, rows), Finish(Persist(b, rows), opID, true)], c.trail, c.nodes)
  {
    FollowOn(start, n, trail0, states, c.trail, c.nodes, Persist(b, rows));
    c.PersistCatalog(n, rows);
    FollowOn(start, n, trail0, states + [Persist(b, rows)], c.trail, c.nodes, Finish(Persist(b, rows), opID, true));
    c.Mark(n, opID, true);
    assert states + [Persist(b, rows)] + [Finish(Persist(b, rows), opID, true)] == states + [Persist(b, rows), Finish(Persist(b, rows), opID, true)];
  }

  // ---- finishing a crashed sweep ---------------------------------------------------------

  /** The doomed ids name exactly the rows whose sha is doomed, and no doomed sha is rowless. */
  ghost predicate Aligned(rows: RowMap, shas: seq<string>, ids: seq<string>) {
    && (forall p :: p in rows ==> (rows[p].sha in shas <==> rows[p].id in ids))
    && (forall sha :: sha in shas ==> exists p :: p in rows && rows[p].sha == sha)
  }

  /** No two rows hold a doomed sha. */
  predicate OneRowPerSha(files: seq<File>, shas: seq<string>) {
    forall i, j :: 0 <= i < j < |files| && files[i].sha == files[j].sha ==> files[i].sha !in shas
  }

  predicate NamedRows(files: seq<File>) {
    forall f :: f in files ==> f.id != ""
  }

  /** The ids a sweep journals are those of the index, one for each doomed sha. */
  lemma DoomedIDs(files: seq<File>, recs: seq<Rec>, eligible: seq<string>, f: File)
    requires DistinctPaths(files) && DistinctIDs(Rows(files)) && NamedRows(files) && f in files
    requires forall sha :: sha in eligible ==> sha in GitModeIndex(files)
    ensures var index := GitModeIndex(files); var (shas, ids) := Unlocked(eligible, index, recs);
            f.id in ids <==> f.sha in shas && f.sha in index && index[f.sha] == f.id
  {
    var index := GitModeIndex(files);
    var (shas, ids) := Unlocked(eligible, index, recs);
    UnlockedMembers(eligible, index, recs);
    RowsAreFiles(files);
    if f.id in ids {
      var sha :| sha in shas && sha in index && index[sha] == f.id;
      IndexIsGitMode(files, sha);
      var g :| g in files && g.sha == sha && g.id == f.id;
      assert Rows(files)[f.path] == f && Rows(files)[g.path] == g;
    }
  }

  lemma DoomedHaveRows(files: seq<File>, recs: seq<Rec>, eligible: seq<string>, sha: string)
    requires DistinctPaths(files) && forall x :: x in eligible ==> x in GitModeIndex(files)
    requires sha in Unlocked(eligible, GitModeIndex(files), recs).0
    ensures sha in GitModeIndex(files) && exists f :: f in files && f.sha == sha && f.id == GitModeIndex(files)[sha]
  {
    UnlockedMembers(eligible, GitModeIndex(files), recs);
    IndexIsGitMode(files, sha);
  }

  lemma SameShaSameID(files: seq<File>, recs: seq<Rec>, eligible: seq<string>, f: File)
    requires DistinctPaths(files) && DistinctIDs(Rows(files)) && NamedRows(files) && f in files
    requires forall sha :: sha in eligible ==> sha in GitModeIndex(files)
    requires var shas := Unlocked(eligible, GitModeIndex(files), recs).0; f.sha in shas && OneRowPerSha(files, shas)
    ensures f.sha in GitModeIndex(files) && GitModeIndex(files)[f.sha] == f.id
  {
    DoomedHaveRows(files, recs, eligible, f.sha);
    var g :| g in files && g.sha == f.sha && g.id == GitModeIndex(files)[f.sha];
    var i :| 0 <= i < |files| && files[i] == f;
    var j :| 0 <= j < |files| && files[j] == g;
    assert i == j;
  }

  /** The sweep's own computation is aligned exactly when there is one row per doomed sha. */
  lemma AlignedIffOneRow(files: seq<File>, recs: seq<Rec>, eligible: seq<string>)
    requires DistinctPaths(files) && DistinctIDs(Rows(files)) && NamedRows(files)
    requires forall sha :: sha in eligible ==> sha in GitModeIndex(files)
    ensures var (shas, ids) := Unlocked(eligible, GitModeIndex(files), recs); Aligned(Rows(files), shas, ids) <==> OneRowPerSha(files, shas)
  {
    var (shas, ids) := Unlocked(eligible, GitModeIndex(files), recs);
    RowsAreFiles(files);
    if OneRowPerSha(files, shas) {
      forall p | p in Rows(files)
        ensures Rows(files)[p].sha in shas <==> Rows(files)[p].id in ids
      {
        LookupIn(files, p);
        DoomedIDs(files, recs, eligible, Rows(files)[p]);
        if Rows(files)[p].sha in shas {
          SameShaSameID(files, recs, eligible, Rows(files)[p]);
        }
      }
      forall sha | sha in shas
        ensures exists p :: p in Rows(files) && Rows(files)[p].sha == sha
      {
        DoomedHaveRows(files, recs, eligible, sha);
      }
    }
    if Aligned(Rows(files), shas, ids) {
      forall i, j | 0 <= i < j < |files| && files[i].sha == files[j].sha
        ensures files[i].sha !in shas
      {
        DoomedIDs(files, recs, eligible, files[i]);
        DoomedIDs(files, recs, eligible, files[j]);
        assert files[i] in files && files[j] in files;
        assert Rows(files)[files[i].path] == files[i] && Rows(files)[files[j].path] == files[j];
        assert files[i].path != files[j].path;
      }
    }
  }

  function WithoutIDs(rows: RowMap, ids: seq<string>): RowMap {
    map p | p in rows && rows[p].id !in ids :: rows[p]
  }

  /** The objects left once the shas of the rows with these ids are deleted. */
  function WithoutObjectsOf(objects: map<string, string>, rows: RowMap, ids: seq<string>): map<string, string> {
    map k | k in objects && !(exists p :: p in rows && rows[p].id in ids && rows[p].sha == k) :: objects[k]
  }

  function Erased(x: Node, ids: seq<string>): Node
    requires x.cat.Some?
  {
    x.(objects := WithoutObjectsOf(x.objects, x.cat.value, ids))
  }

  function RetryResult(x: Node, ids: seq<string>, opID: string): Node
    requires x.cat.Some?
  {
    Finish(Persist(x.(objects := WithoutObjectsOf(x.objects, x.cat.value, ids)), WithoutIDs(x.cat.value, ids)), opID, true)
  }

  /** The states a retry passes through. */
  ghost predicate RetryState(x: Node, ids: seq<string>, opID: string, y: Node)
    requires x.cat.Some?
  {
    || (exists j :: 0 <= j <= |ids| && y == Erased(x, ids[..j]))
    || (exists j :: 0 <= j <= |ids| && y == Finish(Erased(x, ids[..j]), opID, false))
    || y == Persist(x.(objects := WithoutObjectsOf(x.objects, x.cat.value, ids)), WithoutIDs(x.cat.value, ids))
    || y == RetryResult(x, ids, opID)
  }

  ghost predicate RetryTrail(start: Nodes, n: string, trail0: seq<Nodes>, trail: seq<Nodes>, x: Node, ids: seq<string>, opID: string)
    requires x.cat.Some?
  {
    && trail0 <= trail
    && forall t :: |trail0| <= t < |trail| ==> exists y :: trail[t] == start[n := y] && RetryState(x, ids, opID, y)
  }

  lemma TrailOn(start: Nodes, n: string, trail0: seq<Nodes>, trail: seq<Nodes>, x: Node, ids: seq<string>, opID: string, y: Node)
    requires x.cat.Some? && RetryTrail(start, n, trail0, trail, x, ids, opID) && RetryState(x, ids, opID, y)
    ensures RetryTrail(start, n, trail0, trail + [start[n := y]], x, ids, opID)
  {
  }

  lemma RetryOneID(x: Node, rows: RowMap, ids: seq<string>, i: nat, f: Option<File>)
    requires x.cat.Some? && i < |ids| && rows == WithoutIDs(x.cat.value, ids[..i]) && DistinctIDs(x.cat.value) && WellKeyed(x.cat.value)
    requires f.Some? ==> f.value.id == ids[i] && f.value.path in rows && rows[f.value.path] == f.value
    requires f.None? ==> !HoldsID(rows, ids[i])
    ensures WithoutIDs(x.cat.value, ids[..i + 1]) == if f.Some? then rows - {f.value.path} else rows
    ensures var o, o' := WithoutObjectsOf(x.objects, x.cat.value, ids[..i]), WithoutObjectsOf(x.objects, x.cat.value, ids[..i + 1]);
            if f.Some? then o' == o - {f.value.sha} else o' == o
    ensures Erased(x, ids[..i + 1]) == if f.Some? then DropObject(Erased(x, ids[..i]), f.value.sha) else Erased(x, ids[..i])
  {
    var all := x.cat.value;
    assert forall id :: id in ids[..i + 1] <==> id in ids[..i] || id == ids[i];
    if f.None? {
      forall p | p in all && all[p].id == ids[i]
        ensures all[p].id in ids[..i]
      {
        assert p !in rows;
      }
    } else {
      assert all[f.value.path] == f.value;
      assert forall p :: p in all && all[p].id == ids[i] ==> p == f.value.path;
    }
  }

  method EraseOne(c: Cluster, n: string, cat: Catalog, ids: seq<string>, i: nat, io: nat -> bool, opID: string, ghost x: Node, ghost start: Nodes, ghost trail0: seq<Nodes>) returns (ok: bool)
    requires i < |ids| && n in start && x.cat.Some? && DistinctIDs(x.cat.value) && WellKeyed(x.cat.value)
    requires cat.Valid() && Rows(cat.files) == WithoutIDs(x.cat.value, ids[..i]) && DistinctIDs(Rows(cat.files))
    requires c.nodes == start[n := Erased(x, ids[..i])] && RetryTrail(start, n, trail0, c.trail, x, ids, opID)
    modifies c, cat
    ensures cat.Valid() && (ok ==> Rows(cat.files) == WithoutIDs(x.cat.value, ids[..i + 1]))
    ensures io(i) ==> ok
    ensures c.nodes == start[n := if ok then Erased(x, ids[..i + 1]) else Finish(Erased(x, ids[..i]), opID, false)]
    ensures RetryTrail(start, n, trail0, c.trail, x, ids, opID)
  {
    var f := cat.FindID(ids[i]);
    RetryOneID(x, Rows(cat.files), ids, i, f);
    if f.Some? {
      if !io(i) {
        TrailOn(start, n, trail0, c.trail, x, ids, opID, Finish(Erased(x, ids[..i]), opID, false));
        c.Mark(n, opID, false);
        return false;
      }
      TrailOn(start, n, trail0, c.trail, x, ids, opID, Erased(x, ids[..i + 1]));
      c.Delete(n, f.value.sha);
      var _ := cat.Remove(f.value.path);
    }
    ok := true;
  }

  method EraseDoomed(c: Cluster, n: string, cat: Catalog, ids: seq<string>, io: nat -> bool, opID: string, ghost x: Node) returns (ok: bool, ghost at: nat)
    requires n in c.nodes && c.nodes[n] == x && cat.Valid() && x.cat == Some(Rows(cat.files)) && DistinctIDs(Rows(cat.files))
    modifies c, cat
    ensures cat.Valid() && at <= |ids| && (ok ==> Rows(cat.files) == WithoutIDs(x.cat.value, ids))
    ensures (forall i :: 0 <= i < |ids| ==> io(i)) ==> ok
    ensures n in c.nodes && c.nodes == old(c.nodes)[n := if ok then Erased(x, ids) else Finish(Erased(x, ids[..at]), opID, false)]
    ensures RetryTrail(old(c.nodes), n, old(c.trail), c.trail, x, ids, opID)
  {
    ghost var start, trail0 := c.nodes, c.trail;
    RowsWellKeyed(cat.files);
    assert ids[..0] == [];
    assert WithoutIDs(x.cat.value, []) == x.cat.value && WithoutObjectsOf(x.objects, x.cat.value, []) == x.objects;
    at := 0;
    for i := 0 to |ids|
      invariant cat.Valid() && Rows(cat.files) == WithoutIDs(x.cat.value, ids[..i])
      invariant n in c.nodes && c.nodes == start[n := Erased(x, ids[..i])]
      invariant RetryTrail(start, n, trail0, c.trail, x, ids, opID)
    {
      ok := EraseOne(c, n, cat, ids, i, io, opID, x, start, trail0);
      if !ok {
        at := i;
        return;
      }
    }
    assert ids[..|ids|] == ids;
    ok := true;
  }

  /** Finish a journaled sweep: delete the object of every doomed id that still has a row, drop the
      rows, write the catalog, mark the op done. It does not plan again. A storage call that fails
      leaves the op failed; io says which do not. */
  method Retry(c: Cluster, n: string, cat: Catalog, ids: seq<string>, opID: string, io: nat -> bool) returns (ok: bool)
    requires n in c.nodes && cat.Valid() && c.nodes[n].cat == Some(Rows(cat.files)) && DistinctIDs(Rows(cat.files))
    modifies c, cat
    ensures ok ==> c.nodes == old(c.nodes)[n := RetryResult(old(c.nodes)[n], ids, opID)]
    ensures !ok ==> exists j :: 0 <= j <= |ids| && c.nodes == old(c.nodes)[n := Finish(Erased(old(c.nodes)[n], ids[..j]), opID, false)]
    ensures (forall i :: 0 <= i <= |ids| ==> io(i)) ==> ok
    ensures RetryTrail(old(c.nodes), n, old(c.trail), c.trail, old(c.nodes)[n], ids, opID)
  {
    ghost var start, trail0, x := c.nodes, c.trail, c.nodes[n];
    ghost var at;
    ok, at := EraseDoomed(c, n, cat, ids, io, opID, x);
    if !ok {
      return;
    }
    if !io(|ids|) {
      assert ids[..|ids|] == ids;
      TrailOn(start, n, trail0, c.trail, x, ids, opID, Finish(Erased(x, ids), opID, false));
      c.Mark(n, opID, false);
      return false;
    }
    WriteRetried(c, n, Rows(cat.files), ids, opID, x, start, trail0);
  }

  method WriteRetried(c: Cluster, n: string, rows: RowMap, ghost ids: seq<string>, opID: string, ghost x: Node, ghost start: Nodes, ghost trail0: seq<Nodes>)
    requires x.cat.Some? && n in start && n in c.nodes && c.nodes == start[n := Erased(x, ids)] && rows == WithoutIDs(x.cat.value, ids)
    requires RetryTrail(start, n, trail0, c.trail, x, ids, opID)
    modifies c
    ensures c.nodes == start[n := RetryResult(x, ids, opID)] && RetryTrail(start, n, trail0, c.trail, x, ids, opID)
  {
    ghost var y := Persist(Erased(x, ids), rows);
    TrailOn(start, n, trail0, c.trail, x, ids, opID, y);
    c.PersistCatalog(n, rows);
    assert c.nodes == start[n := y];
    TrailOn(start, n, trail0, c.trail, x, ids, opID, RetryResult(x, ids, opID));
    c.Mark(n, opID, true);
  }

  /** The log of an unfinished sweep: its intent, perhaps marked failed. */
  predicate Unfinished(s: Node, ids: seq<string>, who: Who, v: LogView) {
    var w := Intend(s, GcEntry(ids, who)).log;
    v == w || v == MarkOp(w, who.opID, false)
  }

  /** Any state a sweep, or a retry of it, can have crashed or failed in: the intent is in the log, some
      doomed objects are gone, and the catalog is the old one, or the new one once all of them are gone. */
  ghost predicate Midway(s: Node, shas: seq<string>, ids: seq<string>, who: Who, x: Node)
    requires s.cat.Some?
  {
    && Unfinished(s, ids, who, x.log)
    && (forall k :: k in x.objects ==> k in s.objects && x.objects[k] == s.objects[k])
    && (forall k :: k in s.objects && k !in shas ==> k in x.objects)
    && (x.cat == s.cat || (x.cat == Some(Without(s.cat.value, shas)) && forall sha :: sha in shas ==> sha !in x.objects))
  }

  lemma {:induction false} AfterErasures(n: Node, shas: seq<string>)
    ensures AfterWrites(n, Erasures(shas)) == n.(objects := n.objects - set sha | sha in shas)
    decreases |shas|
  {
    if shas == [] {
      assert n.objects - {} == n.objects;
    } else {
      assert Erasures(shas)[0] == Erase(shas[0]) && Erasures(shas)[1..] == Erasures(shas[1..]);
      AfterErasures(DropObject(n, shas[0]), shas[1..]);
      assert shas == [shas[0]] + shas[1..];
      assert (n.objects - {shas[0]}) - (set sha | sha in shas[1..]) == n.objects - set sha | sha in shas;
    }
  }

  lemma {:induction false} ErasingIsMidway(s: Node, shas: seq<string>, ids: seq<string>, who: Who, x: Node, rest: seq<string>)
    requires s.cat.Some? && Midway(s, shas, ids, who, x) && x.cat == s.cat && forall sha :: sha in rest ==> sha in shas
    ensures forall y :: y in WriteStates(x, Erasures(rest)) ==> Midway(s, shas, ids, who, y)
    decreases |rest|
  {
    if rest != [] {
      assert Erasures(rest)[0] == Erase(rest[0]) && Erasures(rest)[1..] == Erasures(rest[1..]);
      assert rest[0] in rest;
      ErasingIsMidway(s, shas, ids, who, DropObject(x, rest[0]), rest[1..]);
    }
  }

  /** Every crash point of a sweep but its last is midway. */
  lemma SweepStatesMidway(s: Node, shas: seq<string>, ids: seq<string>, who: Who, y: Node)
    requires s.cat.Some? && !Append(s.log, GcEntry(ids, who)).0.Held?
    requires y in Script(s, GcPlan(s.cat.value, shas, ids, who))
    ensures Midway(s, shas, ids, who, y) || y == Final(s, GcPlan(s.cat.value, shas, ids, who))
  {
    var p := GcPlan(s.cat.value, shas, ids, who);
    var a := Intend(s, p.intent);
    AfterErasures(a, shas);
    ErasingIsMidway(s, shas, ids, who, a, shas);
    var b := Persist(AfterWrites(a, p.writes), p.rows);
    assert Midway(s, shas, ids, who, b);
  }

  /** A sweep that fails instead is midway all along. */
  lemma FailedStatesMidway(s: Node, shas: seq<string>, ids: seq<string>, who: Who, k: nat, y: Node)
    requires s.cat.Some? && k <= |shas| && y in FailedScript(s, shas, ids, who, k)
    ensures Midway(s, shas, ids, who, y)
  {
    var a := Intend(s, GcEntry(ids, who));
    assert forall sha :: sha in shas[..k] ==> sha in shas;
    AfterErasures(a, shas[..k]);
    ErasingIsMidway(s, shas, ids, who, a, shas[..k]);
  }

  lemma FinalSweep(s: Node, shas: seq<string>, ids: seq<string>, who: Who)
    requires s.cat.Some? && !Append(s.log, GcEntry(ids, who)).0.Held?
    ensures Final(s, GcPlan(s.cat.value, shas, ids, who))
         == Node(Some(Without(s.cat.value, shas)), MarkOp(Intend(s, GcEntry(ids, who)).log, who.opID, true), s.objects - set sha | sha in shas)
  {
    AfterErasures(Intend(s, GcEntry(ids, who)), shas);
  }

  /** A retry from any crash point ends where the uninterrupted sweep would have. */
  lemma RetryFinishesSweep(s: Node, shas: seq<string>, ids: seq<string>, who: Who, x: Node)
    requires s.cat.Some? && !Append(s.log, GcEntry(ids, who)).0.Held? && Aligned(s.cat.value, shas, ids) && Midway(s, shas, ids, who, x)
    ensures RetryResult(x, ids, who.opID) == Final(s, GcPlan(s.cat.value, shas, ids, who))
  {
    FinalSweep(s, shas, ids, who);
    MarkTwice(Intend(s, GcEntry(ids, who)).log, who.opID);
    assert WithoutIDs(x.cat.value, ids) == Without(s.cat.value, shas);
    var left, want := WithoutObjectsOf(x.objects, x.cat.value, ids), s.objects - set sha | sha in shas;
    forall k
      ensures k in left <==> k in want
    {
      if k in x.objects && k in shas {
        var p :| p in s.cat.value && s.cat.value[p].sha == k;
        assert x.cat == s.cat && x.cat.value[p].id in ids;
      }
    }
    assert left == want;
  }

  lemma ErasedIsMidway(s: Node, shas: seq<string>, ids: seq<string>, who: Who, x: Node, some: seq<string>)
    requires s.cat.Some? && Aligned(s.cat.value, shas, ids) && Midway(s, shas, ids, who, x) && forall id :: id in some ==> id in ids
    ensures Midway(s, shas, ids, who, Erased(x, some)) && Midway(s, shas, ids, who, Finish(Erased(x, some), who.opID, false))
  {
    MarkTwice(Intend(s, GcEntry(ids, who)).log, who.opID);
    var y := Erased(x, some);
    forall k | k in s.objects && k !in shas
      ensures k in y.objects
    {
      assert forall p :: p in x.cat.value && x.cat.value[p].id in some ==> x.cat.value[p].sha in shas;
    }
  }

  lemma RetryWrittenMidway(s: Node, shas: seq<string>, ids: seq<string>, who: Who, x: Node)
    requires s.cat.Some? && !Append(s.log, GcEntry(ids, who)).0.Held? && Aligned(s.cat.value, shas, ids) && Midway(s, shas, ids, who, x)
    ensures Midway(s, shas, ids, who, Persist(Erased(x, ids), WithoutIDs(x.cat.value, ids)))
  {
    var y, z := Persist(Erased(x, ids), WithoutIDs(x.cat.value, ids)), RetryResult(x, ids, who.opID);
    RetryFinishesSweep(s, shas, ids, who, x);
    FinalSweep(s, shas, ids, who);
    assert y.objects == z.objects && y.cat == z.cat && y.log == x.log;
  }

  /** And every state the retry can crash or fail in is midway again, or the finished sweep. */
  lemma RetryStatesMidway(s: Node, shas: seq<string>, ids: seq<string>, who: Who, x: Node, y: Node)
    requires s.cat.Some? && !Append(s.log, GcEntry(ids, who)).0.Held? && Aligned(s.cat.value, shas, ids) && Midway(s, shas, ids, who, x)
    requires RetryState(x, ids, who.opID, y)
    ensures Midway(s, shas, ids, who, y) || y == Final(s, GcPlan(s.cat.value, shas, ids, who))
  {
    if j :| 0 <= j <= |ids| && (y == Erased(x, ids[..j]) || y == Finish(Erased(x, ids[..j]), who.opID, false)) {
      assert forall id :: id in ids[..j] ==> id in ids;
      ErasedIsMidway(s, shas, ids, who, x, ids[..j]);
    } else {
      RetryFinishesSweep(s, shas, ids, who, x);
      RetryWrittenMidway(s, shas, ids, who, x);
    }
  }

  lemma RetryCatalogAligned(s: Node, shas: seq<string>, ids: seq<string>, who: Who, x: Node)
    requires s.cat.Some? && !Append(s.log, GcEntry(ids, who)).0.Held? && Midway(s, shas, ids, who, x) && x.cat == s.cat
    ensures RetryResult(x, ids, who.opID).cat == Final(s, GcPlan(s.cat.value, shas, ids, who)).cat
       <==> forall p :: p in s.cat.value ==> (s.cat.value[p].sha in shas <==> s.cat.value[p].id in ids)
  {
    FinalSweep(s, shas, ids, who);
    var rows := s.cat.value;
    if forall p :: p in rows ==> (rows[p].sha in shas <==> rows[p].id in ids) {
      assert WithoutIDs(rows, ids) == Without(rows, shas);
    } else {
      var p :| p in rows && !(rows[p].sha in shas <==> rows[p].id in ids);
      assert p in WithoutIDs(rows, ids) <==> p !in Without(rows, shas);
    }
  }

  /** From a crash before the catalog is written, the retry of a sweep reaches the sweep's catalog if and
      only if every doomed sha has exactly one row. */
  lemma RetryCatalogIff(s: Node, files: seq<File>, eligible: seq<string>, who: Who, x: Node)
    requires s.cat == Some(Rows(files)) && DistinctPaths(files) && DistinctIDs(Rows(files)) && NamedRows(files)
    requires forall sha :: sha in eligible ==> sha in GitModeIndex(files)
    requires var (shas, ids) := Unlocked(eligible, GitModeIndex(files), s.log.recs);
             !Append(s.log, GcEntry(ids, who)).0.Held? && Midway(s, shas, ids, who, x) && x.cat == s.cat
    ensures var (shas, ids) := Unlocked(eligible, GitModeIndex(files), s.log.recs);
            RetryResult(x, ids, who.opID).cat == Final(s, GcPlan(Rows(files), shas, ids, who)).cat <==> OneRowPerSha(files, shas)
  {
    var (shas, ids) := Unlocked(eligible, GitModeIndex(files), s.log.recs);
    AlignedIffOneRow(files, s.log.recs, eligible);
    RetryCatalogAligned(s, shas, ids, who, x);
    forall sha | sha in shas
      ensures exists p :: p in Rows(files) && Rows(files)[p].sha == sha
    {
      DoomedHaveRows(files, s.log.recs, eligible, sha);
      RowsAreFiles(files);
    }
  }

  /** The failing sweep, in full: two git-mode rows of one sha. A crash once the object is gone and a
      retry leave the first row live, its bytes deleted and its op done. */
  lemma TwoRowsOneSha(f: File, g: File, who: Who, hash: string)
    requires f.path != g.path && f.id != g.id && f.id != "" && g.id != "" && f.sha == g.sha && f.syncMode == GIT && g.syncMode == GIT
    ensures var files := [f, g];
            var s := Node(Some(Rows(files)), LogView(None, []), map[f.sha := hash]);
            var x := DropObject(Intend(s, GcEntry([g.id], who)), f.sha);
            var y := RetryResult(x, [g.id], who.opID);
            Unlocked([f.sha], GitModeIndex(files), []) == ([f.sha], [g.id])
            && x in Script(s, GcPlan(Rows(files), [f.sha], [g.id], who))
            && f.path in y.cat.value && y.cat.value[f.path] == f && f.sha !in y.objects && DoneIn(y.log, who.opID)
            && Final(s, GcPlan(Rows(files), [f.sha], [g.id], who)).cat == Some(map[])
  {
    var files := [f, g];
    var s := Node(Some(Rows(files)), LogView(None, []), map[f.sha := hash]);
    assert DistinctPaths(files);
    TwoRowsIndex(f, g);
    TwoRows(f, g);
    var e := GcEntry([g.id], who);
    CompletedOp(s.log, e);
    SweepOfOne(s, f.sha, [g.id], who);
    FinalSweep(s, [f.sha], [g.id], who);
    assert Without(Rows(files), [f.sha]) == map[];
  }

  lemma TwoRows(f: File, g: File)
    requires f.path != g.path
    ensures Rows([f, g]) == map[f.path := f, g.path := g]
  {
    RowsAreFiles([f, g]);
    assert Paths([f, g]) == {f.path, g.path};
    assert f in [f, g] && g in [f, g];
  }

  lemma TwoRowsIndex(f: File, g: File)
    requires f.sha == g.sha && f.syncMode == GIT && g.syncMode == GIT && g.id != ""
    ensures GitModeIndex([f, g]) == map[f.sha := g.id] && Unlocked([f.sha], GitModeIndex([f, g]), []) == ([f.sha], [g.id])
  {
    assert [f, g][..1] == [f] && [f][..0] == [];
    assert GitModeIndex([f]) == map[f.sha := f.id];
    var index := GitModeIndex([f, g]);
    assert [f.sha][..0] == [];
    assert Unlocked([], index, []) == ([], []);
    assert [] + [f.sha] == [f.sha] && [] + [g.id] == [g.id];
  }

  lemma SweepOfOne(s: Node, sha: string, ids: seq<string>, who: Who)
    requires s.cat.Some? && !Append(s.log, GcEntry(ids, who)).0.Held?
    ensures DropObject(Intend(s, GcEntry(ids, who)), sha) in Script(s, GcPlan(s.cat.value, [sha], ids, who))
  {
    var a := Intend(s, GcEntry(ids, who));
    assert Erasures([sha]) == [Erase(sha)];
    UnfoldOne(a, Erase(sha));
    assert Script(s, GcPlan(s.cat.value, [sha], ids, who))[1] == DropObject(a, sha);
  }

  /** Every object-backed row that is to lose its bytes is named by the sweep, or accounted for already. */
  ghost predicate SweepGuarded(s: Node, shas: seq<string>, ids: seq<string>, backed: set<string>)
    requires s.cat.Some?
  {
    forall p :: p in s.cat.value && s.cat.value[p].sha in shas && s.cat.value[p].id in backed ==> s.cat.value[p].id in ids || Protected(s.log, s.cat.value[p].id)
  }

  /** A sweep keeps the write-ahead invariant wherever it crashes. */
  lemma SweepWriteAhead(s: Node, shas: seq<string>, ids: seq<string>, who: Who, backed: set<string>, x: Node)
    requires s.cat.Some? && SweepGuarded(s, shas, ids, backed) && WriteAhead(s, backed)
    requires Append(s.log, GcEntry(ids, who)).0.Fresh?
    requires Midway(s, shas, ids, who, x) || x == Final(s, GcPlan(s.cat.value, shas, ids, who))
    ensures WriteAhead(x, backed)
  {
    FinalSweep(s, shas, ids, who);
    var a := Intend(s, GcEntry(ids, who));
    forall p | p in x.cat.value && x.cat.value[p].id in backed && x.cat.value[p].sha !in x.objects
      ensures Protected(x.log, x.cat.value[p].id)
    {
      assert x.cat.value[p] == s.cat.value[p];
      if x.cat.value[p].sha in shas && x.cat.value[p].id in ids {
        assert Guards(a.log.recs[|s.log.recs|], x.cat.value[p].id);
        FailKeepsProtection(a.log, who.opID, x.cat.value[p].id);
      } else {
        OthersStayProtected(s, ids, who, x.cat.value[p].id);
      }
    }
  }

  /** Whatever becomes of the sweep's op, it takes no other op's protection away. */
  lemma OthersStayProtected(s: Node, ids: seq<string>, who: Who, id: string)
    requires Append(s.log, GcEntry(ids, who)).0.Fresh? && Protected(s.log, id)
    ensures var v := Intend(s, GcEntry(ids, who)).log;
            Protected(v, id) && Protected(MarkOp(v, who.opID, false), id) && Protected(MarkOp(v, who.opID, true), id)
  {
    var v := Intend(s, GcEntry(ids, who)).log;
    var i :| 0 <= i < |s.log.recs| && Guards(s.log.recs[i], id);
    assert v.recs[i] == s.log.recs[i] && s.log.recs[i].entry.opID != who.opID;
    FinishKeepsOthers(v, who.opID, id, i);
    FailKeepsProtection(v, who.opID, id);
  }
}
