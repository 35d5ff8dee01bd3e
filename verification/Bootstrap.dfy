/** Ingesting a directory in batches, so that a run that dies anywhere can be run again and ends with
    the same catalog: intents first, the catalog every so often, done markers only behind it. */
module Bootstrap {
  import opened Wrappers
  import opened Text
  import opened Wal
  import opened Journals
  import opened Catalogs
  import opened Identity
  import opened Vaults
  import opened Commands

  /** A file of the plan: its path, and what hashing it gives. */
  datatype Source = Source(rel: string, size: int, sha: string)

  /** The inputs that stay fixed from one run to the next: the plan, the clock, and the op ids, which
      are derived from paths. mint is MintID of some hash. */
  datatype Job = Job(mint: Genesis -> string, node: string, op: string -> string, actor: string, now: int, plan: seq<Source>)

  function NewEntry(b: Job, c: Source): Entry {
    var who := Who(b.op(c.rel), b.actor, b.now);
    IngestEntryOf(b.mint(Genesis(c.sha, c.rel, who.opID, b.node)), b.node, c.rel, c.sha, c.size, who)
  }

  /** The entry the catalog row of c comes from: the recorded one if there is one. */
  function EntryFor(b: Job, v: LogView, c: Source): Entry {
    var at := FindOp(v, b.op(c.rel));
    if at.Some? then v.recs[at.value].entry else NewEntry(b, c)
  }

  function RowFor(b: Job, v: LogView, c: Source): Option<File> {
    MintedRow(b.mint, EntryFor(b, v, c), b.node)
  }

  function OpOf(b: Job, i: nat): string
    requires i < |b.plan|
  {
    b.op(b.plan[i].rel)
  }

  /** No two files share an op id, and so none is planned twice. */
  ghost predicate DistinctPlan(b: Job) {
    forall i, j :: 0 <= i < j < |b.plan| ==> OpOf(b, i) != OpOf(b, j)
  }

  /** A record that already has the op id of a file was made for that file. */
  ghost predicate Plannable(b: Job, v: LogView) {
    forall c :: c in b.plan && RowFor(b, v, c).Some? ==> RowFor(b, v, c).value.path == c.rel
  }

  const NO_FILE: File := File("", Genesis("", "", "", ""), "", "", "", 0, 0, 0, 0)

  function Row(b: Job, v: LogView, c: Source): File {
    var r := RowFor(b, v, c);
    if r.Some? then r.value else NO_FILE
  }

  function PlanRows(b: Job, v: LogView): (fs: seq<File>)
    ensures |fs| == |b.plan|
  {
    seq(|b.plan|, i requires 0 <= i < |b.plan| => Row(b, v, b.plan[i]))
  }

  function Fill(plan: seq<Source>, fs: seq<File>, rows: RowMap, k: nat): RowMap
    requires |fs| == |plan| && k <= |plan|
  {
    if k == 0 then rows else Fill(plan, fs, rows, k - 1)[plan[k - 1].rel := fs[k - 1]]
  }

  /** The catalog once the first k files are in. */
  function Ingested(b: Job, v: LogView, rows: RowMap, k: nat): RowMap
    requires k <= |b.plan|
  {
    Fill(b.plan, PlanRows(b, v), rows, k)
  }

  ghost predicate SameRowsFor(b: Job, v: LogView, w: LogView) {
    forall c :: c in b.plan ==> RowFor(b, w, c) == RowFor(b, v, c)
  }

  /** The log goes on: no op twice, and what is recorded of the plan stays recorded as it was. */
  ghost predicate Continues(b: Job, v: LogView, w: LogView) {
    && (DistinctOps(v) ==> DistinctOps(w))
    && forall c :: c in b.plan ==> Body(EntryFor(b, w, c)) == Body(EntryFor(b, v, c)) && (RecordedIn(v, b.op(c.rel)) ==> RecordedIn(w, b.op(c.rel)))
  }

  function PlanEntries(b: Job): (es: seq<Entry>)
    ensures |es| == |b.plan|
    ensures forall i :: 0 <= i < |es| ==> es[i].opID == OpOf(b, i)
  {
    seq(|b.plan|, i requires 0 <= i < |b.plan| => NewEntry(b, b.plan[i]))
  }

  /** What an uninterrupted run leaves. */
  function Outcome(b: Job, s: Node): Node
    requires s.cat.Some?
  {
    Node(Some(Ingested(b, s.log, s.cat.value, |b.plan|)), CompleteAll(s.log, PlanEntries(b), |b.plan|), s.objects)
  }

  /** No op became done before its row was in the catalog on disk. */
  ghost predicate DoneCovered(b: Job, s: Node, x: Node) {
    forall c :: c in b.plan && DoneIn(x.log, b.op(c.rel)) && !DoneIn(s.log, b.op(c.rel)) ==>
      x.cat.Some? && c.rel in x.cat.value && x.cat.value[c.rel] == Row(b, s.log, c)
  }

  /** Any state that a run started in s can leave behind when it dies. */
  ghost predicate Torn(b: Job, s: Node, x: Node) {
    && s.cat.Some? && Plannable(b, s.log)
    && x.objects == s.objects
    && Continues(b, s.log, x.log)
    && DoneCovered(b, s, x)
    && CompleteAll(x.log, PlanEntries(b), |b.plan|) == CompleteAll(s.log, PlanEntries(b), |b.plan|)
    && exists k :: 0 <= k <= |b.plan| && x.cat == Some(Ingested(b, s.log, s.cat.value, k))
  }

  // ---- what a run needs to get through ---------------------------------------------------

  function FileID(b: Job, i: nat): string
    requires i < |b.plan|
  {
    var c := b.plan[i];
    b.mint(Genesis(c.sha, c.rel, b.op(c.rel), b.node))
  }

  /** The id of a file that is still to be journaled is not among the blobs of any other file of the plan. */
  ghost predicate OwnIDs(b: Job, v: LogView) {
    forall i, j :: 0 <= i < |b.plan| && 0 <= j < |b.plan| && i != j && !RecordedIn(v, OpOf(b, i)) ==> FileID(b, i) !in EntryFor(b, v, b.plan[j]).blobRefs
  }

  function PlanOps(b: Job): set<string> {
    set c | c in b.plan :: b.op(c.rel)
  }

  /** File i has a valid ingest record, and if it is still to be journaled no op from outside the plan
      holds its id. */
  ghost predicate PassesAt(b: Job, v: LogView, i: nat)
    requires i < |b.plan|
  {
    RowFor(b, v, b.plan[i]).Some? && (RecordedIn(v, OpOf(b, i)) || !HeldBeyond(v, PlanOps(b), FileID(b, i)))
  }

  ghost predicate PassesUpTo(b: Job, v: LogView, k: nat)
    requires k <= |b.plan|
  {
    forall i :: 0 <= i < k ==> PassesAt(b, v, i)
  }

  ghost predicate Unobstructed(b: Job, v: LogView) {
    PassesUpTo(b, v, |b.plan|)
  }

  ghost predicate ToldApart(b: Job, v: LogView) {
    DistinctOps(v) && OwnIDs(b, v)
  }

  lemma FoundAlone(w: LogView, i: nat)
    requires DistinctOps(w) && i < |w.recs|
    ensures FindOp(w, w.recs[i].entry.opID) == Some(i)
  {
    assert FindOp(w, w.recs[i].entry.opID).Some?;
  }

  lemma PlanRecordElsewhere(b: Job, v: LogView, w: LogView, k: nat, i: nat)
    requires Continues(b, v, w) && DistinctOps(w) && OwnIDs(b, v) && k < |b.plan| && !RecordedIn(w, OpOf(b, k))
    requires i < |w.recs| && w.recs[i].entry.opID in PlanOps(b)
    ensures FileID(b, k) !in w.recs[i].entry.blobRefs
  {
    var c :| c in b.plan && b.op(c.rel) == w.recs[i].entry.opID;
    var j :| 0 <= j < |b.plan| && b.plan[j] == c;
    FoundAlone(w, i);
    assert b.plan[k] in b.plan && j != k;
    assert Body(EntryFor(b, w, c)) == Body(EntryFor(b, v, c));
    assert EntryFor(b, v, b.plan[j]).blobRefs == w.recs[i].entry.blobRefs;
  }

  /** Whatever the plan itself has journaled since v never stands in its own way. */
  lemma FreshIff(b: Job, v: LogView, w: LogView, k: nat)
    requires Continues(b, v, w) && DistinctOps(w) && OwnIDs(b, v) && k < |b.plan| && !RecordedIn(w, OpOf(b, k))
    ensures Append(w, NewEntry(b, b.plan[k])).0.Fresh? <==> !HeldBeyond(w, PlanOps(b), FileID(b, k))
  {
    var e, id := NewEntry(b, b.plan[k]), FileID(b, k);
    assert e.blobRefs == [id] && id in e.blobRefs;
    forall i | 0 <= i < |w.recs|
      ensures SharesBlob(w.recs[i].entry.blobRefs, e.blobRefs) <==> id in w.recs[i].entry.blobRefs
      ensures id in w.recs[i].entry.blobRefs ==> w.recs[i].entry.opID !in PlanOps(b)
    {
      if w.recs[i].entry.opID in PlanOps(b) {
        PlanRecordElsewhere(b, v, w, k, i);
      }
    }
  }

  lemma HeldAlike(b: Job, v: LogView, w: LogView, ref: string)
    requires CompleteAll(w, PlanEntries(b), |b.plan|) == CompleteAll(v, PlanEntries(b), |b.plan|)
    ensures HeldBeyond(w, PlanOps(b), ref) <==> HeldBeyond(v, PlanOps(b), ref)
  {
    var es := PlanEntries(b);
    forall i | 0 <= i < |b.plan|
      ensures es[i].opID in PlanOps(b)
    {
      assert b.plan[i] in b.plan;
    }
    CompleteHeldBeyond(v, es, |b.plan|, PlanOps(b), ref);
    CompleteHeldBeyond(w, es, |b.plan|, PlanOps(b), ref);
  }

  /** Where minting is injective and each op of the plan that is in the log locks the id it minted, ids are
      told apart. */
  lemma InjectiveOwnIDs(b: Job, v: LogView)
    requires DistinctPlan(b) && forall g, g' :: b.mint(g) == b.mint(g') ==> g == g'
    requires forall c :: c in b.plan && RecordedIn(v, b.op(c.rel)) ==> exists g: Genesis :: g.ingestOpID == b.op(c.rel) && EntryFor(b, v, c).blobRefs == [b.mint(g)]
    ensures OwnIDs(b, v)
  {
    forall i, j | 0 <= i < |b.plan| && 0 <= j < |b.plan| && i != j && !RecordedIn(v, OpOf(b, i))
      ensures FileID(b, i) !in EntryFor(b, v, b.plan[j]).blobRefs
    {
      assert OpOf(b, i) != OpOf(b, j) by {
        assert i < j || j < i;
      }
      assert b.plan[j] in b.plan;
      if !RecordedIn(v, OpOf(b, j)) {
        assert EntryFor(b, v, b.plan[j]).blobRefs == [FileID(b, j)];
      }
    }
  }

  // ---- rows by path ----------------------------------------------------------------------

  /** Which of the first k files, if any, is planned at this path. */
  function PlannedAt(plan: seq<Source>, k: nat, p: string): (r: Option<nat>)
    requires k <= |plan|
    ensures r.Some? ==> r.value < k && plan[r.value].rel == p
    ensures r.None? ==> forall i :: 0 <= i < k ==> plan[i].rel != p
  {
    if k == 0 then None else if plan[k - 1].rel == p then Some(k - 1) else PlannedAt(plan, k - 1, p)
  }

  /** No path is planned twice. */
  ghost predicate DistinctRels(plan: seq<Source>) {
    forall i, j :: 0 <= i < j < |plan| ==> plan[i].rel != plan[j].rel
  }

  lemma DistinctPlanRels(b: Job)
    requires DistinctPlan(b)
    ensures DistinctRels(b.plan)
  {
    forall i, j | 0 <= i < j < |b.plan|
      ensures b.plan[i].rel != b.plan[j].rel
    {
      assert OpOf(b, i) != OpOf(b, j);
    }
  }

  function ValueAt(plan: seq<Source>, fs: seq<File>, rows: RowMap, k: nat, p: string): Option<File>
    requires |fs| == |plan| && k <= |plan|
  {
    var at := PlannedAt(plan, k, p);
    if at.Some? then Some(fs[at.value]) else if p in rows then Some(rows[p]) else None
  }

  lemma {:induction false} FilledAt(plan: seq<Source>, fs: seq<File>, rows: RowMap, k: nat, p: string)
    requires |fs| == |plan| && k <= |plan|
    ensures var m := Fill(plan, fs, rows, k); ValueAt(plan, fs, rows, k, p) == if p in m then Some(m[p]) else None
  {
    if k > 0 {
      FilledAt(plan, fs, rows, k - 1, p);
    }
  }

  lemma PlannedNowhereElse(plan: seq<Source>, k: nat, p: string, i: nat)
    requires DistinctRels(plan) && k <= |plan| && i < |plan| && plan[i].rel == p
    ensures PlannedAt(plan, k, p) == if i < k then Some(i) else None
  {
  }

  lemma ValueTwice(plan: seq<Source>, fs: seq<File>, rows: RowMap, k: nat, j: nat, p: string)
    requires |fs| == |plan| && DistinctRels(plan) && k <= |plan| && j <= |plan|
    ensures ValueAt(plan, fs, Fill(plan, fs, rows, k), j, p) == ValueAt(plan, fs, rows, if j < k then k else j, p)
  {
    FilledAt(plan, fs, rows, k, p);
    var at := PlannedAt(plan, if j < k then k else j, p);
    if at.Some? {
      PlannedNowhereElse(plan, j, p, at.value);
      PlannedNowhereElse(plan, k, p, at.value);
    }
  }

  /** Filling in again what was already filled in changes nothing; the rest goes on from there. */
  lemma FilledTwice(plan: seq<Source>, fs: seq<File>, rows: RowMap, k: nat, j: nat)
    requires |fs| == |plan| && DistinctRels(plan) && k <= |plan| && j <= |plan|
    ensures Fill(plan, fs, Fill(plan, fs, rows, k), j) == Fill(plan, fs, rows, if j < k then k else j)
  {
    var a, c := Fill(plan, fs, Fill(plan, fs, rows, k), j), Fill(plan, fs, rows, if j < k then k else j);
    forall p
      ensures p in a <==> p in c
      ensures p in a ==> a[p] == c[p]
    {
      ValueTwice(plan, fs, rows, k, j, p);
      FilledAt(plan, fs, Fill(plan, fs, rows, k), j, p);
      FilledAt(plan, fs, rows, if j < k then k else j, p);
    }
  }

  /** A row does not depend on where its entry stands in the log. */
  lemma RowIgnoresPlace(b: Job, e: Entry, f: Entry)
    requires Body(e) == Body(f)
    ensures MintedRow(b.mint, e, b.node) == MintedRow(b.mint, f, b.node)
  {
    assert e.args == f.args && e.opID == f.opID && e.opType == f.opType && e.createdAt == f.createdAt;
    assert forall k :: ArgOf(e, k) == ArgOf(f, k);
    assert FromIngestEntry(e, b.node) == FromIngestEntry(f, b.node);
  }

  lemma ContinuedRows(b: Job, v: LogView, w: LogView)
    requires Continues(b, v, w)
    ensures SameRowsFor(b, v, w)
  {
    forall c | c in b.plan
      ensures RowFor(b, w, c) == RowFor(b, v, c)
    {
      RowIgnoresPlace(b, EntryFor(b, w, c), EntryFor(b, v, c));
    }
  }

  lemma SamePlanRows(b: Job, v: LogView, w: LogView)
    requires SameRowsFor(b, v, w)
    ensures PlanRows(b, v) == PlanRows(b, w)
  {
    forall i | 0 <= i < |b.plan|
      ensures Row(b, v, b.plan[i]) == Row(b, w, b.plan[i])
    {
      assert b.plan[i] in b.plan;
    }
  }

  lemma SamePlannable(b: Job, v: LogView, w: LogView)
    requires Plannable(b, v) && SameRowsFor(b, v, w)
    ensures Plannable(b, w)
  {
  }

  lemma IngestedTwice(b: Job, v: LogView, w: LogView, rows: RowMap, k: nat, j: nat)
    requires DistinctRels(b.plan) && SameRowsFor(b, v, w) && k <= |b.plan| && j <= |b.plan|
    ensures Ingested(b, w, Ingested(b, v, rows, k), j) == Ingested(b, v, rows, if j < k then k else j)
  {
    SamePlanRows(b, v, w);
    FilledTwice(b.plan, PlanRows(b, v), rows, k, j);
  }

  // ---- crash and resume ------------------------------------------------------------------

  /** Whatever state a run dies in, running it again to the end leaves exactly the member that the
      uninterrupted run would have left: catalog, log and objects. */
  lemma ResumeSameOutcome(b: Job, s: Node, x: Node)
    requires Torn(b, s, x) && DistinctPlan(b)
    ensures Plannable(b, x.log) && Outcome(b, x) == Outcome(b, s)
  {
    ContinuedRows(b, s.log, x.log);
    SamePlannable(b, s.log, x.log);
    DistinctPlanRels(b);
    var k :| 0 <= k <= |b.plan| && x.cat == Some(Ingested(b, s.log, s.cat.value, k));
    IngestedTwice(b, s.log, x.log, s.cat.value, k, |b.plan|);
  }

  lemma PlannedRowIn(b: Job, s: Node, i: nat)
    requires DistinctPlan(b) && i < |b.plan| && s.cat.Some?
    ensures var c, rows := b.plan[i], Outcome(b, s).cat.value; c.rel in rows && rows[c.rel] == Row(b, s.log, c)
  {
    DistinctPlanRels(b);
    FilledAt(b.plan, PlanRows(b, s.log), s.cat.value, |b.plan|, b.plan[i].rel);
    PlannedNowhereElse(b.plan, |b.plan|, b.plan[i].rel, i);
  }

  /** A planned file the log has not seen ends with the row this run minted. */
  lemma NewRowTells(b: Job, s: Node, i: nat)
    requires DistinctPlan(b) && i < |b.plan| && s.cat.Some? && RowFor(b, s.log, b.plan[i]).Some? && !RecordedIn(s.log, OpOf(b, i))
    ensures var c, rows := b.plan[i], Outcome(b, s).cat.value;
            var g := Genesis(c.sha, c.rel, OpOf(b, i), b.node);
            c.rel in rows && rows[c.rel] == File(b.mint(g), g, c.sha, c.rel, MANUAL, Clamp(c.size), b.now, b.now, b.now)
  {
    PlannedRowIn(b, s, i);
    var c := b.plan[i];
    var e := NewEntry(b, c);
    assert ArgOf(e, ContentSha256) == c.sha && ArgOf(e, Arg.Path) == c.rel && ArgOf(e, SyncModeArg) == MANUAL && ArgOf(e, Size) == Integer(c.size);
    IntegerReadsBack(c.size);
  }

  /** One that is recorded ends with the row its record says, whatever this run finds on disk or on the clock. */
  lemma RecordedRowTells(b: Job, s: Node, i: nat, j: nat)
    requires DistinctPlan(b) && i < |b.plan| && s.cat.Some? && RowFor(b, s.log, b.plan[i]).Some?
    requires DistinctOps(s.log) && j < |s.log.recs| && s.log.recs[j].entry.opID == OpOf(b, i)
    ensures var c, rows, e := b.plan[i], Outcome(b, s).cat.value, s.log.recs[j].entry;
            && c.rel in rows
            && var f := rows[c.rel];
            && f.genesis == Genesis(ArgOf(e, ContentSha256), ArgOf(e, Arg.Path), OpOf(b, i), b.node) && f.id == b.mint(f.genesis)
            && f.sha == ArgOf(e, ContentSha256) && f.path == ArgOf(e, Arg.Path) && f.size == ParseSize(ArgOf(e, Size))
            && f.createdAt == f.updatedAt == f.lastScanned == e.createdAt
            && f.syncMode == if ArgOf(e, SyncModeArg) == "" then MANUAL else ArgOf(e, SyncModeArg)
  {
    PlannedRowIn(b, s, i);
    FoundAlone(s.log, j);
    assert EntryFor(b, s.log, b.plan[i]) == s.log.recs[j].entry;
  }

  /** The run touches no path but those of the plan, and no bytes. It keeps every record, changes the state
      of none but its own, and adds none but its own; each of its ops ends completed. */
  lemma OutcomeTells(b: Job, s: Node)
    requires DistinctPlan(b) && s.cat.Some?
    ensures var out := Outcome(b, s);
            && out.cat.Some? && out.objects == s.objects
            && (forall p :: (forall c :: c in b.plan ==> c.rel != p) ==> (p in out.cat.value <==> p in s.cat.value) && (p in s.cat.value ==> out.cat.value[p] == s.cat.value[p]))
            && CompletedLog(s.log, PlanEntries(b), |b.plan|, out.log)
            && (forall i :: 0 <= i < |b.plan| && RecordedIn(out.log, OpOf(b, i)) ==> DoneIn(out.log, OpOf(b, i)) || Next(out.log) > MARKER_LIMIT)
  {
    var out, n := Outcome(b, s), |b.plan|;
    forall p | forall c :: c in b.plan ==> c.rel != p
      ensures (p in out.cat.value <==> p in s.cat.value) && (p in s.cat.value ==> out.cat.value[p] == s.cat.value[p])
    {
      FilledAt(b.plan, PlanRows(b, s.log), s.cat.value, n, p);
      assert forall i :: 0 <= i < n ==> b.plan[i] in b.plan;
    }
    CompletedLogTells(s.log, PlanEntries(b), n);
    forall i | 0 <= i < n && RecordedIn(out.log, OpOf(b, i))
      ensures DoneIn(out.log, OpOf(b, i)) || Next(out.log) > MARKER_LIMIT
    {
      CompletedAreSettled(s.log, PlanEntries(b), n, i);
      SettledIsDone(out.log, OpOf(b, i));
    }
  }

  /** What an uninterrupted run needs to get through, the crash leaves in place: the intents it left never
      hold up the run that resumes it. */
  lemma ResumeUnobstructed(b: Job, s: Node, x: Node)
    requires Torn(b, s, x) && ToldApart(b, s.log) && Unobstructed(b, s.log)
    ensures ToldApart(b, x.log) && Unobstructed(b, x.log)
  {
    ContinuedRows(b, s.log, x.log);
    forall i | 0 <= i < |b.plan|
      ensures PassesAt(b, x.log, i)
    {
      assert PassesAt(b, s.log, i) && b.plan[i] in b.plan;
      HeldAlike(b, s.log, x.log, FileID(b, i));
    }
    forall i, j | 0 <= i < |b.plan| && 0 <= j < |b.plan| && i != j && !RecordedIn(x.log, OpOf(b, i))
      ensures FileID(b, i) !in EntryFor(b, x.log, b.plan[j]).blobRefs
    {
      assert b.plan[i] in b.plan && b.plan[j] in b.plan;
      assert Body(EntryFor(b, x.log, b.plan[j])) == Body(EntryFor(b, s.log, b.plan[j]));
    }
  }

  /** A run may die before its first write. */
  lemma StartIsTorn(b: Job, s: Node)
    requires s.cat.Some? && Plannable(b, s.log)
    ensures Torn(b, s, s)
  {
    assert s.cat == Some(Ingested(b, s.log, s.cat.value, 0));
  }

  lemma ContinuesTransitive(b: Job, u: LogView, v: LogView, w: LogView)
    requires Continues(b, u, v) && Continues(b, v, w)
    ensures Continues(b, u, w)
  {
    forall c | c in b.plan
      ensures Body(EntryFor(b, w, c)) == Body(EntryFor(b, u, c)) && (RecordedIn(u, b.op(c.rel)) ==> RecordedIn(w, b.op(c.rel)))
    {
      assert Body(EntryFor(b, v, c)) == Body(EntryFor(b, u, c));
    }
  }

  /** Ingesting never takes a planned row out. */
  lemma StillThere(b: Job, v: LogView, rows: RowMap, j: nat, c: Source)
    requires DistinctRels(b.plan) && j <= |b.plan| && c in b.plan && c.rel in rows && rows[c.rel] == Row(b, v, c)
    ensures var m := Ingested(b, v, rows, j); c.rel in m && m[c.rel] == Row(b, v, c)
  {
    var fs := PlanRows(b, v);
    FilledAt(b.plan, fs, rows, j, c.rel);
    var i :| 0 <= i < |b.plan| && b.plan[i] == c;
    assert fs[i] == Row(b, v, c);
    PlannedNowhereElse(b.plan, j, c.rel, i);
  }

  lemma CoveredAgain(b: Job, s: Node, x: Node, y: Node, j: nat)
    requires SameRowsFor(b, s.log, x.log) && DistinctRels(b.plan) && DoneCovered(b, s, x) && DoneCovered(b, x, y)
    requires j <= |b.plan| && x.cat.Some? && y.cat == Some(Ingested(b, x.log, x.cat.value, j))
    ensures DoneCovered(b, s, y)
  {
    forall c | c in b.plan && DoneIn(y.log, b.op(c.rel)) && !DoneIn(s.log, b.op(c.rel))
      ensures c.rel in y.cat.value && y.cat.value[c.rel] == Row(b, s.log, c)
    {
      assert RowFor(b, x.log, c) == RowFor(b, s.log, c);
      if DoneIn(x.log, b.op(c.rel)) {
        StillThere(b, x.log, x.cat.value, j, c);
      }
    }
  }

  /** A run that resumes a crashed run and dies again is just as good: crashes compose. */
  lemma TornAgain(b: Job, s: Node, x: Node, y: Node)
    requires Torn(b, s, x) && Plannable(b, x.log) && Torn(b, x, y) && DistinctPlan(b)
    ensures Torn(b, s, y)
  {
    DistinctPlanRels(b);
    ContinuedRows(b, s.log, x.log);
    var k :| 0 <= k <= |b.plan| && x.cat == Some(Ingested(b, s.log, s.cat.value, k));
    var j :| 0 <= j <= |b.plan| && y.cat == Some(Ingested(b, x.log, x.cat.value, j));
    IngestedTwice(b, s.log, x.log, s.cat.value, k, j);
    assert y.cat == Some(Ingested(b, s.log, s.cat.value, if j < k then k else j));
    ContinuesTransitive(b, s.log, x.log, y.log);
    CoveredAgain(b, s, x, y, j);
  }

  /** Files the log has not seen can always be planned, and have rows. */
  lemma NewFilesPlannable(b: Job, v: LogView)
    requires b.node != ""
    requires forall c :: c in b.plan ==> IsHex64(c.sha) && c.rel != "" && b.op(c.rel) != "" && !RecordedIn(v, b.op(c.rel))
    ensures Plannable(b, v) && forall c :: c in b.plan ==> RowFor(b, v, c).Some?
  {
    forall c | c in b.plan
      ensures RowFor(b, v, c).Some? && RowFor(b, v, c).value.path == c.rel
    {
      var e := NewEntry(b, c);
      assert EntryFor(b, v, c) == e;
      assert ArgOf(e, ContentSha256) == c.sha && ArgOf(e, Arg.Path) == c.rel;
    }
  }

  // ---- one run, step by step -------------------------------------------------------------

  lemma RecordedEntries(b: Job, v: LogView, k: nat)
    requires k <= |b.plan|
    ensures RecordedUpTo(v, PlanEntries(b), k) <==> forall i :: 0 <= i < k ==> RecordedIn(v, OpOf(b, i))
  {
    var es := PlanEntries(b);
    assert forall i :: 0 <= i < k ==> es[i].opID == OpOf(b, i);
  }

  /** The log since the run began: done ops stay done, and no op was recorded ahead of its turn. */
  ghost predicate LogGrown(b: Job, v: LogView, w: LogView, k: nat) {
    && Next(v) <= Next(w)
    && (forall i :: 0 <= i < |b.plan| && DoneIn(v, OpOf(b, i)) ==> DoneIn(w, OpOf(b, i)))
    && (forall i :: k <= i < |b.plan| && !RecordedIn(v, OpOf(b, i)) ==> !RecordedIn(w, OpOf(b, i)))
  }

  /** A run that started in s has taken in k files and written the catalog after f of them. */
  ghost predicate Going(b: Job, s: Node, x: Node, k: nat, f: nat) {
    && s.cat.Some? && Plannable(b, s.log) && f <= k <= |b.plan|
    && x.objects == s.objects
    && x.cat == Some(Ingested(b, s.log, s.cat.value, f))
    && Continues(b, s.log, x.log) && DoneCovered(b, s, x) && LogGrown(b, s.log, x.log, k)
    && CompleteAll(x.log, PlanEntries(b), |b.plan|) == CompleteAll(s.log, PlanEntries(b), |b.plan|)
  }

  /** Every file taken in is recorded, and settled unless its done marker is still owed. */
  ghost predicate Owing(b: Job, x: Node, owed: seq<string>, k: nat) {
    && k <= |b.plan|
    && (forall id :: id in owed ==> exists i :: 0 <= i < k && id == OpOf(b, i))
    && (forall i :: 0 <= i < k ==> RecordedIn(x.log, OpOf(b, i)) && (Settled(x.log, OpOf(b, i)) || OpOf(b, i) in owed))
  }

  lemma GoingIsTorn(b: Job, s: Node, x: Node, k: nat, f: nat)
    requires Going(b, s, x, k, f)
    ensures Torn(b, s, x)
  {
  }

  lemma SameFile(b: Job, c: Source, k: nat)
    requires DistinctPlan(b) && k < |b.plan| && c in b.plan && b.op(c.rel) == OpOf(b, k)
    ensures c == b.plan[k]
  {
    var i :| 0 <= i < |b.plan| && b.plan[i] == c;
    assert OpOf(b, i) == OpOf(b, k);
  }

  lemma AppendContinues(b: Job, s: LogView, v: LogView, k: nat)
    requires DistinctPlan(b) && k < |b.plan| && Continues(b, s, v)
    requires !RecordedIn(s, OpOf(b, k)) && !RecordedIn(v, OpOf(b, k)) && Append(v, NewEntry(b, b.plan[k])).0.Fresh?
    ensures Continues(b, s, Append(v, NewEntry(b, b.plan[k])).1)
  {
    var e := NewEntry(b, b.plan[k]);
    var w := Append(v, e).1;
    forall c | c in b.plan
      ensures Body(EntryFor(b, w, c)) == Body(EntryFor(b, s, c)) && (RecordedIn(s, b.op(c.rel)) ==> RecordedIn(w, b.op(c.rel)))
    {
      AppendFinds(v, e, b.op(c.rel));
      assert Body(EntryFor(b, v, c)) == Body(EntryFor(b, s, c));
      if b.op(c.rel) == e.opID {
        SameFile(b, c, k);
      }
    }
    FreshIsNew(v, e);
    AppendDistinct(v, e);
  }

  lemma AppendDistinct(v: LogView, e: Entry)
    requires !HasOp(v, e.opID)
    ensures DistinctOps(v) ==> DistinctOps(AppendRec(v, e))
  {
    var w := AppendRec(v, e);
    assert forall i :: 0 <= i < |v.recs| ==> w.recs[i] == v.recs[i];
  }

  lemma AppendGrown(b: Job, s: LogView, v: LogView, k: nat)
    requires DistinctPlan(b) && k < |b.plan| && LogGrown(b, s, v, k) && Append(v, NewEntry(b, b.plan[k])).0.Fresh?
    ensures LogGrown(b, s, Append(v, NewEntry(b, b.plan[k])).1, k + 1)
  {
    var e := NewEntry(b, b.plan[k]);
    forall i | 0 <= i < |b.plan|
      ensures RecordedIn(Append(v, e).1, OpOf(b, i)) <==> RecordedIn(v, OpOf(b, i)) || i == k
      ensures DoneIn(Append(v, e).1, OpOf(b, i)) <==> DoneIn(v, OpOf(b, i))
    {
      AppendFinds(v, e, OpOf(b, i));
      assert i < k ==> OpOf(b, i) != OpOf(b, k);
      assert k < i ==> OpOf(b, k) != OpOf(b, i);
    }
    AppendFinds(v, e, e.opID);
  }

  lemma IntendGoing(b: Job, s: Node, x: Node, k: nat, f: nat)
    requires DistinctPlan(b) && RecordedUpTo(x.log, PlanEntries(b), k)
    requires Going(b, s, x, k, f) && k < |b.plan| && !RecordedIn(s.log, OpOf(b, k)) && Append(x.log, NewEntry(b, b.plan[k])).0.Fresh?
    ensures Going(b, s, Intend(x, NewEntry(b, b.plan[k])), k + 1, f)
  {
    AppendContinues(b, s.log, x.log, k);
    AppendGrown(b, s.log, x.log, k);
    CompleteAppend(x.log, PlanEntries(b), k, |b.plan|);
    forall c | c in b.plan
      ensures DoneIn(Intend(x, NewEntry(b, b.plan[k])).log, b.op(c.rel)) <==> DoneIn(x.log, b.op(c.rel))
    {
      AppendFinds(x.log, NewEntry(b, b.plan[k]), b.op(c.rel));
    }
  }

  lemma IntendOwing(b: Job, x: Node, owed: seq<string>, k: nat)
    requires Owing(b, x, owed, k) && k < |b.plan| && Append(x.log, NewEntry(b, b.plan[k])).0.Fresh?
    ensures Owing(b, Intend(x, NewEntry(b, b.plan[k])), owed + [OpOf(b, k)], k + 1)
  {
    var e := NewEntry(b, b.plan[k]);
    forall i | 0 <= i < k + 1
      ensures RecordedIn(Append(x.log, e).1, OpOf(b, i)) && (Settled(Append(x.log, e).1, OpOf(b, i)) || OpOf(b, i) in owed + [OpOf(b, k)])
    {
      AppendFinds(x.log, e, OpOf(b, i));
      if i < k && Settled(x.log, OpOf(b, i)) {
        SettledStaysAppend(x.log, e, OpOf(b, i));
      }
    }
  }

  /** A recorded file needs no write; its marker is owed if it was never completed. */
  lemma RecordedOwing(b: Job, v: LogView, x: Node, owed: seq<string>, k: nat)
    requires Continues(b, v, x.log) && LogGrown(b, v, x.log, k) && Owing(b, x, owed, k) && k < |b.plan| && RecordedIn(v, OpOf(b, k))
    ensures Owing(b, x, if DoneIn(v, OpOf(b, k)) then owed else owed + [OpOf(b, k)], k + 1)
  {
    var next := if DoneIn(v, OpOf(b, k)) then owed else owed + [OpOf(b, k)];
    assert forall id :: id in owed ==> id in next;
    assert b.plan[k] in b.plan && RecordedIn(x.log, OpOf(b, k));
    if DoneIn(v, OpOf(b, k)) {
      DoneIsSettled(x.log, OpOf(b, k));
    }
  }

  lemma RecordedGoing(b: Job, s: Node, x: Node, k: nat, f: nat)
    requires Going(b, s, x, k, f) && k < |b.plan| && RecordedIn(s.log, OpOf(b, k))
    ensures Going(b, s, x, k + 1, f)
  {
    assert LogGrown(b, s.log, x.log, k + 1);
  }

  lemma FlushCovered(b: Job, s: Node, x: Node, k: nat, f: nat)
    requires Going(b, s, x, k, f) && DistinctRels(b.plan)
    ensures DoneCovered(b, s, Persist(x, Ingested(b, s.log, s.cat.value, k)))
  {
    var fs, rows := PlanRows(b, s.log), s.cat.value;
    forall c | c in b.plan && DoneIn(x.log, b.op(c.rel)) && !DoneIn(s.log, b.op(c.rel))
      ensures c.rel in Ingested(b, s.log, rows, k) && Ingested(b, s.log, rows, k)[c.rel] == Row(b, s.log, c)
    {
      FilledTwice(b.plan, fs, rows, f, k);
      StillThere(b, s.log, Ingested(b, s.log, rows, f), k, c);
    }
  }

  lemma FlushGoing(b: Job, s: Node, x: Node, k: nat, f: nat)
    requires Going(b, s, x, k, f) && DistinctPlan(b)
    ensures Going(b, s, Persist(x, Ingested(b, s.log, s.cat.value, k)), k, k)
  {
    DistinctPlanRels(b);
    FlushCovered(b, s, x, k, f);
  }

  lemma MarkContinues(b: Job, s: LogView, v: LogView, op: string)
    requires Continues(b, s, v)
    ensures Continues(b, s, MarkOp(v, op, true))
  {
    var w := MarkOp(v, op, true);
    forall c | c in b.plan
      ensures Body(EntryFor(b, w, c)) == Body(EntryFor(b, s, c)) && (RecordedIn(s, b.op(c.rel)) ==> RecordedIn(w, b.op(c.rel)))
    {
      MarkFinds(v, op, b.op(c.rel));
      assert Body(EntryFor(b, v, c)) == Body(EntryFor(b, s, c));
    }
    MarkKeepsEntries(v, op, op);
  }

  lemma MarkGoing(b: Job, s: Node, x: Node, k: nat, i: nat)
    requires Going(b, s, x, k, k) && i < k && DistinctPlan(b) && RecordedUpTo(x.log, PlanEntries(b), k)
    ensures Going(b, s, Finish(x, OpOf(b, i), true), k, k)
  {
    var y := Finish(x, OpOf(b, i), true);
    DistinctPlanRels(b);
    CompleteMark(x.log, PlanEntries(b), i, |b.plan|);
    ContinuedRows(b, s.log, x.log);
    MarkContinues(b, s.log, x.log, OpOf(b, i));
    forall c | c in b.plan
      ensures DoneIn(y.log, b.op(c.rel)) && !DoneIn(s.log, b.op(c.rel)) ==> c.rel in x.cat.value && x.cat.value[c.rel] == Row(b, s.log, c)
    {
      MarkFinds(x.log, OpOf(b, i), b.op(c.rel));
      if b.op(c.rel) == OpOf(b, i) {
        SameFile(b, c, i);
        FilledAt(b.plan, PlanRows(b, s.log), s.cat.value, k, c.rel);
        PlannedNowhereElse(b.plan, k, c.rel, i);
      }
    }
    forall j | 0 <= j < |b.plan|
      ensures RecordedIn(y.log, OpOf(b, j)) <==> RecordedIn(x.log, OpOf(b, j))
      ensures DoneIn(x.log, OpOf(b, j)) ==> DoneIn(y.log, OpOf(b, j))
    {
      MarkFinds(x.log, OpOf(b, i), OpOf(b, j));
    }
    MarkFinds(x.log, OpOf(b, i), OpOf(b, i));
  }

  lemma MarkOwing(b: Job, x: Node, owed: seq<string>, k: nat)
    requires Owing(b, x, owed, k) && owed != []
    ensures Owing(b, Finish(x, owed[0], true), owed[1..], k)
  {
    assert owed == [owed[0]] + owed[1..];
    forall id | id in owed[1..]
      ensures exists i :: 0 <= i < k && id == OpOf(b, i)
    {
      assert id in owed;
    }
    forall i | 0 <= i < k
      ensures RecordedIn(Finish(x, owed[0], true).log, OpOf(b, i))
      ensures Settled(Finish(x, owed[0], true).log, OpOf(b, i)) || OpOf(b, i) in owed[1..]
    {
      MarkFinds(x.log, owed[0], OpOf(b, i));
      if OpOf(b, i) == owed[0] {
        MarkedSettles(x.log, owed[0]);
      } else if Settled(x.log, OpOf(b, i)) {
        SettledStaysMark(x.log, owed[0], OpOf(b, i));
      }
    }
  }

  // ---- the run ---------------------------------------------------------------------------

  /** Everything recorded since the run began differs from the start in this member only. */
  ghost predicate OnlyMember(start: Nodes, n: string, states: seq<Nodes>) {
    forall t :: 0 <= t < |states| ==> n in states[t] && states[t] == start[n := states[t][n]]
  }

  /** And every one of them is a state that is ok to die in. */
  ghost predicate GoodTrail(ok: Node -> bool, start: Nodes, n: string, trail0: seq<Nodes>, trail: seq<Nodes>) {
    && trail0 <= trail
    && OnlyMember(start, n, trail[|trail0|..])
    && forall t :: |trail0| <= t < |trail| ==> n in trail[t] && ok(trail[t][n])
  }

  lemma OnlyMemberOn(start: Nodes, n: string, states: seq<Nodes>, nodes: Nodes, y: Node)
    requires OnlyMember(start, n, states) && n in nodes && nodes == start[n := nodes[n]]
    ensures nodes[n := y] == start[n := y]
    ensures OnlyMember(start, n, states + [nodes[n := y]])
  {
    assert nodes[n := y] == start[n := y];
  }

  /** Recording one more state of the run. */
  lemma GoodOn(ok: Node -> bool, start: Nodes, n: string, trail0: seq<Nodes>, trail: seq<Nodes>, nodes: Nodes, y: Node)
    requires GoodTrail(ok, start, n, trail0, trail) && n in nodes && nodes == start[n := nodes[n]] && ok(y)
    ensures var next := nodes[n := y]; next == start[n := y] && GoodTrail(ok, start, n, trail0, trail + [next])
  {
    OnlyMemberOn(start, n, trail[|trail0|..], nodes, y);
    var next := nodes[n := y];
    assert (trail + [next])[|trail0|..] == trail[|trail0|..] + [next];
  }

  /** Everything recorded since the run began is a state the run may die in. */
  ghost predicate TornTrail(b: Job, s: Node, start: Nodes, n: string, trail0: seq<Nodes>, trail: seq<Nodes>) {
    GoodTrail(x => Torn(b, s, x), start, n, trail0, trail)
  }

  lemma TornOn(b: Job, s: Node, start: Nodes, n: string, trail0: seq<Nodes>, trail: seq<Nodes>, nodes: Nodes, y: Node)
    requires TornTrail(b, s, start, n, trail0, trail) && n in nodes && nodes == start[n := nodes[n]] && Torn(b, s, y)
    ensures var next := nodes[n := y]; next == start[n := y] && TornTrail(b, s, start, n, trail0, trail + [next])
  {
    GoodOn(x => Torn(b, s, x), start, n, trail0, trail, nodes, y);
  }

  /** The records of a log, by op id. */
  ghost predicate Indexes(m: map<string, Rec>, v: LogView) {
    var indexes := (forall op :: op in m <==> RecordedIn(v, op)) && forall op :: op in m ==> FindOp(v, op).Some? && m[op] == v.recs[FindOp(v, op).value];
    indexes
  }

  method IndexByOp(v: LogView) returns (m: map<string, Rec>)
    requires DistinctOps(v)
    ensures Indexes(m, v)
  {
    m := map[];
    for i := 0 to |v.recs|
      invariant forall op :: op in m <==> exists j :: 0 <= j < i && v.recs[j].entry.opID == op
      invariant forall op :: op in m ==> m[op] in v.recs && m[op].entry.opID == op
    {
      m := m[v.recs[i].entry.opID := v.recs[i]];
    }
    forall op | op in m
      ensures FindOp(v, op).Some? && m[op] == v.recs[FindOp(v, op).value]
    {
      var j :| 0 <= j < |v.recs| && v.recs[j] == m[op];
      var at := FindOp(v, op).value;
      assert j < at || at < j || j == at;
    }
  }

  ghost predicate Running(c: Cluster, b: Job, s: Node, start: Nodes, n: string, trail0: seq<Nodes>, k: nat, f: nat)
    reads c
  {
    var now := c.nodes;
    var inPlace := n in now && now == start[n := now[n]] && Going(b, s, now[n], k, f) && TornTrail(b, s, start, n, trail0, c.trail);
    inPlace
  }

  /** The first k files have valid ingest records. */
  ghost predicate Rowed(b: Job, v: LogView, k: nat) {
    k <= |b.plan| && forall i :: 0 <= i < k ==> RowFor(b, v, b.plan[i]).Some?
  }

  ghost predicate Passed(b: Job, v: LogView, k: nat) {
    var passed := k <= |b.plan| && (ToldApart(b, v) ==> PassesUpTo(b, v, k));
    passed
  }

  /** Nothing among the first k files stops a run. */
  ghost predicate Past(b: Job, v: LogView, k: nat) {
    var past := Rowed(b, v, k) && Passed(b, v, k);
    past
  }

  /** The first k files have been taken in. */
  ghost predicate Taken(c: Cluster, b: Job, s: Node, start: Nodes, n: string, trail0: seq<Nodes>, owed: seq<string>, k: nat, f: nat)
    reads c
  {
    var taken := Running(c, b, s, start, n, trail0, k, f) && Owing(b, c.nodes[n], owed, k) && Past(b, s.log, k);
    taken
  }

  ghost predicate InFlight(c: Cluster, b: Job, s: Node, start: Nodes, n: string, trail0: seq<Nodes>, owed: seq<string>, rows: RowMap, k: nat, f: nat)
    reads c
  {
    var inFlight := Taken(c, b, s, start, n, trail0, owed, k, f) && rows == Ingested(b, s.log, s.cat.value, k);
    inFlight
  }

  lemma PassOne(b: Job, v: LogView, k: nat)
    requires Rowed(b, v, k) && Passed(b, v, k) && k < |b.plan| && RowFor(b, v, b.plan[k]).Some?
    requires ToldApart(b, v) ==> PassesAt(b, v, k)
    ensures Rowed(b, v, k + 1) && Passed(b, v, k + 1)
  {
  }

  ghost predicate Obstructed(b: Job, v: LogView) {
    var obstructed := ToldApart(b, v) ==> !Unobstructed(b, v);
    obstructed
  }

  /** The run stopped at a file it could not pass. */
  ghost predicate Stopped(c: Cluster, b: Job, s: Node, start: Nodes, n: string, trail0: seq<Nodes>)
    reads c
  {
    var stopped := Obstructed(b, s.log) && exists k, f :: Running(c, b, s, start, n, trail0, k, f);
    stopped
  }

  method Flush(c: Cluster, n: string, b: Job, rows: RowMap, owed: seq<string>, ghost s: Node, ghost start: Nodes, ghost trail0: seq<Nodes>, ghost k: nat, ghost f: nat)
    requires DistinctPlan(b)
    requires Running(c, b, s, start, n, trail0, k, f) && Owing(b, c.nodes[n], owed, k) && rows == Ingested(b, s.log, s.cat.value, k)
    modifies c
    ensures Running(c, b, s, start, n, trail0, k, k) && Owing(b, c.nodes[n], [], k)
  {
    FlushGoing(b, s, c.nodes[n], k, f);
    PersistRecorded(c, n, b, rows, s, start, trail0, k);
    for i := 0 to |owed|
      invariant Running(c, b, s, start, n, trail0, k, k) && Owing(b, c.nodes[n], owed[i..], k)
    {
      MarkOne(c, n, b, owed[i..], s, start, trail0, k);
      assert owed[i..][1..] == owed[i + 1..];
    }
    assert owed[|owed|..] == [];
  }

  method PersistRecorded(c: Cluster, n: string, b: Job, rows: RowMap, ghost s: Node, ghost start: Nodes, ghost trail0: seq<Nodes>, ghost k: nat)
    requires n in c.nodes && c.nodes == start[n := c.nodes[n]] && TornTrail(b, s, start, n, trail0, c.trail)
    requires Going(b, s, Persist(c.nodes[n], rows), k, k)
    modifies c
    ensures Running(c, b, s, start, n, trail0, k, k) && c.nodes[n] == Persist(old(c.nodes)[n], rows)
  {
    GoingIsTorn(b, s, Persist(c.nodes[n], rows), k, k);
    TornOn(b, s, start, n, trail0, c.trail, c.nodes, Persist(c.nodes[n], rows));
    c.PersistCatalog(n, rows);
  }

  lemma MarkNext(b: Job, s: Node, x: Node, owed: seq<string>, k: nat)
    requires DistinctPlan(b)
    requires Going(b, s, x, k, k) && Owing(b, x, owed, k) && owed != []
    ensures var y := Finish(x, owed[0], true); Going(b, s, y, k, k) && Owing(b, y, owed[1..], k) && Torn(b, s, y)
  {
    assert owed[0] in owed;
    var i :| 0 <= i < k && owed[0] == OpOf(b, i);
    RecordedEntries(b, x.log, k);
    MarkGoing(b, s, x, k, i);
    MarkOwing(b, x, owed, k);
    GoingIsTorn(b, s, Finish(x, owed[0], true), k, k);
  }

  method MarkOne(c: Cluster, n: string, b: Job, owed: seq<string>, ghost s: Node, ghost start: Nodes, ghost trail0: seq<Nodes>, ghost k: nat)
    requires DistinctPlan(b)
    requires Running(c, b, s, start, n, trail0, k, k) && Owing(b, c.nodes[n], owed, k) && owed != []
    modifies c
    ensures Running(c, b, s, start, n, trail0, k, k) && Owing(b, c.nodes[n], owed[1..], k)
  {
    MarkNext(b, s, c.nodes[n], owed, k);
    TornOn(b, s, start, n, trail0, c.trail, c.nodes, Finish(c.nodes[n], owed[0], true));
    c.Mark(n, owed[0], true);
  }

  lemma IntendNext(b: Job, s: Node, x: Node, owed: seq<string>, k: nat, f: nat)
    requires DistinctPlan(b)
    requires Going(b, s, x, k, f) && Owing(b, x, owed, k) && k < |b.plan| && !RecordedIn(s.log, OpOf(b, k))
    ensures var e := NewEntry(b, b.plan[k]); var y := Intend(x, e); var r := Append(x.log, e).0;
      && Torn(b, s, y)
      && (r.Fresh? ==> Going(b, s, y, k + 1, f) && Owing(b, y, owed + [OpOf(b, k)], k + 1))
      && (!r.Fresh? ==> y == x)
  {
    var e := NewEntry(b, b.plan[k]);
    if Append(x.log, e).0.Fresh? {
      RecordedEntries(b, x.log, k);
      IntendGoing(b, s, x, k, f);
      IntendOwing(b, x, owed, k);
      GoingIsTorn(b, s, Intend(x, e), k + 1, f);
    } else {
      assert Intend(x, e) == x;
      GoingIsTorn(b, s, x, k, f);
    }
  }

  lemma IntendsIff(b: Job, s: Node, x: Node, k: nat, f: nat)
    requires Going(b, s, x, k, f) && k < |b.plan| && !RecordedIn(s.log, OpOf(b, k))
    ensures ToldApart(b, s.log) ==> (Append(x.log, NewEntry(b, b.plan[k])).0.Fresh? <==> !HeldBeyond(s.log, PlanOps(b), FileID(b, k)))
  {
    if ToldApart(b, s.log) {
      FreshIff(b, s.log, x.log, k);
      HeldAlike(b, s.log, x.log, FileID(b, k));
    }
  }

  method IntendOne(c: Cluster, n: string, b: Job, src: Source, ghost owed: seq<string>, ghost s: Node, ghost start: Nodes, ghost trail0: seq<Nodes>, ghost k: nat, ghost f: nat) returns (ok: bool)
    requires DistinctPlan(b)
    requires Running(c, b, s, start, n, trail0, k, f) && Owing(b, c.nodes[n], owed, k) && k < |b.plan| && b.plan[k] == src && !RecordedIn(s.log, OpOf(b, k))
    modifies c
    ensures ok ==> Running(c, b, s, start, n, trail0, k + 1, f) && Owing(b, c.nodes[n], owed + [OpOf(b, k)], k + 1)
    ensures !ok ==> Running(c, b, s, start, n, trail0, k, f)
    ensures ToldApart(b, s.log) ==> (ok <==> !HeldBeyond(s.log, PlanOps(b), FileID(b, k)))
  {
    IntendsIff(b, s, c.nodes[n], k, f);
    IntendNext(b, s, c.nodes[n], owed, k, f);
    TornOn(b, s, start, n, trail0, c.trail, c.nodes, Intend(c.nodes[n], NewEntry(b, src)));
    var r := c.AppendIntent(n, NewEntry(b, src));
    ok := r.Fresh?;
  }

  lemma StopHere(c: Cluster, b: Job, s: Node, start: Nodes, n: string, trail0: seq<Nodes>, j: nat, f: nat, k: nat)
    requires Running(c, b, s, start, n, trail0, j, f) && k < |b.plan| && (ToldApart(b, s.log) ==> !PassesAt(b, s.log, k))
    ensures Stopped(c, b, s, start, n, trail0)
  {
  }

  /** The record of one file: the one the log has, or a new one. Its done marker may be owed. */
  method RecordOne(c: Cluster, n: string, b: Job, src: Source, v: LogView, byOp: map<string, Rec>, owed: seq<string>, ghost s: Node, ghost start: Nodes, ghost trail0: seq<Nodes>, ghost k: nat, ghost f: nat)
    returns (ok: bool, owed': seq<string>)
    requires DistinctPlan(b)
    requires Running(c, b, s, start, n, trail0, k, f) && Owing(b, c.nodes[n], owed, k) && k < |b.plan| && b.plan[k] == src
    requires Indexes(byOp, v) && v == s.log
    modifies c
    ensures Running(c, b, s, start, n, trail0, if ok then k + 1 else k, f) && (ok ==> Owing(b, c.nodes[n], owed', k + 1))
    ensures ToldApart(b, v) ==> (ok <==> RecordedIn(v, OpOf(b, k)) || !HeldBeyond(v, PlanOps(b), FileID(b, k)))
  {
    var opID := b.op(src.rel);
    if opID in byOp {
      RecordedGoing(b, s, c.nodes[n], k, f);
      RecordedOwing(b, s.log, c.nodes[n], owed, k);
      return true, if byOp[opID].state == Done then owed else owed + [opID];
    }
    owed' := owed + [opID];
    ok := IntendOne(c, n, b, src, owed, s, start, trail0, k, f);
  }

  /** Take in one file. A record that is no valid ingest stops the run here, and so does a new entry that
      is none, after it was journaled. */
  method TakeIn(c: Cluster, n: string, b: Job, src: Source, v: LogView, byOp: map<string, Rec>, owed: seq<string>, ghost s: Node, ghost start: Nodes, ghost trail0: seq<Nodes>, ghost k: nat, ghost f: nat)
    returns (ok: bool, owed': seq<string>)
    requires DistinctPlan(b)
    requires Taken(c, b, s, start, n, trail0, owed, k, f) && k < |b.plan| && b.plan[k] == src
    requires Indexes(byOp, v) && v == s.log
    modifies c
    ensures if ok then Taken(c, b, s, start, n, trail0, owed', k + 1, f) else Stopped(c, b, s, start, n, trail0)
  {
    ok, owed' := RecordOne(c, n, b, src, v, byOp, owed, s, start, trail0, k, f);
    if ok && RowFor(b, v, src).Some? {
      PassOne(b, v, k);
    } else {
      StopHere(c, b, s, start, n, trail0, if ok then k + 1 else k, f, k);
      ok := false;
    }
  }

  lemma IngestedStep(b: Job, v: LogView, rows: RowMap, k: nat)
    requires k < |b.plan|
    ensures Ingested(b, v, rows, k + 1) == Ingested(b, v, rows, k)[b.plan[k].rel := Row(b, v, b.plan[k])]
  {
  }

  /** What the loop over the plan works with. */
  ghost predicate Prepared(b: Job, s: Node, v: LogView, byOp: map<string, Rec>) {
    var prepared := DistinctPlan(b) && v == s.log && Indexes(byOp, v);
    prepared
  }

  /** Take in one file, and flush when enough done markers are owed. */
  method Advance(c: Cluster, n: string, b: Job, batch: nat, k: nat, v: LogView, byOp: map<string, Rec>, owed: seq<string>, rows: RowMap,
                 ghost s: Node, ghost start: Nodes, ghost trail0: seq<Nodes>, ghost f: nat)
    returns (ok: bool, owed': seq<string>, rows': RowMap, ghost f': nat)
    requires InFlight(c, b, s, start, n, trail0, owed, rows, k, f) && k < |b.plan| && Prepared(b, s, v, byOp)
    modifies c
    ensures if ok then InFlight(c, b, s, start, n, trail0, owed', rows', k + 1, f') else Stopped(c, b, s, start, n, trail0)
  {
    var src := b.plan[k];
    rows', f' := rows, f;
    ok, owed' := TakeIn(c, n, b, src, v, byOp, owed, s, start, trail0, k, f);
    if ok {
      IngestedStep(b, v, s.cat.value, k);
      rows' := rows[src.rel := Row(b, v, src)];
      if |owed'| >= batch {
        Flush(c, n, b, rows', owed', s, start, trail0, k + 1, f);
        owed', f' := [], k + 1;
      }
    }
  }

  method Begin(c: Cluster, n: string, b: Job) returns (byOp: map<string, Rec>)
    requires n in c.nodes && c.nodes[n].cat.Some? && DistinctOps(c.nodes[n].log) && Plannable(b, c.nodes[n].log)
    ensures InFlight(c, b, c.nodes[n], c.nodes, n, c.trail, [], c.nodes[n].cat.value, 0, 0)
    ensures Indexes(byOp, c.nodes[n].log)
  {
    byOp := IndexByOp(c.nodes[n].log);
  }

  /** Every op of the plan is done, as far as done markers can be read back. */
  ghost predicate AllDone(b: Job, v: LogView) {
    forall i :: 0 <= i < |b.plan| ==> RecordedIn(v, OpOf(b, i)) && (Next(v) <= MARKER_LIMIT ==> DoneIn(v, OpOf(b, i)))
  }

  lemma RunResult(b: Job, s: Node, x: Node, k: nat, f: nat)
    requires Going(b, s, x, k, f)
    ensures Torn(b, s, x)
    ensures k == f == |b.plan| && Owing(b, x, [], k) ==> x == Outcome(b, s) && AllDone(b, x.log)
  {
    if k == f == |b.plan| && Owing(b, x, [], k) {
      CompleteSettled(x.log, PlanEntries(b), k);
      forall i | 0 <= i < k && Next(x.log) <= MARKER_LIMIT
        ensures DoneIn(x.log, OpOf(b, i))
      {
        SettledIsDone(x.log, OpOf(b, i));
      }
    }
  }

  const DEFAULT_BATCH: nat := 256

  /** One run. It stops early exactly when an op from outside the plan holds a file, or when a file has no
      valid ingest record; whatever it has recorded is a state it may die in. When it gets through, every
      file has its row and every op is done, and the member is what an uninterrupted run leaves. */
  method Run(c: Cluster, n: string, b: Job, batchN: int) returns (ok: bool)
    requires n in c.nodes && c.nodes[n].cat.Some? && DistinctOps(c.nodes[n].log) && Plannable(b, c.nodes[n].log) && DistinctPlan(b)
    modifies c
    ensures TornTrail(b, old(c.nodes)[n], old(c.nodes), n, old(c.trail), c.trail)
    ensures n in c.nodes && c.nodes == old(c.nodes)[n := c.nodes[n]] && Torn(b, old(c.nodes)[n], c.nodes[n])
    ensures ok ==> c.nodes[n] == Outcome(b, old(c.nodes)[n])
    ensures ok ==> Rowed(b, old(c.nodes)[n].log, |b.plan|) && AllDone(b, c.nodes[n].log)
    ensures ToldApart(b, old(c.nodes)[n].log) ==> (ok <==> Unobstructed(b, old(c.nodes)[n].log))
  {
    ghost var start, trail0, s := c.nodes, c.trail, c.nodes[n];
    var v := c.nodes[n].log;
    var byOp := Begin(c, n, b);
    var rows, owed;
    ghost var f;
    ok, rows, owed, f := TakeAll(c, n, b, if batchN <= 0 then DEFAULT_BATCH else batchN, v, byOp, c.nodes[n].cat.value, s, start, trail0);
    if ok {
      Conclude(c, n, b, rows, owed, s, start, trail0, f);
    } else {
      ghost var k, f' :| Running(c, b, s, start, n, trail0, k, f');
      RunResult(b, s, c.nodes[n], k, f');
    }
  }

  /** The loop over the plan. */
  method TakeAll(c: Cluster, n: string, b: Job, batch: nat, v: LogView, byOp: map<string, Rec>, rows0: RowMap, ghost s: Node, ghost start: Nodes, ghost trail0: seq<Nodes>)
    returns (ok: bool, rows: RowMap, owed: seq<string>, ghost f: nat)
    requires InFlight(c, b, s, start, n, trail0, [], rows0, 0, 0) && Prepared(b, s, v, byOp)
    modifies c
    ensures ok ==> InFlight(c, b, s, start, n, trail0, owed, rows, |b.plan|, f)
    ensures !ok ==> Stopped(c, b, s, start, n, trail0)
  {
    ok, rows, owed, f := true, rows0, [], 0;
    for i := 0 to |b.plan|
      invariant ok && InFlight(c, b, s, start, n, trail0, owed, rows, i, f)
    {
      ok, owed, rows, f := Advance(c, n, b, batch, i, v, byOp, owed, rows, s, start, trail0, f);
      if !ok {
        return;
      }
    }
  }

  /** The last flush. */
  method Conclude(c: Cluster, n: string, b: Job, rows: RowMap, owed: seq<string>, ghost s: Node, ghost start: Nodes, ghost trail0: seq<Nodes>, ghost f: nat)
    requires DistinctPlan(b)
    requires InFlight(c, b, s, start, n, trail0, owed, rows, |b.plan|, f)
    modifies c
    ensures TornTrail(b, s, start, n, trail0, c.trail)
    ensures n in c.nodes && c.nodes == start[n := c.nodes[n]] && Torn(b, s, c.nodes[n])
    ensures c.nodes[n] == Outcome(b, s) && Rowed(b, s.log, |b.plan|)
    ensures AllDone(b, c.nodes[n].log)
  {
    Flush(c, n, b, rows, owed, s, start, trail0, |b.plan|, f);
    RunResult(b, s, c.nodes[n], |b.plan|, |b.plan|);
  }
}
