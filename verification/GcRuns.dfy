/** Garbage collection in company: sweeps that crash, and their retries, in any order with the other
    commands of a member. */
module GcRuns {
  import opened Wrappers
  import opened Wal
  import opened Journals
  import opened Catalogs
  import opened Identity
  import opened Vaults
  import opened Commands
  import opened GcFed

  // ---- one sweep -------------------------------------------------------------------------

  /** The states a sweep may stop in, whether it crashes or its storage fails. */
  ghost predicate SweepState(s: Node, shas: seq<string>, ids: seq<string>, who: Who, y: Node)
    requires s.cat.Some?
  {
    y in Script(s, GcPlan(s.cat.value, shas, ids, who)) || exists k :: 0 <= k <= |shas| && y in FailedScript(s, shas, ids, who, k)
  }

  lemma SweepStateKeeps(s: Node, shas: seq<string>, ids: seq<string>, who: Who, backed: set<string>, y: Node)
    requires s.cat.Some? && WriteAhead(s, backed) && Append(s.log, GcEntry(ids, who)).0.Fresh?
    requires SweepGuarded(s, shas, ids, backed) && SweepState(s, shas, ids, who, y)
    ensures WriteAhead(y, backed)
  {
    if y in Script(s, GcPlan(s.cat.value, shas, ids, who)) {
      SweepStatesMidway(s, shas, ids, who, y);
    } else {
      var k :| 0 <= k <= |shas| && y in FailedScript(s, shas, ids, who, k);
      FailedStatesMidway(s, shas, ids, who, k, y);
    }
    SweepWriteAhead(s, shas, ids, who, backed, y);
  }

  /** The last state before the catalog is written. */
  lemma AllErased(s: Node, shas: seq<string>, ids: seq<string>, who: Who)
    requires s.cat.Some? && shas != [] && !Append(s.log, GcEntry(ids, who)).0.Held?
    ensures var a := Intend(s, GcEntry(ids, who)); SweepState(s, shas, ids, who, a.(objects := a.objects - set sha | sha in shas))
  {
    var a := Intend(s, GcEntry(ids, who));
    AfterErasures(a, shas);
    LastWrite(a, Erasures(shas));
  }

  lemma {:induction false} LastWrite(n: Node, ws: seq<ObjectWrite>)
    requires ws != []
    ensures AfterWrites(n, ws) in WriteStates(n, ws)
    decreases |ws|
  {
    if |ws| > 1 {
      LastWrite(Write(n, ws[0]), ws[1..]);
    } else {
      assert ws[1..] == [];
    }
  }

  lemma NewIntentGuards(s: Node, ids: seq<string>, who: Who, id: string)
    requires Append(s.log, GcEntry(ids, who)).0.Fresh? && Protected(Intend(s, GcEntry(ids, who)).log, id)
    ensures id in ids || Protected(s.log, id)
  {
    var v := Intend(s, GcEntry(ids, who)).log;
    var i :| 0 <= i < |v.recs| && Guards(v.recs[i], id);
    if i < |s.log.recs| {
      assert Guards(s.log.recs[i], id);
    }
  }

  /** The exact guard of a sweep. */
  lemma SweepSafeIff(s: Node, shas: seq<string>, ids: seq<string>, who: Who, backed: set<string>)
    requires s.cat.Some? && WriteAhead(s, backed) && Append(s.log, GcEntry(ids, who)).0.Fresh?
    ensures (forall y :: SweepState(s, shas, ids, who, y) ==> WriteAhead(y, backed)) <==> SweepGuarded(s, shas, ids, backed)
  {
    if SweepGuarded(s, shas, ids, backed) {
      forall y | SweepState(s, shas, ids, who, y)
        ensures WriteAhead(y, backed)
      {
        SweepStateKeeps(s, shas, ids, who, backed, y);
      }
    } else {
      var p :| p in s.cat.value && s.cat.value[p].sha in shas && s.cat.value[p].id in backed && s.cat.value[p].id !in ids && !Protected(s.log, s.cat.value[p].id);
      AllErased(s, shas, ids, who);
      var a := Intend(s, GcEntry(ids, who));
      var y := a.(objects := a.objects - set sha | sha in shas);
      if Protected(y.log, s.cat.value[p].id) {
        NewIntentGuards(s, ids, who, s.cat.value[p].id);
      }
      assert !WriteAhead(y, backed);
    }
  }

  // ---- one retry -------------------------------------------------------------------------

  /** The log has an unfinished sweep of these ids. */
  ghost predicate SweepPending(v: LogView, opID: string, ids: seq<string>) {
    && DistinctOps(v)
    && exists i :: 0 <= i < |v.recs| && v.recs[i].entry.opID == opID && v.recs[i].state != Done && v.recs[i].entry.opType == OpType.Gc && v.recs[i].entry.blobRefs == ids
  }

  /** f is to go, g is not, and they have the same bytes. */
  predicate SharesDoomed(f: File, g: File, ids: seq<string>) {
    f.id in ids && g.id !in ids && g.sha == f.sha
  }

  /** A retry deletes the bytes of the rows it finds by id and does not count who else has them. */
  ghost predicate RetryGuarded(x: Node, ids: seq<string>, backed: set<string>)
    requires x.cat.Some?
  {
    forall p, q :: p in x.cat.value && q in x.cat.value && SharesDoomed(x.cat.value[p], x.cat.value[q], ids) && x.cat.value[q].id in backed ==> Protected(x.log, x.cat.value[q].id)
  }

  lemma SweepProtects(v: LogView, opID: string, ids: seq<string>, id: string)
    requires SweepPending(v, opID, ids)
    ensures id in ids ==> Protected(v, id)
    ensures id !in ids && Protected(v, id) ==> Protected(MarkOp(v, opID, true), id)
  {
    var i :| 0 <= i < |v.recs| && v.recs[i].entry.opID == opID && v.recs[i].state != Done && v.recs[i].entry.opType == OpType.Gc && v.recs[i].entry.blobRefs == ids;
    if id in ids {
      assert Guards(v.recs[i], id);
    } else if Protected(v, id) {
      var j :| 0 <= j < |v.recs| && Guards(v.recs[j], id);
      assert j != i;
      assert v.recs[j].entry.opID != opID by {
        assert i < j || j < i;
      }
      FinishKeepsOthers(v, opID, id, j);
    }
  }

  /** What a row has when only some of the doomed ids have been dealt with. */
  lemma ErasedCovers(x: Node, ids: seq<string>, opID: string, backed: set<string>, some: seq<string>)
    requires x.cat.Some? && WriteAhead(x, backed) && SweepPending(x.log, opID, ids) && RetryGuarded(x, ids, backed) && forall id :: id in some ==> id in ids
    ensures WriteAhead(Erased(x, some), backed) && WriteAhead(Finish(Erased(x, some), opID, false), backed)
  {
    var rows, y := x.cat.value, Erased(x, some);
    forall q | q in rows && rows[q].id in backed && rows[q].sha !in y.objects
      ensures Protected(x.log, rows[q].id) && Protected(MarkOp(x.log, opID, false), rows[q].id)
    {
      SweepProtects(x.log, opID, ids, rows[q].id);
      if rows[q].sha in x.objects {
        var p :| p in rows && rows[p].id in some && rows[p].sha == rows[q].sha;
        assert rows[q].id !in ids ==> SharesDoomed(rows[p], rows[q], ids);
      }
      FailKeepsProtection(x.log, opID, rows[q].id);
    }
  }

  lemma WrittenCovers(x: Node, ids: seq<string>, opID: string, backed: set<string>)
    requires x.cat.Some? && WriteAhead(x, backed) && SweepPending(x.log, opID, ids) && RetryGuarded(x, ids, backed)
    ensures WriteAhead(Persist(Erased(x, ids), WithoutIDs(x.cat.value, ids)), backed) && WriteAhead(RetryResult(x, ids, opID), backed)
  {
    var rows := x.cat.value;
    forall q | q in rows && rows[q].id !in ids && rows[q].id in backed && rows[q].sha !in Erased(x, ids).objects
      ensures Protected(x.log, rows[q].id) && Protected(MarkOp(x.log, opID, true), rows[q].id)
    {
      if rows[q].sha in x.objects {
        var p :| p in rows && rows[p].id in ids && rows[p].sha == rows[q].sha;
        assert SharesDoomed(rows[p], rows[q], ids);
      }
      SweepProtects(x.log, opID, ids, rows[q].id);
    }
  }

  lemma RetryStateKeeps(x: Node, ids: seq<string>, opID: string, backed: set<string>, y: Node)
    requires x.cat.Some? && WriteAhead(x, backed) && SweepPending(x.log, opID, ids) && RetryGuarded(x, ids, backed) && RetryState(x, ids, opID, y)
    ensures WriteAhead(y, backed)
  {
    WrittenCovers(x, ids, opID, backed);
    if j :| 0 <= j <= |ids| && (y == Erased(x, ids[..j]) || y == Finish(Erased(x, ids[..j]), opID, false)) {
      ErasedCovers(x, ids, opID, backed, ids[..j]);
    }
  }

  /** The exact guard of a retry: no other object-backed row has come to share the bytes of a doomed one. */
  lemma RetrySafeIff(x: Node, ids: seq<string>, opID: string, backed: set<string>)
    requires x.cat.Some? && WriteAhead(x, backed) && SweepPending(x.log, opID, ids)
    ensures (forall y :: RetryState(x, ids, opID, y) ==> WriteAhead(y, backed)) <==> RetryGuarded(x, ids, backed)
  {
    if RetryGuarded(x, ids, backed) {
      forall y | RetryState(x, ids, opID, y)
        ensures WriteAhead(y, backed)
      {
        RetryStateKeeps(x, ids, opID, backed, y);
      }
    } else {
      var rows := x.cat.value;
      var p, q :| p in rows && q in rows && SharesDoomed(rows[p], rows[q], ids) && rows[q].id in backed && !Protected(x.log, rows[q].id);
      assert ids[..|ids|] == ids;
      var y := Erased(x, ids);
      assert RetryState(x, ids, opID, y) && rows[q].sha !in y.objects && !WriteAhead(y, backed);
    }
  }

  /** The failing run: the bytes of a row whose sweep crashed are put again under a new path, and then the
      sweep is retried. The new row stays, its bytes do not. */
  lemma PutBeforeRetry(h: string -> string, node: string, x: Node, ids: seq<string>, opID: string, p: string, path: string, size: int, who: Who)
    requires x.cat.Some? && p in x.cat.value && x.cat.value[p].id in ids && path !in x.cat.value
    requires var e := IngestEntry(h, node, path, x.cat.value[p].sha, size, who); !Append(x.log, e).0.Held? && NewRow(h, node, path, x.cat.value[p].sha, size, who).id !in ids
    ensures var sha := x.cat.value[p].sha;
            var y := Perform(h, node, x, Event(PutFile(path, sha, size), who, EVERY_WRITE));
            && y.cat.Some? && sha in y.objects && path in y.cat.value && y.cat.value[path].sha == sha
            && var z := RetryResult(y, ids, opID); path in z.cat.value && z.cat.value[path].sha == sha && sha !in z.objects
  {
    var sha := x.cat.value[p].sha;
    PutCompletes(h, node, x, path, sha, size, who);
    var y := Perform(h, node, x, Event(PutFile(path, sha, size), who, EVERY_WRITE));
    assert p in y.cat.value && y.cat.value[p] == x.cat.value[p];
  }

  // ---- runs ------------------------------------------------------------------------------

  /** A vault command, a sweep that got as far as y, or a retry that did. */
  datatype Turn =
    | Vault(ev: Event)
    | Sweeping(shas: seq<string>, ids: seq<string>, who: Who, y: Node)
    | Retrying(ids: seq<string>, opID: string, y: Node)

  ghost predicate MayTurn(h: string -> string, node: string, s: Node, t: Turn, backed: set<string>) {
    s.cat.Some? &&
    match t
    case Vault(ev) => Careful(h, node, s, ev, backed)
    case Sweeping(shas, ids, who, y) => Append(s.log, GcEntry(ids, who)).0.Fresh? && SweepState(s, shas, ids, who, y) && SweepGuarded(s, shas, ids, backed)
    case Retrying(ids, opID, y) => SweepPending(s.log, opID, ids) && RetryState(s, ids, opID, y) && RetryGuarded(s, ids, backed)
  }

  function AfterTurn(h: string -> string, node: string, s: Node, t: Turn): Node {
    match t
    case Vault(ev) => Perform(h, node, s, ev)
    case Sweeping(_, _, _, y) => y
    case Retrying(_, _, y) => y
  }

  ghost predicate MayRun(h: string -> string, node: string, s: Node, ts: seq<Turn>, backed: set<string>)
    decreases |ts|
  {
    ts != [] ==> MayTurn(h, node, s, ts[0], backed) && MayRun(h, node, AfterTurn(h, node, s, ts[0]), ts[1..], backed)
  }

  function RunAll(h: string -> string, node: string, s: Node, ts: seq<Turn>): Node
    decreases |ts|
  {
    if ts == [] then s else RunAll(h, node, AfterTurn(h, node, s, ts[0]), ts[1..])
  }

  lemma FewerRowsOk(h: string -> string, rows: RowMap, fewer: RowMap)
    requires RowsOk(h, rows) && forall p :: p in fewer ==> p in rows && fewer[p] == rows[p]
    ensures RowsOk(h, fewer)
  {
  }

  lemma TurnKeeps(h: string -> string, node: string, s: Node, t: Turn, backed: set<string>)
    requires Injective(h) && s.cat.Some? && RowsOk(h, s.cat.value) && WriteAhead(s, backed) && MayTurn(h, node, s, t, backed)
    ensures var y := AfterTurn(h, node, s, t); y.cat.Some? && RowsOk(h, y.cat.value) && WriteAhead(y, backed)
  {
    match t
    case Vault(ev) => EventKeeps(h, node, s, ev, backed);
    case Sweeping(shas, ids, who, y) =>
      SweepStateKeeps(s, shas, ids, who, backed, y);
      SweepRows(s, shas, ids, who, y);
      FewerRowsOk(h, s.cat.value, y.cat.value);
    case Retrying(ids, opID, y) =>
      RetryStateKeeps(s, ids, opID, backed, y);
      FewerRowsOk(h, s.cat.value, y.cat.value);
  }

  lemma SweepRows(s: Node, shas: seq<string>, ids: seq<string>, who: Who, y: Node)
    requires s.cat.Some? && !Append(s.log, GcEntry(ids, who)).0.Held? && SweepState(s, shas, ids, who, y)
    ensures y.cat.Some? && forall p :: p in y.cat.value ==> p in s.cat.value && y.cat.value[p] == s.cat.value[p]
  {
    if y in Script(s, GcPlan(s.cat.value, shas, ids, who)) {
      SweepStatesMidway(s, shas, ids, who, y);
      FinalSweep(s, shas, ids, who);
    } else {
      var k :| 0 <= k <= |shas| && y in FailedScript(s, shas, ids, who, k);
      FailedStatesMidway(s, shas, ids, who, k, y);
    }
  }

  /** Over any run of commands, sweeps and retries that meet their guards, each of which may crash after
      any write, ids stay distinct and self-certified and every object-backed row is covered. */
  lemma {:induction false} MixedRunKeeps(h: string -> string, node: string, s: Node, ts: seq<Turn>, backed: set<string>)
    requires Injective(h) && s.cat.Some? && RowsOk(h, s.cat.value) && WriteAhead(s, backed) && MayRun(h, node, s, ts, backed)
    ensures var y := RunAll(h, node, s, ts); y.cat.Some? && RowsOk(h, y.cat.value) && WriteAhead(y, backed)
    decreases |ts|
  {
    if ts != [] {
      TurnKeeps(h, node, s, ts[0], backed);
      MixedRunKeeps(h, node, AfterTurn(h, node, s, ts[0]), ts[1..], backed);
    }
  }
}
