/** A scan that dies after journaling some of its changes, and the retry of what it journaled. */
module ScanRetries {
  import opened Wrappers
  import opened Wal
  import opened Catalogs
  import opened Identity
  import opened Vaults
  import opened Commands
  import opened Scan
  import opened ScanDiff
  import opened Projection
  import opened LiveReplay

  /** The change fits the catalog it was computed from. */
  predicate Applicable(node: string, live: RowMap, ch: Change, who: Who) {
    match ch
    case Added(path, sha, _) => BirthOk(node, path, sha, live, who)
    case Moved(f, path, _, _) => f.path in live && live[f.path] == f && path !in live && path != ""
    case Edited(f, sha, _) => f.path in live && live[f.path] == f && sha != ""
    case _ => ch.file.path in live && live[ch.file.path] == ch.file
  }

  lemma SimTimes(live: RowMap, other: RowMap, fs: seq<File>)
    requires Sim(live, fs, true) && live.Keys == other.Keys && forall p :: p in live ==> SameRow(other[p], live[p], true)
    ensures Sim(other, fs, true)
  {
  }

  lemma AddedRetries(h: string -> string, node: string, fs: seq<File>, path: string, sha: string, size: int, who: Who, now: int)
    requires path != "" && IsHex64(sha) && who.opID != "" && node != ""
    ensures var e := IngestEntry(h, node, path, sha, size, who); ApplyOp(h, fs, e, node, now) == Some(ProjectOp(h, fs, e, node))
  {
    IngestRow(h, node, path, sha, size, who);
  }

  lemma EditRetries(h: string -> string, node: string, live: RowMap, fs: seq<File>, path: string, e: Entry, now: int)
    requires Sim(live, fs, true) && WellKeyed(live) && path in live && e.opType == OpType.Scan && ArgOf(e, Arg.Path) == path
    ensures ApplyOp(h, fs, e, node, now) == Some(ProjectOp(h, fs, e.(createdAt := now), node))
  {
    var later := e.(createdAt := now);
    SimLookup(live, fs, true, path);
    assert forall k :: ArgOf(later, k) == ArgOf(e, k);
  }

  lemma MoveRetries(h: string -> string, node: string, fs: seq<File>, e: Entry, now: int)
    requires e.opType == OpType.Move && ArgOf(e, To) != "" && ArgOf(e, MovedTo) == "" && ArgOf(e, DestPath) == ""
    ensures ApplyOp(h, fs, e, node, now) == Some(ProjectOp(h, fs, e.(createdAt := now), node))
  {
    var later := e.(createdAt := now);
    assert forall k :: ArgOf(later, k) == ArgOf(e, k);
  }

  lemma DeleteRetries(h: string -> string, node: string, fs: seq<File>, e: Entry, now: int)
    requires e.opType == OpType.Delete
    ensures ApplyOp(h, fs, e, node, now) == Some(ProjectOp(h, fs, e.(createdAt := now), node))
  {
    assert ArgOf(e.(createdAt := now), Arg.Path) == ArgOf(e, Arg.Path);
  }

  /** Retried at another time, an entry does what replaying it would have done then. */
  lemma RetryIsReplay(h: string -> string, node: string, live: RowMap, fs: seq<File>, ch: Change, who: Who, now: int)
    requires WellKeyed(live) && Sim(live, fs, true) && Applicable(node, live, ch, who) && NeedsIntent(ch)
    ensures var e, later := ScanEntry(h, node, ch, who), ScanEntry(h, node, ch, if ch.Added? then who else who.(now := now));
            ApplyOp(h, fs, e, node, now) == Some(ProjectOp(h, fs, later, node))
  {
    var e := ScanEntry(h, node, ch, who);
    ScanArgs(h, node, ch, who);
    match ch
    case Added(path, sha, size) => AddedRetries(h, node, fs, path, sha, size, who, now);
    case Edited(f, _, _) => EditRetries(h, node, live, fs, f.path, e, now);
    case Moved(_, _, _, _) => MoveRetries(h, node, fs, e, now);
    case Deleted(_) => DeleteRetries(h, node, fs, e, now);
  }

  lemma MutateTimes(h: string -> string, node: string, live: RowMap, ch: Change, who: Who, now: int)
    requires NeedsIntent(ch) && !ch.Added?
    ensures var a, b := Mutate(h, node, ch, who.(now := now), live), Mutate(h, node, ch, who, live);
            a.Keys == b.Keys && forall p :: p in a ==> SameRow(b[p], a[p], true)
  {
  }

  lemma RetryMutates(h: string -> string, node: string, live: RowMap, fs: seq<File>, ch: Change, who: Who, now: int)
    requires RowsOk(h, live) && Sim(live, fs, true) && Applicable(node, live, ch, who) && NeedsIntent(ch)
    ensures var r := ApplyOp(h, fs, ScanEntry(h, node, ch, who), node, now); r.Some? && Sim(Mutate(h, node, ch, who, live), r.value, true)
  {
    var later := if ch.Added? then who else who.(now := now);
    var out := ProjectOp(h, fs, ScanEntry(h, node, ch, later), node);
    RetryIsReplay(h, node, live, fs, ch, who, now);
    ReconciledProjects(h, node, live, fs, ch, later, true);
    if !ch.Added? {
      MutateTimes(h, node, live, ch, who, now);
      SimTimes(Mutate(h, node, ch, later, live), Mutate(h, node, ch, who, live), out);
    }
  }

  /** The catalog once the first k changes have been retried, each at its own time. */
  function Retried(h: string -> string, node: string, fs: seq<File>, chs: seq<Change>, whos: seq<Who>, k: nat, clock: nat -> int): Option<seq<File>>
    requires |chs| == |whos| && k <= |chs|
  {
    if k == 0 then Some(fs)
    else
      var before := Retried(h, node, fs, chs, whos, k - 1, clock);
      if before.None? || !NeedsIntent(chs[k - 1]) then before
      else ApplyOp(h, before.value, ScanEntry(h, node, chs[k - 1], whos[k - 1]), node, clock(k - 1))
  }

  /** The first k changes were journaled, each fitting what the ones before it left. */
  ghost predicate JournaledWell(h: string -> string, node: string, s: Node, chs: seq<Change>, whos: seq<Who>, k: nat)
    requires s.cat.Some? && |chs| == |whos| && k <= |chs|
  {
    forall i :: 0 <= i < k ==> Journalable(h, node, Scanned(h, node, s, chs, whos, i), chs[i], whos[i]) && Applicable(node, Scanned(h, node, s, chs, whos, i).rows, chs[i], whos[i])
  }

  ghost predicate InStepAt(h: string -> string, node: string, s: Node, fs: seq<File>, chs: seq<Change>, whos: seq<Who>, k: nat, clock: nat -> int)
    requires s.cat.Some? && |chs| == |whos| && k <= |chs|
  {
    var live, r := Scanned(h, node, s, chs, whos, k).rows, Retried(h, node, fs, chs, whos, k, clock);
    RowsOk(h, live) && r.Some? && Sim(live, r.value, true)
  }

  /** One change, applied to the live rows and retried against the rebuilt ones. */
  lemma ChangeKeepsSim(h: string -> string, node: string, live: RowMap, fs: seq<File>, ch: Change, who: Who, now: int)
    requires GoodHash(h) && RowsOk(h, live) && Sim(live, fs, true) && Applicable(node, live, ch, who)
    ensures var r := if NeedsIntent(ch) then ApplyOp(h, fs, ScanEntry(h, node, ch, who), node, now) else Some(fs);
            RowsOk(h, Mutate(h, node, ch, who, live)) && r.Some? && Sim(Mutate(h, node, ch, who, live), r.value, true)
  {
    if NeedsIntent(ch) {
      RetryMutates(h, node, live, fs, ch, who, now);
      ScanRowsOk(h, node, live, ch, who);
    } else if ch.Verified? {
      SimTouch(live, fs, true, ch.file, ch.file.(lastScanned := who.now));
      RowsTouch(h, live, ch.file, ch.file.(lastScanned := who.now));
    }
  }

  lemma AppliedRows(h: string -> string, node: string, a: Applying, ch: Change, who: Who)
    requires Journalable(h, node, a, ch, who)
    ensures ApplyOne(h, node, a, ch, who).rows == Mutate(h, node, ch, who, a.rows)
  {
  }

  lemma OneMoreRetry(h: string -> string, node: string, s: Node, fs: seq<File>, chs: seq<Change>, whos: seq<Who>, k: nat, clock: nat -> int)
    requires GoodHash(h) && s.cat.Some? && |chs| == |whos| && k < |chs| && JournaledWell(h, node, s, chs, whos, k + 1)
    requires InStepAt(h, node, s, fs, chs, whos, k, clock)
    ensures InStepAt(h, node, s, fs, chs, whos, k + 1, clock)
  {
    var a := Scanned(h, node, s, chs, whos, k);
    ChangeKeepsSim(h, node, a.rows, Retried(h, node, fs, chs, whos, k, clock).value, chs[k], whos[k], clock(k));
    AppliedRows(h, node, a, chs[k], whos[k]);
  }

  /** A scan that died with k changes journaled and the old catalog on disk, and whose journaled ops are
      then all retried, in order and at whatever times, leaves the member that completing those k changes
      would have left: the same log, and the same rows but for times and sizes. */
  lemma CrashedScanRetried(h: string -> string, node: string, s: Node, fs: seq<File>, chs: seq<Change>, whos: seq<Who>, k: nat, clock: nat -> int)
    requires GoodHash(h) && s.cat == Some(Rows(fs)) && DistinctPaths(fs) && RowsOk(h, Rows(fs)) && |chs| == |whos| && k <= |chs|
    requires JournaledWell(h, node, s, chs, whos, k)
    ensures var a, r, t := Scanned(h, node, s, chs, whos, k), Retried(h, node, fs, chs, whos, k, clock), History(h, node, s, Reconciliations(chs, whos, k));
            r.Some? && t.cat.Some? && Sim(t.cat.value, r.value, true) && t.log == MarkAll(a.log, a.owed, |a.owed|)
  {
    for i := 0 to k
      invariant ScannedOneByOne(h, node, s, chs, whos, i) && InStepAt(h, node, s, fs, chs, whos, i, clock)
    {
      OneMoreChange(h, node, s, chs, whos, i);
      OneMoreRetry(h, node, s, fs, chs, whos, i, clock);
    }
  }

  // ---- scanning again instead ------------------------------------------------------------

  lemma TwoBirths(h: string -> string, node: string, path: string, sha: string, a: Who, b: Who)
    requires GoodHash(h)
    ensures MintID(h, Genesis(sha, path, a.opID, node)) == MintID(h, Genesis(sha, path, b.opID, node)) <==> a.opID == b.opID
  {
    if MintID(h, Genesis(sha, path, a.opID, node)) == MintID(h, Genesis(sha, path, b.opID, node)) {
      EqualIDsEqualGenesis(h, Genesis(sha, path, a.opID, node), Genesis(sha, path, b.opID, node));
    }
  }

  /** The log after a scan journaled an entry and died, a second one journaled another and finished, and
      the first entry was retried. */
  lemma BothDone(v: LogView, e: Entry, f: Entry)
    requires FreshOp(v, e) && !HasOp(v, f.opID) && f.opID != e.opID && Next(v) + 1 < MARKER_LIMIT
    requires var a := Append(v, e).1; !Blocked(a, f.blobRefs)
    ensures var a := Append(v, e).1; FreshOp(a, f) && MarkOp(MarkOp(Append(a, f).1, f.opID, true), e.opID, true).recs == v.recs + [Rec(Candidate(v, e), Done), Rec(Candidate(a, f), Done)]
  {
    AppendFresh(v, e);
    var a := AppendRec(v, e);
    assert forall i :: 0 <= i < |v.recs| ==> a.recs[i] == v.recs[i];
    assert a.recs[|v.recs|].entry.opID == e.opID && !HasOp(a, f.opID);
    CompletedOp(a, f);
    var b := MarkOp(Append(a, f).1, f.opID, true);
    assert b.recs == a.recs + [Rec(Candidate(a, f), Done)];
    assert b.recs[|v.recs|] == Rec(Candidate(v, e), Intent) && forall i :: 0 <= i < |v.recs| ==> b.recs[i] == v.recs[i];
    assert FindOp(b, e.opID) == Some(|v.recs|);
  }

  lemma ReplayedBoth(h: string -> string, node: string, v: LogView, e: Entry, f: Entry, a: LogView)
    ensures Project(h, v.recs + [Rec(Candidate(v, e), Done), Rec(Candidate(a, f), Done)], node) == ProjectOp(h, ProjectOp(h, Project(h, v.recs, node), e, node), f, node)
  {
    var recs := v.recs + [Rec(Candidate(v, e), Done)];
    assert v.recs + [Rec(Candidate(v, e), Done), Rec(Candidate(a, f), Done)] == recs + [Rec(Candidate(a, f), Done)];
    ProjectSnoc(h, recs, Rec(Candidate(a, f), Done), node);
    ProjectSnoc(h, v.recs, Rec(Candidate(v, e), Done), node);
    ReplayIgnoresPlace(h, Project(h, v.recs, node), v, e, node);
    ReplayIgnoresPlace(h, ProjectOp(h, Project(h, v.recs, node), e, node), a, f, node);
  }

  /** The failing run: a scan journals a new file and dies; a second scan journals it again, under an op id
      and a file id of its own, and finishes; then the first op is retried. The live row has the first id,
      a rebuilt one the second. */
  lemma RescanThenRetry(h: string -> string, node: string, v: LogView, fs: seq<File>, path: string, sha: string, size: int, first: Who, second: Who, now: int)
    requires GoodHash(h) && path != "" && IsHex64(sha) && first.opID != "" && second.opID != "" && node != "" && first.opID != second.opID
    requires FreshOp(v, IngestEntry(h, node, path, sha, size, first)) && FreshOp(v, IngestEntry(h, node, path, sha, size, second)) && Next(v) + 1 < MARKER_LIMIT
    ensures var e, f := IngestEntry(h, node, path, sha, size, first), IngestEntry(h, node, path, sha, size, second);
            var crashed := Append(v, e).1;
            var log := MarkOp(MarkOp(Append(crashed, f).1, f.opID, true), e.opID, true);
            var live := ApplyOp(h, UpsertAt(fs, NewRow(h, node, path, sha, size, second)), e, node, now);
            var rebuilt := Project(h, log.recs, node);
            && Append(crashed, f).0.Fresh?
            && live.Some? && Lookup(live.value, path).Some? && Lookup(rebuilt, path).Some?
            && Lookup(live.value, path).value.id == MintID(h, Genesis(sha, path, first.opID, node))
            && Lookup(rebuilt, path).value.id == MintID(h, Genesis(sha, path, second.opID, node))
            && Lookup(live.value, path).value.id != Lookup(rebuilt, path).value.id
  {
    var e, f := IngestEntry(h, node, path, sha, size, first), IngestEntry(h, node, path, sha, size, second);
    TwoBirths(h, node, path, sha, first, second);
    NotBlockedByOther(v, e, f);
    BothDone(v, e, f);
    ReplayedBoth(h, node, v, e, f, Append(v, e).1);
    IngestRow(h, node, path, sha, size, first);
    IngestRow(h, node, path, sha, size, second);
    var g1, g2 := RowFromEntry(h, e, node).value, RowFromEntry(h, f, node).value;
    UpsertLooksUp(UpsertAt(fs, NewRow(h, node, path, sha, size, second)), g1, path);
    UpsertLooksUp(UpsertAt(Project(h, v.recs, node), g1), g2, path);
  }

  lemma NotBlockedByOther(v: LogView, e: Entry, f: Entry)
    requires FreshOp(v, e) && !Blocked(v, f.blobRefs) && |e.blobRefs| == |f.blobRefs| == 1 && e.blobRefs[0] != f.blobRefs[0]
    ensures !Blocked(Append(v, e).1, f.blobRefs)
  {
    AppendFresh(v, e);
    var a := AppendRec(v, e);
    assert forall i :: 0 <= i < |v.recs| ==> a.recs[i] == v.recs[i];
    assert a.recs[|v.recs|].entry.blobRefs == e.blobRefs;
  }
}
