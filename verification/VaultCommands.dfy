/** The command bodies themselves, write by write. Each one goes through exactly the states its plan
    describes, so what Commands.dfy proves of the plans holds at every crash point of the code. */
module VaultCommands {
  import opened Wrappers
  import opened Text
  import opened Wal
  import opened Catalogs
  import opened Identity
  import opened Vaults
  import opened Commands

  /** The command decided p (or to stop before journaling) and then followed it to the letter. */
  ghost predicate Obeyed(start: Nodes, n: string, trail0: seq<Nodes>, p: Option<Plan>, trail: seq<Nodes>, nodes: Nodes)
    requires n in start
  {
    match p
    case None => trail == trail0 && nodes == start
    case Some(plan) => Followed(start, n, trail0, Script(start[n], plan), trail, nodes)
  }

  /** The first write of every command: its intent. */
  method Journal(c: Cluster, n: string, p: Plan) returns (held: bool)
    requires n in c.nodes
    modifies c
    ensures held == Append(old(c.nodes)[n].log, p.intent).0.Held?
    ensures n in c.nodes && c.nodes[n] == Intend(old(c.nodes)[n], p.intent)
    ensures Followed(old(c.nodes), n, old(c.trail), [Intend(old(c.nodes)[n], p.intent)], c.trail, c.nodes)
  {
    FollowOn(c.nodes, n, c.trail, [], c.trail, c.nodes, Intend(c.nodes[n], p.intent));
    assert [] + [Intend(c.nodes[n], p.intent)] == [Intend(c.nodes[n], p.intent)];
    var r := c.AppendIntent(n, p.intent);
    held := r.Held?;
  }

  /** The object write of a command that has one. */
  method WriteObject(c: Cluster, n: string, w: ObjectWrite, ghost start: Nodes, ghost trail0: seq<Nodes>, ghost a: Node)
    requires n in start && n in c.nodes && c.nodes[n] == a && Followed(start, n, trail0, [a], c.trail, c.nodes)
    modifies c
    ensures n in c.nodes && c.nodes[n] == AfterWrites(a, [w])
    ensures Followed(start, n, trail0, [a] + WriteStates(a, [w]), c.trail, c.nodes)
  {
    UnfoldOne(a, w);
    FollowOn(start, n, trail0, [a], c.trail, c.nodes, Write(a, w));
    match w {
      case Upload(key, hash) => c.Put(n, key, hash);
      case Erase(key) => c.Delete(n, key);
    }
  }

  /** The last two writes of every command: the catalog, then the done marker. */
  method Complete(c: Cluster, n: string, p: Plan, ghost start: Nodes, ghost trail0: seq<Nodes>)
    requires n in start && n in c.nodes
    requires var a := Intend(start[n], p.intent);
      && !Append(start[n].log, p.intent).0.Held?
      && c.nodes[n] == AfterWrites(a, p.writes) && Followed(start, n, trail0, [a] + WriteStates(a, p.writes), c.trail, c.nodes)
    modifies c
    ensures Followed(start, n, trail0, Script(start[n], p), c.trail, c.nodes)
  {
    ghost var a := Intend(start[n], p.intent);
    ghost var b := Persist(AfterWrites(a, p.writes), p.rows);
    ghost var states := [a] + WriteStates(a, p.writes);
    FollowOn(start, n, trail0, states, c.trail, c.nodes, b);
    c.PersistCatalog(n, p.rows);
    FollowOn(start, n, trail0, states + [b], c.trail, c.nodes, Finish(b, p.intent.opID, true));
    c.Mark(n, p.intent.opID, true);
    assert states + [b] + [Finish(b, p.intent.opID, true)] == states + [b, Finish(b, p.intent.opID, true)];
  }

  /** A put whose destination is settled. */
  method PutAt(c: Cluster, n: string, h: string -> string, node: string, path: string, sha: string, size: int, who: Who) returns (ok: bool)
    requires n in c.nodes
    modifies c
    ensures n in c.nodes && (ok <==> old(c.nodes)[n].cat.Some? && path !in old(c.nodes)[n].cat.value && !Append(old(c.nodes)[n].log, IngestEntry(h, node, path, sha, size, who)).0.Held?)
    ensures Obeyed(old(c.nodes), n, old(c.trail), PlanOf(h, node, old(c.nodes)[n], PutFile(path, sha, size), who), c.trail, c.nodes)
  {
    ghost var start, trail0 := c.nodes, c.trail;
    var cat := c.ReadCatalog(n);
    if cat.None? || path in cat.value {
      return false;
    }
    var p := Plan(IngestEntry(h, node, path, sha, size, who), [Upload(sha, sha)], cat.value[path := NewRow(h, node, path, sha, size, who)]);
    var held := Journal(c, n, p);
    if held {
      return false;
    }
    WriteObject(c, n, Upload(sha, sha), start, trail0, Intend(start[n], p.intent));
    Complete(c, n, p, start, trail0);
    ok := true;
  }

  method Rename(c: Cluster, n: string, h: string -> string, node: string, path: string, to: string, who: Who) returns (ok: bool)
    requires n in c.nodes
    modifies c
    ensures Obeyed(old(c.nodes), n, old(c.trail), PlanOf(h, node, old(c.nodes)[n], Command.Rename(path, to), who), c.trail, c.nodes)
  {
    ghost var start, trail0 := c.nodes, c.trail;
    var cat := c.ReadCatalog(n);
    if cat.None? || path !in cat.value || to in cat.value {
      return false;
    }
    var f := cat.value[path];
    var p := Plan(RenameEntry(node, f, to, who), [], (cat.value - {path})[to := f.(path := to, updatedAt := who.now)]);
    var held := Journal(c, n, p);
    if held {
      return false;
    }
    assert [Intend(start[n], p.intent)] + WriteStates(Intend(start[n], p.intent), []) == [Intend(start[n], p.intent)];
    Complete(c, n, p, start, trail0);
    ok := true;
  }

  ghost function Within(rows: RowMap, sha: string, seen: set<string>): set<string>
    requires seen <= rows.Keys
  {
    set p | p in seen && rows[p].sha == sha
  }

  lemma CountOne(rows: RowMap, sha: string, seen: set<string>, p: string)
    requires seen <= rows.Keys && p in rows && p !in seen
    ensures |Within(rows, sha, seen + {p})| == |Within(rows, sha, seen)| + if rows[p].sha == sha then 1 else 0
  {
    var before := Within(rows, sha, seen);
    assert Within(rows, sha, seen + {p}) == if rows[p].sha == sha then before + {p} else before;
  }

  method CountReferents(rows: RowMap, sha: string) returns (count: nat)
    ensures count == |Referents(rows, sha)|
  {
    count := 0;
    var todo := rows.Keys;
    ghost var seen: set<string> := {};
    while todo != {}
      invariant todo <= rows.Keys && seen == rows.Keys - todo
      invariant count == |Within(rows, sha, seen)|
      decreases todo
    {
      var p :| p in todo;
      CountOne(rows, sha, seen, p);
      if rows[p].sha == sha {
        count := count + 1;
      }
      todo, seen := todo - {p}, seen + {p};
    }
    assert Referents(rows, sha) == Within(rows, sha, seen);
  }

  method VaultRm(c: Cluster, n: string, h: string -> string, node: string, path: string, who: Who) returns (ok: bool)
    requires n in c.nodes
    modifies c
    ensures Obeyed(old(c.nodes), n, old(c.trail), PlanOf(h, node, old(c.nodes)[n], Rm(path), who), c.trail, c.nodes)
  {
    ghost var start, trail0 := c.nodes, c.trail;
    var cat := c.ReadCatalog(n);
    if cat.None? || path !in cat.value {
      return false;
    }
    var f := cat.value[path];
    ghost var p := RmPlan(cat.value, path, who).value;
    ghost var a := Intend(start[n], p.intent);
    var held := Journal(c, n, Plan(RmEntry(f, who), [], cat.value - {path}));
    if held {
      return false;
    }
    var count := CountReferents(cat.value, f.sha);
    if count <= 1 {
      WriteObject(c, n, Erase(f.sha), start, trail0, a);
      Complete(c, n, Plan(RmEntry(f, who), [Erase(f.sha)], cat.value - {path}), start, trail0);
    } else {
      assert [a] + WriteStates(a, []) == [a];
      Complete(c, n, Plan(RmEntry(f, who), [], cat.value - {path}), start, trail0);
    }
    ok := true;
  }

  method VaultSyncMode(c: Cluster, n: string, h: string -> string, node: string, path: string, mode: string, who: Who) returns (ok: bool)
    requires n in c.nodes
    modifies c
    ensures Obeyed(old(c.nodes), n, old(c.trail), PlanOf(h, node, old(c.nodes)[n], SetMode(path, mode), who), c.trail, c.nodes)
  {
    ghost var start, trail0, s := c.nodes, c.trail, c.nodes[n];
    var cat := c.ReadCatalog(n);
    if (mode != GIT && mode != MANUAL) || cat.None? || path !in cat.value || cat.value[path].syncMode == mode {
      return false;
    }
    var f := cat.value[path];
    var newSha, scanned := f.sha, f.lastScanned;
    if mode == GIT {
      var hash := c.HashObject(n, f.sha);
      if hash.None? {
        return false;
      }
      newSha, scanned := hash.value, who.now;
    }
    var rows := cat.value[path := f.(syncMode := mode, sha := newSha, lastScanned := scanned, updatedAt := who.now)];
    var writes := if newSha != f.sha then [Upload(newSha, newSha)] else [];
    var p := Plan(SetModeEntry(f, mode, newSha, scanned, who), writes, rows);
    assert SetModePlan(cat.value, s.objects, path, mode, who) == Some(p);
    var held := Journal(c, n, p);
    if held {
      return false;
    }
    if newSha != f.sha {
      WriteObject(c, n, Upload(newSha, newSha), start, trail0, Intend(s, p.intent));
    } else {
      assert [Intend(s, p.intent)] + WriteStates(Intend(s, p.intent), []) == [Intend(s, p.intent)];
    }
    Complete(c, n, p, start, trail0);
    ok := true;
  }

  /** Does any row carry this id? */
  method LookForID(rows: RowMap, id: string) returns (found: bool)
    ensures found == HoldsID(rows, id)
  {
    var todo := rows.Keys;
    while todo != {}
      invariant todo <= rows.Keys
      invariant forall p :: p in rows && p !in todo ==> rows[p].id != id
      decreases todo
    {
      var p :| p in todo;
      if rows[p].id == id {
        return true;
      }
      todo := todo - {p};
    }
    return false;
  }

  method RestoreIdentity(c: Cluster, n: string, h: string -> string, node: string, path: string, id: string, g: Genesis, who: Who) returns (ok: bool)
    requires n in c.nodes
    modifies c
    ensures Obeyed(old(c.nodes), n, old(c.trail), PlanOf(h, node, old(c.nodes)[n], RestoreID(path, id, g), who), c.trail, c.nodes)
  {
    ghost var start, trail0 := c.nodes, c.trail;
    var cat := c.ReadCatalog(n);
    if cat.None? || !Validate(g) || MintID(h, g) != id || path !in cat.value || cat.value[path].id == id {
      return false;
    }
    var taken := LookForID(cat.value, id);
    if taken {
      return false;
    }
    var f := cat.value[path];
    var p := Plan(RestoreEntry(f, id, g, who), [], cat.value[path := f.(id := id, genesis := g, updatedAt := who.now)]);
    var held := Journal(c, n, p);
    if held {
      return false;
    }
    assert [Intend(start[n], p.intent)] + WriteStates(Intend(start[n], p.intent), []) == [Intend(start[n], p.intent)];
    Complete(c, n, p, start, trail0);
    ok := true;
  }

  // ---- a free name -----------------------------------------------------------------------

  /** Where the extension of the last path element starts: its last dot, or the end. */
  function ExtAt(rel: string, i: nat): (k: nat)
    requires i <= |rel|
    ensures k <= |rel|
  {
    if i == 0 || rel[i - 1] == '/' then |rel| else if rel[i - 1] == '.' then i - 1 else ExtAt(rel, i - 1)
  }

  function Numbered(rel: string, n: nat): string {
    var k := ExtAt(rel, |rel|);
    rel[..k] + " (" + Decimal(n) + ")" + rel[k..]
  }

  /** What comes before the number and what comes after: a stem, and an extension that is empty only if the
      last path element has no dot. */
  predicate Splits(rel: string, stem: string, ext: string) {
    && rel == stem + ext && '/' !in ext
    && (ext != "" ==> ext[0] == '.' && '.' !in ext[1..])
    && (ext == "" ==> forall j :: 0 <= j < |rel| && rel[j] == '.' ==> '/' in rel[j..])
  }

  lemma {:induction false} ExtSplits(rel: string, i: nat)
    requires i <= |rel| && '/' !in rel[i..] && '.' !in rel[i..]
    ensures var k := ExtAt(rel, i); Splits(rel, rel[..k], rel[k..])
  {
    assert forall j :: i <= j < |rel| ==> rel[i..][j - i] == rel[j];
    if i > 0 && rel[i - 1] == '/' {
      assert forall j :: 0 <= j < i ==> rel[j..][i - 1 - j] == '/';
    } else if i > 0 {
      assert rel[i - 1..] == [rel[i - 1]] + rel[i..];
      if rel[i - 1] != '.' {
        ExtSplits(rel, i - 1);
      }
    }
  }

  /** The number goes before the extension of the last path element. */
  lemma NumberedSplits(rel: string, n: nat)
    ensures exists stem, ext :: Splits(rel, stem, ext) && Numbered(rel, n) == stem + " (" + Decimal(n) + ")" + ext
  {
    ExtSplits(rel, |rel|);
  }

  /** Different numbers give different names. */
  lemma NumberedInjective(rel: string, m: nat, n: nat)
    requires Numbered(rel, m) == Numbered(rel, n)
    ensures m == n
  {
    var k := ExtAt(rel, |rel|);
    var a, b := Numbered(rel, m), Numbered(rel, n);
    assert |Decimal(m)| == |Decimal(n)|;
    assert a[k + 2..k + 2 + |Decimal(m)|] == Decimal(m);
    assert b[k + 2..k + 2 + |Decimal(n)|] == Decimal(n);
    DecimalRoundTrip(m);
    DecimalRoundTrip(n);
  }

  function Names(rel: string, n: nat): set<string> {
    set k: nat | 2 <= k < n :: Numbered(rel, k)
  }

  lemma {:induction false} NamesAreMany(rel: string, n: nat)
    requires 2 <= n
    ensures |Names(rel, n)| == n - 2
    decreases n
  {
    if n == 2 {
      assert Names(rel, n) == {};
    } else {
      NamesAreMany(rel, n - 1);
      assert Names(rel, n) == Names(rel, n - 1) + {Numbered(rel, n - 1)};
      forall k: nat | 2 <= k < n - 1
        ensures Numbered(rel, k) != Numbered(rel, n - 1)
      {
        if Numbered(rel, k) == Numbered(rel, n - 1) {
          NumberedInjective(rel, k, n - 1);
        }
      }
    }
  }

  /** A catalog cannot hold more numbered names than it has rows. */
  lemma TakenNamesAreRows(rows: RowMap, rel: string, n: nat)
    requires 2 <= n && forall k: nat :: 2 <= k < n ==> Numbered(rel, k) in rows
    ensures n - 2 <= |rows|
  {
    NamesAreMany(rel, n);
    SubsetSize(Names(rel, n), rows.Keys);
  }

  /** The first free numbered name, found within one more try than the catalog has rows. */
  method FreeDedupPath(rows: RowMap, rel: string) returns (cand: string, ghost n: nat)
    ensures cand !in rows && cand == Numbered(rel, n) && 2 <= n <= |rows| + 2
    ensures forall k: nat :: 2 <= k < n ==> Numbered(rel, k) in rows
  {
    var i := 2;
    while true
      invariant 2 <= i <= |rows| + 2
      invariant forall k: nat :: 2 <= k < i ==> Numbered(rel, k) in rows
      decreases |rows| + 3 - i
    {
      cand := Numbered(rel, i);
      if cand !in rows {
        return cand, i;
      }
      TakenNamesAreRows(rows, rel, i + 1);
      i := i + 1;
    }
  }

  // ---- the put command -------------------------------------------------------------------

  /** What the caller wants done when the destination is taken. */
  datatype OnConflict = Unsaid | Stop | KeepBoth | Elsewhere(to: string)

  datatype Target = Refused | Stopped | At(path: string)

  /** Where a put may go: never to a name that is taken. */
  ghost predicate Settled(rows: RowMap, path: string, mode: OnConflict, t: Target) {
    if path !in rows then t == At(path)
    else match mode
      case Unsaid => t == Refused
      case Stop => t == Stopped
      case KeepBoth => t.At? && FirstFree(rows, path, t.path)
      case Elsewhere(to) => t == if to == "" || to in rows then Refused else At(to)
  }

  ghost predicate FirstFree(rows: RowMap, path: string, cand: string) {
    cand !in rows && exists n: nat :: 2 <= n && cand == Numbered(path, n) && forall k: nat :: 2 <= k < n ==> Numbered(path, k) in rows
  }

  method ResolvePutConflict(rows: RowMap, path: string, mode: OnConflict) returns (t: Target)
    ensures Settled(rows, path, mode, t)
    ensures t.At? ==> t.path !in rows
  {
    if path !in rows {
      return At(path);
    }
    match mode {
      case Unsaid => t := Refused;
      case Stop => t := Stopped;
      case KeepBoth =>
        var cand, n := FreeDedupPath(rows, path);
        t := At(cand);
      case Elsewhere(to) => t := if to == "" || to in rows then Refused else At(to);
    }
  }

  /** How a put ends. Only a verified one may cost the caller the local file. */
  datatype PutEnd = NotPut | Stood | InFlight | Unverified | Verified(removed: bool)

  /** No row of the old catalog is lost or changed, whatever the end, and the end is known from the
      start: the bytes are verified exactly when the node had none under that name or had them intact. */
  method VaultPut(c: Cluster, n: string, h: string -> string, node: string, path: string, sha: string, size: int,
                  ids: string -> string, actor: string, now: int, mode: OnConflict, rmSource: bool, removable: bool)
    returns (end: PutEnd, t: Target)
    requires n in c.nodes
    modifies c
    ensures old(c.nodes)[n].cat.None? ==> end.NotPut? && t.Refused?
    ensures old(c.nodes)[n].cat.Some? ==> Settled(old(c.nodes)[n].cat.value, path, mode, t)
    ensures !t.At? ==> c.nodes == old(c.nodes) && c.trail == old(c.trail) && end == if t.Stopped? then Stood else NotPut
    ensures t.At? ==> Obeyed(old(c.nodes), n, old(c.trail), PlanOf(h, node, old(c.nodes)[n], PutFile(t.path, sha, size), Who(ids(t.path), actor, now)), c.trail, c.nodes)
    ensures t.At? ==> (end.InFlight? <==> Append(old(c.nodes)[n].log, IngestEntry(h, node, t.path, sha, size, Who(ids(t.path), actor, now))).0.Held?)
    ensures t.At? && !end.InFlight? ==> end == if sha in old(c.nodes)[n].objects && old(c.nodes)[n].objects[sha] != sha then Unverified else Verified(rmSource && removable)
    ensures t.At? && !end.InFlight? ==> n in c.nodes && c.nodes[n].cat == Some(old(c.nodes)[n].cat.value[t.path := NewRow(h, node, t.path, sha, size, Who(ids(t.path), actor, now))])
  {
    ghost var start := c.nodes[n];
    var cat := c.ReadCatalog(n);
    if cat.None? {
      return NotPut, Refused;
    }
    t := ResolvePutConflict(cat.value, path, mode);
    if !t.At? {
      return if t.Stopped? then Stood else NotPut, t;
    }
    var who := Who(ids(t.path), actor, now);
    var ok := PutAt(c, n, h, node, t.path, sha, size, who);
    if !ok {
      return InFlight, t;
    }
    PutLeaves(start, PutPlan(h, node, cat.value, t.path, sha, size, who).value, sha);
    var got := c.HashObject(n, sha);
    if got != Some(sha) {
      return Unverified, t;
    }
    end := Verified(rmSource && removable);
  }

  /** The state a put that was not held up ends in. */
  lemma PutLeaves(s: Node, p: Plan, sha: string)
    requires p.writes == [Upload(sha, sha)] && !Append(s.log, p.intent).0.Held?
    ensures var e := Final(s, p); e.cat == Some(p.rows) && sha in e.objects && e.objects[sha] == if sha in s.objects then s.objects[sha] else sha
  {
    var a := Intend(s, p.intent);
    UnfoldOne(a, Upload(sha, sha));
  }
}
