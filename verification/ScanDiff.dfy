/** The scan's own loops: computing the diff, pairing moves by hash, and applying the changes. */
module ScanDiff {
  import opened Wrappers
  import opened Wal
  import opened Catalogs
  import opened Identity
  import opened Commands
  import opened Vaults
  import opened Scan

  // ---- grouping by hash ------------------------------------------------------------------

  /** The positions that carry key h, in order. */
  function IndexesOf(keys: seq<Option<string>>, h: string): (r: seq<nat>)
    ensures forall i :: i in r ==> i < |keys| && keys[i] == Some(h)
    ensures forall i :: 0 <= i < |keys| && keys[i] == Some(h) ==> i in r
    ensures Some(h) !in keys ==> r == []
  {
    if keys == [] then []
    else
      var n := |keys| - 1;
      var r := IndexesOf(keys[..n], h);
      if keys[n] == Some(h) then r + [n] else r
  }

  predicate UniqueAt(keys: seq<Option<string>>, h: string, i: nat) {
    i < |keys| && keys[i] == Some(h) && forall j :: 0 <= j < |keys| && keys[j] == Some(h) ==> j == i
  }

  /** A single index is a unique occurrence. */
  lemma {:induction false} SingleIndex(keys: seq<Option<string>>, h: string, i: nat)
    ensures |IndexesOf(keys, h)| == 1 ==> UniqueAt(keys, h, IndexesOf(keys, h)[0])
    ensures UniqueAt(keys, h, i) ==> IndexesOf(keys, h) == [i]
  {
    var r := IndexesOf(keys, h);
    assert |r| == 1 ==> r[0] in r && r == [r[0]];
    if UniqueAt(keys, h, i) {
      var n := |keys| - 1;
      var q := IndexesOf(keys[..n], h);
      if i == n {
        assert Some(h) !in keys[..n];
      } else {
        SingleIndex(keys[..n], h, i);
      }
    }
  }

  method GroupByHash(keys: seq<Option<string>>) returns (m: map<string, seq<nat>>)
    ensures forall h :: h in m <==> Some(h) in keys
    ensures forall h :: h in m ==> m[h] == IndexesOf(keys, h)
  {
    m := map[];
    for i := 0 to |keys|
      invariant forall h :: h in m <==> Some(h) in keys[..i]
      invariant forall h :: h in m ==> m[h] == IndexesOf(keys[..i], h)
      invariant forall h :: h !in m ==> IndexesOf(keys[..i], h) == []
    {
      assert keys[..i + 1][..i] == keys[..i];
      assert keys[..i + 1] == keys[..i] + [keys[i]];
      if keys[i].Some? {
        var h := keys[i].value;
        m := m[h := (if h in m then m[h] else []) + [i]];
      }
    }
    assert keys[..|keys|] == keys;
  }

  // ---- pairing ---------------------------------------------------------------------------

  function AddKeys(cs: seq<Change>): seq<Option<string>> {
    seq(|cs|, i requires 0 <= i < |cs| => if cs[i].Added? then Some(cs[i].sha) else None)
  }

  function DelKeys(ds: seq<File>): seq<Option<string>> {
    seq(|ds|, i requires 0 <= i < |ds| => Some(ds[i].sha))
  }

  predicate OneToOne(cs: seq<Change>, ds: seq<File>, h: string) {
    |IndexesOf(DelKeys(ds), h)| == 1 && |IndexesOf(AddKeys(cs), h)| == 1
  }

  function MoveFor(cs: seq<Change>, ds: seq<File>, h: string): (mv: Change)
    requires OneToOne(cs, ds, h)
    ensures mv.Moved? && mv.sha == h && mv.file in ds && mv.file.sha == h && Added(mv.path, h, mv.size) in cs
  {
    var d, a := IndexesOf(DelKeys(ds), h)[0], IndexesOf(AddKeys(cs), h)[0];
    assert d in IndexesOf(DelKeys(ds), h) && a in IndexesOf(AddKeys(cs), h);
    assert cs[a] == Added(cs[a].path, h, cs[a].size);
    Moved(ds[d], cs[a].path, h, cs[a].size)
  }

  ghost predicate NoRepeats<T>(s: seq<T>) {
    forall i, j :: 0 <= i < j < |s| ==> s[i] != s[j]
  }

  /** What pairing turns a list of changes and a list of deletions into. */
  ghost predicate PairedInto(cs: seq<Change>, ds: seq<File>, ch: Change) {
    || (ch in cs && !(ch.Added? && OneToOne(cs, ds, ch.sha)))
    || (ch.Moved? && OneToOne(cs, ds, ch.sha) && ch == MoveFor(cs, ds, ch.sha))
    || (ch.Deleted? && ch.file in ds && !OneToOne(cs, ds, ch.file.sha))
  }

  /** What the hash loop has consumed once it has looked at the hashes in done. */
  ghost predicate MovesOf(cs: seq<Change>, ds: seq<File>, done: set<string>, moves: seq<Change>) {
    && NoRepeats(moves)
    && forall mv :: mv in moves <==> mv.Moved? && mv.sha in done && OneToOne(cs, ds, mv.sha) && mv == MoveFor(cs, ds, mv.sha)
  }

  ghost predicate AddsOf(cs: seq<Change>, ds: seq<File>, done: set<string>, adds: set<nat>) {
    forall i: nat :: i in adds <==> i < |cs| && cs[i].Added? && cs[i].sha in done && OneToOne(cs, ds, cs[i].sha)
  }

  ghost predicate DelsOf(cs: seq<Change>, ds: seq<File>, done: set<string>, dels: set<nat>) {
    forall i: nat :: i in dels <==> i < |ds| && ds[i].sha in done && OneToOne(cs, ds, ds[i].sha)
  }

  lemma ConsumeMove(cs: seq<Change>, ds: seq<File>, done: set<string>, h: string, moves: seq<Change>)
    requires MovesOf(cs, ds, done, moves) && h !in done
    ensures OneToOne(cs, ds, h) ==> MovesOf(cs, ds, done + {h}, moves + [MoveFor(cs, ds, h)])
    ensures !OneToOne(cs, ds, h) ==> MovesOf(cs, ds, done + {h}, moves)
  {
    if OneToOne(cs, ds, h) {
      assert MoveFor(cs, ds, h) !in moves;
    }
  }

  lemma ConsumeEnds(cs: seq<Change>, ds: seq<File>, done: set<string>, h: string, adds: set<nat>, dels: set<nat>)
    requires AddsOf(cs, ds, done, adds) && DelsOf(cs, ds, done, dels)
    ensures OneToOne(cs, ds, h) ==> AddsOf(cs, ds, done + {h}, adds + {IndexesOf(AddKeys(cs), h)[0]})
    ensures OneToOne(cs, ds, h) ==> DelsOf(cs, ds, done + {h}, dels + {IndexesOf(DelKeys(ds), h)[0]})
    ensures !OneToOne(cs, ds, h) ==> AddsOf(cs, ds, done + {h}, adds) && DelsOf(cs, ds, done + {h}, dels)
  {
    if OneToOne(cs, ds, h) {
      Consumed(cs, ds, h);
    }
  }

  lemma NothingConsumed(cs: seq<Change>, ds: seq<File>)
    ensures Consumption(cs, ds, {}, [], {}, {})
  {
  }

  lemma AllGrouped(cs: seq<Change>, ds: seq<File>, hashes: set<string>)
    requires forall h :: h in hashes <==> Some(h) in DelKeys(ds)
    ensures forall h :: OneToOne(cs, ds, h) ==> h in hashes
  {
    forall h | OneToOne(cs, ds, h)
      ensures h in hashes
    {
      assert IndexesOf(DelKeys(ds), h)[0] in IndexesOf(DelKeys(ds), h);
    }
  }

  ghost predicate Consumption(cs: seq<Change>, ds: seq<File>, done: set<string>, moves: seq<Change>, adds: set<nat>, dels: set<nat>) {
    MovesOf(cs, ds, done, moves) && AddsOf(cs, ds, done, adds) && DelsOf(cs, ds, done, dels)
  }

  /** One hash: its deletions and additions become a move if there is one of each. */
  method MatchHash(cs: seq<Change>, ds: seq<File>, ghost done: set<string>, h: string, dIdx: seq<nat>, aIdx: seq<nat>, moves: seq<Change>, adds: set<nat>, dels: set<nat>)
    returns (moves': seq<Change>, adds': set<nat>, dels': set<nat>)
    requires Consumption(cs, ds, done, moves, adds, dels) && h !in done
    requires dIdx == IndexesOf(DelKeys(ds), h) && aIdx == IndexesOf(AddKeys(cs), h)
    ensures Consumption(cs, ds, done + {h}, moves', adds', dels')
  {
    ConsumeMove(cs, ds, done, h, moves);
    ConsumeEnds(cs, ds, done, h, adds, dels);
    moves', adds', dels' := moves, adds, dels;
    if |dIdx| == 1 && |aIdx| == 1 {
      moves', adds', dels' := moves + [MoveFor(cs, ds, h)], adds + {aIdx[0]}, dels + {dIdx[0]};
    }
  }

  /** The hash loop: which adds and dels are consumed, and the moves they become. */
  method Match(cs: seq<Change>, ds: seq<File>) returns (moves: seq<Change>, adds: set<nat>, dels: set<nat>, ghost done: set<string>)
    ensures Consumption(cs, ds, done, moves, adds, dels)
    ensures forall h :: OneToOne(cs, ds, h) ==> h in done
  {
    var dk, ak := DelKeys(ds), AddKeys(cs);
    var delByHash := GroupByHash(dk);
    var addByHash := GroupByHash(ak);
    moves, adds, dels, done := [], {}, {}, {};
    NothingConsumed(cs, ds);
    AllGrouped(cs, ds, delByHash.Keys);
    var todo := delByHash.Keys;
    while todo != {}
      invariant forall h :: h in delByHash <==> h in done || h in todo
      invariant forall h :: h in todo ==> h !in done
      invariant Consumption(cs, ds, done, moves, adds, dels)
      decreases todo
    {
      var h :| h in todo;
      var aIdx := if h in addByHash then addByHash[h] else [];
      assert delByHash[h] == IndexesOf(dk, h) && aIdx == IndexesOf(ak, h);
      moves, adds, dels := MatchHash(cs, ds, done, h, delByHash[h], aIdx, moves, adds, dels);
      todo, done := todo - {h}, done + {h};
    }
  }

  lemma Consumed(cs: seq<Change>, ds: seq<File>, h: string)
    requires OneToOne(cs, ds, h)
    ensures var d, a := IndexesOf(DelKeys(ds), h)[0], IndexesOf(AddKeys(cs), h)[0];
      && d < |ds| && a < |cs|
      && (forall i :: 0 <= i < |ds| ==> (ds[i].sha == h <==> i == d))
      && (forall i :: 0 <= i < |cs| ==> (cs[i].Added? && cs[i].sha == h <==> i == a))
  {
    SingleIndex(DelKeys(ds), h, 0);
    SingleIndex(AddKeys(cs), h, 0);
    forall i | 0 <= i < |ds|
      ensures ds[i].sha == h <==> i == IndexesOf(DelKeys(ds), h)[0]
    {
      assert DelKeys(ds)[i] == Some(ds[i].sha);
    }
    forall i | 0 <= i < |cs|
      ensures cs[i].Added? && cs[i].sha == h <==> i == IndexesOf(AddKeys(cs), h)[0]
    {
      assert AddKeys(cs)[i] == if cs[i].Added? then Some(cs[i].sha) else None;
    }
  }

  method KeepUnmatched(cs: seq<Change>, adds: set<nat>) returns (out: seq<Change>)
    requires NoRepeats(cs)
    ensures forall ch :: ch in out <==> exists i :: 0 <= i < |cs| && cs[i] == ch && i !in adds
    ensures NoRepeats(out)
  {
    out := [];
    for i := 0 to |cs|
      invariant forall ch :: ch in out <==> exists j :: 0 <= j < i && cs[j] == ch && j !in adds
      invariant NoRepeats(out)
    {
      if i !in adds {
        assert cs[i] !in out;
        out := out + [cs[i]];
      }
    }
  }

  method DeleteUnmatched(ds: seq<File>, dels: set<nat>) returns (out: seq<Change>)
    requires NoRepeats(ds)
    ensures forall ch :: ch in out <==> exists i :: 0 <= i < |ds| && Deleted(ds[i]) == ch && i !in dels
    ensures NoRepeats(out)
  {
    out := [];
    for i := 0 to |ds|
      invariant forall ch :: ch in out <==> exists j :: 0 <= j < i && Deleted(ds[j]) == ch && j !in dels
      invariant NoRepeats(out)
    {
      if i !in dels {
        assert Deleted(ds[i]) !in out;
        out := out + [Deleted(ds[i])];
      }
    }
  }

  method PairMoves(cs: seq<Change>, ds: seq<File>) returns (out: seq<Change>)
    requires NoRepeats(cs) && NoRepeats(ds) && forall ch :: ch in cs ==> !ch.Moved? && !ch.Deleted?
    ensures forall ch :: ch in out <==> PairedInto(cs, ds, ch)
    ensures NoRepeats(out)
  {
    var moves, adds, dels, done := Match(cs, ds);
    var kept := KeepUnmatched(cs, adds);
    var gone := DeleteUnmatched(ds, dels);
    out := kept + moves + gone;
    assert forall ch :: ch in kept ==> ch in cs;
    forall ch
      ensures ch in kept <==> ch in cs && !(ch.Added? && OneToOne(cs, ds, ch.sha))
    {
    }
    forall ch
      ensures ch in gone <==> ch.Deleted? && ch.file in ds && !OneToOne(cs, ds, ch.file.sha)
    {
    }
    AppendNoRepeats(kept, moves);
    AppendNoRepeats(kept + moves, gone);
  }

  lemma AppendNoRepeats<T>(a: seq<T>, b: seq<T>)
    requires NoRepeats(a) && NoRepeats(b) && forall x :: x in a ==> x !in b
    ensures NoRepeats(a + b)
  {
    forall i, j | 0 <= i < j < |a + b|
      ensures (a + b)[i] != (a + b)[j]
    {
      if i < |a| <= j {
        assert a[i] in a && b[j - |a|] in b;
      }
    }
  }

  // ---- the diff --------------------------------------------------------------------------

  /** What the two walks collect before pairing. */
  ghost predicate Collected(rows: RowMap, disk: Disk, paranoid: bool, cs: seq<Change>, ds: seq<File>) {
    && NoRepeats(cs) && NoRepeats(ds)
    && (forall ch :: ch in cs <==> !ch.Moved? && !ch.Deleted? && BeforePairing(rows, disk, paranoid, ch))
    && (forall f :: f in ds <==> Gone(rows, disk, f))
  }

  predicate BeforePairing(rows: RowMap, disk: Disk, paranoid: bool, ch: Change) {
    match ch
    case Added(path, sha, size) => New(rows, disk, path) && sha == disk[path].sha && size == disk[path].size
    case Moved(_, _, _, _) => false
    case Deleted(_) => false
    case _ => OnDisk(rows, disk, ch.file) && RowChange(ch.file, disk[ch.file.path], paranoid) == Some(ch)
  }

  lemma OneToOnePairs(rows: RowMap, disk: Disk, paranoid: bool, cs: seq<Change>, ds: seq<File>, h: string)
    requires Collected(rows, disk, paranoid, cs, ds) && WellKeyed(rows) && OneToOne(cs, ds, h)
    ensures var mv := MoveFor(cs, ds, h); Pairs(rows, disk, mv.file, mv.path) && mv.size == disk[mv.path].size
  {
    Consumed(cs, ds, h);
    var mv := MoveFor(cs, ds, h);
    assert Added(mv.path, h, mv.size) in cs;
    forall p | p in rows && Gone(rows, disk, rows[p]) && rows[p].sha == h
      ensures p == mv.file.path
    {
      assert rows[p] in ds;
    }
    forall q | q in disk && New(rows, disk, q) && disk[q].sha == h
      ensures q == mv.path
    {
      assert Added(q, h, disk[q].size) in cs;
    }
  }

  lemma PairsOneToOne(rows: RowMap, disk: Disk, paranoid: bool, cs: seq<Change>, ds: seq<File>, f: File, path: string)
    requires Collected(rows, disk, paranoid, cs, ds) && WellKeyed(rows) && Pairs(rows, disk, f, path)
    ensures OneToOne(cs, ds, f.sha) && MoveFor(cs, ds, f.sha) == Moved(f, path, f.sha, disk[path].size)
  {
    assert f in ds;
    var d :| 0 <= d < |ds| && ds[d] == f;
    forall j | 0 <= j < |ds| && DelKeys(ds)[j] == Some(f.sha)
      ensures j == d
    {
      assert ds[j] in ds;
    }
    assert UniqueAt(DelKeys(ds), f.sha, d);
    SingleIndex(DelKeys(ds), f.sha, d);
    var add := Added(path, f.sha, disk[path].size);
    assert add in cs;
    var a :| 0 <= a < |cs| && cs[a] == add;
    forall j | 0 <= j < |cs| && AddKeys(cs)[j] == Some(f.sha)
      ensures j == a
    {
      assert cs[j] in cs;
    }
    assert UniqueAt(AddKeys(cs), f.sha, a);
    SingleIndex(AddKeys(cs), f.sha, a);
  }

  lemma PairingIsDiff(rows: RowMap, disk: Disk, paranoid: bool, cs: seq<Change>, ds: seq<File>, ch: Change)
    requires Collected(rows, disk, paranoid, cs, ds) && WellKeyed(rows)
    ensures PairedInto(cs, ds, ch) <==> IsChange(rows, disk, paranoid, ch)
  {
    match ch
    case Added(path, sha, size) =>
      if ch in cs {
        if OneToOne(cs, ds, sha) {
          OneToOnePairs(rows, disk, paranoid, cs, ds, sha);
        }
        forall p | p in rows && Pairs(rows, disk, rows[p], path)
          ensures OneToOne(cs, ds, sha)
        {
          PairsOneToOne(rows, disk, paranoid, cs, ds, rows[p], path);
        }
      }
    case Moved(f, path, sha, size) =>
      if OneToOne(cs, ds, sha) {
        OneToOnePairs(rows, disk, paranoid, cs, ds, sha);
      }
      if Pairs(rows, disk, f, path) {
        PairsOneToOne(rows, disk, paranoid, cs, ds, f, path);
      }
    case Deleted(f) =>
      if Gone(rows, disk, f) {
        if OneToOne(cs, ds, f.sha) {
          OneToOnePairs(rows, disk, paranoid, cs, ds, f.sha);
        }
        forall q | q in disk && Pairs(rows, disk, f, q)
          ensures OneToOne(cs, ds, f.sha)
        {
          PairsOneToOne(rows, disk, paranoid, cs, ds, f, q);
        }
      }
    case _ =>
  }

  predicate FromRow(ch: Change, disk: Disk, paranoid: bool) {
    && (ch.Verified? || ch.Edited? || ch.Suspect?)
    && ch.file.syncMode != GIT && ch.file.path in disk && RowChange(ch.file, disk[ch.file.path], paranoid) == Some(ch)
  }

  /** The walk over the catalog: hash lazily, or always when paranoid. */
  method WalkCatalog(files: seq<File>, disk: Disk, paranoid: bool) returns (cs: seq<Change>, ds: seq<File>)
    requires DistinctPaths(files)
    ensures NoRepeats(cs) && NoRepeats(ds)
    ensures forall ch :: ch in cs <==> FromRow(ch, disk, paranoid) && ch.file in files
    ensures forall f :: f in ds <==> f in files && f.syncMode != GIT && f.path !in disk
  {
    cs, ds := [], [];
    for i := 0 to |files|
      invariant NoRepeats(cs) && NoRepeats(ds)
      invariant forall ch :: ch in cs <==> FromRow(ch, disk, paranoid) && ch.file in files[..i]
      invariant forall f :: f in ds <==> f in files[..i] && f.syncMode != GIT && f.path !in disk
    {
      var f := files[i];
      if f.syncMode != GIT {
        if f.path !in disk {
          ds := ds + [f];
        } else {
          var d := disk[f.path];
          if paranoid || Touched(f, d) {
            cs := cs + [if d.sha == f.sha then Verified(f, d.sha, d.size) else ClassifyDrift(f, d)];
          }
        }
      }
    }
  }

  /** The walk over the disk: every file the catalog has no row for. */
  method WalkDisk(disk: Disk, rows: RowMap) returns (cs: seq<Change>)
    ensures NoRepeats(cs)
    ensures forall ch :: ch in cs <==> ch.Added? && New(rows, disk, ch.path) && ch.sha == disk[ch.path].sha && ch.size == disk[ch.path].size
  {
    cs := [];
    var todo := disk.Keys;
    while todo != {}
      invariant todo <= disk.Keys && NoRepeats(cs)
      invariant forall ch :: ch in cs <==> ch.Added? && ch.path !in todo && New(rows, disk, ch.path) && ch.sha == disk[ch.path].sha && ch.size == disk[ch.path].size
      decreases todo
    {
      var p :| p in todo;
      todo := todo - {p};
      if p !in rows {
        cs := cs + [Added(p, disk[p].sha, disk[p].size)];
      }
    }
  }

  /** Compare the catalog with the disk. */
  method Diff(cat: Catalog, disk: Disk, paranoid: bool) returns (changes: seq<Change>)
    requires cat.Valid()
    ensures DiffOf(Rows(cat.files), disk, paranoid, changes)
  {
    ghost var rows := Rows(cat.files);
    RowsAreFiles(cat.files);
    RowsWellKeyed(cat.files);
    var known, ds := WalkCatalog(cat.files, disk, paranoid);
    var unseen := WalkDisk(disk, Rows(cat.files));
    AppendNoRepeats(known, unseen);
    FilesGone(cat.files, disk);
    assert Collected(rows, disk, paranoid, known + unseen, ds);
    changes := PairMoves(known + unseen, ds);
    forall ch
      ensures ch in changes <==> IsChange(rows, disk, paranoid, ch)
    {
      PairingIsDiff(rows, disk, paranoid, known + unseen, ds, ch);
    }
  }

  lemma FilesGone(files: seq<File>, disk: Disk)
    requires DistinctPaths(files)
    ensures forall f :: f in files && f.syncMode != GIT && f.path !in disk <==> Gone(Rows(files), disk, f)
    ensures forall f :: f in files && f.syncMode != GIT && f.path in disk <==> OnDisk(Rows(files), disk, f)
  {
    RowsAreFiles(files);
  }

  // ---- applying --------------------------------------------------------------------------

  /** Where an apply stands after some of its changes. */
  datatype Applying = Applying(log: LogView, rows: RowMap, owed: seq<string>, applied: seq<Change>, skipped: seq<Change>)

  function ApplyOne(h: string -> string, node: string, a: Applying, ch: Change, who: Who): Applying {
    if ch.Suspect? then a.(skipped := a.skipped + [ch])
    else if ch.Verified? then a.(rows := Mutate(h, node, ch, who, a.rows), applied := a.applied + [ch])
    else
      var (r, log) := Append(a.log, ScanEntry(h, node, ch, who));
      if r.Held? then a.(skipped := a.skipped + [ch])
      else Applying(log, Mutate(h, node, ch, who, a.rows), a.owed + [who.opID], a.applied + [ch], a.skipped)
  }

  /** One turn of an apply: a suspect, and a change whose file another op holds, is skipped and nothing else
      happens; a verified file is only touched; any other change is journaled, applied and owed its marker. */
  lemma AppliedOrSkipped(h: string -> string, node: string, a: Applying, ch: Change, who: Who)
    ensures var b := ApplyOne(h, node, a, ch, who);
            var held := !ch.Suspect? && !ch.Verified? && !HasOp(a.log, who.opID) && Blocked(a.log, ScanEntry(h, node, ch, who).blobRefs);
            if ch.Suspect? || held then b == a.(skipped := a.skipped + [ch])
            else
              && b.rows == Mutate(h, node, ch, who, a.rows) && b.applied == a.applied + [ch] && b.skipped == a.skipped
              && (ch.Verified? ==> b.log == a.log && b.owed == a.owed)
              && (!ch.Verified? ==> b.owed == a.owed + [who.opID] && b.log == if HasOp(a.log, who.opID) then a.log else AppendRec(a.log, ScanEntry(h, node, ch, who)))
  {
  }

  function ApplyUpTo(h: string -> string, node: string, a: Applying, chs: seq<Change>, whos: seq<Who>, k: nat): Applying
    requires |chs| == |whos| && k <= |chs|
  {
    if k == 0 then a else ApplyOne(h, node, ApplyUpTo(h, node, a, chs, whos, k - 1), chs[k - 1], whos[k - 1])
  }

  function MarkAll(v: LogView, owed: seq<string>, k: nat): LogView
    requires k <= |owed|
  {
    if k == 0 then v else MarkOp(MarkAll(v, owed, k - 1), owed[k - 1], true)
  }

  /** One change: report it, touch the row, or journal it and then change the row. */
  method ApplyChange(c: Cluster, n: string, h: string -> string, node: string, ch: Change, who: Who, a: Applying) returns (r: Applying)
    requires n in c.nodes && a.log == c.nodes[n].log
    modifies c
    ensures r == ApplyOne(h, node, a, ch, who)
    ensures c.nodes == old(c.nodes)[n := old(c.nodes)[n].(log := r.log)]
  {
    assert c.nodes == c.nodes[n := c.nodes[n].(log := a.log)];
    if ch.Suspect? {
      return a.(skipped := a.skipped + [ch]);
    }
    if ch.Verified? {
      return a.(rows := Mutate(h, node, ch, who, a.rows), applied := a.applied + [ch]);
    }
    var got := c.AppendIntent(n, ScanEntry(h, node, ch, who));
    if got.Held? {
      r := a.(skipped := a.skipped + [ch]);
    } else {
      r := Applying(c.nodes[n].log, Mutate(h, node, ch, who, a.rows), a.owed + [who.opID], a.applied + [ch], a.skipped);
    }
  }

  /** Done markers for everything that was journaled. */
  method MarkOwed(c: Cluster, n: string, owed: seq<string>)
    requires n in c.nodes
    modifies c
    ensures c.nodes == old(c.nodes)[n := old(c.nodes)[n].(log := MarkAll(old(c.nodes)[n].log, owed, |owed|))]
  {
    for k := 0 to |owed|
      invariant c.nodes == old(c.nodes)[n := old(c.nodes)[n].(log := MarkAll(old(c.nodes)[n].log, owed, k))]
    {
      c.Mark(n, owed[k], true);
    }
  }

  /** Journal and apply the changes one by one, then write the catalog, then mark everything done. */
  method Apply(c: Cluster, n: string, h: string -> string, node: string, chs: seq<Change>, whos: seq<Who>) returns (applied: seq<Change>, skipped: seq<Change>)
    requires n in c.nodes && c.nodes[n].cat.Some? && |chs| == |whos|
    modifies c
    ensures var s := old(c.nodes)[n];
            var a := ApplyUpTo(h, node, Applying(s.log, s.cat.value, [], [], []), chs, whos, |chs|);
            && applied == a.applied && skipped == a.skipped
            && c.nodes == old(c.nodes)[n := Node(Some(a.rows), MarkAll(a.log, a.owed, |a.owed|), s.objects)]
  {
    ghost var start, s := c.nodes, c.nodes[n];
    var a := Applying(c.nodes[n].log, c.nodes[n].cat.value, [], [], []);
    ghost var a0 := a;
    for k := 0 to |chs|
      invariant a == ApplyUpTo(h, node, a0, chs, whos, k)
      invariant c.nodes == start[n := s.(log := a.log)]
    {
      a := ApplyChange(c, n, h, node, chs[k], whos[k], a);
    }
    c.PersistCatalog(n, a.rows);
    MarkOwed(c, n, a.owed);
    applied, skipped := a.applied, a.skipped;
  }

  lemma ApplyOneKeeps(h: string -> string, node: string, a: Applying, ch: Change, who: Who)
    ensures forall x :: x in a.skipped ==> x in ApplyOne(h, node, a, ch, who).skipped
    ensures ch in ApplyOne(h, node, a, ch, who).skipped || ApplyOne(h, node, a, ch, who).rows == Mutate(h, node, ch, who, a.rows)
  {
  }

  lemma SuspectsDoNothing(h: string -> string, node: string, a: Applying, ch: Change, who: Who)
    requires ch.Suspect?
    ensures ApplyOne(h, node, a, ch, who).rows == Mutate(h, node, ch, who, a.rows)
  {
  }

  lemma {:induction false} NothingHeldAppliesAll(h: string -> string, node: string, a: Applying, chs: seq<Change>, whos: seq<Who>, k: nat)
    requires |chs| == |whos| && k <= |chs|
    requires forall ch :: ch in ApplyUpTo(h, node, a, chs, whos, k).skipped ==> ch.Suspect?
    ensures ApplyUpTo(h, node, a, chs, whos, k).rows == MutateAll(h, node, chs[..k], whos[..k], a.rows)
  {
    if k > 0 {
      var b := ApplyUpTo(h, node, a, chs, whos, k - 1);
      ApplyOneKeeps(h, node, b, chs[k - 1], whos[k - 1]);
      NothingHeldAppliesAll(h, node, a, chs, whos, k - 1);
      if chs[k - 1].Suspect? {
        SuspectsDoNothing(h, node, b, chs[k - 1], whos[k - 1]);
      }
      MutateSnoc(h, node, chs, whos, a.rows, k);
    }
  }

  lemma MutateSnoc(h: string -> string, node: string, chs: seq<Change>, whos: seq<Who>, rows: RowMap, k: nat)
    requires |chs| == |whos| && 0 < k <= |chs|
    ensures MutateAll(h, node, chs[..k], whos[..k], rows) == Mutate(h, node, chs[k - 1], whos[k - 1], MutateAll(h, node, chs[..k - 1], whos[..k - 1], rows))
  {
    assert chs[..k][..k - 1] == chs[..k - 1] && whos[..k][..k - 1] == whos[..k - 1];
  }

  /** A scan that skipped nothing but suspects leaves a catalog that the next paranoid scan of the
      same disk finds verified, suspects apart. */
  lemma AppliedScanConverges(h: string -> string, node: string, log: LogView, rows: RowMap, disk: Disk, chs: seq<Change>, whos: seq<Who>, ch: Change)
    requires WellKeyed(rows) && DiffOf(rows, disk, true, chs) && |chs| == |whos|
    requires var a := ApplyUpTo(h, node, Applying(log, rows, [], [], []), chs, whos, |chs|);
             (forall s :: s in a.skipped ==> s.Suspect?) && IsChange(a.rows, disk, true, ch)
    ensures ch.Verified? || (ch.Suspect? && ch in chs)
  {
    NothingHeldAppliesAll(h, node, Applying(log, rows, [], [], []), chs, whos, |chs|);
    assert chs[..|chs|] == chs && whos[..|whos|] == whos;
    ScanConverges(h, node, rows, disk, chs, whos, ch);
  }
}
