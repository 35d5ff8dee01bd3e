/** The client code of the log, over a store that other clients may be writing to. A call of
    Interfere stands for whatever other clients do between two store calls: any growth of the log
    that keeps the chain and the lock discipline (WalRace.dfy shows that is all they can do). */
module WalLog {
  import opened Wrappers
  import opened Wal
  import WalRace

  /** A node's store. Put creates if absent; nothing is ever overwritten under meta/wal/. */
  class FSBackend {
    var store: Store
    var puts: nat
    var gets: nat
    var deletes: nat
    ghost var view: LogView           // what a verified read of the store yields
    ghost var trail: seq<Store>       // every state this client put the store in
    ghost const alone: bool           // no other client is active

    ghost predicate Valid()
      reads this
    {
      Represents(store, view) && Disciplined(view)
    }

    constructor (ghost alone: bool)
      ensures Valid() && this.alone == alone && store == map[] && view == LogView(None, []) && trail == []
    {
      store := map[];
      puts, gets, deletes := 0, 0, 0;
      view := LogView(None, []);
      trail := [];
      this.alone := alone;
    }

    method Interfere()
      modifies this`store, this`view
      ensures WalRace.Grows(old(store), store)
      ensures old(Valid()) ==> Valid() && Extends(old(view), view)
      ensures alone ==> store == old(store) && view == old(view)
    {
    }

    method Stat(key: Key) returns (exists_: bool)
      ensures exists_ == (key in store)
    {
      exists_ := key in store;
    }

    method Get(key: Key) returns (b: Option<Blob>)
      modifies this`gets
      ensures b == if key in store then Some(store[key]) else None
      ensures gets == old(gets) + (if key in store then 1 else 0)
    {
      if key in store {
        gets := gets + 1;
        b := Some(store[key]);
      } else {
        b := None;
      }
    }

    method Put(key: Key, b: Blob)
      modifies this`store, this`puts, this`trail
      ensures store == if key in old(store) then old(store) else old(store)[key := b]
      ensures puts == old(puts) + (if key in old(store) then 0 else 1)
      ensures trail == old(trail) + [store]
    {
      var there := Stat(key);
      if !there {
        store := store[key := b];
        puts := puts + 1;
      }
      trail := trail + [store];
    }

    method Delete(key: Key)
      modifies this`store, this`deletes, this`trail
      ensures store == old(store) - {key}
      ensures deletes == old(deletes) + (if key in old(store) then 1 else 0)
      ensures trail == old(trail) + [store]
    {
      if key in store {
        deletes := deletes + 1;
      }
      store := store - {key};
      trail := trail + [store];
    }

    /** The keys under meta/wal/, each once. */
    method List() returns (keys: seq<Key>)
      ensures forall k :: k in keys <==> k in store && WalRace.IsWalKey(k)
      ensures forall i, j :: 0 <= i < j < |keys| ==> keys[i] != keys[j]
    {
      keys := [];
      var todo := store.Keys;
      while todo != {}
        invariant todo <= store.Keys
        invariant forall k :: k in keys <==> k in store.Keys - todo && WalRace.IsWalKey(k)
        invariant forall i, j :: 0 <= i < j < |keys| ==> keys[i] != keys[j]
        decreases todo
      {
        var k :| k in todo;
        if WalRace.IsWalKey(k) {
          keys := keys + [k];
        }
        todo := todo - {k};
      }
    }
  }

  // ---- loading ---------------------------------------------------------------------------

  function Load(e: Entry, st: State): Loaded {
    Loaded(EntryFile(e), e, SelfHash(e), st)
  }

  /** The loaded files are exactly the log's records, in order. */
  ghost predicate Loads(fs: seq<Loaded>, v: LogView) {
    |fs| == |v.recs| && forall i :: 0 <= i < |fs| ==> fs[i] == Load(v.recs[i].entry, v.recs[i].state)
  }

  /** A loaded file is the one stored in its slot. */
  ghost predicate IsStored(f: Loaded, store: Store) {
    Slot(f.entry.slot) in store && store[Slot(f.entry.slot)] == EntryFile(f.entry) && f == Load(f.entry, f.state)
  }

  /** Sorted by slot, no slot twice. */
  predicate BySlot(fs: seq<Loaded>) {
    forall i, j :: 0 <= i < j < |fs| ==> fs[i].entry.slot < fs[j].entry.slot
  }

  predicate BySlotLe(fs: seq<Loaded>) {
    forall i, j :: 0 <= i < j < |fs| ==> fs[i].entry.slot <= fs[j].entry.slot
  }

  predicate HasSlot(fs: seq<Loaded>, n: nat) {
    exists i :: 0 <= i < |fs| && fs[i].entry.slot == n
  }

  ghost predicate DistinctSlots(fs: seq<Loaded>) {
    forall i, j :: 0 <= i < j < |fs| ==> fs[i].entry.slot != fs[j].entry.slot
  }

  lemma InsertedMembers<T>(s: seq<T>, x: T, i: nat)
    requires i <= |s|
    ensures forall g :: g in s[..i] + [x] + s[i..] <==> g == x || g in s
  {
    assert s == s[..i] + s[i..];
  }

  lemma InsertedKeepsOrder(fs: seq<Loaded>, f: Loaded, i: nat, r: seq<Loaded>)
    requires i <= |fs| && BySlotLe(fs) && r == fs[..i] + [f] + fs[i..]
    requires forall k :: 0 <= k < i ==> fs[k].entry.slot <= f.entry.slot
    requires i < |fs| ==> f.entry.slot < fs[i].entry.slot
    ensures BySlotLe(r)
    ensures BySlot(fs) && !HasSlot(fs, f.entry.slot) ==> BySlot(r)
  {
    forall p, q | 0 <= p < q < |r|
      ensures r[p].entry.slot <= r[q].entry.slot
      ensures BySlot(fs) && !HasSlot(fs, f.entry.slot) ==> r[p].entry.slot < r[q].entry.slot
    {
      assert r[p] == if p < i then fs[p] else if p == i then f else fs[p - 1];
      assert r[q] == if q < i then fs[q] else if q == i then f else fs[q - 1];
    }
  }

  /** Insert a file into a list sorted by slot. */
  method Insert(fs: seq<Loaded>, f: Loaded) returns (r: seq<Loaded>)
    requires BySlotLe(fs)
    ensures BySlotLe(r)
    ensures BySlot(fs) && !HasSlot(fs, f.entry.slot) ==> BySlot(r)
    ensures forall g :: g in r <==> g == f || g in fs
  {
    var i := 0;
    while i < |fs| && fs[i].entry.slot <= f.entry.slot
      invariant 0 <= i <= |fs|
      invariant forall k :: 0 <= k < i ==> fs[k].entry.slot <= f.entry.slot
    {
      i := i + 1;
    }
    r := fs[..i] + [f] + fs[i..];
    InsertedMembers(fs, f, i);
    InsertedKeepsOrder(fs, f, i, r);
  }

  /** Keep the files above the anchor, ordered by slot. */
  method SortLive(fs: seq<Loaded>, a: Option<Anchor>) returns (r: seq<Loaded>)
    ensures BySlotLe(r)
    ensures DistinctSlots(fs) ==> BySlot(r)
    ensures forall g :: g in r <==> g in fs && g.entry.slot >= Base(a)
  {
    r := [];
    for k := 0 to |fs|
      invariant BySlotLe(r)
      invariant DistinctSlots(fs) ==> BySlot(r)
      invariant forall g :: g in r <==> g in fs[..k] && g.entry.slot >= Base(a)
    {
      assert fs[..k + 1] == fs[..k] + [fs[k]];
      if fs[k].entry.slot >= Base(a) {
        assert forall i :: 0 <= i < |r| ==> r[i] in r && r[i] in fs[..k];
        r := Insert(r, fs[k]);
      }
    }
    assert fs[..|fs|] == fs;
  }

  /** The verify-on-read pass. */
  method VerifyChain(fs: seq<Loaded>, a: Option<Anchor>) returns (ok: bool)
    ensures ok <==> Verifies(fs, a)
  {
    if |fs| == 0 {
      return true;
    }
    if fs[0].entry.slot != Base(a) || fs[0].entry.prevHash != Link(a) {
      assert !Links(fs, a, 0);
      return false;
    }
    for i := 1 to |fs|
      invariant forall k :: 0 <= k < i ==> Links(fs, a, k)
    {
      if fs[i].entry.slot != fs[i - 1].entry.slot + 1 || fs[i].entry.prevHash != fs[i - 1].selfHash {
        assert !Links(fs, a, i);
        return false;
      }
    }
    return true;
  }

  /** A list sorted by slot whose slots are exactly the live ones lists the records in order. */
  lemma SortedLiveIsLog(fs: seq<Loaded>, v: LogView)
    requires BySlot(fs)
    requires forall f :: f in fs ==> Base(v.anchor) <= f.entry.slot < Next(v)
    requires forall n: nat :: Base(v.anchor) <= n < Next(v) ==> HasSlot(fs, n)
    ensures |fs| == |v.recs|
    ensures forall i :: 0 <= i < |fs| ==> fs[i].entry.slot == Base(v.anchor) + i
  {
    SlotsAreDense(fs, v, |v.recs|);
  }

  lemma {:induction false} SlotsAreDense(fs: seq<Loaded>, v: LogView, n: nat)
    requires BySlot(fs) && n <= |v.recs|
    requires forall f :: f in fs ==> Base(v.anchor) <= f.entry.slot < Next(v)
    requires forall m: nat :: Base(v.anchor) <= m < Next(v) ==> HasSlot(fs, m)
    ensures n <= |fs| && forall i :: 0 <= i < n ==> fs[i].entry.slot == Base(v.anchor) + i
    ensures n == |v.recs| ==> |fs| == n
  {
    var b := Base(v.anchor);
    assert forall i :: 0 <= i < |fs| ==> fs[i] in fs;
    if n > 0 {
      SlotsAreDense(fs, v, n - 1);
      assert HasSlot(fs, b + (n - 1));
      var j :| 0 <= j < |fs| && fs[j].entry.slot == b + (n - 1);
      assert j >= n - 1;
      assert n - 1 > 0 ==> fs[n - 2].entry.slot < fs[n - 1].entry.slot;
      assert fs[n - 1].entry.slot >= b + (n - 1);
    }
    assert 0 < n < |fs| ==> fs[n - 1].entry.slot < fs[n].entry.slot;
  }

  /** The files of a log verify, and verified files of a log are its records. */
  lemma LoadsVerify(fs: seq<Loaded>, v: LogView)
    requires Loads(fs, v) && ChainedView(v)
    ensures Verifies(fs, v.anchor)
  {
    forall i | 0 <= i < |fs|
      ensures Links(fs, v.anchor, i)
    {
      assert Linked(v, i);
      assert i > 0 ==> Linked(v, i - 1);
    }
  }

  /** What a reader may rely on: the files are the log w, read between then and now. */
  ghost predicate LoadedFrom(fs: seq<Loaded>, w: LogView) {
    && (forall f :: f in fs ==> f.entry.slot < Next(w))
    && (forall f :: f in fs && f.entry.slot >= Base(w.anchor)
          ==> f == Load(w.recs[f.entry.slot - Base(w.anchor)].entry, w.recs[f.entry.slot - Base(w.anchor)].state))
    && (forall n: nat :: Base(w.anchor) <= n < Next(w) ==> HasSlot(fs, n))
    && DistinctSlots(fs)
  }

  /** The marker states collected from the key names seen so far. */
  ghost predicate MarkersSeen(ms: map<nat, State>, keys: seq<Key>) {
    && (forall s :: s in ms ==> s < MARKER_LIMIT && ms[s] != Intent)
    && (forall s: nat :: s < MARKER_LIMIT ==> (DoneMark(s) in keys <==> s in ms && ms[s] == Done))
    && (forall s: nat :: s < MARKER_LIMIT ==> (DoneMark(s) in keys || FailedMark(s) in keys <==> s in ms))
  }

  ghost predicate AnchorSeen(a: Option<Anchor>, keys: seq<Key>, listed: Store) {
    && (forall s: nat :: AnchorMark(s) in keys ==> a.Some? && s <= a.value.slot)
    && (a.Some? ==> AnchorMark(a.value.slot) in keys && AnchorMark(a.value.slot) in listed
                    && listed[AnchorMark(a.value.slot)] == AnchorFile(a.value.slot, a.value.hash))
  }

  ghost predicate FilesSeen(fs: seq<Loaded>, keys: seq<Key>, listed: Store) {
    && (forall f :: f in fs ==> Slot(f.entry.slot) in keys && IsStored(f, listed) && f.state == Intent)
    && (forall n: nat :: Slot(n) in keys ==> HasSlot(fs, n))
    && DistinctSlots(fs)
  }

  method NoteMarker(ms: map<nat, State>, k: Key, ghost seen: seq<Key>) returns (r: map<nat, State>)
    requires MarkersSeen(ms, seen)
    ensures MarkersSeen(r, seen + [k])
  {
    r := ms;
    match k {
      case DoneMark(s) => if s < MARKER_LIMIT { r := ms[s := Done]; }
      case FailedMark(s) => if s < MARKER_LIMIT && s !in ms { r := ms[s := Failed]; }
      case _ =>
    }
  }

  method WithStates(fs: seq<Loaded>, ms: map<nat, State>) returns (r: seq<Loaded>)
    ensures Stamped(fs, r, ms)
  {
    r := [];
    for i := 0 to |fs|
      invariant |r| == i
      invariant forall j :: 0 <= j < i ==> r[j] == Stamp(fs[j], ms)
    {
      r := r + [Stamp(fs[i], ms)];
    }
  }

  predicate Stamped(fs: seq<Loaded>, gs: seq<Loaded>, ms: map<nat, State>) {
    |gs| == |fs| && forall i :: 0 <= i < |gs| ==> gs[i] == Stamp(fs[i], ms)
  }

  function Stamp(f: Loaded, ms: map<nat, State>): Loaded {
    f.(state := if f.entry.slot in ms then ms[f.entry.slot] else Intent)
  }

  lemma StampIsRecord(f: Loaded, ms: map<nat, State>, keys: seq<Key>, listed: Store, w: LogView)
    requires Represents(listed, w) && IsStored(f, listed) && MarkersSeen(ms, keys)
    requires forall k :: k in keys <==> k in listed && WalRace.IsWalKey(k)
    ensures f.entry.slot < Next(w)
    ensures f.entry.slot >= Base(w.anchor)
      ==> Stamp(f, ms) == Load(w.recs[f.entry.slot - Base(w.anchor)].entry, w.recs[f.entry.slot - Base(w.anchor)].state)
  {
    var n := f.entry.slot;
    if n >= Base(w.anchor) {
      assert listed[Slot(n)] == EntryFile(w.recs[n - Base(w.anchor)].entry);
      assert w.recs[n - Base(w.anchor)].state == MarkState(listed, n);
      assert DoneMark(n) in keys <==> DoneMark(n) in listed;
      assert FailedMark(n) in keys <==> FailedMark(n) in listed;
    }
  }

  lemma AnchorSeenIs(a: Option<Anchor>, keys: seq<Key>, listed: Store, w: LogView)
    requires AnchorIs(listed, w.anchor) && AnchorSeen(a, keys, listed)
    requires forall k :: k in keys <==> k in listed && WalRace.IsWalKey(k)
    ensures a == w.anchor
  {
    assert w.anchor.Some? ==> AnchorMark(w.anchor.value.slot) in keys;
  }

  lemma StampedFiles(fs: seq<Loaded>, gs: seq<Loaded>, ms: map<nat, State>, keys: seq<Key>, listed: Store, w: LogView, f: Loaded)
    requires Represents(listed, w) && f in gs
    requires forall k :: k in keys <==> k in listed && WalRace.IsWalKey(k)
    requires FilesSeen(fs, keys, listed) && MarkersSeen(ms, keys) && Stamped(fs, gs, ms)
    ensures f.entry.slot < Next(w)
    ensures f.entry.slot >= Base(w.anchor) ==> f == Load(w.recs[f.entry.slot - Base(w.anchor)].entry, w.recs[f.entry.slot - Base(w.anchor)].state)
  {
    var i :| 0 <= i < |gs| && gs[i] == f;
    assert fs[i] in fs;
    StampIsRecord(fs[i], ms, keys, listed, w);
  }

  lemma StampedSlots(fs: seq<Loaded>, gs: seq<Loaded>, ms: map<nat, State>, keys: seq<Key>, listed: Store, w: LogView)
    requires SlotsAre(listed, w) && FilesSeen(fs, keys, listed) && Stamped(fs, gs, ms)
    requires forall k :: k in keys <==> k in listed && WalRace.IsWalKey(k)
    ensures forall n: nat :: Base(w.anchor) <= n < Next(w) ==> HasSlot(gs, n)
    ensures DistinctSlots(gs)
  {
    forall n: nat | Base(w.anchor) <= n < Next(w)
      ensures HasSlot(gs, n)
    {
      assert Slot(n) in listed && WalRace.IsWalKey(Slot(n));
      var i :| 0 <= i < |fs| && fs[i].entry.slot == n;
      assert gs[i].entry.slot == n;
    }
    assert forall i :: 0 <= i < |gs| ==> gs[i].entry.slot == fs[i].entry.slot;
  }

  lemma SeenAllIsLoaded(fs: seq<Loaded>, gs: seq<Loaded>, ms: map<nat, State>, a: Option<Anchor>, keys: seq<Key>, listed: Store, w: LogView)
    requires Represents(listed, w)
    requires forall k :: k in keys <==> k in listed && WalRace.IsWalKey(k)
    requires FilesSeen(fs, keys, listed) && MarkersSeen(ms, keys) && AnchorSeen(a, keys, listed)
    requires Stamped(fs, gs, ms)
    ensures a == w.anchor && LoadedFrom(gs, w)
  {
    AnchorSeenIs(a, keys, listed, w);
    StampedSlots(fs, gs, ms, keys, listed, w);
    forall f | f in gs
      ensures f.entry.slot < Next(w)
      ensures f.entry.slot >= Base(w.anchor) ==> f == Load(w.recs[f.entry.slot - Base(w.anchor)].entry, w.recs[f.entry.slot - Base(w.anchor)].state)
    {
      StampedFiles(fs, gs, ms, keys, listed, w, f);
    }
  }

  /** One more key of the listing: decode the fetched file, if it is still there. */
  method Take(k: Key, got: Option<Blob>, files: seq<Loaded>, anch: Option<Anchor>)
    returns (fs: seq<Loaded>, a: Option<Anchor>, err: bool)
    ensures err <==> got.Some? && ((k.AnchorMark? && !got.value.AnchorFile?) || (k.Slot? && !got.value.EntryFile?))
    ensures fs == if k.Slot? && got.Some? && !err then files + [Load(got.value.entry, Intent)] else files
    ensures a == if k.AnchorMark? && got.Some? && !err && (anch.None? || got.value.slot > anch.value.slot)
                 then Some(Anchor(got.value.slot, got.value.hash)) else anch
  {
    fs, a, err := files, anch, false;
    if got.None? {
      return;
    }
    if k.AnchorMark? {
      if !got.value.AnchorFile? {
        err := true;
      } else if anch.None? || got.value.slot > anch.value.slot {
        a := Some(Anchor(got.value.slot, got.value.hash));
      }
    } else if k.Slot? {
      if !got.value.EntryFile? {
        err := true;
      } else {
        fs := files + [Load(got.value.entry, Intent)];
      }
    }
  }

  lemma TakeKeepsFiles(k: Key, fs: seq<Loaded>, keys: seq<Key>, listed: Store, w: LogView)
    requires Represents(listed, w) && FilesSeen(fs, keys, listed) && k in listed && k !in keys
    ensures k.Slot? ==> listed[k].EntryFile?
    ensures FilesSeen(if k.Slot? then fs + [Load(listed[k].entry, Intent)] else fs, keys + [k], listed)
  {
    if k.Slot? {
      var f := Load(listed[k].entry, Intent);
      var gs := fs + [f];
      assert forall j :: 0 <= j < |fs| ==> fs[j] in fs;
      forall n: nat | Slot(n) in keys + [k]
        ensures HasSlot(gs, n)
      {
        if Slot(n) in keys {
          var i :| 0 <= i < |fs| && fs[i].entry.slot == n;
          assert gs[i].entry.slot == n;
        } else {
          assert gs[|fs|].entry.slot == n;
        }
      }
    }
  }

  lemma TakeKeepsAnchor(k: Key, a: Option<Anchor>, keys: seq<Key>, listed: Store, w: LogView)
    requires Represents(listed, w) && AnchorSeen(a, keys, listed) && k in listed
    ensures k.AnchorMark? ==> listed[k].AnchorFile?
    ensures AnchorSeen(if k.AnchorMark? && (a.None? || listed[k].slot > a.value.slot)
                       then Some(Anchor(listed[k].slot, listed[k].hash)) else a, keys + [k], listed)
  {
  }

  lemma LiveSlots(raw: seq<Loaded>, files: seq<Loaded>, w: LogView)
    requires LoadedFrom(raw, w)
    requires forall g :: g in files <==> g in raw && g.entry.slot >= Base(w.anchor)
    ensures forall n: nat :: Base(w.anchor) <= n < Next(w) ==> HasSlot(files, n)
  {
    forall n: nat | Base(w.anchor) <= n < Next(w)
      ensures HasSlot(files, n)
    {
      assert HasSlot(raw, n);
      var i :| 0 <= i < |raw| && raw[i].entry.slot == n;
      assert raw[i] in files;
    }
  }

  lemma LiveAreLoads(files: seq<Loaded>, w: LogView)
    requires |files| == |w.recs| && forall i :: 0 <= i < |files| ==> files[i].entry.slot == Base(w.anchor) + i
    requires forall f :: f in files ==> Base(w.anchor) <= f.entry.slot < Next(w)
    requires forall f :: f in files ==> f == Load(w.recs[f.entry.slot - Base(w.anchor)].entry, w.recs[f.entry.slot - Base(w.anchor)].state)
    ensures Loads(files, w)
  {
    forall i | 0 <= i < |files|
      ensures files[i] == Load(w.recs[i].entry, w.recs[i].state)
    {
      assert files[i] in files;
    }
  }

  lemma LiveFilesAreLog(raw: seq<Loaded>, files: seq<Loaded>, w: LogView)
    requires LoadedFrom(raw, w) && ChainedView(w) && BySlot(files)
    requires forall g :: g in files <==> g in raw && g.entry.slot >= Base(w.anchor)
    ensures Loads(files, w) && Verifies(files, w.anchor)
  {
    LiveSlots(raw, files, w);
    SortedLiveIsLog(files, w);
    LiveAreLoads(files, w);
    LoadsVerify(files, w);
  }

  method FirstOp(files: seq<Loaded>, opID: string) returns (at: Option<nat>)
    ensures at.Some? ==> at.value < |files| && files[at.value].entry.opID == opID
    ensures at.None? ==> forall j :: 0 <= j < |files| ==> files[j].entry.opID != opID
  {
    for i := 0 to |files|
      invariant forall j :: 0 <= j < i ==> files[j].entry.opID != opID
    {
      if files[i].entry.opID == opID {
        return Some(i);
      }
    }
    return None;
  }

  method FirstHolder(files: seq<Loaded>, refs: seq<string>) returns (at: Option<nat>)
    ensures at.Some? ==> at.value < |files| && files[at.value].state == Intent && SharesBlob(files[at.value].entry.blobRefs, refs)
    ensures at.None? ==> forall j :: 0 <= j < |files| ==> files[j].state != Intent || !SharesBlob(files[j].entry.blobRefs, refs)
  {
    for i := 0 to |files|
      invariant forall j :: 0 <= j < i ==> files[j].state != Intent || !SharesBlob(files[j].entry.blobRefs, refs)
    {
      if files[i].state == Intent && SharesBlob(files[i].entry.blobRefs, refs) {
        return Some(i);
      }
    }
    return None;
  }

  /** The candidate for the slot after the last file. */
  method NextCandidate(files: seq<Loaded>, anch: Option<Anchor>, e: Entry, ghost w: LogView) returns (cand: Entry)
    ensures cand.opID == e.opID
    ensures Loads(files, w) && ChainedView(w) && anch == w.anchor ==> cand == Candidate(w, e)
  {
    if |files| > 0 {
      cand := e.(slot := files[|files| - 1].entry.slot + 1, prevHash := files[|files| - 1].selfHash);
    } else if anch.Some? {
      cand := e.(slot := anch.value.slot + 1, prevHash := anch.value.hash);
    } else {
      cand := e.(slot := 0, prevHash := ZeroHash);
    }
    assert |w.recs| > 0 && ChainedView(w) ==> Linked(w, |w.recs| - 1);
  }

  /** A record of an earlier reading is still in the log, its state no further back. */
  lemma StillInLog(files: seq<Loaded>, w: LogView, v: LogView, i: nat)
    requires Loads(files, w) && Extends(w, v) && i < |files|
    ensures WalRace.InLog(v, Rec(files[i].entry, files[i].state))
    ensures w.recs[i] == Rec(files[i].entry, files[i].state)
  {
    assert w.recs[i].entry == v.recs[i].entry;
  }

  /** A node's log, driven by one client through its backend. It holds no state of its own. */
  class Log {
    const b: FSBackend

    constructor (b: FSBackend)
      ensures this.b == b
    {
      this.b := b;
    }

    /** List the keys, fetch slots and anchors, and derive each entry's state from the marker names.
        A key that is gone by the time it is fetched is skipped. */
    method LoadRaw() returns (files: seq<Loaded>, anch: Option<Anchor>, err: bool, ghost w: LogView)
      modifies b`store, b`view, b`gets
      ensures WalRace.Grows(old(b.store), b.store)
      ensures old(b.Valid()) ==> !err && anch == w.anchor && LoadedFrom(files, w)
      ensures old(b.Valid()) ==> b.Valid() && Extends(w, b.view)
      ensures w == old(b.view) && (b.alone ==> b.store == old(b.store) && b.view == old(b.view))
    {
      files, anch, err, w := [], None, false, b.view;
      var keys := b.List();
      ghost var listed, valid := b.store, b.Valid();
      var ms: map<nat, State> := map[];
      for i := 0 to |keys|
        invariant WalRace.Grows(listed, b.store)
        invariant b.alone ==> b.store == listed && b.view == w
        invariant valid ==> b.Valid() && Extends(w, b.view)
        invariant MarkersSeen(ms, keys[..i])
        invariant valid ==> AnchorSeen(anch, keys[..i], listed)
        invariant valid ==> FilesSeen(files, keys[..i], listed)
      {
        ghost var seen := keys[..i];
        assert keys[..i + 1] == seen + [keys[i]];
        var k := keys[i];
        assert k in listed && k !in seen;
        ghost var before := b.view;
        b.Interfere();
        var got: Option<Blob> := None;
        if WalRace.IsFetched(k) {
          got := b.Get(k);
        }
        if valid {
          ExtendsTransitive(w, before, b.view);
          TakeKeepsFiles(k, files, seen, listed, w);
          TakeKeepsAnchor(k, anch, seen, listed, w);
        }
        files, anch, err := Take(k, got, files, anch);
        if err {
          return;
        }
        ms := NoteMarker(ms, k, seen);
      }
      assert keys[..|keys|] == keys;
      var gs := WithStates(files, ms);
      if valid {
        SeenAllIsLoaded(files, gs, ms, anch, keys, listed, w);
      }
      files := gs;
    }

    /** Load, drop what lies at or below the anchor, order by slot, verify the chain. */
    method ReadVerified() returns (files: seq<Loaded>, anch: Option<Anchor>, ok: bool, ghost w: LogView)
      modifies b`store, b`view, b`gets
      ensures WalRace.Grows(old(b.store), b.store)
      ensures ok ==> Verifies(files, anch)
      ensures old(b.Valid()) ==> ok && anch == w.anchor && Loads(files, w) && b.Valid() && Extends(w, b.view)
      ensures w == old(b.view) && (b.alone ==> b.store == old(b.store) && b.view == old(b.view))
    {
      ghost var valid := b.Valid();
      var raw, err;
      raw, anch, err, w := LoadRaw();
      if err {
        files, ok := [], false;
        return;
      }
      files := SortLive(raw, anch);
      ok := VerifyChain(files, anch);
      if valid {
        LiveFilesAreLog(raw, files, w);
      }
    }

    /** The verified records, or none when the chain is broken. */
    method Read() returns (recs: Option<seq<Rec>>, ghost w: LogView)
      modifies b`store, b`view, b`gets
      ensures WalRace.Grows(old(b.store), b.store)
      ensures old(b.Valid()) ==> recs == Some(w.recs) && b.Valid() && Extends(w, b.view)
      ensures w == old(b.view) && (b.alone ==> b.store == old(b.store) && b.view == old(b.view))
    {
      var files, anch, ok;
      ghost var valid := b.Valid();
      files, anch, ok, w := ReadVerified();
      if !ok {
        recs := None;
        return;
      }
      var out: seq<Rec> := [];
      for i := 0 to |files|
        invariant |out| == i && forall j :: 0 <= j < i ==> out[j] == Rec(files[j].entry, files[j].state)
      {
        out := out + [Rec(files[i].entry, files[i].state)];
      }
      recs := Some(out);
      assert valid ==> out == w.recs;
    }

    /** Put the candidate into its slot if the slot is still free. */
    method PutCandidate(e: Entry, cand: Entry, ghost w: LogView, ghost valid: bool)
      requires cand.opID == e.opID
      requires valid ==> b.Valid() && ChainedView(w) && WalRace.Claims(w, b.view, e, cand)
      modifies b`store, b`view, b`puts, b`trail
      ensures WalRace.Grows(old(b.store), b.store)
      ensures valid ==> b.Valid() && Extends(old(b.view), b.view) && WalRace.Placed(b.view, cand)
      ensures valid && b.alone && old(b.view) == w ==> b.view == AppendRec(w, e) && Slot(cand.slot) in b.store && b.store[Slot(cand.slot)] == EntryFile(cand)
    {
      ghost var start := b.view;
      b.Interfere();
      if valid {
        ExtendsTransitive(w, start, b.view);
        assert WalRace.Claims(w, b.view, e, cand);
        ClaimStep(b.store, b.view, w, e, cand);
      }
      ghost var free, atPut := Slot(cand.slot) !in b.store, b.view;
      b.Put(Slot(cand.slot), EntryFile(cand));
      if valid && free {
        b.view := AppendRec(atPut, e);
        ExtendsTransitive(start, atPut, b.view);
      }
    }

    /** Claim the slot, and read it back. */
    method Claim(e: Entry, cand: Entry, ghost w: LogView, ghost valid: bool) returns (got: Option<Blob>)
      requires cand.opID == e.opID
      requires valid ==> b.Valid() && ChainedView(w) && WalRace.Claims(w, b.view, e, cand)
      modifies b`store, b`view, b`gets, b`puts, b`trail
      ensures WalRace.Grows(old(b.store), b.store)
      ensures valid ==> b.Valid() && Extends(old(b.view), b.view) && WalRace.Placed(b.view, cand)
      ensures got == if Slot(cand.slot) in b.store then Some(b.store[Slot(cand.slot)]) else None
      ensures valid && b.alone && old(b.view) == w ==> b.view == AppendRec(w, e) && got == Some(EntryFile(cand))
    {
      ghost var start := b.view;
      PutCandidate(e, cand, w, valid);
      ghost var put := b.view;
      b.Interfere();
      if valid {
        ExtendsTransitive(start, put, b.view);
        PlacedStays(put, b.view, cand);
      }
      got := b.Get(Slot(cand.slot));
    }

    /** One attempt of an append; no outcome means the slot went to someone else. */
    method TryAppend(e: Entry) returns (outcome: Option<WalRace.Outcome>)
      modifies b`store, b`view, b`gets, b`puts, b`trail
      ensures WalRace.Grows(old(b.store), b.store)
      ensures old(b.Valid()) ==> b.Valid() && Extends(old(b.view), b.view)
      ensures old(b.Valid()) && outcome.Some? ==> WalRace.OutcomeOk(b.view, outcome.value)
      ensures old(b.Valid()) && b.alone ==> outcome.Some? && AppendsAlone(old(b.view), e, outcome.value, b.view)
    {
      ghost var valid, start := b.Valid(), b.view;
      var files, anch, ok;
      ghost var w;
      files, anch, ok, w := ReadVerified();
      if !ok {
        return Some(WalRace.ChainBroken);
      }
      var dup := FirstOp(files, e.opID);
      if dup.Some? {
        if valid {
          StillInLog(files, w, b.view, dup.value);
        }
        return Some(WalRace.DuplicateOp(Rec(files[dup.value].entry, files[dup.value].state)));
      }
      var holder := FirstHolder(files, e.blobRefs);
      if holder.Some? {
        if valid {
          StillInLog(files, w, b.view, holder.value);
          NoOpInFiles(files, w, e);
        }
        return Some(WalRace.OpInFlight(Rec(files[holder.value].entry, Intent)));
      }
      var cand := NextCandidate(files, anch, e, w);
      if valid {
        NoOpInFiles(files, w, e);
        ChainedReading(files, w);
      }
      ghost var read := b.view;
      var got := Claim(e, cand, w, valid);
      if valid {
        ExtendsTransitive(start, read, b.view);
        PlacedIsStored(b.store, b.view, cand);
      }
      if got.None? {
        return None;
      }
      if !got.value.EntryFile? {
        return Some(WalRace.ChainBroken);
      }
      if got.value.entry.opID == cand.opID {
        return Some(WalRace.Appended(Rec(cand, Intent)));
      }
      return None;
    }

    /** Append an intent: the log as a lock. Whatever the other clients do meanwhile, success
        means the claimed slot carries this op id; refusals name a record that is in the log. */
    method AppendIntent(e: Entry) returns (outcome: WalRace.Outcome)
      modifies b`store, b`view, b`gets, b`puts, b`trail
      ensures WalRace.Grows(old(b.store), b.store)
      ensures old(b.Valid()) ==> b.Valid() && Extends(old(b.view), b.view) && WalRace.OutcomeOk(b.view, outcome)
      ensures old(b.Valid()) && b.alone ==> AppendsAlone(old(b.view), e, outcome, b.view)
    {
      ghost var valid, start := b.Valid(), b.view;
      for attempt := 0 to WalRace.MAX_APPEND_RETRIES
        invariant WalRace.Grows(old(b.store), b.store)
        invariant valid ==> b.Valid() && Extends(start, b.view)
        invariant valid && b.alone ==> attempt == 0 && b.view == start
      {
        ghost var before := b.view;
        var r := TryAppend(e);
        if valid {
          ExtendsTransitive(start, before, b.view);
        }
        if r.Some? {
          return r.value;
        }
      }
      return WalRace.NotConverged;
    }
  
    /** Put one marker, unless it is there already. */
    method PutMarker(slot: nat, opID: string, done: bool, ghost i: nat, ghost valid: bool) returns (ghost u: LogView)
      requires valid ==> b.Valid() && i < |b.view.recs| && slot == Base(b.view.anchor) + i
      modifies b`store, b`view, b`puts, b`trail
      ensures WalRace.Grows(old(b.store), b.store)
      ensures valid ==> b.Valid() && Extends(old(b.view), b.view)
      ensures valid ==> Extends(old(b.view), u) && i < |u.recs| && b.view == MarkRec(u, i, done)
      ensures valid && b.alone ==> b.view == MarkRec(old(b.view), i, done)
    {
      u := b.view;
      var there := b.Stat(MarkKey(slot, done));
      if there {
        if valid {
          MarkPut(b.store, b.view, i, done, MarkerFile(slot, opID, Intent));
        }
        return;
      }
      b.Interfere();
      ghost var start := u;
      u := b.view;
      PutNewMarker(slot, opID, done, i, valid);
      if valid {
        ExtendsTransitive(start, u, b.view);
      }
    }

    method PutNewMarker(slot: nat, opID: string, done: bool, ghost i: nat, ghost valid: bool)
      requires valid ==> b.Valid() && i < |b.view.recs| && slot == Base(b.view.anchor) + i
      modifies b`store, b`view, b`puts, b`trail
      ensures WalRace.Grows(old(b.store), b.store)
      ensures valid ==> b.Valid() && Extends(old(b.view), b.view) && i < |old(b.view).recs| && b.view == MarkRec(old(b.view), i, done)
    {
      ghost var u := b.view;
      var marker := MarkerFile(slot, opID, if done then Done else Failed);
      if valid {
        MarkPut(b.store, b.view, i, done, marker);
      }
      b.Put(MarkKey(slot, done), marker);
      if valid {
        b.view := MarkRec(u, i, done);
      }
    }

    /** Write the sibling marker of an op; marking twice, or marking an unknown op, is a silent success. */
    method Mark(opID: string, done: bool) returns (ok: bool)
      modifies b`store, b`view, b`gets, b`puts, b`trail
      ensures WalRace.Grows(old(b.store), b.store)
      ensures old(b.Valid()) ==> ok && b.Valid() && Extends(old(b.view), b.view) && Marked(old(b.view), b.view, opID, done)
      ensures old(b.Valid()) && b.alone ==> b.view == MarkOp(old(b.view), opID, done)
    {
      ghost var valid := b.Valid();
      var files, anch;
      ghost var w;
      files, anch, ok, w := ReadVerified();
      if !ok {
        return false;
      }
      var at := FirstOp(files, opID);
      if at.None? {
        if valid {
          NoOpToMark(files, w, b.view, opID, done);
        }
        return true;
      }
      ghost var read := b.view;
      if valid {
        assert Linked(w, at.value);
        FoundOp(w, b.view, opID, at.value);
      }
      ghost var u := PutMarker(files[at.value].entry.slot, opID, done, at.value, valid);
      if valid {
        ExtendsTransitive(w, read, u);
        ExtendsTransitive(w, read, b.view);
        MarkedByRec(w, u, b.view, at.value, opID, done);
      }
      return true;
    }

    /** The pending intents, optionally only those holding one blob. */
    method Pending(ref: Option<string>) returns (out: Option<seq<Rec>>, ghost w: LogView)
      modifies b`store, b`view, b`gets
      ensures old(b.Valid()) ==> out.Some? && b.Valid() && Extends(w, b.view) && w == old(b.view)
      ensures old(b.Valid()) ==> (forall r :: r in out.value <==> r in w.recs && r.state == Intent && (ref.Some? ==> ref.value in r.entry.blobRefs))
    {
      ghost var valid := b.Valid();
      var recs;
      recs, w := Read();
      if recs.None? {
        return None, w;
      }
      var rs, acc := recs.value, [];
      for i := 0 to |rs|
        invariant forall r :: r in acc <==> r in rs[..i] && r.state == Intent && (ref.Some? ==> ref.value in r.entry.blobRefs)
      {
        assert rs[..i + 1] == rs[..i] + [rs[i]];
        if rs[i].state == Intent && (ref.None? || ref.value in rs[i].entry.blobRefs) {
          acc := acc + [rs[i]];
        }
      }
      assert rs[..|rs|] == rs;
      out := Some(acc);
    }

    /** Delete the first n files with their done markers; every state in between reads as the pruned log. */
    method DeletePruned(files: seq<Loaded>, n: nat, ghost v: LogView, ghost valid: bool)
      requires n <= |files|
      requires valid ==> ChainedView(v) && Loads(files, v) && 0 < n && b.view == Pruned(v, n) && b.Valid()
      modifies b`store, b`trail, b`deletes
      ensures old(b.trail) <= b.trail
      ensures valid ==> b.Valid() && forall k :: |old(b.trail)| <= k < |b.trail| ==> Represents(b.trail[k], b.view)
    {
      for i := 0 to n
        invariant old(b.trail) <= b.trail
        invariant valid ==> Represents(b.store, b.view)
        invariant valid ==> forall k :: |old(b.trail)| <= k < |b.trail| ==> Represents(b.trail[k], b.view)
      {
        var slot := files[i].entry.slot;
        if valid {
          assert Linked(v, i) && Linked(v, n - 1);
          DeleteBelowRepresents(b.store, b.view, Slot(slot));
          DeleteBelowRepresents(b.store - {Slot(slot)}, b.view, DoneMark(slot));
        }
        b.Delete(Slot(slot));
        b.Delete(DoneMark(slot));
      }
    }

    /** Journal gc, with no other client active: drop the leading run of done entries older than the
        cutoff. Every state the store passes through reads as the pruned log. */
    method Prune(cutoff: int) returns (n: nat, ok: bool)
      requires b.alone
      modifies b
      ensures old(b.Valid()) ==> ok && b.Valid() && n == PrunePrefix(old(b.view), cutoff) && b.view == Pruned(old(b.view), n)
      ensures old(b.trail) <= b.trail
      ensures old(b.Valid()) ==> forall k :: |old(b.trail)| <= k < |b.trail| ==> Represents(b.trail[k], b.view)
    {
      ghost var valid, v := b.Valid(), b.view;
      var files, anch;
      ghost var w;
      files, anch, ok, w := ReadVerified();
      n := 0;
      if !ok {
        return;
      }
      while n < |files| && files[n].state == Done && files[n].entry.createdAt < cutoff
        invariant 0 <= n <= |files|
        invariant forall k :: 0 <= k < n ==> files[k].state == Done && files[k].entry.createdAt < cutoff
      {
        n := n + 1;
      }
      if valid {
        PrefixIs(v, cutoff, n);
      }
      if n == 0 {
        return;
      }
      var last := files[n - 1];
      if valid {
        AnchorPutRepresents(b.store, v, n);
        PrunedKeeps(v, n);
        assert Linked(v, n - 1);
      }
      b.Put(AnchorMark(last.entry.slot), AnchorFile(last.entry.slot, last.selfHash));
      if valid {
        b.view := Pruned(v, n);
      }
      DeletePruned(files, n, v, valid);
      if anch.Some? && anch.value.slot < last.entry.slot {
        if valid {
          DeleteBelowRepresents(b.store, b.view, AnchorMark(anch.value.slot));
        }
        b.Delete(AnchorMark(anch.value.slot));
      }
    }
  }

  lemma MarkPut(store: Store, v: LogView, i: nat, done: bool, b: Blob)
    requires Represents(store, v) && Disciplined(v) && i < |v.recs|
    ensures var k := MarkKey(Base(v.anchor) + i, done);
            Represents(if k in store then store else store[k := b], MarkRec(v, i, done))
    ensures MarkKey(Base(v.anchor) + i, done) in store ==> MarkRec(v, i, done) == v
    ensures Disciplined(MarkRec(v, i, done)) && Extends(v, MarkRec(v, i, done)) && Extends(v, v)
  {
    PutMarkRepresents(store, v, i, done, b);
    MarkKeeps(v, i, done);
    if MarkKey(Base(v.anchor) + i, done) in store {
      ReadsUnique(store, v, MarkRec(v, i, done));
    }
  }

  lemma PrefixIs(v: LogView, cutoff: int, n: nat, i: nat := 0)
    requires i <= n <= |v.recs|
    requires forall k :: i <= k < n ==> v.recs[k].state == Done && v.recs[k].entry.createdAt < cutoff
    requires n < |v.recs| ==> v.recs[n].state != Done || v.recs[n].entry.createdAt >= cutoff
    ensures n == PrunePrefix(v, cutoff, i)
    decreases n - i
  {
  }

  /** Every op with this id is at least as far along as the marker asks. */
  ghost predicate Marked(v: LogView, w: LogView, opID: string, done: bool) {
    forall i :: 0 <= i < |v.recs| && v.recs[i].entry.opID == opID ==>
      i < |w.recs| && StateLe(AfterMark(v.recs[i].state, Base(v.anchor) + i, done), w.recs[i].state)
  }

  lemma NoOpToMark(files: seq<Loaded>, w: LogView, v: LogView, opID: string, done: bool)
    requires Loads(files, w) && Extends(w, v)
    requires forall j :: 0 <= j < |files| ==> files[j].entry.opID != opID
    ensures Marked(w, v, opID, done) && MarkOp(w, opID, done) == w
  {
    assert forall j :: 0 <= j < |w.recs| ==> files[j] == Load(w.recs[j].entry, w.recs[j].state);
  }

  lemma FoundOp(w: LogView, v: LogView, opID: string, i: nat)
    requires i < |w.recs| && w.recs[i].entry.opID == opID && DistinctOps(w) && Extends(w, v)
    ensures FindOp(w, opID) == Some(i) && i < |v.recs|
  {
    var at := FindOp(w, opID);
    assert at.Some?;
    assert w.recs[at.value].entry.opID == opID;
  }

  lemma MarkedByRec(w: LogView, v: LogView, u: LogView, i: nat, opID: string, done: bool)
    requires Extends(w, v) && DistinctOps(w) && i < |w.recs| && w.recs[i].entry.opID == opID
    requires u == MarkRec(v, i, done)
    ensures Marked(w, u, opID, done)
  {
    forall k | 0 <= k < |w.recs| && w.recs[k].entry.opID == opID
      ensures k < |u.recs| && StateLe(AfterMark(w.recs[k].state, Base(w.anchor) + k, done), u.recs[k].state)
    {
      assert k == i;
      assert StateLe(w.recs[i].state, v.recs[i].state);
    }
  }

  /** What an append does when no other client is active. */
  ghost predicate AppendsAlone(v: LogView, e: Entry, outcome: WalRace.Outcome, w: LogView) {
    match outcome
    case Appended(rec) =>
      rec == Rec(Candidate(v, e), Intent) && w == AppendRec(v, e) && !HasOp(v, e.opID) && !Blocked(v, e.blobRefs)
    case DuplicateOp(rec) =>
      w == v && rec in v.recs && rec.entry.opID == e.opID
    case OpInFlight(rec) =>
      w == v && rec in v.recs && rec.state == Intent && SharesBlob(rec.entry.blobRefs, e.blobRefs) && !HasOp(v, e.opID)
    case _ => false
  }

  lemma NoOpInFiles(files: seq<Loaded>, w: LogView, e: Entry)
    requires Loads(files, w)
    ensures (forall j :: 0 <= j < |files| ==> files[j].entry.opID != e.opID) ==> !HasOp(w, e.opID)
    ensures (forall j :: 0 <= j < |files| ==> files[j].state != Intent || !SharesBlob(files[j].entry.blobRefs, e.blobRefs))
      ==> !Blocked(w, e.blobRefs)
  {
    assert forall j :: 0 <= j < |w.recs| ==> files[j] == Load(w.recs[j].entry, w.recs[j].state);
  }

  lemma ChainedReading(files: seq<Loaded>, w: LogView)
    requires Loads(files, w) && Verifies(files, w.anchor)
    ensures ChainedView(w)
  {
    forall i | 0 <= i < |w.recs|
      ensures Linked(w, i)
    {
      VerifiedSeq(files, w.anchor, i);
      assert Links(files, w.anchor, i);
      assert files[i] == Load(w.recs[i].entry, w.recs[i].state);
      if i > 0 {
        assert files[i - 1] == Load(w.recs[i - 1].entry, w.recs[i - 1].state);
      }
    }
  }

  lemma PlacedIsStored(store: Store, v: LogView, cand: Entry)
    requires Represents(store, v) && WalRace.Placed(v, cand)
    ensures Slot(cand.slot) in store && store[Slot(cand.slot)] == EntryFile(v.recs[cand.slot - Base(v.anchor)].entry)
  {
  }

  /** At the moment of the put, either nothing was appended since the reading, and the put extends
      the log, or the slot is taken and the put changes nothing. */
  lemma ClaimStep(store: Store, v: LogView, w: LogView, e: Entry, cand: Entry)
    requires Represents(store, v) && Disciplined(v) && ChainedView(w) && WalRace.Claims(w, v, e, cand)
    ensures Slot(cand.slot) !in store <==> Next(v) == Next(w)
    ensures Next(v) != Next(w) ==> WalRace.Placed(v, cand)
    ensures Slot(cand.slot) !in store ==>
      && Represents(store[Slot(cand.slot) := EntryFile(cand)], AppendRec(v, e))
      && Disciplined(AppendRec(v, e)) && Extends(v, AppendRec(v, e)) && WalRace.Placed(AppendRec(v, e), cand)
  {
    if Slot(cand.slot) in store {
      WalRace.ClaimIsPlaced(v, w, e, cand);
    } else {
      WalRace.FreeSlotMeansNothingAppended(store, w, v, e, cand);
      PutSlotRepresents(store, v, e);
      AppendKeeps(v, e);
    }
  }

  lemma PlacedStays(v: LogView, w: LogView, cand: Entry)
    requires WalRace.Placed(v, cand) && Extends(v, w)
    ensures WalRace.Placed(w, cand)
  {
    assert v.recs[cand.slot - Base(v.anchor)].entry == w.recs[cand.slot - Base(w.anchor)].entry;
  }
}
