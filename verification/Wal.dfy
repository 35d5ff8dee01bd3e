/** The write-ahead log of one node: immutable hash-chained entries whose state lives in
    sibling marker files, a forward-only anchor left by pruning, and the lock discipline that
    appending an intent enforces. This file holds the values and their laws; the client code
    that reads and writes them is in WalLog.dfy, and racing clients are in WalRace.dfy. */
module Wal {
  import opened Wrappers

  /** Operation types. The vocabulary is open: a reader must tolerate names it does not know. */
  datatype OpType =
    | Ingest | Move | Delete | SyncMode | Gc | Roster | Scan | Passwd | Restore
    | UnknownOp(name: string)

  /** Argument keys an entry may carry. A missing key reads as the empty string. */
  datatype Arg =
    | Path | ContentSha256 | OriginNode | SyncModeArg | Size
    | From | To | MovedTo | SrcPath | DestPath | MemberName
    | Id | OriginalPath | IngestOpId | RestoredId | OldId
    | OldSha256 | NewSha256 | ToMode | FromMode | LastScannedAt
    | CustomArg(name: string)

  datatype State = Intent | Done | Failed

  /** Hashing is symbolic: two hashes agree exactly when the hashed bytes agree, and nothing
      hashes to the sentinel that precedes the first entry. */
  datatype Hash = ZeroHash | Sha256(raw: Blob)

  datatype Entry = Entry(slot: nat, opID: string, prevHash: Hash, opType: OpType, blobRefs: seq<string>,
                         actor: string, createdAt: int, args: map<Arg, string>)

  /** What a stored file holds. */
  datatype Blob =
    | EntryFile(entry: Entry)
    | AnchorFile(slot: nat, hash: Hash)
    | MarkerFile(slot: nat, opID: string, state: State)
    | OtherFile(text: string)

  /** The store-relative keys under meta/wal/, and everything else. */
  datatype Key = Slot(slot: nat) | DoneMark(slot: nat) | FailedMark(slot: nat) | AnchorMark(slot: nat) | OtherKey(name: string)

  type Store = map<Key, Blob>

  datatype Anchor = Anchor(slot: nat, hash: Hash)

  datatype Rec = Rec(entry: Entry, state: State)

  /** What a chain-verified read of a log yields. */
  datatype LogView = LogView(anchor: Option<Anchor>, recs: seq<Rec>)

  /** Marker names carry exactly twelve digits, so a marker for a later slot is never read. */
  const MARKER_LIMIT: nat := 1_000_000_000_000

  function ArgOf(e: Entry, k: Arg): string {
    if k in e.args then e.args[k] else ""
  }

  function HashBytes(b: Blob): Hash {
    Sha256(b)
  }

  function SelfHash(e: Entry): Hash {
    HashBytes(EntryFile(e))
  }

  /** An entry without its place in the chain. */
  function Body(e: Entry): Entry {
    e.(slot := 0, prevHash := ZeroHash)
  }

  /** The sequence number and previous-hash the first live entry must carry. */
  function Base(a: Option<Anchor>): nat {
    if a.Some? then a.value.slot + 1 else 0
  }

  function Link(a: Option<Anchor>): Hash {
    if a.Some? then a.value.hash else ZeroHash
  }

  function Next(v: LogView): nat {
    Base(v.anchor) + |v.recs|
  }

  function TailHash(v: LogView): Hash {
    if v.recs == [] then Link(v.anchor) else SelfHash(v.recs[|v.recs| - 1].entry)
  }

  predicate SharesBlob(a: seq<string>, b: seq<string>) {
    exists i :: 0 <= i < |a| && a[i] in b
  }

  /** The state a reader derives for slot s: done wins over failed, and no readable marker means intent. */
  function MarkState(store: Store, s: nat): State {
    if s < MARKER_LIMIT && DoneMark(s) in store then Done
    else if s < MARKER_LIMIT && FailedMark(s) in store then Failed
    else Intent
  }

  // ---- the chain -------------------------------------------------------------------------

  /** One entry file as loaded: its raw bytes, what they decode to, and their hash. */
  datatype Loaded = Loaded(raw: Blob, entry: Entry, selfHash: Hash, state: State)

  predicate Links(fs: seq<Loaded>, a: Option<Anchor>, i: nat)
    requires i < |fs|
  {
    if i == 0 then fs[0].entry.slot == Base(a) && fs[0].entry.prevHash == Link(a)
    else fs[i].entry.slot == fs[i - 1].entry.slot + 1 && fs[i].entry.prevHash == fs[i - 1].selfHash
  }

  /** What the verify-on-read pass accepts. */
  predicate Verifies(fs: seq<Loaded>, a: Option<Anchor>) {
    forall i :: 0 <= i < |fs| ==> Links(fs, a, i)
  }

  lemma {:induction false} VerifiedSeq(fs: seq<Loaded>, a: Option<Anchor>, i: nat)
    requires Verifies(fs, a) && i < |fs|
    ensures fs[i].entry.slot == Base(a) + i
  {
    assert Links(fs, a, i);
    if i > 0 {
      VerifiedSeq(fs, a, i - 1);
    }
  }

  ghost predicate HonestLoad(fs: seq<Loaded>, decode: Blob -> Entry, h: Blob -> Hash) {
    forall i :: 0 <= i < |fs| ==> fs[i].entry == decode(fs[i].raw) && fs[i].selfHash == h(fs[i].raw)
  }

  /** The tail hash commits to the whole log: whatever the decoder, two logs that verify from the
      same anchor and end in the same self-hash hold the same bytes in every slot. */
  lemma {:induction false} TailCommitsToLog(a: seq<Loaded>, b: seq<Loaded>, anch: Option<Anchor>,
                                            decode: Blob -> Entry, h: Blob -> Hash)
    requires Injective(h) && HonestLoad(a, decode, h) && HonestLoad(b, decode, h)
    requires Verifies(a, anch) && Verifies(b, anch) && a != [] && b != []
    requires a[|a| - 1].selfHash == b[|b| - 1].selfHash
    ensures |a| == |b|
    ensures forall i :: 0 <= i < |a| ==> a[i].raw == b[i].raw && a[i].entry == b[i].entry && a[i].selfHash == b[i].selfHash
  {
    var n, m := |a| - 1, |b| - 1;
    assert a[n].raw == b[m].raw && a[n].entry == b[m].entry;
    VerifiedSeq(a, anch, n);
    VerifiedSeq(b, anch, m);
    if n > 0 {
      assert Links(a, anch, n) && Links(b, anch, n);
      var a', b' := a[..n], b[..n];
      assert forall i :: 0 <= i < n ==> Links(a, anch, i) ==> Links(a', anch, i);
      assert forall i :: 0 <= i < n ==> Links(b, anch, i) ==> Links(b', anch, i);
      TailCommitsToLog(a', b', anch, decode, h);
      forall i | 0 <= i < |a|
        ensures a[i].raw == b[i].raw && a[i].entry == b[i].entry && a[i].selfHash == b[i].selfHash
      {
        if i < n {
          assert a[i] == a'[i] && b[i] == b'[i];
        }
      }
    }
  }

  /** Tamper evidence: rewriting the bytes of any entry but the last breaks verification. */
  lemma TamperBreaksChain(fs: seq<Loaded>, anch: Option<Anchor>, decode: Blob -> Entry, h: Blob -> Hash,
                          k: nat, raw: Blob, st: State)
    requires Injective(h) && HonestLoad(fs, decode, h) && Verifies(fs, anch)
    requires k < |fs| - 1 && raw != fs[k].raw
    ensures !Verifies(fs[k := Loaded(raw, decode(raw), h(raw), st)], anch)
  {
    var gs := fs[k := Loaded(raw, decode(raw), h(raw), st)];
    if Verifies(gs, anch) {
      TailCommitsToLog(fs, gs, anch, decode, h);
      assert false;
    }
  }

  // ---- logs as stored --------------------------------------------------------------------

  ghost predicate ChainedView(v: LogView) {
    forall i :: 0 <= i < |v.recs| ==> Linked(v, i)
  }

  predicate Linked(v: LogView, i: nat)
    requires i < |v.recs|
  {
    && v.recs[i].entry.slot == Base(v.anchor) + i
    && v.recs[i].entry.prevHash == (if i == 0 then Link(v.anchor) else SelfHash(v.recs[i - 1].entry))
  }

  /** The chain only looks at entries, so two logs with the same entries are chained alike. */
  lemma SameEntriesSameChain(v: LogView, w: LogView)
    requires ChainedView(v) && v.anchor == w.anchor && |v.recs| == |w.recs|
    requires forall i :: 0 <= i < |v.recs| ==> v.recs[i].entry == w.recs[i].entry
    ensures ChainedView(w)
  {
    forall i | 0 <= i < |w.recs|
      ensures Linked(w, i)
    {
      assert Linked(v, i);
      assert w.recs[i].entry == v.recs[i].entry;
      if i > 0 {
        assert w.recs[i - 1].entry == v.recs[i - 1].entry;
      }
    }
  }

  /** The highest anchor marker, and every anchor marker names its own sequence number. */
  ghost predicate AnchorIs(store: Store, a: Option<Anchor>) {
    && (forall s: nat :: AnchorMark(s) in store ==> store[AnchorMark(s)].AnchorFile? && store[AnchorMark(s)].slot == s)
    && (forall s: nat :: AnchorMark(s) in store ==> a.Some? && s <= a.value.slot)
    && (a.Some? ==> AnchorMark(a.value.slot) in store && store[AnchorMark(a.value.slot)] == AnchorFile(a.value.slot, a.value.hash))
  }

  ghost predicate SlotsAre(store: Store, v: LogView) {
    && (forall s: nat :: Slot(s) in store ==> store[Slot(s)].EntryFile? && store[Slot(s)].entry.slot == s && s < Next(v))
    && (forall s: nat :: Base(v.anchor) <= s < Next(v) ==> Slot(s) in store && store[Slot(s)] == EntryFile(v.recs[s - Base(v.anchor)].entry))
  }

  ghost predicate StatesAre(store: Store, v: LogView) {
    forall i :: 0 <= i < |v.recs| ==> v.recs[i].state == MarkState(store, Base(v.anchor) + i)
  }

  /** No slot that is still free already has a marker waiting for it. */
  ghost predicate NoStaleMarker(store: Store, v: LogView) {
    forall s: nat :: DoneMark(s) in store || FailedMark(s) in store ==> s < Next(v)
  }

  /** A verified read of the store yields v. */
  ghost predicate Reads(store: Store, v: LogView) {
    && AnchorIs(store, v.anchor)
    && SlotsAre(store, v)
    && StatesAre(store, v)
    && ChainedView(v)
  }

  ghost predicate Represents(store: Store, v: LogView) {
    Reads(store, v) && NoStaleMarker(store, v)
  }

  /** A store has at most one reading. */
  lemma ReadsUnique(store: Store, v: LogView, w: LogView)
    requires Reads(store, v) && Reads(store, w)
    ensures v == w
  {
    assert v.anchor == w.anchor;
    assert Next(v) < Next(w) ==> Slot(Next(v)) in store;
    assert Next(w) < Next(v) ==> Slot(Next(w)) in store;
    forall i | 0 <= i < |v.recs|
      ensures v.recs[i] == w.recs[i]
    {
      assert store[Slot(Base(v.anchor) + i)] == EntryFile(v.recs[i].entry);
    }
  }

  // ---- the lock discipline ---------------------------------------------------------------

  ghost predicate DistinctOps(v: LogView) {
    forall i, j :: 0 <= i < j < |v.recs| ==> v.recs[i].entry.opID != v.recs[j].entry.opID
  }

  /** Once a later op got hold of a shared blob, the earlier one is no longer an intent. */
  ghost predicate LockOrder(v: LogView) {
    forall i, j :: 0 <= i < j < |v.recs| && SharesBlob(v.recs[i].entry.blobRefs, v.recs[j].entry.blobRefs)
      ==> v.recs[i].state != Intent
  }

  ghost predicate Disciplined(v: LogView) {
    DistinctOps(v) && LockOrder(v)
  }

  /** The lock itself: no two pending intents hold the same blob. */
  lemma LockIsExclusive(v: LogView, i: nat, j: nat, ref: string)
    requires Disciplined(v) && i < |v.recs| && j < |v.recs|
    requires v.recs[i].state == Intent && v.recs[j].state == Intent
    requires ref in v.recs[i].entry.blobRefs && ref in v.recs[j].entry.blobRefs
    ensures i == j
  {
    var a, b := if i < j then i else j, if i < j then j else i;
    var k :| 0 <= k < |v.recs[a].entry.blobRefs| && v.recs[a].entry.blobRefs[k] == ref;
    assert SharesBlob(v.recs[a].entry.blobRefs, v.recs[b].entry.blobRefs);
  }

  function HasOp(v: LogView, opID: string): bool {
    exists i :: 0 <= i < |v.recs| && v.recs[i].entry.opID == opID
  }

  predicate Blocked(v: LogView, refs: seq<string>) {
    exists i :: 0 <= i < |v.recs| && v.recs[i].state == Intent && SharesBlob(v.recs[i].entry.blobRefs, refs)
  }

  /** The first record at or after i with the given op id. */
  function FindOp(v: LogView, opID: string, i: nat := 0): (r: Option<nat>)
    requires i <= |v.recs|
    ensures r.Some? ==> i <= r.value < |v.recs| && v.recs[r.value].entry.opID == opID
    ensures r.Some? ==> forall k :: i <= k < r.value ==> v.recs[k].entry.opID != opID
    ensures r.None? ==> forall k :: i <= k < |v.recs| ==> v.recs[k].entry.opID != opID
    decreases |v.recs| - i
  {
    if i == |v.recs| then None
    else if v.recs[i].entry.opID == opID then Some(i)
    else FindOp(v, opID, i + 1)
  }

  /** The first pending intent at or after i that holds one of the given blobs. */
  function FindHolder(v: LogView, refs: seq<string>, i: nat := 0): (r: Option<nat>)
    requires i <= |v.recs|
    ensures r.Some? ==> i <= r.value < |v.recs| && v.recs[r.value].state == Intent && SharesBlob(v.recs[r.value].entry.blobRefs, refs)
    ensures r.None? ==> forall k :: i <= k < |v.recs| ==> v.recs[k].state != Intent || !SharesBlob(v.recs[k].entry.blobRefs, refs)
    decreases |v.recs| - i
  {
    if i == |v.recs| then None
    else if v.recs[i].state == Intent && SharesBlob(v.recs[i].entry.blobRefs, refs) then Some(i)
    else FindHolder(v, refs, i + 1)
  }

  /** The entry an append writes into the next slot. */
  function Candidate(v: LogView, e: Entry): Entry {
    e.(slot := Next(v), prevHash := TailHash(v))
  }

  function AppendRec(v: LogView, e: Entry): LogView {
    v.(recs := v.recs + [Rec(Candidate(v, e), Intent)])
  }

  /** What an append answers, and the log it leaves, when no other client is active. */
  datatype AppendResult = Fresh(rec: Rec) | Duplicate(rec: Rec) | Held(rec: Rec)

  function Append(v: LogView, e: Entry): (AppendResult, LogView) {
    var dup, holder := FindOp(v, e.opID), FindHolder(v, e.blobRefs);
    if dup.Some? then (Duplicate(v.recs[dup.value]), v)
    else if holder.Some? then (Held(v.recs[holder.value]), v)
    else (Fresh(Rec(Candidate(v, e), Intent)), AppendRec(v, e))
  }

  /** States only move forward: intent to failed to done. */
  predicate StateLe(a: State, b: State) {
    a == b || a == Intent || b == Done
  }

  /** w is a later reading of the log that v read, with no pruning in between. */
  ghost predicate Extends(v: LogView, w: LogView) {
    && v.anchor == w.anchor
    && |v.recs| <= |w.recs|
    && forall i :: 0 <= i < |v.recs| ==> v.recs[i].entry == w.recs[i].entry && StateLe(v.recs[i].state, w.recs[i].state)
  }

  lemma ExtendsTransitive(u: LogView, v: LogView, w: LogView)
    requires Extends(u, v) && Extends(v, w)
    ensures Extends(u, w)
  {
    forall i | 0 <= i < |u.recs|
      ensures u.recs[i].entry == w.recs[i].entry && StateLe(u.recs[i].state, w.recs[i].state)
    {
      assert u.recs[i].entry == v.recs[i].entry;
      assert v.recs[i].entry == w.recs[i].entry;
    }
  }

  /** Appending where the op is new and unblocked keeps the chain and the discipline. */
  lemma AppendKeeps(v: LogView, e: Entry)
    requires ChainedView(v) && Disciplined(v) && !HasOp(v, e.opID) && !Blocked(v, e.blobRefs)
    ensures ChainedView(AppendRec(v, e)) && Disciplined(AppendRec(v, e)) && Extends(v, AppendRec(v, e))
  {
    var w := AppendRec(v, e);
    var n := |v.recs|;
    forall i | 0 <= i < |w.recs|
      ensures Linked(w, i)
    {
      if i < n {
        assert Linked(v, i) && w.recs[i] == v.recs[i];
        assert i > 0 ==> w.recs[i - 1] == v.recs[i - 1];
      } else {
        assert i > 0 ==> w.recs[i - 1] == v.recs[i - 1];
      }
    }
    forall i, j | 0 <= i < j < |w.recs| && SharesBlob(w.recs[i].entry.blobRefs, w.recs[j].entry.blobRefs)
      ensures w.recs[i].state != Intent
    {
      assert w.recs[i] == v.recs[i];
      if j < n {
        assert w.recs[j] == v.recs[j];
      }
    }
    forall i, j | 0 <= i < j < |w.recs|
      ensures w.recs[i].entry.opID != w.recs[j].entry.opID
    {
      assert w.recs[i] == v.recs[i];
    }
  }

  lemma PutSlotSlots(store: Store, v: LogView, e: Entry)
    requires SlotsAre(store, v)
    ensures SlotsAre(store[Slot(Next(v)) := EntryFile(Candidate(v, e))], AppendRec(v, e))
  {
    var w := AppendRec(v, e);
    var s' := store[Slot(Next(v)) := EntryFile(Candidate(v, e))];
    forall s: nat | Base(w.anchor) <= s < Next(w)
      ensures Slot(s) in s' && s'[Slot(s)] == EntryFile(w.recs[s - Base(w.anchor)].entry)
    {
      if s < Next(v) {
        assert w.recs[s - Base(w.anchor)] == v.recs[s - Base(v.anchor)];
      }
    }
  }

  lemma PutSlotStates(store: Store, v: LogView, e: Entry)
    requires StatesAre(store, v) && NoStaleMarker(store, v)
    ensures StatesAre(store[Slot(Next(v)) := EntryFile(Candidate(v, e))], AppendRec(v, e))
    ensures NoStaleMarker(store[Slot(Next(v)) := EntryFile(Candidate(v, e))], AppendRec(v, e))
  {
    var w := AppendRec(v, e);
    var s' := store[Slot(Next(v)) := EntryFile(Candidate(v, e))];
    forall i | 0 <= i < |w.recs|
      ensures w.recs[i].state == MarkState(s', Base(w.anchor) + i)
    {
      if i < |v.recs| {
        assert w.recs[i] == v.recs[i];
      }
    }
  }

  lemma PutSlotAnchor(store: Store, v: LogView, b: Blob)
    requires AnchorIs(store, v.anchor)
    ensures AnchorIs(store[Slot(Next(v)) := b], v.anchor)
  {
  }

  /** Writing the slot file turns a store that reads as v into one that reads as the append. */
  lemma PutSlotRepresents(store: Store, v: LogView, e: Entry)
    requires Represents(store, v) && Disciplined(v) && !HasOp(v, e.opID) && !Blocked(v, e.blobRefs)
    ensures Represents(store[Slot(Next(v)) := EntryFile(Candidate(v, e))], AppendRec(v, e))
    ensures Slot(Next(v)) !in store
  {
    assert ChainedView(AppendRec(v, e)) by {
      AppendKeeps(v, e);
    }
    PutSlotSlots(store, v, e);
    PutSlotStates(store, v, e);
    PutSlotAnchor(store, v, EntryFile(Candidate(v, e)));
  }

  // ---- markers ---------------------------------------------------------------------------

  function MarkKey(s: nat, done: bool): Key {
    if done then DoneMark(s) else FailedMark(s)
  }

  /** The state of a slot after a marker is added to it. */
  function AfterMark(st: State, s: nat, done: bool): State {
    if s >= MARKER_LIMIT then st
    else if done then Done
    else if st == Intent then Failed
    else st
  }

  function MarkRec(v: LogView, i: nat, done: bool): LogView
    requires i < |v.recs|
  {
    v.(recs := v.recs[i := v.recs[i].(state := AfterMark(v.recs[i].state, Base(v.anchor) + i, done))])
  }

  lemma MarkKeeps(v: LogView, i: nat, done: bool)
    requires ChainedView(v) && Disciplined(v) && i < |v.recs|
    ensures var w := MarkRec(v, i, done); ChainedView(w) && Disciplined(w) && Extends(v, w)
  {
    var w := MarkRec(v, i, done);
    assert forall k :: 0 <= k < |v.recs| ==> w.recs[k].entry == v.recs[k].entry;
    assert forall k :: 0 <= k < |v.recs| ==> StateLe(v.recs[k].state, w.recs[k].state);
    SameEntriesSameChain(v, w);
  }

  lemma MarkStates(store: Store, v: LogView, i: nat, done: bool, s': Store)
    requires StatesAre(store, v) && i < |v.recs|
    requires MarkKey(Base(v.anchor) + i, done) in s'
    requires forall k :: k in store ==> k in s'
    requires forall k :: k in s' && k != MarkKey(Base(v.anchor) + i, done) ==> k in store
    ensures StatesAre(s', MarkRec(v, i, done))
  {
    var w := MarkRec(v, i, done);
    forall j | 0 <= j < |w.recs|
      ensures w.recs[j].state == MarkState(s', Base(w.anchor) + j)
    {
      var n := Base(v.anchor) + j;
      assert v.recs[j].state == MarkState(store, n);
      assert DoneMark(n) in s' <==> DoneMark(n) in store || (j == i && done);
      assert FailedMark(n) in s' <==> FailedMark(n) in store || (j == i && !done);
    }
  }

  lemma MarkSlots(store: Store, v: LogView, i: nat, done: bool, s': Store)
    requires SlotsAre(store, v) && i < |v.recs|
    requires forall n: nat :: Slot(n) in s' <==> Slot(n) in store
    requires forall n: nat :: Slot(n) in store ==> s'[Slot(n)] == store[Slot(n)]
    ensures SlotsAre(s', MarkRec(v, i, done))
  {
    var w := MarkRec(v, i, done);
    forall n: nat | Base(w.anchor) <= n < Next(w)
      ensures Slot(n) in s' && s'[Slot(n)] == EntryFile(w.recs[n - Base(w.anchor)].entry)
    {
      assert w.recs[n - Base(w.anchor)].entry == v.recs[n - Base(v.anchor)].entry;
    }
  }

  /** Writing a marker file, whether or not it was there before, reads as the marked log. */
  lemma PutMarkRepresents(store: Store, v: LogView, i: nat, done: bool, b: Blob)
    requires Represents(store, v) && Disciplined(v) && i < |v.recs|
    ensures var k := MarkKey(Base(v.anchor) + i, done);
            var s' := if k in store then store else store[k := b];
            Represents(s', MarkRec(v, i, done))
  {
    var k := MarkKey(Base(v.anchor) + i, done);
    var s' := if k in store then store else store[k := b];
    var w := MarkRec(v, i, done);
    MarkStates(store, v, i, done, s');
    MarkSlots(store, v, i, done, s');
    assert ChainedView(w) by { MarkKeeps(v, i, done); }
    assert AnchorIs(s', w.anchor);
    assert NoStaleMarker(s', w);
  }

  /** A done marker takes effect exactly on the slots whose marker name a reader can parse. */
  lemma MarkDoneTakesEffect(store: Store, v: LogView, i: nat, b: Blob)
    requires Represents(store, v) && Disciplined(v) && i < |v.recs| && v.recs[i].state != Done
    ensures MarkState(store[DoneMark(Base(v.anchor) + i) := b], Base(v.anchor) + i) == Done
       <==> Base(v.anchor) + i < MARKER_LIMIT
  {
    var n := Base(v.anchor) + i;
    assert v.recs[i].state == MarkState(store, n);
  }

  /** The log after marking an op, if it has such an op. */
  function MarkOp(v: LogView, opID: string, done: bool): LogView {
    var at := FindOp(v, opID);
    if at.Some? then MarkRec(v, at.value, done) else v
  }

  lemma AppendFresh(v: LogView, e: Entry)
    requires !HasOp(v, e.opID) && !Blocked(v, e.blobRefs)
    ensures Append(v, e) == (Fresh(Rec(Candidate(v, e), Intent)), AppendRec(v, e))
  {
  }

  /** A new op that completes leaves one more done record. */
  lemma CompletedOp(v: LogView, e: Entry)
    requires !HasOp(v, e.opID) && !Blocked(v, e.blobRefs) && Next(v) < MARKER_LIMIT
    ensures var w := MarkOp(Append(v, e).1, e.opID, true);
            w.anchor == v.anchor && w.recs == v.recs + [Rec(Candidate(v, e), Done)]
  {
    AppendFresh(v, e);
    var a := AppendRec(v, e);
    var n := |v.recs|;
    assert a.recs[n].entry.opID == e.opID;
    assert forall k :: 0 <= k < n ==> a.recs[k].entry.opID != e.opID;
    assert FindOp(a, e.opID) == Some(n);
  }

  lemma MarkedFinds(v: LogView, opID: string, done: bool)
    ensures FindOp(MarkOp(v, opID, done), opID) == FindOp(v, opID)
    ensures HasOp(MarkOp(v, opID, done), opID) <==> HasOp(v, opID)
  {
    var at := FindOp(v, opID);
    if at.Some? {
      var w := MarkRec(v, at.value, done);
      assert forall k :: 0 <= k < |v.recs| ==> w.recs[k].entry == v.recs[k].entry;
      assert w.recs[at.value].entry.opID == opID;
      assert FindOp(w, opID) == Some(at.value);
    }
  }

  /** Marking again changes nothing, and done overrides failed. */
  lemma MarkTwice(v: LogView, opID: string)
    ensures MarkOp(MarkOp(v, opID, true), opID, true) == MarkOp(v, opID, true)
    ensures MarkOp(MarkOp(v, opID, false), opID, true) == MarkOp(v, opID, true)
    ensures MarkOp(MarkOp(v, opID, false), opID, false) == MarkOp(v, opID, false)
    ensures HasOp(MarkOp(v, opID, true), opID) <==> HasOp(v, opID)
  {
    MarkedFinds(v, opID, true);
    MarkedFinds(v, opID, false);
  }

  /** Marking one op and appending another commute. */
  lemma MarkAppendCommute(v: LogView, e: Entry, id: string)
    requires !HasOp(v, e.opID) && !Blocked(v, e.blobRefs) && id != e.opID
    ensures MarkOp(Append(v, e).1, id, true) == Append(MarkOp(v, id, true), e).1
    ensures !HasOp(MarkOp(v, id, true), e.opID) && !Blocked(MarkOp(v, id, true), e.blobRefs)
  {
    var w := MarkOp(v, id, true);
    AppendFresh(v, e);
    assert forall k :: 0 <= k < |v.recs| ==> w.recs[k].entry == v.recs[k].entry && (w.recs[k].state == Intent ==> v.recs[k].state == Intent);
    assert !HasOp(w, e.opID) && !Blocked(w, e.blobRefs);
    AppendFresh(w, e);
    var a := AppendRec(v, e);
    var at := FindOp(v, id);
    assert forall k :: 0 <= k < |v.recs| ==> a.recs[k] == v.recs[k];
    assert a.recs[|v.recs|].entry.opID == e.opID;
    assert FindOp(a, id) == at;
    assert Candidate(w, e) == Candidate(v, e);
  }

  lemma {:induction false} SameEntriesFind(v: LogView, w: LogView, opID: string, i: nat)
    requires |v.recs| == |w.recs| && i <= |v.recs| && forall j :: 0 <= j < |v.recs| ==> w.recs[j].entry == v.recs[j].entry
    ensures FindOp(w, opID, i) == FindOp(v, opID, i)
    ensures HasOp(w, opID) <==> HasOp(v, opID)
    decreases |v.recs| - i
  {
    if i < |v.recs| && v.recs[i].entry.opID != opID {
      SameEntriesFind(v, w, opID, i + 1);
    }
  }

  lemma MarkKeepsEntries(v: LogView, id: string, opID: string)
    ensures var w := MarkOp(v, id, true); |w.recs| == |v.recs| && FindOp(w, opID) == FindOp(v, opID) && w.anchor == v.anchor
    ensures forall j :: 0 <= j < |v.recs| ==> MarkOp(v, id, true).recs[j].entry == v.recs[j].entry
  {
    var w := MarkOp(v, id, true);
    assert forall i :: 0 <= i < |v.recs| ==> w.recs[i].entry == v.recs[i].entry;
    SameEntriesFind(v, w, opID, 0);
  }

  /** Markers commute. */
  lemma MarkCommute(v: LogView, a: string, b: string)
    ensures MarkOp(MarkOp(v, a, true), b, true) == MarkOp(MarkOp(v, b, true), a, true)
  {
    MarkKeepsEntries(v, a, b);
    MarkKeepsEntries(v, b, a);
    var x, y := MarkOp(MarkOp(v, a, true), b, true), MarkOp(MarkOp(v, b, true), a, true);
    if a != b {
      assert x.recs == y.recs;
    }
  }

  // ---- pruning ---------------------------------------------------------------------------

  /** How many leading entries are both done and older than the cutoff. */
  function PrunePrefix(v: LogView, cutoff: int, i: nat := 0): (n: nat)
    requires i <= |v.recs|
    ensures i <= n <= |v.recs|
    ensures forall k :: i <= k < n ==> v.recs[k].state == Done && v.recs[k].entry.createdAt < cutoff
    ensures n < |v.recs| ==> v.recs[n].state != Done || v.recs[n].entry.createdAt >= cutoff
    decreases |v.recs| - i
  {
    if i < |v.recs| && v.recs[i].state == Done && v.recs[i].entry.createdAt < cutoff
    then PrunePrefix(v, cutoff, i + 1) else i
  }

  function LastAnchor(v: LogView, n: nat): Anchor
    requires 0 < n <= |v.recs|
  {
    Anchor(v.recs[n - 1].entry.slot, SelfHash(v.recs[n - 1].entry))
  }

  function Pruned(v: LogView, n: nat): LogView
    requires n <= |v.recs|
  {
    if n == 0 then v else LogView(Some(LastAnchor(v, n)), v.recs[n..])
  }

  /** Pruning keeps the chain, the discipline, the next slot and its link, and every survivor. */
  lemma PrunedKeeps(v: LogView, n: nat)
    requires ChainedView(v) && Disciplined(v) && n <= |v.recs|
    ensures var w := Pruned(v, n);
            ChainedView(w) && Disciplined(w) && Next(w) == Next(v) && TailHash(w) == TailHash(v) && w.recs == v.recs[n..]
  {
    var w := Pruned(v, n);
    if n > 0 {
      assert Linked(v, n - 1);
      forall i | 0 <= i < |w.recs|
        ensures Linked(w, i)
      {
        assert Linked(v, n + i);
        assert w.recs[i] == v.recs[n + i];
      }
      forall i, j | 0 <= i < j < |w.recs|
        ensures w.recs[i].entry.opID != w.recs[j].entry.opID
        ensures SharesBlob(w.recs[i].entry.blobRefs, w.recs[j].entry.blobRefs) ==> w.recs[i].state != Intent
      {
        assert w.recs[i] == v.recs[n + i] && w.recs[j] == v.recs[n + j];
      }
    }
  }

  /** The first write of a prune: from here on the store reads as the pruned log. */
  lemma AnchorPutRepresents(store: Store, v: LogView, n: nat)
    requires Represents(store, v) && Disciplined(v) && 0 < n <= |v.recs|
    ensures var a := LastAnchor(v, n);
            AnchorMark(a.slot) !in store
            && Represents(store[AnchorMark(a.slot) := AnchorFile(a.slot, a.hash)], Pruned(v, n))
  {
    PrunedKeeps(v, n);
    var a, w := LastAnchor(v, n), Pruned(v, n);
    var s' := store[AnchorMark(a.slot) := AnchorFile(a.slot, a.hash)];
    assert Linked(v, n - 1);
    assert AnchorIs(s', w.anchor);
    assert SlotsAre(s', w) by {
      forall s: nat | Base(w.anchor) <= s < Next(w)
        ensures Slot(s) in s' && s'[Slot(s)] == EntryFile(w.recs[s - Base(w.anchor)].entry)
      {
        assert w.recs[s - Base(w.anchor)] == v.recs[s - Base(v.anchor)];
      }
    }
    assert StatesAre(s', w) by {
      forall i | 0 <= i < |w.recs|
        ensures w.recs[i].state == MarkState(s', Base(w.anchor) + i)
      {
        assert w.recs[i] == v.recs[n + i];
        assert v.recs[n + i].state == MarkState(store, Base(v.anchor) + (n + i));
      }
    }
  }

  /** Files at or below the live anchor, other than that anchor, may go at any time. */
  lemma DeleteBelowRepresents(store: Store, v: LogView, k: Key)
    requires Represents(store, v) && v.anchor.Some?
    requires match k
             case Slot(s) => s <= v.anchor.value.slot
             case DoneMark(s) => s <= v.anchor.value.slot
             case AnchorMark(s) => s < v.anchor.value.slot
             case _ => false
    ensures Represents(store - {k}, v)
  {
    var s' := store - {k};
    assert SlotsAre(s', v) by {
      assert forall s: nat :: Base(v.anchor) <= s < Next(v) ==> Slot(s) in store && Slot(s) != k;
    }
    assert StatesAre(s', v) by {
      forall i | 0 <= i < |v.recs|
        ensures v.recs[i].state == MarkState(s', Base(v.anchor) + i)
      {
        assert v.recs[i].state == MarkState(store, Base(v.anchor) + i);
      }
    }
  }

  /** What a reader gets that listed the keys before the anchor was written and fetched them after the
      deletes: entries that are gone are skipped, and the new anchor was not in the listing. */
  function ListedBeforePrune(store: Store, v: LogView, n: nat): Store {
    map k | k in store && !(k.Slot? && Base(v.anchor) <= k.slot < Base(v.anchor) + n) :: store[k]
  }

  /** It sees a broken chain if and only if the prune left an entry standing. If the whole log was pruned it
      sees the log as it was before the pruned entries, whose slots it takes to be free. */
  lemma ListedBeforePruneBreaksIff(store: Store, v: LogView, n: nat)
    requires Represents(store, v) && 0 < n <= |v.recs|
    ensures (forall w :: !Reads(ListedBeforePrune(store, v, n), w)) <==> n < |v.recs|
    ensures n == |v.recs| ==> Reads(ListedBeforePrune(store, v, n), LogView(v.anchor, []))
  {
    var t := ListedBeforePrune(store, v, n);
    var base := Base(v.anchor);
    if n < |v.recs| {
      assert Slot(base + n) in store && Slot(base + n) in t && Slot(base) !in t;
      forall w
        ensures !Reads(t, w)
      {
        assert AnchorIs(t, w.anchor) ==> w.anchor == v.anchor;
        assert Reads(t, w) ==> base + n < Next(w);
      }
    } else {
      var w := LogView(v.anchor, []);
      assert AnchorIs(t, v.anchor);
      assert SlotsAre(t, w);
      assert Reads(t, w);
    }
  }
}
