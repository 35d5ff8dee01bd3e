/** Any number of clients racing on one log. A client is a step machine: list the keys, get the
    files one by one, decide, put the next slot if it is absent, read it back, and retry when
    another client owns it. A store call is one atomic step; between any two steps of one client
    every other client may take steps of its own. */
module WalRace {
  import opened Wrappers
  import opened Wal

  /** How often an append tries before giving up. */
  const MAX_APPEND_RETRIES: nat := 256

  datatype Job = AppendIntent(e: Entry) | MarkOp(opID: string, done: bool)

  datatype Outcome =
    | Appended(rec: Rec) | DuplicateOp(rec: Rec) | OpInFlight(rec: Rec)
    | Marked | ChainBroken | NotConverged

  datatype Client =
    | Idle
    | Listing(job: Job, tries: nat)
    | Loading(job: Job, tries: nat, keys: set<Key>, got: map<Key, Blob>)
    | Putting(e: Entry, cand: Entry, tries: nat)
    | ReadingBack(e: Entry, cand: Entry, tries: nat)
    | Statting(slot: nat, opID: string, done: bool)
    | PuttingMark(slot: nat, opID: string, done: bool)
    | Finished(outcome: Outcome)

  datatype Sys = Sys(store: Store, clients: seq<Client>)

  datatype Act = Begin(job: Job) | List | Get(key: Key) | Decide | Put | ReadBack | Stat | PutMark

  /** One atomic step: client c performs act. */
  datatype Event = Event(c: nat, act: Act)

  predicate IsWalKey(k: Key) {
    !k.OtherKey?
  }

  /** Only slots and anchors are fetched; for markers the name in the listing is enough. */
  predicate IsFetched(k: Key) {
    k.Slot? || k.AnchorMark?
  }

  predicate AllFetched(keys: set<Key>, got: map<Key, Blob>) {
    forall k :: k in keys && IsFetched(k) ==> k in got
  }

  /** The store as a loader sees it once every fetch is in. */
  function Snapshot(keys: set<Key>, got: map<Key, Blob>): Store {
    map k | k in keys :: if k in got then got[k] else OtherFile("")
  }

  function Retry(e: Entry, tries: nat): Client {
    if tries + 1 < MAX_APPEND_RETRIES then Listing(AppendIntent(e), tries + 1) else Finished(NotConverged)
  }

  /** What a client does with a verified reading of the log. */
  function Verdict(job: Job, tries: nat, v: LogView): Client {
    match job
    case AppendIntent(e) =>
      var dup := FindOp(v, e.opID);
      if dup.Some? then Finished(DuplicateOp(v.recs[dup.value])) else
      var holder := FindHolder(v, e.blobRefs);
      if holder.Some? then Finished(OpInFlight(v.recs[holder.value])) else
      Putting(e, Candidate(v, e), tries)
    case MarkOp(opID, done) =>
      var at := FindOp(v, opID);
      if at.Some? then Statting(v.recs[at.value].entry.slot, opID, done) else Finished(Marked)
  }

  ghost function Do(store: Store, pc: Client, act: Act): (Store, Client) {
    match (pc, act)
    case (Idle, Begin(job)) => (store, Listing(job, 0))
    case (Finished(_), Begin(job)) => (store, Listing(job, 0))
    case (Listing(job, tries), List) => (store, Loading(job, tries, set k | k in store && IsWalKey(k), map[]))
    case (Loading(job, tries, keys, got), Get(k)) =>
      if k !in keys || k in got || !IsFetched(k) then (store, pc)
      else if k in store then (store, Loading(job, tries, keys, got[k := store[k]]))
      else (store, Loading(job, tries, keys - {k}, got))
    case (Loading(job, tries, keys, got), Decide) =>
      if !AllFetched(keys, got) then (store, pc)
      else if v :| Reads(Snapshot(keys, got), v) then (store, Verdict(job, tries, v))
      else (store, Finished(ChainBroken))
    case (Putting(e, cand, tries), Put) =>
      (if Slot(cand.slot) in store then store else store[Slot(cand.slot) := EntryFile(cand)], ReadingBack(e, cand, tries))
    case (ReadingBack(e, cand, tries), ReadBack) =>
      if Slot(cand.slot) !in store then (store, Retry(e, tries))
      else if !store[Slot(cand.slot)].EntryFile? then (store, Finished(ChainBroken))
      else if store[Slot(cand.slot)].entry.opID == cand.opID then (store, Finished(Appended(Rec(cand, Intent))))
      else (store, Retry(e, tries))
    case (Statting(slot, opID, done), Stat) =>
      if MarkKey(slot, done) in store then (store, Finished(Marked)) else (store, PuttingMark(slot, opID, done))
    case (PuttingMark(slot, opID, done), PutMark) =>
      var k := MarkKey(slot, done);
      (if k in store then store else store[k := MarkerFile(slot, opID, if done then Done else Failed)], Finished(Marked))
    case _ => (store, pc)
  }

  ghost function Next1(s: Sys, ev: Event): Sys {
    if ev.c < |s.clients| then
      var r := Do(s.store, s.clients[ev.c], ev.act);
      Sys(r.0, s.clients[ev.c := r.1])
    else s
  }

  ghost function Run(s: Sys, trace: seq<Event>): Sys
    decreases |trace|
  {
    if trace == [] then s else Run(Next1(s, trace[0]), trace[1..])
  }

  // ---- the invariant ---------------------------------------------------------------------

  function Restrict(store: Store, keys: set<Key>): Store {
    map k | k in keys && k in store :: store[k]
  }

  /** w was the log when the keys were listed, and v is what it has grown to. */
  ghost predicate Earlier(store: Store, keys: set<Key>, w: LogView, v: LogView) {
    Represents(Restrict(store, keys), w) && Disciplined(w) && Extends(w, v)
  }

  /** The candidate was computed from an earlier reading in which the op was new and unblocked. */
  ghost predicate Claims(w: LogView, v: LogView, e: Entry, cand: Entry) {
    Extends(w, v) && !HasOp(w, e.opID) && !Blocked(w, e.blobRefs) && cand == Candidate(w, e)
  }

  /** The slot belongs to an op with this id. */
  ghost predicate Owns(v: LogView, slot: nat, opID: string) {
    Base(v.anchor) <= slot < Next(v) && v.recs[slot - Base(v.anchor)].entry.opID == opID
  }

  /** The slot holds an entry linked exactly where the client linked its own. */
  ghost predicate Placed(v: LogView, cand: Entry) {
    Base(v.anchor) <= cand.slot < Next(v) && v.recs[cand.slot - Base(v.anchor)].entry.prevHash == cand.prevHash
  }

  ghost predicate InLog(v: LogView, rec: Rec) {
    exists i :: 0 <= i < |v.recs| && v.recs[i].entry == rec.entry && StateLe(rec.state, v.recs[i].state)
  }

  ghost predicate OutcomeOk(v: LogView, o: Outcome) {
    match o
    case Appended(rec) => Owns(v, rec.entry.slot, rec.entry.opID) && Placed(v, rec.entry)
    case DuplicateOp(rec) => InLog(v, rec)
    case OpInFlight(rec) => InLog(v, rec) && rec.state == Intent
    case Marked => true
    case NotConverged => true
    case ChainBroken => false
  }

  ghost predicate ClientOk(store: Store, v: LogView, pc: Client) {
    match pc
    case Idle => true
    case Listing(_, _) => true
    case Loading(_, _, keys, got) =>
      && keys <= store.Keys && got.Keys <= keys
      && (forall k :: k in got ==> got[k] == store[k])
      && exists w :: Earlier(store, keys, w, v)
    case Putting(e, cand, _) => exists w :: Claims(w, v, e, cand)
    case ReadingBack(e, cand, _) => Placed(v, cand)
    case Statting(slot, opID, _) => Owns(v, slot, opID)
    case PuttingMark(slot, opID, _) => Owns(v, slot, opID)
    case Finished(o) => OutcomeOk(v, o)
  }

  ghost predicate Inv(s: Sys, v: LogView) {
    && Represents(s.store, v)
    && Disciplined(v)
    && forall c :: 0 <= c < |s.clients| ==> ClientOk(s.store, v, s.clients[c])
  }

  /** A start: a well-formed, disciplined log (the empty one, or any that pruning left), idle clients. */
  ghost predicate Init(s: Sys, v: LogView) {
    && Represents(s.store, v)
    && Disciplined(v)
    && forall c :: 0 <= c < |s.clients| ==> s.clients[c].Idle?
  }

  lemma EmptyStoreIsInit(s: Sys)
    requires s.store == map[] && forall c :: 0 <= c < |s.clients| ==> s.clients[c].Idle?
    ensures Init(s, LogView(None, []))
  {
  }

  // ---- preservation ----------------------------------------------------------------------

  /** The store only grows: what was there keeps its bytes. */
  predicate Grows(a: Store, b: Store) {
    forall k :: k in a ==> k in b && b[k] == a[k]
  }

  /** Other clients' steps never invalidate what a client knows. */
  lemma ClientStable(a: Store, v: LogView, b: Store, w: LogView, pc: Client)
    requires ClientOk(a, v, pc) && Grows(a, b) && Extends(v, w)
    ensures ClientOk(b, w, pc)
  {
    match pc
    case Loading(_, _, keys, got) =>
      var u :| Earlier(a, keys, u, v);
      assert Restrict(a, keys) == Restrict(b, keys);
      ExtendsTransitive(u, v, w);
      assert Earlier(b, keys, u, w);
    case Putting(e, cand, _) =>
      var u :| Claims(u, v, e, cand);
      ExtendsTransitive(u, v, w);
      assert Claims(u, w, e, cand);
    case Finished(o) =>
      if o.DuplicateOp? || o.OpInFlight? {
        var i :| 0 <= i < |v.recs| && v.recs[i].entry == o.rec.entry && StateLe(o.rec.state, v.recs[i].state);
        assert w.recs[i].entry == o.rec.entry && StateLe(o.rec.state, w.recs[i].state);
      }
    case _ =>
  }

  /** A reading depends on which markers exist, and on the bytes of slots and anchors only. */
  lemma ReadsIgnoresMarkerBytes(a: Store, b: Store, v: LogView)
    requires Reads(a, v) && a.Keys == b.Keys
    requires forall k :: k in a && IsFetched(k) ==> a[k] == b[k]
    ensures Reads(b, v)
  {
    assert forall n: nat :: Slot(n) in b ==> Slot(n) in a && b[Slot(n)] == a[Slot(n)];
    assert forall n: nat :: AnchorMark(n) in b ==> AnchorMark(n) in a && b[AnchorMark(n)] == a[AnchorMark(n)];
    forall i | 0 <= i < |v.recs|
      ensures v.recs[i].state == MarkState(b, Base(v.anchor) + i)
    {
      assert v.recs[i].state == MarkState(a, Base(v.anchor) + i);
    }
  }

  ghost predicate AgreeOnWal(a: Store, b: Store) {
    forall k :: IsWalKey(k) ==> (k in a <==> k in b) && (k in a ==> a[k] == b[k])
  }

  lemma AgreeStates(a: Store, b: Store, v: LogView)
    requires AgreeOnWal(a, b) && StatesAre(a, v)
    ensures StatesAre(b, v)
  {
    forall i | 0 <= i < |v.recs|
      ensures v.recs[i].state == MarkState(b, Base(v.anchor) + i)
    {
      assert v.recs[i].state == MarkState(a, Base(v.anchor) + i);
      assert IsWalKey(DoneMark(Base(v.anchor) + i)) && IsWalKey(FailedMark(Base(v.anchor) + i));
    }
  }

  lemma AgreeSlots(a: Store, b: Store, v: LogView)
    requires AgreeOnWal(a, b) && SlotsAre(a, v)
    ensures SlotsAre(b, v)
  {
    assert forall n: nat :: IsWalKey(Slot(n));
  }

  lemma AgreeAnchor(a: Store, b: Store, v: LogView)
    requires AgreeOnWal(a, b) && AnchorIs(a, v.anchor)
    ensures AnchorIs(b, v.anchor)
  {
    assert forall n: nat :: IsWalKey(AnchorMark(n));
  }

  lemma AgreeMarkers(a: Store, b: Store, v: LogView)
    requires AgreeOnWal(a, b) && NoStaleMarker(a, v)
    ensures NoStaleMarker(b, v)
  {
    assert forall n: nat :: IsWalKey(DoneMark(n)) && IsWalKey(FailedMark(n));
  }

  /** Keys outside meta/wal/ play no part. */
  lemma WalKeysSuffice(store: Store, v: LogView)
    requires Represents(store, v)
    ensures Represents(Restrict(store, set k | k in store && IsWalKey(k)), v)
  {
    var r := Restrict(store, set k | k in store && IsWalKey(k));
    assert AgreeOnWal(store, r);
    AgreeStates(store, r, v);
    AgreeSlots(store, r, v);
    AgreeAnchor(store, r, v);
    AgreeMarkers(store, r, v);
  }

  lemma Decides(store: Store, v: LogView, pc: Client, w: LogView)
    requires pc.Loading? && ClientOk(store, v, pc) && AllFetched(pc.keys, pc.got) && Earlier(store, pc.keys, w, v)
    ensures Do(store, pc, Decide).1 == Verdict(pc.job, pc.tries, w)
  {
    var snap := Snapshot(pc.keys, pc.got);
    ReadsIgnoresMarkerBytes(Restrict(store, pc.keys), snap, w);
    var u :| Reads(snap, u) && Do(store, pc, Decide).1 == Verdict(pc.job, pc.tries, u);
    ReadsUnique(snap, u, w);
  }

  /** Deciding: the snapshot reads as the log of the moment the keys were listed. */
  lemma DecideOk(store: Store, v: LogView, pc: Client)
    requires pc.Loading? && ClientOk(store, v, pc) && AllFetched(pc.keys, pc.got)
    ensures ClientOk(store, v, Do(store, pc, Decide).1)
  {
    var w :| Earlier(store, pc.keys, w, v);
    Decides(store, v, pc, w);
    VerdictOk(store, w, v, pc.job, pc.tries);
  }

  lemma VerdictOk(store: Store, w: LogView, v: LogView, job: Job, tries: nat)
    requires Extends(w, v) && ChainedView(w)
    ensures ClientOk(store, v, Verdict(job, tries, w))
  {
    match job
    case AppendIntent(e) =>
      var dup := FindOp(w, e.opID);
      var holder := FindHolder(w, e.blobRefs);
      if dup.Some? {
        assert v.recs[dup.value].entry == w.recs[dup.value].entry;
      } else if holder.Some? {
        assert v.recs[holder.value].entry == w.recs[holder.value].entry;
      } else {
        assert Claims(w, v, e, Candidate(w, e));
      }
    case MarkOp(opID, done) =>
      var at := FindOp(w, opID);
      if at.Some? {
        assert Linked(w, at.value);
        assert v.recs[at.value].entry == w.recs[at.value].entry;
      }
  }

  /** The claim: if the slot is still free, nothing has been appended since the reading, so the
      log the entry was computed from is the log it extends. */
  lemma FreeSlotMeansNothingAppended(store: Store, w: LogView, v: LogView, e: Entry, cand: Entry)
    requires Represents(store, v) && Claims(w, v, e, cand) && Slot(cand.slot) !in store
    ensures cand == Candidate(v, e) && cand.slot == Next(v) && !HasOp(v, e.opID) && !Blocked(v, e.blobRefs)
  {
    assert Next(w) < Next(v) ==> Slot(Next(w)) in store;
    assert |w.recs| == |v.recs|;
    forall i | 0 <= i < |v.recs|
      ensures v.recs[i].entry == w.recs[i].entry && StateLe(w.recs[i].state, v.recs[i].state)
    {
      assert w.recs[i].entry == v.recs[i].entry;
    }
  }

  /** A claimed slot that turns out taken is linked to the same predecessor as the claim. */
  lemma ClaimIsPlaced(v: LogView, u: LogView, e: Entry, cand: Entry)
    requires ChainedView(v) && Claims(u, v, e, cand) && Next(u) < Next(v)
    ensures Placed(v, cand)
  {
    var i := |u.recs|;
    assert Linked(v, i);
    assert i > 0 ==> v.recs[i - 1].entry == u.recs[i - 1].entry;
  }

  ghost predicate StepOk(store: Store, v: LogView, pc: Client, act: Act, w: LogView) {
    var r := Do(store, pc, act);
    Represents(r.0, w) && Disciplined(w) && Extends(v, w) && Grows(store, r.0) && ClientOk(r.0, w, r.1)
  }

  lemma PutStep(store: Store, v: LogView, pc: Client) returns (w: LogView)
    requires Represents(store, v) && Disciplined(v) && ClientOk(store, v, pc) && pc.Putting?
    ensures StepOk(store, v, pc, Put, w)
  {
    var Putting(e, cand, _) := pc;
    var u :| Claims(u, v, e, cand);
    if Slot(cand.slot) in store {
      w := v;
      ClaimIsPlaced(v, u, e, cand);
    } else {
      FreeSlotMeansNothingAppended(store, u, v, e, cand);
      PutSlotRepresents(store, v, e);
      AppendKeeps(v, e);
      w := AppendRec(v, e);
    }
  }

  lemma MarkStep(store: Store, v: LogView, pc: Client) returns (w: LogView)
    requires Represents(store, v) && Disciplined(v) && ClientOk(store, v, pc) && pc.PuttingMark?
    ensures StepOk(store, v, pc, PutMark, w)
  {
    var PuttingMark(slot, opID, done) := pc;
    var i := slot - Base(v.anchor);
    PutMarkRepresents(store, v, i, done, MarkerFile(slot, opID, if done then Done else Failed));
    MarkKeeps(v, i, done);
    w := MarkRec(v, i, done);
  }

  lemma ListStep(store: Store, v: LogView, pc: Client)
    requires Represents(store, v) && Disciplined(v) && pc.Listing?
    ensures ClientOk(store, v, Do(store, pc, List).1)
  {
    var keys := set k | k in store && IsWalKey(k);
    WalKeysSuffice(store, v);
    assert Earlier(store, keys, v, v);
  }

  lemma GetStep(store: Store, v: LogView, pc: Client, k: Key)
    requires pc.Loading? && ClientOk(store, v, pc)
    ensures ClientOk(store, v, Do(store, pc, Get(k)).1)
  {
    var u :| Earlier(store, pc.keys, u, v);
  }

  lemma ReadBackStep(store: Store, v: LogView, pc: Client)
    requires Represents(store, v) && pc.ReadingBack? && ClientOk(store, v, pc)
    ensures ClientOk(store, v, Do(store, pc, ReadBack).1)
  {
    assert store[Slot(pc.cand.slot)] == EntryFile(v.recs[pc.cand.slot - Base(v.anchor)].entry);
  }

  /** One step of one client, as the others and the log see it. */
  lemma StepKeeps(store: Store, v: LogView, pc: Client, act: Act) returns (w: LogView)
    requires Represents(store, v) && Disciplined(v) && ClientOk(store, v, pc)
    ensures StepOk(store, v, pc, act, w)
  {
    w := v;
    match (pc, act)
    case (Listing(_, _), List) => ListStep(store, v, pc);
    case (Loading(_, _, _, _), Get(k)) => GetStep(store, v, pc, k);
    case (Loading(_, _, keys, got), Decide) =>
      if AllFetched(keys, got) {
        DecideOk(store, v, pc);
      }
    case (Putting(_, _, _), Put) => w := PutStep(store, v, pc);
    case (ReadingBack(_, _, _), ReadBack) => ReadBackStep(store, v, pc);
    case (PuttingMark(_, _, _), PutMark) => w := MarkStep(store, v, pc);
    case _ =>
  }

  lemma NextKeeps(s: Sys, ev: Event, v: LogView) returns (w: LogView)
    requires Inv(s, v)
    ensures Inv(Next1(s, ev), w) && Extends(v, w)
  {
    w := v;
    if ev.c < |s.clients| {
      w := StepKeeps(s.store, v, s.clients[ev.c], ev.act);
      OthersOk(s, ev, v, w);
    }
  }

  lemma OthersOk(s: Sys, ev: Event, v: LogView, w: LogView)
    requires Inv(s, v) && ev.c < |s.clients| && StepOk(s.store, v, s.clients[ev.c], ev.act, w)
    ensures Inv(Next1(s, ev), w)
  {
    var t := Next1(s, ev);
    forall c | 0 <= c < |t.clients|
      ensures ClientOk(t.store, w, t.clients[c])
    {
      if c != ev.c {
        ClientStable(s.store, v, t.store, w, s.clients[c]);
      }
    }
  }

  // ---- over whole runs -------------------------------------------------------------------

  /** Safety over every interleaving of any number of clients: the log always reads and verifies,
      keeps no op id twice, never lets two pending intents hold one blob, and only ever grows. */
  lemma {:induction false} RaceSafe(s: Sys, trace: seq<Event>, v: LogView) returns (w: LogView)
    requires Inv(s, v)
    ensures Inv(Run(s, trace), w) && Extends(v, w)
    decreases |trace|
  {
    if trace == [] {
      w := v;
    } else {
      var u := NextKeeps(s, trace[0], v);
      w := RaceSafe(Next1(s, trace[0]), trace[1..], u);
      ExtendsTransitive(v, u, w);
    }
  }

  /** What an append that reported success leaves behind, in every later state of the run. */
  lemma AppendedMeansOwned(s: Sys, trace: seq<Event>, v: LogView, c: nat, rec: Rec)
    requires Init(s, v) && c < |s.clients| == |Run(s, trace).clients|
    requires Run(s, trace).clients[c] == Finished(Appended(rec))
    ensures var t := Run(s, trace).store;
            Slot(rec.entry.slot) in t && t[Slot(rec.entry.slot)].EntryFile? && t[Slot(rec.entry.slot)].entry.opID == rec.entry.opID
  {
    var w := RaceSafe(s, trace, v);
    assert ClientOk(Run(s, trace).store, w, Run(s, trace).clients[c]);
    var n := rec.entry.slot;
    assert Run(s, trace).store[Slot(n)] == EntryFile(w.recs[n - Base(w.anchor)].entry);
  }

  /** A successful append returns the caller's own entry. It is the stored one exactly when the
      stored entry has the caller's body: only the op id is compared on read-back. */
  lemma AppendedIsStoredIff(s: Sys, trace: seq<Event>, v: LogView, c: nat, rec: Rec)
    requires Init(s, v) && c < |s.clients| == |Run(s, trace).clients|
    requires Run(s, trace).clients[c] == Finished(Appended(rec))
    ensures var t := Run(s, trace).store;
            Slot(rec.entry.slot) in t && t[Slot(rec.entry.slot)].EntryFile?
            && (t[Slot(rec.entry.slot)].entry == rec.entry <==> Body(t[Slot(rec.entry.slot)].entry) == Body(rec.entry))
  {
    var w := RaceSafe(s, trace, v);
    assert ClientOk(Run(s, trace).store, w, Run(s, trace).clients[c]);
    var n := rec.entry.slot;
    assert Run(s, trace).store[Slot(n)] == EntryFile(w.recs[n - Base(w.anchor)].entry);
    assert w.recs[n - Base(w.anchor)].entry.slot == n;
  }

  // ---- when what is returned is what is stored -------------------------------------------

  /** Whoever presents this op id presents this body. */
  predicate JobBody(job: Job, opID: string, body: Entry) {
    job.AppendIntent? && job.e.opID == opID ==> Body(job.e) == body
  }

  predicate EntryBody(e: Entry, opID: string, body: Entry) {
    e.opID == opID ==> Body(e) == body
  }

  predicate ClientBody(pc: Client, opID: string, body: Entry) {
    match pc
    case Listing(job, _) => JobBody(job, opID, body)
    case Loading(job, _, _, _) => JobBody(job, opID, body)
    case Putting(e, cand, _) => EntryBody(e, opID, body) && EntryBody(cand, opID, body)
    case ReadingBack(e, cand, _) => EntryBody(e, opID, body) && EntryBody(cand, opID, body)
    case Finished(Appended(rec)) => EntryBody(rec.entry, opID, body)
    case _ => true
  }

  ghost predicate StoreBody(store: Store, opID: string, body: Entry) {
    forall n: nat :: Slot(n) in store && store[Slot(n)].EntryFile? ==> EntryBody(store[Slot(n)].entry, opID, body)
  }

  ghost predicate OneBody(s: Sys, opID: string, body: Entry) {
    StoreBody(s.store, opID, body) && forall c :: 0 <= c < |s.clients| ==> ClientBody(s.clients[c], opID, body)
  }

  predicate BeginsBody(trace: seq<Event>, opID: string, body: Entry) {
    forall ev :: ev in trace && ev.act.Begin? ==> JobBody(ev.act.job, opID, body)
  }

  lemma StepKeepsBody(store: Store, pc: Client, act: Act, opID: string, body: Entry)
    requires StoreBody(store, opID, body) && ClientBody(pc, opID, body) && (act.Begin? ==> JobBody(act.job, opID, body))
    ensures var r := Do(store, pc, act); StoreBody(r.0, opID, body) && ClientBody(r.1, opID, body)
  {
  }

  lemma {:induction false} RunKeepsBody(s: Sys, trace: seq<Event>, opID: string, body: Entry)
    requires OneBody(s, opID, body) && BeginsBody(trace, opID, body)
    ensures OneBody(Run(s, trace), opID, body)
    decreases |trace|
  {
    if trace != [] {
      var ev := trace[0];
      if ev.c < |s.clients| {
        StepKeepsBody(s.store, s.clients[ev.c], ev.act, opID, body);
      }
      RunKeepsBody(Next1(s, ev), trace[1..], opID, body);
    }
  }

  predicate IsStored(store: Store, rec: Rec) {
    Slot(rec.entry.slot) in store && store[Slot(rec.entry.slot)] == EntryFile(rec.entry)
  }

  /** If every client that presents an op id, and every entry recorded before the race, gives it the same
      body, then what a successful append returns is what is stored. */
  lemma OneBodyMeansStored(s: Sys, trace: seq<Event>, v: LogView, c: nat, rec: Rec, body: Entry)
    requires Init(s, v) && c < |s.clients| == |Run(s, trace).clients|
    requires StoreBody(s.store, rec.entry.opID, body) && BeginsBody(trace, rec.entry.opID, body)
    requires Run(s, trace).clients[c] == Finished(Appended(rec))
    ensures IsStored(Run(s, trace).store, rec)
  {
    AppendedMeansOwned(s, trace, v, c, rec);
    AppendedIsStoredIff(s, trace, v, c, rec);
    RunKeepsBody(s, trace, rec.entry.opID, body);
    assert ClientBody(Run(s, trace).clients[c], rec.entry.opID, body);
  }

  const EMPTY_LOG: LogView := LogView(None, [])

  /** On an empty store a listing decides on the empty log. */
  lemma DecideOnEmpty(e: Entry)
    ensures Do(map[], Loading(AppendIntent(e), 0, {}, map[]), Decide) == (map[], Putting(e, Candidate(EMPTY_LOG, e), 0))
    ensures Do(map[], Listing(AppendIntent(e), 0), List) == (map[], Loading(AppendIntent(e), 0, {}, map[]))
  {
    var snap := Snapshot({}, map[]);
    assert Reads(snap, EMPTY_LOG);
    var v :| Reads(snap, v) && Do(map[], Loading(AppendIntent(e), 0, {}, map[]), Decide).1 == Verdict(AppendIntent(e), 0, v);
    ReadsUnique(snap, v, EMPTY_LOG);
    assert AllFetched({}, map[]);
    assert FindOp(EMPTY_LOG, e.opID) == None && FindHolder(EMPTY_LOG, e.blobRefs) == None;
    assert Verdict(AppendIntent(e), 0, EMPTY_LOG) == Putting(e, Candidate(EMPTY_LOG, e), 0);
    var none: Store := map[];
    assert (set k | k in none && IsWalKey(k)) == {};
  }

  /** Both clients may report success for one op id, and one of them returns an entry that was
      never stored: here is the run that does it. */
  lemma SameOpIdBothSucceed(e: Entry, f: Entry) returns (trace: seq<Event>)
    requires e.opID == f.opID && Body(e) != Body(f)
    ensures var t := Run(Sys(map[], [Idle, Idle]), trace);
            && t.clients == [Finished(Appended(Rec(Candidate(EMPTY_LOG, e), Intent))), Finished(Appended(Rec(Candidate(EMPTY_LOG, f), Intent)))]
            && t.store == map[Slot(0) := EntryFile(Candidate(EMPTY_LOG, e))]
            && Candidate(EMPTY_LOG, f) != Candidate(EMPTY_LOG, e)
    ensures OnlyAppends(trace, e, f)
  {
    var start := Sys(map[], [Putting(e, Candidate(EMPTY_LOG, e), 0), Putting(f, Candidate(EMPTY_LOG, f), 0)]);
    var rest := BothPut(e, f);
    trace := BothDecide(e, f, rest, start);
  }

  /** Every job begun appends e or f. */
  predicate OnlyAppends(trace: seq<Event>, e: Entry, f: Entry) {
    forall ev :: ev in trace && ev.act.Begin? ==> ev.act.job in {AppendIntent(e), AppendIntent(f)}
  }

  ghost predicate ReturnsStored(trace: seq<Event>) {
    var t := Run(Sys(map[], [Idle, Idle]), trace);
    forall c, rec :: 0 <= c < |t.clients| && t.clients[c] == Finished(Appended(rec)) ==> IsStored(t.store, rec)
  }

  /** The exact condition, for two clients that present one op id: every successful append of every
      interleaving returns the stored entry if and only if they present the same body. */
  lemma ReturnedIsStoredIff(e: Entry, f: Entry)
    requires e.opID == f.opID
    ensures (forall trace :: OnlyAppends(trace, e, f) ==> ReturnsStored(trace)) <==> Body(e) == Body(f)
  {
    if Body(e) == Body(f) {
      forall trace | OnlyAppends(trace, e, f)
        ensures ReturnsStored(trace)
      {
        SameBodyReturnsStored(e, f, trace);
      }
    } else {
      var trace := SameOpIdBothSucceed(e, f);
      var t := Run(Sys(map[], [Idle, Idle]), trace);
      assert t.clients[1] == Finished(Appended(Rec(Candidate(EMPTY_LOG, f), Intent)));
      assert !IsStored(t.store, Rec(Candidate(EMPTY_LOG, f), Intent));
    }
  }

  lemma SameBodyReturnsStored(e: Entry, f: Entry, trace: seq<Event>)
    requires e.opID == f.opID && Body(e) == Body(f) && OnlyAppends(trace, e, f)
    ensures ReturnsStored(trace)
  {
    var s := Sys(map[], [Idle, Idle]);
    EmptyStoreIsInit(s);
    ClientsStay(s, trace);
    var t := Run(s, trace);
    forall c, rec | 0 <= c < |t.clients| && t.clients[c] == Finished(Appended(rec))
      ensures IsStored(t.store, rec)
    {
      var body := if rec.entry.opID == e.opID then Body(e) else Body(rec.entry);
      assert BeginsBody(trace, rec.entry.opID, body);
      OneBodyMeansStored(s, trace, EMPTY_LOG, c, rec, body);
    }
  }

  /** Both clients list and decide on the empty log before either writes. */
  lemma BothDecide(e: Entry, f: Entry, rest: seq<Event>, next: Sys) returns (trace: seq<Event>)
    requires next == Sys(map[], [Putting(e, Candidate(EMPTY_LOG, e), 0), Putting(f, Candidate(EMPTY_LOG, f), 0)])
    ensures Run(Sys(map[], [Idle, Idle]), trace) == Run(next, rest)
    ensures OnlyAppends(rest, e, f) ==> OnlyAppends(trace, e, f)
  {
    DecideOnEmpty(e);
    DecideOnEmpty(f);
    var ce := Candidate(EMPTY_LOG, e);
    var t4 := [Event(1, Decide)] + rest;
    RunOne(Sys(map[], [Putting(e, ce, 0), Loading(AppendIntent(f), 0, {}, map[])]), Event(1, Decide), rest);
    var t3 := [Event(0, Decide)] + t4;
    RunOne(Sys(map[], [Loading(AppendIntent(e), 0, {}, map[]), Loading(AppendIntent(f), 0, {}, map[])]), Event(0, Decide), t4);
    var t2 := [Event(1, List)] + t3;
    RunOne(Sys(map[], [Loading(AppendIntent(e), 0, {}, map[]), Listing(AppendIntent(f), 0)]), Event(1, List), t3);
    var t1 := [Event(0, List)] + t2;
    RunOne(Sys(map[], [Listing(AppendIntent(e), 0), Listing(AppendIntent(f), 0)]), Event(0, List), t2);
    var t0 := [Event(1, Begin(AppendIntent(f)))] + t1;
    RunOne(Sys(map[], [Listing(AppendIntent(e), 0), Idle]), Event(1, Begin(AppendIntent(f))), t1);
    trace := [Event(0, Begin(AppendIntent(e)))] + t0;
    RunOne(Sys(map[], [Idle, Idle]), Event(0, Begin(AppendIntent(e))), t0);
  }

  /** The first put takes the slot; both read back an op id they recognise as their own. */
  lemma BothPut(e: Entry, f: Entry) returns (trace: seq<Event>)
    requires e.opID == f.opID
    ensures Run(Sys(map[], [Putting(e, Candidate(EMPTY_LOG, e), 0), Putting(f, Candidate(EMPTY_LOG, f), 0)]), trace)
         == Sys(map[Slot(0) := EntryFile(Candidate(EMPTY_LOG, e))],
                [Finished(Appended(Rec(Candidate(EMPTY_LOG, e), Intent))), Finished(Appended(Rec(Candidate(EMPTY_LOG, f), Intent)))])
    ensures OnlyAppends(trace, e, f)
  {
    var ce, cf := Candidate(EMPTY_LOG, e), Candidate(EMPTY_LOG, f);
    var t := map[Slot(0) := EntryFile(ce)];
    var okE, okF := Finished(Appended(Rec(ce, Intent))), Finished(Appended(Rec(cf, Intent)));
    var t8 := [Event(1, ReadBack)];
    assert Run(Sys(t, [okE, ReadingBack(f, cf, 0)]), t8) == Sys(t, [okE, okF]) by {
      RunOne(Sys(t, [okE, ReadingBack(f, cf, 0)]), Event(1, ReadBack), []);
      assert [okE, ReadingBack(f, cf, 0)][1 := okF] == [okE, okF];
    }
    var t7 := [Event(0, ReadBack)] + t8;
    RunOne(Sys(t, [ReadingBack(e, ce, 0), ReadingBack(f, cf, 0)]), Event(0, ReadBack), t8);
    var t6 := [Event(1, Put)] + t7;
    RunOne(Sys(t, [ReadingBack(e, ce, 0), Putting(f, cf, 0)]), Event(1, Put), t7);
    trace := [Event(0, Put)] + t6;
    RunOne(Sys(map[], [Putting(e, ce, 0), Putting(f, cf, 0)]), Event(0, Put), t6);
  }

  lemma RunOne(s: Sys, ev: Event, rest: seq<Event>)
    ensures Run(s, [ev] + rest) == Run(Next1(s, ev), rest)
    ensures |s.clients| == 2 && ev.c < 2 ==>
      Next1(s, ev).clients == (if ev.c == 0 then [Do(s.store, s.clients[0], ev.act).1, s.clients[1]] else [s.clients[0], Do(s.store, s.clients[1], ev.act).1])
  {
    assert ([ev] + rest)[1..] == rest;
  }

  /** Mutual exclusion over whole runs: two pending intents that hold a common blob are one op. */
  lemma RaceLockExclusive(s: Sys, trace: seq<Event>, v: LogView, m: nat, n: nat, ref: string)
    requires Init(s, v)
    requires var t := Run(s, trace).store;
      && Slot(m) in t && t[Slot(m)].EntryFile? && ref in t[Slot(m)].entry.blobRefs && MarkState(t, m) == Intent
      && Slot(n) in t && t[Slot(n)].EntryFile? && ref in t[Slot(n)].entry.blobRefs && MarkState(t, n) == Intent
      && m >= Base(v.anchor) && n >= Base(v.anchor)
    ensures m == n
  {
    var w := RaceSafe(s, trace, v);
    var b := Base(w.anchor);
    assert w.recs[m - b].state == Intent && w.recs[n - b].state == Intent;
    LockIsExclusive(w, m - b, n - b, ref);
  }

  lemma {:induction false} ClientsStay(s: Sys, trace: seq<Event>)
    ensures |Run(s, trace).clients| == |s.clients|
    decreases |trace|
  {
    if trace != [] {
      ClientsStay(Next1(s, trace[0]), trace[1..]);
    }
  }

  /** Verification never fails under racing alone: no client ever reports a broken chain. */
  lemma RacingNeverBreaksChain(s: Sys, trace: seq<Event>, v: LogView, c: nat)
    requires Init(s, v) && c < |s.clients|
    ensures c < |Run(s, trace).clients| && Run(s, trace).clients[c] != Finished(ChainBroken)
  {
    ClientsStay(s, trace);
    var w := RaceSafe(s, trace, v);
    assert ClientOk(Run(s, trace).store, w, Run(s, trace).clients[c]);
  }

  /** Why pruning needs a quiet log: an append whose slot was pruned under it re-creates the slot
      below the anchor and reports success, yet no reader will ever see the op. */
  lemma StalePutIsLost(store: Store, v: LogView, e: Entry, cand: Entry, tries: nat)
    requires Represents(store, v) && v.anchor.Some? && cand.slot <= v.anchor.value.slot && Slot(cand.slot) !in store
    ensures var put := Do(store, Putting(e, cand, tries), Put);
            && Do(put.0, put.1, ReadBack).1 == Finished(Appended(Rec(cand, Intent)))
            && Represents(put.0, v)
  {
    var s' := store[Slot(cand.slot) := EntryFile(cand)];
    forall i | 0 <= i < |v.recs|
      ensures v.recs[i].state == MarkState(s', Base(v.anchor) + i)
    {
      assert v.recs[i].state == MarkState(store, Base(v.anchor) + i);
    }
  }

  // ---- progress --------------------------------------------------------------------------

  /** Slots taken since v0, none of them by this op. */
  ghost predicate LostSlots(v0: LogView, v: LogView, opID: string, lost: set<nat>) {
    forall n :: n in lost ==> Base(v.anchor) <= n && Next(v0) <= n < Next(v) && v.recs[n - Base(v.anchor)].entry.opID != opID
  }

  predicate AllBelow(lost: set<nat>, bound: nat) {
    forall n :: n in lost ==> n < bound
  }

  /** At least t slots below the bound were lost since v0. */
  ghost predicate Outrun(v0: LogView, v: LogView, opID: string, t: nat, bound: nat) {
    exists lost: set<nat> :: |lost| == t && LostSlots(v0, v, opID, lost) && AllBelow(lost, bound)
  }

  /** A client that has tried t times has lost t slots, all of them before the one it is after now. */
  ghost predicate Lagging(store: Store, v0: LogView, v: LogView, pc: Client, e: Entry) {
    match pc
    case Listing(job, t) => job == AppendIntent(e) && Outrun(v0, v, e.opID, t, Next(v))
    case Loading(job, t, keys, _) => job == AppendIntent(e) && exists w :: Earlier(store, keys, w, v) && Extends(v0, w) && Outrun(v0, v, e.opID, t, Next(w))
    case Putting(e', cand, t) => e' == e && cand.opID == e.opID && Next(v0) <= cand.slot && Outrun(v0, v, e.opID, t, cand.slot)
    case ReadingBack(e', cand, t) => e' == e && cand.opID == e.opID && Next(v0) <= cand.slot && Outrun(v0, v, e.opID, t, cand.slot)
    case Finished(o) => o.NotConverged? ==> Outrun(v0, v, e.opID, MAX_APPEND_RETRIES, Next(v))
    case _ => false
  }

  predicate TriesLeft(pc: Client) {
    match pc
    case Listing(_, t) => t < MAX_APPEND_RETRIES
    case Loading(_, t, _, _) => t < MAX_APPEND_RETRIES
    case Putting(_, _, t) => t < MAX_APPEND_RETRIES
    case ReadingBack(_, _, t) => t < MAX_APPEND_RETRIES
    case _ => true
  }

  ghost predicate Keeping(store: Store, v0: LogView, v: LogView, pc: Client, e: Entry) {
    var keeping := Lagging(store, v0, v, pc, e) && TriesLeft(pc) && (pc.Loading? ==> pc.keys <= store.Keys);
    keeping
  }

  lemma OutrunStays(v0: LogView, v: LogView, w: LogView, opID: string, t: nat, a: nat, b: nat)
    requires Outrun(v0, v, opID, t, a) && Extends(v, w) && a <= b
    ensures Outrun(v0, w, opID, t, b)
  {
    var lost: set<nat> :| |lost| == t && LostSlots(v0, v, opID, lost) && AllBelow(lost, a);
    forall n | n in lost
      ensures w.recs[n - Base(w.anchor)].entry.opID != opID
    {
      assert v.recs[n - Base(v.anchor)].entry == w.recs[n - Base(w.anchor)].entry;
    }
    assert LostSlots(v0, w, opID, lost) && AllBelow(lost, b);
  }

  lemma LagStays(a: Store, v0: LogView, v: LogView, b: Store, w: LogView, pc: Client, e: Entry)
    requires (pc.Loading? ==> pc.keys <= a.Keys) && Lagging(a, v0, v, pc, e) && Grows(a, b) && Extends(v, w)
    ensures Lagging(b, v0, w, pc, e)
  {
    match pc
    case Listing(_, t) => OutrunStays(v0, v, w, e.opID, t, Next(v), Next(w));
    case Loading(_, t, keys, _) =>
      var u :| Earlier(a, keys, u, v) && Extends(v0, u) && Outrun(v0, v, e.opID, t, Next(u));
      assert Restrict(a, keys) == Restrict(b, keys);
      ExtendsTransitive(u, v, w);
      assert Earlier(b, keys, u, w);
      OutrunStays(v0, v, w, e.opID, t, Next(u), Next(u));
    case Putting(_, cand, t) => OutrunStays(v0, v, w, e.opID, t, cand.slot, cand.slot);
    case ReadingBack(_, cand, t) => OutrunStays(v0, v, w, e.opID, t, cand.slot, cand.slot);
    case Finished(o) =>
      if o.NotConverged? {
        OutrunStays(v0, v, w, e.opID, MAX_APPEND_RETRIES, Next(v), Next(w));
      }
    case _ =>
  }

  lemma LagDecides(store: Store, v0: LogView, v: LogView, pc: Client, e: Entry)
    requires pc.Loading? && ClientOk(store, v, pc) && Lagging(store, v0, v, pc, e) && AllFetched(pc.keys, pc.got) && TriesLeft(pc)
    ensures Keeping(store, v0, v, Do(store, pc, Decide).1, e)
  {
    var w :| Earlier(store, pc.keys, w, v) && Extends(v0, w) && Outrun(v0, v, e.opID, pc.tries, Next(w));
    Decides(store, v, pc, w);
    VerdictLags(store, v0, v, w, pc.tries, e);
  }

  lemma VerdictLags(store: Store, v0: LogView, v: LogView, w: LogView, tries: nat, e: Entry)
    requires Extends(v0, w) && Outrun(v0, v, e.opID, tries, Next(w)) && tries < MAX_APPEND_RETRIES
    ensures Keeping(store, v0, v, Verdict(AppendIntent(e), tries, w), e)
  {
  }

  lemma LagLists(store: Store, v0: LogView, v: LogView, pc: Client, e: Entry)
    requires Represents(store, v) && Disciplined(v) && pc.Listing? && Lagging(store, v0, v, pc, e) && Extends(v0, v)
    ensures Lagging(store, v0, v, Do(store, pc, List).1, e)
  {
    var keys := set k | k in store && IsWalKey(k);
    WalKeysSuffice(store, v);
    assert Earlier(store, keys, v, v);
  }

  lemma LagGets(store: Store, v0: LogView, v: LogView, pc: Client, k: Key, e: Entry)
    requires pc.Loading? && ClientOk(store, v, pc) && Lagging(store, v0, v, pc, e) && TriesLeft(pc)
    ensures Keeping(store, v0, v, Do(store, pc, Get(k)).1, e)
  {
  }

  lemma LagReadsBack(store: Store, v0: LogView, v: LogView, pc: Client, e: Entry)
    requires Represents(store, v) && pc.ReadingBack? && ClientOk(store, v, pc) && Lagging(store, v0, v, pc, e)
    requires pc.tries < MAX_APPEND_RETRIES
    ensures Lagging(store, v0, v, Do(store, pc, ReadBack).1, e)
  {
    var n := pc.cand.slot;
    assert store[Slot(n)] == EntryFile(v.recs[n - Base(v.anchor)].entry);
    if v.recs[n - Base(v.anchor)].entry.opID != e.opID {
      LoseOne(v0, v, e.opID, pc.tries, n);
    }
  }

  lemma LoseOne(v0: LogView, v: LogView, opID: string, t: nat, n: nat)
    requires Outrun(v0, v, opID, t, n) && Base(v.anchor) <= n && Next(v0) <= n < Next(v) && v.recs[n - Base(v.anchor)].entry.opID != opID
    ensures Outrun(v0, v, opID, t + 1, Next(v))
  {
    var lost: set<nat> :| |lost| == t && LostSlots(v0, v, opID, lost) && AllBelow(lost, n);
    var more: set<nat> := lost + {n};
    assert |more| == t + 1 && LostSlots(v0, v, opID, more) && AllBelow(more, Next(v));
  }

  lemma LagStep(store: Store, v0: LogView, v: LogView, pc: Client, act: Act, e: Entry)
    requires Represents(store, v) && Disciplined(v) && ClientOk(store, v, pc) && Lagging(store, v0, v, pc, e) && Extends(v0, v) && TriesLeft(pc)
    requires !act.Begin?
    ensures Keeping(store, v0, v, Do(store, pc, act).1, e)
  {
    if pc.Listing? && act.List? {
      LagLists(store, v0, v, pc, e);
    } else if pc.Loading? && act.Get? {
      LagGets(store, v0, v, pc, act.key, e);
    } else if pc.Loading? && act.Decide? && AllFetched(pc.keys, pc.got) {
      LagDecides(store, v0, v, pc, e);
    } else if pc.ReadingBack? && act.ReadBack? {
      LagReadsBack(store, v0, v, pc, e);
    } else if !(pc.Putting? && act.Put?) {
      assert Do(store, pc, act).1 == pc;
    }
  }

  predicate NeverBegins(trace: seq<Event>, c: nat) {
    forall i :: 0 <= i < |trace| && trace[i].c == c ==> !trace[i].act.Begin?
  }

  lemma LagNext(s: Sys, ev: Event, v0: LogView, v: LogView, c: nat, e: Entry) returns (w: LogView)
    requires Inv(s, v) && Extends(v0, v) && c < |s.clients| && Lagging(s.store, v0, v, s.clients[c], e) && TriesLeft(s.clients[c])
    requires ev.c == c ==> !ev.act.Begin?
    ensures Inv(Next1(s, ev), w) && Extends(v0, w)
    ensures var t := Next1(s, ev); c < |t.clients| && Lagging(t.store, v0, w, t.clients[c], e) && TriesLeft(t.clients[c])
  {
    if ev.c < |s.clients| {
      w := StepKeeps(s.store, v, s.clients[ev.c], ev.act);
      OthersOk(s, ev, v, w);
      ExtendsTransitive(v0, v, w);
      if ev.c == c {
        LagStep(s.store, v0, v, s.clients[c], ev.act, e);
        LagStays(s.store, v0, v, Next1(s, ev).store, w, Next1(s, ev).clients[c], e);
      } else {
        LagStays(s.store, v0, v, Next1(s, ev).store, w, s.clients[c], e);
      }
    } else {
      w := v;
    }
  }

  lemma {:induction false} LagRun(s: Sys, trace: seq<Event>, v0: LogView, v: LogView, c: nat, e: Entry) returns (w: LogView)
    requires Inv(s, v) && Extends(v0, v) && c < |s.clients| && Lagging(s.store, v0, v, s.clients[c], e) && TriesLeft(s.clients[c])
    requires NeverBegins(trace, c)
    ensures var t := Run(s, trace); Inv(t, w) && Extends(v0, w) && c < |t.clients| && Lagging(t.store, v0, w, t.clients[c], e)
    decreases |trace|
  {
    w := v;
    if trace != [] {
      var u := LagNext(s, trace[0], v0, v, c, e);
      w := LagRun(Next1(s, trace[0]), trace[1..], v0, u, c, e);
    }
  }

  lemma {:induction false} LostWithin(lost: set<nat>, a: nat, b: nat)
    requires a <= b && forall n :: n in lost ==> a <= n < b
    ensures |lost| <= b - a
    decreases b - a
  {
    if a < b {
      LostWithin(lost - {a}, a + 1, b);
      assert a in lost ==> lost == (lost - {a}) + {a};
    } else {
      assert lost == {};
    }
  }

  /** Progress: an append gives up only if other ops took 256 slots while it ran. */
  lemma NotConvergedMeansOutrun(s: Sys, trace: seq<Event>, v: LogView, c: nat, e: Entry) returns (w: LogView)
    requires Inv(s, v) && c < |s.clients| && s.clients[c] == Listing(AppendIntent(e), 0) && NeverBegins(trace, c)
    requires c < |Run(s, trace).clients| && Run(s, trace).clients[c] == Finished(NotConverged)
    ensures Inv(Run(s, trace), w) && Extends(v, w)
    ensures Next(w) - Next(v) >= MAX_APPEND_RETRIES
    ensures exists lost: set<nat> :: |lost| == MAX_APPEND_RETRIES && LostSlots(v, w, e.opID, lost)
  {
    assert Outrun(v, v, e.opID, 0, Next(v)) by {
      var lost: set<nat> := {};
      assert |lost| == 0 && LostSlots(v, v, e.opID, lost) && AllBelow(lost, Next(v));
    }
    w := LagRun(s, trace, v, v, c, e);
    var lost: set<nat> :| |lost| == MAX_APPEND_RETRIES && LostSlots(v, w, e.opID, lost);
    LostWithin(lost, Next(v), Next(w));
  }
}
