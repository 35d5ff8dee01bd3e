/** Listing and retrying the not-done ops of one member: what an op waits on, and why repeated
    retry passes drain the log. */
module Ops {
  import opened Wrappers
  import opened Wal

  /** A not-done op, its position, and the op ids it waits on. */
  datatype PendingOp = PendingOp(at: nat, rec: Rec, waitsOn: seq<string>)

  predicate NotDone(v: LogView, i: nat)
    requires i < |v.recs|
  {
    v.recs[i].state != Done
  }

  /** Earlier not-done ops that share a blob with record i, looking at positions below j. */
  function WaitsOn(v: LogView, i: nat, j: nat): seq<string>
    requires j <= i < |v.recs|
  {
    if j == 0 then []
    else if NotDone(v, j - 1) && SharesBlob(v.recs[j - 1].entry.blobRefs, v.recs[i].entry.blobRefs)
    then WaitsOn(v, i, j - 1) + [v.recs[j - 1].entry.opID]
    else WaitsOn(v, i, j - 1)
  }

  function PendingFrom(v: LogView, n: nat): seq<PendingOp>
    requires n <= |v.recs|
  {
    if n == 0 then []
    else if NotDone(v, n - 1) then PendingFrom(v, n - 1) + [PendingOp(n - 1, v.recs[n - 1], WaitsOn(v, n - 1, n - 1))]
    else PendingFrom(v, n - 1)
  }

  /** The listing loop: for each not-done record, scan the earlier ones. */
  method PendingFromRecs(v: LogView) returns (ops: seq<PendingOp>)
    ensures ops == PendingFrom(v, |v.recs|)
  {
    ops := [];
    for i := 0 to |v.recs|
      invariant ops == PendingFrom(v, i)
    {
      if v.recs[i].state != Done {
        var waits := [];
        for j := 0 to i
          invariant waits == WaitsOn(v, i, j)
        {
          if v.recs[j].state != Done && SharesBlob(v.recs[j].entry.blobRefs, v.recs[i].entry.blobRefs) {
            waits := waits + [v.recs[j].entry.opID];
          }
        }
        ops := ops + [PendingOp(i, v.recs[i], waits)];
      }
    }
  }

  /** Whatever an op waits on is an earlier op of the same blob, and it has failed: it cannot be
      in flight, because the waiting op could not have been appended past a held lock. */
  lemma {:induction false} WaitsOnlyOnFailed(v: LogView, i: nat, j: nat, opID: string) returns (k: nat)
    requires Disciplined(v) && j <= i < |v.recs| && opID in WaitsOn(v, i, j)
    ensures k < j && v.recs[k].entry.opID == opID && v.recs[k].state == Failed
    ensures SharesBlob(v.recs[k].entry.blobRefs, v.recs[i].entry.blobRefs)
  {
    if NotDone(v, j - 1) && SharesBlob(v.recs[j - 1].entry.blobRefs, v.recs[i].entry.blobRefs) && v.recs[j - 1].entry.opID == opID {
      k := j - 1;
    } else {
      k := WaitsOnlyOnFailed(v, i, j - 1, opID);
    }
  }

  /** It waits on every such op: the ids listed are exactly those of the earlier not-done ops that share a
      blob with it. */
  lemma {:induction false} WaitsOnIff(v: LogView, i: nat, j: nat, opID: string)
    requires j <= i < |v.recs|
    ensures opID in WaitsOn(v, i, j) <==> exists k :: 0 <= k < j && v.recs[k].state != Done && v.recs[k].entry.opID == opID && SharesBlob(v.recs[k].entry.blobRefs, v.recs[i].entry.blobRefs)
  {
    if j > 0 {
      WaitsOnIff(v, i, j - 1, opID);
    }
  }

  /** The listing holds each not-done record once, in log order, and nothing else. */
  lemma {:induction false} ListedInOrder(v: LogView, n: nat)
    requires n <= |v.recs|
    ensures var ops := PendingFrom(v, n);
            && (forall k :: 0 <= k < |ops| ==> ops[k].at < n && v.recs[ops[k].at].state != Done && ops[k].rec == v.recs[ops[k].at])
            && (forall k, l :: 0 <= k < l < |ops| ==> ops[k].at < ops[l].at)
            && forall i :: 0 <= i < n && v.recs[i].state != Done ==> exists k :: 0 <= k < |ops| && ops[k].at == i
  {
    if n > 0 {
      ListedInOrder(v, n - 1);
      var before, ops := PendingFrom(v, n - 1), PendingFrom(v, n);
      assert forall k :: 0 <= k < |before| ==> ops[k] == before[k];
      forall i | 0 <= i < n && v.recs[i].state != Done
        ensures exists k :: 0 <= k < |ops| && ops[k].at == i
      {
        if i < n - 1 {
          var k :| 0 <= k < |before| && before[k].at == i;
          assert ops[k].at == i;
        } else {
          assert ops[|ops| - 1].at == i;
        }
      }
    }
  }

  lemma {:induction false} WaitsOnNothingIff(v: LogView, i: nat, j: nat)
    requires j <= i < |v.recs|
    ensures WaitsOn(v, i, j) == [] <==> forall k :: 0 <= k < j ==> !(NotDone(v, k) && SharesBlob(v.recs[k].entry.blobRefs, v.recs[i].entry.blobRefs))
  {
    if j > 0 {
      WaitsOnNothingIff(v, i, j - 1);
    }
  }

  function NotDoneCount(v: LogView, n: nat): nat
    requires n <= |v.recs|
  {
    if n == 0 then 0 else NotDoneCount(v, n - 1) + (if NotDone(v, n - 1) then 1 else 0)
  }

  function Backlog(v: LogView): nat {
    NotDoneCount(v, |v.recs|)
  }

  // ---- a retry pass ----------------------------------------------------------------------

  /** What comes of replaying an op: it is completed, it fails and says so in the log, or there is no
      executor, the diagnosis is against it, or it breaks before the log hears of it. */
  datatype Outcome = Completes | Fails | Refuses

  /** The executors, by the op id of what they replay. */
  type Executors = string -> Outcome

  /** One retry of one listed op: an op that waits is refused. */
  function RetryOne(v: LogView, ex: Executors, op: PendingOp): LogView {
    var id := op.rec.entry.opID;
    if op.waitsOn != [] || ex(id).Refuses? then v else MarkOp(v, id, ex(id).Completes?)
  }

  /** A retry-all pass over a listing taken before the pass started. */
  function RetryPass(v: LogView, ex: Executors, ops: seq<PendingOp>): LogView
    decreases |ops|
  {
    if ops == [] then v else RetryPass(RetryOne(v, ex, ops[0]), ex, ops[1..])
  }

  function Pass(v: LogView, ex: Executors): LogView {
    RetryPass(v, ex, PendingFrom(v, |v.recs|))
  }

  predicate Succeeds(ex: Executors, op: PendingOp) {
    op.waitsOn == [] && ex(op.rec.entry.opID).Completes?
  }

  /** How many of the listed ops were refused or failed. */
  function Unsuccessful(ex: Executors, ops: seq<PendingOp>): nat
    decreases |ops|
  {
    if ops == [] then 0 else (if Succeeds(ex, ops[0]) then 0 else 1) + Unsuccessful(ex, ops[1..])
  }

  method RetryAll(v: LogView, ex: Executors) returns (w: LogView, failed: nat)
    ensures w == Pass(v, ex)
    ensures failed == Unsuccessful(ex, PendingFrom(v, |v.recs|))
  {
    var ops := PendingFromRecs(v);
    w, failed := v, 0;
    for i := 0 to |ops|
      invariant RetryPass(w, ex, ops[i..]) == RetryPass(v, ex, ops)
      invariant failed + Unsuccessful(ex, ops[i..]) == Unsuccessful(ex, ops)
    {
      assert ops[i..][1..] == ops[i + 1..];
      var id := ops[i].rec.entry.opID;
      if ops[i].waitsOn != [] || ex(id).Refuses? {
        failed := failed + 1;
      } else {
        w := MarkOp(w, id, ex(id).Completes?);
        if !ex(id).Completes? {
          failed := failed + 1;
        }
      }
    }
  }

  /** Markers of the log can all be read back. */
  predicate ReadableSlots(v: LogView) {
    Next(v) <= MARKER_LIMIT
  }

  ghost predicate Good(v: LogView) {
    ChainedView(v) && Disciplined(v) && ReadableSlots(v)
  }

  ghost predicate Later(v: LogView, w: LogView) {
    Good(w) && Extends(v, w) && |w.recs| == |v.recs|
  }

  lemma RetryOneKeeps(v: LogView, ex: Executors, op: PendingOp)
    requires Good(v)
    ensures Later(v, RetryOne(v, ex, op))
    ensures forall i :: 0 <= i < |v.recs| ==> (NotDone(RetryOne(v, ex, op), i) <==> NotDone(v, i) && !(Succeeds(ex, op) && v.recs[i].entry.opID == op.rec.entry.opID))
  {
    var id := op.rec.entry.opID;
    var at := FindOp(v, id);
    if at.Some? {
      MarkKeeps(v, at.value, ex(id).Completes?);
    }
  }

  /** Some op of the listing is the i-th record's and succeeds. */
  predicate SucceedsIn(v: LogView, ex: Executors, ops: seq<PendingOp>, i: nat)
    requires i < |v.recs|
  {
    exists k :: 0 <= k < |ops| && Succeeds(ex, ops[k]) && ops[k].rec.entry.opID == v.recs[i].entry.opID
  }

  lemma SucceedsInSplit(v: LogView, w: LogView, ex: Executors, ops: seq<PendingOp>, i: nat)
    requires ops != [] && i < |v.recs| && i < |w.recs| && w.recs[i].entry == v.recs[i].entry
    ensures SucceedsIn(v, ex, ops, i) <==> (Succeeds(ex, ops[0]) && v.recs[i].entry.opID == ops[0].rec.entry.opID) || SucceedsIn(w, ex, ops[1..], i)
  {
    if SucceedsIn(w, ex, ops[1..], i) {
      var k :| 0 <= k < |ops[1..]| && Succeeds(ex, ops[1..][k]) && ops[1..][k].rec.entry.opID == v.recs[i].entry.opID;
      assert ops[k + 1] == ops[1..][k];
    }
    if k :| 0 <= k < |ops| && Succeeds(ex, ops[k]) && ops[k].rec.entry.opID == v.recs[i].entry.opID {
      assert k > 0 ==> ops[1..][k - 1] == ops[k];
    }
  }

  lemma {:induction false} PassStates(v: LogView, ex: Executors, ops: seq<PendingOp>)
    requires Good(v)
    ensures Later(v, RetryPass(v, ex, ops))
    ensures forall i :: 0 <= i < |v.recs| ==> (NotDone(RetryPass(v, ex, ops), i) <==> NotDone(v, i) && !SucceedsIn(v, ex, ops, i))
    decreases |ops|
  {
    if ops != [] {
      var u, w := RetryOne(v, ex, ops[0]), RetryPass(v, ex, ops);
      RetryOneKeeps(v, ex, ops[0]);
      PassStates(u, ex, ops[1..]);
      ExtendsTransitive(v, u, w);
      forall i | 0 <= i < |v.recs|
        ensures NotDone(w, i) <==> NotDone(v, i) && !SucceedsIn(v, ex, ops, i)
      {
        SucceedsInSplit(v, u, ex, ops, i);
      }
    }
  }

  lemma {:induction false} ListsNotDone(v: LogView, n: nat, i: nat) returns (k: nat)
    requires n <= |v.recs| && i < n && NotDone(v, i)
    ensures k < |PendingFrom(v, n)| && PendingFrom(v, n)[k] == PendingOp(i, v.recs[i], WaitsOn(v, i, i))
  {
    if i == n - 1 {
      k := |PendingFrom(v, n)| - 1;
    } else {
      k := ListsNotDone(v, n - 1, i);
    }
  }

  lemma {:induction false} ListsOnlyNotDone(v: LogView, n: nat)
    requires n <= |v.recs|
    ensures forall k :: 0 <= k < |PendingFrom(v, n)| ==> ListedRight(v, n, PendingFrom(v, n)[k])
  {
    if n > 0 {
      ListsOnlyNotDone(v, n - 1);
    }
  }

  predicate ListedRight(v: LogView, n: nat, op: PendingOp)
    requires n <= |v.recs|
  {
    op.at < n && NotDone(v, op.at) && op.rec == v.recs[op.at] && op.waitsOn == WaitsOn(v, op.at, op.at)
  }

  /** A not-done op that a pass completes. */
  predicate Ready(v: LogView, ex: Executors, i: nat)
    requires i < |v.recs|
  {
    NotDone(v, i) && WaitsOn(v, i, i) == [] && ex(v.recs[i].entry.opID).Completes?
  }

  lemma PassCompletes(v: LogView, ex: Executors, i: nat)
    requires Good(v) && i < |v.recs|
    ensures Later(v, Pass(v, ex))
    ensures NotDone(Pass(v, ex), i) <==> NotDone(v, i) && !Ready(v, ex, i)
  {
    var ops := PendingFrom(v, |v.recs|);
    PassStates(v, ex, ops);
    ListsOnlyNotDone(v, |v.recs|);
    if NotDone(v, i) {
      var k := ListsNotDone(v, |v.recs|, i);
      assert Succeeds(ex, ops[k]) <==> Ready(v, ex, i);
      if j :| 0 <= j < |ops| && Succeeds(ex, ops[j]) && ops[j].rec.entry.opID == v.recs[i].entry.opID {
        assert ListedRight(v, |v.recs|, ops[j]);
        assert ops[j].at == i;
      }
    }
  }

  // ---- repeated passes -------------------------------------------------------------------

  /** An op that no number of passes will complete: its executor does not, or it waits on such an op. */
  ghost predicate Stuck(v: LogView, ex: Executors, i: nat)
    requires i < |v.recs|
    decreases i
  {
    NotDone(v, i) && (!ex(v.recs[i].entry.opID).Completes? || exists k :: 0 <= k < i && Stuck(v, ex, k) && SharesBlob(v.recs[k].entry.blobRefs, v.recs[i].entry.blobRefs))
  }

  lemma StuckIsNotReady(v: LogView, ex: Executors, i: nat)
    requires i < |v.recs| && Stuck(v, ex, i)
    ensures NotDone(v, i) && !Ready(v, ex, i)
  {
    WaitsOnNothingIff(v, i, i);
  }

  lemma {:induction false} PassKeepsStuck(v: LogView, ex: Executors, i: nat)
    requires Good(v) && i < |v.recs|
    ensures i < |Pass(v, ex).recs| && (Stuck(Pass(v, ex), ex, i) <==> Stuck(v, ex, i))
    decreases i
  {
    var w := Pass(v, ex);
    PassCompletes(v, ex, i);
    forall k | 0 <= k < i
      ensures Stuck(w, ex, k) <==> Stuck(v, ex, k)
    {
      PassKeepsStuck(v, ex, k);
    }
    assert forall k :: 0 <= k <= i ==> w.recs[k].entry == v.recs[k].entry;
    if Stuck(v, ex, i) {
      StuckIsNotReady(v, ex, i);
    }
  }

  ghost predicate Loose(v: LogView, ex: Executors, i: nat)
    requires i < |v.recs|
  {
    NotDone(v, i) && !Stuck(v, ex, i)
  }

  /** The not-done ops that are not stuck. */
  ghost function LooseCount(v: LogView, ex: Executors, n: nat): nat
    requires n <= |v.recs|
  {
    if n == 0 then 0 else LooseCount(v, ex, n - 1) + (if Loose(v, ex, n - 1) then 1 else 0)
  }

  lemma {:induction false} LooseWithin(v: LogView, ex: Executors, n: nat)
    requires n <= |v.recs|
    ensures LooseCount(v, ex, n) <= NotDoneCount(v, n)
    ensures LooseCount(v, ex, n) == 0 <==> forall i :: 0 <= i < n && NotDone(v, i) ==> Stuck(v, ex, i)
  {
    if n > 0 {
      LooseWithin(v, ex, n - 1);
    }
  }

  lemma {:induction false} FirstLoose(v: LogView, ex: Executors, n: nat) returns (i: nat)
    requires n <= |v.recs| && LooseCount(v, ex, n) > 0
    ensures i < n && Ready(v, ex, i) && !Stuck(v, ex, i)
  {
    if LooseCount(v, ex, n - 1) > 0 {
      i := FirstLoose(v, ex, n - 1);
    } else {
      i := n - 1;
      LooseWithin(v, ex, n - 1);
      WaitsOnNothingIff(v, i, i);
    }
  }

  lemma PassKeepsLoose(v: LogView, ex: Executors, i: nat)
    requires Good(v) && i < |v.recs|
    ensures i < |Pass(v, ex).recs| && (Loose(Pass(v, ex), ex, i) <==> Loose(v, ex, i) && !Ready(v, ex, i))
  {
    PassCompletes(v, ex, i);
    PassKeepsStuck(v, ex, i);
  }

  lemma {:induction false} LooseShrinks(v: LogView, ex: Executors, n: nat)
    requires Good(v) && n <= |v.recs|
    ensures Later(v, Pass(v, ex))
    ensures LooseCount(Pass(v, ex), ex, n) <= LooseCount(v, ex, n)
    ensures LooseCount(v, ex, n) > 0 ==> LooseCount(Pass(v, ex), ex, n) < LooseCount(v, ex, n)
  {
    PassStates(v, ex, PendingFrom(v, |v.recs|));
    if n > 0 {
      LooseShrinks(v, ex, n - 1);
      PassKeepsLoose(v, ex, n - 1);
      if LooseCount(v, ex, n - 1) == 0 && LooseCount(v, ex, n) > 0 {
        var i := FirstLoose(v, ex, n);
        LooseWithin(v, ex, n - 1);
        assert i == n - 1;
      }
    }
  }

  function Passes(v: LogView, ex: Executors, n: nat): LogView
    decreases n
  {
    if n == 0 then v else Passes(Pass(v, ex), ex, n - 1)
  }

  lemma {:induction false} LoosePasses(v: LogView, ex: Executors, n: nat, i: nat)
    requires Good(v) && LooseCount(v, ex, |v.recs|) <= n && i < |v.recs|
    ensures Later(v, Passes(v, ex, n)) && (NotDone(Passes(v, ex, n), i) <==> Stuck(v, ex, i))
    decreases n
  {
    if n == 0 {
      LooseWithin(v, ex, |v.recs|);
    } else {
      var u := Pass(v, ex);
      LooseShrinks(v, ex, |v.recs|);
      PassKeepsStuck(v, ex, i);
      LoosePasses(u, ex, n - 1, i);
      ExtendsTransitive(v, u, Passes(v, ex, n));
    }
  }

  /** Repeating the pass as often as there were not-done ops completes all that can be: what is left is
      exactly what fails and what waits, directly or not, on something that fails. */
  lemma PassesLeaveStuck(v: LogView, ex: Executors, n: nat, i: nat)
    requires Good(v) && Backlog(v) <= n && i < |v.recs|
    ensures Later(v, Passes(v, ex, n)) && (NotDone(Passes(v, ex, n), i) <==> Stuck(v, ex, i))
  {
    LooseWithin(v, ex, |v.recs|);
    LoosePasses(v, ex, n, i);
  }

  lemma {:induction false} CountAgrees(v: LogView, w: LogView, n: nat)
    requires n <= |v.recs| && n <= |w.recs| && forall i :: 0 <= i < n && NotDone(w, i) ==> NotDone(v, i)
    ensures NotDoneCount(w, n) <= NotDoneCount(v, n)
    ensures NotDoneCount(w, n) < NotDoneCount(v, n) <==> exists i :: 0 <= i < n && NotDone(v, i) && !NotDone(w, i)
  {
    if n > 0 {
      CountAgrees(v, w, n - 1);
    }
  }

  /** A pass never lengthens the backlog, and shortens it if and only if some op that waits on nothing
      is completed by its executor. */
  lemma PassShrinksBacklogIff(v: LogView, ex: Executors)
    requires Good(v)
    ensures Later(v, Pass(v, ex)) && Backlog(Pass(v, ex)) <= Backlog(v)
    ensures Backlog(Pass(v, ex)) < Backlog(v) <==> exists i :: 0 <= i < |v.recs| && Ready(v, ex, i)
  {
    var w := Pass(v, ex);
    PassStates(v, ex, PendingFrom(v, |v.recs|));
    forall i | 0 <= i < |v.recs|
      ensures NotDone(w, i) <==> NotDone(v, i) && !Ready(v, ex, i)
    {
      PassCompletes(v, ex, i);
    }
    CountAgrees(v, w, |v.recs|);
  }

  lemma {:induction false} NoneNotDone(v: LogView, n: nat)
    requires n <= |v.recs|
    ensures NotDoneCount(v, n) == 0 <==> forall i :: 0 <= i < n ==> !NotDone(v, i)
  {
    if n > 0 {
      NoneNotDone(v, n - 1);
    }
  }

  /** So the log drains if and only if every not-done op has an executor that completes it. */
  lemma PassesDrainIff(v: LogView, ex: Executors, n: nat)
    requires Good(v) && Backlog(v) <= n
    ensures Backlog(Passes(v, ex, n)) == 0 <==> forall i :: 0 <= i < |v.recs| && NotDone(v, i) ==> ex(v.recs[i].entry.opID).Completes?
  {
    var w := Passes(v, ex, n);
    if |v.recs| > 0 {
      PassesLeaveStuck(v, ex, n, 0);
      forall i | 0 <= i < |v.recs|
        ensures NotDone(w, i) <==> Stuck(v, ex, i)
      {
        PassesLeaveStuck(v, ex, n, i);
      }
      NoneNotDone(w, |w.recs|);
      if forall i :: 0 <= i < |v.recs| && NotDone(v, i) ==> ex(v.recs[i].entry.opID).Completes? {
        NoneStuck(v, ex, |v.recs|);
      } else {
        var i :| 0 <= i < |v.recs| && NotDone(v, i) && !ex(v.recs[i].entry.opID).Completes?;
        assert Stuck(v, ex, i) && NotDone(w, i);
      }
    } else {
      NoPasses(v, ex, n);
    }
  }

  lemma {:induction false} NoneStuck(v: LogView, ex: Executors, n: nat)
    requires n <= |v.recs| && forall i :: 0 <= i < |v.recs| && NotDone(v, i) ==> ex(v.recs[i].entry.opID).Completes?
    ensures forall i :: 0 <= i < n ==> !Stuck(v, ex, i)
  {
    if n > 0 {
      NoneStuck(v, ex, n - 1);
    }
  }

  lemma {:induction false} NoPasses(v: LogView, ex: Executors, n: nat)
    requires v.recs == []
    ensures Passes(v, ex, n) == v
    decreases n
  {
    if n > 0 {
      NoPasses(v, ex, n - 1);
    }
  }
}
