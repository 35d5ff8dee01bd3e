/** Journaling and completing operations in bulk: appends and done markers may be written in any order
    that respects the appends, and the log comes out the same. */
module Journals {
  import opened Wrappers
  import opened Wal

  predicate RecordedIn(v: LogView, opID: string) {
    FindOp(v, opID).Some?
  }

  predicate DoneIn(v: LogView, opID: string) {
    var at := FindOp(v, opID);
    at.Some? && v.recs[at.value].state == Done
  }

  /** Appending a new op leaves every other op as it was found. */
  lemma AppendFinds(v: LogView, e: Entry, opID: string)
    requires Append(v, e).0.Fresh?
    ensures var w := Append(v, e).1;
            && Next(w) == Next(v) + 1
            && (FindOp(v, opID).Some? ==> FindOp(w, opID) == FindOp(v, opID) && w.recs[FindOp(v, opID).value] == v.recs[FindOp(v, opID).value])
            && (FindOp(v, opID).None? && opID != e.opID ==> FindOp(w, opID).None?)
            && (opID == e.opID ==> FindOp(w, opID) == Some(|v.recs|) && w.recs[|v.recs|] == Rec(Candidate(v, e), Intent))
            && (RecordedIn(w, opID) <==> RecordedIn(v, opID) || opID == e.opID)
            && (DoneIn(w, opID) <==> DoneIn(v, opID))
  {
    var w := AppendRec(v, e);
    var n := |v.recs|;
    assert forall i :: 0 <= i < n ==> w.recs[i] == v.recs[i];
    assert w.recs[n].entry.opID == e.opID;
  }

  lemma MarkFinds(v: LogView, id: string, opID: string)
    ensures var w := MarkOp(v, id, true);
            && Next(w) == Next(v) && FindOp(w, opID) == FindOp(v, opID)
            && (FindOp(v, opID).Some? ==> w.recs[FindOp(v, opID).value].entry == v.recs[FindOp(v, opID).value].entry)
            && (opID != id ==> (DoneIn(w, opID) <==> DoneIn(v, opID)))
            && (DoneIn(v, opID) ==> DoneIn(w, opID))
  {
    MarkKeepsEntries(v, id, opID);
  }

  lemma FreshIsNew(v: LogView, e: Entry)
    requires Append(v, e).0.Fresh?
    ensures !HasOp(v, e.opID) && !Blocked(v, e.blobRefs)
  {
  }

  // ---- completed ops ---------------------------------------------------------------------

  /** Completed: marking it done once more changes nothing. */
  predicate Settled(v: LogView, opID: string) {
    RecordedIn(v, opID) && MarkOp(v, opID, true) == v
  }

  /** That means done, unless the log has outgrown its markers. */
  lemma SettledIsDone(v: LogView, opID: string)
    requires Settled(v, opID)
    ensures DoneIn(v, opID) || Next(v) > MARKER_LIMIT
  {
    var at := FindOp(v, opID).value;
    assert MarkOp(v, opID, true).recs[at] == v.recs[at];
  }

  lemma DoneIsSettled(v: LogView, opID: string)
    requires DoneIn(v, opID)
    ensures Settled(v, opID)
  {
    var at := FindOp(v, opID).value;
    assert v.recs[at := v.recs[at]] == v.recs;
  }

  lemma SettledStaysAppend(v: LogView, e: Entry, opID: string)
    requires Settled(v, opID) && Append(v, e).0.Fresh?
    ensures Settled(Append(v, e).1, opID)
  {
    FreshIsNew(v, e);
    AppendFinds(v, e, opID);
    MarkAppendCommute(v, e, opID);
  }

  lemma SettledStaysMark(v: LogView, id: string, opID: string)
    requires Settled(v, opID)
    ensures Settled(MarkOp(v, id, true), opID)
  {
    MarkCommute(v, id, opID);
    MarkKeepsEntries(v, id, opID);
  }

  lemma MarkedSettles(v: LogView, opID: string)
    requires RecordedIn(v, opID)
    ensures Settled(MarkOp(v, opID, true), opID)
  {
    MarkTwice(v, opID);
    MarkKeepsEntries(v, opID, opID);
  }

  // ---- completing a list of ops ----------------------------------------------------------

  /** One op journaled and done: an op already there is only marked. */
  function CompleteOne(v: LogView, e: Entry): LogView {
    MarkOp(Append(v, e).1, e.opID, true)
  }

  /** The log once the first k ops are journaled and done, one after the other. */
  function CompleteAll(v: LogView, es: seq<Entry>, k: nat): LogView
    requires k <= |es|
  {
    if k == 0 then v else CompleteOne(CompleteAll(v, es, k - 1), es[k - 1])
  }

  ghost predicate RecordedUpTo(v: LogView, es: seq<Entry>, k: nat) {
    k <= |es| && forall i :: 0 <= i < k ==> RecordedIn(v, es[i].opID)
  }

  lemma RecordedIsMarked(v: LogView, e: Entry)
    requires RecordedIn(v, e.opID)
    ensures CompleteOne(v, e) == MarkOp(v, e.opID, true)
  {
  }

  lemma {:induction false} CompleteRecords(v: LogView, es: seq<Entry>, k: nat, opID: string)
    requires RecordedUpTo(v, es, k) && RecordedIn(v, opID)
    ensures RecordedIn(CompleteAll(v, es, k), opID)
  {
    if k > 0 {
      CompleteRecords(v, es, k - 1, opID);
      CompleteRecords(v, es, k - 1, es[k - 1].opID);
      RecordedIsMarked(CompleteAll(v, es, k - 1), es[k - 1]);
      MarkKeepsEntries(CompleteAll(v, es, k - 1), es[k - 1].opID, opID);
    }
  }

  predicate CanAppend(v: LogView, e: Entry) {
    !HasOp(v, e.opID) && !Blocked(v, e.blobRefs)
  }

  /** Completing a recorded op and appending another commute. */
  lemma OneAppendCommute(x: LogView, e: Entry, d: Entry)
    requires RecordedIn(x, d.opID) && CanAppend(x, e)
    ensures CompleteOne(Append(x, e).1, d) == Append(CompleteOne(x, d), e).1 && CanAppend(CompleteOne(x, d), e)
  {
    AppendFresh(x, e);
    AppendFinds(x, e, d.opID);
    RecordedIsMarked(x, d);
    RecordedIsMarked(Append(x, e).1, d);
    MarkAppendCommute(x, e, d.opID);
  }

  lemma {:induction false} CompleteCanAppend(v: LogView, es: seq<Entry>, e: Entry, j: nat)
    requires RecordedUpTo(v, es, j) && CanAppend(v, e)
    ensures CanAppend(CompleteAll(v, es, j), e)
  {
    if j > 0 {
      CompleteCanAppend(v, es, e, j - 1);
      CompleteRecords(v, es, j - 1, es[j - 1].opID);
      OneAppendCommute(CompleteAll(v, es, j - 1), e, es[j - 1]);
    }
  }

  /** xs goes through the log as the ops of es are taken one after the other. */
  ghost predicate Goes(step: (LogView, Entry) -> LogView, xs: seq<LogView>, es: seq<Entry>) {
    |xs| == |es| + 1 && forall i :: 0 <= i < |es| ==> xs[i + 1] == step(xs[i], es[i])
  }

  /** What commutes with every step commutes with all of them. */
  lemma Slides(step: (LogView, Entry) -> LogView, early: LogView -> LogView, xs: seq<LogView>, ws: seq<LogView>, es: seq<Entry>)
    requires Goes(step, xs, es) && Goes(step, ws, es) && ws[0] == early(xs[0])
    requires forall i :: 0 <= i < |es| ==> step(early(xs[i]), es[i]) == early(step(xs[i], es[i]))
    ensures ws[|es|] == early(xs[|es|])
  {
    for i := 0 to |es|
      invariant ws[i] == early(xs[i])
    {
    }
  }

  function Completions(v: LogView, es: seq<Entry>, k: nat): seq<LogView>
    requires k <= |es|
  {
    seq(k + 1, i requires 0 <= i <= k => CompleteAll(v, es, i))
  }

  lemma CompletionsGo(v: LogView, es: seq<Entry>, k: nat)
    requires k <= |es|
    ensures Goes(CompleteOne, Completions(v, es, k), es[..k])
  {
  }

  /** Journaling a further op early, before the ones ahead of it are marked, changes nothing in the end. */
  lemma CompleteAppendBefore(v: LogView, es: seq<Entry>, e: Entry, j: nat)
    requires RecordedUpTo(v, es, j) && CanAppend(v, e)
    ensures CompleteAll(Append(v, e).1, es, j) == Append(CompleteAll(v, es, j), e).1
  {
    var early, xs, ws := x => Append(x, e).1, Completions(v, es, j), Completions(Append(v, e).1, es, j);
    CompletionsGo(v, es, j);
    CompletionsGo(Append(v, e).1, es, j);
    forall i | 0 <= i < j
      ensures CompleteOne(early(xs[i]), es[i]) == early(CompleteOne(xs[i], es[i]))
    {
      CompleteRecords(v, es, i, es[i].opID);
      CompleteCanAppend(v, es, e, i);
      OneAppendCommute(xs[i], e, es[i]);
    }
    Slides(CompleteOne, early, xs, ws, es[..j]);
  }

  lemma AppendedOnce(x: LogView, e: Entry)
    requires CanAppend(x, e)
    ensures CompleteOne(Append(x, e).1, e) == CompleteOne(x, e)
  {
    AppendFresh(x, e);
    AppendFinds(x, e, e.opID);
    RecordedIsMarked(Append(x, e).1, e);
  }

  lemma {:induction false} CompleteAppend(v: LogView, es: seq<Entry>, k: nat, j: nat)
    requires k < j <= |es| && RecordedUpTo(v, es, k) && Append(v, es[k]).0.Fresh?
    ensures CompleteAll(Append(v, es[k]).1, es, j) == CompleteAll(v, es, j)
  {
    if j == k + 1 {
      CompleteAppendAt(v, es, k, CompleteAll(v, es, k));
    } else {
      CompleteAppend(v, es, k, j - 1);
    }
  }

  lemma CompleteAppendAt(v: LogView, es: seq<Entry>, k: nat, x: LogView)
    requires k < |es| && RecordedUpTo(v, es, k) && Append(v, es[k]).0.Fresh? && x == CompleteAll(v, es, k)
    ensures CompleteAll(Append(v, es[k]).1, es, k + 1) == CompleteOne(x, es[k])
  {
    FreshIsNew(v, es[k]);
    CompleteCanAppend(v, es, es[k], k);
    CompleteAppendBefore(v, es, es[k], k);
    AppendedOnce(x, es[k]);
  }

  lemma OneMarkCommute(x: LogView, op: string, d: Entry)
    requires RecordedIn(x, d.opID)
    ensures CompleteOne(MarkOp(x, op, true), d) == MarkOp(CompleteOne(x, d), op, true)
  {
    RecordedIsMarked(x, d);
    MarkKeepsEntries(x, op, d.opID);
    RecordedIsMarked(MarkOp(x, op, true), d);
    MarkCommute(x, op, d.opID);
  }

  /** Nor does marking a recorded op before its turn. */
  lemma CompleteMarkBefore(v: LogView, es: seq<Entry>, op: string, j: nat)
    requires RecordedUpTo(v, es, j)
    ensures CompleteAll(MarkOp(v, op, true), es, j) == MarkOp(CompleteAll(v, es, j), op, true)
  {
    var early, xs, ws := x => MarkOp(x, op, true), Completions(v, es, j), Completions(MarkOp(v, op, true), es, j);
    CompletionsGo(v, es, j);
    CompletionsGo(MarkOp(v, op, true), es, j);
    forall i | 0 <= i < j
      ensures CompleteOne(early(xs[i]), es[i]) == early(CompleteOne(xs[i], es[i]))
    {
      CompleteRecords(v, es, i, es[i].opID);
      OneMarkCommute(xs[i], op, es[i]);
    }
    Slides(CompleteOne, early, xs, ws, es[..j]);
  }

  lemma MarkedOnce(x: LogView, e: Entry)
    requires RecordedIn(x, e.opID)
    ensures CompleteOne(MarkOp(x, e.opID, true), e) == CompleteOne(x, e)
  {
    RecordedIsMarked(x, e);
    MarkKeepsEntries(x, e.opID, e.opID);
    RecordedIsMarked(MarkOp(x, e.opID, true), e);
    MarkTwice(x, e.opID);
  }

  lemma {:induction false} CompleteMark(v: LogView, es: seq<Entry>, i: nat, j: nat)
    requires i < j <= |es| && RecordedUpTo(v, es, i + 1)
    ensures CompleteAll(MarkOp(v, es[i].opID, true), es, j) == CompleteAll(v, es, j)
  {
    if j == i + 1 {
      CompleteMarkAt(v, es, i, CompleteAll(v, es, i));
    } else {
      CompleteMark(v, es, i, j - 1);
    }
  }

  lemma CompleteMarkAt(v: LogView, es: seq<Entry>, i: nat, x: LogView)
    requires i < |es| && RecordedUpTo(v, es, i + 1) && x == CompleteAll(v, es, i)
    ensures CompleteAll(MarkOp(v, es[i].opID, true), es, i + 1) == CompleteOne(x, es[i])
  {
    CompleteMarkBefore(v, es, es[i].opID, i);
    CompleteRecords(v, es, i, es[i].opID);
    MarkedOnce(x, es[i]);
  }

  /** An op outside the given ones is pending on the blob. */
  ghost predicate HeldBeyond(v: LogView, ops: set<string>, ref: string) {
    exists i :: 0 <= i < |v.recs| && v.recs[i].state == Intent && v.recs[i].entry.opID !in ops && ref in v.recs[i].entry.blobRefs
  }

  lemma OneHeldBeyond(v: LogView, e: Entry, ops: set<string>, ref: string)
    requires e.opID in ops
    ensures HeldBeyond(CompleteOne(v, e), ops, ref) <==> HeldBeyond(v, ops, ref)
  {
    var a, w := Append(v, e).1, CompleteOne(v, e);
    forall i | 0 <= i < |v.recs|
      ensures a.recs[i] == v.recs[i] && w.recs[i].entry == v.recs[i].entry
      ensures v.recs[i].entry.opID !in ops ==> w.recs[i] == v.recs[i]
    {
    }
    assert |v.recs| < |w.recs| ==> w.recs[|v.recs|].entry.opID == e.opID;
  }

  /** Completing ops leaves what other ops hold as it is. */
  lemma {:induction false} CompleteHeldBeyond(v: LogView, es: seq<Entry>, k: nat, ops: set<string>, ref: string)
    requires k <= |es| && forall i :: 0 <= i < k ==> es[i].opID in ops
    ensures HeldBeyond(CompleteAll(v, es, k), ops, ref) <==> HeldBeyond(v, ops, ref)
  {
    if k > 0 {
      CompleteHeldBeyond(v, es, k - 1, ops, ref);
      OneHeldBeyond(CompleteAll(v, es, k - 1), es[k - 1], ops, ref);
    }
  }

  /** Once everything is recorded and settled the log is the completed one. */
  lemma {:induction false} CompleteSettled(v: LogView, es: seq<Entry>, k: nat)
    requires k <= |es| && forall i :: 0 <= i < k ==> Settled(v, es[i].opID)
    ensures CompleteAll(v, es, k) == v
  {
    if k > 0 {
      CompleteSettled(v, es, k - 1);
      RecordedIsMarked(v, es[k - 1]);
    }
  }

  // ---- what the completed log tells ------------------------------------------------------

  /** The records that were there keep their entries, and their states unless their op is one of the
      first k; every further record is that of one of those ops. */
  ghost predicate CompletedLog(v: LogView, es: seq<Entry>, k: nat, w: LogView)
    requires k <= |es|
  {
    && w.anchor == v.anchor && |v.recs| <= |w.recs|
    && (forall j :: 0 <= j < |v.recs| ==> w.recs[j].entry == v.recs[j].entry)
    && (forall j :: 0 <= j < |v.recs| && w.recs[j] != v.recs[j] ==> exists i :: 0 <= i < k && es[i].opID == v.recs[j].entry.opID)
    && (forall j :: |v.recs| <= j < |w.recs| ==> exists i :: 0 <= i < k && Body(w.recs[j].entry) == Body(es[i]))
  }

  lemma CompletedOneMore(v: LogView, es: seq<Entry>, k: nat, x: LogView)
    requires 0 < k <= |es| && CompletedLog(v, es, k - 1, x)
    ensures CompletedLog(v, es, k, CompleteOne(x, es[k - 1]))
  {
    var e := es[k - 1];
    var y := Append(x, e).1;
    var w := MarkOp(y, e.opID, true);
    MarkKeepsEntries(y, e.opID, e.opID);
    assert forall j :: 0 <= j < |x.recs| ==> y.recs[j] == x.recs[j];
    forall j | 0 <= j < |y.recs| && w.recs[j] != y.recs[j]
      ensures y.recs[j].entry.opID == e.opID
    {
      assert FindOp(y, e.opID) == Some(j);
    }
    forall j | |v.recs| <= j < |w.recs|
      ensures exists i :: 0 <= i < k && Body(w.recs[j].entry) == Body(es[i])
    {
      if j < |x.recs| {
        assert w.recs[j].entry == x.recs[j].entry;
      } else {
        assert w.recs[j].entry == Candidate(x, e);
      }
    }
  }

  lemma {:induction false} CompletedLogTells(v: LogView, es: seq<Entry>, k: nat)
    requires k <= |es|
    ensures CompletedLog(v, es, k, CompleteAll(v, es, k))
  {
    if k > 0 {
      CompletedLogTells(v, es, k - 1);
      CompletedOneMore(v, es, k, CompleteAll(v, es, k - 1));
    }
  }

  /** Each of the first k ops that the log then holds is completed in it. */
  lemma {:induction false} CompletedAreSettled(v: LogView, es: seq<Entry>, k: nat, i: nat)
    requires i < k <= |es|
    ensures var w := CompleteAll(v, es, k); RecordedIn(w, es[i].opID) ==> Settled(w, es[i].opID)
  {
    var x, e := CompleteAll(v, es, k - 1), es[k - 1];
    var y := Append(x, e).1;
    if Append(x, e).0.Fresh? {
      AppendFinds(x, e, es[i].opID);
    }
    MarkKeepsEntries(y, e.opID, es[i].opID);
    if es[i].opID == e.opID {
      if RecordedIn(y, e.opID) {
        MarkedSettles(y, e.opID);
      }
    } else if RecordedIn(y, es[i].opID) {
      CompletedAreSettled(v, es, k - 1, i);
      if Append(x, e).0.Fresh? {
        SettledStaysAppend(x, e, es[i].opID);
      }
      SettledStaysMark(y, e.opID, es[i].opID);
    }
  }
}
