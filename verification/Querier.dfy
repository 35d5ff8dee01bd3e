/** One member's view of a file id, read from its catalog and its log, and what a resolver may
    conclude while a cross-member move is running under it. */
module Querier {
  import opened Wrappers
  import opened Wal
  import opened Catalogs
  import opened Rosters
  import opened Resolver
  import opened Vaults
  import opened Moves

  predicate Mentions(r: Rec, id: string) {
    r.entry.opType == OpType.Move && id in r.entry.blobRefs
  }

  /** What the records say of an id the catalog does not hold: the last completed move that carries
      a pointer forwards it, and any move still an intent means it is in flight. */
  function WalView(member: string, recs: seq<Rec>, id: string): MemberView {
    if recs == [] then MemberView(member, None, "", false)
    else
      var last := recs[|recs| - 1];
      var before := WalView(member, recs[..|recs| - 1], id);
      if !Mentions(last, id) then before
      else match last.state
        case Intent => before.(pendingMove := true)
        case Done => if ArgOf(last.entry, MovedTo) != "" then before.(movedTo := ArgOf(last.entry, MovedTo)) else before
        case _ => before
  }

  /** A correct answer to "do you hold this id?": the row if the catalog has it, else the log's word,
      else an error when the log does not verify. */
  ghost predicate Answers(a: Answer, member: string, cat: Option<RowMap>, log: Option<seq<Rec>>, id: string) {
    if cat.Some? && HoldsID(cat.value, id) then
      && a.View? && a.v.member == member && a.v.movedTo == "" && !a.v.pendingMove
      && a.v.file.Some? && a.v.file.value.id == id && a.v.file.value in cat.value.Values
    else if log.None? then a.QueryError?
    else a == View(WalView(member, log.value, id))
  }

  /** The query. log is what the chain-verified read gives: None if it refuses the chain. */
  method Query(member: string, cat: Catalog?, log: Option<seq<Rec>>, id: string) returns (a: Answer)
    requires cat != null ==> cat.Valid()
    ensures Answers(a, member, if cat == null then None else Some(Rows(cat.files)), log, id)
  {
    if cat != null {
      var f := cat.FindID(id);
      if f.Some? {
        return View(MemberView(member, f, "", false));
      }
    }
    if log.None? {
      return QueryError;
    }
    var view := MemberView(member, None, "", false);
    var recs := log.value;
    for i := 0 to |recs|
      invariant view == WalView(member, recs[..i], id)
    {
      assert recs[..i + 1][..i] == recs[..i];
      if recs[i].entry.opType == OpType.Move && id in recs[i].entry.blobRefs {
        match recs[i].state {
          case Intent => view := view.(pendingMove := true);
          case Done =>
            var to := ArgOf(recs[i].entry, MovedTo);
            if to != "" {
              view := view.(movedTo := to);
            }
          case _ =>
        }
      }
    }
    assert recs[..|recs|] == recs;
    return View(view);
  }

  /** A completed move that carries a pointer away from here. */
  predicate ForwardsTo(r: Rec, id: string, to: string) {
    r.entry.opType == OpType.Move && id in r.entry.blobRefs && r.state == Done && ArgOf(r.entry, MovedTo) == to && to != ""
  }

  predicate ForwardsOn(r: Rec, id: string) {
    ForwardsTo(r, id, ArgOf(r.entry, MovedTo))
  }

  /** A move is in flight exactly when some record says so, and the pointer is that of the last record
      that carries one. */
  lemma {:induction false} WalViewTells(member: string, recs: seq<Rec>, id: string)
    ensures var v := WalView(member, recs, id);
            && v.member == member && v.file.None?
            && (v.pendingMove <==> exists i :: 0 <= i < |recs| && recs[i].entry.opType == OpType.Move && id in recs[i].entry.blobRefs && recs[i].state == Intent)
            && (v.movedTo == "" ==> forall i :: 0 <= i < |recs| ==> !ForwardsOn(recs[i], id))
            && (v.movedTo != "" ==> exists i :: 0 <= i < |recs| && ForwardsTo(recs[i], id, v.movedTo) && forall j :: i < j < |recs| ==> !ForwardsOn(recs[j], id))
  {
    if recs != [] {
      var n := |recs| - 1;
      WalViewTells(member, recs[..n], id);
      var v, before := WalView(member, recs, id), WalView(member, recs[..n], id);
      assert forall i :: 0 <= i < n ==> recs[..n][i] == recs[i];
      if v.movedTo != "" {
        if ForwardsOn(recs[n], id) {
          assert ForwardsTo(recs[n], id, v.movedTo);
        } else {
          var i :| 0 <= i < n && ForwardsTo(recs[..n][i], id, before.movedTo) && forall j :: i < j < n ==> !ForwardsOn(recs[..n][j], id);
          assert ForwardsTo(recs[i], id, v.movedTo);
        }
      }
    }
  }

  lemma LastMoveShows(member: string, recs: seq<Rec>, r: Rec, id: string)
    requires Mentions(r, id) && ArgOf(r.entry, MovedTo) != "" && r.state != State.Failed
    ensures var v := WalView(member, recs + [r], id);
            v.member == member && v.file.None? && (r.state == Intent ==> v.pendingMove) && (r.state == Done ==> v.movedTo == ArgOf(r.entry, MovedTo))
  {
    assert (recs + [r])[..|recs|] == recs;
    WalViewHoldsNothing(member, recs, id);
  }

  lemma {:induction false} WalViewHoldsNothing(member: string, recs: seq<Rec>, id: string)
    ensures WalView(member, recs, id).member == member && WalView(member, recs, id).file.None?
  {
    if recs != [] {
      WalViewHoldsNothing(member, recs[..|recs| - 1], id);
    }
  }

  // ---- resolving while a move runs -------------------------------------------------------

  /** One query of a resolution: the fan-out's, or a hop of the pointer chase. */
  datatype Call = Ask(member: string) | Hop(start: string, hop: nat, member: string)

  /** When each query read the member's catalog and when it read its log, counted in move steps. */
  datatype Times = Times(cat: Call -> nat, log: Call -> nat)

  function AnswerTo(w: World, c: Call): Answer {
    match c
    case Ask(n) => w.ask(n)
    case Hop(s, h, n) => w.hopAsk(s, h, n)
  }

  /** Each query reads the catalog before the log, and the pointer chase starts after the fan-out. */
  ghost predicate Ordered(t: Times) {
    && (forall c :: t.cat(c) <= t.log(c) <= 8)
    && (forall a, s, h, n :: t.log(Ask(a)) <= t.cat(Hop(s, h, n)))
  }

  /** Both ends of the move answer from what their disks hold at the times they are read; what every
      other member answers, and who is up when, is anything at all. */
  ghost predicate Watches(w: World, t: Times, s: Pair, m: Move, size: int) {
    forall c: Call ::
      && (c.member == m.src ==> Answers(AnswerTo(w, c), m.src, Phase(s, m, t.cat(c), size).src.cat, Some(Phase(s, m, t.log(c), size).src.log.recs), m.file.id))
      && (c.member == m.dst ==> Answers(AnswerTo(w, c), m.dst, Phase(s, m, t.cat(c), size).dst.cat, Some(Phase(s, m, t.log(c), size).dst.log.recs), m.file.id))
  }

  /** Once the source's catalog has let go, its log says where the file went, or that it is going. */
  lemma SourceForwards(s: Pair, m: Move, k: nat, size: int)
    requires Moves.Fresh(s, m) && 1 <= k <= 8
    ensures var v := WalView(m.src, Phase(s, m, k, size).src.log.recs, m.file.id);
            v.pendingMove || (k == 8 && v.movedTo == m.dst && v.member == m.src)
  {
    PhaseParts(s, m, k, size);
    var e := SrcIntent(m);
    var a := AppendRec(s.src.log, e);
    var r := Rec(Candidate(s.src.log, e), Intent);
    LastMoveShows(m.src, s.src.log.recs, r, m.file.id);
    if k == 8 {
      var n := |s.src.log.recs|;
      assert a.recs[n].entry.opID == m.opID;
      assert FindOp(a, m.opID) == Some(n);
      var r' := r.(state := AfterMark(Intent, Base(a.anchor) + n, true));
      assert MarkOp(a, m.opID, true).recs == s.src.log.recs + [r'];
      LastMoveShows(m.src, s.src.log.recs, r', m.file.id);
    }
  }

  /** A resolver that races the move, with members coming and going between any two calls, never
      concludes that the file is gone. The move may have crashed at any step and been run again. */
  lemma NeverMissingDuringMove(members: seq<Member>, w: World, hint: string, t: Times, s: Pair, m: Move, size: int, src: Member, dst: Member)
    requires Moves.Fresh(s, m) && Ordered(t) && Watches(w, t, s, m, size)
    requires src in members && src.name == m.src && src.status == ACTIVE
    requires dst in members && dst.name == m.dst
    ensures !IsMissing(Resolve(members, w, hint))
  {
    var ask, hop := Ask(m.src), Hop(m.src, 0, m.dst);
    assert AnswerTo(w, ask) == w.ask(m.src) && AnswerTo(w, hop) == w.hopAsk(m.src, 0, m.dst);
    NeverHomeless(s, m, t.cat(ask), size);
    NeverHomeless(s, m, t.cat(hop), size);
    FindMemberIn(members, m.dst);
    if IsMissing(Resolve(members, w, hint)) {
      MissingMeansAllAnswered(members, w, hint);
      assert LeadsNowhere(members, w, hint, src);
      assert t.cat(ask) >= 7;
      SourceForwards(s, m, t.log(ask), size);
    }
  }
}
