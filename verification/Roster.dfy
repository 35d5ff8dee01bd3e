/** The federation roster: who is a member, and how copies of it read from several members merge. */
module Rosters {
  import opened Wrappers
  import opened Order

  datatype Member = Member(name: string, node: string, joinedAt: int, status: string)

  datatype Roster = Roster(fedID: string, members: seq<Member>)

  const ACTIVE := "active"
  const LEFT := "left"
  const EVICTED := "evicted"

  function Active(ms: seq<Member>): seq<Member> {
    if ms == [] then [] else (if ms[0].status == ACTIVE then [ms[0]] else []) + Active(ms[1..])
  }

  function FindMember(ms: seq<Member>, name: string): Option<Member> {
    if ms == [] then None else if ms[0].name == name then Some(ms[0]) else FindMember(ms[1..], name)
  }

  lemma {:induction false} ActiveIn(ms: seq<Member>, m: Member)
    ensures m in Active(ms) <==> m in ms && m.status == ACTIVE
  {
    if ms != [] {
      ActiveIn(ms[1..], m);
      assert ms == [ms[0]] + ms[1..];
    }
  }

  lemma {:induction false} FindMemberIn(ms: seq<Member>, name: string)
    ensures FindMember(ms, name).Some? <==> exists m :: m in ms && m.name == name
    ensures FindMember(ms, name).Some? ==> FindMember(ms, name).value in ms && FindMember(ms, name).value.name == name
  {
    if ms != [] {
      FindMemberIn(ms[1..], name);
      assert ms == [ms[0]] + ms[1..];
    }
  }

  // ---- merging ---------------------------------------------------------------------------

  /** A terminal status outranks an active or unknown one. */
  function StatusRank(status: string): nat {
    if status == EVICTED then 2 else if status == LEFT then 1 else 0
  }

  predicate MemberWins(cand: Member, cur: Member) {
    cand.joinedAt > cur.joinedAt || (cand.joinedAt == cur.joinedAt && StatusRank(cand.status) > StatusRank(cur.status))
  }

  /** a is at most as recent, and at most as terminal, as b. */
  predicate AtMost(a: Member, b: Member) {
    !MemberWins(a, b)
  }

  /** Rows that say the same of a member, as far as merging can tell. */
  predicate SameStanding(a: Member, b: Member) {
    a.name == b.name && a.joinedAt == b.joinedAt && StatusRank(a.status) == StatusRank(b.status)
  }

  /** The rows of several rosters, one roster after the other. */
  function AllRows(rs: seq<Roster>): seq<Member> {
    if rs == [] then [] else AllRows(rs[..|rs| - 1]) + rs[|rs| - 1].members
  }

  /** The row that wins for each name. */
  function Winners(ms: seq<Member>): map<string, Member> {
    if ms == [] then map[]
    else
      var w, m := Winners(ms[..|ms| - 1]), ms[|ms| - 1];
      if m.name !in w || MemberWins(m, w[m.name]) then w[m.name := m] else w
  }

  /** Per name, the merge picks a maximum of (joined at, status rank) over all the rows read. */
  lemma {:induction false} WinnersAreMaximal(ms: seq<Member>)
    ensures forall n :: n in Winners(ms) <==> exists m :: m in ms && m.name == n
    ensures forall n :: n in Winners(ms) ==> Winners(ms)[n] in ms && Winners(ms)[n].name == n
    ensures forall m :: m in ms ==> m.name in Winners(ms) && AtMost(m, Winners(ms)[m.name])
  {
    if ms != [] {
      WinnersAreMaximal(ms[..|ms| - 1]);
      assert ms == ms[..|ms| - 1] + [ms[|ms| - 1]];
    }
  }

  /** The merge depends on which rows were read, not on the order of rosters or of rows in them, nor
      on how often a row was read. */
  lemma MergeOrderIndependent(a: seq<Member>, b: seq<Member>)
    requires SameRows(a, b)
    ensures Winners(a).Keys == Winners(b).Keys
    ensures forall n :: n in Winners(a) ==> SameStanding(Winners(a)[n], Winners(b)[n])
  {
    WinnersAreMaximal(a);
    WinnersAreMaximal(b);
  }

  ghost predicate SameRows(a: seq<Member>, b: seq<Member>) {
    forall m :: m in a <==> m in b
  }

  /** No two different rows of one member stand at the top. */
  predicate Untied(ms: seq<Member>) {
    forall m :: m in ms && m.name in Winners(ms) && SameStanding(m, Winners(ms)[m.name]) ==> m == Winners(ms)[m.name]
  }

  /** A row that nothing beats wins if it is read first. */
  lemma {:induction false} FirstStays(m: Member, ms: seq<Member>)
    requires forall x :: x in ms && x.name == m.name ==> AtMost(x, m)
    ensures m.name in Winners([m] + ms) && Winners([m] + ms)[m.name] == m
  {
    var all := [m] + ms;
    if ms == [] {
      assert all == [m] && [m][..0] == [];
      assert Winners([m][..0]) == map[];
    } else {
      var n := |ms| - 1;
      FirstStays(m, ms[..n]);
      assert all[..|all| - 1] == [m] + ms[..n] && all[|all| - 1] == ms[n];
    }
  }

  /** The merged rows themselves depend on the order exactly when there is a tie: every order of reading the
      same rows gives the same winners if and only if no two different rows stand at the top. */
  lemma MergeDeterministicIff(a: seq<Member>)
    ensures (forall b :: SameRows(a, b) ==> Winners(b) == Winners(a)) <==> Untied(a)
  {
    WinnersAreMaximal(a);
    if Untied(a) {
      forall b | SameRows(a, b)
        ensures Winners(b) == Winners(a)
      {
        MergeOrderIndependent(a, b);
        WinnersAreMaximal(b);
      }
    } else {
      var m :| m in a && SameStanding(m, Winners(a)[m.name]) && m != Winners(a)[m.name];
      var b := [m] + a;
      FirstStays(m, a);
      assert SameRows(a, b) && Winners(b)[m.name] == m;
    }
  }

  ghost predicate IsRowsOf(ms: seq<Member>, w: map<string, Member>) {
    forall m :: m in ms <==> m.name in w && w[m.name] == m
  }

  /** Every row of a is at most as good as b's winner of that name. */
  ghost predicate Dominated(a: seq<Member>, b: seq<Member>) {
    forall m :: m in a ==> m.name in Winners(b) && AtMost(m, Winners(b)[m.name])
  }

  lemma MutuallyDominated(a: seq<Member>, b: seq<Member>)
    requires Dominated(a, b) && Dominated(b, a)
    ensures Winners(a).Keys == Winners(b).Keys
    ensures forall n :: n in Winners(a) ==> SameStanding(Winners(a)[n], Winners(b)[n])
  {
    WinnersAreMaximal(a);
    WinnersAreMaximal(b);
  }

  lemma DominatedParts(a: seq<Member>, b: seq<Member>, c: seq<Member>)
    requires Dominated(a, c) && Dominated(b, c)
    ensures Dominated(a + b, c)
  {
    forall m | m in a + b
      ensures m.name in Winners(c) && AtMost(m, Winners(c)[m.name])
    {
      assert m in a || m in b;
    }
  }

  lemma SubsetDominated(a: seq<Member>, b: seq<Member>)
    requires forall m :: m in a ==> m in b
    ensures Dominated(a, b)
  {
    WinnersAreMaximal(b);
  }

  lemma DominatedThrough(a: seq<Member>, b: seq<Member>, c: seq<Member>)
    requires Dominated(a, b) && forall m :: m in b && m.name in Winners(b) && Winners(b)[m.name] == m ==> m in c
    ensures Dominated(a, c)
  {
    WinnersAreMaximal(b);
    WinnersAreMaximal(c);
  }

  /** Merging merged rosters is merging them all at once. */
  lemma MergeAssociative(a: seq<Member>, b: seq<Member>, ab: seq<Member>, c: seq<Member>)
    requires IsRowsOf(ab, Winners(a + b))
    ensures Winners(ab + c).Keys == Winners(a + b + c).Keys
    ensures forall n :: n in Winners(ab + c) ==> SameStanding(Winners(ab + c)[n], Winners(a + b + c)[n])
  {
    WinnersAreMaximal(a + b);
    assert forall m :: m in ab ==> m in a + b;
    SubsetDominated(ab + c, a + b + c);
    SubsetDominated(a + b, a + b);
    DominatedThrough(a + b, a + b, ab + c);
    SubsetDominated(c, ab + c);
    DominatedParts(a + b, c, ab + c);
    MutuallyDominated(ab + c, a + b + c);
  }

  /** Merging a merged roster with itself gives the same rows. */
  lemma MergeIdempotent(a: seq<Member>, r: seq<Member>)
    requires IsRowsOf(r, Winners(a))
    ensures Winners(r) == Winners(a) && Winners(r + r) == Winners(a)
  {
    WinnersAreMaximal(a);
    WinnersAreMaximal(r);
    WinnersAreMaximal(r + r);
    forall n | n in Winners(a)
      ensures n in Winners(r) && Winners(r)[n] == Winners(a)[n]
      ensures n in Winners(r + r) && Winners(r + r)[n] == Winners(a)[n]
    {
      assert Winners(a)[n] in r && Winners(a)[n] in r + r;
    }
    assert Winners(r).Keys == Winners(a).Keys;
    assert Winners(r + r).Keys == Winners(a).Keys;
  }

  predicate Terminal(m: Member) {
    StatusRank(m.status) > 0
  }

  /** A member shows as gone exactly when some row says so that no other row is newer than. */
  lemma MergedTerminalIff(ms: seq<Member>, n: string)
    requires n in Winners(ms)
    ensures Terminal(Winners(ms)[n]) <==>
      exists m :: m in ms && m.name == n && Terminal(m) && forall x :: x in ms && x.name == n ==> x.joinedAt <= m.joinedAt
  {
    WinnersAreMaximal(ms);
    var w := Winners(ms)[n];
    if Terminal(w) {
      assert forall x :: x in ms && x.name == n ==> AtMost(x, w);
    }
  }

  /** Of the rows that no other is newer than, an eviction outranks a departure and a departure any other
      status. */
  lemma MergedStatus(ms: seq<Member>, n: string)
    requires n in Winners(ms)
    ensures var w := Winners(ms)[n];
            && w in ms && w.name == n && (forall m :: m in ms && m.name == n ==> m.joinedAt <= w.joinedAt)
            && (w.status == "evicted" <==> exists m :: m in ms && m.name == n && m.joinedAt == w.joinedAt && m.status == "evicted")
            && (w.status in {"evicted", "left"} <==> exists m :: m in ms && m.name == n && m.joinedAt == w.joinedAt && m.status in {"evicted", "left"})
            && (Terminal(w) <==> w.status in {"evicted", "left"})
  {
    WinnersAreMaximal(ms);
    var w := Winners(ms)[n];
    assert forall m :: m in ms && m.name == n ==> AtMost(m, w);
  }

  /** A roster copy with one member's status rewritten, as a leave or an eviction does. */
  function SetMemberStatus(ms: seq<Member>, name: string, status: string): seq<Member> {
    seq(|ms|, i requires 0 <= i < |ms| => if ms[i].name == name then ms[i].(status := status) else ms[i])
  }

  method SetStatus(ms: seq<Member>, name: string, status: string) returns (r: seq<Member>)
    ensures r == SetMemberStatus(ms, name, status)
  {
    r := ms;
    for i := 0 to |ms|
      invariant |r| == |ms|
      invariant forall j :: 0 <= j < |ms| ==> r[j] == if j < i && ms[j].name == name then ms[j].(status := status) else ms[j]
    {
      if r[i].name == name {
        r := r[i := r[i].(status := status)];
      }
    }
  }

  lemma {:induction false} RowInAll(rs: seq<Roster>, i: nat, m: Member)
    requires i < |rs| && m in rs[i].members
    ensures m in AllRows(rs)
  {
    if i < |rs| - 1 {
      RowInAll(rs[..|rs| - 1], i, m);
    }
  }

  lemma {:induction false} RowFromSome(rs: seq<Roster>, m: Member) returns (i: nat)
    requires m in AllRows(rs)
    ensures i < |rs| && m in rs[i].members
  {
    if m in rs[|rs| - 1].members {
      i := |rs| - 1;
    } else {
      i := RowFromSome(rs[..|rs| - 1], m);
    }
  }

  /** A copy that was written has the member as gone; one that was not has it unchanged. */
  lemma WrittenRow(ms: seq<Member>, n: string, status: string, m: Member)
    requires m in SetMemberStatus(ms, n, status)
    ensures exists x :: x in ms && x.name == m.name && x.joinedAt == m.joinedAt
  {
    var l :| 0 <= l < |ms| && SetMemberStatus(ms, n, status)[l] == m;
    assert ms[l] in ms;
  }

  predicate Joined(ms: seq<Member>, n: string, joined: int) {
    forall m :: m in ms && m.name == n ==> m.joinedAt == joined
  }

  /** When all copies agree on when the member joined, a departure written to any non-empty subset of
      the copies shows as terminal in the merge of them all. */
  lemma DepartureSticks(rs: seq<Roster>, written: set<nat>, n: string, status: string, joined: int, out: seq<Roster>, i: nat, row: Member)
    requires |out| == |rs| && StatusRank(status) > 0
    requires forall k :: 0 <= k < |rs| ==> out[k].members == if k in written then SetMemberStatus(rs[k].members, n, status) else rs[k].members
    requires forall k :: 0 <= k < |rs| ==> Joined(rs[k].members, n, joined)
    requires i in written && i < |rs| && row in rs[i].members && row.name == n
    ensures n in Winners(AllRows(out)) && Terminal(Winners(AllRows(out))[n])
  {
    var rows := AllRows(out);
    WinnersAreMaximal(rows);
    var k :| 0 <= k < |rs[i].members| && rs[i].members[k] == row;
    var gone := SetMemberStatus(rs[i].members, n, status)[k];
    RowInAll(out, i, gone);
    var w := Winners(rows)[n];
    var j := RowFromSome(out, w);
    if j in written {
      WrittenRow(rs[j].members, n, status, w);
    }
    assert Joined(rs[j].members, n, joined);
    assert w.joinedAt == joined && AtMost(gone, w);
  }

  // ---- the merge as it runs --------------------------------------------------------------

  /** The federation the rosters agree on: None if they name two, or none at all. */
  ghost predicate AgreedID(rs: seq<Roster>, id: string) {
    id != "" && (exists i :: 0 <= i < |rs| && rs[i].fedID == id) && forall i :: 0 <= i < |rs| ==> rs[i].fedID in {"", id}
  }

  method Merge(rs: seq<Roster>) returns (r: Option<Roster>)
    ensures r.None? <==> forall id :: !AgreedID(rs, id)
    ensures r.Some? ==> AgreedID(rs, r.value.fedID)
    ensures r.Some? ==> IsRowsOf(r.value.members, Winners(AllRows(rs)))
    ensures r.Some? ==> forall i, j :: 0 <= i < j < |r.value.members| ==> Less(r.value.members[i].name, r.value.members[j].name)
  {
    var fedID := "";
    var byName: map<string, Member> := map[];
    for i := 0 to |rs|
      invariant byName == Winners(AllRows(rs[..i]))
      invariant fedID == "" ==> forall j :: 0 <= j < i ==> rs[j].fedID == ""
      invariant fedID != "" ==> exists j :: 0 <= j < i && rs[j].fedID == fedID
      invariant fedID != "" ==> forall j :: 0 <= j < i ==> rs[j].fedID in {"", fedID}
    {
      assert rs[..i + 1][..i] == rs[..i];
      if rs[i].fedID != "" && fedID != "" && rs[i].fedID != fedID {
        ghost var j :| 0 <= j < i && rs[j].fedID == fedID;
        assert forall id :: rs[i].fedID in {"", id} && rs[j].fedID in {"", id} ==> id == rs[i].fedID && id == fedID;
        return None;
      }
      fedID := if rs[i].fedID != "" then rs[i].fedID else fedID;
      byName := TakeRows(byName, rs[i].members, AllRows(rs[..i]));
    }
    assert rs[..|rs|] == rs;
    if fedID == "" {
      return None;
    }
    WinnersAreMaximal(AllRows(rs));
    assert AgreedID(rs, fedID);
    var ms := RowsByName(byName);
    r := Some(Roster(fedID, ms));
  }

  method RowsByName(byName: map<string, Member>) returns (ms: seq<Member>)
    requires forall n :: n in byName ==> byName[n].name == n
    ensures IsRowsOf(ms, byName)
    ensures forall i, j :: 0 <= i < j < |ms| ==> Less(ms[i].name, ms[j].name)
  {
    var names := SortedKeys(byName.Keys);
    assert forall i :: 0 <= i < |names| ==> names[i] in names;
    ms := seq(|names|, i requires 0 <= i < |names| => byName[names[i]]);
    forall m: Member | m.name in byName && byName[m.name] == m
      ensures m in ms
    {
      var i :| 0 <= i < |names| && names[i] == m.name;
      assert ms[i] == m;
    }
  }

  method TakeRows(byName: map<string, Member>, ms: seq<Member>, ghost before: seq<Member>) returns (r: map<string, Member>)
    requires byName == Winners(before)
    ensures r == Winners(before + ms)
  {
    r := byName;
    assert before + ms[..0] == before;
    for i := 0 to |ms|
      invariant r == Winners(before + ms[..i])
    {
      var m := ms[i];
      assert (before + ms[..i + 1])[..|before| + i] == before + ms[..i];
      if m.name !in r || MemberWins(m, r[m.name]) {
        r := r[m.name := m];
      }
    }
    assert ms[..|ms|] == ms;
  }
}
