/** Where does a file live now, and what may be concluded from who answered? The resolver asks the
    recorded home, then every active member, then chases forwarding pointers. Probes and queries are
    oracles, one answer per call, so a member may be up for one call and down for the next. */
module Resolver {
  import opened Wrappers
  import opened Catalogs
  import opened Rosters

  const MAX_MOVE_HOPS: nat := 4

  /** What one member reports: the row if it holds the id, a forwarding pointer, a move in flight. */
  datatype MemberView = MemberView(member: string, file: Option<File>, movedTo: string, pendingMove: bool)

  /** A query either answers or fails (a broken WAL chain, say). */
  datatype Answer = View(v: MemberView) | QueryError

  /** One answer for every probe and query a resolution may make. A hop is named by the view it
      starts from, its number, and the member asked. */
  datatype World = World(homeUp: bool, home: Answer,
                         up: string -> bool, ask: string -> Answer,
                         hopUp: (string, nat, string) -> bool, hopAsk: (string, nat, string) -> Answer)

  datatype Reach = Reach(required: set<string>, answered: set<string>, unreachable: set<string>)

  datatype Outcome = FoundAtHome | FoundElsewhere | PartialView | Missing

  datatype Resolution =
    | Resolved(outcome: Outcome, view: Option<MemberView>, pointer: string, reach: Reach)
    | Failed

  datatype Chase = Terminal(r: Resolution) | DeadEnd

  function Names(ms: seq<Member>): set<string> {
    set m | m in ms :: m.name
  }

  function Probe(ms: seq<Member>, up: string -> bool): Reach {
    Reach(Names(ms), set n | n in Names(ms) && up(n), set n | n in Names(ms) && !up(n))
  }

  function FoundOutcome(member: string, hint: string): Outcome {
    if member == hint then FoundAtHome else FoundElsewhere
  }

  function Found(v: MemberView, hint: string, reach: Reach): Resolution {
    Resolved(FoundOutcome(v.member, hint), Some(v), "", reach)
  }

  function WithUnreachable(reach: Reach, name: string): Reach {
    if name in reach.unreachable || name in reach.answered then reach
    else reach.(unreachable := reach.unreachable + {name}, required := reach.required + {name})
  }

  function Partial(reach: Reach, pointer: string): Resolution {
    Resolved(PartialView, None, pointer, if pointer == "" then reach else WithUnreachable(reach, pointer))
  }

  /** Chase a chain of forwarding pointers: at most four hops, never the same member twice. */
  function Follow(members: seq<Member>, w: World, hint: string, reach: Reach, start: string, dest: string, visited: set<string>, hop: nat): Chase
    decreases MAX_MOVE_HOPS - hop
  {
    if hop >= MAX_MOVE_HOPS || dest in visited then Terminal(Failed)
    else if FindMember(members, dest).None? then Terminal(Partial(reach, dest))
    else if !w.hopUp(start, hop, dest) then Terminal(Partial(reach, dest))
    else match w.hopAsk(start, hop, dest)
      case QueryError => Terminal(Failed)
      case View(v) =>
        if v.file.Some? then Terminal(Found(v, hint, reach))
        else if v.movedTo != "" then Follow(members, w, hint, reach, start, v.movedTo, visited + {dest}, hop + 1)
        else DeadEnd
  }

  /** The views of the members that answered, in roster order; none if any query failed. */
  function Views(ms: seq<Member>, w: World): Option<seq<MemberView>> {
    if ms == [] then Some([])
    else if !w.up(ms[0].name) then Views(ms[1..], w)
    else if w.ask(ms[0].name).QueryError? then None
    else
      var rest := Views(ms[1..], w);
      if rest.None? then None else Some([w.ask(ms[0].name).v] + rest.value)
  }

  function FirstFound(vs: seq<MemberView>): Option<MemberView> {
    if vs == [] then None else if vs[0].file.Some? then Some(vs[0]) else FirstFound(vs[1..])
  }

  /** Try the forwarding pointers of the views in order; the first terminal verdict wins. */
  function Forwarded(members: seq<Member>, w: World, hint: string, reach: Reach, vs: seq<MemberView>): Chase {
    if vs == [] then DeadEnd
    else if vs[0].movedTo == "" then Forwarded(members, w, hint, reach, vs[1..])
    else
      var c := Follow(members, w, hint, reach, vs[0].member, vs[0].movedTo, {vs[0].member}, 0);
      if c.Terminal? then c else Forwarded(members, w, hint, reach, vs[1..])
  }

  predicate AnyPending(vs: seq<MemberView>) {
    exists i :: 0 <= i < |vs| && vs[i].pendingMove
  }

  function Fanout(members: seq<Member>, w: World, hint: string): Resolution {
    var active := Active(members);
    var reach := Probe(active, w.up);
    var views := Views(active, w);
    if views.None? then Failed
    else
      var found := FirstFound(views.value);
      if found.Some? then Found(found.value, hint, reach)
      else
        var c := Forwarded(members, w, hint, reach, views.value);
        if c.Terminal? then c.r
        else if reach.unreachable != {} then Partial(reach, "")
        else if AnyPending(views.value) then Partial(reach, "")
        else Resolved(Missing, None, "", reach)
  }

  function Resolve(members: seq<Member>, w: World, hint: string): Resolution {
    if hint != "" && FindMember(Active(members), hint).Some? && w.homeUp then
      match w.home
      case QueryError => Failed
      case View(v) =>
        if v.file.Some? then Resolved(FoundAtHome, Some(v), "", Probe([FindMember(Active(members), hint).value], _ => true))
        else Fanout(members, w, hint)
    else Fanout(members, w, hint)
  }

  // ---- the client code -------------------------------------------------------------------

  /** Member asked[i] was asked at hop i because the one before it, or the view the chase began with,
      pointed to it and did not hold the file. Nobody is asked twice. */
  ghost predicate Hopped(members: seq<Member>, w: World, start: MemberView, asked: seq<string>) {
    && |asked| <= 4 && start.member !in asked
    && (forall i, j :: 0 <= i < j < |asked| ==> asked[i] != asked[j])
    && forall i :: 0 <= i < |asked| ==> (exists m :: m in members && m.name == asked[i]) && w.hopUp(start.member, i, asked[i]) && PointsOn(w, start, asked[..i], asked[i])
  }

  /** After these hops the chase is directed to dest. */
  predicate PointsOn(w: World, start: MemberView, asked: seq<string>, dest: string) {
    if asked == [] then dest == start.movedTo
    else
      var a := LastAnswer(w, start, asked);
      a.View? && a.v.file.None? && a.v.movedTo != "" && a.v.movedTo == dest
  }

  function LastAnswer(w: World, start: MemberView, asked: seq<string>): Answer
    requires asked != []
  {
    w.hopAsk(start.member, |asked| - 1, asked[|asked| - 1])
  }

  /** What a chase that asked these members concludes: from the last answer if it settles the matter, and
      from where that answer points if nobody can or may be asked there. */
  ghost predicate ChaseEnds(members: seq<Member>, w: World, hint: string, reach: Reach, start: MemberView, asked: seq<string>, c: Chase) {
    if asked != [] && LastAnswer(w, start, asked).QueryError? then c == Terminal(Failed)
    else if asked != [] && LastAnswer(w, start, asked).v.file.Some? then
      var v := LastAnswer(w, start, asked).v;
      c == Terminal(Resolved(if v.member == hint then FoundAtHome else FoundElsewhere, Some(v), "", reach))
    else if asked != [] && LastAnswer(w, start, asked).v.movedTo == "" then c == DeadEnd
    else
      var dest := if asked == [] then start.movedTo else LastAnswer(w, start, asked).v.movedTo;
      if |asked| == 4 || dest == start.member || dest in asked then c == Terminal(Failed)
      else ((forall m :: m in members ==> m.name != dest) || !w.hopUp(start.member, |asked|, dest)) && StopsAt(reach, dest, c)
  }

  /** The file is known to have moved to a member that cannot be asked, which now counts as out of reach. */
  predicate StopsAt(reach: Reach, dest: string, c: Chase) {
    c.Terminal? && c.r.Resolved? && c.r.outcome == PartialView && c.r.view.None? && c.r.pointer == dest
      && c.r.reach.answered == reach.answered
      && c.r.reach.unreachable == (if dest in reach.answered then reach.unreachable else reach.unreachable + {dest})
      && c.r.reach.required == (if dest in reach.answered + reach.unreachable then reach.required else reach.required + {dest})
  }

  /** The pointer chase as the code runs it; asked lists the members queried, each once. */
  method FollowPointers(members: seq<Member>, w: World, hint: string, reach: Reach, start: MemberView)
    returns (c: Chase, asked: seq<string>)
    requires start.movedTo != ""
    ensures c == Follow(members, w, hint, reach, start.member, start.movedTo, {start.member}, 0)
    ensures Hopped(members, w, start, asked) && ChaseEnds(members, w, hint, reach, start, asked, c)
  {
    var visited, dest := {start.member}, start.movedTo;
    asked := [];
    var hop := 0;
    while hop < MAX_MOVE_HOPS
      invariant hop <= MAX_MOVE_HOPS && |asked| == hop
      invariant Follow(members, w, hint, reach, start.member, start.movedTo, {start.member}, 0)
             == Follow(members, w, hint, reach, start.member, dest, visited, hop)
      invariant visited == {start.member} + (set n | n in asked)
      invariant Hopped(members, w, start, asked) && PointsOn(w, start, asked, dest)
    {
      if dest in visited {
        return Terminal(Failed), asked;
      }
      var m := FindMember(members, dest);
      FindMemberIn(members, dest);
      if m.None? || !w.hopUp(start.member, hop, dest) {
        return Terminal(Partial(reach, dest)), asked;
      }
      OneHop(members, w, start, asked, dest);
      visited, asked := visited + {dest}, asked + [dest];
      var a := w.hopAsk(start.member, hop, dest);
      if a.QueryError? {
        return Terminal(Failed), asked;
      }
      if a.v.file.Some? {
        return Terminal(Found(a.v, hint, reach)), asked;
      }
      if a.v.movedTo == "" {
        return DeadEnd, asked;
      }
      dest := a.v.movedTo;
      hop := hop + 1;
    }
    return Terminal(Failed), asked;
  }

  lemma OneHop(members: seq<Member>, w: World, start: MemberView, asked: seq<string>, dest: string)
    requires Hopped(members, w, start, asked) && PointsOn(w, start, asked, dest) && |asked| < 4
    requires dest != start.member && dest !in asked && (exists m :: m in members && m.name == dest) && w.hopUp(start.member, |asked|, dest)
    ensures Hopped(members, w, start, asked + [dest])
  {
    var more := asked + [dest];
    forall i | 0 <= i < |more|
      ensures (exists m :: m in members && m.name == more[i]) && w.hopUp(start.member, i, more[i]) && PointsOn(w, start, more[..i], more[i])
    {
      assert more[..i] == asked[..i];
      if i == |asked| {
        assert asked[..i] == asked;
      }
    }
  }

  function Prepend(acc: seq<MemberView>, rest: Option<seq<MemberView>>): Option<seq<MemberView>> {
    if rest.None? then None else Some(acc + rest.value)
  }

  method QueryMembers(ms: seq<Member>, w: World) returns (views: Option<seq<MemberView>>)
    ensures views == Views(ms, w)
  {
    var acc := [];
    assert ms[0..] == ms;
    assert Views(ms, w).Some? ==> acc + Views(ms, w).value == Views(ms, w).value;
    for i := 0 to |ms|
      invariant Views(ms, w) == Prepend(acc, Views(ms[i..], w))
    {
      var rest := ms[i..];
      assert rest[1..] == ms[i + 1..];
      if w.up(ms[i].name) {
        var a := w.ask(ms[i].name);
        if a.QueryError? {
          return None;
        }
        assert Views(rest[1..], w).Some? ==> acc + Views(rest, w).value == (acc + [a.v]) + Views(rest[1..], w).value;
        acc := acc + [a.v];
      }
    }
    assert ms[|ms|..] == [];
    assert acc + [] == acc;
    return Some(acc);
  }

  method ResolveID(members: seq<Member>, w: World, hint: string) returns (r: Resolution)
    ensures r == Resolve(members, w, hint)
  {
    var active := Active(members);
    var home := if hint == "" then None else FindMember(active, hint);
    if home.Some? && w.homeUp {
      if w.home.QueryError? {
        return Failed;
      }
      if w.home.v.file.Some? {
        return Resolved(FoundAtHome, Some(w.home.v), "", Probe([home.value], _ => true));
      }
    }
    var reach := Probe(active, w.up);
    var views := QueryMembers(active, w);
    if views.None? {
      return Failed;
    }
    r := Classify(members, w, hint, reach, views.value);
  }

  /** What the answers of a fan-out add up to. */
  method Classify(members: seq<Member>, w: World, hint: string, reach: Reach, vs: seq<MemberView>) returns (r: Resolution)
    ensures var found, c := FirstFound(vs), Forwarded(members, w, hint, reach, vs);
            r == if found.Some? then Found(found.value, hint, reach)
                 else if c.Terminal? then c.r
                 else if reach.unreachable != {} || AnyPending(vs) then Partial(reach, "")
                 else Resolved(Missing, None, "", reach)
  {
    for i := 0 to |vs|
      invariant FirstFound(vs) == FirstFound(vs[i..])
    {
      assert vs[i..][1..] == vs[i + 1..];
      if vs[i].file.Some? {
        return Found(vs[i], hint, reach);
      }
    }
    assert vs[|vs|..] == [];
    var c := TryForward(members, w, hint, reach, vs);
    if c.Terminal? {
      return c.r;
    }
    if reach.unreachable != {} {
      return Partial(reach, "");
    }
    for i := 0 to |vs|
      invariant forall j :: 0 <= j < i ==> !vs[j].pendingMove
    {
      if vs[i].pendingMove {
        return Partial(reach, "");
      }
    }
    return Resolved(Missing, None, "", reach);
  }

  method TryForward(members: seq<Member>, w: World, hint: string, reach: Reach, vs: seq<MemberView>) returns (c: Chase)
    ensures c == Forwarded(members, w, hint, reach, vs)
  {
    for i := 0 to |vs|
      invariant Forwarded(members, w, hint, reach, vs) == Forwarded(members, w, hint, reach, vs[i..])
    {
      assert vs[i..][1..] == vs[i + 1..];
      if vs[i].movedTo != "" {
        var asked;
        c, asked := FollowPointers(members, w, hint, reach, vs[i]);
        if c.Terminal? {
          return;
        }
      }
    }
    c := DeadEnd;
  }

  // ---- what a verdict proves -------------------------------------------------------------

  lemma {:induction false} ViewsAreAnswers(ms: seq<Member>, w: World)
    requires Views(ms, w).Some?
    ensures forall m :: m in ms && w.up(m.name) ==> w.ask(m.name).View? && w.ask(m.name).v in Views(ms, w).value
    ensures forall v :: v in Views(ms, w).value ==> exists m :: m in ms && w.up(m.name) && w.ask(m.name) == View(v)
  {
    if ms != [] {
      ViewsAreAnswers(ms[1..], w);
      assert ms == [ms[0]] + ms[1..];
    }
  }

  lemma {:induction false} FirstFoundIn(vs: seq<MemberView>)
    ensures FirstFound(vs).Some? ==> FirstFound(vs).value in vs && FirstFound(vs).value.file.Some?
    ensures FirstFound(vs).None? ==> forall v :: v in vs ==> v.file.None?
  {
    if vs != [] {
      FirstFoundIn(vs[1..]);
      assert vs == [vs[0]] + vs[1..];
    }
  }

  lemma {:induction false} ChaseNeverMissing(members: seq<Member>, w: World, hint: string, reach: Reach, start: string, dest: string, visited: set<string>, hop: nat)
    ensures var c := Follow(members, w, hint, reach, start, dest, visited, hop);
            c.Terminal? && c.r.Resolved? ==> c.r.outcome != Missing
    decreases MAX_MOVE_HOPS - hop
  {
    if hop < MAX_MOVE_HOPS && dest !in visited && w.hopAsk(start, hop, dest).View? {
      ChaseNeverMissing(members, w, hint, reach, start, w.hopAsk(start, hop, dest).v.movedTo, visited + {dest}, hop + 1);
    }
  }

  lemma {:induction false} ForwardedNeverMissing(members: seq<Member>, w: World, hint: string, reach: Reach, vs: seq<MemberView>)
    ensures var c := Forwarded(members, w, hint, reach, vs);
            c.Terminal? && c.r.Resolved? ==> c.r.outcome != Missing
    ensures Forwarded(members, w, hint, reach, vs).DeadEnd? ==>
      forall v :: v in vs && v.movedTo != "" ==> Follow(members, w, hint, reach, v.member, v.movedTo, {v.member}, 0).DeadEnd?
  {
    if vs != [] {
      assert vs == [vs[0]] + vs[1..];
      ForwardedNeverMissing(members, w, hint, reach, vs[1..]);
      ChaseNeverMissing(members, w, hint, reach, vs[0].member, vs[0].movedTo, {vs[0].member}, 0);
    }
  }

  predicate IsMissing(r: Resolution) {
    r.Resolved? && r.outcome == Missing
  }

  /** An active member that answers the fan-out with a view. */
  predicate Answers(members: seq<Member>, w: World, m: Member) {
    m in members && m.status == ACTIVE && w.up(m.name) && w.ask(m.name).View?
  }

  predicate HoldsFile(members: seq<Member>, w: World, m: Member) {
    Answers(members, w, m) && w.ask(m.name).v.file.Some?
  }

  /** The recorded home is asked first, if it is an active member and up. */
  predicate HomeAsked(members: seq<Member>, w: World, hint: string) {
    hint != "" && w.homeUp && exists m :: m in members && m.status == ACTIVE && m.name == hint
  }

  predicate HomeHolds(members: seq<Member>, w: World, hint: string) {
    HomeAsked(members, w, hint) && w.home.View? && w.home.v.file.Some?
  }

  /** A query failed: that of the home, or one of the fan-out, which is not reached if the home has the file. */
  predicate QueryFails(members: seq<Member>, w: World, hint: string) {
    || (HomeAsked(members, w, hint) && w.home.QueryError?)
    || (!HomeHolds(members, w, hint) && exists m :: m in members && m.status == ACTIVE && w.up(m.name) && w.ask(m.name).QueryError?)
  }

  /** The chase from the pointer a member gave. */
  function ChaseFrom(members: seq<Member>, w: World, hint: string, m: Member): Chase
    requires w.ask(m.name).View?
  {
    Follow(members, w, hint, Probe(Active(members), w.up), w.ask(m.name).v.member, w.ask(m.name).v.movedTo, {w.ask(m.name).v.member}, 0)
  }

  lemma HomeFound(members: seq<Member>, hint: string)
    ensures FindMember(Active(members), hint).Some? <==> exists m :: m in members && m.status == ACTIVE && m.name == hint
    ensures FindMember(Active(members), hint).Some? ==> FindMember(Active(members), hint).value.name == hint
  {
    FindMemberIn(Active(members), hint);
    forall m
      ensures m in Active(members) <==> m in members && m.status == ACTIVE
    {
      ActiveIn(members, m);
    }
  }

  lemma {:induction false} NoViews(ms: seq<Member>, w: World)
    ensures Views(ms, w).None? <==> exists m :: m in ms && w.up(m.name) && w.ask(m.name).QueryError?
  {
    if ms != [] {
      NoViews(ms[1..], w);
      assert ms == [ms[0]] + ms[1..];
    }
  }

  /** The file is where the record says: one query, one member in scope. */
  lemma HomeAnswers(members: seq<Member>, w: World, hint: string)
    requires HomeHolds(members, w, hint)
    ensures Resolve(members, w, hint) == Resolved(FoundAtHome, Some(w.home.v), "", Reach({hint}, {hint}, {}))
  {
    HomeFound(members, hint);
    var home := FindMember(Active(members), hint).value;
    assert Names([home]) == {hint};
  }

  /** Failure is a failed query, or, when nobody who answered holds the file, a pointer chase that fails. */
  lemma FailureIsReal(members: seq<Member>, w: World, hint: string)
    ensures QueryFails(members, w, hint) ==> Resolve(members, w, hint).Failed?
    ensures Resolve(members, w, hint).Failed? && !QueryFails(members, w, hint) ==>
              (forall m :: !HoldsFile(members, w, m)) && exists m :: Answers(members, w, m) && w.ask(m.name).v.movedTo != "" && ChaseFrom(members, w, hint, m) == Terminal(Failed)
  {
    FanoutFacts(members, w, hint);
    if Resolve(members, w, hint).Failed? && !QueryFails(members, w, hint) {
      ViewsOfMembers(members, w, Views(Active(members), w).value);
      ForwardedIsSomebodys(members, w, hint, Probe(Active(members), w.up), Views(Active(members), w).value);
    }
  }

  lemma ActiveMembers(members: seq<Member>)
    ensures forall m :: m in Active(members) <==> m in members && m.status == ACTIVE
  {
    forall m
      ensures m in Active(members) <==> m in members && m.status == ACTIVE
    {
      ActiveIn(members, m);
    }
  }

  /** The views are the answers, one by one. */
  lemma ViewsOfMembers(members: seq<Member>, w: World, vs: seq<MemberView>)
    requires Views(Active(members), w) == Some(vs)
    ensures forall m :: Answers(members, w, m) ==> w.ask(m.name).v in vs
    ensures forall v :: v in vs ==> exists m :: Answers(members, w, m) && w.ask(m.name).v == v
    ensures FirstFound(vs).None? <==> forall m :: !HoldsFile(members, w, m)
    ensures FirstFound(vs).Some? ==> exists m :: HoldsFile(members, w, m) && w.ask(m.name).v == FirstFound(vs).value
  {
    ActiveMembers(members);
    ViewsAreAnswers(Active(members), w);
    FirstFoundIn(vs);
    forall v | v in vs
      ensures exists m :: Answers(members, w, m) && w.ask(m.name).v == v
    {
      var m :| m in Active(members) && w.up(m.name) && w.ask(m.name) == View(v);
      assert Answers(members, w, m);
    }
    if FirstFound(vs).Some? {
      var m :| Answers(members, w, m) && w.ask(m.name).v == FirstFound(vs).value;
      assert HoldsFile(members, w, m);
    }
  }

  lemma FanoutFacts(members: seq<Member>, w: World, hint: string)
    ensures HomeAsked(members, w, hint) <==> hint != "" && FindMember(Active(members), hint).Some? && w.homeUp
    ensures Views(Active(members), w).None? <==> exists m :: m in members && m.status == ACTIVE && w.up(m.name) && w.ask(m.name).QueryError?
    ensures var reach := Probe(Active(members), w.up); reach.unreachable == {} <==> forall m :: m in members && m.status == ACTIVE ==> w.up(m.name)
  {
    HomeFound(members, hint);
    NoViews(Active(members), w);
    ActiveMembers(members);
    var reach := Probe(Active(members), w.up);
    assert forall m :: m in Active(members) && !w.up(m.name) ==> m.name in reach.unreachable;
    if n :| n in reach.unreachable {
      var m :| m in Active(members) && m.name == n;
      assert !w.up(m.name);
    }
  }

  lemma {:induction false} ForwardedIsSomebodys(members: seq<Member>, w: World, hint: string, reach: Reach, vs: seq<MemberView>)
    ensures var c := Forwarded(members, w, hint, reach, vs);
            c.Terminal? ==> exists v :: v in vs && v.movedTo != "" && Follow(members, w, hint, reach, v.member, v.movedTo, {v.member}, 0) == c
  {
    if vs != [] {
      ForwardedIsSomebodys(members, w, hint, reach, vs[1..]);
      assert vs[0] in vs && forall v :: v in vs[1..] ==> v in vs;
    }
  }

  /** The first of these members that is up and holds the file. */
  predicate FirstHolder(ms: seq<Member>, w: World, i: nat) {
    && i < |ms| && w.up(ms[i].name) && w.ask(ms[i].name).View? && w.ask(ms[i].name).v.file.Some?
    && forall j :: 0 <= j < i && w.up(ms[j].name) ==> w.ask(ms[j].name).View? && w.ask(ms[j].name).v.file.None?
  }

  lemma {:induction false} FoundFirst(ms: seq<Member>, w: World) returns (i: nat)
    requires Views(ms, w).Some? && FirstFound(Views(ms, w).value).Some?
    ensures FirstHolder(ms, w, i) && w.ask(ms[i].name).v == FirstFound(Views(ms, w).value).value
  {
    if w.up(ms[0].name) && w.ask(ms[0].name).v.file.Some? {
      i := 0;
    } else {
      var n := FoundFirst(ms[1..], w);
      i := n + 1;
    }
  }

  /** Whoever is out of reach, a file that an answering member holds is found, and the answer is that of
      the first such member, or of the home. */
  lemma HeldIsFound(members: seq<Member>, w: World, hint: string, m: Member)
    requires HoldsFile(members, w, m) && !QueryFails(members, w, hint)
    ensures var r := Resolve(members, w, hint);
            && r.Resolved? && r.outcome in {FoundAtHome, FoundElsewhere} && r.view.Some?
            && (!HomeHolds(members, w, hint) ==> r.reach == Probe(Active(members), w.up) && exists i: nat :: FirstHolder(Active(members), w, i) && r.view == Some(w.ask(Active(members)[i].name).v))
  {
    FanoutFacts(members, w, hint);
    if !HomeHolds(members, w, hint) {
      var vs := Views(Active(members), w).value;
      ViewsOfMembers(members, w, vs);
      var i := FoundFirst(Active(members), w);
    }
  }

  /** A partial view is never of a file that somebody who answered holds, and it has a cause: a pointer to
      a member that cannot be asked, an active member that is down, or a move in flight. */
  lemma PartialIsReal(members: seq<Member>, w: World, hint: string)
    requires var r := Resolve(members, w, hint); r.Resolved? && r.outcome == PartialView
    ensures forall m :: !HoldsFile(members, w, m)
    ensures !HomeHolds(members, w, hint) && !QueryFails(members, w, hint)
    ensures var r := Resolve(members, w, hint);
            || (exists m :: Answers(members, w, m) && w.ask(m.name).v.movedTo != "" && ChaseFrom(members, w, hint, m) == Terminal(r))
            || (r.pointer == "" && r.view.None? && r.reach == Probe(Active(members), w.up)
                && ((exists m :: m in members && m.status == ACTIVE && !w.up(m.name)) || exists m :: Answers(members, w, m) && w.ask(m.name).v.pendingMove))
  {
    FanoutFacts(members, w, hint);
    var vs := Views(Active(members), w).value;
    ViewsOfMembers(members, w, vs);
    ForwardedIsSomebodys(members, w, hint, Probe(Active(members), w.up), vs);
    if AnyPending(vs) {
      var i :| 0 <= i < |vs| && vs[i].pendingMove;
      assert vs[i] in vs;
    }
  }

  /** A chase that ends in a partial view adds the member it names to those out of reach, unless that one
      answered the fan-out. */
  predicate NamesPointer(reach: Reach, r: Resolution) {
    r.Resolved? && r.outcome == PartialView ==>
      && r.view.None? && r.pointer != "" && r.reach.answered == reach.answered
      && r.reach.unreachable == reach.unreachable + ({r.pointer} - reach.answered) && r.reach.required == r.reach.answered + r.reach.unreachable
  }

  lemma PointerNamed(reach: Reach, dest: string)
    requires dest != "" && reach.required == reach.answered + reach.unreachable
    ensures NamesPointer(reach, Partial(reach, dest))
  {
  }

  lemma {:induction false} FollowNames(members: seq<Member>, w: World, hint: string, reach: Reach, start: string, dest: string, visited: set<string>, hop: nat)
    requires dest != "" && reach.required == reach.answered + reach.unreachable
    ensures var c := Follow(members, w, hint, reach, start, dest, visited, hop); c.Terminal? ==> NamesPointer(reach, c.r)
    decreases MAX_MOVE_HOPS - hop
  {
    PointerNamed(reach, dest);
    if hop < MAX_MOVE_HOPS && dest !in visited && FindMember(members, dest).Some? && w.hopUp(start, hop, dest) {
      match w.hopAsk(start, hop, dest)
      case QueryError =>
      case View(v) =>
        if v.file.None? && v.movedTo != "" {
          FollowNames(members, w, hint, reach, start, v.movedTo, visited + {dest}, hop + 1);
        }
    }
  }

  lemma ChaseNames(members: seq<Member>, w: World, hint: string, m: Member)
    requires w.ask(m.name).View? && w.ask(m.name).v.movedTo != ""
    ensures var c := ChaseFrom(members, w, hint, m); c.Terminal? ==> NamesPointer(Probe(Active(members), w.up), c.r)
  {
    var reach := Probe(Active(members), w.up);
    assert reach.required == reach.answered + reach.unreachable;
    FollowNames(members, w, hint, reach, w.ask(m.name).v.member, w.ask(m.name).v.movedTo, {w.ask(m.name).v.member}, 0);
  }

  /** A partial view accounts for everybody: the active members that were up, those that were not, and the
      member a pointer named, if there is one and it did not answer. */
  lemma PartialAccounts(members: seq<Member>, w: World, hint: string)
    requires var r := Resolve(members, w, hint); r.Resolved? && r.outcome == PartialView
    ensures var r, active := Resolve(members, w, hint), Names(Active(members));
            && r.view.None? && r.reach.answered == (set n | n in active && w.up(n))
            && r.reach.unreachable == (set n | n in active && !w.up(n)) + (if r.pointer == "" then {} else {r.pointer} - r.reach.answered)
            && r.reach.required == r.reach.answered + r.reach.unreachable
  {
    PartialIsReal(members, w, hint);
    var r := Resolve(members, w, hint);
    if m :| Answers(members, w, m) && w.ask(m.name).v.movedTo != "" && ChaseFrom(members, w, hint, m) == Terminal(r) {
      ChaseNames(members, w, hint, m);
    }
  }

  predicate LeadsNowhere(members: seq<Member>, w: World, hint: string, m: Member) {
    && w.up(m.name) && w.ask(m.name).View? && w.ask(m.name).v.file.None? && !w.ask(m.name).v.pendingMove
    && (w.ask(m.name).v.movedTo != "" ==> ChaseFrom(members, w, hint, m).DeadEnd?)
  }

  ghost predicate NothingLeft(members: seq<Member>, w: World, hint: string) {
    && (HomeAsked(members, w, hint) ==> w.home.View? && w.home.v.file.None?)
    && forall m :: m in members && m.status == ACTIVE ==> LeadsNowhere(members, w, hint, m)
  }

  lemma MissingIsReal(members: seq<Member>, w: World, hint: string)
    requires IsMissing(Resolve(members, w, hint))
    ensures NothingLeft(members, w, hint)
  {
    FanoutFacts(members, w, hint);
    var vs := Views(Active(members), w).value;
    ViewsOfMembers(members, w, vs);
    ForwardedNeverMissing(members, w, hint, Probe(Active(members), w.up), vs);
    forall m | m in members && m.status == ACTIVE
      ensures LeadsNowhere(members, w, hint, m)
    {
      assert w.up(m.name) && Answers(members, w, m) && !HoldsFile(members, w, m);
      var i :| 0 <= i < |vs| && vs[i] == w.ask(m.name).v;
    }
  }

  lemma NothingLeftIsMissing(members: seq<Member>, w: World, hint: string)
    requires NothingLeft(members, w, hint)
    ensures IsMissing(Resolve(members, w, hint))
  {
    FanoutFacts(members, w, hint);
    forall m | m in members && m.status == ACTIVE
      ensures w.up(m.name) && w.ask(m.name).View?
    {
      assert LeadsNowhere(members, w, hint, m);
    }
    var vs := Views(Active(members), w).value;
    ViewsOfMembers(members, w, vs);
    ForwardedIsSomebodys(members, w, hint, Probe(Active(members), w.up), vs);
    forall v | v in vs
      ensures v.file.None? && !v.pendingMove
      ensures v.movedTo != "" ==> Follow(members, w, hint, Probe(Active(members), w.up), v.member, v.movedTo, {v.member}, 0).DeadEnd?
    {
      var m :| Answers(members, w, m) && w.ask(m.name).v == v;
      assert LeadsNowhere(members, w, hint, m);
    }
    FirstFoundIn(vs);
  }

  /** Missing is a proof of absence: every active member was up, answered, holds nothing, has no move
      in flight, and every forwarding pointer led nowhere. One unreachable member rules it out. And it is
      the verdict whenever that is so and the home, if it was asked, does not have the file either. */
  lemma MissingMeansAllAnswered(members: seq<Member>, w: World, hint: string)
    ensures IsMissing(Resolve(members, w, hint)) <==> NothingLeft(members, w, hint)
  {
    FanoutFacts(members, w, hint);
    if IsMissing(Resolve(members, w, hint)) {
      MissingIsReal(members, w, hint);
    } else if NothingLeft(members, w, hint) {
      NothingLeftIsMissing(members, w, hint);
    }
  }

  /** Every view a member gives is its own. */
  ghost predicate HonestNames(w: World) {
    && (forall n :: w.ask(n).View? ==> w.ask(n).v.member == n)
    && (forall s, h, n :: w.hopAsk(s, h, n).View? ==> w.hopAsk(s, h, n).v.member == n)
  }

  /** The view answers some call that was made to a reachable roster member. */
  ghost predicate WasAnswered(members: seq<Member>, w: World, hint: string, v: MemberView) {
    || (w.homeUp && w.home == View(v) && hint in Names(members))
    || (exists m :: m in members && w.up(m.name) && w.ask(m.name) == View(v))
    || (exists s, h, n :: FindMember(members, n).Some? && w.hopUp(s, h, n) && w.hopAsk(s, h, n) == View(v))
  }

  lemma {:induction false} ChaseFindsReal(members: seq<Member>, w: World, hint: string, reach: Reach, start: string, dest: string, visited: set<string>, hop: nat)
    ensures var c := Follow(members, w, hint, reach, start, dest, visited, hop);
            c.Terminal? && c.r.Resolved? && c.r.view.Some? ==>
              c.r.view.value.file.Some? && WasAnswered(members, w, hint, c.r.view.value) && c.r.outcome == FoundOutcome(c.r.view.value.member, hint)
    decreases MAX_MOVE_HOPS - hop
  {
    if hop < MAX_MOVE_HOPS && dest !in visited && w.hopAsk(start, hop, dest).View? {
      ChaseFindsReal(members, w, hint, reach, start, w.hopAsk(start, hop, dest).v.movedTo, visited + {dest}, hop + 1);
    }
  }

  lemma {:induction false} ForwardedFindsReal(members: seq<Member>, w: World, hint: string, reach: Reach, vs: seq<MemberView>)
    ensures var c := Forwarded(members, w, hint, reach, vs);
            c.Terminal? && c.r.Resolved? && c.r.view.Some? ==>
              c.r.view.value.file.Some? && WasAnswered(members, w, hint, c.r.view.value) && c.r.outcome == FoundOutcome(c.r.view.value.member, hint)
    ensures var c := Forwarded(members, w, hint, reach, vs);
            c.Terminal? && c.r.Resolved? ==> (c.r.view.Some? <==> c.r.outcome in {FoundAtHome, FoundElsewhere})
  {
    if vs != [] {
      ForwardedFindsReal(members, w, hint, reach, vs[1..]);
      ChaseFindsReal(members, w, hint, reach, vs[0].member, vs[0].movedTo, {vs[0].member}, 0);
      ChaseViewIffFound(members, w, hint, reach, vs[0].member, vs[0].movedTo, {vs[0].member}, 0);
    }
  }

  lemma {:induction false} ChaseViewIffFound(members: seq<Member>, w: World, hint: string, reach: Reach, start: string, dest: string, visited: set<string>, hop: nat)
    ensures var c := Follow(members, w, hint, reach, start, dest, visited, hop);
            c.Terminal? && c.r.Resolved? ==> (c.r.view.Some? <==> c.r.outcome in {FoundAtHome, FoundElsewhere})
    decreases MAX_MOVE_HOPS - hop
  {
    if hop < MAX_MOVE_HOPS && dest !in visited && w.hopAsk(start, hop, dest).View? {
      ChaseViewIffFound(members, w, hint, reach, start, w.hopAsk(start, hop, dest).v.movedTo, visited + {dest}, hop + 1);
    }
  }

  /** A found verdict returns a real answer that holds the file, from a member that was up; it is
      at-home exactly when that member is the recorded home. */
  lemma FoundIsReal(members: seq<Member>, w: World, hint: string)
    requires HonestNames(w) && (w.home.View? ==> w.home.v.member == hint)
    requires var r := Resolve(members, w, hint); r.Resolved? && r.outcome in {FoundAtHome, FoundElsewhere}
    ensures var r := Resolve(members, w, hint);
      && r.view.Some? && r.view.value.file.Some?
      && WasAnswered(members, w, hint, r.view.value)
      && (r.outcome == FoundAtHome <==> r.view.value.member == hint)
  {
    var active := Active(members);
    var reach := Probe(active, w.up);
    if hint != "" && FindMember(active, hint).Some? {
      FindMemberIn(active, hint);
      ActiveIn(members, FindMember(active, hint).value);
    }
    var views := Views(active, w);
    if views.Some? {
      ViewsAreAnswers(active, w);
      FirstFoundIn(views.value);
      forall m | m in active
        ensures m in members
      {
        ActiveIn(members, m);
      }
      ForwardedFindsReal(members, w, hint, reach, views.value);
      ForwardedNeverMissing(members, w, hint, reach, views.value);
    }
  }
}
