/** A repository over time: branches with committed locks, a working lock, and the blobs on the node.
    Pushes, commits, branches, merges, reverts and sweeps in any order must never leave a committed
    lock pointing at a blob that is gone. */
module Repo {
  import opened Wrappers
  import opened Order
  import opened Locks
  import opened Push

  // ---- keeping and sweeping --------------------------------------------------------------

  type Branches = map<string, seq<Locks.Entry>>

  /** Some branch still refers to the sha, as current content or as a recorded version. */
  ghost predicate KeptByBranch(branches: Branches, sha: string) {
    exists b, e :: b in branches && e in branches[b] && References(e, sha)
  }

  ghost predicate PreservedByBranch(branches: Branches, sha: string) {
    exists b, e :: b in branches && e in branches[b] && e.preserve && (e.sha == sha || sha in e.versions)
  }

  /** Preserving is belt and braces: whatever a preserve-marked entry names is in the preserve set, and all of
      that is in the keep set already, so a plan that spares kept content spares preserved content too. */
  lemma PreserveAddsNothing(branches: Branches, swept: set<string>)
    requires "" !in swept
    ensures (forall sha :: sha in swept ==> !KeptByBranch(branches, sha) && !PreservedByBranch(branches, sha)) <==> forall sha :: sha in swept ==> !KeptByBranch(branches, sha)
    ensures forall b, e :: b in branches && e in branches[b] && e.preserve ==> PreservedByBranch(branches, e.sha) && forall v :: v in e.versions ==> PreservedByBranch(branches, v)
    ensures (forall b, e :: b in branches && e in branches[b] ==> !e.preserve) ==> forall sha :: !PreservedByBranch(branches, sha)
  {
    forall sha | sha in swept && PreservedByBranch(branches, sha)
      ensures KeptByBranch(branches, sha)
    {
      var b, e :| b in branches && e in branches[b] && e.preserve && (e.sha == sha || sha in e.versions);
      assert References(e, sha);
    }
  }

  method BuildKeepSet(branches: Branches) returns (keep: set<string>)
    ensures forall sha :: sha in keep <==> KeptByBranch(branches, sha)
  {
    keep := {};
    var todo := branches.Keys;
    while todo != {}
      invariant todo <= branches.Keys
      invariant forall sha :: sha in keep <==> exists b, e :: b in branches && b !in todo && e in branches[b] && References(e, sha)
      decreases todo
    {
      var b :| b in todo;
      var shas := ReferencedSHAs(branches[b]);
      keep := keep + set sha | sha in shas;
      todo := todo - {b};
    }
  }

  method BuildPreserveSet(branches: Branches) returns (preserve: set<string>)
    ensures forall sha :: sha in preserve <==> PreservedByBranch(branches, sha)
  {
    preserve := {};
    var todo := branches.Keys;
    while todo != {}
      invariant todo <= branches.Keys
      invariant forall sha :: sha in preserve <==> exists b, e :: b in branches && b !in todo && e in branches[b] && e.preserve && (e.sha == sha || sha in e.versions)
      decreases todo
    {
      var b :| b in todo;
      var shas := PreservedShas(branches[b]);
      preserve := preserve + shas;
      todo := todo - {b};
    }
  }

  method PreservedShas(es: seq<Locks.Entry>) returns (shas: set<string>)
    ensures forall sha :: sha in shas <==> exists e :: e in es && e.preserve && (e.sha == sha || sha in e.versions)
  {
    shas := {};
    for i := 0 to |es|
      invariant forall sha :: sha in shas <==> exists e :: e in es[..i] && e.preserve && (e.sha == sha || sha in e.versions)
    {
      assert es[..i + 1] == es[..i] + [es[i]] && es[i] in es[..i + 1];
      if es[i].preserve {
        shas := shas + {es[i].sha} + set v | v in es[i].versions;
      }
    }
    assert es[..|es|] == es;
  }

  /** Delete each eligible blob, or none on a dry run. */
  method Sweep(c: Clone, eligible: seq<string>, dryRun: bool) returns (deleted: nat)
    modifies c`objects
    ensures c.objects == if dryRun then old(c.objects) else old(c.objects) - set sha | sha in eligible
    ensures deleted == if dryRun then 0 else |eligible|
  {
    deleted := 0;
    if dryRun {
      return;
    }
    for i := 0 to |eligible|
      invariant deleted == i && c.objects == old(c.objects) - set sha | sha in eligible[..i]
    {
      assert eligible[..i + 1] == eligible[..i] + [eligible[i]];
      c.objects := c.objects - {eligible[i]};
      deleted := deleted + 1;
    }
    assert eligible[..|eligible|] == eligible;
  }

  // ---- reverting -------------------------------------------------------------------------

  datatype RevertResult = UnknownPath | HistoryOff | UnknownVersion | AlreadyThere | FetchFailed | Reverted

  /** The entries with the one at path pointing at sha; recorded versions stay as they are. */
  function Repoint(es: seq<Locks.Entry>, path: string, sha: string): seq<Locks.Entry> {
    seq(|es|, i requires 0 <= i < |es| => if es[i].path == path then es[i].(sha := sha) else es[i])
  }

  /** Point a path back at a recorded version that the node still has, intact. */
  method Revert(c: Clone, path: string, sha: string, intact: bool) returns (r: RevertResult)
    requires DistinctPaths(c.entries)
    modifies c`entries
    ensures r.UnknownPath? <==> forall e :: e in c.entries ==> e.path != path
    ensures r.Reverted? <==> sha in c.objects && intact && exists e :: e in old(c.entries) && e.path == path && e.history && sha in e.versions && e.sha != sha
    ensures c.entries == if r.Reverted? then Repoint(old(c.entries), path, sha) else old(c.entries)
    ensures |c.entries| == |old(c.entries)|
    ensures forall i :: 0 <= i < |c.entries| && (!r.Reverted? || c.entries[i].path != path) ==> c.entries[i] == old(c.entries)[i]
    ensures forall i :: 0 <= i < |c.entries| && r.Reverted? && c.entries[i].path == path ==> c.entries[i] == old(c.entries)[i].(sha := sha)
  {
    for i := 0 to |c.entries|
      invariant c.entries == old(c.entries)
      invariant forall j :: 0 <= j < i ==> c.entries[j].path != path
    {
      var e := c.entries[i];
      if e.path == path {
        assert forall x :: x in c.entries && x.path == path ==> x == e;
        assert e in old(c.entries);
        if !e.history {
          return HistoryOff;
        } else if sha !in e.versions {
          return UnknownVersion;
        } else if e.sha == sha {
          return AlreadyThere;
        } else if sha !in c.objects || !intact {
          return FetchFailed;
        }
        assert Repoint(c.entries, path, sha) == c.entries[i := e.(sha := sha)];
        c.entries := c.entries[i := e.(sha := sha)];
        assert c.entries[i].path == path;
        return Reverted;
      }
    }
    return UnknownPath;
  }

  /** What a revert lets go of: the content it reverts from, if no version records it, and nothing else. */
  lemma RevertKeepsReferences(es: seq<Locks.Entry>, path: string, sha: string, i: nat, x: string)
    requires i < |es| && sha in es[i].versions
    ensures i < |Repoint(es, path, sha)|
    ensures var f := Repoint(es, path, sha)[i];
            References(f, x) <==> References(es[i], x) && (es[i].path == path ==> x in es[i].versions)
  {
  }

  // ---- runs ------------------------------------------------------------------------------

  datatype Repository = Repository(branches: Branches, head: string, work: seq<Locks.Entry>, node: Node)

  datatype Step =
    | PushTree(tree: Tree, env: Env, from: map<string, string>, next: seq<Locks.Entry>, after: Node)
    | PushFails(tree: Tree, env: Env, after: Node)
    | Commit
    | Branch(name: string)
    | Checkout(name: string)
    | DeleteBranch(name: string)
    | MergeBranch(name: string, merged: seq<Locks.Entry>)
    | RevertPath(path: string, sha: string)
    | Gc(swept: set<string>)

  /** When a step may happen, and what is known of its result. */
  ghost predicate Enabled(r: Repository, st: Step) {
    match st
    case PushTree(tree, env, from, next, after) =>
      (forall p :: p in tree ==> tree[p].sha != "") && Sorted(next) && Pushed(ByPath(r.work), tree, env, from, r.node, after, ByPath(next))
    case PushFails(tree, env, after) => Attempted(tree, env, r.node, after)
    case Commit => true
    case Branch(_) => r.head in r.branches
    case Checkout(b) => b in r.branches
    case DeleteBranch(_) => true
    case MergeBranch(b, merged) =>
      r.head in r.branches && b in r.branches && Sorted(merged) && ByPath(merged) == MergeMap(ByPath(r.branches[r.head]), ByPath(r.branches[b]))
    case RevertPath(path, sha) => sha != "" && sha in r.node.objects && exists e :: e in r.work && e.path == path && e.history && sha in e.versions
    case Gc(swept) => forall sha :: sha in swept ==> !KeptByBranch(r.branches, sha) && !PreservedByBranch(r.branches, sha)
  }

  function After(r: Repository, st: Step): Repository
    requires Enabled(r, st)
  {
    match st
    case PushTree(_, _, _, next, after) => r.(work := next, node := after)
    case PushFails(_, _, after) => r.(node := after)
    case Commit => r.(branches := r.branches[r.head := r.work])
    case Branch(b) => r.(branches := r.branches[b := r.branches[r.head]])
    case Checkout(b) => r.(head := b, work := r.branches[b])
    case DeleteBranch(b) => r.(branches := r.branches - {b})
    case MergeBranch(b, merged) => r.(branches := r.branches[r.head := merged], work := merged)
    case RevertPath(path, sha) => r.(work := Repoint(r.work, path, sha))
    case Gc(swept) => r.(node := r.node.(objects := r.node.objects - swept))
  }

  ghost predicate Present(es: seq<Locks.Entry>, objects: set<string>) {
    forall e :: e in es ==> e.sha != "" && e.sha in objects
  }

  ghost predicate CommittedSafe(r: Repository) {
    forall b :: b in r.branches ==> Present(r.branches[b], r.node.objects)
  }

  ghost predicate Safe(r: Repository) {
    CommittedSafe(r) && Present(r.work, r.node.objects)
  }

  /** A sweep only looks at committed locks; what a push wrote but nobody committed is not kept. */
  ghost predicate Clean(r: Repository) {
    forall e :: e in r.work ==> KeptByBranch(r.branches, e.sha) || PreservedByBranch(r.branches, e.sha)
  }

  /** Right after a commit, a checkout or a merge the working lock is that of its branch, and a sweep spares it. */
  lemma CleanAfter(r: Repository, st: Step)
    requires Enabled(r, st) && (st.Commit? || st.Checkout? || st.MergeBranch?)
    ensures var t := After(r, st); t.head in t.branches && t.work == t.branches[t.head] && t.node == r.node && ((forall e :: e in t.work ==> e.sha != "") ==> Clean(t))
  {
    var t := After(r, st);
    assert forall e :: e in t.branches[t.head] && e.sha != "" ==> References(e, e.sha);
  }

  lemma SortedDistinct(es: seq<Locks.Entry>)
    requires Sorted(es)
    ensures DistinctPaths(es)
  {
    forall a, b | 0 <= a < b < |es|
      ensures es[a].path != es[b].path
    {
      LessIrreflexive(es[a].path);
    }
  }

  lemma SortedEntry(es: seq<Locks.Entry>, e: Locks.Entry)
    requires Sorted(es) && e in es
    ensures e.path in ByPath(es) && ByPath(es)[e.path] == e
  {
    SortedDistinct(es);
    var i :| 0 <= i < |es| && es[i] == e;
    ByPathDistinct(es, i);
  }

  lemma PushSafe(r: Repository, st: Step)
    requires Enabled(r, st) && st.PushTree? && Safe(r)
    ensures Safe(After(r, st))
  {
    var was, next := ByPath(r.work), ByPath(st.next);
    PushStaysPresent(was, st.tree, st.env, st.from, r.node, st.after, next);
    forall e | e in st.next
      ensures e.sha != "" && e.sha in st.after.objects
    {
      SortedEntry(st.next, e);
      if e.path in st.tree {
        LiveEntriesAreTree(was, st.tree, st.env, st.from, r.node, st.after, next, e.path);
      } else {
        assert IsTombstone(was, st.tree, st.env, st.from.Values, e.path) && was[e.path] in r.work;
      }
    }
  }

  lemma MergeSafe(r: Repository, st: Step)
    requires Enabled(r, st) && st.MergeBranch? && Safe(r)
    ensures Safe(After(r, st))
  {
    var a, b := ByPath(r.branches[r.head]), ByPath(r.branches[st.name]);
    forall e | e in st.merged
      ensures e.sha != "" && e.sha in r.node.objects
    {
      SortedEntry(st.merged, e);
      MergePointsAtOld(a, b, e.path);
      assert e.path in a ==> a[e.path] in r.branches[r.head];
      assert e.path in b ==> b[e.path] in r.branches[st.name];
    }
  }

  lemma RevertSafe(r: Repository, st: Step)
    requires Enabled(r, st) && st.RevertPath? && Safe(r)
    ensures Safe(After(r, st))
  {
    var es := Repoint(r.work, st.path, st.sha);
    forall e | e in es
      ensures e.sha != "" && e.sha in r.node.objects
    {
      var i :| 0 <= i < |es| && es[i] == e;
      assert r.work[i] in r.work;
    }
  }

  /** A sweep never takes a blob that a committed lock points at. */
  lemma SweepKeepsCommitted(r: Repository, st: Step)
    requires Enabled(r, st) && st.Gc? && CommittedSafe(r)
    ensures CommittedSafe(After(r, st))
  {
    forall b, e | b in r.branches && e in r.branches[b]
      ensures e.sha != "" && e.sha in r.node.objects - st.swept
    {
      assert References(e, e.sha);
    }
  }

  /** It spares what is written but not committed exactly when it happens not to be eligible: a sweep
      of everything eligible leaves the working lock intact if and only if the working lock is clean. */
  lemma SweepKeepsWorkIff(r: Repository, st: Step)
    requires Enabled(r, st) && st.Gc? && Present(r.work, r.node.objects)
    requires forall sha :: sha in r.node.objects && !KeptByBranch(r.branches, sha) && !PreservedByBranch(r.branches, sha) ==> sha in st.swept
    ensures Present(After(r, st).work, After(r, st).node.objects) <==> Clean(r)
  {
  }

  lemma StepSafe(r: Repository, st: Step)
    requires Enabled(r, st) && Safe(r) && (st.Gc? ==> Clean(r))
    ensures Safe(After(r, st))
  {
    match st
    case PushTree(_, _, _, _, _) => PushSafe(r, st);
    case MergeBranch(_, _) => MergeSafe(r, st);
    case RevertPath(_, _) => RevertSafe(r, st);
    case Gc(_) => SweepKeepsCommitted(r, st);
    case _ =>
  }

  ghost predicate Possible(r: Repository, sts: seq<Step>)
    decreases |sts|
  {
    sts != [] ==> Enabled(r, sts[0]) && Possible(After(r, sts[0]), sts[1..])
  }

  function Run(r: Repository, sts: seq<Step>): Repository
    requires Possible(r, sts)
    decreases |sts|
  {
    if sts == [] then r else Run(After(r, sts[0]), sts[1..])
  }

  ghost predicate CleanSweeps(r: Repository, sts: seq<Step>)
    requires Possible(r, sts)
    decreases |sts|
  {
    sts != [] ==> (sts[0].Gc? ==> Clean(r)) && CleanSweeps(After(r, sts[0]), sts[1..])
  }

  /** Over any run in which sweeps find the working lock clean, the current content of every entry,
      live or tombstone, in every branch's lock is on the node. */
  lemma {:induction false} RunSafe(r: Repository, sts: seq<Step>)
    requires Safe(r) && Possible(r, sts) && CleanSweeps(r, sts)
    ensures Safe(Run(r, sts))
    decreases |sts|
  {
    if sts != [] {
      StepSafe(r, sts[0]);
      RunSafe(After(r, sts[0]), sts[1..]);
    }
  }

  /** Without that, the commit after the sweep dangles. */
  lemma SweepThenCommitDangles(r: Repository, e: Locks.Entry)
    requires Safe(r) && e in r.work && !KeptByBranch(r.branches, e.sha) && !PreservedByBranch(r.branches, e.sha)
    ensures Enabled(r, Gc({e.sha})) && Enabled(After(r, Gc({e.sha})), Commit)
    ensures var t := After(After(r, Gc({e.sha})), Commit); !CommittedSafe(t) && t.branches[t.head] == r.work
  {
    var t := After(After(r, Gc({e.sha})), Commit);
    assert e in t.branches[t.head] && e.sha !in t.node.objects;
  }

  // ---- version history -------------------------------------------------------------------

  ghost predicate Listed(es: seq<Locks.Entry>, refs: map<string, seq<string>>) {
    DistinctPaths(es) && forall e :: e in es ==> Lockstep(e, refs)
  }

  /** Lock and node agree on the versions of every path, in every branch. */
  ghost predicate InLockstep(r: Repository) {
    Listed(r.work, r.node.refs) && forall b :: b in r.branches ==> Listed(r.branches[b], r.node.refs)
  }

  /** What keeps it so: no push carries versions to a path that does not list them, or breaks off
      between deleting a list and writing it again. */
  ghost predicate KeepsLists(r: Repository, st: Step) {
    match st
    case PushTree(tree, _, _, _, _) => CarriesListed(ByPath(r.work), tree, r.node.refs)
    case PushFails(tree, env, _) => forall p :: p in tree ==> !env.fault(p).ListLost?
    case _ => true
  }

  ghost predicate Grow(refs: map<string, seq<string>>, later: map<string, seq<string>>) {
    forall p, v :: v in VersionsAt(refs, p) ==> v in VersionsAt(later, p)
  }

  lemma ListedLater(es: seq<Locks.Entry>, refs: map<string, seq<string>>, later: map<string, seq<string>>)
    requires Listed(es, refs) && Grow(refs, later)
    ensures Listed(es, later)
  {
  }

  lemma StepGrows(r: Repository, st: Step)
    requires Enabled(r, st) && KeepsLists(r, st)
    ensures Grow(r.node.refs, After(r, st).node.refs)
  {
    if st.PushFails? {
      forall p, v | v in VersionsAt(r.node.refs, p)
        ensures v in VersionsAt(st.after.refs, p)
      {
        assert ListAttempted(st.tree, st.env, r.node.refs, st.after.refs, p);
      }
    }
  }

  lemma PushListed(r: Repository, st: Step)
    requires Enabled(r, st) && st.PushTree? && Listed(r.work, r.node.refs) && KeepsLists(r, st)
    ensures Listed(st.next, st.after.refs)
  {
    var was, next := ByPath(r.work), ByPath(st.next);
    assert AllLockstep(was, r.node.refs);
    SortedDistinct(st.next);
    PushKeepsLockstepIff(was, st.tree, st.env, st.from, r.node, st.after, next);
    forall e | e in st.next
      ensures Lockstep(e, st.after.refs)
    {
      SortedEntry(st.next, e);
    }
  }

  lemma MergedLockstep(a: LockMap, b: LockMap, p: string, refs: map<string, seq<string>>)
    requires Locks.WellKeyed(a) && Locks.WellKeyed(b) && p in MergeMap(a, b)
    requires p in a ==> Lockstep(a[p], refs)
    requires p in b ==> Lockstep(b[p], refs)
    ensures Lockstep(MergeMap(a, b)[p], refs)
  {
    if p in a && p in b {
      UnionVersionsMembers(a[p].versions, b[p].versions);
      UnionVersionsMembers(b[p].versions, a[p].versions);
    }
  }

  lemma MergeListed(r: Repository, st: Step)
    requires Enabled(r, st) && st.MergeBranch? && InLockstep(r)
    ensures Listed(st.merged, r.node.refs)
  {
    var a, b := ByPath(r.branches[r.head]), ByPath(r.branches[st.name]);
    SortedDistinct(st.merged);
    forall e | e in st.merged
      ensures Lockstep(e, r.node.refs)
    {
      SortedEntry(st.merged, e);
      MergedLockstep(a, b, e.path, r.node.refs);
    }
  }

  lemma RevertListed(r: Repository, st: Step)
    requires Enabled(r, st) && st.RevertPath? && Listed(r.work, r.node.refs)
    ensures Listed(Repoint(r.work, st.path, st.sha), r.node.refs)
  {
    var es := Repoint(r.work, st.path, st.sha);
    forall e | e in es
      ensures Lockstep(e, r.node.refs)
    {
      var i :| 0 <= i < |es| && es[i] == e;
      assert r.work[i] in r.work;
    }
  }

  ghost predicate ListsKept(r: Repository, sts: seq<Step>)
    requires Possible(r, sts)
    decreases |sts|
  {
    sts != [] ==> KeepsLists(r, sts[0]) && ListsKept(After(r, sts[0]), sts[1..])
  }

  lemma StepInLockstep(r: Repository, st: Step)
    requires Enabled(r, st) && InLockstep(r) && KeepsLists(r, st)
    ensures InLockstep(After(r, st))
  {
    var t := After(r, st);
    StepGrows(r, st);
    forall b | b in t.branches && b in r.branches
      ensures Listed(r.branches[b], t.node.refs)
    {
      ListedLater(r.branches[b], r.node.refs, t.node.refs);
    }
    match st
    case PushTree(_, _, _, _, _) => PushListed(r, st);
    case MergeBranch(_, _) => MergeListed(r, st);
    case RevertPath(_, _) => RevertListed(r, st);
    case _ => ListedLater(r.work, r.node.refs, t.node.refs);
  }

  lemma {:induction false} RunInLockstep(r: Repository, sts: seq<Step>)
    requires InLockstep(r) && Possible(r, sts) && ListsKept(r, sts)
    ensures InLockstep(Run(r, sts))
    decreases |sts|
  {
    if sts != [] {
      StepInLockstep(r, sts[0]);
      RunInLockstep(After(r, sts[0]), sts[1..]);
    }
  }

  /** History is kept over any such run: a push that overwrites a file with history by another, after
      whatever pushes, merges, reverts and sweeps, loses none of what the path referred to. */
  lemma HistoryOutlivesRuns(r: Repository, sts: seq<Step>, st: Step, p: string, sha: string)
    requires InLockstep(r) && Possible(r, sts) && ListsKept(r, sts)
    requires st.PushTree? && Enabled(Run(r, sts), st) && p in st.tree && st.env.decide(p, st.tree[p].size).history
    requires var was := ByPath(Run(r, sts).work); p in was && was[p].history && References(was[p], sha)
    ensures p in ByPath(st.next) && References(ByPath(st.next)[p], sha)
  {
    RunInLockstep(r, sts);
    var t := Run(r, sts);
    HistoryKeepsAll(ByPath(t.work), st.tree, st.env, st.from, t.node, st.after, ByPath(st.next), p, sha);
  }

  /** A sweep takes blobs that only the node's lists still name. The next push with history of such a
      path brings them back into the lock, pointing at nothing. */
  lemma SweptVersionReturns(r: Repository, swept: set<string>, st: Step, p: string, v: string)
    requires Enabled(r, Gc(swept)) && v in swept && v != "" && v in VersionsAt(r.node.refs, p)
    requires st.PushTree? && Enabled(After(r, Gc(swept)), st) && Relisted(ByPath(r.work), st.tree, st.env, st.from, p)
    requires forall q :: q in st.tree ==> st.tree[q].sha != v
    ensures p in ByPath(st.next) && References(ByPath(st.next)[p], v) && v !in After(After(r, Gc(swept)), st).node.objects
  {
    var was, t := ByPath(r.work), After(r, Gc(swept));
    assert Live(was, st.tree, st.env, st.from, t.node, p, ByPath(st.next)[p]);
    assert v in ByPath(st.next)[p].versions;
  }
}
