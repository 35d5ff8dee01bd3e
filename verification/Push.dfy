/** A push: compare the working tree with the lock, send what the node lacks, and only then write the
    lock. Scanning, rules, version lists and the pusher's name are inputs. */
module Push {
  import opened Wrappers
  import opened Order
  import opened Locks

  /** A managed file of the working tree. A pointer stands for content that is not on this machine. */
  datatype TreeFile = TreeFile(sha: string, size: int, pointer: bool)

  type Tree = map<string, TreeFile>

  datatype Decision = Decision(history: bool, preserve: bool)

  /** What the node holds for the lock: blobs, and for each path the shas recorded there, newest first.
      A path stands for its id. */
  datatype Node = Node(objects: set<string>, refs: map<string, seq<string>>)

  /** Where the work on a path breaks: before the node is asked, in sending, in checking what was sent,
      in reading its list, or between deleting the list and writing it again. */
  datatype Fault = NoFault | Early | Unsent | Unchecked | ListUnread | ListLost

  /** The rules and stamps of one push, and what breaks. */
  datatype Env = Env(decide: (string, int) -> Decision, autoDelete: bool, location: string, pusher: string, now: int,
                     fault: string -> Fault)

  function VersionsAt(refs: map<string, seq<string>>, path: string): seq<string> {
    if path in refs then refs[path] else []
  }

  /** Pushing what already heads the list records nothing new. */
  function AppendVersion(vs: seq<string>, sha: string): (r: seq<string>)
    ensures forall s :: s in r <==> s == sha || s in vs
    ensures r != [] && r[0] == sha
  {
    if vs != [] && vs[0] == sha then vs else [sha] + vs
  }

  function FreshEntry(env: Env, refs: map<string, seq<string>>, path: string, f: TreeFile): Locks.Entry {
    var d := env.decide(path, f.size);
    Entry(path, f.sha, f.size, env.location, env.now, env.pusher, d.history, d.preserve, false,
          if d.history then AppendVersion(VersionsAt(refs, path), f.sha) else [])
  }

  predicate Unchanged(was: LockMap, tree: Tree, p: string)
    requires p in tree
  {
    p in was && was[p].sha == tree[p].sha && !was[p].deleted
  }

  /** An old path that vanished from the tree while its content shows up elsewhere. */
  predicate MayRename(was: LockMap, tree: Tree, q: string, sha: string) {
    q in was && was[q].sha == sha && !was[q].deleted && q !in tree
  }

  function NewWith(was: LockMap, tree: Tree, sha: string): set<string> {
    set p | p in tree && p !in was && tree[p].sha == sha
  }

  function GoneWith(was: LockMap, tree: Tree, sha: string): set<string> {
    set q | q in was && MayRename(was, tree, q, sha)
  }

  /** Which vanished path a new one is taken to come from: of each content the first new path from the
      first vanished one, the second from the second, and so on. */
  predicate Paired(was: LockMap, tree: Tree, p: string, q: string) {
    p in tree && p !in was && MayRename(was, tree, q, tree[p].sha)
      && Rank(NewWith(was, tree, tree[p].sha), p) == Rank(GoneWith(was, tree, tree[p].sha), q)
  }

  ghost predicate IsMatching(was: LockMap, tree: Tree, done: set<string>, from: map<string, string>) {
    forall p, q :: p in from && from[p] == q <==> p in done && Paired(was, tree, p, q)
  }

  /** The file is neither unchanged nor moved. */
  ghost predicate Changed(was: LockMap, tree: Tree, p: string) {
    p in tree && !Unchanged(was, tree, p) && forall q :: !Paired(was, tree, p, q)
  }

  /** What became of a file of the tree: kept as it was, carried over from a vanished path, or recorded
      anew once the node had the bytes. */
  predicate Kept(was: LockMap, tree: Tree, p: string, e: Locks.Entry)
    requires p in tree
  {
    Unchanged(was, tree, p) && e == was[p]
  }

  predicate CarriedFrom(was: LockMap, tree: Tree, p: string, q: string, e: Locks.Entry)
    requires p in tree
  {
    p !in was && MayRename(was, tree, q, tree[p].sha) && e == was[q].(path := p)
  }

  predicate Recorded(was: LockMap, tree: Tree, env: Env, before: Node, p: string, e: Locks.Entry)
    requires p in tree
  {
    !Unchanged(was, tree, p) && e == FreshEntry(env, before.refs, p, tree[p])
  }

  predicate Live(was: LockMap, tree: Tree, env: Env, from: map<string, string>, before: Node, p: string, e: Locks.Entry)
    requires p in tree
  {
    if p in from then CarriedFrom(was, tree, p, from[p], e) else Kept(was, tree, p, e) || Recorded(was, tree, env, before, p, e)
  }

  /** A vanished path stays as a tombstone when its content must survive. */
  predicate Survives(env: Env, e: Locks.Entry) {
    e.deleted || e.preserve || !env.autoDelete
  }

  /** The file was neither unchanged nor carried over. */
  predicate Anew(was: LockMap, tree: Tree, from: map<string, string>, p: string) {
    p in tree && p !in from && !Unchanged(was, tree, p)
  }

  /** Some file with this content was recorded anew. */
  ghost predicate SentFor(was: LockMap, tree: Tree, from: map<string, string>, done: set<string>, sha: string) {
    exists p :: p in done && Anew(was, tree, from, p) && tree[p].sha == sha
  }

  predicate Relisted(was: LockMap, tree: Tree, env: Env, from: map<string, string>, p: string) {
    Anew(was, tree, from, p) && env.decide(p, tree[p].size).history
  }

  /** The list of a path gains its new content when the path was recorded anew with history on. */
  ghost predicate ListsGrow(was: LockMap, tree: Tree, env: Env, from: map<string, string>, before: Node, after: Node, done: set<string>) {
    forall p :: VersionsAt(after.refs, p) == if p in done && Relisted(was, tree, env, from, p) then AppendVersion(VersionsAt(before.refs, p), tree[p].sha) else VersionsAt(before.refs, p)
  }

  predicate IsTombstone(was: LockMap, tree: Tree, env: Env, handled: set<string>, p: string) {
    p in was && p !in tree && p !in handled && Survives(env, was[p])
  }

  /** What a push has made of the files in done. from maps each carried-over path to the path it came from. */
  ghost predicate Handled(was: LockMap, tree: Tree, env: Env, from: map<string, string>, before: Node, after: Node, done: set<string>, next: LockMap) {
    && (forall sha :: sha in after.objects <==> sha in before.objects || SentFor(was, tree, from, done, sha))
    && ListsGrow(was, tree, env, from, before, after, done)
    && done <= tree.Keys && from.Keys <= done && IsMatching(was, tree, done, from)
    && (forall p :: p in done ==> p in next && Live(was, tree, env, from, before, p, next[p]))
  }

  /** What a push makes of a lock. */
  ghost predicate Pushed(was: LockMap, tree: Tree, env: Env, from: map<string, string>, before: Node, after: Node, next: LockMap) {
    && Handled(was, tree, env, from, before, after, tree.Keys, next)
    && (forall p :: p !in tree ==> (p in next <==> IsTombstone(was, tree, env, from.Values, p)))
    && (forall p :: p in next && p !in tree ==> next[p] == was[p].(deleted := true))
  }

  predicate ListAttempted(tree: Tree, env: Env, before: map<string, seq<string>>, after: map<string, seq<string>>, p: string) {
    var was, now := VersionsAt(before, p), VersionsAt(after, p);
    now == was || (p in tree && now == AppendVersion(was, tree[p].sha)) || (p in tree && env.fault(p).ListLost? && now == [])
  }

  /** What a push that broke off may leave on the node: blobs sent, lists grown, one list perhaps lost. */
  ghost predicate Attempted(tree: Tree, env: Env, before: Node, after: Node) {
    && before.objects <= after.objects
    && (forall p :: ListAttempted(tree, env, before.refs, after.refs, p))
  }

  /** What a push reports as content it let go of. */
  predicate Superseded(was: LockMap, tree: Tree, env: Env, p: string) {
    p in tree && p in was && was[p].sha != tree[p].sha && !env.decide(p, tree[p].size).history && !was[p].preserve
  }

  predicate Vanished(was: LockMap, tree: Tree, handled: set<string>, p: string) {
    p in was && p !in tree && p !in handled && !was[p].deleted
  }

  ghost predicate Marked(was: LockMap, tree: Tree, env: Env, from: map<string, string>, sha: string) {
    exists p :: p in was && was[p].sha == sha && (Superseded(was, tree, env, p) || (Vanished(was, tree, from.Values, p) && !Survives(env, was[p])))
  }

  // ---- what a push guarantees ------------------------------------------------------------

  ghost predicate AllPresent(m: LockMap, objects: set<string>) {
    forall p :: p in m ==> m[p].sha in objects
  }

  /** The lock never gets ahead of storage. */
  lemma PushStaysPresent(was: LockMap, tree: Tree, env: Env, from: map<string, string>, before: Node, after: Node, next: LockMap)
    requires Pushed(was, tree, env, from, before, after, next) && AllPresent(was, before.objects)
    ensures AllPresent(next, after.objects)
  {
    forall p | p in next
      ensures next[p].sha in after.objects
    {
      if p in tree {
        assert Live(was, tree, env, from, before, p, next[p]);
        assert Anew(was, tree, from, p) ==> SentFor(was, tree, from, tree.Keys, tree[p].sha);
      }
    }
  }

  /** The live entries are exactly the tree. */
  lemma LiveEntriesAreTree(was: LockMap, tree: Tree, env: Env, from: map<string, string>, before: Node, after: Node, next: LockMap, p: string)
    requires Pushed(was, tree, env, from, before, after, next)
    ensures p in next && !next[p].deleted <==> p in tree
    ensures p in tree ==> next[p].sha == tree[p].sha
  {
    if p in tree {
      assert Live(was, tree, env, from, before, p, next[p]);
    }
  }

  function CarriedWith(tree: Tree, from: map<string, string>, sha: string): set<string> {
    set p | p in from && p in tree && tree[p].sha == sha
  }

  /** No two files were carried over from one path. */
  predicate OneEach(from: map<string, string>) {
    forall p, q :: p in from && q in from && from[p] == from[q] ==> p == q
  }

  lemma MatchingIsOneEach(was: LockMap, tree: Tree, done: set<string>, from: map<string, string>)
    requires IsMatching(was, tree, done, from)
    ensures OneEach(from)
  {
    forall p, q | p in from && q in from && from[p] == from[q]
      ensures p == q
    {
      assert Paired(was, tree, p, from[p]) && Paired(was, tree, q, from[q]);
      RankLess(NewWith(was, tree, tree[p].sha), p, q);
    }
  }

  lemma {:induction false} SameSize(from: map<string, string>, ps: set<string>)
    requires ps <= from.Keys && OneEach(from)
    ensures |set p | p in ps :: from[p]| == |ps|
  {
    if ps != {} {
      var p :| p in ps;
      SameSize(from, ps - {p});
      assert (set q | q in ps :: from[q]) == (set q | q in ps - {p} :: from[q]) + {from[p]};
    }
  }

  lemma CarriedAreNew(was: LockMap, tree: Tree, env: Env, from: map<string, string>, before: Node, after: Node, next: LockMap, p: string)
    requires Pushed(was, tree, env, from, before, after, next) && p in from
    ensures p in tree && p in NewWith(was, tree, tree[p].sha) && from[p] in GoneWith(was, tree, tree[p].sha)
  {
    assert Live(was, tree, env, from, before, p, next[p]);
  }

  /** When one is left over, every vanished file with its content has been carried elsewhere. */
  lemma AllGoneCarried(was: LockMap, tree: Tree, env: Env, from: map<string, string>, before: Node, after: Node, next: LockMap, p: string)
    requires Pushed(was, tree, env, from, before, after, next) && p in tree && p !in was && p !in from
    ensures GoneWith(was, tree, tree[p].sha) <= set x | x in CarriedWith(tree, from, tree[p].sha) :: from[x]
  {
    var added, gone := NewWith(was, tree, tree[p].sha), GoneWith(was, tree, tree[p].sha);
    if Rank(added, p) < |gone| {
      var q := RankTaken(gone, Rank(added, p));
      assert Paired(was, tree, p, q);
    }
    RankInside(added, p);
    forall q | q in gone
      ensures q in set x | x in CarriedWith(tree, from, tree[p].sha) :: from[x]
    {
      RankInside(gone, q);
      var x := RankTaken(added, Rank(gone, q));
      assert Paired(was, tree, x, q);
    }
  }

  lemma Matching(from: map<string, string>, carried: set<string>, added: set<string>, gone: set<string>)
    requires OneEach(from) && carried <= from.Keys && carried <= added
    requires forall p :: p in carried ==> from[p] in gone
    requires carried != added ==> gone <= set x | x in carried :: from[x]
    ensures |carried| == if |added| <= |gone| then |added| else |gone|
  {
    var sources := set p | p in carried :: from[p];
    SameSize(from, carried);
    SubsetSize(sources, gone);
    if carried != added {
      assert gone == sources;
      SubsetSize(carried, added);
    }
  }

  /** Of the new files with one content as many are carried over as there are vanished files to carry
      them from. */
  lemma RenamesMatched(was: LockMap, tree: Tree, env: Env, from: map<string, string>, before: Node, after: Node, next: LockMap, sha: string)
    requires Pushed(was, tree, env, from, before, after, next)
    ensures |CarriedWith(tree, from, sha)| == if |NewWith(was, tree, sha)| <= |GoneWith(was, tree, sha)| then |NewWith(was, tree, sha)| else |GoneWith(was, tree, sha)|
    ensures CarriedWith(tree, from, sha) <= NewWith(was, tree, sha)
  {
    var carried, added, gone := CarriedWith(tree, from, sha), NewWith(was, tree, sha), GoneWith(was, tree, sha);
    forall p | p in carried
      ensures p in added && from[p] in gone
    {
      CarriedAreNew(was, tree, env, from, before, after, next, p);
    }
    if p :| p in added && p !in carried {
      AllGoneCarried(was, tree, env, from, before, after, next, p);
    } else {
      assert carried == added;
    }
    MatchingIsOneEach(was, tree, tree.Keys, from);
    Matching(from, carried, added, gone);
  }

  /** A push in which files only moved changes nothing on the node. */
  lemma MovesSendNothing(was: LockMap, tree: Tree, env: Env, from: map<string, string>, before: Node, after: Node, next: LockMap)
    requires Pushed(was, tree, env, from, before, after, next)
    requires forall p :: p in tree && p in was ==> Unchanged(was, tree, p)
    requires forall p :: p in tree && p !in was ==> |NewWith(was, tree, tree[p].sha)| <= |GoneWith(was, tree, tree[p].sha)|
    ensures after.objects == before.objects
    ensures forall p :: VersionsAt(after.refs, p) == VersionsAt(before.refs, p)
  {
    forall p | p in tree
      ensures !Anew(was, tree, from, p)
    {
      if p !in was {
        var sha := tree[p].sha;
        RenamesMatched(was, tree, env, from, before, after, next, sha);
        if p !in from {
          assert p in NewWith(was, tree, sha) && p !in CarriedWith(tree, from, sha);
          SubsetSize(CarriedWith(tree, from, sha), NewWith(was, tree, sha));
        }
      }
    }
  }

  /** What becomes of each file of the tree: an unchanged one keeps its entry, a moved one takes its entry
      along, and any other gets a new entry of its content, stamped with this push. */
  lemma TreeEntries(was: LockMap, tree: Tree, env: Env, from: map<string, string>, before: Node, after: Node, next: LockMap, p: string)
    requires Pushed(was, tree, env, from, before, after, next) && p in tree
    ensures p in next
    ensures p in was && was[p].sha == tree[p].sha && !was[p].deleted ==> next[p] == was[p]
    ensures forall q :: Paired(was, tree, p, q) ==> next[p] == was[q].(path := p)
    ensures Changed(was, tree, p) ==>
              var e, d, listed := next[p], env.decide(p, tree[p].size), if p in before.refs then before.refs[p] else [];
              && e.path == p && e.sha == tree[p].sha && e.size == tree[p].size && e.location == env.location && e.pusher == env.pusher && e.pushedAt == env.now
              && e.history == d.history && e.preserve == d.preserve && !e.deleted
              && e.versions == if !d.history then [] else if listed != [] && listed[0] == tree[p].sha then listed else [tree[p].sha] + listed
  {
    assert Live(was, tree, env, from, before, p, next[p]);
    if p in from {
      assert Paired(was, tree, p, from[p]);
      forall q | Paired(was, tree, p, q)
        ensures q == from[p]
      {
        assert from[p] == q;
      }
    }
  }

  /** What the push leaves on the node: the content of the changed files besides what was there, and in the
      list of each of those that has history its content at the head. */
  lemma NodeAfter(was: LockMap, tree: Tree, env: Env, from: map<string, string>, before: Node, after: Node, next: LockMap)
    requires Pushed(was, tree, env, from, before, after, next)
    ensures forall sha :: sha in after.objects <==> sha in before.objects || exists p :: Changed(was, tree, p) && tree[p].sha == sha
    ensures forall p :: VersionsAt(after.refs, p) == if Changed(was, tree, p) && env.decide(p, tree[p].size).history then next[p].versions else VersionsAt(before.refs, p)
  {
    forall p | p in tree
      ensures Anew(was, tree, from, p) <==> Changed(was, tree, p)
      ensures Live(was, tree, env, from, before, p, next[p])
    {
      if p in from {
        assert Paired(was, tree, p, from[p]);
      }
    }
    forall sha
      ensures SentFor(was, tree, from, tree.Keys, sha) <==> exists p :: Changed(was, tree, p) && tree[p].sha == sha
    {
      if SentFor(was, tree, from, tree.Keys, sha) {
        var p :| p in tree.Keys && Anew(was, tree, from, p) && tree[p].sha == sha;
        assert Changed(was, tree, p);
      }
    }
  }

  /** What is reported for gc is exactly the old content of unpreserved files that were overwritten without
      history, or deleted with auto-delete on and not moved. */
  lemma MarkedIff(was: LockMap, tree: Tree, env: Env, from: map<string, string>, before: Node, after: Node, next: LockMap, sha: string)
    requires Pushed(was, tree, env, from, before, after, next)
    ensures Marked(was, tree, env, from, sha) <==>
              exists p :: p in was && was[p].sha == sha && !was[p].preserve && LetsGo(was, tree, env, p)
  {
    forall p | p in was
      ensures was[p].preserve || (LetsGo(was, tree, env, p) <==> Superseded(was, tree, env, p) || (Vanished(was, tree, from.Values, p) && !Survives(env, was[p])))
    {
      if p in from.Values {
        var q :| q in from && from[q] == p;
        assert Paired(was, tree, q, p);
      } else {
        assert forall q :: Paired(was, tree, q, p) ==> q in from && from[q] in from.Values;
      }
    }
  }

  ghost predicate LetsGo(was: LockMap, tree: Tree, env: Env, p: string)
    requires p in was
  {
    if p in tree then was[p].sha != tree[p].sha && !env.decide(p, tree[p].size).history
    else env.autoDelete && !was[p].deleted && forall q :: !Paired(was, tree, q, p)
  }

  /** Deleting or moving a preserved file never lets go of its content. */
  lemma PreservedSurvivesDeletion(was: LockMap, tree: Tree, env: Env, from: map<string, string>, before: Node, after: Node, next: LockMap, p: string)
    requires Pushed(was, tree, env, from, before, after, next) && p in was && was[p].preserve && p !in tree
    ensures exists q :: q in next && next[q].sha == was[p].sha && next[q].preserve
  {
    if p in from.Values {
      var q :| q in from && from[q] == p;
      assert Live(was, tree, env, from, before, q, next[q]);
    } else {
      assert p in next && next[p] == was[p].(deleted := true);
    }
  }

  /** With auto-delete off no deletion lets go of any content. */
  lemma NothingAutoDeleted(was: LockMap, tree: Tree, env: Env, from: map<string, string>, before: Node, after: Node, next: LockMap, p: string)
    requires Pushed(was, tree, env, from, before, after, next) && !env.autoDelete && p in was && p !in tree
    ensures exists q :: q in next && next[q].sha == was[p].sha && forall v :: v in was[p].versions ==> v in next[q].versions
    ensures p in next ==> next[p] == was[p].(deleted := true)
    ensures p !in next ==> exists q :: Paired(was, tree, q, p) && q in next && next[q] == was[p].(path := q)
  {
    if p in from.Values {
      var q :| q in from && from[q] == p;
      assert Live(was, tree, env, from, before, q, next[q]) && Paired(was, tree, q, p);
    } else {
      assert p in next && next[p] == was[p].(deleted := true);
    }
  }

  /** With it on, a deleted file that is not preserved and was not moved leaves nothing at its path, and
      is reported; one that is preserved stays. A tombstone stays as it is either way. */
  lemma AutoDeleted(was: LockMap, tree: Tree, env: Env, from: map<string, string>, before: Node, after: Node, next: LockMap, p: string)
    requires Pushed(was, tree, env, from, before, after, next) && env.autoDelete && p in was && p !in tree
    ensures !was[p].deleted && !was[p].preserve ==> p !in next
    ensures !was[p].deleted && !was[p].preserve && (forall q :: !Paired(was, tree, q, p)) ==> Marked(was, tree, env, from, was[p].sha)
    ensures (was[p].deleted || was[p].preserve) && (forall q :: !Paired(was, tree, q, p)) ==> p in next && next[p] == was[p].(deleted := true)
  {
    if p in from.Values {
      var q :| q in from && from[q] == p;
      assert Paired(was, tree, q, p);
    } else if !was[p].deleted && !was[p].preserve {
      assert Vanished(was, tree, from.Values, p) && !Survives(env, was[p]);
    }
  }

  /** Overwriting is different, preserved or not. Content the path referred to stays referred to by it
      exactly when history is on and the node's list of this path has the sha. */
  lemma OverwrittenKeptIff(was: LockMap, tree: Tree, env: Env, from: map<string, string>, before: Node, after: Node, next: LockMap, p: string, sha: string)
    requires Pushed(was, tree, env, from, before, after, next)
    requires p in was && p in tree && !Unchanged(was, tree, p) && References(was[p], sha) && sha != tree[p].sha
    ensures References(next[p], sha) <==> env.decide(p, tree[p].size).history && sha in VersionsAt(before.refs, p)
  {
    assert Live(was, tree, env, from, before, p, next[p]);
  }

  /** Content let go of unreported: overwritten with history on while the node's list of the path does
      not have it, or preserved and overwritten with history off. */
  predicate LetGoSilently(was: LockMap, tree: Tree, env: Env, before: Node, p: string) {
    p in was && p in tree && was[p].sha != tree[p].sha &&
    if env.decide(p, tree[p].size).history then was[p].sha !in VersionsAt(before.refs, p) else was[p].preserve
  }

  /** All other content of the old lock is still referred to, or reported as let go of. */
  lemma KeptMarkedOrSilent(was: LockMap, tree: Tree, env: Env, from: map<string, string>, before: Node, after: Node, next: LockMap, p: string)
    requires Pushed(was, tree, env, from, before, after, next) && p in was && was[p].sha != ""
    ensures Referenced(next, was[p].sha) || Marked(was, tree, env, from, was[p].sha) || LetGoSilently(was, tree, env, before, p)
    ensures LetGoSilently(was, tree, env, before, p) ==> !References(next[p], was[p].sha)
  {
    var sha := was[p].sha;
    if p in tree {
      assert Live(was, tree, env, from, before, p, next[p]);
      assert References(next[p], sha) || Superseded(was, tree, env, p) || LetGoSilently(was, tree, env, before, p);
    } else if p in from.Values {
      var q :| q in from && from[q] == p;
      assert Live(was, tree, env, from, before, q, next[q]);
      assert References(next[q], sha);
    } else if p in next {
      assert References(next[p], sha);
    } else {
      assert Vanished(was, tree, from.Values, p) && !Survives(env, was[p]);
    }
  }

  // ---- version history -------------------------------------------------------------------

  /** Lock and node in lockstep at one entry: its versions are on the node's list of its path, and a
      file with history has its own content among them. */
  predicate Lockstep(e: Locks.Entry, refs: map<string, seq<string>>) {
    (forall v :: v in e.versions ==> v in VersionsAt(refs, e.path)) && (e.history && e.sha != "" ==> e.sha in e.versions)
  }

  ghost predicate AllLockstep(m: LockMap, refs: map<string, seq<string>>) {
    forall p :: p in m ==> Lockstep(m[p], refs)
  }

  /** Versions travel with a carried-over entry, the list on the node does not. */
  ghost predicate CarriesListed(was: LockMap, tree: Tree, refs: map<string, seq<string>>) {
    forall p, q, v :: Paired(was, tree, p, q) && v in was[q].versions ==> v in VersionsAt(refs, p)
  }

  /** In lockstep, overwriting a file with history by another loses none of what the path referred to. */
  lemma HistoryKeepsAll(was: LockMap, tree: Tree, env: Env, from: map<string, string>, before: Node, after: Node, next: LockMap, p: string, sha: string)
    requires Pushed(was, tree, env, from, before, after, next) && Locks.WellKeyed(was)
    requires p in was && p in tree && Lockstep(was[p], before.refs) && was[p].history && env.decide(p, tree[p].size).history
    requires References(was[p], sha)
    ensures References(next[p], sha)
  {
    assert Live(was, tree, env, from, before, p, next[p]);
    if !Unchanged(was, tree, p) && sha != tree[p].sha {
      OverwrittenKeptIff(was, tree, env, from, before, after, next, p, sha);
    }
  }

  lemma LockstepAt(was: LockMap, tree: Tree, env: Env, from: map<string, string>, before: Node, after: Node, next: LockMap, p: string)
    requires Pushed(was, tree, env, from, before, after, next) && Locks.WellKeyed(was) && AllLockstep(was, before.refs) && p in next
    ensures p !in from ==> Lockstep(next[p], after.refs)
    ensures p in from ==> (Lockstep(next[p], after.refs) <==> forall v :: v in was[from[p]].versions ==> v in VersionsAt(before.refs, p))
  {
    if p in tree {
      assert Live(was, tree, env, from, before, p, next[p]);
      assert p in from ==> Lockstep(was[from[p]], before.refs);
    } else {
      assert Lockstep(was[p], before.refs);
    }
  }

  /** A push keeps lockstep if and only if what it carries over is listed at the new path already. */
  lemma PushKeepsLockstepIff(was: LockMap, tree: Tree, env: Env, from: map<string, string>, before: Node, after: Node, next: LockMap)
    requires Pushed(was, tree, env, from, before, after, next) && Locks.WellKeyed(was) && AllLockstep(was, before.refs)
    ensures AllLockstep(next, after.refs) <==> CarriesListed(was, tree, before.refs)
  {
    forall p | p in next
      ensures Lockstep(next[p], after.refs) <==> (p in from ==> forall v :: v in was[from[p]].versions ==> v in VersionsAt(before.refs, p))
    {
      LockstepAt(was, tree, env, from, before, after, next, p);
    }
    forall p | p in from
      ensures Paired(was, tree, p, from[p]) && p in next
    {
    }
  }

  /** So a file with history that is moved and then edited loses all its history: where the new path
      had no list, the edited entry refers to nothing but its new content. */
  lemma MoveThenEditForgets(was: LockMap, tree: Tree, env: Env, from: map<string, string>, before: Node, after: Node, next: LockMap, tree2: Tree, env2: Env, from2: map<string, string>, last: Node, final: LockMap, p: string, q: string, sha: string)
    requires Pushed(was, tree, env, from, before, after, next) && Paired(was, tree, p, q) && VersionsAt(before.refs, p) == []
    requires Pushed(next, tree2, env2, from2, after, last, final) && p in tree2 && tree2[p].sha != tree[p].sha
    ensures References(final[p], sha) ==> sha == tree2[p].sha
  {
    assert Live(was, tree, env, from, before, p, next[p]);
    assert Live(next, tree2, env2, from2, after, p, final[p]);
  }

  ghost predicate AllVersionsPresent(m: LockMap, objects: set<string>) {
    forall p, v :: p in m && v in m[p].versions ==> v in objects
  }

  /** The versions in the lock point at stored content after a push if and only if the lists it grew
      name nothing that is gone. */
  lemma VersionsPresentIff(was: LockMap, tree: Tree, env: Env, from: map<string, string>, before: Node, after: Node, next: LockMap)
    requires Pushed(was, tree, env, from, before, after, next) && AllVersionsPresent(was, before.objects)
    ensures AllVersionsPresent(next, after.objects) <==> forall p, v :: Relisted(was, tree, env, from, p) && v in VersionsAt(before.refs, p) ==> v in after.objects
  {
    forall p | p in next
      ensures (forall v :: v in next[p].versions ==> v in after.objects) <==> (Relisted(was, tree, env, from, p) ==> forall v :: v in VersionsAt(before.refs, p) ==> v in after.objects)
    {
      if p in tree {
        assert Live(was, tree, env, from, before, p, next[p]);
        assert Anew(was, tree, from, p) ==> SentFor(was, tree, from, tree.Keys, tree[p].sha);
      }
    }
    forall p | Relisted(was, tree, env, from, p)
      ensures p in next
    {
    }
  }

  // ---- the push as it runs ---------------------------------------------------------------

  predicate IsSource(was: LockMap, tree: Tree, handled: set<string>, sha: string, src: Option<string>) {
    match src
    case None => forall q :: q in was && MayRename(was, tree, q, sha) ==> q in handled
    case Some(x) => MayRename(was, tree, x, sha) && x !in handled && forall q :: q in was && MayRename(was, tree, q, sha) && q !in handled ==> q == x || Less(x, q)
  }

  /** The first path, in order, that the content of p may have been renamed from. */
  method RenameSource(was: LockMap, tree: Tree, handled: set<string>, sha: string) returns (src: Option<string>)
    ensures IsSource(was, tree, handled, sha, src)
  {
    var candidates := set q | q in was && was[q].sha == sha && !was[q].deleted && q !in tree && q !in handled;
    var ks := SortedKeys(candidates);
    if |ks| == 0 {
      src := None;
      assert forall q :: MayRename(was, tree, q, sha) && q !in handled ==> q in candidates;
    } else {
      src := Some(ks[0]);
      assert ks[0] in ks;
      assert forall q :: MayRename(was, tree, q, sha) && q !in handled ==> q in candidates && q in ks;
    }
  }

  /** One file handled: kept, carried over from src, or recorded anew. */
  ghost predicate PathPushed(was: LockMap, tree: Tree, env: Env, a: Node, b: Node, p: string, e: Locks.Entry, src: Option<string>)
    requires p in tree
  {
    if Unchanged(was, tree, p) then src.None? && e == was[p] && a == b
    else if src.Some? then CarriedFrom(was, tree, p, src.value, e) && a == b
    else
      && e == FreshEntry(env, a.refs, p, tree[p])
      && b.objects == a.objects + {tree[p].sha}
      && b.refs == if e.history then a.refs[p := e.versions] else a.refs
  }

  function Carry(from: map<string, string>, p: string, src: Option<string>): map<string, string> {
    if src.Some? then from[p := src.value] else from
  }

  /** Where the search for a source stands when p's turn comes: all paths before it are done. */
  ghost predicate Chosen(was: LockMap, tree: Tree, handled: set<string>, done: set<string>, p: string, src: Option<string>) {
    && p in tree && p !in done && (forall x :: x in tree && Less(x, p) ==> x in done)
    && if p in was then src.None? else IsSource(was, tree, handled, tree[p].sha, src)
  }

  /** The first source left over is the one of p's rank. */
  lemma SourceIsPaired(was: LockMap, tree: Tree, from: map<string, string>, done: set<string>, p: string, src: Option<string>)
    requires IsMatching(was, tree, done, from) && Chosen(was, tree, from.Values, done, p, src) && src.Some?
    ensures Paired(was, tree, p, src.value)
  {
    var sha, q := tree[p].sha, src.value;
    var added, gone := NewWith(was, tree, sha), GoneWith(was, tree, sha);
    if Rank(gone, q) < Rank(added, p) {
      RankInside(added, p);
      var x := RankTaken(added, Rank(gone, q));
      RankLess(added, x, p);
      assert Paired(was, tree, x, q);
      assert false;
    } else if Rank(added, p) < Rank(gone, q) {
      RankInside(gone, q);
      var y := RankTaken(gone, Rank(added, p));
      RankLess(gone, y, q);
      LessTrichotomy(y, q);
      if y in from.Values {
        TakenElsewhere(was, tree, from, done, p, y);
      }
    }
  }

  lemma TakenElsewhere(was: LockMap, tree: Tree, from: map<string, string>, done: set<string>, p: string, q: string)
    requires IsMatching(was, tree, done, from) && p !in done && q in from.Values && p in tree && p !in was && MayRename(was, tree, q, tree[p].sha)
    ensures !Paired(was, tree, p, q)
  {
    var x :| x in from && from[x] == q;
    assert Paired(was, tree, x, q) && x in done;
    RankLess(NewWith(was, tree, tree[p].sha), x, p);
  }

  lemma MatchOne(was: LockMap, tree: Tree, from: map<string, string>, done: set<string>, p: string, src: Option<string>)
    requires IsMatching(was, tree, done, from) && from.Keys <= done && Chosen(was, tree, from.Values, done, p, src)
    ensures IsMatching(was, tree, done + {p}, Carry(from, p, src))
  {
    var f := Carry(from, p, src);
    if src.Some? {
      SourceIsPaired(was, tree, from, done, p, src);
    }
    forall q
      ensures Paired(was, tree, p, q) <==> src == Some(q)
    {
      if src.Some? && Paired(was, tree, p, q) {
        RankLess(GoneWith(was, tree, tree[p].sha), src.value, q);
      }
      if src.None? && p !in was && MayRename(was, tree, q, tree[p].sha) {
        TakenElsewhere(was, tree, from, done, p, q);
      }
    }
  }

  lemma SentOne(was: LockMap, tree: Tree, from: map<string, string>, done: set<string>, p: string, src: Option<string>, sha: string)
    requires p in tree && p !in done && from.Keys <= done
    ensures SentFor(was, tree, Carry(from, p, src), done + {p}, sha) <==>
            SentFor(was, tree, from, done, sha) || (src.None? && !Unchanged(was, tree, p) && sha == tree[p].sha)
  {
    var f := Carry(from, p, src);
    forall q | q in done
      ensures Anew(was, tree, f, q) <==> Anew(was, tree, from, q)
    {
    }
    if SentFor(was, tree, from, done, sha) {
      var q :| q in done && Anew(was, tree, from, q) && tree[q].sha == sha;
      assert q in done + {p} && Anew(was, tree, f, q);
    }
    if src.None? && !Unchanged(was, tree, p) && sha == tree[p].sha {
      assert p in done + {p} && Anew(was, tree, f, p);
    }
  }

  lemma SendOne(was: LockMap, tree: Tree, env: Env, from: map<string, string>, before: Node, after: Node, done: set<string>, next: LockMap, p: string, e: Locks.Entry, src: Option<string>, later: Node)
    requires Handled(was, tree, env, from, before, after, done, next) && p in tree && p !in done
    requires PathPushed(was, tree, env, after, later, p, e, src)
    ensures forall sha :: sha in later.objects <==> sha in before.objects || SentFor(was, tree, Carry(from, p, src), done + {p}, sha)
  {
    forall sha
      ensures sha in later.objects <==> sha in before.objects || SentFor(was, tree, Carry(from, p, src), done + {p}, sha)
    {
      SentOne(was, tree, from, done, p, src, sha);
    }
  }

  lemma ListOne(was: LockMap, tree: Tree, env: Env, from: map<string, string>, before: Node, after: Node, done: set<string>, next: LockMap, p: string, e: Locks.Entry, src: Option<string>, later: Node)
    requires Handled(was, tree, env, from, before, after, done, next) && p in tree && p !in done
    requires PathPushed(was, tree, env, after, later, p, e, src)
    ensures ListsGrow(was, tree, env, Carry(from, p, src), before, later, done + {p})
  {
    assert VersionsAt(after.refs, p) == VersionsAt(before.refs, p);
    forall q | q != p
      ensures VersionsAt(later.refs, q) == VersionsAt(after.refs, q)
      ensures Relisted(was, tree, env, Carry(from, p, src), q) <==> Relisted(was, tree, env, from, q)
    {
    }
  }

  lemma LiveOne(was: LockMap, tree: Tree, env: Env, from: map<string, string>, before: Node, after: Node, done: set<string>, next: LockMap, p: string, e: Locks.Entry, src: Option<string>, later: Node)
    requires Handled(was, tree, env, from, before, after, done, next) && p in tree && p !in done
    requires PathPushed(was, tree, env, after, later, p, e, src)
    ensures forall q :: q in done + {p} ==> q in next[p := e] && Live(was, tree, env, Carry(from, p, src), before, q, next[p := e][q])
  {
    var f, n := Carry(from, p, src), next[p := e];
    assert VersionsAt(after.refs, p) == VersionsAt(before.refs, p);
    forall q | q in done + {p}
      ensures q in n && Live(was, tree, env, f, before, q, n[q])
    {
      if q != p {
        assert Live(was, tree, env, from, before, q, next[q]);
      }
    }
  }

  lemma HandleOne(was: LockMap, tree: Tree, env: Env, from: map<string, string>, before: Node, after: Node, done: set<string>, next: LockMap, p: string, e: Locks.Entry, src: Option<string>, later: Node)
    requires Handled(was, tree, env, from, before, after, done, next) && Chosen(was, tree, from.Values, done, p, src)
    requires PathPushed(was, tree, env, after, later, p, e, src)
    ensures Handled(was, tree, env, Carry(from, p, src), before, later, done + {p}, next[p := e])
  {
    SendOne(was, tree, env, from, before, after, done, next, p, e, src, later);
    ListOne(was, tree, env, from, before, after, done, next, p, e, src, later);
    LiveOne(was, tree, env, from, before, after, done, next, p, e, src, later);
    MatchOne(was, tree, from, done, p, src);
  }

  lemma Finished(was: LockMap, tree: Tree, env: Env, from: map<string, string>, before: Node, after: Node, live: LockMap, tombs: LockMap)
    requires Handled(was, tree, env, from, before, after, tree.Keys, live) && live.Keys == tree.Keys
    requires forall p :: p in tombs <==> IsTombstone(was, tree, env, from.Values, p)
    requires forall p :: p in tombs ==> p in was && tombs[p] == was[p].(deleted := true)
    ensures Pushed(was, tree, env, from, before, after, live + tombs)
  {
    forall p | p in tree
      ensures p in live + tombs && Live(was, tree, env, from, before, p, (live + tombs)[p])
    {
      assert p !in tombs && p in live;
    }
  }

  /** The deletion loop: what happens to the paths that are gone. */
  method Tombstones(was: LockMap, tree: Tree, env: Env, handled: set<string>) returns (tombs: LockMap, dropped: seq<string>, marked: seq<string>)
    ensures forall p :: p in tombs <==> IsTombstone(was, tree, env, handled, p)
    ensures forall p :: p in tombs ==> p in was && tombs[p] == was[p].(deleted := true)
    ensures forall p :: p in dropped <==> Vanished(was, tree, handled, p)
    ensures forall sha :: sha in marked <==> exists p :: p in was && was[p].sha == sha && Vanished(was, tree, handled, p) && !Survives(env, was[p])
  {
    tombs, dropped, marked := map[], [], [];
    var paths := SortedKeys(was.Keys);
    for i := 0 to |paths|
      invariant forall p :: p in tombs <==> p in paths[..i] && IsTombstone(was, tree, env, handled, p)
      invariant forall p :: p in tombs ==> p in was && tombs[p] == was[p].(deleted := true)
      invariant forall p :: p in dropped <==> p in paths[..i] && Vanished(was, tree, handled, p)
      invariant forall sha :: sha in marked <==> exists p :: p in paths[..i] && p in was && was[p].sha == sha && Vanished(was, tree, handled, p) && !Survives(env, was[p])
    {
      var p := paths[i];
      assert p in paths && paths[..i + 1] == paths[..i] + [p];
      if p !in tree && p !in handled {
        if was[p].deleted {
          tombs := tombs[p := was[p]];
        } else {
          dropped := dropped + [p];
          if env.autoDelete && !was[p].preserve {
            marked := marked + [was[p].sha];
          } else {
            tombs := tombs[p := was[p].(deleted := true)];
          }
        }
      }
    }
    assert paths[..|paths|] == paths;
  }

  predicate ListWritable(vs: seq<string>, sha: string, fault: Fault) {
    !fault.ListUnread? && (fault.ListLost? ==> vs != [] && vs[0] == sha)
  }

  /** A file that is recorded anew gets through: the node has its bytes or can be sent them, and its list
      can be written. */
  predicate Sendable(tree: Tree, env: Env, dryRun: bool, node: Node, p: string)
    requires p in tree
  {
    var f, fault := tree[p], env.fault(p);
    !fault.Early? && (dryRun || (
      && (f.sha in node.objects || (!f.pointer && !fault.Unsent? && !fault.Unchecked?))
      && (env.decide(p, f.size).history ==> ListWritable(VersionsAt(node.refs, p), f.sha, fault))))
  }

  /** What the node holds of the tree by the time p's turn comes. */
  ghost predicate SentEarlier(was: LockMap, tree: Tree, p: string, sha: string) {
    exists x :: Changed(was, tree, x) && Less(x, p) && tree[x].sha == sha
  }

  /** The file gets through, seen from before the push: an earlier file may bring its bytes. */
  ghost predicate GetsThrough(was: LockMap, tree: Tree, env: Env, dryRun: bool, node: Node, p: string)
    requires p in tree
  {
    Changed(was, tree, p) ==> Sendable(tree, env, dryRun, if SentEarlier(was, tree, p, tree[p].sha) then node.(objects := node.objects + {tree[p].sha}) else node, p)
  }

  /** What each fault holds up. A dry run is stopped only by what breaks before the node is asked, a file whose
      bytes are there by nothing that breaks in sending them, and an unchanged or moved file by nothing. */
  lemma WhatHoldsUp(was: LockMap, tree: Tree, env: Env, dryRun: bool, node: Node, p: string)
    requires p in tree
    ensures !Changed(was, tree, p) ==> GetsThrough(was, tree, env, dryRun, node, p)
    ensures Changed(was, tree, p) ==>
              var f, through, listed := tree[p], GetsThrough(was, tree, env, dryRun, node, p), VersionsAt(node.refs, p);
              var there := f.sha in node.objects || exists x :: Changed(was, tree, x) && Less(x, p) && tree[x].sha == f.sha;
              var lists := env.decide(p, f.size).history;
              match env.fault(p)
              case NoFault => through <==> dryRun || there || !f.pointer
              case Early => !through
              case Unsent => through <==> dryRun || there
              case Unchecked => through <==> dryRun || there
              case ListUnread => through <==> dryRun || ((there || !f.pointer) && !lists)
              case ListLost => through <==> dryRun || ((there || !f.pointer) && (!lists || (listed != [] && listed[0] == f.sha)))
  {
    assert SentEarlier(was, tree, p, tree[p].sha) <==> exists x :: Changed(was, tree, x) && Less(x, p) && tree[x].sha == tree[p].sha;
  }

  /** What a push says it did. */
  datatype Report = Report(uploaded: seq<string>, deduped: seq<string>, renamed: seq<(string, string)>, dropped: seq<string>, marked: seq<string>)

  /** What the report says of the files in done. */
  ghost predicate Reports(was: LockMap, tree: Tree, from: map<string, string>, objects: set<string>, done: set<string>, rep: Report) {
    && (forall sha :: sha in rep.uploaded <==> sha !in objects && SentFor(was, tree, from, done, sha))
    && (forall sha :: sha in rep.deduped ==> SentFor(was, tree, from, done, sha))
    && (forall sha :: sha in objects && SentFor(was, tree, from, done, sha) ==> sha in rep.deduped)
    && (forall q, p :: (q, p) in rep.renamed <==> p in from && from[p] == q)
  }

  ghost predicate MarksSuperseded(was: LockMap, tree: Tree, env: Env, done: set<string>, marked: seq<string>) {
    forall sha :: sha in marked <==> exists p :: p in done && Superseded(was, tree, env, p) && was[p].sha == sha
  }

  /** The report with one more file of the tree. had says whether the node had its bytes before. */
  function Told(was: LockMap, tree: Tree, env: Env, rep: Report, p: string, src: Option<string>, had: bool): Report
    requires p in tree
  {
    if Unchanged(was, tree, p) then rep
    else if src.Some? then rep.(renamed := rep.renamed + [(src.value, p)])
    else
      var told := if had then rep.(deduped := rep.deduped + [tree[p].sha]) else rep.(uploaded := rep.uploaded + [tree[p].sha]);
      if Superseded(was, tree, env, p) then told.(marked := rep.marked + [was[p].sha]) else told
  }

  /** What is known of a file once it is handled, on a dry run or a real one. */
  ghost predicate PathDone(was: LockMap, tree: Tree, env: Env, dryRun: bool, a: Node, b: Node, p: string, e: Locks.Entry, src: Option<string>)
    requires p in tree
  {
    var stored := if dryRun then b == a else PathPushed(was, tree, env, a, b, p, e, src);
    stored && if src.None? then Unchanged(was, tree, p) ==> e == was[p] else !Unchanged(was, tree, p) && CarriedFrom(was, tree, p, src.value, e)
  }

  /** What a file on which the push breaks may leave. */
  ghost predicate PathBroke(env: Env, a: Node, b: Node, p: string) {
    a.objects <= b.objects && (b.refs == a.refs || (b.refs == a.refs - {p} && env.fault(p).ListLost?))
  }

  /** What the loop over the tree has established. */
  ghost predicate Underway(was: LockMap, tree: Tree, env: Env, dryRun: bool, from: map<string, string>, before: Node, after: Node, next: LockMap, rep: Report) {
    var stored := if dryRun then after == before else Handled(was, tree, env, from, before, after, next.Keys, next);
    var told := Reports(was, tree, from, before.objects, next.Keys, rep) && MarksSuperseded(was, tree, env, next.Keys, rep.marked);
    stored && told && from.Keys <= next.Keys <= tree.Keys && IsMatching(was, tree, next.Keys, from)
  }

  lemma SortedSoFar(paths: seq<string>, i: nat, done: set<string>)
    requires InOrder(paths) && i < |paths| && forall x :: x in done <==> x in paths[..i]
    ensures forall x :: x in done <==> x in paths && Less(x, paths[i])
    ensures paths[i] !in done
  {
    LessIrreflexive(paths[i]);
    forall x | x in paths && Less(x, paths[i])
      ensures x in paths[..i]
    {
      var j :| 0 <= j < |paths| && paths[j] == x;
      LessTrichotomy(x, paths[i]);
    }
  }

  lemma NothingYet(was: LockMap, tree: Tree, env: Env, dryRun: bool, node: Node)
    ensures Underway(was, tree, env, dryRun, map[], node, node, map[], Report([], [], [], [], []))
  {
  }

  lemma OneMore(was: LockMap, tree: Tree, env: Env, dryRun: bool, from: map<string, string>, before: Node, after: Node, next: LockMap, rep: Report, p: string, e: Locks.Entry, src: Option<string>, later: Node)
    requires Underway(was, tree, env, dryRun, from, before, after, next, rep) && Chosen(was, tree, from.Values, next.Keys, p, src)
    requires PathDone(was, tree, env, dryRun, after, later, p, e, src)
    ensures Underway(was, tree, env, dryRun, Carry(from, p, src), before, later, next[p := e], Told(was, tree, env, rep, p, src, tree[p].sha in after.objects))
  {
    var had := tree[p].sha in after.objects;
    ReportOne(was, tree, env, from, before.objects, next.Keys, rep, p, src, had);
    MarkOne(was, tree, env, next.Keys, rep, p, src, had);
    assert next[p := e].Keys == next.Keys + {p};
    MatchOne(was, tree, from, next.Keys, p, src);
    if !dryRun {
      HandleOne(was, tree, env, from, before, after, next.Keys, next, p, e, src, later);
    }
  }

  lemma SentBefore(was: LockMap, tree: Tree, from: map<string, string>, done: set<string>, p: string, sha: string)
    requires IsMatching(was, tree, done, from) && forall x :: x in done <==> x in tree && Less(x, p)
    ensures SentFor(was, tree, from, done, sha) <==> SentEarlier(was, tree, p, sha)
  {
    forall x | x in done
      ensures Anew(was, tree, from, x) <==> Changed(was, tree, x)
    {
      if x in from {
        assert Paired(was, tree, x, from[x]);
      }
    }
  }

  lemma PassesIff(was: LockMap, tree: Tree, env: Env, dryRun: bool, from: map<string, string>, before: Node, after: Node, next: LockMap, rep: Report, p: string, src: Option<string>)
    requires Underway(was, tree, env, dryRun, from, before, after, next, rep) && Chosen(was, tree, from.Values, next.Keys, p, src)
    requires forall x :: x in next ==> Less(x, p)
    ensures GetsThrough(was, tree, env, dryRun, before, p) <==> Unchanged(was, tree, p) || src.Some? || Sendable(tree, env, dryRun, after, p)
  {
    MatchOne(was, tree, from, next.Keys, p, src);
    var f := Carry(from, p, src);
    if src.Some? {
      assert f[p] == src.value && Paired(was, tree, p, src.value);
    } else {
      assert f == from && p !in f;
      assert forall q :: !Paired(was, tree, p, q);
    }
    if Changed(was, tree, p) && !dryRun {
      SentBefore(was, tree, from, next.Keys, p, tree[p].sha);
      assert VersionsAt(after.refs, p) == VersionsAt(before.refs, p);
    }
  }

  lemma EndIsAttempt(was: LockMap, tree: Tree, env: Env, dryRun: bool, from: map<string, string>, before: Node, after: Node, next: LockMap, rep: Report)
    requires Underway(was, tree, env, dryRun, from, before, after, next, rep)
    ensures Attempted(tree, env, before, after)
  {
  }

  /** A push that breaks at p leaves what an attempt may leave. */
  lemma BrokenIsAttempt(was: LockMap, tree: Tree, env: Env, dryRun: bool, from: map<string, string>, before: Node, after: Node, next: LockMap, rep: Report, p: string, broken: Node)
    requires Underway(was, tree, env, dryRun, from, before, after, next, rep) && p in tree && PathBroke(env, after, broken, p)
    ensures Attempted(tree, env, before, broken)
  {
    EndIsAttempt(was, tree, env, dryRun, from, before, after, next, rep);
    forall q | q != p
      ensures VersionsAt(broken.refs, q) == VersionsAt(after.refs, q)
    {
    }
  }

  lemma ReportOne(was: LockMap, tree: Tree, env: Env, from: map<string, string>, objects: set<string>, done: set<string>, rep: Report, p: string, src: Option<string>, had: bool)
    requires Reports(was, tree, from, objects, done, rep) && p in tree && p !in done && from.Keys <= done
    requires Unchanged(was, tree, p) ==> src.None?
    requires tree[p].sha in objects ==> had
    requires had ==> tree[p].sha in objects || SentFor(was, tree, from, done, tree[p].sha)
    ensures Reports(was, tree, Carry(from, p, src), objects, done + {p}, Told(was, tree, env, rep, p, src, had))
  {
    forall sha
      ensures SentFor(was, tree, Carry(from, p, src), done + {p}, sha) <==>
              SentFor(was, tree, from, done, sha) || (src.None? && !Unchanged(was, tree, p) && sha == tree[p].sha)
    {
      SentOne(was, tree, from, done, p, src, sha);
    }
  }

  lemma MarkOne(was: LockMap, tree: Tree, env: Env, done: set<string>, rep: Report, p: string, src: Option<string>, had: bool)
    requires MarksSuperseded(was, tree, env, done, rep.marked) && p in tree && (src.Some? ==> p !in was)
    ensures MarksSuperseded(was, tree, env, done + {p}, Told(was, tree, env, rep, p, src, had).marked)
  {
    var marked := Told(was, tree, env, rep, p, src, had).marked;
    assert marked == if Superseded(was, tree, env, p) then rep.marked + [was[p].sha] else rep.marked;
    forall sha
      ensures sha in marked <==> exists q :: q in done + {p} && Superseded(was, tree, env, q) && was[q].sha == sha
    {
      if Superseded(was, tree, env, p) && was[p].sha == sha {
        assert p in done + {p};
      }
      if sha in rep.marked {
        var q :| q in done && Superseded(was, tree, env, q) && was[q].sha == sha;
        assert q in done + {p};
      }
    }
  }

  class Clone {
    var entries: seq<Locks.Entry>             // the lock of the working tree
    var objects: set<string>                  // what the node stores
    var refs: map<string, seq<string>>        // the version lists on the node

    constructor (entries: seq<Locks.Entry>, node: Node)
      ensures this.entries == entries && Stored() == node
    {
      this.entries := entries;
      this.objects := node.objects;
      this.refs := node.refs;
    }

    function Stored(): Node
      reads this
    {
      Node(objects, refs)
    }

    /** Send the bytes unless the node has them; a pointer has none to send. */
    method Upload(f: TreeFile, fault: Fault, dryRun: bool) returns (ok: bool)
      modifies this`objects
      ensures ok <==> f.sha in old(objects) || dryRun || (!f.pointer && !fault.Unsent? && !fault.Unchecked?)
      ensures objects == if !dryRun && (ok || (!f.pointer && fault.Unchecked?)) then old(objects) + {f.sha} else old(objects)
    {
      if f.sha in objects || dryRun {
        return true;
      }
      if f.pointer || fault.Unsent? {
        return false;
      }
      objects := objects + {f.sha};
      ok := !fault.Unchecked?;
    }

    /** Record content in a path's list. The list is deleted and then written anew. */
    method Relist(p: string, sha: string, fault: Fault) returns (ok: bool, vs: seq<string>)
      modifies this`refs
      ensures ok ==> vs == AppendVersion(VersionsAt(old(refs), p), sha) && refs == old(refs)[p := vs]
      ensures !ok ==> refs == if fault.ListLost? then old(refs) - {p} else old(refs)
      ensures ok <==> ListWritable(VersionsAt(old(refs), p), sha, fault)
    {
      if fault.ListUnread? {
        return false, [];
      }
      vs := VersionsAt(refs, p);
      if vs != [] && vs[0] == sha {
        assert p in refs && refs[p := vs] == refs;
        return true, vs;
      }
      vs := [sha] + vs;
      refs := refs - {p};
      if fault.ListLost? {
        return false, [];
      }
      refs := refs[p := vs];
      assert refs == old(refs)[p := vs];
      ok := true;
    }

    /** One path of the tree. */
    method PushPath(was: LockMap, tree: Tree, env: Env, dryRun: bool, p: string, handled: set<string>) returns (ok: bool, e: Locks.Entry, src: Option<string>)
      requires p in tree
      modifies this`objects, this`refs
      ensures dryRun ==> Stored() == old(Stored())
      ensures if ok then PathDone(was, tree, env, dryRun, old(Stored()), Stored(), p, e, src) else PathBroke(env, old(Stored()), Stored(), p)
      ensures if p in was then src.None? else IsSource(was, tree, handled, tree[p].sha, src)
      ensures ok <==> Unchanged(was, tree, p) || src.Some? || Sendable(tree, env, dryRun, old(Stored()), p)
    {
      var sha := tree[p].sha;
      src := None;
      if p in was && was[p].sha == sha && !was[p].deleted {
        return true, was[p], None;
      }
      e := FreshEntry(env, refs, p, tree[p]);
      if p !in was {
        src := RenameSource(was, tree, handled, sha);
        if src.Some? {
          return true, was[src.value].(path := p), src;
        }
      }
      if env.fault(p).Early? {
        return false, e, None;
      }
      ok := Upload(tree[p], env.fault(p), dryRun);
      if ok && e.history && !dryRun {
        var vs;
        ok, vs := Relist(p, sha, env.fault(p));
      }
    }

    /** One turn of the loop over the tree. */
    method PushNext(was: LockMap, tree: Tree, env: Env, dryRun: bool, p: string, next: LockMap, from: map<string, string>, rep: Report, ghost start: Node)
      returns (ok: bool, next2: LockMap, from2: map<string, string>, rep2: Report)
      requires Underway(was, tree, env, dryRun, from, start, Stored(), next, rep) && p in tree && p !in next
      requires forall x :: x in next <==> x in tree && Less(x, p)
      modifies this`objects, this`refs
      ensures ok ==> Underway(was, tree, env, dryRun, from2, start, Stored(), next2, rep2) && next2.Keys == next.Keys + {p}
      ensures !ok ==> Attempted(tree, env, start, Stored())
      ensures dryRun ==> Stored() == old(Stored())
      ensures ok <==> GetsThrough(was, tree, env, dryRun, start, p)
    {
      var had := tree[p].sha in objects;
      var e, src;
      next2, from2, rep2 := next, from, rep;
      ok, e, src := PushPath(was, tree, env, dryRun, p, from.Values);
      PassesIff(was, tree, env, dryRun, from, start, old(Stored()), next, rep, p, src);
      if ok {
        OneMore(was, tree, env, dryRun, from, start, old(Stored()), next, rep, p, e, src, Stored());
        next2, from2, rep2 := next[p := e], Carry(from, p, src), Told(was, tree, env, rep, p, src, had);
      } else {
        BrokenIsAttempt(was, tree, env, dryRun, from, start, old(Stored()), next, rep, p, Stored());
      }
    }

    /** The loop over the tree. */
    method PushTree(was: LockMap, tree: Tree, env: Env, dryRun: bool) returns (ok: bool, next: LockMap, from: map<string, string>, rep: Report)
      modifies this`objects, this`refs
      ensures dryRun ==> Stored() == old(Stored())
      ensures ok ==> next.Keys == tree.Keys && Underway(was, tree, env, dryRun, from, old(Stored()), Stored(), next, rep)
      ensures Attempted(tree, env, old(Stored()), Stored())
      ensures ok <==> forall p :: p in tree ==> GetsThrough(was, tree, env, dryRun, old(Stored()), p)
    {
      var paths := SortedKeys(tree.Keys);
      next, from, rep := map[], map[], Report([], [], [], [], []);
      ghost var start := Stored();
      NothingYet(was, tree, env, dryRun, start);
      for i := 0 to |paths|
        invariant forall p :: p in next <==> p in paths[..i]
        invariant Underway(was, tree, env, dryRun, from, start, Stored(), next, rep)
        invariant forall p :: p in next ==> GetsThrough(was, tree, env, dryRun, start, p)
      {
        var p := paths[i];
        assert p in paths && paths[..i + 1] == paths[..i] + [p];
        SortedSoFar(paths, i, next.Keys);
        ok, next, from, rep := PushNext(was, tree, env, dryRun, p, next, from, rep, start);
        if !ok {
          return;
        }
      }
      assert paths[..|paths|] == paths;
      assert next.Keys == tree.Keys;
      EndIsAttempt(was, tree, env, dryRun, from, start, Stored(), next, rep);
      ok := true;
    }

    /** The whole push. The lock is written last, or not at all. */
    method Run(tree: Tree, env: Env, reachable: bool, dryRun: bool) returns (ok: bool, from: map<string, string>, rep: Report)
      modifies this
      ensures !reachable || dryRun ==> Stored() == old(Stored())
      ensures !ok || dryRun ==> entries == old(entries)
      ensures Attempted(tree, env, old(Stored()), Stored())
      ensures ok <==> reachable && forall p :: p in tree ==> GetsThrough(ByPath(old(entries)), tree, env, dryRun, old(Stored()), p)
      ensures ok && !dryRun ==> Sorted(entries) && Pushed(ByPath(old(entries)), tree, env, from, old(Stored()), Stored(), ByPath(entries))
      ensures ok ==> forall p :: p in rep.dropped <==> Vanished(ByPath(old(entries)), tree, from.Values, p)
      ensures ok ==> forall sha :: sha in rep.marked <==> Marked(ByPath(old(entries)), tree, env, from, sha)
      ensures ok ==> Reports(ByPath(old(entries)), tree, from, old(objects), tree.Keys, rep)
    {
      var was := ByPath(entries);
      if !reachable {
        return false, map[], Report([], [], [], [], []);
      }
      var live;
      ok, live, from, rep := PushTree(was, tree, env, dryRun);
      if !ok {
        return;
      }
      var tombs, dropped, marked := Tombstones(was, tree, env, from.Values);
      rep := rep.(dropped := dropped, marked := rep.marked + marked);
      if !dryRun {
        Finished(was, tree, env, from, old(Stored()), Stored(), live, tombs);
        PushedWellKeyed(was, tree, env, from, old(Stored()), Stored(), live + tombs);
        entries := SortByPath(live + tombs);
      }
    }
  }

  lemma PushedWellKeyed(was: LockMap, tree: Tree, env: Env, from: map<string, string>, before: Node, after: Node, next: LockMap)
    requires Pushed(was, tree, env, from, before, after, next) && Locks.WellKeyed(was)
    ensures Locks.WellKeyed(next)
  {
    forall p | p in next
      ensures next[p].path == p
    {
      if p in tree {
        assert Live(was, tree, env, from, before, p, next[p]);
      }
    }
  }
}
