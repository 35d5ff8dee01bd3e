/** Nodes as the vault commands see them: a catalog that is read and overwritten whole, a log, and
    content-addressed objects. One client drives the commands; it may die between any two writes,
    so the cluster remembers every state it has been in. */
module Vaults {
  import opened Wrappers
  import opened Wal
  import opened Catalogs

  /** objects maps a key (the recorded sha) to the true hash of the bytes stored there: the two
      differ when a manually edited file has drifted. */
  datatype Node = Node(cat: Option<RowMap>, log: LogView, objects: map<string, string>)

  type Nodes = map<string, Node>

  function Persist(s: Node, rows: RowMap): Node {
    s.(cat := Some(rows))
  }

  function PutObject(s: Node, key: string, hash: string): Node {
    if key in s.objects then s else s.(objects := s.objects[key := hash])
  }

  function DropObject(s: Node, key: string): Node {
    s.(objects := s.objects - {key})
  }

  function Intend(s: Node, e: Entry): Node {
    s.(log := Append(s.log, e).1)
  }

  function Finish(s: Node, opID: string, done: bool): Node {
    s.(log := MarkOp(s.log, opID, done))
  }

  /** What a run on one member records: the whole cluster after each of its writes. */
  function Lift(nodes: Nodes, n: string, states: seq<Node>): seq<Nodes> {
    seq(|states|, i requires 0 <= i < |states| => nodes[n := states[i]])
  }

  /** Since start, exactly these states of member n have been recorded, and the cluster is in the last. */
  ghost predicate Followed(start: Nodes, n: string, trail0: seq<Nodes>, states: seq<Node>, trail: seq<Nodes>, nodes: Nodes) {
    && trail == trail0 + Lift(start, n, states)
    && nodes == if states == [] then start else start[n := states[|states| - 1]]
  }

  lemma FollowOn(start: Nodes, n: string, trail0: seq<Nodes>, states: seq<Node>, trail: seq<Nodes>, nodes: Nodes, next: Node)
    requires Followed(start, n, trail0, states, trail, nodes) && n in start
    ensures nodes[n := next] == start[n := next] && n in nodes
    ensures Followed(start, n, trail0, states + [next], trail + [nodes[n := next]], nodes[n := next])
  {
    assert Lift(start, n, states + [next]) == Lift(start, n, states) + [start[n := next]];
  }

  class Cluster {
    var nodes: Nodes
    ghost var trail: seq<Nodes>

    constructor (nodes: Nodes)
      ensures this.nodes == nodes && trail == []
    {
      this.nodes := nodes;
      trail := [];
    }

    method AppendIntent(n: string, e: Entry) returns (r: AppendResult)
      requires n in nodes
      modifies this
      ensures r == Append(old(nodes)[n].log, e).0
      ensures nodes == old(nodes)[n := Intend(old(nodes)[n], e)] && trail == old(trail) + [nodes]
    {
      r := Append(nodes[n].log, e).0;
      nodes := nodes[n := Intend(nodes[n], e)];
      trail := trail + [nodes];
    }

    method Mark(n: string, opID: string, done: bool)
      requires n in nodes
      modifies this
      ensures nodes == old(nodes)[n := Finish(old(nodes)[n], opID, done)] && trail == old(trail) + [nodes]
    {
      nodes := nodes[n := Finish(nodes[n], opID, done)];
      trail := trail + [nodes];
    }

    method PersistCatalog(n: string, rows: RowMap)
      requires n in nodes
      modifies this
      ensures nodes == old(nodes)[n := Persist(old(nodes)[n], rows)] && trail == old(trail) + [nodes]
    {
      nodes := nodes[n := Persist(nodes[n], rows)];
      trail := trail + [nodes];
    }

    method Put(n: string, key: string, hash: string)
      requires n in nodes
      modifies this
      ensures nodes == old(nodes)[n := PutObject(old(nodes)[n], key, hash)] && trail == old(trail) + [nodes]
    {
      nodes := nodes[n := PutObject(nodes[n], key, hash)];
      trail := trail + [nodes];
    }

    method Delete(n: string, key: string)
      requires n in nodes
      modifies this
      ensures nodes == old(nodes)[n := DropObject(old(nodes)[n], key)] && trail == old(trail) + [nodes]
    {
      nodes := nodes[n := DropObject(nodes[n], key)];
      trail := trail + [nodes];
    }

    method ReadCatalog(n: string) returns (rows: Option<RowMap>)
      requires n in nodes
      ensures rows == nodes[n].cat
    {
      rows := nodes[n].cat;
    }

    method HashObject(n: string, key: string) returns (hash: Option<string>)
      requires n in nodes
      ensures hash == if key in nodes[n].objects then Some(nodes[n].objects[key]) else None
    {
      hash := if key in nodes[n].objects then Some(nodes[n].objects[key]) else None;
    }
  }
}
