/**
  The tree of services: names inserted node by node, rows rendered branch by branch, and
  the plain stable sort that the rows amount to.
 */
module ServiceTree {
  import opened ServicePath

  /** A node, found by its path; its children are the nodes one name further down. */
  datatype Node = Node(name: string, fullPath: string, services: seq<Service>)

  type Nodes = map<Path, Node>

  predicate IsPrefix(p: Path, q: Path) {
    p <= q
  }

  function NameOf(p: Path): string {
    if p == [] then "" else p[|p| - 1]
  }

  function NodeWith(p: Path, services: seq<Service>): Node {
    Node(NameOf(p), Joined(p), services)
  }

  ghost predicate OnSomePath(list: seq<Service>, p: Path) {
    exists i :: 0 <= i < |list| && IsPrefix(p, PathOf(list[i]))
  }

  /** The tree that holds a list of services: one node for each prefix of a path, with the services at that path. */
  ghost predicate Holds(nodes: Nodes, list: seq<Service>) {
    && (forall p :: p in nodes <==> p == [] || OnSomePath(list, p))
    && (forall p | p in nodes :: nodes[p] == NodeWith(p, At(list, p)))
  }

  // ---------- Inserting ----------

  /** A walk has made the missing nodes down to some point, and changed nothing else. */
  ghost predicate WalkedTo(before: Nodes, after: Nodes, q: Path) {
    && (forall p :: p in after <==> p in before || IsPrefix(p, q))
    && (forall p | p in after :: after[p] == if p in before then before[p] else NodeWith(p, []))
  }

  lemma PrefixesGrow(q: Path, part: string)
    ensures forall p: Path :: IsPrefix(p, q + [part]) <==> IsPrefix(p, q) || p == q + [part]
    ensures Joined(q + [part]) == if Joined(q) == "" then part else Joined(q) + "." + part
    ensures NameOf(q + [part]) == part
  {
  }

  lemma OneStepDown(before: Nodes, nodes: Nodes, node: Path, part: string, path: string)
    requires WalkedTo(before, nodes, node)
    requires path == if Joined(node) == "" then part else Joined(node) + "." + part
    ensures path == Joined(node + [part])
    ensures WalkedTo(before,
                     if node + [part] in nodes then nodes else nodes[node + [part] := Node(part, path, [])],
                     node + [part])
  {
    PrefixesGrow(node, part);
  }

  lemma OnSomePathAppend(list: seq<Service>, service: Service, p: Path)
    ensures OnSomePath(list + [service], p) <==> OnSomePath(list, p) || IsPrefix(p, PathOf(service))
  {
    var list' := list + [service];
    if i :| 0 <= i < |list| && IsPrefix(p, PathOf(list[i])) {
      assert list'[i] == list[i];
    }
    if IsPrefix(p, PathOf(service)) {
      assert list'[|list|] == service;
    }
  }

  lemma {:induction false} NothingThere(list: seq<Service>, p: Path)
    requires !OnSomePath(list, p)
    ensures At(list, p) == []
  {
    AtMembers(list, p);
    assert forall i | 0 <= i < |list| :: !IsPrefix(p, PathOf(list[i]));
    assert IsPrefix(p, p);
  }

  lemma WalkStarts(nodes: Nodes, list: seq<Service>)
    requires Holds(nodes, list)
    ensures WalkedTo(nodes, nodes, [])
  {
  }

  /** A service noted at a node. */
  function Noted(nodes: Nodes, q: Path, service: Service): Nodes
    requires q in nodes
  {
    nodes[q := nodes[q].(services := nodes[q].services + [service])]
  }

  lemma InsertedAtNode(before: Nodes, walked: Nodes, list: seq<Service>, service: Service, p: Path)
    requires Holds(before, list) && WalkedTo(before, walked, PathOf(service)) && PathOf(service) in walked
    ensures var after := Noted(walked, PathOf(service), service);
      && (p in after <==> p == [] || OnSomePath(list + [service], p))
      && (p in after ==> after[p] == NodeWith(p, At(list + [service], p)))
  {
    OnSomePathAppend(list, service, p);
    AtConcat(list, [service], p);
    AtCons(service, [], p);
    if p !in before {
      NothingThere(list, p);
    }
  }

  lemma Inserted(before: Nodes, walked: Nodes, list: seq<Service>, service: Service)
    requires Holds(before, list) && WalkedTo(before, walked, PathOf(service))
    ensures PathOf(service) in walked && Holds(Noted(walked, PathOf(service), service), list + [service])
  {
    assert IsPrefix(PathOf(service), PathOf(service));
    forall p
      ensures var after := Noted(walked, PathOf(service), service);
        && (p in after <==> p == [] || OnSomePath(list + [service], p))
        && (p in after ==> after[p] == NodeWith(p, At(list + [service], p)))
    {
      InsertedAtNode(before, walked, list, service, p);
    }
  }

  /** Different nodes have different full paths, so opening one branch opens no other. */
  lemma FullPathsDiffer(nodes: Nodes, list: seq<Service>, p: Path, q: Path)
    requires Holds(nodes, list) && p in nodes && q in nodes && nodes[p].fullPath == nodes[q].fullPath
    ensures p == q
  {
    NodeParts(nodes, list, p);
    NodeParts(nodes, list, q);
    JoinedSplitsBack(p);
    JoinedSplitsBack(q);
  }

  lemma NodeParts(nodes: Nodes, list: seq<Service>, p: Path)
    requires Holds(nodes, list) && p in nodes
    ensures AreParts(p)
  {
    if p != [] {
      var i :| 0 <= i < |list| && IsPrefix(p, PathOf(list[i]));
      DomainPathParts(list[i].name);
    }
  }

  class Tree {
    var nodes: Nodes

    constructor ()
      ensures Holds(nodes, [])
    {
      nodes := map[[] := Node("", "", [])];
    }

    /** The child of a node, made if it is missing. */
    method ChildOf(node: Path, part: string, path: string, ghost before: Nodes) returns (child: Path)
      requires WalkedTo(before, nodes, node)
      requires path == if Joined(node) == "" then part else Joined(node) + "." + part
      modifies this
      ensures child == node + [part] && path == Joined(child) && WalkedTo(before, nodes, child)
    {
      OneStepDown(before, nodes, node, part, path);
      child := node + [part];
      if child !in nodes {
        nodes := nodes[child := Node(part, path, [])];
      }
    }

    /** Goes down the names of a path, making the nodes that are missing. */
    method Walk(parts: Path) returns (node: Path)
      requires WalkedTo(nodes, nodes, [])
      modifies this
      ensures node == parts && WalkedTo(old(nodes), nodes, parts)
    {
      node := [];
      var path := "";
      var i := 0;
      while i < |parts|
        invariant 0 <= i <= |parts| && node == parts[..i] && path == Joined(node)
        invariant WalkedTo(old(nodes), nodes, node)
      {
        var part := parts[i];
        path := if path != "" then path + "." + part else part;
        node := ChildOf(node, part, path, old(nodes));
        assert parts[..i + 1] == parts[..i] + [part];
        i := i + 1;
      }
    }

    /** insertService: notes the service at the node of its path. */
    method InsertService(service: Service, ghost list: seq<Service>)
      requires Holds(nodes, list)
      modifies this
      ensures Holds(nodes, list + [service])
    {
      WalkStarts(nodes, list);
      var node := Walk(DomainPath(service.name));
      Inserted(old(nodes), nodes, list, service);
      nodes := nodes[node := nodes[node].(services := nodes[node].services + [service])];
    }

    /** The tree of a list, service by service. */
    method InsertAll(list: seq<Service>)
      requires Holds(nodes, [])
      modifies this
      ensures Holds(nodes, list)
    {
      var i := 0;
      ghost var done: seq<Service> := [];
      while i < |list|
        invariant 0 <= i <= |list| && done == list[..i]
        invariant Holds(nodes, done)
      {
        InsertService(list[i], done);
        done := done + [list[i]];
        i := i + 1;
      }
      assert done == list;
    }
  }
}
