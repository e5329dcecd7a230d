/** The rows of the service tree, and the stable sort they amount to. */
module ServiceRows {
  import opened ServicePath
  import opened ServiceTree

  datatype Row = BranchRow(path: Path, depth: nat) | ServiceRow(service: Service, depth: nat)

  /** Which branches are open, by full path and depth: what was clicked, or else the first two levels. */
  type Open = (string, nat) -> bool

  // ---------- Children in order ----------

  ghost function Children(nodes: Nodes, p: Path): set<string> {
    set q | q in nodes && |q| == |p| + 1 && IsPrefix(p, q) :: q[|p|]
  }

  lemma ChildrenAre(nodes: Nodes, p: Path, x: string)
    ensures x in Children(nodes, p) <==> p + [x] in nodes
  {
    if x in Children(nodes, p) {
      var q :| q in nodes && |q| == |p| + 1 && IsPrefix(p, q) && q[|p|] == x;
      assert q == p + [x];
    }
    if p + [x] in nodes {
      assert IsPrefix(p, p + [x]) && (p + [x])[|p|] == x;
    }
  }

  ghost predicate NamesInOrder(le: Order, names: seq<string>) {
    forall i, j | 0 <= i < j < |names| :: le(names[i], names[j]) && names[i] != names[j]
  }

  ghost predicate IsLeast(le: Order, m: string, names: set<string>) {
    m in names && forall x | x in names :: le(m, x)
  }

  lemma OneNameMore(le: Order, names: set<string>, y: string, m: string)
    requires TotalOrder(le) && IsLeast(le, m, names)
    ensures IsLeast(le, if le(m, y) then m else y, names + {y})
  {
  }

  lemma {:induction false} LeastName(le: Order, names: set<string>)
    requires TotalOrder(le) && names != {}
    ensures exists m :: IsLeast(le, m, names)
  {
    var y :| y in names;
    var rest := names - {y};
    assert names == rest + {y};
    if rest == {} {
      assert le(y, y) && IsLeast(le, y, names);
    } else {
      LeastName(le, rest);
      var m :| IsLeast(le, m, rest);
      OneNameMore(le, rest, y, m);
    }
  }

  /** The names of a set, smallest first. */
  ghost function Sorted(le: Order, names: set<string>): (s: seq<string>)
    requires TotalOrder(le)
    ensures NamesInOrder(le, s) && forall x :: x in s <==> x in names
  {
    if names == {} then []
    else
      LeastName(le, names);
      var m :| IsLeast(le, m, names);
      var rest := Sorted(le, names - {m});
      assert forall i | 0 <= i < |rest| :: rest[i] in names - {m};
      [m] + rest
  }

  // ---------- renderTree ----------

  ghost function Height(paths: set<Path>): (h: nat)
    ensures forall p | p in paths :: |p| <= h
  {
    if paths == {} then 0
    else
      var p :| p in paths;
      var h := Height(paths - {p});
      assert forall q | q in paths :: q == p || q in paths - {p};
      if |p| > h then |p| else h
  }

  function ServiceRowsOf(services: seq<Service>, depth: nat): seq<Row> {
    if services == [] then [] else [ServiceRow(services[0], depth)] + ServiceRowsOf(services[1..], depth)
  }

  predicate Opened(nodes: Nodes, open: Open, c: Path)
    requires c in nodes && c != []
  {
    open(nodes[c].fullPath, |c| - 1)
  }

  /** The rows of one child: a branch's services and children show only while it is open. */
  ghost function RenderChild(le: Order, open: Open, nodes: Nodes, c: Path): seq<Row>
    requires TotalOrder(le) && c in nodes && c != []
    decreases Height(nodes.Keys) - |c|, 1, 0
  {
    var services := ServiceRowsOf(nodes[c].services, |c| - 1);
    if Children(nodes, c) == {} then services
    else
      [BranchRow(c, |c| - 1)] +
      if Opened(nodes, open, c) then services + RenderTree(le, open, nodes, c) else []
  }

  /** The children of a node, in order of their names. */
  ghost function RenderTree(le: Order, open: Open, nodes: Nodes, p: Path): seq<Row>
    requires TotalOrder(le) && p in nodes
    decreases Height(nodes.Keys) - |p|, 0, |Sorted(le, Children(nodes, p))| + 1
  {
    var names := Sorted(le, Children(nodes, p));
    assert forall x | x in names :: p + [x] in nodes by {
      forall x | x in names ensures p + [x] in nodes { ChildrenAre(nodes, p, x); }
    }
    RenderEach(le, open, nodes, p, names)
  }

  ghost function RenderEach(le: Order, open: Open, nodes: Nodes, p: Path, names: seq<string>): seq<Row>
    requires TotalOrder(le) && p in nodes && forall x | x in names :: p + [x] in nodes
    decreases Height(nodes.Keys) - |p|, 0, |names|
  {
    if names == [] then []
    else
      assert p + [names[0]] in nodes.Keys;
      RenderChild(le, open, nodes, p + [names[0]]) + RenderEach(le, open, nodes, p, names[1..])
  }

  // ---------- The services among the rows ----------

  function Services(rows: seq<Row>): seq<Service> {
    if rows == [] then [] else (if rows[0].ServiceRow? then [rows[0].service] else []) + Services(rows[1..])
  }

  lemma ServicesCons(row: Row, rows: seq<Row>)
    ensures Services([row] + rows) == (if row.ServiceRow? then [row.service] else []) + Services(rows)
  {
  }

  lemma {:induction false} ServicesConcat(a: seq<Row>, b: seq<Row>)
    ensures Services(a + b) == Services(a) + Services(b)
  {
    if a == [] {
      assert a + b == b;
    } else {
      assert a + b == [a[0]] + (a[1..] + b);
      ServicesCons(a[0], a[1..] + b);
      ServicesConcat(a[1..], b);
    }
  }

  lemma {:induction false} ServicesOfRows(services: seq<Service>, depth: nat)
    ensures Services(ServiceRowsOf(services, depth)) == services
  {
    if services != [] {
      ServicesOfRows(services[1..], depth);
      ServicesConcat([ServiceRow(services[0], depth)], ServiceRowsOf(services[1..], depth));
      assert Services([ServiceRow(services[0], depth)]) == [services[0]] by {
        assert [ServiceRow(services[0], depth)][1..] == [];
      }
    }
  }

  // ---------- What each subtree shows ----------

  /** Every branch from c down to q is open, and so is q if it is a branch. */
  ghost predicate Visible(nodes: Nodes, open: Open, c: Path, q: Path) {
    && (forall k | |c| <= k < |q| && k > 0 :: q[..k] in nodes && Opened(nodes, open, q[..k]))
    && (q in nodes && q != [] && Children(nodes, q) != {} ==> Opened(nodes, open, q))
  }

  ghost function Want(nodes: Nodes, open: Open, c: Path, q: Path): seq<Service> {
    if IsPrefix(c, q) && q in nodes && Visible(nodes, open, c, q) then nodes[q].services else []
  }

  /** Prefixes of nodes are nodes, and services stand at the nodes of their paths. */
  ghost predicate WellFormed(nodes: Nodes) {
    && (forall q, k | q in nodes && 0 <= k <= |q| :: q[..k] in nodes)
    && (forall q, s | q in nodes && s in nodes[q].services :: PathOf(s) == q)
  }

  ghost predicate ChildRight(le: Order, open: Open, nodes: Nodes, c: Path, s: seq<Service>) {
    SortedByPath(le, s) && forall q :: At(s, q) == Want(nodes, open, c, q)
  }

  ghost function WantOf(nodes: Nodes, open: Open, p: Path, names: seq<string>, q: Path): seq<Service> {
    if |p| < |q| && IsPrefix(p, q) && q[|p|] in names then Want(nodes, open, p + [q[|p|]], q) else []
  }

  ghost predicate EachRight(le: Order, open: Open, nodes: Nodes, p: Path, names: seq<string>, s: seq<Service>) {
    SortedByPath(le, s) && forall q :: At(s, q) == WantOf(nodes, open, p, names, q)
  }

  lemma SortedConcat(le: Order, a: seq<Service>, b: seq<Service>)
    requires SortedByPath(le, a) && SortedByPath(le, b)
    requires forall x, y | x in a && y in b :: PathLe(le, PathOf(x), PathOf(y))
    ensures SortedByPath(le, a + b)
  {
  }

  lemma {:induction false} MemberAt(s: seq<Service>, x: Service)
    requires x in s
    ensures At(s, PathOf(x)) != []
  {
    AtMembers(s, PathOf(x));
    var i :| 0 <= i < |s| && s[i] == x;
    assert PathOf(s[i]) == PathOf(x);
  }

  /** Paths that part at a node are in the order of the names they part with. */
  lemma PartingPaths(le: Order, p: Path, x: string, y: string, a: Path, b: Path)
    requires le(x, y) && x != y && IsPrefix(p + [x], a) && IsPrefix(p + [y], b)
    ensures PathLe(le, a, b)
  {
    assert a == p + a[|p|..] && b == p + b[|p|..];
    assert a[|p|] == (p + [x])[|p|] == x && b[|p|] == (p + [y])[|p|] == y;
    PathLeBelow(le, p, a[|p|..], b[|p|..]);
  }

  lemma {:induction false} PrefixFirst(le: Order, p: Path, q: Path)
    requires IsPrefix(p, q)
    ensures PathLe(le, p, q)
  {
    if p != [] {
      assert IsPrefix(p[1..], q[1..]);
      PrefixFirst(le, p[1..], q[1..]);
    }
  }

  lemma EachStepAt(open: Open, nodes: Nodes, p: Path, names: seq<string>, q: Path)
    requires names != [] && names[0] !in names[1..]
    ensures WantOf(nodes, open, p, names, q)
         == Want(nodes, open, p + [names[0]], q) + WantOf(nodes, open, p, names[1..], q)
  {
  }

  lemma EachStep(le: Order, open: Open, nodes: Nodes, p: Path, names: seq<string>,
                 first: seq<Service>, rest: seq<Service>)
    requires TotalOrder(le) && names != [] && NamesInOrder(le, names)
    requires ChildRight(le, open, nodes, p + [names[0]], first) && EachRight(le, open, nodes, p, names[1..], rest)
    ensures EachRight(le, open, nodes, p, names, first + rest)
  {
    forall q ensures At(first + rest, q) == WantOf(nodes, open, p, names, q) {
      AtConcat(first, rest, q);
      EachStepAt(open, nodes, p, names, q);
    }
    forall x, y | x in first && y in rest ensures PathLe(le, PathOf(x), PathOf(y)) {
      MemberAt(first, x);
      MemberAt(rest, y);
      var name := PathOf(y)[|p|];
      var i :| 0 <= i < |names| - 1 && names[1..][i] == name;
      assert names[i + 1] == name;
      assert p + [name] == PathOf(y)[..|p| + 1];
      PartingPaths(le, p, names[0], name, PathOf(x), PathOf(y));
    }
    SortedConcat(le, first, rest);
  }

  // ---------- By induction on the depth of the subtree ----------

  lemma WantAtLeaf(nodes: Nodes, open: Open, c: Path, q: Path)
    requires WellFormed(nodes) && c in nodes && c != [] && Children(nodes, c) == {}
    ensures Want(nodes, open, c, q) == if q == c then nodes[c].services else []
  {
    if IsPrefix(c, q) && q in nodes && q != c {
      assert q[..|c| + 1] == c + [q[|c|]] && q[..|c| + 1] in nodes;
      ChildrenAre(nodes, c, q[|c|]);
      assert false;
    }
  }

  lemma AtNode(nodes: Nodes, c: Path, q: Path)
    requires WellFormed(nodes) && c in nodes
    ensures At(nodes[c].services, q) == if q == c then nodes[c].services else []
  {
    AllAt(nodes[c].services, c, q);
  }

  lemma {:induction false} AllAt(s: seq<Service>, c: Path, q: Path)
    requires forall x | x in s :: PathOf(x) == c
    ensures At(s, q) == if q == c then s else []
  {
    if s != [] {
      AllAt(s[1..], c, q);
      assert s == [s[0]] + s[1..];
    }
  }

  lemma SamePathSorted(le: Order, s: seq<Service>, c: Path)
    requires TotalOrder(le) && forall x | x in s :: PathOf(x) == c
    ensures SortedByPath(le, s)
  {
    PathLeTotal(le, c, c);
    assert forall i | 0 <= i < |s| :: s[i] in s;
  }

  lemma WantAtClosed(nodes: Nodes, open: Open, c: Path, q: Path)
    requires c in nodes && c != [] && Children(nodes, c) != {} && !Opened(nodes, open, c)
    ensures Want(nodes, open, c, q) == []
  {
    if IsPrefix(c, q) && q in nodes && q != c {
      assert q[..|c|] == c;
    }
  }

  lemma VisibleBelow(nodes: Nodes, open: Open, c: Path, q: Path)
    requires c in nodes && c != [] && Opened(nodes, open, c) && IsPrefix(c, q) && |c| < |q|
    ensures Visible(nodes, open, c, q) <==> Visible(nodes, open, c + [q[|c|]], q)
  {
    assert q[..|c|] == c;
  }

  lemma WantBelow(nodes: Nodes, open: Open, c: Path, q: Path)
    requires WellFormed(nodes) && c in nodes && c != [] && Opened(nodes, open, c) && IsPrefix(c, q) && |c| < |q|
    ensures Want(nodes, open, c, q) == Want(nodes, open, c + [q[|c|]], q)
    ensures q[|c|] !in Children(nodes, c) ==> Want(nodes, open, c, q) == []
  {
    var x := q[|c|];
    VisibleBelow(nodes, open, c, q);
    ChildrenAre(nodes, c, x);
    assert q[..|c| + 1] == c + [x];
    assert IsPrefix(c + [x], q);
  }

  lemma WantAtOpen(nodes: Nodes, open: Open, c: Path, names: seq<string>, q: Path)
    requires WellFormed(nodes) && c in nodes && c != [] && Opened(nodes, open, c)
    requires forall x :: x in names <==> x in Children(nodes, c)
    ensures Want(nodes, open, c, q) == At(nodes[c].services, q) + WantOf(nodes, open, c, names, q)
  {
    AtNode(nodes, c, q);
    if IsPrefix(c, q) && |c| < |q| {
      WantBelow(nodes, open, c, q);
    } else if IsPrefix(c, q) {
      assert q == c && Visible(nodes, open, c, c);
    }
  }

  lemma OpenRight(le: Order, open: Open, nodes: Nodes, c: Path, names: seq<string>, below: seq<Service>)
    requires TotalOrder(le) && WellFormed(nodes) && c in nodes && c != [] && Opened(nodes, open, c)
    requires forall x :: x in names <==> x in Children(nodes, c)
    requires EachRight(le, open, nodes, c, names, below)
    ensures ChildRight(le, open, nodes, c, nodes[c].services + below)
  {
    forall q ensures At(nodes[c].services + below, q) == Want(nodes, open, c, q) {
      AtConcat(nodes[c].services, below, q);
      WantAtOpen(nodes, open, c, names, q);
    }
    SamePathSorted(le, nodes[c].services, c);
    forall x, y | x in nodes[c].services && y in below ensures PathLe(le, PathOf(x), PathOf(y)) {
      MemberAt(below, y);
      PrefixFirst(le, c, PathOf(y));
    }
    SortedConcat(le, nodes[c].services, below);
  }

  lemma LeafRight(le: Order, open: Open, nodes: Nodes, c: Path)
    requires TotalOrder(le) && WellFormed(nodes) && c in nodes && c != [] && Children(nodes, c) == {}
    ensures ChildRight(le, open, nodes, c, nodes[c].services)
  {
    SamePathSorted(le, nodes[c].services, c);
    forall q ensures At(nodes[c].services, q) == Want(nodes, open, c, q) {
      AtNode(nodes, c, q);
      WantAtLeaf(nodes, open, c, q);
    }
  }

  lemma ClosedRight(le: Order, open: Open, nodes: Nodes, c: Path)
    requires c in nodes && c != [] && Children(nodes, c) != {} && !Opened(nodes, open, c)
    ensures ChildRight(le, open, nodes, c, [])
  {
    forall q ensures At([], q) == Want(nodes, open, c, q) {
      WantAtClosed(nodes, open, c, q);
    }
  }

  lemma ServicesOfBranch(c: Path, depth: nat, services: seq<Service>, below: seq<Row>)
    ensures Services([BranchRow(c, depth)] + (ServiceRowsOf(services, depth) + below)) == services + Services(below)
    ensures Services([BranchRow(c, depth)] + []) == []
  {
    var branch := [BranchRow(c, depth)];
    assert Services(branch) == [] by { assert branch[1..] == []; }
    ServicesConcat(branch, []);
    ServicesConcat(branch, ServiceRowsOf(services, depth) + below);
    ServicesConcat(ServiceRowsOf(services, depth), below);
    ServicesOfRows(services, depth);
  }

  /** What a child's rows are, by case. */
  lemma ChildRows(le: Order, open: Open, nodes: Nodes, c: Path)
    requires TotalOrder(le) && c in nodes && c != []
    ensures var rows, services := RenderChild(le, open, nodes, c), ServiceRowsOf(nodes[c].services, |c| - 1);
      if Children(nodes, c) == {} then rows == services
      else if Opened(nodes, open, c) then rows == [BranchRow(c, |c| - 1)] + (services + RenderTree(le, open, nodes, c))
      else rows == [BranchRow(c, |c| - 1)] + []
  {
  }

  lemma ChildStep(le: Order, open: Open, nodes: Nodes, c: Path, below: seq<Row>)
    requires TotalOrder(le) && WellFormed(nodes) && c in nodes && c != []
    requires EachRight(le, open, nodes, c, Sorted(le, Children(nodes, c)), Services(below))
    ensures var services := ServiceRowsOf(nodes[c].services, |c| - 1);
      var rows := if Children(nodes, c) == {} then services
        else if Opened(nodes, open, c) then [BranchRow(c, |c| - 1)] + (services + below)
        else [BranchRow(c, |c| - 1)] + [];
      ChildRight(le, open, nodes, c, Services(rows))
  {
    ServicesOfBranch(c, |c| - 1, nodes[c].services, below);
    ServicesOfRows(nodes[c].services, |c| - 1);
    if Children(nodes, c) == {} {
      LeafRight(le, open, nodes, c);
    } else if Opened(nodes, open, c) {
      OpenRight(le, open, nodes, c, Sorted(le, Children(nodes, c)), Services(below));
    } else {
      ClosedRight(le, open, nodes, c);
    }
  }

  lemma {:induction false} ChildShows(le: Order, open: Open, nodes: Nodes, c: Path)
    requires TotalOrder(le) && WellFormed(nodes) && c in nodes && c != []
    ensures ChildRight(le, open, nodes, c, Services(RenderChild(le, open, nodes, c)))
    decreases Height(nodes.Keys) - |c|, 1, 0
  {
    TreeShows(le, open, nodes, c);
    ChildStep(le, open, nodes, c, RenderTree(le, open, nodes, c));
    ChildRows(le, open, nodes, c);
  }

  lemma {:induction false} TreeShows(le: Order, open: Open, nodes: Nodes, p: Path)
    requires TotalOrder(le) && WellFormed(nodes) && p in nodes
    ensures EachRight(le, open, nodes, p, Sorted(le, Children(nodes, p)), Services(RenderTree(le, open, nodes, p)))
    decreases Height(nodes.Keys) - |p|, 0, |Sorted(le, Children(nodes, p))| + 1
  {
    var names := Sorted(le, Children(nodes, p));
    forall x | x in names ensures p + [x] in nodes {
      ChildrenAre(nodes, p, x);
    }
    EachShows(le, open, nodes, p, names);
  }

  lemma {:induction false} EachShows(le: Order, open: Open, nodes: Nodes, p: Path, names: seq<string>)
    requires TotalOrder(le) && WellFormed(nodes) && p in nodes && NamesInOrder(le, names)
    requires forall x | x in names :: p + [x] in nodes
    ensures EachRight(le, open, nodes, p, names, Services(RenderEach(le, open, nodes, p, names)))
    decreases Height(nodes.Keys) - |p|, 0, |names|
  {
    if names != [] {
      assert p + [names[0]] in nodes.Keys;
      var first, rest := RenderChild(le, open, nodes, p + [names[0]]), RenderEach(le, open, nodes, p, names[1..]);
      ChildShows(le, open, nodes, p + [names[0]]);
      EachShows(le, open, nodes, p, names[1..]);
      ServicesConcat(first, rest);
      EachStep(le, open, nodes, p, names, Services(first), Services(rest));
    }
  }

  // ---------- The rows are a stable sort ----------

  /** Whether the tree shows the services at a path. */
  ghost predicate Shown(nodes: Nodes, open: Open, q: Path) {
    q != [] && Visible(nodes, open, [q[0]], q)
  }

  ghost function ShownOf(list: seq<Service>, nodes: Nodes, open: Open): seq<Service> {
    if list == [] then []
    else (if Shown(nodes, open, PathOf(list[0])) then [list[0]] else []) + ShownOf(list[1..], nodes, open)
  }

  lemma {:induction false} ShownAt(list: seq<Service>, nodes: Nodes, open: Open, q: Path)
    ensures At(ShownOf(list, nodes, open), q) == if Shown(nodes, open, q) then At(list, q) else []
  {
    if list != [] {
      var rest := ShownOf(list[1..], nodes, open);
      ShownAt(list[1..], nodes, open, q);
      assert [] + rest == rest && [] + At(list[1..], q) == At(list[1..], q);
      if Shown(nodes, open, PathOf(list[0])) {
        AtCons(list[0], rest, q);
      }
    }
  }

  lemma {:induction false} AtHasPath(list: seq<Service>, q: Path, s: Service)
    requires s in At(list, q)
    ensures PathOf(s) == q
  {
    if PathOf(list[0]) != q || s != list[0] {
      AtHasPath(list[1..], q, s);
    }
  }

  lemma HoldsWellFormed(nodes: Nodes, list: seq<Service>)
    requires Holds(nodes, list)
    ensures WellFormed(nodes)
  {
    forall q, k | q in nodes && 0 <= k <= |q| ensures q[..k] in nodes {
      if q != [] {
        var i :| 0 <= i < |list| && IsPrefix(q, PathOf(list[i]));
        assert IsPrefix(q[..k], PathOf(list[i]));
      }
    }
    forall q, s | q in nodes && s in nodes[q].services ensures PathOf(s) == q {
      AtHasPath(list, q, s);
    }
  }

  lemma RootShows(nodes: Nodes, list: seq<Service>, open: Open, names: seq<string>, q: Path)
    requires Holds(nodes, list) && forall x :: x in names <==> x in Children(nodes, [])
    ensures WantOf(nodes, open, [], names, q) == if Shown(nodes, open, q) then At(list, q) else []
  {
    HoldsWellFormed(nodes, list);
    if q != [] {
      assert [] + [q[0]] == [q[0]] && q[..1] == [q[0]];
      assert IsPrefix([q[0]], q) && IsPrefix([], q);
      ChildrenAre(nodes, [], q[0]);
      if q !in nodes {
        NothingThere(list, q);
      }
    }
  }

  /**
    The service rows of the rendered tree are the shown services, each exactly once, stably
    sorted by path with prefixes first, whichever branches are open.
   */
  lemma RowsAreStableSort(le: Order, open: Open, nodes: Nodes, list: seq<Service>)
    requires TotalOrder(le) && Holds(nodes, list)
    ensures Services(RenderTree(le, open, nodes, [])) == StableSort(le, ShownOf(list, nodes, open))
  {
    HoldsWellFormed(nodes, list);
    TreeShows(le, open, nodes, []);
    var s, shown := Services(RenderTree(le, open, nodes, [])), ShownOf(list, nodes, open);
    forall q ensures At(s, q) == At(StableSort(le, shown), q) {
      StableSortMeans(le, shown, q);
      ShownAt(list, nodes, open, q);
      RootShows(nodes, list, open, Sorted(le, Children(nodes, [])), q);
    }
    StableSortMeans(le, shown, []);
    SortedUnique(le, s, StableSort(le, shown));
  }

  /** The services whose names have a path. */
  function WithPath(list: seq<Service>): seq<Service> {
    if list == [] then [] else (if PathOf(list[0]) != [] then [list[0]] else []) + WithPath(list[1..])
  }

  ghost predicate AllOpen(open: Open) {
    forall path, depth :: open(path, depth)
  }

  lemma ShownWhenOpen(nodes: Nodes, open: Open, q: Path)
    requires AllOpen(open) && WellFormed(nodes) && q in nodes
    ensures Shown(nodes, open, q) <==> q != []
  {
  }

  lemma HasNode(nodes: Nodes, list: seq<Service>, s: Service)
    requires Holds(nodes, list) && s in list
    ensures PathOf(s) in nodes
  {
  }

  lemma {:induction false} ShownAreWithPath(list: seq<Service>, nodes: Nodes, open: Open)
    requires forall s | s in list :: Shown(nodes, open, PathOf(s)) <==> PathOf(s) != []
    ensures ShownOf(list, nodes, open) == WithPath(list)
  {
    if list != [] {
      assert list[0] in list;
      ShownAreWithPath(list[1..], nodes, open);
    }
  }

  /** The fully expanded tree is the stable sort of the services that have a path. */
  lemma ExpandedTreeIsStableSort(le: Order, open: Open, nodes: Nodes, list: seq<Service>)
    requires TotalOrder(le) && AllOpen(open) && Holds(nodes, list)
    ensures Services(RenderTree(le, open, nodes, [])) == StableSort(le, WithPath(list))
  {
    RowsAreStableSort(le, open, nodes, list);
    HoldsWellFormed(nodes, list);
    forall s | s in list ensures Shown(nodes, open, PathOf(s)) <==> PathOf(s) != [] {
      HasNode(nodes, list, s);
      ShownWhenOpen(nodes, open, PathOf(s));
    }
    ShownAreWithPath(list, nodes, open);
  }

  // ---------- What is open at first ----------

  /** What was clicked, or else the first two levels. */
  function OpenBy(clicked: map<string, bool>): Open {
    (path: string, depth: nat) => if path in clicked then clicked[path] else depth < 2
  }

  lemma HasBelow(nodes: Nodes, q: Path)
    requires WellFormed(nodes) && q in nodes
    ensures Children(nodes, q) != {} <==> exists p :: p in nodes && IsPrefix(q, p) && p != q
  {
    if Children(nodes, q) != {} {
      var x :| x in Children(nodes, q);
      ChildrenAre(nodes, q, x);
      assert IsPrefix(q, q + [x]);
    }
    if p :| p in nodes && IsPrefix(q, p) && p != q {
      assert p[..|q| + 1] == q + [p[|q|]] && p[..|q| + 1] in nodes;
      ChildrenAre(nodes, q, p[|q|]);
    }
  }

  lemma OpenedAtFirst(nodes: Nodes, q: Path)
    requires q in nodes && q != []
    ensures Opened(nodes, OpenBy(map[]), q) <==> |q| <= 2
  {
  }

  lemma AboveAtFirst(nodes: Nodes, q: Path)
    requires WellFormed(nodes) && q in nodes
    ensures (forall k | 1 <= k < |q| && k > 0 :: q[..k] in nodes && Opened(nodes, OpenBy(map[]), q[..k])) <==> |q| <= 3
  {
    forall k | 1 <= k < |q| && k > 0
      ensures q[..k] in nodes && (Opened(nodes, OpenBy(map[]), q[..k]) <==> k <= 2)
    {
      OpenedAtFirst(nodes, q[..k]);
    }
    if |q| > 3 {
      assert !Opened(nodes, OpenBy(map[]), q[..3]);
    }
  }

  lemma VisibleAtFirst(nodes: Nodes, q: Path)
    requires WellFormed(nodes) && q in nodes && q != []
    ensures Visible(nodes, OpenBy(map[]), [q[0]], q) <==> |q| <= 3 && (Children(nodes, q) != {} ==> |q| <= 2)
  {
    AboveAtFirst(nodes, q);
    OpenedAtFirst(nodes, q);
  }

  /**
    As long as nothing was clicked, services show down to the second level, and on the third
    where there is nothing below.
   */
  lemma ShownAtFirst(nodes: Nodes, list: seq<Service>, q: Path)
    requires Holds(nodes, list) && q in nodes
    ensures Shown(nodes, OpenBy(map[]), q) <==>
      q != [] && (|q| <= 2 || (|q| == 3 && !exists p :: p in nodes && IsPrefix(q, p) && p != q))
  {
    HoldsWellFormed(nodes, list);
    HasBelow(nodes, q);
    if q != [] {
      VisibleAtFirst(nodes, q);
    }
  }

  /** A click on a branch decides about it and no other branch. */
  lemma ClickOpens(nodes: Nodes, list: seq<Service>, clicked: map<string, bool>, c: Path, q: Path, value: bool)
    requires Holds(nodes, list) && c in nodes && q in nodes && c != [] && q != []
    ensures Opened(nodes, OpenBy(clicked[nodes[c].fullPath := value]), q)
         == if q == c then value else Opened(nodes, OpenBy(clicked), q)
  {
    if q != c && nodes[q].fullPath == nodes[c].fullPath {
      FullPathsDiffer(nodes, list, c, q);
    }
  }
}
