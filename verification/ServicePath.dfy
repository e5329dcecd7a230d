/** Dotted service names as paths, the order of paths, and stable sorting by path. */
module ServicePath {

  datatype Service = Service(name: string, status: string)

  type Path = seq<string>

  // ---------- serviceDomainPath ----------

  predicate IsSeparator(c: char) {
    c == '.' || c == '/'
  }

  /** Splits at every separator. */
  function Split(s: string): (parts: seq<string>)
    ensures parts != []
  {
    if s == "" then [""]
    else
      var rest := Split(s[1..]);
      if IsSeparator(s[0]) then [""] + rest else [[s[0]] + rest[0]] + rest[1..]
  }

  function NonEmpty(parts: seq<string>): seq<string> {
    if parts == [] then [] else (if parts[0] == "" then [] else [parts[0]]) + NonEmpty(parts[1..])
  }

  function DomainPath(name: string): Path {
    NonEmpty(Split(name))
  }

  function PathOf(s: Service): Path {
    DomainPath(s.name)
  }

  /** A name that can stand in a path: not empty and without separators. */
  predicate IsPart(w: string) {
    w != "" && forall i | 0 <= i < |w| :: !IsSeparator(w[i])
  }

  ghost predicate AreParts(p: Path) {
    forall i | 0 <= i < |p| :: IsPart(p[i])
  }

  lemma {:induction false} SplitSeparates(a: string, b: string, c: char)
    requires IsSeparator(c)
    ensures Split(a + [c] + b) == Split(a) + Split(b)
  {
    if a == "" {
      assert ([c] + b)[1..] == b;
      assert a + [c] + b == [c] + b;
    } else {
      assert (a + [c] + b)[1..] == a[1..] + [c] + b;
      SplitSeparates(a[1..], b, c);
    }
  }

  lemma {:induction false} NonEmptyConcat(a: seq<string>, b: seq<string>)
    ensures NonEmpty(a + b) == NonEmpty(a) + NonEmpty(b)
  {
    if a == [] {
      assert a + b == b;
    } else {
      assert (a + b)[1..] == a[1..] + b;
      NonEmptyConcat(a[1..], b);
    }
  }

  lemma {:induction false} SplitWord(w: string)
    requires forall i | 0 <= i < |w| :: !IsSeparator(w[i])
    ensures Split(w) == [w]
  {
    if w != "" {
      SplitWord(w[1..]);
      assert [w[0]] + w[1..] == w;
    }
  }

  /**
    What a path is: dots and slashes separate, what is empty between them does not count, and
    a name without them stands for itself.
   */
  lemma DomainPathIs(a: string, b: string, name: string)
    ensures DomainPath(a + "." + b) == DomainPath(a) + DomainPath(b)
    ensures DomainPath(a + "/" + b) == DomainPath(a) + DomainPath(b)
    ensures '.' !in name && '/' !in name ==> DomainPath(name) == if name == "" then [] else [name]
  {
    SplitSeparates(a, b, '.');
    SplitSeparates(a, b, '/');
    NonEmptyConcat(Split(a), Split(b));
    if '.' !in name && '/' !in name {
      SplitWord(name);
      assert [name][1..] == [] && NonEmpty([name]) == (if name == "" then [] else [name]) + NonEmpty([]);
    }
  }

  /** A node's full path: its names joined by dots, built up as the walk goes down. */
  function Joined(p: Path): string {
    if p == [] then ""
    else
      var front := Joined(p[..|p| - 1]);
      if front == "" then p[|p| - 1] else front + "." + p[|p| - 1]
  }

  /** The full path of a node splits back into the node's path, so different nodes have different full paths. */
  lemma {:induction false} JoinedSplitsBack(p: Path)
    requires AreParts(p)
    ensures DomainPath(Joined(p)) == p
  {
    if p != [] {
      var front, last := p[..|p| - 1], p[|p| - 1];
      JoinedSplitsBack(front);
      SplitWord(last);
      assert NonEmpty([last]) == [last] by { assert [last][1..] == []; }
      if Joined(front) == "" {
        assert front == [];
      } else {
        SplitSeparates(Joined(front), last, '.');
        NonEmptyConcat(Split(Joined(front)), Split(last));
      }
      assert p == front + [last];
    }
  }

  lemma {:induction false} SplitParts(s: string)
    ensures forall i, j | 0 <= i < |Split(s)| && 0 <= j < |Split(s)[i]| :: !IsSeparator(Split(s)[i][j])
  {
    if s != "" {
      SplitParts(s[1..]);
    }
  }

  lemma {:induction false} NonEmptyMembers(parts: seq<string>, i: nat)
    requires i < |NonEmpty(parts)|
    ensures NonEmpty(parts)[i] != "" && NonEmpty(parts)[i] in parts
  {
    if parts[0] == "" {
      NonEmptyMembers(parts[1..], i);
    } else if i > 0 {
      NonEmptyMembers(parts[1..], i - 1);
    }
  }

  /** The names on a service's path are never empty and hold no separator. */
  lemma DomainPathParts(name: string)
    ensures AreParts(DomainPath(name))
  {
    SplitParts(name);
    forall i | 0 <= i < |DomainPath(name)| ensures IsPart(DomainPath(name)[i]) {
      NonEmptyMembers(Split(name), i);
    }
  }

  // ---------- The order of paths ----------

  type Order = (string, string) -> bool

  ghost predicate TotalOrder(le: Order) {
    && (forall a, b :: le(a, b) || le(b, a))
    && (forall a, b | le(a, b) && le(b, a) :: a == b)
    && (forall a, b, c | le(a, b) && le(b, c) :: le(a, c))
  }

  /** Name by name, a prefix before what it is a prefix of. */
  predicate PathLe(le: Order, p: Path, q: Path) {
    p == [] || (q != [] && if p[0] == q[0] then PathLe(le, p[1..], q[1..]) else le(p[0], q[0]))
  }

  lemma {:induction false} PathLeTotal(le: Order, p: Path, q: Path)
    requires TotalOrder(le)
    ensures PathLe(le, p, q) || PathLe(le, q, p)
    ensures PathLe(le, p, q) && PathLe(le, q, p) ==> p == q
  {
    if p != [] && q != [] && p[0] == q[0] {
      PathLeTotal(le, p[1..], q[1..]);
      assert p == [p[0]] + p[1..] && q == [q[0]] + q[1..];
    }
  }

  lemma {:induction false} PathLeTransitive(le: Order, p: Path, q: Path, r: Path)
    requires TotalOrder(le) && PathLe(le, p, q) && PathLe(le, q, r)
    ensures PathLe(le, p, r)
  {
    if p != [] && p[0] == q[0] == r[0] {
      PathLeTransitive(le, p[1..], q[1..], r[1..]);
    }
  }

  /** Below one node the order of paths is the order of what follows the node's path. */
  lemma {:induction false} PathLeBelow(le: Order, p: Path, a: Path, b: Path)
    ensures PathLe(le, p + a, p + b) <==> PathLe(le, a, b)
  {
    if p == [] {
      assert p + a == a && p + b == b;
    } else {
      assert (p + a)[1..] == p[1..] + a && (p + b)[1..] == p[1..] + b;
      PathLeBelow(le, p[1..], a, b);
    }
  }

  // ---------- Stable sorting by path ----------

  /** The services at one path, in order. */
  function At(s: seq<Service>, q: Path): seq<Service> {
    if s == [] then [] else (if PathOf(s[0]) == q then [s[0]] else []) + At(s[1..], q)
  }

  lemma AtCons(x: Service, s: seq<Service>, q: Path)
    ensures At([x] + s, q) == (if PathOf(x) == q then [x] else []) + At(s, q)
  {
  }

  lemma {:induction false} AtConcat(a: seq<Service>, b: seq<Service>, q: Path)
    ensures At(a + b, q) == At(a, q) + At(b, q)
  {
    if a == [] {
      assert a + b == b;
    } else {
      assert (a + b)[1..] == a[1..] + b;
      AtConcat(a[1..], b, q);
    }
  }

  ghost predicate SortedByPath(le: Order, s: seq<Service>) {
    forall i, j | 0 <= i < j < |s| :: PathLe(le, PathOf(s[i]), PathOf(s[j]))
  }

  function InsertSorted(le: Order, x: Service, s: seq<Service>): seq<Service> {
    if s == [] || PathLe(le, PathOf(x), PathOf(s[0])) then [x] + s else [s[0]] + InsertSorted(le, x, s[1..])
  }

  /** Insertion sort: the plain reference that the tree's row order is compared with. */
  function StableSort(le: Order, s: seq<Service>): seq<Service> {
    if s == [] then [] else InsertSorted(le, s[0], StableSort(le, s[1..]))
  }

  lemma {:induction false} InsertedAt(le: Order, x: Service, s: seq<Service>, q: Path)
    requires TotalOrder(le)
    ensures At(InsertSorted(le, x, s), q) == (if PathOf(x) == q then [x] else []) + At(s, q)
  {
    if s == [] || PathLe(le, PathOf(x), PathOf(s[0])) {
      AtCons(x, s, q);
    } else {
      var rest := InsertSorted(le, x, s[1..]);
      PathLeTotal(le, PathOf(x), PathOf(x));
      assert PathOf(x) != PathOf(s[0]);
      InsertedAt(le, x, s[1..], q);
      AtCons(s[0], rest, q);
    }
  }

  lemma {:induction false} InsertedMembers(le: Order, x: Service, s: seq<Service>, y: Service)
    ensures y in InsertSorted(le, x, s) <==> y == x || y in s
  {
    if s != [] {
      var rest := InsertSorted(le, x, s[1..]);
      InsertedMembers(le, x, s[1..], y);
      assert y in s <==> y == s[0] || y in s[1..];
      assert y in [s[0]] + rest <==> y == s[0] || y in rest;
    }
  }

  lemma SortedCons(le: Order, x: Service, s: seq<Service>)
    requires SortedByPath(le, s) && forall y | y in s :: PathLe(le, PathOf(x), PathOf(y))
    ensures SortedByPath(le, [x] + s)
  {
  }

  lemma {:induction false} InsertedSorted(le: Order, x: Service, s: seq<Service>)
    requires TotalOrder(le) && SortedByPath(le, s)
    ensures SortedByPath(le, InsertSorted(le, x, s))
  {
    if s == [] {
    } else if PathLe(le, PathOf(x), PathOf(s[0])) {
      forall y | y in s ensures PathLe(le, PathOf(x), PathOf(y)) {
        var i :| 0 <= i < |s| && s[i] == y;
        if i > 0 {
          PathLeTransitive(le, PathOf(x), PathOf(s[0]), PathOf(s[i]));
        }
      }
      SortedCons(le, x, s);
    } else {
      InsertedSorted(le, x, s[1..]);
      PathLeTotal(le, PathOf(x), PathOf(s[0]));
      forall y | y in InsertSorted(le, x, s[1..]) ensures PathLe(le, PathOf(s[0]), PathOf(y)) {
        InsertedMembers(le, x, s[1..], y);
      }
      SortedCons(le, s[0], InsertSorted(le, x, s[1..]));
    }
  }

  /** The reference is sorted by path and keeps the order of services at each path. */
  lemma {:induction false} StableSortMeans(le: Order, s: seq<Service>, q: Path)
    requires TotalOrder(le)
    ensures SortedByPath(le, StableSort(le, s)) && At(StableSort(le, s), q) == At(s, q)
  {
    if s != [] {
      StableSortMeans(le, s[1..], q);
      InsertedSorted(le, s[0], StableSort(le, s[1..]));
      InsertedAt(le, s[0], StableSort(le, s[1..]), q);
    }
  }

  lemma {:induction false} AtMembers(s: seq<Service>, q: Path)
    ensures At(s, q) != [] <==> exists i :: 0 <= i < |s| && PathOf(s[i]) == q
  {
    if s != [] {
      AtMembers(s[1..], q);
      if i :| 0 <= i < |s| && PathOf(s[i]) == q {
        assert i > 0 ==> s[1..][i - 1] == s[i];
      }
    }
  }

  lemma LeastFirst(le: Order, s: seq<Service>, t: seq<Service>)
    requires TotalOrder(le) && SortedByPath(le, s) && SortedByPath(le, t) && s != [] && t != []
    requires At(s, PathOf(s[0])) == At(t, PathOf(s[0]))
    ensures PathLe(le, PathOf(t[0]), PathOf(s[0]))
  {
    AtMembers(s, PathOf(s[0]));
    AtMembers(t, PathOf(s[0]));
    var i :| 0 <= i < |t| && PathOf(t[i]) == PathOf(s[0]);
    PathLeTotal(le, PathOf(t[0]), PathOf(t[0]));
  }

  /** Being sorted by path and the services at each path leave no choice. */
  lemma {:induction false} SortedUnique(le: Order, s: seq<Service>, t: seq<Service>)
    requires TotalOrder(le) && SortedByPath(le, s) && SortedByPath(le, t)
    requires forall q :: At(s, q) == At(t, q)
    ensures s == t
  {
    if s == [] || t == [] {
      if s != [] {
        AtMembers(s, PathOf(s[0]));
      }
      if t != [] {
        AtMembers(t, PathOf(t[0]));
      }
    } else {
      LeastFirst(le, s, t);
      LeastFirst(le, t, s);
      PathLeTotal(le, PathOf(s[0]), PathOf(t[0]));
      var q := PathOf(s[0]);
      assert At(s, q)[0] == s[0] && At(t, q)[0] == t[0];
      forall q ensures At(s[1..], q) == At(t[1..], q) {
        assert At(s, q) == At(t, q);
        var head := if PathOf(s[0]) == q then [s[0]] else [];
        assert At(s[1..], q) == At(s, q)[|head|..] && At(t[1..], q) == At(t, q)[|head|..];
      }
      SortedUnique(le, s[1..], t[1..]);
      assert s == [s[0]] + s[1..] && t == [t[0]] + t[1..];
    }
  }
}
