/**
 * The tree of the Java model classes below a root type: one node per model class that
 * is a subtype of the root (plus a node for the root type itself if no model class has
 * exactly that type), sorted by name, each node's parent being the most specific proper
 * supertype among the other nodes.
 *
 * Java classes are values of the type parameter `C`; `isAssignableFrom(a, b)` stands for
 * `a.isAssignableFrom(b)`, that is, `b` is `a` or a subtype of `a`.
 */
module TypeContainer {
  import opened Wrappers

  /** A model class of the database schema: its Java type, name and storage ID. */
  datatype JClass<C> = JClass(javaType: C, name: string, storageId: int)

  /** A node of the tree: made from a model class, or from a bare Java type (the root) with its simple name. */
  datatype Node<C> = ClassNode(jclass: JClass<C>) | TypeNode(javaType: C, simpleName: string) {
    /** `getType()`: the model class's Java type, or the bare Java type. */
    function Type(): (t: C)
      ensures t == (if ClassNode? then jclass.javaType else javaType)
    {
      if ClassNode? then jclass.javaType else javaType
    }
    /** `propertyName()`: the model class's name, or the Java type's simple name. */
    function PropertyName(): (name: string)
      ensures name == (if ClassNode? then jclass.name else simpleName)
    {
      if ClassNode? then jclass.name else simpleName
    }
  }

  const UnsupportedOperation: string := "UnsupportedOperationException"

  // ---------------------------------------------------------------------------------------
  // Ordering by name

  /** `a.compareTo(b) <= 0` for strings: lexicographic order on characters. */
  predicate StrLe(a: string, b: string) {
    if a == [] then true
    else if b == [] then false
    else if a[0] != b[0] then a[0] < b[0]
    else StrLe(a[1..], b[1..])
  }

  lemma {:induction false} StrLeTotal(a: string, b: string)
    ensures StrLe(a, b) || StrLe(b, a)
  {
    if a != [] && b != [] && a[0] == b[0] {
      StrLeTotal(a[1..], b[1..]);
    }
  }

  lemma {:induction false} StrLeTransitive(a: string, b: string, c: string)
    requires StrLe(a, b) && StrLe(b, c)
    ensures StrLe(a, c)
  {
    if a != [] && a[0] == b[0] && b[0] == c[0] {
      StrLeTransitive(a[1..], b[1..], c[1..]);
    }
  }

  /** Every node's name is at most every later node's name. */
  ghost predicate SortedByName<C>(s: seq<Node<C>>) {
    forall i, j :: 0 <= i < j < |s| ==> StrLe(s[i].PropertyName(), s[j].PropertyName())
  }

  /** Inserts `x` after every node whose name is not greater than its own. */
  function Insert<C>(sorted: seq<Node<C>>, x: Node<C>): seq<Node<C>> {
    if sorted == [] then [x]
    else if !StrLe(sorted[0].PropertyName(), x.PropertyName()) then [x] + sorted
    else [sorted[0]] + Insert(sorted[1..], x)
  }

  /** `Collections.sort` by name: a stable sort, here by insertion. */
  function SortByName<C>(s: seq<Node<C>>): seq<Node<C>> {
    if s == [] then [] else Insert(SortByName(s[..|s| - 1]), s[|s| - 1])
  }

  lemma SortedCons<C>(x: Node<C>, s: seq<Node<C>>)
    ensures SortedByName([x] + s) <==> SortedByName(s) && forall y :: y in s ==> StrLe(x.PropertyName(), y.PropertyName())
  {
    var t := [x] + s;
    if SortedByName(t) {
      forall i, j | 0 <= i < j < |s| ensures StrLe(s[i].PropertyName(), s[j].PropertyName()) {
        assert s[i] == t[i + 1] && s[j] == t[j + 1];
      }
      forall y | y in s ensures StrLe(x.PropertyName(), y.PropertyName()) {
        var j :| 0 <= j < |s| && s[j] == y;
        assert t[j + 1] == y && t[0] == x;
      }
    }
    if SortedByName(s) && forall y :: y in s ==> StrLe(x.PropertyName(), y.PropertyName()) {
      forall i, j | 0 <= i < j < |t| ensures StrLe(t[i].PropertyName(), t[j].PropertyName()) {
        if i == 0 {
          assert t[j] == s[j - 1] && t[j] in s;
        } else {
          assert t[i] == s[i - 1] && t[j] == s[j - 1];
        }
      }
    }
  }

  lemma {:induction false} InsertSpec<C>(sorted: seq<Node<C>>, x: Node<C>)
    requires SortedByName(sorted)
    ensures SortedByName(Insert(sorted, x))
    ensures multiset(Insert(sorted, x)) == multiset(sorted) + multiset{x}
  {
    if sorted != [] {
      var h, t := sorted[0], sorted[1..];
      assert sorted == [h] + t;
      SortedCons(h, t);
      if !StrLe(h.PropertyName(), x.PropertyName()) {
        StrLeTotal(h.PropertyName(), x.PropertyName());
        forall y | y in sorted ensures StrLe(x.PropertyName(), y.PropertyName()) {
          if y != h {
            StrLeTransitive(x.PropertyName(), h.PropertyName(), y.PropertyName());
          }
        }
        SortedCons(x, sorted);
      } else {
        InsertSpec(t, x);
        forall y | y in Insert(t, x) ensures StrLe(h.PropertyName(), y.PropertyName()) {
          assert y in multiset(Insert(t, x));
        }
        SortedCons(h, Insert(t, x));
      }
    }
  }

  /** Sorting by name gives a sorted permutation of the nodes. */
  lemma {:induction false} SortByNameSpec<C>(s: seq<Node<C>>)
    ensures SortedByName(SortByName(s))
    ensures multiset(SortByName(s)) == multiset(s)
  {
    if s != [] {
      var n := |s|;
      var init, last := s[..n - 1], s[n - 1];
      assert SortByName(s) == Insert(SortByName(init), last);
      SortByNameSpec(init);
      InsertSpec(SortByName(init), last);
      assert s == init + [last];
      assert multiset(s) == multiset(init) + multiset{last};
    }
  }

  // ---------------------------------------------------------------------------------------
  // The nodes, the parents, the children and the roots

  /** The nodes made from the model classes that are subtypes of the root type, in the order the classes are listed. */
  function ClassNodes<C>(jclasses: seq<JClass<C>>, rootType: C, isAssignableFrom: (C, C) -> bool): (r: seq<Node<C>>)
    ensures forall n :: n in r ==> n.ClassNode? && n.jclass in jclasses && isAssignableFrom(rootType, n.jclass.javaType)
    ensures forall j :: 0 <= j < |jclasses| && isAssignableFrom(rootType, jclasses[j].javaType) ==> ClassNode(jclasses[j]) in r
  {
    if jclasses == [] then []
    else
      var last := jclasses[|jclasses| - 1];
      ClassNodes(jclasses[..|jclasses| - 1], rootType, isAssignableFrom)
        + (if isAssignableFrom(rootType, last.javaType) then [ClassNode(last)] else [])
  }

  /** Whether some node made from the classes has exactly the root type. */
  predicate AddedRoot<C(==)>(jclasses: seq<JClass<C>>, rootType: C, isAssignableFrom: (C, C) -> bool) {
    exists j :: 0 <= j < |jclasses| && isAssignableFrom(rootType, jclasses[j].javaType) && jclasses[j].javaType == rootType
  }

  /** The nodes before sorting: the class nodes, and a node for the root type unless a class node has it. */
  function CollectNodes<C(==)>(jclasses: seq<JClass<C>>, rootType: C, rootSimpleName: string,
                               isAssignableFrom: (C, C) -> bool): seq<Node<C>> {
    ClassNodes(jclasses, rootType, isAssignableFrom)
      + (if AddedRoot(jclasses, rootType, isAssignableFrom) then [] else [TypeNode(rootType, rootSimpleName)])
  }

  function Types<C>(nodes: seq<Node<C>>): (ts: seq<C>)
    ensures |ts| == |nodes| && forall i :: 0 <= i < |nodes| ==> ts[i] == nodes[i].Type()
  {
    seq(|nodes|, i requires 0 <= i < |nodes| => nodes[i].Type())
  }

  /** One comparison of the parent loop: node `j` becomes the parent of node `i` if it is another node, a supertype, and a subtype of the parent found so far. */
  function ParentStep<C>(types: seq<C>, isAssignableFrom: (C, C) -> bool, i: nat, previous: Option<nat>, j: nat): Option<nat>
    requires i < |types| && j < |types|
    requires previous.Some? ==> previous.value < |types|
  {
    if j != i && isAssignableFrom(types[j], types[i])
       && (previous.None? || isAssignableFrom(types[previous.value], types[j]))
    then Some(j)
    else previous
  }

  /** The parent of node `i` once the nodes before position `k` have been compared with it. */
  function ParentAfter<C>(types: seq<C>, isAssignableFrom: (C, C) -> bool, i: nat, k: nat): (p: Option<nat>)
    requires i < |types| && k <= |types|
    ensures p.Some? ==> p.value < k && p.value != i && isAssignableFrom(types[p.value], types[i])
  {
    if k == 0 then None
    else ParentStep(types, isAssignableFrom, i, ParentAfter(types, isAssignableFrom, i, k - 1), k - 1)
  }

  /** The parent of every node: `None` for a node without parent. */
  function Parents<C>(types: seq<C>, isAssignableFrom: (C, C) -> bool): (ps: seq<Option<nat>>)
    ensures |ps| == |types|
  {
    seq(|types|, i requires 0 <= i < |types| => ParentAfter(types, isAssignableFrom, i, |types|))
  }

  /** The positions below `k` whose parent is `target`, in increasing order. */
  function Select(ps: seq<Option<nat>>, target: Option<nat>, k: nat): (r: seq<nat>)
    requires k <= |ps|
  {
    if k == 0 then [] else Select(ps, target, k - 1) + (if ps[k - 1] == target then [k - 1] else [])
  }

  /** The child list of every node. */
  function ChildLists(ps: seq<Option<nat>>): (cs: seq<seq<nat>>)
    ensures |cs| == |ps|
  {
    seq(|ps|, j requires 0 <= j < |ps| => Select(ps, Some(j), |ps|))
  }

  lemma {:induction false} SelectSpec(ps: seq<Option<nat>>, target: Option<nat>, k: nat)
    requires k <= |ps|
    ensures forall x: int :: x in Select(ps, target, k) <==> 0 <= x < k && ps[x] == target
    ensures forall a, b :: 0 <= a < b < |Select(ps, target, k)| ==> Select(ps, target, k)[a] < Select(ps, target, k)[b]
  {
    if k > 0 {
      SelectSpec(ps, target, k - 1);
      var r, prev := Select(ps, target, k), Select(ps, target, k - 1);
      assert forall a :: 0 <= a < |prev| ==> r[a] == prev[a] && prev[a] in prev;
    }
  }

  /** The class nodes and whether one has the root type: the first loop of `reload()`. */
  method CollectClassNodes<C(==)>(jclasses: seq<JClass<C>>, rootType: C, isAssignableFrom: (C, C) -> bool)
    returns (list: seq<Node<C>>, addedRoot: bool)
    ensures list == ClassNodes(jclasses, rootType, isAssignableFrom)
    ensures addedRoot == AddedRoot(jclasses, rootType, isAssignableFrom)
  {
    list := [];
    addedRoot := false;
    for i := 0 to |jclasses|
      invariant list == ClassNodes(jclasses[..i], rootType, isAssignableFrom)
      invariant addedRoot == AddedRoot(jclasses[..i], rootType, isAssignableFrom)
    {
      var jclass := jclasses[i];
      assert jclasses[..i + 1][..i] == jclasses[..i];
      assert AddedRoot(jclasses[..i + 1], rootType, isAssignableFrom)
             <==> AddedRoot(jclasses[..i], rootType, isAssignableFrom)
                  || (isAssignableFrom(rootType, jclass.javaType) && jclass.javaType == rootType) by {
        assert forall j :: 0 <= j < i ==> jclasses[..i + 1][j] == jclasses[..i][j];
        assert jclasses[..i + 1][i] == jclass;
      }
      if isAssignableFrom(rootType, jclass.javaType) {
        list := list + [ClassNode(jclass)];
        if jclass.javaType == rootType {
          addedRoot := true;
        }
      }
    }
    assert jclasses[..|jclasses|] == jclasses;
  }

  /** The parent loops of `reload()`: every node compared with every other node. */
  method ComputeParents<C>(types: seq<C>, isAssignableFrom: (C, C) -> bool) returns (par: array<Option<nat>>)
    ensures par[..] == Parents(types, isAssignableFrom)
  {
    var n := |types|;
    par := new Option<nat>[n](_ => None);
    for i := 0 to n
      modifies par
      invariant forall k :: 0 <= k < i ==> par[k] == ParentAfter(types, isAssignableFrom, k, n)
      invariant forall k :: i <= k < n ==> par[k] == None
    {
      for j := 0 to n
        modifies par
        invariant par[i] == ParentAfter(types, isAssignableFrom, i, j)
        invariant forall k :: 0 <= k < i ==> par[k] == ParentAfter(types, isAssignableFrom, k, n)
        invariant forall k :: i < k < n ==> par[k] == None
      {
        if j == i {
          continue;
        }
        var type2 := types[j];
        if isAssignableFrom(type2, types[i]) {
          var previous := par[i];
          if previous == None || isAssignableFrom(types[previous.value], type2) {
            par[i] := Some(j);
          }
        }
      }
    }
  }

  /** The child loops of `reload()`: each node is appended to its parent's child list. */
  method ComputeChildren(par: array<Option<nat>>) returns (ch: array<seq<nat>>)
    ensures ch[..] == ChildLists(par[..])
  {
    var n := par.Length;
    ch := new seq<nat>[n](_ => []);
    for i := 0 to n
      modifies ch
      invariant forall k :: 0 <= k < n ==> ch[k] == Select(par[..], Some(k), i)
    {
      for j := 0 to n
        modifies ch
        invariant forall k :: 0 <= k < j ==> ch[k] == Select(par[..], Some(k), i + 1)
        invariant forall k :: j <= k < n ==> ch[k] == Select(par[..], Some(k), i)
      {
        if par[i] == Some(j) {
          ch[j] := ch[j] + [i];
        }
      }
    }
  }

  /** The root loop of `reload()`: the nodes without a parent, in order. */
  method ComputeRoots(par: array<Option<nat>>) returns (roots: seq<nat>)
    ensures roots == Select(par[..], None, par.Length)
  {
    roots := [];
    for i := 0 to par.Length
      invariant roots == Select(par[..], None, i)
    {
      if par[i] == None {
        roots := roots + [i];
      }
    }
  }

  /** The position of the first occurrence of `x`. */
  function IndexOf<C(==)>(ts: seq<C>, x: C): (r: Option<nat>)
    ensures r.Some? ==> r.value < |ts| && ts[r.value] == x && forall k :: 0 <= k < r.value ==> ts[k] != x
    ensures r.None? ==> forall k :: 0 <= k < |ts| ==> ts[k] != x
  {
    if ts == [] then None
    else if ts[0] == x then Some(0)
    else match IndexOf(ts[1..], x)
      case None => None
      case Some(k) => Some(k + 1)
  }

  /** The types of the nodes at the given positions (`Lists.transform(..., TYPE_FUNCTION)`). */
  function TypesAt<C>(nodes: seq<Node<C>>, positions: seq<nat>): (ts: seq<C>)
    requires forall k :: 0 <= k < |positions| ==> positions[k] < |nodes|
    ensures |ts| == |positions| && forall k :: 0 <= k < |positions| ==> ts[k] == nodes[positions[k]].Type()
  {
    seq(|positions|, k requires 0 <= k < |positions| => nodes[positions[k]].Type())
  }

  lemma TypesAtMembers<C>(nodes: seq<Node<C>>, positions: seq<nat>, x: C)
    requires forall k :: 0 <= k < |positions| ==> positions[k] < |nodes|
    ensures x in TypesAt(nodes, positions) <==> exists j :: j in positions && nodes[j].Type() == x
  {
    var ts := TypesAt(nodes, positions);
    if x in ts {
      var k :| 0 <= k < |ts| && ts[k] == x;
      assert positions[k] in positions;
    }
    if exists j :: j in positions && nodes[j].Type() == x {
      var j :| j in positions && nodes[j].Type() == x;
      var k :| 0 <= k < |positions| && positions[k] == j;
      assert ts[k] == x;
    }
  }

  // ---------------------------------------------------------------------------------------
  // What the parent loop chooses

  /** A node gets no parent exactly when no other node is a supertype of it. */
  lemma {:induction false} ParentNoneIff<C>(types: seq<C>, isAssignableFrom: (C, C) -> bool, i: nat, k: nat)
    requires i < |types| && k <= |types|
    ensures ParentAfter(types, isAssignableFrom, i, k).None?
            <==> forall j :: 0 <= j < k && j != i ==> !isAssignableFrom(types[j], types[i])
  {
    if k > 0 {
      ParentNoneIff(types, isAssignableFrom, i, k - 1);
    }
  }

  /** No supertype compared after the chosen parent is a subtype of that parent: the loop kept the last most specific candidate. */
  lemma {:induction false} NoLaterCandidateBelowParent<C>(types: seq<C>, isAssignableFrom: (C, C) -> bool, i: nat, k: nat)
    requires i < |types| && k <= |types|
    requires ParentAfter(types, isAssignableFrom, i, k).Some?
    ensures var p := ParentAfter(types, isAssignableFrom, i, k).value;
            forall j :: p < j < k && j != i && isAssignableFrom(types[j], types[i]) ==> !isAssignableFrom(types[p], types[j])
  {
    var prev := ParentAfter(types, isAssignableFrom, i, k - 1);
    if prev.Some? && ParentAfter(types, isAssignableFrom, i, k) == prev {
      NoLaterCandidateBelowParent(types, isAssignableFrom, i, k - 1);
    }
  }

  /** `isAssignableFrom` is reflexive and transitive on the given types. */
  ghost predicate Preorder<C>(types: seq<C>, isAssignableFrom: (C, C) -> bool) {
    && (forall a :: 0 <= a < |types| ==> isAssignableFrom(types[a], types[a]))
    && (forall a, b, c :: 0 <= a < |types| && 0 <= b < |types| && 0 <= c < |types|
          && isAssignableFrom(types[a], types[b]) && isAssignableFrom(types[b], types[c])
          ==> isAssignableFrom(types[a], types[c]))
  }

  /** Any two supertypes of node `i` are related (as for classes, which have one superclass). */
  ghost predicate ChainAbove<C>(types: seq<C>, isAssignableFrom: (C, C) -> bool, i: nat)
    requires i < |types|
  {
    forall a, b :: 0 <= a < |types| && 0 <= b < |types|
      && isAssignableFrom(types[a], types[i]) && isAssignableFrom(types[b], types[i])
      ==> isAssignableFrom(types[a], types[b]) || isAssignableFrom(types[b], types[a])
  }

  /** When the supertypes of a node form a chain, its parent is the most specific of them: a subtype of every other. */
  lemma {:induction false} ParentIsMostSpecific<C>(types: seq<C>, isAssignableFrom: (C, C) -> bool, i: nat, k: nat)
    requires i < |types| && k <= |types|
    requires Preorder(types, isAssignableFrom) && ChainAbove(types, isAssignableFrom, i)
    requires ParentAfter(types, isAssignableFrom, i, k).Some?
    ensures var p := ParentAfter(types, isAssignableFrom, i, k).value;
            forall j :: 0 <= j < k && j != i && isAssignableFrom(types[j], types[i]) ==> isAssignableFrom(types[j], types[p])
  {
    var prev := ParentAfter(types, isAssignableFrom, i, k - 1);
    var p := ParentAfter(types, isAssignableFrom, i, k).value;
    if p == k - 1 {
      if prev.Some? {
        ParentIsMostSpecific(types, isAssignableFrom, i, k - 1);
        assert isAssignableFrom(types[prev.value], types[p]);
      } else {
        ParentNoneIff(types, isAssignableFrom, i, k - 1);
      }
    } else {
      ParentIsMostSpecific(types, isAssignableFrom, i, k - 1);
      assert prev == Some(p);
    }
  }

  /** Every collected node is the root type or a subtype of it, and one of them has exactly the root type. */
  lemma CollectNodesUnderRoot<C>(jclasses: seq<JClass<C>>, rootType: C, rootSimpleName: string,
                                 isAssignableFrom: (C, C) -> bool)
    requires isAssignableFrom(rootType, rootType)
    ensures var list := CollectNodes(jclasses, rootType, rootSimpleName, isAssignableFrom);
            && (forall n :: n in list ==> isAssignableFrom(rootType, n.Type()))
            && (exists n :: n in list && n.Type() == rootType)
  {
    var classNodes := ClassNodes(jclasses, rootType, isAssignableFrom);
    var list := CollectNodes(jclasses, rootType, rootSimpleName, isAssignableFrom);
    if AddedRoot(jclasses, rootType, isAssignableFrom) {
      var j :| 0 <= j < |jclasses| && isAssignableFrom(rootType, jclasses[j].javaType) && jclasses[j].javaType == rootType;
      assert list == classNodes;
      assert ClassNode(jclasses[j]) in list;
    } else {
      assert list == classNodes + [TypeNode(rootType, rootSimpleName)];
      assert list[|list| - 1].Type() == rootType && list[|list| - 1] in list;
    }
  }

  /** The same holds of the loaded nodes, which are the collected ones sorted. */
  lemma LoadedNodesUnderRoot<C>(jclasses: seq<JClass<C>>, rootType: C, rootSimpleName: string,
                                isAssignableFrom: (C, C) -> bool)
    requires isAssignableFrom(rootType, rootType)
    ensures var nodes := SortByName(CollectNodes(jclasses, rootType, rootSimpleName, isAssignableFrom));
            && (forall n :: n in nodes ==> isAssignableFrom(rootType, n.Type()))
            && (exists n :: n in nodes && n.Type() == rootType)
  {
    var list := CollectNodes(jclasses, rootType, rootSimpleName, isAssignableFrom);
    CollectNodesUnderRoot(jclasses, rootType, rootSimpleName, isAssignableFrom);
    var sorted := SortByName(list);
    SortByNameSpec(list);
    forall n | n in sorted ensures n in list {
      assert n in multiset(sorted);
    }
    var w :| w in list && w.Type() == rootType;
    assert w in multiset(list);
    assert w in sorted;
  }

  // ---------------------------------------------------------------------------------------
  // The container

  class TypeContainer<C(==,!new)> {
    const rootType: C
    const rootSimpleName: string
    /** The model classes of the database, as `getJClasses().values()` lists them. */
    const jclasses: seq<JClass<C>>
    const isAssignableFrom: (C, C) -> bool

    /** The loaded nodes, sorted by name. */
    var nodes: seq<Node<C>>
    /** `Node.parent` of each node, as a position in `nodes`. */
    var parent: array<Option<nat>>
    /** `Node.childs` of each node, as positions in `nodes`. */
    var childs: array<seq<nat>>
    var rootList: seq<nat>

    /** The parents are the computed ones, and the child and root lists are derived from them. */
    ghost predicate Valid()
      reads this, parent, childs
    {
      && parent.Length == |nodes| && childs.Length == |nodes|
      && parent[..] == Parents(Types(nodes), isAssignableFrom)
      && childs[..] == ChildLists(parent[..])
      && rootList == Select(parent[..], None, |nodes|)
      && (forall j, k :: 0 <= j < |nodes| && 0 <= k < |childs[j]| ==> childs[j][k] < |nodes|)
      && (forall k :: 0 <= k < |rootList| ==> rootList[k] < |nodes|)
    }

    /** The constructor; the root type is given (finding the classes' lowest common ancestor is not part of this model). */
    constructor (jclasses: seq<JClass<C>>, rootType: C, rootSimpleName: string, isAssignableFrom: (C, C) -> bool)
      ensures Valid() && nodes == [] && rootList == []
      ensures this.jclasses == jclasses && this.rootType == rootType
      ensures this.rootSimpleName == rootSimpleName && this.isAssignableFrom == isAssignableFrom
    {
      this.jclasses := jclasses;
      this.rootType := rootType;
      this.rootSimpleName := rootSimpleName;
      this.isAssignableFrom := isAssignableFrom;
      nodes := [];
      parent := new Option<nat>[0];
      childs := new seq<nat>[0];
      rootList := [];
    }

    /** `reload()`: rebuilds the nodes, their parents, their children and the root list. */
    method Reload()
      modifies this
      ensures Valid()
      ensures nodes == SortByName(CollectNodes(jclasses, rootType, rootSimpleName, isAssignableFrom))
      ensures SortedByName(nodes) && multiset(nodes) == multiset(CollectNodes(jclasses, rootType, rootSimpleName, isAssignableFrom))
    {
      // one node per model class under the root type
      var list, addedRoot := CollectClassNodes(jclasses, rootType, isAssignableFrom);

      // add a node for the root type itself when no class has that type
      if !addedRoot {
        list := list + [TypeNode(rootType, rootSimpleName)];
      } else {
        assert list + [] == list;
      }
      assert list == CollectNodes(jclasses, rootType, rootSimpleName, isAssignableFrom);

      // order the nodes by their property names
      var sorted := SortByName(list);
      SortByNameSpec(list);

      // each node's parent is its most specific supertype among the nodes
      var par := ComputeParents(Types(sorted), isAssignableFrom);

      // child lists follow from the parents
      var ch: array<seq<nat>> := ComputeChildren(par);

      // the parentless nodes form the root list
      var roots := ComputeRoots(par);
      var n := |sorted|;
      SelectSpec(par[..], None, n);
      assert forall k :: 0 <= k < |roots| ==> roots[k] in roots;
      forall j, k | 0 <= j < n && 0 <= k < |ch[j]| ensures ch[j][k] < n {
        SelectSpec(par[..], Some(j), n);
        assert ch[j][k] in ch[j];
      }

      // install the new state
      nodes := sorted;
      parent := par;
      childs := ch;
      rootList := roots;
    }
    /** `getJavaObject(itemId)`: the first loaded node whose type is `itemId`. */
    function Lookup(itemId: C): (r: Option<nat>)
      reads this
      ensures r.Some? ==> r.value < |nodes| && nodes[r.value].Type() == itemId
      ensures r.None? ==> forall k :: 0 <= k < |nodes| ==> nodes[k].Type() != itemId
    {
      IndexOf(Types(nodes), itemId)
    }

    /** `getChildren(itemId)`: the types of the nodes whose parent is the node of `itemId`. */
    function GetChildren(itemId: C): (r: seq<C>)
      requires Valid()
      reads this, parent, childs
      ensures Lookup(itemId).None? ==> r == []
      ensures Lookup(itemId).Some? ==>
                forall x :: x in r <==> exists j :: 0 <= j < |nodes| && parent[j] == Lookup(itemId) && nodes[j].Type() == x
    {
      match Lookup(itemId)
      case None => []
      case Some(i) =>
        var cs := childs[i];
        assert cs == Select(parent[..], Some(i), |nodes|);
        SelectSpec(parent[..], Some(i), |nodes|);
        assert forall k :: 0 <= k < |cs| ==> cs[k] in cs;
        var r := TypesAt(nodes, cs);
        assert forall x :: x in r <==> exists j :: j in cs && nodes[j].Type() == x by {
          forall x ensures x in r <==> exists j :: j in cs && nodes[j].Type() == x {
            TypesAtMembers(nodes, cs, x);
          }
        }
        r
    }

    /** `getParent(itemId)`: the type of the parent of the node of `itemId`, if it has one. */
    function GetParent(itemId: C): (r: Option<C>)
      requires Valid()
      reads this, parent, childs
      ensures Lookup(itemId).None? ==> r.None?
      ensures Lookup(itemId).Some? ==>
                (r.None? <==> forall j :: 0 <= j < |nodes| && j != Lookup(itemId).value ==> !isAssignableFrom(nodes[j].Type(), itemId))
      ensures r.Some? ==> Lookup(itemId).Some? && isAssignableFrom(r.value, itemId)
                          && exists j :: 0 <= j < |nodes| && j != Lookup(itemId).value && nodes[j].Type() == r.value
    {
      match Lookup(itemId)
      case None => None
      case Some(i) =>
        assert parent[i] == ParentAfter(Types(nodes), isAssignableFrom, i, |nodes|);
        ParentNoneIff(Types(nodes), isAssignableFrom, i, |nodes|);
        match parent[i]
        case None => None
        case Some(p) => Some(nodes[p].Type())
    }

    /** The root list holds exactly the nodes of which no other node is a supertype. */
    lemma RootListSpec()
      requires Valid()
      ensures forall i: int :: i in rootList <==>
                0 <= i < |nodes| && forall j :: 0 <= j < |nodes| && j != i ==> !isAssignableFrom(nodes[j].Type(), nodes[i].Type())
    {
      SelectSpec(parent[..], None, |nodes|);
      forall i | 0 <= i < |nodes|
        ensures parent[i].None? <==> forall j :: 0 <= j < |nodes| && j != i ==> !isAssignableFrom(nodes[j].Type(), nodes[i].Type())
      {
        assert parent[..][i] == parent[i];
        ParentNoneIff(Types(nodes), isAssignableFrom, i, |nodes|);
      }
    }

    /** `rootItemIds()`: the types of the nodes of which no other node is a supertype. */
    function RootItemIds(): (r: seq<C>)
      requires Valid()
      reads this, parent, childs
      ensures forall x :: x in r <==>
                exists i :: 0 <= i < |nodes| && nodes[i].Type() == x
                            && forall j :: 0 <= j < |nodes| && j != i ==> !isAssignableFrom(nodes[j].Type(), x)
    {
      RootListSpec();
      var r := TypesAt(nodes, rootList);
      assert forall x :: x in r <==> exists i :: i in rootList && nodes[i].Type() == x by {
        forall x ensures x in r <==> exists i :: i in rootList && nodes[i].Type() == x {
          TypesAtMembers(nodes, rootList, x);
        }
      }
      r
    }

    /** `isRoot(itemId)`: the node of `itemId` exists and has no parent. */
    function IsRoot(itemId: C): (r: bool)
      requires Valid()
      reads this, parent, childs
      ensures r <==> Lookup(itemId).Some? && Lookup(itemId).value in rootList
      ensures r <==> Lookup(itemId).Some?
                     && forall j :: 0 <= j < |nodes| && j != Lookup(itemId).value ==> !isAssignableFrom(nodes[j].Type(), itemId)
    {
      match Lookup(itemId)
      case None => false
      case Some(i) =>
        SelectSpec(parent[..], None, |nodes|);
        ParentNoneIff(Types(nodes), isAssignableFrom, i, |nodes|);
        parent[i].None?
    }

    /** `hasChildren(itemId)`: the node of `itemId` exists and is the parent of some node. */
    function HasChildren(itemId: C): (r: bool)
      requires Valid()
      reads this, parent, childs
      ensures r <==> Lookup(itemId).Some? && exists j :: 0 <= j < |nodes| && parent[j] == Lookup(itemId)
    {
      match Lookup(itemId)
      case None => false
      case Some(i) =>
        assert childs[i] == Select(parent[..], Some(i), |nodes|);
        SelectSpec(parent[..], Some(i), |nodes|);
        assert childs[i] != [] ==> childs[i][0] in childs[i];
        childs[i] != []
    }

    /** `areChildrenAllowed(itemId)`: the same test as `hasChildren`. */
    function AreChildrenAllowed(itemId: C): (r: bool)
      requires Valid()
      reads this, parent, childs
      ensures r <==> Lookup(itemId).Some? && exists j :: 0 <= j < |nodes| && parent[j] == Lookup(itemId)
    {
      HasChildren(itemId)
    }

    /** The child list and the root list each follow the name order of the nodes. */
    lemma ListsInNameOrder(i: nat)
      requires Valid() && SortedByName(nodes) && i < |nodes|
      ensures forall a, b :: 0 <= a < b < |childs[i]| ==>
                StrLe(nodes[childs[i][a]].PropertyName(), nodes[childs[i][b]].PropertyName())
      ensures forall a, b :: 0 <= a < b < |rootList| ==>
                StrLe(nodes[rootList[a]].PropertyName(), nodes[rootList[b]].PropertyName())
    {
      SelectSpec(parent[..], Some(i), |nodes|);
      SelectSpec(parent[..], None, |nodes|);
      assert childs[i] == Select(parent[..], Some(i), |nodes|);
      assert forall k :: 0 <= k < |childs[i]| ==> childs[i][k] in childs[i];
      assert forall k :: 0 <= k < |rootList| ==> rootList[k] in rootList;
    }

    /** `setParent`: the hierarchy cannot be changed. */
    function SetParent(itemId: C, newParentId: C): (r: Result<bool>)
      ensures r.Failure? && r.error == UnsupportedOperation
    {
      Failure(UnsupportedOperation)
    }

    /** `setChildrenAllowed`: the hierarchy cannot be changed. */
    function SetChildrenAllowed(itemId: C, areChildrenAllowed: bool): (r: Result<bool>)
      ensures r.Failure? && r.error == UnsupportedOperation
    {
      Failure(UnsupportedOperation)
    }

    /** `removeItem`: the hierarchy cannot be changed. */
    function RemoveItem(itemId: C): (r: Result<bool>)
      ensures r.Failure? && r.error == UnsupportedOperation
    {
      Failure(UnsupportedOperation)
    }
  }
}
