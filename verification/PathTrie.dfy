/**
 The trie that `include_fields` builds from its patterns: nodes on the heap, inserted through a moving
 pointer. A ghost map from segment paths to nodes says which node sits where.
 */
module PathTrie {
  import opened PathPattern
  import opened JsonTree
  import opened Wrappers
  import opened Projection

  class PathNode {
    var children: map<string, PathNode>
    var isTerminal: bool

    constructor ()
      ensures children == map[] && !isTerminal
    {
      children := map[];
      isTerminal := false;
    }
  }

  type Layout = map<Path, PathNode>

  /** Is `p` empty, or the beginning of a pattern? */
  ghost predicate Begins(p: Path, patterns: set<Path>) {
    p == [] || exists f :: f in patterns && p <= f
  }

  /**
   The nodes form a tree laid out by segment paths: no node sits at two places, the children of a node are
   the nodes one segment further, and the terminal nodes are those of the patterns.
   */
  ghost predicate Tree(at: Layout, patterns: set<Path>)
    reads at.Values
  {
    && [] in at
    && (forall p, q :: p in at && q in at && at[p] == at[q] ==> p == q)
    && (forall p, k :: p in at && k in at[p].children ==> p + [k] in at && at[p].children[k] == at[p + [k]])
    && (forall p, k :: p + [k] in at ==> p in at && k in at[p].children)
    && (forall p :: p in at ==> (at[p].isTerminal <==> p in patterns))
  }

  /** The tree of a pattern set: a node is reached by `p` exactly when `p` is empty or begins a pattern. */
  ghost predicate TreeOf(root: PathNode, at: Layout, patterns: set<Path>)
    reads at.Values
  {
    Tree(at, patterns) && at[[]] == root && forall p :: p in at <==> Begins(p, patterns)
  }

  lemma SnocInjective(p: Path, k: string)
    ensures forall q: Path, l :: q + [l] == p + [k] ==> q == p && l == k
  {
    forall q: Path, l | q + [l] == p + [k] ensures q == p && l == k {
      assert q == (q + [l])[..|q|] && p == (p + [k])[..|p|];
      assert l == (q + [l])[|q|];
    }
  }

  /** `after` is `at` with the node `child` at `p`, a fresh one unless there was a node before. */
  twostate predicate Grown(at: Layout, new after: Layout, p: Path, new child: PathNode) {
    && after.Keys == at.Keys + {p}
    && (forall q :: q in at ==> after[q] == at[q])
    && after[p] == child
    && (p !in at ==> fresh(child))
  }

  /** Go to the child for `part`, creating it when it is missing. */
  method Descend(current: PathNode, part: string, ghost at: Layout, ghost patterns: set<Path>, ghost p: Path)
    returns (child: PathNode, ghost after: Layout)
    requires Tree(at, patterns) && patterns <= at.Keys
    requires p in at && at[p] == current
    modifies current
    ensures Tree(after, patterns)
    ensures Grown(at, after, p + [part], child)
  {
    after := at;
    if part !in current.children {
      after := AddChild(current, part, at, patterns, p);
    }
    child := current.children[part];
  }

  method AddChild(current: PathNode, part: string, ghost at: Layout, ghost patterns: set<Path>, ghost p: Path)
    returns (ghost after: Layout)
    requires Tree(at, patterns) && patterns <= at.Keys
    requires p in at && at[p] == current && part !in current.children
    modifies current
    ensures Tree(after, patterns) && part in current.children
    ensures Grown(at, after, p + [part], current.children[part])
  {
    var child := new PathNode();
    current.children := current.children[part := child];
    SnocInjective(p, part);
    after := at[p + [part] := child];
  }

  /** The patterns once the first `i` segments of one more pattern have been inserted. */
  ghost function Inserted(patterns: set<Path>, parts: Path, i: nat): set<Path> {
    if parts != [] && i >= |parts| then patterns + {parts} else patterns
  }

  /** One round of the insertion: step down, and mark the node when the pattern ends there. */
  method InsertPart(current: PathNode, parts: Path, i: nat, ghost at: Layout, ghost patterns: set<Path>)
    returns (child: PathNode, ghost after: Layout)
    requires i < |parts|
    requires Tree(at, patterns) && patterns <= at.Keys
    requires parts[..i] in at && at[parts[..i]] == current
    modifies at.Values
    ensures Grown(at, after, parts[..i + 1], child)
    ensures Tree(after, Inserted(patterns, parts, i + 1))
  {
    TakeNext(parts, i);
    child, after := Descend(current, parts[i], at, patterns, parts[..i]);
    if i == |parts| - 1 {
      MarkTerminal(child, after, patterns, parts);
    }
  }

  method MarkTerminal(current: PathNode, ghost at: Layout, ghost patterns: set<Path>, ghost p: Path)
    requires Tree(at, patterns) && p in at && at[p] == current
    modifies current
    ensures Tree(at, patterns + {p})
  {
    current.isTerminal := true;
  }

  /** The nodes on the way of a pattern, down to its first `i` segments. */
  ghost function Way(parts: Path, i: nat): set<Path>
    requires i <= |parts|
  {
    if i == 0 then {[]} else Way(parts, i - 1) + {parts[..i]}
  }

  lemma {:induction false} WayIsPrefixes(parts: Path, i: nat, p: Path)
    requires i <= |parts|
    ensures p in Way(parts, i) <==> |p| <= i && p <= parts
  {
    if i > 0 {
      WayIsPrefixes(parts, i - 1, p);
      if |p| == i && p <= parts {
        assert p == parts[..i];
      }
    }
  }

  lemma TakeNext(parts: Path, i: nat)
    requires i < |parts|
    ensures parts[..i] + [parts[i]] == parts[..i + 1]
    ensures i + 1 == |parts| ==> parts[..i + 1] == parts
  {
  }

  lemma AllBegin(patterns: set<Path>)
    ensures forall p :: p in patterns ==> Begins(p, patterns)
  {
    forall p | p in patterns ensures Begins(p, patterns) {
      assert p <= p;
    }
  }

  lemma BeginsOneMore(patterns: set<Path>, parts: Path, p: Path)
    ensures Begins(p, patterns + {parts}) <==> Begins(p, patterns) || p in Way(parts, |parts|)
  {
    WayIsPrefixes(parts, |parts|, p);
    if p <= parts {
      assert parts in patterns + {parts};
    }
    if Begins(p, patterns) && p != [] {
      var f :| f in patterns && p <= f;
      assert f in patterns + {parts};
    }
  }

  /** `after` keeps the nodes of `at` in place and adds fresh ones. */
  twostate predicate Extends(at: Layout, new after: Layout) {
    && at.Keys <= after.Keys
    && (forall p :: p in at ==> after[p] == at[p])
    && (forall p :: p in after && p !in at ==> fresh(after[p]))
  }

  method InsertField(root: PathNode, parts: Path, ghost at: Layout, ghost patterns: set<Path>)
    returns (ghost after: Layout)
    requires TreeOf(root, at, patterns)
    modifies at.Values
    ensures TreeOf(root, after, Inserted(patterns, parts, |parts|))
    ensures Extends(at, after)
  {
    AllBegin(patterns);
    var current := root;
    after := at;
    for i := 0 to |parts|
      invariant Tree(after, Inserted(patterns, parts, i))
      invariant after.Keys == at.Keys + Way(parts, i)
      invariant parts[..i] in after && after[parts[..i]] == current
      invariant Extends(at, after)
    {
      current, after := InsertPart(current, parts, i, after, patterns);
    }
    forall p ensures p in after <==> Begins(p, Inserted(patterns, parts, |parts|)) {
      BeginsOneMore(patterns, parts, p);
    }
  }

  method BuildIncludeTree(fields: seq<string>) returns (root: PathNode, ghost at: Layout)
    ensures TreeOf(root, at, Patterns(fields))
    ensures forall p :: p in at ==> fresh(at[p])
  {
    root := new PathNode();
    at := map[[] := root];
    RootAlone(root, at);
    assert fields[..0] == [];
    for i := 0 to |fields|
      invariant TreeOf(root, at, Patterns(fields[..i]))
      invariant forall p :: p in at ==> fresh(at[p])
    {
      PatternsNext(fields, i);
      var parts := ParsePathPattern(fields[i]);
      at := InsertField(root, parts, at, Patterns(fields[..i]));
    }
    assert fields[..|fields|] == fields;
  }

  lemma RootAlone(root: PathNode, at: Layout)
    requires root.children == map[] && !root.isTerminal
    requires at == map[[] := root]
    ensures TreeOf(root, at, Patterns([]))
  {
  }

  lemma PatternsNext(fields: seq<string>, i: nat)
    requires i < |fields|
    ensures Patterns(fields[..i + 1])
         == Inserted(Patterns(fields[..i]), Tokens(fields[i]), |Tokens(fields[i])|)
  {
    assert fields[..i + 1] == fields[..i] + [fields[i]];
  }

  // ---------- filtering along the tree ----------

  /** The tails of the patterns that begin with `p`. */
  ghost function TailsAt(patterns: set<Path>, p: Path): set<Path> {
    set f | f in patterns && p <= f :: f[|p|..]
  }

  lemma TailsDerive(patterns: set<Path>, p: Path, k: string)
    ensures Derive(TailsAt(patterns, p), k) == TailsAt(patterns, p + [k])
  {
    var d, t := Derive(TailsAt(patterns, p), k), TailsAt(patterns, p + [k]);
    forall f | f in patterns && p + [k] <= f ensures f[|p + [k]|..] in d {
      assert p == f[..|p|] && f[|p|..][0] == k && f[|p|..][1..] == f[|p + [k]|..];
      assert f[|p|..] in TailsAt(patterns, p);
    }
    forall f | f in patterns && p <= f && f[|p|..] != [] && f[|p|..][0] == k ensures f[|p|..][1..] in t {
      assert p + [k] == f[..|p| + 1] && f[|p|..][1..] == f[|p + [k]|..];
    }
  }

  /** A node's children and terminal flag say what the tails at that node are. */
  lemma NodeTails(root: PathNode, at: Layout, patterns: set<Path>, p: Path, k: string)
    requires TreeOf(root, at, patterns) && p in at
    ensures k in at[p].children <==> Derive(TailsAt(patterns, p), k) != {}
    ensures k in at[p].children ==>
      && p + [k] in at && at[p].children[k] == at[p + [k]]
      && Derive(TailsAt(patterns, p), k) == TailsAt(patterns, p + [k])
    ensures at[p].isTerminal <==> [] in TailsAt(patterns, p)
  {
    TailsDerive(patterns, p, k);
    var q := p + [k];
    if q in at {
      var f :| f in patterns && q <= f;
      assert f[|q|..] in TailsAt(patterns, q);
    }
    if TailsAt(patterns, q) != {} {
      var f :| f in patterns && q <= f;
      assert Begins(q, patterns);
    }
    if [] in TailsAt(patterns, p) {
      var f :| f in patterns && p <= f && f[|p|..] == [];
      assert f == p;
    }
    if p in patterns {
      assert p[|p|..] == [];
    }
  }

  /** Where the walk goes below `p` for segment `k`: the child for `k`, else the child for `*`, else nowhere. */
  function Next(node: PathNode, k: string): Option<PathNode>
    reads node
  {
    if k in node.children then Some(node.children[k])
    else if WILDCARD in node.children then Some(node.children[WILDCARD])
    else None
  }

  lemma NextTails(root: PathNode, at: Layout, patterns: set<Path>, p: Path, k: string) returns (q: Path)
    requires TreeOf(root, at, patterns) && p in at
    ensures Next(at[p], k).None? ==> Branch(TailsAt(patterns, p), k) == {}
    ensures Next(at[p], k).Some? ==> q in at && q != [] && at[q] == Next(at[p], k).value
                                     && Branch(TailsAt(patterns, p), k) == TailsAt(patterns, q) != {}
  {
    NodeTails(root, at, patterns, p, k);
    NodeTails(root, at, patterns, p, WILDCARD);
    q := p + if k in at[p].children then [k] else [WILDCARD];
  }

  /** The tree-driven projection, over the object's keys in any order. */
  method FilterWithTree(data: Json, node: PathNode?, ghost root: PathNode, ghost at: Layout,
      ghost patterns: set<Path>, ghost p: Path)
    returns (r: Json)
    requires node != null ==> TreeOf(root, at, patterns) && p in at && at[p] == node
    ensures node == null ==> r == Null
    ensures node != null ==> r == Project(data, TailsAt(patterns, p))
    decreases data, 2
  {
    if node == null {
      return Null;
    }
    match data
    case Obj(fields) =>
      var result := FilterFields(data, node, root, at, patterns, p);
      if result == map[] {
        return Null;
      }
      return Obj(result);
    case Arr(items) =>
      ghost var q := NextTails(root, at, patterns, p, ARRAY);
      if ARRAY in node.children {
        var result := FilterItems(items, node.children[ARRAY], root, at, patterns, q);
        return Arr(result);
      }
      if WILDCARD in node.children {
        var result := FilterItems(items, node.children[WILDCARD], root, at, patterns, q);
        return Arr(result);
      }
      return Null;
    case _ =>
      NodeTails(root, at, patterns, p, ARRAY);
      if node.isTerminal {
        return data;
      }
      return Null;
  }

  method FilterFields(data: Json, node: PathNode, ghost root: PathNode, ghost at: Layout,
      ghost patterns: set<Path>, ghost p: Path)
    returns (result: map<string, Json>)
    requires data.Obj?
    requires TreeOf(root, at, patterns) && p in at && at[p] == node
    ensures Project(data, TailsAt(patterns, p)) == if result == map[] then Null else Obj(result)
    decreases data, 1
  {
    var fields := data.fields;
    ghost var tails := TailsAt(patterns, p);
    result := map[];
    var todo := fields.Keys;
    while todo != {}
      invariant todo <= fields.Keys
      invariant result.Keys <= fields.Keys - todo
      invariant forall k :: k in fields && k !in todo ==> Holds(result, k, Member(fields[k], Branch(tails, k)))
      decreases todo
    {
      var key :| key in todo;
      todo := todo - {key};
      ghost var q := NextTails(root, at, patterns, p, key);
      if key in node.children {
        var kept := FilterMember(fields[key], node.children[key], root, at, patterns, q);
        if kept.Some? {
          result := result[key := kept.value];
        }
      } else if WILDCARD in node.children {
        var kept := FilterMember(fields[key], node.children[WILDCARD], root, at, patterns, q);
        if kept.Some? {
          result := result[key := kept.value];
        }
      }
    }
    ProjectFields(fields, tails, result);
  }

  /** A member with its node: a terminal keeps it whole, otherwise it is filtered and kept if not null. */
  method FilterMember(value: Json, child: PathNode, ghost root: PathNode, ghost at: Layout,
      ghost patterns: set<Path>, ghost p: Path)
    returns (kept: Option<Json>)
    requires TreeOf(root, at, patterns) && p in at && at[p] == child && p != []
    ensures kept == Member(value, TailsAt(patterns, p))
    ensures child.isTerminal ==> kept == Some(value)
    decreases value, 3
  {
    NodeTails(root, at, patterns, p, ARRAY);
    TailsThere(patterns, p);
    if child.isTerminal {
      return Some(value);
    }
    var filtered := FilterWithTree(value, child, root, at, patterns, p);
    if filtered != Null {
      return Some(filtered);
    }
    return None;
  }

  lemma TailsThere(patterns: set<Path>, p: Path)
    requires Begins(p, patterns) && p != []
    ensures TailsAt(patterns, p) != {}
  {
    var f :| f in patterns && p <= f;
    assert f[|p|..] in TailsAt(patterns, p);
  }

  method FilterItems(items: seq<Json>, child: PathNode, ghost root: PathNode, ghost at: Layout,
      ghost patterns: set<Path>, ghost p: Path)
    returns (result: seq<Json>)
    requires TreeOf(root, at, patterns) && p in at && at[p] == child
    ensures result == ProjectItems(items, TailsAt(patterns, p))
    decreases items, 0
  {
    result := [];
    for i := 0 to |items|
      invariant result == ProjectItems(items[..i], TailsAt(patterns, p))
    {
      var filtered := FilterWithTree(items[i], child, root, at, patterns, p);
      ProjectItemsSnoc(items, i, TailsAt(patterns, p));
      if filtered != Null {
        result := result + [filtered];
      }
    }
    assert items[..|items|] == items;
  }

  /** The include filter depends on the fields only through the set of their segment lists. */
  method ApplyInclude(data: Json, fields: seq<string>) returns (r: Json)
    ensures r == Project(data, Patterns(fields))
  {
    var tree, at := BuildIncludeTree(fields);
    r := FilterWithTree(data, tree, tree, at, Patterns(fields), []);
    TailsAtRoot(Patterns(fields));
  }

  lemma TailsAtRoot(patterns: set<Path>)
    ensures TailsAt(patterns, []) == patterns
  {
    var root: Path := [];
    forall f | f in patterns ensures f in TailsAt(patterns, root) {
      assert root <= f && f[|root|..] == f;
    }
    forall f | f in patterns ensures f[|root|..] == f {
    }
  }
}
