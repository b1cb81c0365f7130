/** When does one set of include patterns keep at least as much as another? */
module PatternOrder {
  import opened PathPattern
  import opened JsonTree
  import opened Projection

  function FirstSegments(tails: set<Path>): set<string> {
    set t | t in tails && t != [] :: t[0]
  }

  predicate AtMost(tails: set<Path>, n: nat) {
    forall t :: t in tails ==> |t| <= n
  }

  /**
   Walk both pattern sets at once, at most `n` segments deep: where `less` ends `more` ends, and along arrays
   and along every key that one of them names, and `*` for all others, `more` either keeps all or goes on.
   */
  predicate Finer(less: set<Path>, more: set<Path>, n: nat)
    decreases n, 1
  {
    && ([] in less ==> [] in more)
    && (n > 0 ==>
          && Finer(Branch(less, ARRAY), Branch(more, ARRAY), n - 1)
          && forall k :: k in FirstSegments(less) + FirstSegments(more) + {WILDCARD} ==> FinerAt(less, more, k, n))
  }

  predicate FinerAt(less: set<Path>, more: set<Path>, k: string, n: nat)
    requires n > 0
    decreases n, 0
  {
    || [] in Branch(more, k)
    || ([] !in Branch(less, k) && Finer(Branch(less, k), Branch(more, k), n - 1))
  }

  lemma BranchShorter(tails: set<Path>, k: string, n: nat)
    requires AtMost(tails, n)
    ensures n > 0 ==> AtMost(Branch(tails, k), n - 1)
    ensures n == 0 ==> Branch(tails, k) == {}
  {
  }

  /** A key that a set does not name goes the way of `*`. */
  lemma UnnamedBranch(tails: set<Path>, k: string)
    requires k !in FirstSegments(tails)
    ensures Branch(tails, k) == Branch(tails, WILDCARD)
  {
    forall t | t in tails && t != [] ensures t[0] != k {
      assert t[0] in FirstSegments(tails);
    }
  }

  /** The key that stands for `k` in the walk. */
  lemma WalkKey(less: set<Path>, more: set<Path>, k: string) returns (w: string)
    ensures w in FirstSegments(less) + FirstSegments(more) + {WILDCARD}
    ensures Branch(less, k) == Branch(less, w) && Branch(more, k) == Branch(more, w)
  {
    if k in FirstSegments(less) + FirstSegments(more) {
      w := k;
    } else {
      w := WILDCARD;
      UnnamedBranch(less, k);
      UnnamedBranch(more, k);
    }
  }

  lemma {:induction false} FinerAccepts(less: set<Path>, more: set<Path>, n: nat, p: seq<Step>)
    requires Finer(less, more, n) && AtMost(less, n) && Accepts(less, p)
    ensures Accepts(more, p)
    decreases |p|
  {
    if p != [] {
      var k := if p[0].Key? then p[0].k else ARRAY;
      BranchShorter(less, k, n);
      if n == 0 {
        NothingAccepted(p[1..]);
      } else if p[0].Item? {
        FinerAccepts(Branch(less, ARRAY), Branch(more, ARRAY), n - 1, p[1..]);
      } else {
        var w := WalkKey(less, more, k);
        assert FinerAt(less, more, w, n);
        if [] !in Branch(more, k) {
          FinerAccepts(Branch(less, k), Branch(more, k), n - 1, p[1..]);
        }
      }
    }
  }

  lemma AcceptsStep(tails: set<Path>, first: Step, rest: seq<Step>)
    ensures first.Item? ==> (Accepts(tails, [first] + rest) <==> Accepts(Branch(tails, ARRAY), rest))
    ensures first.Key? ==>
      (Accepts(tails, [first] + rest) <==> [] in Branch(tails, first.k) || Accepts(Branch(tails, first.k), rest))
  {
    assert ([first] + rest)[1..] == rest;
  }

  /** If two sets are not in this order, some path tells them apart. */
  lemma {:induction false} NotFiner(less: set<Path>, more: set<Path>, n: nat) returns (p: seq<Step>)
    requires !Finer(less, more, n)
    ensures Accepts(less, p) && !Accepts(more, p)
    decreases n
  {
    if [] in less && [] !in more {
      p := [];
    } else if !Finer(Branch(less, ARRAY), Branch(more, ARRAY), n - 1) {
      var rest := NotFiner(Branch(less, ARRAY), Branch(more, ARRAY), n - 1);
      p := [Item] + rest;
      AcceptsStep(less, Item, rest);
      AcceptsStep(more, Item, rest);
    } else {
      var k :| k in FirstSegments(less) + FirstSegments(more) + {WILDCARD} && !FinerAt(less, more, k, n);
      var rest: seq<Step> := [];
      if [] !in Branch(less, k) {
        rest := NotFiner(Branch(less, k), Branch(more, k), n - 1);
      }
      p := [Key(k)] + rest;
      AcceptsStep(less, Key(k), rest);
      AcceptsStep(more, Key(k), rest);
    }
  }

  /** A document with one leaf. */
  function Lone(p: seq<Step>, v: Value): Json {
    if p == [] then Scalar(v)
    else if p[0].Key? then Obj(map[p[0].k := Lone(p[1..], v)])
    else Arr([Lone(p[1..], v)])
  }

  lemma {:induction false} LoneCounts(p: seq<Step>, v: Value)
    ensures Count(Lone(p, v), p, v) == 1
  {
    if p != [] {
      LoneCounts(p[1..], v);
      if p[0].Item? {
        var rest := [Lone(p[1..], v)];
        assert rest[1..] == [];
        assert CountItems(rest, p[1..], v) == Count(rest[0], p[1..], v);
      }
    }
  }

  /**
   The exact condition for keeping at least as much on every document: the walk over both pattern sets, as
   deep as the longest pattern.
   */
  lemma KeepsMoreExact(less: set<Path>, more: set<Path>, n: nat)
    requires AtMost(less, n)
    ensures (forall data, p, v :: Count(Project(data, less), p, v) <= Count(Project(data, more), p, v))
       <==> Finer(less, more, n)
  {
    if Finer(less, more, n) {
      forall data, p, v ensures Count(Project(data, less), p, v) <= Count(Project(data, more), p, v) {
        LeafConservation(data, less, p, v);
        LeafConservation(data, more, p, v);
        if Accepts(less, p) {
          FinerAccepts(less, more, n, p);
        }
      }
    } else {
      var p := NotFiner(less, more, n);
      var v := Bool(true);
      var data := Lone(p, v);
      LoneCounts(p, v);
      LeafConservation(data, less, p, v);
      LeafConservation(data, more, p, v);
      assert !(Count(Project(data, less), p, v) <= Count(Project(data, more), p, v));
    }
  }
}
