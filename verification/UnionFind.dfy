/** The string-keyed union-find, and what it says about the unions recorded in it. */
module UnionFind {
  import opened Prelude

  type Id = string

  // ---- Connection by recorded unions ----

  /** Neighbours by some recorded union, in either direction. */
  predicate Linked(links: set<(Id, Id)>, a: Id, b: Id) {
    (a, b) in links || (b, a) in links
  }

  predicate IsChain(links: set<(Id, Id)>, chain: seq<Id>) {
    forall k | 0 <= k < |chain| - 1 :: Linked(links, chain[k], chain[k + 1])
  }

  ghost predicate ChainBetween(links: set<(Id, Id)>, chain: seq<Id>, a: Id, b: Id) {
    chain != [] && chain[0] == a && chain[|chain| - 1] == b && IsChain(links, chain)
  }

  /** Some chain of recorded unions leads from `a` to `b`. */
  ghost predicate Connected(links: set<(Id, Id)>, a: Id, b: Id) {
    exists chain :: ChainBetween(links, chain, a, b)
  }

  lemma ConnectedRefl(links: set<(Id, Id)>, a: Id)
    ensures Connected(links, a, a)
  {
    assert ChainBetween(links, [a], a, a);
  }

  lemma ConnectedTrans(links: set<(Id, Id)>, a: Id, b: Id, c: Id)
    requires Connected(links, a, b) && Connected(links, b, c)
    ensures Connected(links, a, c)
  {
    var first :| ChainBetween(links, first, a, b);
    var second :| ChainBetween(links, second, b, c);
    var chain := first + second[1..];
    forall k | 0 <= k < |chain| - 1
      ensures Linked(links, chain[k], chain[k + 1])
    {
      if k < |first| - 1 {
        assert Linked(links, first[k], first[k + 1]);
      } else {
        assert Linked(links, second[k - |first| + 1], second[k - |first| + 2]);
      }
    }
    assert ChainBetween(links, chain, a, c);
  }

  lemma ConnectedSym(links: set<(Id, Id)>, a: Id, b: Id)
    requires Connected(links, a, b)
    ensures Connected(links, b, a)
  {
    var chain :| ChainBetween(links, chain, a, b);
    var back := seq(|chain|, k requires 0 <= k < |chain| => chain[|chain| - 1 - k]);
    forall k | 0 <= k < |back| - 1
      ensures Linked(links, back[k], back[k + 1])
    {
      assert Linked(links, chain[|chain| - 2 - k], chain[|chain| - 2 - k + 1]);
    }
    assert ChainBetween(links, back, b, a);
  }

  lemma LinkConnects(links: set<(Id, Id)>, a: Id, b: Id)
    requires Linked(links, a, b)
    ensures Connected(links, a, b)
  {
    assert ChainBetween(links, [a, b], a, b);
  }

  lemma ConnectedGrows(links: set<(Id, Id)>, more: set<(Id, Id)>, a: Id, b: Id)
    requires Connected(links, a, b) && links <= more
    ensures Connected(more, a, b)
  {
    var chain :| ChainBetween(links, chain, a, b);
    assert forall k | 0 <= k < |chain| - 1 :: Linked(links, chain[k], chain[k + 1]);
    assert ChainBetween(more, chain, a, b);
  }

  /** If every link stays within a class of `f`, so does every chain. */
  lemma {:induction false} ChainStays(links: set<(Id, Id)>, f: map<Id, Id>, chain: seq<Id>, a: Id, b: Id)
    requires ChainBetween(links, chain, a, b) && a in f
    requires forall x, y | (x, y) in links :: x in f && y in f && f[x] == f[y]
    ensures b in f && f[a] == f[b]
    decreases |chain|
  {
    if |chain| > 1 {
      var rest := chain[1..];
      assert Linked(links, chain[0], chain[1]);
      forall k | 0 <= k < |rest| - 1
        ensures Linked(links, rest[k], rest[k + 1])
      {
        assert Linked(links, chain[k + 1], chain[k + 1 + 1]);
      }
      ChainStays(links, f, rest, chain[1], b);
    }
  }

  // ---- The structure ----

  /**
   `root` names the root of every id, `depth` counts the steps to it: both are what makes the
   parent links well founded, and neither exists at run time.
   */
  ghost predicate Rooted(parent: map<Id, Id>, root: map<Id, Id>, depth: map<Id, nat>) {
    && root.Keys == parent.Keys && depth.Keys == parent.Keys
    && (forall id {:trigger RootedAt(parent, root, depth, id)} | id in parent :: RootedAt(parent, root, depth, id))
  }

  ghost predicate RootedAt(parent: map<Id, Id>, root: map<Id, Id>, depth: map<Id, nat>, id: Id)
    requires root.Keys == parent.Keys && depth.Keys == parent.Keys && id in parent
  {
    && parent[id] in parent && root[id] in parent
    && parent[root[id]] == root[id] && root[root[id]] == root[id] && root[parent[id]] == root[id]
    && if parent[id] == id then root[id] == id && depth[id] == 0 else depth[parent[id]] < depth[id]
  }

  /** Two ids share a root exactly when recorded unions connect them. */
  ghost predicate Faithful(root: map<Id, Id>, links: set<(Id, Id)>) {
    && (forall a, b | (a, b) in links :: a in root && b in root)
    && (forall a, b | a in root && b in root :: root[a] == root[b] <==> Connected(links, a, b))
  }

  lemma FaithfulAdd(root: map<Id, Id>, links: set<(Id, Id)>, id: Id)
    requires Faithful(root, links) && id !in root && root.Values <= root.Keys
    ensures Faithful(root[id := id], links)
  {
    var after := root[id := id];
    forall a, b | a in after && b in after
      ensures after[a] == after[b] <==> Connected(links, a, b)
    {
      if a == b {
        ConnectedRefl(links, a);
      } else if a == id {
        Alone(links, id, b);
      } else if b == id {
        Alone(links, id, a);
        if Connected(links, a, id) {
          ConnectedSym(links, a, id);
        }
      }
    }
  }

  lemma FirstLink(links: set<(Id, Id)>, chain: seq<Id>)
    requires |chain| > 1 && IsChain(links, chain)
    ensures Linked(links, chain[0], chain[1])
  {
    assert Linked(links, chain[0], chain[0 + 1]);
  }

  /** An id that no union mentions is connected to itself only. */
  lemma Alone(links: set<(Id, Id)>, id: Id, other: Id)
    requires forall a, b | (a, b) in links :: a != id && b != id
    requires other != id
    ensures !Connected(links, id, other)
  {
    if Connected(links, id, other) {
      var chain :| ChainBetween(links, chain, id, other);
      FirstLink(links, chain);
    }
  }

  /** `a`'s class joins `b`'s. */
  ghost function Merge(root: map<Id, Id>, a: Id, b: Id): (merged: map<Id, Id>)
    requires a in root && b in root
    ensures merged.Keys == root.Keys
  {
    map id | id in root :: if root[id] == root[a] then root[b] else root[id]
  }

  lemma FaithfulUnion(root: map<Id, Id>, links: set<(Id, Id)>, a: Id, b: Id)
    requires Faithful(root, links) && a in root && b in root
    ensures Faithful(Merge(root, a, b), links + {(a, b)})
  {
    var after, more := Merge(root, a, b), links + {(a, b)};
    forall x, y | x in after && y in after
      ensures after[x] == after[y] <==> Connected(more, x, y)
    {
      if after[x] == after[y] {
        SameClassConnected(root, links, a, b, x, y);
      }
      if Connected(more, x, y) {
        var chain :| ChainBetween(more, chain, x, y);
        forall v, w | (v, w) in more
          ensures v in after && w in after && after[v] == after[w]
        {
          if (v, w) in links {
            LinkConnects(links, v, w);
          }
        }
        ChainStays(more, after, chain, x, y);
      }
    }
  }

  lemma SameClassConnected(root: map<Id, Id>, links: set<(Id, Id)>, a: Id, b: Id, x: Id, y: Id)
    requires Faithful(root, links) && a in root && b in root && x in root && y in root
    requires Merge(root, a, b)[x] == Merge(root, a, b)[y]
    ensures Connected(links + {(a, b)}, x, y)
  {
    var more := links + {(a, b)};
    LinkConnects(more, a, b);
    ConnectedSym(more, a, b);
    if root[x] == root[y] {
      ConnectedGrows(links, more, x, y);
    } else if root[x] == root[a] {
      ConnectedGrows(links, more, x, a);
      ConnectedGrows(links, more, b, y);
      ConnectedTrans(more, x, a, b);
      ConnectedTrans(more, x, b, y);
    } else {
      ConnectedGrows(links, more, x, b);
      ConnectedGrows(links, more, a, y);
      ConnectedTrans(more, x, b, a);
      ConnectedTrans(more, x, a, y);
    }
  }

  // ---- What each update of the parent links keeps ----

  lemma RootedAdd(parent: map<Id, Id>, root: map<Id, Id>, depth: map<Id, nat>, id: Id)
    requires Rooted(parent, root, depth) && id !in parent
    ensures Rooted(parent[id := id], root[id := id], depth[id := 0])
    ensures root.Values <= root.Keys
  {
    forall other | other in root
      ensures root[other] in root
    {
      assert RootedAt(parent, root, depth, other);
    }
    var newParent, newRoot, newDepth := parent[id := id], root[id := id], depth[id := 0];
    forall other | other in newParent
      ensures RootedAt(newParent, newRoot, newDepth, other)
    {
      if other != id {
        assert RootedAt(parent, root, depth, other);
      }
    }
  }

  /** Linking an id straight to its root. */
  lemma RootedCompress(parent: map<Id, Id>, root: map<Id, Id>, depth: map<Id, nat>, id: Id)
    requires Rooted(parent, root, depth) && id in parent
    ensures Rooted(parent[id := root[id]], root, depth)
  {
    assert RootedAt(parent, root, depth, id);
    assert RootedAt(parent, root, depth, root[id]);
    forall other | other in parent
      ensures RootedAt(parent[id := root[id]], root, depth, other)
    {
      assert RootedAt(parent, root, depth, other);
    }
  }

  /** Linking the root of one class to the root of another deepens the first class by one. */
  lemma RootedLink(parent: map<Id, Id>, root: map<Id, Id>, depth: map<Id, nat>, a: Id, b: Id)
    requires Rooted(parent, root, depth) && a in parent && b in parent && root[a] != root[b]
    ensures Rooted(parent[root[a] := root[b]], Merge(root, a, b), Deepen(root, depth, a))
  {
    assert RootedAt(parent, root, depth, a);
    assert RootedAt(parent, root, depth, b);
    assert RootedAt(parent, root, depth, root[b]);
    var newParent, newRoot, newDepth := parent[root[a] := root[b]], Merge(root, a, b), Deepen(root, depth, a);
    forall id | id in parent
      ensures RootedAt(newParent, newRoot, newDepth, id)
    {
      assert RootedAt(parent, root, depth, id);
      assert RootedAt(parent, root, depth, root[id]);
      assert RootedAt(parent, root, depth, parent[id]);
    }
  }

  ghost function Deepen(root: map<Id, Id>, depth: map<Id, nat>, a: Id): map<Id, nat>
    requires a in root && root.Keys == depth.Keys
  {
    map id | id in depth :: if root[id] == root[a] then depth[id] + 1 else depth[id]
  }

  lemma SameKeys(parent: map<Id, Id>, root: map<Id, Id>, depth: map<Id, nat>)
    requires Rooted(parent, root, depth)
    ensures root.Keys == parent.Keys == depth.Keys
  {
  }

  lemma RootKnown(parent: map<Id, Id>, root: map<Id, Id>, depth: map<Id, nat>, id: Id)
    requires Rooted(parent, root, depth) && id in parent
    ensures parent.Keys == root.Keys == depth.Keys && root[id] in parent
  {
    assert RootedAt(parent, root, depth, id);
  }

  lemma MergeSame(root: map<Id, Id>, a: Id, b: Id)
    requires a in root && b in root && root[a] == root[b]
    ensures Merge(root, a, b) == root
  {
  }

  function SetOf(ids: seq<Id>): set<Id> {
    set id | id in ids
  }

  lemma SetOfNone()
    ensures SetOf([]) == {}
  {
  }

  lemma SetOfMore(ids: seq<Id>, id: Id)
    ensures SetOf(ids + [id]) == SetOf(ids) + {id}
    ensures id !in SetOf(ids) ==> forall i | 0 <= i < |ids| :: ids[i] != id
  {
  }

  class Forest {
    var parent: map<Id, Id>
    ghost var root: map<Id, Id>
    ghost var depth: map<Id, nat>
    ghost var links: set<(Id, Id)>   // every union asked for so far

    ghost predicate Valid()
      reads this
    {
      Rooted(parent, root, depth) && Faithful(root, links)
    }

    constructor ()
      ensures Valid() && parent == map[] && root == map[] && links == {}
    {
      parent, root, depth, links := map[], map[], map[], {};
    }

    /** Adding an id leaves every class as it is, and puts a new id in a class of its own. */
    method Add(id: Id)
      requires Valid()
      modifies this
      ensures Valid() && links == old(links)
      ensures root == (if id in old(root) then old(root) else old(root)[id := id])
      ensures parent.Keys == old(parent.Keys) + {id}
    {
      hide Faithful;
      if id !in parent {
        RootedAdd(parent, root, depth, id);
        FaithfulAdd(root, links, id);
        parent := parent[id := id];
        root := root[id := id];
        depth := depth[id := 0];
      }
    }

    /**
     The root of `id`'s class. An unknown id is added, a known one is linked straight to its root;
     neither moves any id to another class.
     */
    method Find(id: Id) returns (found: Id)
      requires Valid()
      modifies this
      ensures Valid() && links == old(links)
      ensures root == (if id in old(root) then old(root) else old(root)[id := id])
      ensures parent.Keys == old(parent.Keys) + {id} == root.Keys
      ensures found == root[id] && parent[id] == found
    {
      hide Faithful;
      found := id;
      while found in parent && parent[found] != found
        invariant parent == old(parent) && root == old(root) && depth == old(depth) && links == old(links)
        invariant id in parent ==> found in parent && root[found] == root[id]
        invariant id !in parent ==> found == id
        decreases if found in parent then depth[found] else 0
      {
        assert RootedAt(parent, root, depth, found);
        found := parent[found];
      }
      if id in parent {
        assert RootedAt(parent, root, depth, found);
        RootedCompress(parent, root, depth, id);
      } else {
        RootedAdd(parent, root, depth, id);
        FaithfulAdd(root, links, id);
        root := root[id := id];
        depth := depth[id := 0];
      }
      parent := parent[id := found];
    }

    /** Every id, once; the order is of no consequence here. */
    method Ids() returns (ids: seq<Id>)
      ensures SetOf(ids) == parent.Keys
      ensures forall i, j | 0 <= i < j < |ids| :: ids[i] != ids[j]
    {
      ids := [];
      hide SetOf;
      SetOfNone();
      var left := parent.Keys;
      while left != {}
        invariant left + SetOf(ids) == parent.Keys && left !! SetOf(ids)
        invariant forall i, j | 0 <= i < j < |ids| :: ids[i] != ids[j]
        decreases |left|
      {
        var id :| id in left;
        left := left - {id};
        SetOfMore(ids, id);
        ids := ids + [id];
      }
    }

    /** Merges the classes of `a` and `b`, and no others. */
    method Union(a: Id, b: Id)
      requires Valid()
      modifies this
      ensures Valid() && links == old(links) + {(a, b)}
      ensures parent.Keys == old(parent.Keys) + {a, b} == root.Keys
    {
      hide Rooted, Faithful;
      var rootA := Find(a);
      var rootB := Find(b);
      LinkRoots(rootA, rootB, a, b);
    }

    method LinkRoots(rootA: Id, rootB: Id, ghost a: Id, ghost b: Id)
      requires Valid() && a in root && b in root && rootA == root[a] && rootB == root[b]
      modifies this
      ensures Valid() && links == old(links) + {(a, b)}
      ensures parent.Keys == old(parent.Keys) == root.Keys
    {
      RootKnown(parent, root, depth, a);
      hide Rooted, Faithful, Merge, Deepen;
      FaithfulUnion(root, links, a, b);
      if rootA != rootB {
        RootedLink(parent, root, depth, a, b);
        depth := Deepen(root, depth, a);
        parent := parent[rootA := rootB];
      } else {
        MergeSame(root, a, b);
      }
      root := Merge(root, a, b);
      links := links + {(a, b)};
    }
  }
}
