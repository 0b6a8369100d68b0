/** Communication graphs over ranks 0..n-1, and the shape an all-reduce needs:
    a reduce in-tree and a broadcast out-tree with the same root. */
module Graphs {

  /** Adjacency in both directions plus the self-loop marks. */
  datatype Graph = Graph(selfLoop: seq<bool>, nexts: seq<seq<nat>>, prevs: seq<seq<nat>>)

  datatype GraphPair = GraphPair(reduce: Graph, bcast: Graph)

  function Elems(s: seq<nat>): (r: set<nat>)
    ensures forall x :: x in r <==> x in s
  {
    set x | x in s
  }

  /** `up` leads every vertex but the root to its one parent, which is strictly
      nearer the root by `depth`; `down` is the inverse relation. */
  ghost predicate IsTree(n: nat, root: nat, up: seq<seq<nat>>, down: seq<seq<nat>>, depth: seq<nat>) {
    && root < n == |up| == |down| == |depth|
    && up[root] == []
    && (forall v: nat :: v < n && v != root ==> ParentOk(n, v, up, depth))
    && (forall v: nat, c: nat :: v < n && c in down[v] ==> c < n)
    && (forall v: nat, c: nat :: v < n && c < n ==> (c in down[v] <==> v in up[c]))
  }

  ghost predicate ParentOk(n: nat, v: nat, up: seq<seq<nat>>, depth: seq<nat>)
    requires v < n == |up| == |depth|
  {
    |up[v]| == 1 && up[v][0] < n && depth[up[v][0]] < depth[v]
  }

  /** The reduce graph marks every rank and flows to the root; the broadcast graph
      marks none and flows from it. */
  ghost predicate TreePair(gp: GraphPair, n: nat, root: nat, rdepth: seq<nat>, bdepth: seq<nat>) {
    && |gp.reduce.selfLoop| == n == |gp.bcast.selfLoop|
    && (forall v: nat :: v < n ==> gp.reduce.selfLoop[v] && !gp.bcast.selfLoop[v])
    && IsTree(n, root, gp.reduce.nexts, gp.reduce.prevs, rdepth)
    && IsTree(n, root, gp.bcast.prevs, gp.bcast.nexts, bdepth)
  }

  function MaxOf(s: seq<nat>): (m: nat)
    ensures forall i :: 0 <= i < |s| ==> s[i] <= m
  {
    if s == [] then 0 else
      var m := MaxOf(s[1..]);
      assert forall i :: 1 <= i < |s| ==> s[i] == s[1..][i - 1];
      if s[0] > m then s[0] else m
  }

  /** `u` is `v` or reaches it by following parents. */
  ghost predicate Reaches(n: nat, root: nat, up: seq<seq<nat>>, down: seq<seq<nat>>, depth: seq<nat>, u: nat, v: nat)
    requires IsTree(n, root, up, down, depth) && u < n
    decreases depth[u]
  {
    u == v || (u != root && (assert ParentOk(n, u, up, depth); Reaches(n, root, up, down, depth, up[u][0], v)))
  }

  lemma {:induction false} ReachesDepth(n: nat, root: nat, up: seq<seq<nat>>, down: seq<seq<nat>>, depth: seq<nat>,
                                        u: nat, v: nat)
    requires IsTree(n, root, up, down, depth) && u < n
    requires Reaches(n, root, up, down, depth, u, v)
    ensures v < n && depth[v] <= depth[u]
    decreases depth[u]
  {
    if u != v {
      assert ParentOk(n, u, up, depth);
      ReachesDepth(n, root, up, down, depth, up[u][0], v);
    }
  }

  lemma {:induction false} RootReached(n: nat, root: nat, up: seq<seq<nat>>, down: seq<seq<nat>>, depth: seq<nat>,
                                       u: nat)
    requires IsTree(n, root, up, down, depth) && u < n
    ensures Reaches(n, root, up, down, depth, u, root)
    decreases depth[u]
  {
    if u != root {
      assert ParentOk(n, u, up, depth);
      RootReached(n, root, up, down, depth, up[u][0]);
    }
  }

  /** Two children of one vertex have disjoint subtrees, and neither holds the vertex. */
  lemma {:induction false} SiblingsDisjoint(n: nat, root: nat, up: seq<seq<nat>>, down: seq<seq<nat>>, depth: seq<nat>,
                                            u: nat, a: nat, b: nat, v: nat)
    requires IsTree(n, root, up, down, depth) && u < n && v < n && a < n && b < n
    requires a in down[v] && (b == v || b in down[v]) && a != b
    requires Reaches(n, root, up, down, depth, u, a)
    ensures b == v ==> u != v
    ensures b != v ==> !Reaches(n, root, up, down, depth, u, b)
    decreases depth[u]
  {
    assert a != root && ParentOk(n, a, up, depth) && up[a] == [v] by {
      assert v in up[a];
      assert ParentOk(n, a, up, depth);
    }
    ReachesDepth(n, root, up, down, depth, u, a);
    if b != v {
      assert b != root && ParentOk(n, b, up, depth) && up[b] == [v] by {
        assert v in up[b];
        assert ParentOk(n, b, up, depth);
      }
      if u == a {
        if Reaches(n, root, up, down, depth, v, b) { ReachesDepth(n, root, up, down, depth, v, b); }
      } else if u == b {
        if Reaches(n, root, up, down, depth, v, a) { ReachesDepth(n, root, up, down, depth, v, a); }
        assert false;
      } else {
        assert ParentOk(n, u, up, depth);
        SiblingsDisjoint(n, root, up, down, depth, up[u][0], a, b, v);
      }
    }
  }

  /** A subtree is its top and the subtrees of the top's children. */
  lemma {:induction false} SubtreeStep(n: nat, root: nat, up: seq<seq<nat>>, down: seq<seq<nat>>, depth: seq<nat>,
                                       u: nat, v: nat)
    requires IsTree(n, root, up, down, depth) && u < n && v < n
    ensures Reaches(n, root, up, down, depth, u, v) <==>
            u == v || exists c :: c in down[v] && Reaches(n, root, up, down, depth, u, c)
    decreases depth[u]
  {
    if u != v && u != root {
      assert ParentOk(n, u, up, depth);
      var p := up[u][0];
      if p == v {
        assert u in down[v];
        assert Reaches(n, root, up, down, depth, u, u);
      } else {
        SubtreeStep(n, root, up, down, depth, p, v);
        if c :| c in down[v] && Reaches(n, root, up, down, depth, u, c) {
          assert Reaches(n, root, up, down, depth, p, c);
        }
      }
    }
  }

  /** With two vertices or more, the root has a child. */
  lemma RootHasChild(n: nat, root: nat, up: seq<seq<nat>>, down: seq<seq<nat>>, depth: seq<nat>) returns (c: nat)
    requires n >= 2 && IsTree(n, root, up, down, depth)
    ensures c < n && c in down[root]
  {
    var v := if root == 0 then 1 else 0;
    RootReached(n, root, up, down, depth, v);
    SubtreeStep(n, root, up, down, depth, v, root);
    c :| c in down[root] && Reaches(n, root, up, down, depth, v, c);
  }
}
