/**
 * The conflict graph between a template and a block, and what its connected components are.
 * Template-only transactions are on one side, block-only transactions on the other, and every
 * outpoint spent on both sides is an edge between its two spenders.
 */
module ConflictGraph {
  import opened Basics
  import opened Ledger

  datatype Graph = Graph(edges: set<OutPoint>, tmpl: map<OutPoint, TxInfo>, blk: map<OutPoint, TxInfo>) {
    ghost predicate Valid() {
      edges <= tmpl.Keys && edges <= blk.Keys
    }
    function With(o: OutPoint): Graph {
      this.(edges := edges + {o})
    }
  }

  datatype Node = InTemplate(tx: TxInfo) | InBlock(tx: TxInfo)

  // ---------------------------------------------------------------- reachability

  ghost predicate Joins(g: Graph, o: OutPoint, a: Node, b: Node)
    requires g.Valid()
  {
    o in g.edges && {a, b} == {InTemplate(g.tmpl[o]), InBlock(g.blk[o])}
  }

  ghost predicate Adjacent(g: Graph, a: Node, b: Node)
    requires g.Valid()
  {
    exists o :: Joins(g, o, a, b)
  }

  ghost predicate IsChain(g: Graph, p: seq<Node>)
    requires g.Valid()
  {
    p != [] && forall i :: 0 <= i < |p| - 1 ==> Adjacent(g, p[i], p[i + 1])
  }

  ghost predicate ChainBetween(g: Graph, p: seq<Node>, a: Node, b: Node)
    requires g.Valid()
  {
    IsChain(g, p) && p[0] == a && p[|p| - 1] == b
  }

  /** A chain of outpoints spent on both sides links `a` and `b`. */
  ghost predicate Linked(g: Graph, a: Node, b: Node)
    requires g.Valid()
  {
    exists p :: ChainBetween(g, p, a, b)
  }

  lemma LinkedToItself(g: Graph, a: Node)
    requires g.Valid()
    ensures Linked(g, a, a)
  {
    assert ChainBetween(g, [a], a, a);
  }

  lemma EdgeLinks(g: Graph, o: OutPoint)
    requires g.Valid() && o in g.edges
    ensures Linked(g, InTemplate(g.tmpl[o]), InBlock(g.blk[o]))
  {
    var a, b := InTemplate(g.tmpl[o]), InBlock(g.blk[o]);
    assert Joins(g, o, a, b);
    assert ChainBetween(g, [a, b], a, b);
  }

  lemma LinkedSymmetric(g: Graph, a: Node, b: Node)
    requires g.Valid() && Linked(g, a, b)
    ensures Linked(g, b, a)
  {
    var p :| ChainBetween(g, p, a, b);
    var r := Reversed(p);
    forall i | 0 <= i < |r| - 1
      ensures Adjacent(g, r[i], r[i + 1])
    {
      var k := |p| - 2 - i;
      assert r[i] == p[k + 1] && r[i + 1] == p[k];
      assert Adjacent(g, p[k], p[k + 1]);
      var o :| Joins(g, o, p[k], p[k + 1]);
      assert Joins(g, o, p[k + 1], p[k]);
    }
    assert ChainBetween(g, r, b, a);
  }

  lemma LinkedTransitive(g: Graph, a: Node, b: Node, c: Node)
    requires g.Valid() && Linked(g, a, b) && Linked(g, b, c)
    ensures Linked(g, a, c)
  {
    var p :| ChainBetween(g, p, a, b);
    var q :| ChainBetween(g, q, b, c);
    var r := p + q[1..];
    forall i | 0 <= i < |r| - 1
      ensures Adjacent(g, r[i], r[i + 1])
    {
      if i < |p| - 1 {
      } else {
        var k := i - |p| + 1;
        assert r[i] == q[k] && r[i + 1] == q[k + 1];
      }
    }
    assert ChainBetween(g, r, a, c);
  }

  lemma LinkedMonotone(g: Graph, o: OutPoint, a: Node, b: Node)
    requires g.Valid() && g.With(o).Valid() && Linked(g, a, b)
    ensures Linked(g.With(o), a, b)
  {
    var p :| ChainBetween(g, p, a, b);
    forall i | 0 <= i < |p| - 1
      ensures Adjacent(g.With(o), p[i], p[i + 1])
    {
      assert Adjacent(g, p[i], p[i + 1]);
      var e :| Joins(g, e, p[i], p[i + 1]);
      assert Joins(g.With(o), e, p[i], p[i + 1]);
    }
    assert ChainBetween(g.With(o), p, a, b);
  }

  // ---------------------------------------------------------------- components

  /** One conflict set with the order of its vectors forgotten. */
  datatype Component = Component(ts: set<TxInfo>, bs: set<TxInfo>, os: set<OutPoint>)

  ghost function Nodes(c: Component): set<Node> {
    (set t | t in c.ts :: InTemplate(t)) + (set b | b in c.bs :: InBlock(b))
  }

  ghost function TemplateEnds(g: Graph, os: set<OutPoint>): set<TxInfo>
    requires os <= g.tmpl.Keys
  {
    set o | o in os :: g.tmpl[o]
  }

  ghost function BlockEnds(g: Graph, os: set<OutPoint>): set<TxInfo>
    requires os <= g.blk.Keys
  {
    set o | o in os :: g.blk[o]
  }

  /** The component of an edge by definition: every edge that a chain links to it, with the spenders. */
  ghost function ComponentOf(g: Graph, o: OutPoint): Component
    requires g.Valid() && o in g.edges
  {
    var os := set e | e in g.edges && Linked(g, InTemplate(g.tmpl[o]), InTemplate(g.tmpl[e]));
    Component(TemplateEnds(g, os), BlockEnds(g, os), os)
  }

  ghost function Components(g: Graph): set<Component>
    requires g.Valid()
  {
    set o | o in g.edges :: ComponentOf(g, o)
  }

  ghost predicate AllLinked(g: Graph, s: set<Node>)
    requires g.Valid()
  {
    forall a, b :: a in s && b in s ==> Linked(g, a, b)
  }

  /** A non-empty set of edges, exactly the spenders of these edges, all linked to each other. */
  ghost predicate IsLinkedGroup(g: Graph, c: Component)
    requires g.Valid()
  {
    && c.os != {} && c.os <= g.edges
    && c.ts == TemplateEnds(g, c.os) && c.bs == BlockEnds(g, c.os)
    && AllLinked(g, Nodes(c))
  }

  ghost predicate Apart(cs: seq<Component>, i: int, j: int)
    requires 0 <= i < |cs| && 0 <= j < |cs|
  {
    cs[i].ts !! cs[j].ts && cs[i].bs !! cs[j].bs && cs[i].os !! cs[j].os
  }

  ghost predicate Covered(cs: seq<Component>, o: OutPoint) {
    exists i :: 0 <= i < |cs| && o in cs[i].os
  }

  /** What the grouping loop keeps: linked groups, pairwise disjoint, covering the edges seen so far. */
  ghost predicate Partition(g: Graph, cs: seq<Component>)
    requires g.Valid()
  {
    && (forall i {:trigger IsLinkedGroup(g, cs[i])} :: 0 <= i < |cs| ==> IsLinkedGroup(g, cs[i]))
    && (forall i, j {:trigger Apart(cs, i, j)} :: 0 <= i < |cs| && 0 <= j < |cs| && i != j ==> Apart(cs, i, j))
    && (forall o {:trigger Covered(cs, o)} :: o in g.edges ==> Covered(cs, o))
  }

  // ---------------------------------------------------------------- the invariant determines the components

  lemma EdgeInOneGroup(g: Graph, cs: seq<Component>, i: int, o: OutPoint)
    requires g.Valid() && Partition(g, cs) && 0 <= i < |cs| && o in g.edges
    requires g.tmpl[o] in cs[i].ts || g.blk[o] in cs[i].bs
    ensures o in cs[i].os
  {
    assert Covered(cs, o);
    var k :| 0 <= k < |cs| && o in cs[k].os;
    assert IsLinkedGroup(g, cs[k]);
    assert k != i ==> Apart(cs, i, k);
  }

  lemma AdjacentStaysInside(g: Graph, cs: seq<Component>, i: int, a: Node, b: Node)
    requires g.Valid() && Partition(g, cs) && 0 <= i < |cs|
    requires a in Nodes(cs[i]) && Adjacent(g, a, b)
    ensures b in Nodes(cs[i])
  {
    var o :| Joins(g, o, a, b);
    var t, u := InTemplate(g.tmpl[o]), InBlock(g.blk[o]);
    assert a in {t, u} && b in {t, u};
    EdgeInOneGroup(g, cs, i, o);
    assert IsLinkedGroup(g, cs[i]);
  }

  lemma {:induction false} ChainStaysInside(g: Graph, cs: seq<Component>, i: int, p: seq<Node>)
    requires g.Valid() && Partition(g, cs) && 0 <= i < |cs|
    requires IsChain(g, p) && p[0] in Nodes(cs[i])
    ensures p[|p| - 1] in Nodes(cs[i])
  {
    if |p| == 1 {
    } else {
      var front := p[..|p| - 1];
      forall k | 0 <= k < |front| - 1 ensures Adjacent(g, front[k], front[k + 1]) {
        assert Adjacent(g, p[k], p[k + 1]);
      }
      ChainStaysInside(g, cs, i, front);
      assert Adjacent(g, p[|p| - 2], p[|p| - 2 + 1]);
      AdjacentStaysInside(g, cs, i, p[|p| - 2], p[|p| - 1]);
    }
  }

  /** Two transactions are in the same set if and only if a chain links them. */
  lemma SameSetIffLinked(g: Graph, cs: seq<Component>, i: int, a: Node, b: Node)
    requires g.Valid() && Partition(g, cs) && 0 <= i < |cs|
    requires a in Nodes(cs[i])
    ensures b in Nodes(cs[i]) <==> Linked(g, a, b)
  {
    if Linked(g, a, b) {
      var p :| ChainBetween(g, p, a, b);
      ChainStaysInside(g, cs, i, p);
    } else {
      assert IsLinkedGroup(g, cs[i]);
    }
  }

  lemma GroupIsComponent(g: Graph, cs: seq<Component>, i: int, o: OutPoint)
    requires g.Valid() && Partition(g, cs) && 0 <= i < |cs| && o in cs[i].os
    ensures o in g.edges && cs[i] == ComponentOf(g, o)
  {
    var c := cs[i];
    assert IsLinkedGroup(g, c);
    var t := InTemplate(g.tmpl[o]);
    assert t in Nodes(c);
    forall e | e in g.edges
      ensures e in c.os <==> Linked(g, t, InTemplate(g.tmpl[e]))
    {
      SameSetIffLinked(g, cs, i, t, InTemplate(g.tmpl[e]));
      if Linked(g, t, InTemplate(g.tmpl[e])) {
        EdgeInOneGroup(g, cs, i, e);
      }
    }
    assert c.os == ComponentOf(g, o).os;
  }

  /** A partition is exactly the set of connected components, each listed once. */
  lemma PartitionIsComponents(g: Graph, cs: seq<Component>)
    requires g.Valid() && Partition(g, cs)
    ensures Elements(cs) == Components(g)
    ensures NoDup(cs)
  {
    forall c | c in cs ensures c in Components(g) {
      var i :| 0 <= i < |cs| && cs[i] == c;
      assert IsLinkedGroup(g, cs[i]);
      var o :| o in c.os;
      GroupIsComponent(g, cs, i, o);
    }
    forall o | o in g.edges ensures ComponentOf(g, o) in cs {
      assert Covered(cs, o);
      var i :| 0 <= i < |cs| && o in cs[i].os;
      GroupIsComponent(g, cs, i, o);
    }
    forall i, j | 0 <= i < j < |cs| ensures cs[i] != cs[j] {
      assert IsLinkedGroup(g, cs[i]) && Apart(cs, i, j);
    }
  }

  /** Any two partitions of one graph hold the same sets: the visiting order leaves no trace. */
  lemma PartitionsAgree(g: Graph, cs: seq<Component>, ds: seq<Component>)
    requires g.Valid() && Partition(g, cs) && Partition(g, ds)
    ensures Elements(cs) == Elements(ds)
    ensures |cs| == |ds|
  {
    PartitionIsComponents(g, cs);
    PartitionIsComponents(g, ds);
    NoDupSize(cs);
    NoDupSize(ds);
  }

  // ---------------------------------------------------------------- one more edge

  lemma LinkedSetsJoin(g: Graph, s: set<Node>, t: set<Node>, x: Node)
    requires g.Valid() && AllLinked(g, s) && AllLinked(g, t)
    requires x in s && x in t
    ensures AllLinked(g, s + t)
  {
    forall a, b | a in s + t && b in s + t ensures Linked(g, a, b) {
      assert Linked(g, a, x) && Linked(g, x, b);
      LinkedTransitive(g, a, x, b);
    }
  }

  lemma EndsAreLinked(g: Graph, o: OutPoint)
    requires g.Valid() && o in g.edges
    ensures AllLinked(g, {InTemplate(g.tmpl[o]), InBlock(g.blk[o])})
  {
    var t, b := InTemplate(g.tmpl[o]), InBlock(g.blk[o]);
    EdgeLinks(g, o);
    LinkedSymmetric(g, t, b);
    LinkedToItself(g, t);
    LinkedToItself(g, b);
  }

  lemma LinkedGroupMonotone(g: Graph, o: OutPoint, c: Component)
    requires g.Valid() && g.With(o).Valid() && IsLinkedGroup(g, c)
    ensures IsLinkedGroup(g.With(o), c)
  {
    forall a, b | a in Nodes(c) && b in Nodes(c) ensures Linked(g.With(o), a, b) {
      LinkedMonotone(g, o, a, b);
    }
  }

  function Single(g: Graph, o: OutPoint): Component
    requires o in g.tmpl && o in g.blk
  {
    Component({g.tmpl[o]}, {g.blk[o]}, {o})
  }

  function Union(c: Component, d: Component): Component {
    Component(c.ts + d.ts, c.bs + d.bs, c.os + d.os)
  }

  /** Does the set already hold one of the edge's two spenders? */
  predicate Touches(g: Graph, o: OutPoint, c: Component)
    requires o in g.tmpl && o in g.blk
  {
    g.tmpl[o] in c.ts || g.blk[o] in c.bs
  }

  lemma SingleIsLinkedGroup(g: Graph, o: OutPoint)
    requires g.Valid() && o in g.edges
    ensures IsLinkedGroup(g, Single(g, o))
  {
    EndsAreLinked(g, o);
    assert Nodes(Single(g, o)) == {InTemplate(g.tmpl[o]), InBlock(g.blk[o])};
  }

  lemma UnionIsLinkedGroup(g: Graph, o: OutPoint, c: Component)
    requires g.Valid() && o in g.edges && IsLinkedGroup(g, c) && Touches(g, o, c)
    ensures IsLinkedGroup(g, Union(c, Single(g, o)))
  {
    var s := Single(g, o);
    SingleIsLinkedGroup(g, o);
    var x := if g.tmpl[o] in c.ts then InTemplate(g.tmpl[o]) else InBlock(g.blk[o]);
    LinkedSetsJoin(g, Nodes(c), Nodes(s), x);
    assert Nodes(Union(c, s)) == Nodes(c) + Nodes(s);
  }

  lemma TwoUnionsAreLinkedGroup(g: Graph, o: OutPoint, c: Component, d: Component)
    requires g.Valid() && o in g.edges
    requires IsLinkedGroup(g, c) && IsLinkedGroup(g, d) && Touches(g, o, c) && Touches(g, o, d)
    ensures IsLinkedGroup(g, Union(Union(c, Single(g, o)), d))
  {
    var u := Union(c, Single(g, o));
    UnionIsLinkedGroup(g, o, c);
    var x := if g.tmpl[o] in d.ts then InTemplate(g.tmpl[o]) else InBlock(g.blk[o]);
    LinkedSetsJoin(g, Nodes(u), Nodes(d), x);
    assert Nodes(Union(u, d)) == Nodes(u) + Nodes(d);
  }

  /** No set holds either spender: the edge starts a set of its own. */
  lemma CreateKeepsPartition(g: Graph, o: OutPoint, cs: seq<Component>)
    requires g.Valid() && g.With(o).Valid() && Partition(g, cs) && o !in g.edges
    requires forall i :: 0 <= i < |cs| ==> !Touches(g, o, cs[i])
    ensures Partition(g.With(o), cs + [Single(g, o)])
  {
    var g', ds := g.With(o), cs + [Single(g, o)];
    forall i | 0 <= i < |ds| ensures IsLinkedGroup(g', ds[i]) {
      if i < |cs| {
        LinkedGroupMonotone(g, o, cs[i]);
      } else {
        SingleIsLinkedGroup(g', o);
      }
    }
    forall i, j | 0 <= i < |ds| && 0 <= j < |ds| && i != j ensures Apart(ds, i, j) {
      if i < |cs| && j < |cs| {
        assert Apart(cs, i, j);
      } else {
        assert IsLinkedGroup(g, cs[if i < |cs| then i else j]);
      }
    }
    CoversMore(g, o, cs, ds, |cs|);
  }

  /** Exactly one set holds a spender: it takes the edge. */
  lemma ExtendKeepsPartition(g: Graph, o: OutPoint, cs: seq<Component>, k: int)
    requires g.Valid() && g.With(o).Valid() && Partition(g, cs) && o !in g.edges
    requires 0 <= k < |cs|
    requires forall i :: 0 <= i < |cs| ==> (Touches(g, o, cs[i]) <==> i == k)
    ensures Partition(g.With(o), cs[k := Union(cs[k], Single(g, o))])
  {
    var g', ds := g.With(o), cs[k := Union(cs[k], Single(g, o))];
    forall i | 0 <= i < |ds| ensures IsLinkedGroup(g', ds[i]) {
      LinkedGroupMonotone(g, o, cs[i]);
      if i == k {
        UnionIsLinkedGroup(g', o, cs[k]);
      }
    }
    forall i, j | 0 <= i < |ds| && 0 <= j < |ds| && i != j ensures Apart(ds, i, j) {
      assert Apart(cs, i, j);
      assert IsLinkedGroup(g, cs[if i == k then j else i]);
    }
    CoversMore(g, o, cs, ds, k);
  }

  function Without<T>(s: seq<T>, k: int): seq<T>
    requires 0 <= k < |s|
  {
    s[..k] + s[k + 1..]
  }

  lemma WithoutKeepsApart(cs: seq<Component>, l: int, i: int, j: int)
    requires 0 <= l < |cs| && 0 <= i < |cs| - 1 && 0 <= j < |cs| - 1 && i != j
    requires Apart(cs, if i < l then i else i + 1, if j < l then j else j + 1)
    ensures Apart(Without(cs, l), i, j)
  {
    WithoutIndex(cs, l);
  }

  lemma MergedGroupsAreApart(g: Graph, o: OutPoint, cs: seq<Component>, k: int, l: int, i: int, j: int)
    requires g.Valid() && g.With(o).Valid() && Partition(g, cs) && o !in g.edges
    requires 0 <= k < l < |cs|
    requires forall n :: 0 <= n < |cs| ==> (Touches(g, o, cs[n]) <==> n == k || n == l)
    requires 0 <= i < |cs| && 0 <= j < |cs| && i != j && i != l && j != l
    ensures Apart(cs[k := Union(Union(cs[k], Single(g, o)), cs[l])], i, j)
  {
    assert Apart(cs, i, j) && Apart(cs, i, l) && Apart(cs, l, j);
    assert IsLinkedGroup(g, cs[if i == k then j else i]);
  }

  lemma MergedGroupsAreLinked(g: Graph, o: OutPoint, cs: seq<Component>, k: int, l: int, i: int)
    requires g.Valid() && g.With(o).Valid() && Partition(g, cs)
    requires 0 <= k < l < |cs| && Touches(g, o, cs[k]) && Touches(g, o, cs[l]) && 0 <= i < |cs| && i != l
    ensures IsLinkedGroup(g.With(o), cs[k := Union(Union(cs[k], Single(g, o)), cs[l])][i])
  {
    assert IsLinkedGroup(g, cs[i]) && IsLinkedGroup(g, cs[l]);
    LinkedGroupMonotone(g, o, cs[i]);
    if i == k {
      LinkedGroupMonotone(g, o, cs[l]);
      TwoUnionsAreLinkedGroup(g.With(o), o, cs[k], cs[l]);
    }
  }

  /** Two sets hold one spender each: the first absorbs the second, which disappears. */
  lemma MergeKeepsPartition(g: Graph, o: OutPoint, cs: seq<Component>, k: int, l: int)
    requires g.Valid() && g.With(o).Valid() && Partition(g, cs) && o !in g.edges
    requires 0 <= k < l < |cs|
    requires forall i :: 0 <= i < |cs| ==> (Touches(g, o, cs[i]) <==> i == k || i == l)
    ensures Partition(g.With(o), Without(cs[k := Union(Union(cs[k], Single(g, o)), cs[l])], l))
  {
    var g', es := g.With(o), cs[k := Union(Union(cs[k], Single(g, o)), cs[l])];
    var ds := Without(es, l);
    WithoutIndex(es, l);
    forall i | 0 <= i < |ds| ensures IsLinkedGroup(g', ds[i]) {
      MergedGroupsAreLinked(g, o, cs, k, l, if i < l then i else i + 1);
    }
    forall i, j | 0 <= i < |ds| && 0 <= j < |ds| && i != j ensures Apart(ds, i, j) {
      MergedGroupsAreApart(g, o, cs, k, l, if i < l then i else i + 1, if j < l then j else j + 1);
      WithoutKeepsApart(es, l, i, j);
    }
    forall e | e in g'.edges ensures Covered(ds, e) {
      MergeCovers(g, o, cs, k, l, e);
    }
  }

  lemma MergeCovers(g: Graph, o: OutPoint, cs: seq<Component>, k: int, l: int, e: OutPoint)
    requires g.Valid() && g.With(o).Valid() && Partition(g, cs)
    requires 0 <= k < l < |cs| && e in g.With(o).edges
    ensures Covered(Without(cs[k := Union(Union(cs[k], Single(g, o)), cs[l])], l), e)
  {
    var es := cs[k := Union(Union(cs[k], Single(g, o)), cs[l])];
    var ds := Without(es, l);
    WithoutIndex(es, l);
    if e == o {
      assert e in ds[k].os;
    } else {
      assert Covered(cs, e);
      var i :| 0 <= i < |cs| && e in cs[i].os;
      var i' := if i == l then k else if i < l then i else i - 1;
      assert e in ds[i'].os;
    }
  }

  lemma WithoutIndex<T>(s: seq<T>, k: int)
    requires 0 <= k < |s|
    ensures |Without(s, k)| == |s| - 1
    ensures forall i :: 0 <= i < |s| - 1 ==> Without(s, k)[i] == s[if i < k then i else i + 1]
  {
  }

  lemma CoversMore(g: Graph, o: OutPoint, cs: seq<Component>, ds: seq<Component>, k: int)
    requires g.Valid() && g.With(o).Valid() && Partition(g, cs)
    requires 0 <= k < |ds| && |cs| <= |ds| && o in ds[k].os
    requires forall i :: 0 <= i < |cs| ==> cs[i].os <= ds[i].os
    ensures forall e :: e in g.With(o).edges ==> Covered(ds, e)
  {
    forall e | e in g.With(o).edges ensures Covered(ds, e) {
      if e != o {
        assert Covered(cs, e);
        var i :| 0 <= i < |cs| && e in cs[i].os;
        assert e in ds[i].os;
      }
    }
  }
}
