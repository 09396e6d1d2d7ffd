/**
 * Grouping of conflicting transactions: the loop that visits the conflicting outpoints and creates,
 * extends or merges conflict sets in place.
 */
module ConflictGrouping {
  import opened Basics
  import opened Ledger
  import opened ConflictGraph

  /** One conflict set under construction; its three vectors change in place. */
  class Conflict {
    var templateTxns: seq<TxInfo>
    var blockTxns: seq<TxInfo>
    var outpoints: seq<OutPoint>

    constructor (t: TxInfo, b: TxInfo, o: OutPoint)
      ensures templateTxns == [t] && blockTxns == [b] && outpoints == [o]
    {
      templateTxns, blockTxns, outpoints := [t], [b], [o];
    }

    /** The derived equality, which compares contents and not identity. */
    predicate Equals(other: Conflict)
      reads this, other
    {
      && templateTxns == other.templateTxns
      && blockTxns == other.blockTxns
      && outpoints == other.outpoints
    }

    predicate Matches(t: TxInfo, b: TxInfo)
      reads this
    {
      t in templateTxns || b in blockTxns
    }

    /** The vectors hold exactly `c`, each element once. */
    ghost predicate Holds(c: Component)
      reads this
    {
      && Enumerates(templateTxns, c.ts)
      && Enumerates(blockTxns, c.bs)
      && Enumerates(outpoints, c.os)
    }
  }

  /** Distinct objects that hold the components of `cs` in order. */
  ghost predicate Represents(conflicts: seq<Conflict>, cs: seq<Component>)
    reads conflicts
  {
    && |conflicts| == |cs|
    && NoDup(conflicts)
    && (forall i :: 0 <= i < |cs| ==> conflicts[i].Holds(cs[i]))
  }

  // ---------------------------------------------------------------- consequences of the invariant

  /** Comparing contents is as good as comparing identity: no two sets are equal. */
  lemma NoTwoEqual(g: Graph, conflicts: seq<Conflict>, cs: seq<Component>, i: int, j: int)
    requires g.Valid() && Partition(g, cs) && Represents(conflicts, cs)
    requires 0 <= i < |conflicts| && 0 <= j < |conflicts| && i != j
    ensures !conflicts[i].Equals(conflicts[j])
  {
    assert IsLinkedGroup(g, cs[i]) && Apart(cs, i, j);
  }

  /** No set of the invariant is empty, on either side or in outpoints. */
  lemma NoneEmpty(g: Graph, cs: seq<Component>, i: int)
    requires g.Valid() && Partition(g, cs) && 0 <= i < |cs|
    ensures cs[i].ts != {} && cs[i].bs != {} && cs[i].os != {}
  {
    assert IsLinkedGroup(g, cs[i]);
    var o :| o in cs[i].os;
    assert g.tmpl[o] in cs[i].ts && g.blk[o] in cs[i].bs;
  }

  /** A transaction is in at most one set. */
  lemma TransactionInOneSet(g: Graph, cs: seq<Component>, i: int, j: int, t: TxInfo, b: TxInfo)
    requires g.Valid() && Partition(g, cs)
    requires 0 <= i < |cs| && 0 <= j < |cs| && i != j
    ensures t !in cs[i].ts || t !in cs[j].ts
    ensures b !in cs[i].bs || b !in cs[j].bs
  {
    assert Apart(cs, i, j);
  }

  /** So at most two sets match the two spenders of an outpoint. */
  lemma AtMostTwoMatch(g: Graph, cs: seq<Component>, o: OutPoint, at: seq<int>)
    requires g.Valid() && Partition(g, cs) && o in g.tmpl && o in g.blk && TouchedAt(g, o, cs, at)
    ensures |at| <= 2
  {
    if |at| > 2 {
      var t, b := g.tmpl[o], g.blk[o];
      assert forall k :: 0 <= k < |at| ==> at[k] in at;
      TransactionInOneSet(g, cs, at[0], at[1], t, b);
      TransactionInOneSet(g, cs, at[0], at[2], t, b);
      TransactionInOneSet(g, cs, at[1], at[2], t, b);
    }
  }

  // ---------------------------------------------------------------- the steps of one iteration

  /** `at` lists in order the positions of the sets that hold a spender of `o`. */
  ghost predicate TouchedAt(g: Graph, o: OutPoint, cs: seq<Component>, at: seq<int>)
    requires o in g.tmpl && o in g.blk
  {
    && (forall k :: 0 <= k < |at| ==> 0 <= at[k] < |cs|)
    && (forall k, l :: 0 <= k < l < |at| ==> at[k] < at[l])
    && (forall i :: 0 <= i < |cs| ==> (Touches(g, o, cs[i]) <==> i in at))
  }

  predicate ContainsEqual(existing: seq<Conflict>, c: Conflict)
    reads existing, c
  {
    exists k :: 0 <= k < |existing| && existing[k].Equals(c)
  }

  /** The sets that hold one of the two transactions, in list order. */
  method FindExisting(ghost g: Graph, ghost o: OutPoint, conflicts: seq<Conflict>, ghost cs: seq<Component>,
                      t: TxInfo, b: TxInfo)
    returns (existing: seq<Conflict>, ghost at: seq<int>)
    requires g.Valid() && Partition(g, cs) && Represents(conflicts, cs)
    requires o in g.tmpl && o in g.blk && t == g.tmpl[o] && b == g.blk[o]
    ensures TouchedAt(g, o, cs, at)
    ensures |at| == |existing| <= 2
    ensures forall k :: 0 <= k < |at| ==> existing[k] == conflicts[at[k]]
    ensures forall c :: c in existing <==> c in conflicts && c.Matches(t, b)
  {
    existing, at := [], [];
    for n := 0 to |conflicts|
      invariant |at| == |existing|
      invariant forall k :: 0 <= k < |at| ==> 0 <= at[k] < n && existing[k] == conflicts[at[k]]
      invariant forall k, l :: 0 <= k < l < |at| ==> at[k] < at[l]
      invariant forall i :: 0 <= i < n ==> (conflicts[i].Matches(t, b) <==> i in at)
    {
      var c := conflicts[n];
      forall k | 0 <= k < |existing| ensures !existing[k].Equals(c) {
        NoTwoEqual(g, conflicts, cs, at[k], n);
      }
      if t in c.templateTxns && !ContainsEqual(existing, c) {
        existing, at := existing + [c], at + [n];
        assert existing[|existing| - 1].Equals(c);
      }
      if b in c.blockTxns && !ContainsEqual(existing, c) {
        existing, at := existing + [c], at + [n];
      }
    }
    forall i | 0 <= i < |cs| ensures Touches(g, o, cs[i]) <==> i in at {
      assert conflicts[i].Holds(cs[i]);
      assert t in conflicts[i].templateTxns <==> t in Elements(conflicts[i].templateTxns);
      assert b in conflicts[i].blockTxns <==> b in Elements(conflicts[i].blockTxns);
    }
    AtMostTwoMatch(g, cs, o, at);
  }

  lemma EnumeratesPush<T>(s: seq<T>, xs: set<T>, x: T)
    requires Enumerates(s, xs) && x !in s
    ensures Enumerates(s + [x], xs + {x})
  {
  }

  /** The only matching set takes the outpoint and whichever transaction it does not have yet. */
  method Extend(c: Conflict, ghost content: Component, t: TxInfo, b: TxInfo, o: OutPoint)
    requires c.Holds(content)
    modifies c
    ensures c.Holds(Union(content, Component({t}, {b}, {o})))
  {
    if t !in c.templateTxns {
      EnumeratesPush(c.templateTxns, content.ts, t);
      c.templateTxns := c.templateTxns + [t];
    }
    if b !in c.blockTxns {
      EnumeratesPush(c.blockTxns, content.bs, b);
      c.blockTxns := c.blockTxns + [b];
    }
    if o !in c.outpoints {
      EnumeratesPush(c.outpoints, content.os, o);
      c.outpoints := c.outpoints + [o];
    }
    assert content.ts + {t} == Elements(c.templateTxns);
    assert content.bs + {b} == Elements(c.blockTxns);
    assert content.os + {o} == Elements(c.outpoints);
  }

  lemma ElementsOfConcat<T>(s: seq<T>, t: seq<T>)
    ensures Elements(s + t) == Elements(s) + Elements(t)
  {
  }

  /** Moves the contents of the sets into three vectors that start with the new transactions and outpoint. */
  method Drain(existing: seq<Conflict>, ghost c0: Component, ghost c1: Component, t: TxInfo, b: TxInfo, o: OutPoint)
    returns (templateTxns: seq<TxInfo>, blockTxns: seq<TxInfo>, outpoints: seq<OutPoint>)
    requires |existing| == 2 && existing[0] != existing[1] && existing[0].Holds(c0) && existing[1].Holds(c1)
    modifies existing
    ensures forall k :: 0 <= k < |existing| ==>
              existing[k].templateTxns == [] && existing[k].blockTxns == [] && existing[k].outpoints == []
    ensures Component(Elements(templateTxns), Elements(blockTxns), Elements(outpoints))
            == Union(Union(c0, Component({t}, {b}, {o})), c1)
  {
    templateTxns, blockTxns, outpoints := [t], [b], [o];
    ghost var single := Component({t}, {b}, {o});
    for n := 0 to |existing|
      invariant forall k :: 0 <= k < n ==>
        existing[k].templateTxns == [] && existing[k].blockTxns == [] && existing[k].outpoints == []
      invariant forall k :: n <= k < |existing| ==> existing[k].Holds([c0, c1][k])
      invariant Component(Elements(templateTxns), Elements(blockTxns), Elements(outpoints))
        == (if n == 0 then single else if n == 1 then Union(c0, single) else Union(Union(c0, single), c1))
    {
      var c := existing[n];
      ElementsOfConcat(templateTxns, c.templateTxns);
      ElementsOfConcat(blockTxns, c.blockTxns);
      ElementsOfConcat(outpoints, c.outpoints);
      templateTxns, blockTxns, outpoints :=
        templateTxns + c.templateTxns, blockTxns + c.blockTxns, outpoints + c.outpoints;
      c.templateTxns, c.blockTxns, c.outpoints := [], [], [];
    }
  }

  ghost predicate TxidsTellApart(s: set<TxInfo>) {
    forall x, y :: x in s && y in s && x.txid == y.txid ==> x == y
  }

  lemma SortedTxnsEnumerate(txns: seq<TxInfo>)
    requires TxidsTellApart(Elements(txns))
    ensures Enumerates(SortDedupBy(txns, TxidOf, BytesLess), Elements(txns))
  {
    BytesOrder();
    assert forall x :: x in txns ==> x in Elements(txns);
    SortDedupByElements(txns, TxidOf, BytesLess);
  }

  lemma SortedOutpointsEnumerate(outpoints: seq<OutPoint>)
    ensures Enumerates(SortDedupBy(outpoints, Same, OutPointLess), Elements(outpoints))
  {
    OutPointOrder();
    SortDedupByElements(outpoints, Same, OutPointLess);
  }

  /** Several sets match: all are drained and the first receives everything, sorted and deduplicated. */
  method Merge(existing: seq<Conflict>, ghost c0: Component, ghost c1: Component, t: TxInfo, b: TxInfo, o: OutPoint)
    requires |existing| == 2 && existing[0] != existing[1] && existing[0].Holds(c0) && existing[1].Holds(c1)
    requires TxidsTellApart(c0.ts + {t} + c1.ts) && TxidsTellApart(c0.bs + {b} + c1.bs)
    modifies existing
    ensures existing[0].Holds(Union(Union(c0, Component({t}, {b}, {o})), c1))
    ensures existing[1].templateTxns == [] && existing[1].blockTxns == [] && existing[1].outpoints == []
  {
    var newTemplateTxns, newBlockTxns, newOutpoints := Drain(existing, c0, c1, t, b, o);
    SortedTxnsEnumerate(newTemplateTxns);
    SortedTxnsEnumerate(newBlockTxns);
    SortedOutpointsEnumerate(newOutpoints);
    existing[0].templateTxns := SortDedupBy(newTemplateTxns, TxidOf, BytesLess);
    existing[0].blockTxns := SortDedupBy(newBlockTxns, TxidOf, BytesLess);
    existing[0].outpoints := SortDedupBy(newOutpoints, Same, OutPointLess);
  }

  // ---------------------------------------------------------------- sweeping

  /** `retain`: keep the sets that still have template transactions. */
  function NonEmpty(conflicts: seq<Conflict>): seq<Conflict>
    reads conflicts
  {
    if conflicts == [] then []
    else
      var front := NonEmpty(conflicts[..|conflicts| - 1]);
      var last := conflicts[|conflicts| - 1];
      if last.templateTxns == [] then front else front + [last]
  }

  lemma {:induction false} NonEmptyKeepsAll(conflicts: seq<Conflict>)
    requires forall i :: 0 <= i < |conflicts| ==> conflicts[i].templateTxns != []
    ensures NonEmpty(conflicts) == conflicts
  {
    if conflicts == [] {
    } else {
      NonEmptyKeepsAll(conflicts[..|conflicts| - 1]);
    }
  }

  lemma {:induction false} NonEmptyDropsOne(conflicts: seq<Conflict>, k: int)
    requires 0 <= k < |conflicts| && conflicts[k].templateTxns == []
    requires forall i :: 0 <= i < |conflicts| && i != k ==> conflicts[i].templateTxns != []
    ensures NonEmpty(conflicts) == Without(conflicts, k)
  {
    var front := conflicts[..|conflicts| - 1];
    if k == |conflicts| - 1 {
      NonEmptyKeepsAll(front);
    } else {
      NonEmptyDropsOne(front, k);
      assert Without(conflicts, k) == Without(front, k) + [conflicts[|conflicts| - 1]];
    }
  }

  lemma RepresentedNotEmpty(g: Graph, conflicts: seq<Conflict>, cs: seq<Component>)
    requires g.Valid() && Partition(g, cs) && Represents(conflicts, cs)
    ensures forall i :: 0 <= i < |conflicts| ==> conflicts[i].templateTxns != []
    ensures NonEmpty(conflicts) == conflicts
  {
    forall i | 0 <= i < |conflicts| ensures conflicts[i].templateTxns != [] {
      NoneEmpty(g, cs, i);
      assert conflicts[i].Holds(cs[i]);
    }
    NonEmptyKeepsAll(conflicts);
  }

  lemma DrainedIsSwept(g: Graph, conflicts: seq<Conflict>, l: int, cs: seq<Component>)
    requires g.Valid() && Partition(g, cs) && 0 <= l < |conflicts| && Represents(Without(conflicts, l), cs)
    requires conflicts[l].templateTxns == []
    ensures NonEmpty(conflicts) == Without(conflicts, l)
  {
    var rest := Without(conflicts, l);
    RepresentedNotEmpty(g, rest, cs);
    forall i | 0 <= i < |conflicts| && i != l ensures conflicts[i].templateTxns != [] {
      assert conflicts[i] == rest[if i < l then i else i - 1];
    }
    NonEmptyDropsOne(conflicts, l);
  }

  // ---------------------------------------------------------------- the loop

  /** Equal txids on one side mean the same transaction entry. */
  ghost predicate KeyedByTxid(spenders: map<OutPoint, TxInfo>) {
    forall o, p :: o in spenders && p in spenders && spenders[o].txid == spenders[p].txid ==> spenders[o] == spenders[p]
  }

  lemma SpendersTellApart(spenders: map<OutPoint, TxInfo>, s: set<TxInfo>)
    requires KeyedByTxid(spenders) && s <= spenders.Values
    ensures TxidsTellApart(s)
  {
    forall x, y | x in s && y in s && x.txid == y.txid ensures x == y {
      assert x in spenders.Values && y in spenders.Values;
      var o :| o in spenders && spenders[o] == x;
      var p :| p in spenders && spenders[p] == y;
    }
  }

  lemma MergedSidesTellApart(g: Graph, cs: seq<Component>, k: int, l: int, o: OutPoint)
    requires g.Valid() && Partition(g, cs) && 0 <= k < |cs| && 0 <= l < |cs|
    requires o in g.tmpl && o in g.blk && KeyedByTxid(g.tmpl) && KeyedByTxid(g.blk)
    ensures TxidsTellApart(cs[k].ts + {g.tmpl[o]} + cs[l].ts)
    ensures TxidsTellApart(cs[k].bs + {g.blk[o]} + cs[l].bs)
  {
    assert IsLinkedGroup(g, cs[k]) && IsLinkedGroup(g, cs[l]);
    SpendersTellApart(g.tmpl, cs[k].ts + {g.tmpl[o]} + cs[l].ts);
    SpendersTellApart(g.blk, cs[k].bs + {g.blk[o]} + cs[l].bs);
  }

  /** Sweeping `conflicts` leaves objects that represent the partition `cs`. */
  ghost predicate SweepsTo(g: Graph, conflicts: seq<Conflict>, cs: seq<Component>)
    requires g.Valid()
    reads conflicts, NonEmpty(conflicts)
  {
    Partition(g, cs) && Represents(NonEmpty(conflicts), cs)
  }

  /** Arm `0` of the match: a new set. */
  method CreateArm(ghost g: Graph, conflicts: seq<Conflict>, ghost cs: seq<Component>,
                   t: TxInfo, b: TxInfo, o: OutPoint)
    returns (next: seq<Conflict>, ghost cs': seq<Component>)
    requires g.Valid() && Partition(g, cs) && Represents(conflicts, cs)
    requires o !in g.edges && o in g.tmpl && o in g.blk && t == g.tmpl[o] && b == g.blk[o]
    requires TouchedAt(g, o, cs, [])
    ensures SweepsTo(g.With(o), next, cs')
    ensures NonEmpty(next) == next
    ensures forall c :: c in next ==> c in conflicts || fresh(c)
  {
    CreateKeepsPartition(g, o, cs);
    cs' := cs + [Single(g, o)];
    var c := new Conflict(t, b, o);
    next := conflicts + [c];
    assert c.Holds(Single(g, o));
    RepresentedNotEmpty(g.With(o), next, cs');
  }

  /** Arm `1` of the match: the set grows. */
  method ExtendArm(ghost g: Graph, conflicts: seq<Conflict>, ghost cs: seq<Component>, existing: Conflict, ghost k: int,
                   t: TxInfo, b: TxInfo, o: OutPoint)
    returns (ghost cs': seq<Component>)
    requires g.Valid() && Partition(g, cs) && Represents(conflicts, cs)
    requires o !in g.edges && o in g.tmpl && o in g.blk && t == g.tmpl[o] && b == g.blk[o]
    requires TouchedAt(g, o, cs, [k]) && 0 <= k < |cs| && existing == conflicts[k]
    modifies existing
    ensures SweepsTo(g.With(o), conflicts, cs')
    ensures NonEmpty(conflicts) == conflicts
  {
    ExtendKeepsPartition(g, o, cs, k);
    cs' := cs[k := Union(cs[k], Single(g, o))];
    Extend(existing, cs[k], t, b, o);
    RepresentedNotEmpty(g.With(o), conflicts, cs');
  }

  /** The remaining arm of the match: the first set absorbs the second, which is left drained. */
  method MergeArm(ghost g: Graph, conflicts: seq<Conflict>, ghost cs: seq<Component>,
                  existing: seq<Conflict>, ghost k: int, ghost l: int, t: TxInfo, b: TxInfo, o: OutPoint)
    returns (ghost cs': seq<Component>)
    requires g.Valid() && Partition(g, cs) && Represents(conflicts, cs)
    requires o !in g.edges && o in g.tmpl && o in g.blk && t == g.tmpl[o] && b == g.blk[o]
    requires KeyedByTxid(g.tmpl) && KeyedByTxid(g.blk)
    requires TouchedAt(g, o, cs, [k, l]) && 0 <= k < l < |cs| && existing == [conflicts[k], conflicts[l]]
    modifies existing
    ensures SweepsTo(g.With(o), conflicts, cs')
    ensures NonEmpty(conflicts) == Without(conflicts, l)
  {
    MergeKeepsPartition(g, o, cs, k, l);
    ghost var merged := cs[k := Union(Union(cs[k], Single(g, o)), cs[l])];
    cs' := Without(merged, l);
    MergedSidesTellApart(g, cs, k, l, o);
    Merge(existing, cs[k], cs[l], t, b, o);
    assert Represents(Without(conflicts, l), cs') by {
      WithoutIndex(conflicts, l);
      WithoutIndex(merged, l);
    }
    DrainedIsSwept(g.With(o), conflicts, l, cs');
  }

  /** The match on the number of sets that already hold one of the two spenders. */
  method PlaceOutpoint(ghost g: Graph, conflicts: seq<Conflict>, ghost cs: seq<Component>,
                       t: TxInfo, b: TxInfo, o: OutPoint)
    returns (next: seq<Conflict>, ghost cs': seq<Component>)
    requires g.Valid() && Partition(g, cs) && Represents(conflicts, cs)
    requires o !in g.edges && o in g.tmpl && o in g.blk && t == g.tmpl[o] && b == g.blk[o]
    requires KeyedByTxid(g.tmpl) && KeyedByTxid(g.blk)
    modifies conflicts
    ensures SweepsTo(g.With(o), next, cs')
    ensures forall c :: c in NonEmpty(next) ==> c in conflicts || fresh(c)
  {
    var existing, at := FindExisting(g, o, conflicts, cs, t, b);
    next := conflicts;
    match |existing| {
      case 0 =>
        assert at == [];
        next, cs' := CreateArm(g, conflicts, cs, t, b, o);
      case 1 =>
        assert at == [at[0]];
        cs' := ExtendArm(g, conflicts, cs, existing[0], at[0], t, b, o);
      case _ =>
        assert at == [at[0], at[1]] && existing == [conflicts[at[0]], conflicts[at[1]]];
        cs' := MergeArm(g, conflicts, cs, existing, at[0], at[1], t, b, o);
    }
  }

  /** One iteration of the grouping loop. */
  method AddOutpoint(ghost g: Graph, conflicts: seq<Conflict>, ghost cs: seq<Component>,
                     t: TxInfo, b: TxInfo, o: OutPoint)
    returns (next: seq<Conflict>, ghost cs': seq<Component>)
    requires g.Valid() && Partition(g, cs) && Represents(conflicts, cs)
    requires o !in g.edges && o in g.tmpl && o in g.blk && t == g.tmpl[o] && b == g.blk[o]
    requires KeyedByTxid(g.tmpl) && KeyedByTxid(g.blk)
    modifies conflicts
    ensures Partition(g.With(o), cs') && Represents(next, cs')
    ensures forall c :: c in next ==> c in conflicts || fresh(c)
  {
    next, cs' := PlaceOutpoint(g, conflicts, cs, t, b, o);
    RepresentedNotEmpty(g.With(o), NonEmpty(next), cs');
    next := NonEmpty(NonEmpty(NonEmpty(next)));
  }

  /** Group the conflicting outpoints in the order given. */
  method GroupConflicts(order: seq<OutPoint>, tmpl: map<OutPoint, TxInfo>, blk: map<OutPoint, TxInfo>)
    returns (conflicts: seq<Conflict>, ghost cs: seq<Component>)
    requires Enumerates(order, tmpl.Keys * blk.Keys)
    requires KeyedByTxid(tmpl) && KeyedByTxid(blk)
    ensures Represents(conflicts, cs)
    ensures Partition(Graph(tmpl.Keys * blk.Keys, tmpl, blk), cs)
    ensures Elements(cs) == Components(Graph(tmpl.Keys * blk.Keys, tmpl, blk)) && NoDup(cs)
    ensures forall i :: 0 <= i < |conflicts| ==> fresh(conflicts[i])
  {
    conflicts, cs := [], [];
    ghost var g := Graph({}, tmpl, blk);
    for n := 0 to |order|
      invariant g == Graph(Elements(order[..n]), tmpl, blk) && g.Valid()
      invariant Partition(g, cs) && Represents(conflicts, cs)
      invariant forall i :: 0 <= i < |conflicts| ==> fresh(conflicts[i])
    {
      var o := order[n];
      assert o in Elements(order);
      assert o !in g.edges;
      assert Elements(order[..n + 1]) == Elements(order[..n]) + {o};
      ghost var before := conflicts;
      conflicts, cs := AddOutpoint(g, conflicts, cs, tmpl[o], blk[o], o);
      g := g.With(o);
      assert forall i :: 0 <= i < |conflicts| ==> conflicts[i] in conflicts;
    }
    assert order[..|order|] == order;
    PartitionIsComponents(g, cs);
  }

  // ---------------------------------------------------------------- the inputs of the grouping

  /** Every txid of one side has an entry, filed under its own txid. */
  ghost predicate Keyed(txids: set<Txid>, infos: map<Txid, TxInfo>) {
    forall x :: x in txids ==> x in infos && infos[x].txid == x
  }

  /** On one side every outpoint has at most one spender, as in any valid block or template. */
  ghost predicate SpentOnce(txids: set<Txid>, infos: map<Txid, TxInfo>)
    requires Keyed(txids, infos)
  {
    forall x, y, o :: x in txids && y in txids && Spends(infos[x], o) && Spends(infos[y], o) ==> x == y
  }

  /** Exactly the outpoints spent on one side, each with one of its spenders. */
  ghost predicate RecordsSpenders(spenders: map<OutPoint, TxInfo>, txids: set<Txid>, infos: map<Txid, TxInfo>)
    requires Keyed(txids, infos)
  {
    && (forall x, o :: x in txids && Spends(infos[x], o) ==> o in spenders)
    && (forall o :: o in spenders ==>
          spenders[o].txid in txids && infos[spenders[o].txid] == spenders[o] && Spends(spenders[o], o))
  }

  /** Record one transaction as the spender of each of its inputs, over whatever was recorded before. */
  method IndexInputs(before: map<OutPoint, TxInfo>, info: TxInfo) returns (spenders: map<OutPoint, TxInfo>)
    ensures forall o :: o in spenders <==> o in before || Spends(info, o)
    ensures forall o :: o in spenders ==> spenders[o] == if Spends(info, o) then info else before[o]
  {
    spenders := before;
    var inputs := info.tx.inputs;
    for k := 0 to |inputs|
      invariant forall o :: o in spenders <==> o in before || o in inputs[..k]
      invariant forall o :: o in spenders ==> spenders[o] == if o in inputs[..k] then info else before[o]
    {
      assert inputs[..k + 1] == inputs[..k] + [inputs[k]];
      spenders := spenders[inputs[k] := info];
    }
    assert inputs[..|inputs|] == inputs;
  }

  /** Index the outpoints one side spends. */
  method CollectSpenders(order: seq<Txid>, infos: map<Txid, TxInfo>) returns (spenders: map<OutPoint, TxInfo>)
    requires Keyed(Elements(order), infos)
    ensures RecordsSpenders(spenders, Elements(order), infos)
  {
    spenders := map[];
    for n := 0 to |order|
      invariant Keyed(Elements(order[..n]), infos)
      invariant RecordsSpenders(spenders, Elements(order[..n]), infos)
    {
      assert Elements(order[..n + 1]) == Elements(order[..n]) + {order[n]};
      assert order[n] in Elements(order);
      spenders := IndexInputs(spenders, infos[order[n]]);
    }
    assert order[..|order|] == order;
  }
}
