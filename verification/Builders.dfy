/** The builders that turn a template and a block into database rows. */
module Builders {
  import opened Basics
  import opened Ledger
  import opened ConflictGraph
  import opened ConflictGrouping
  import opened Sanctions
  import opened Records

  // ---------------------------------------------------------------- transaction data

  datatype TxData = TxData(txids: set<Txid>, infos: map<Txid, TxInfo>, list: seq<TxInfo>)

  /** Exactly the listed txids have an entry, and every entry is listed under its own txid. */
  ghost predicate WellKeyed(d: TxData) {
    && d.infos.Keys == d.txids
    && (forall x :: x in d.txids ==> d.infos[x].txid == x && d.infos[x].tx.txid == x && d.infos[x] in d.list)
    && (forall t :: t in d.list ==> t.txid in d.txids)
  }

  function InfoAt(b: Block, fees: map<Txid, nat>, i: int): TxInfo
    requires 0 <= i < |b.txdata| && b.txdata[i].txid in fees
  {
    TxInfo(b.txdata[i].txid, b.txdata[i], i, fees[b.txdata[i].txid])
  }

  /** The list has every transaction of the block in its place, with its txid and the fee the node gives for it. */
  ghost predicate ListsBlock(list: seq<TxInfo>, b: Block, fees: map<Txid, nat>) {
    && |list| == |b.txdata|
    && forall i :: 0 <= i < |list| ==>
         && list[i].tx == b.txdata[i] && list[i].txid == b.txdata[i].txid && list[i].pos == i
         && b.txdata[i].txid in fees && list[i].fee == fees[b.txdata[i].txid]
  }

  method BuildBlockTxData(b: Block, fees: map<Txid, nat>) returns (d: TxData)
    requires forall i :: 0 <= i < |b.txdata| ==> b.txdata[i].txid in fees
    ensures WellKeyed(d) && ListsBlock(d.list, b, fees)
  {
    d := TxData({}, map[], []);
    for n := 0 to |b.txdata|
      invariant WellKeyed(d)
      invariant |d.list| == n && forall i :: 0 <= i < n ==> d.list[i] == InfoAt(b, fees, i)
    {
      var info := InfoAt(b, fees, n);
      d := TxData(d.txids + {info.txid}, d.infos[info.txid := info], d.list + [info]);
    }
  }

  /** Position `i` of the template decodes, to `info`. */
  predicate DecodesTo(t: Template, i: int, info: TxInfo) {
    && 0 <= i < |t.txs| && t.txs[i].decoded.Some?
    && info == TxInfo(t.txs[i].decoded.value.txid, t.txs[i].decoded.value, i, t.txs[i].fee)
  }

  /** The node's txid of every decoded entry is the txid computed from the entry. */
  ghost predicate NodeTxidsMatch(t: Template) {
    forall i :: 0 <= i < |t.txs| && t.txs[i].decoded.Some? ==> t.txs[i].txid == t.txs[i].decoded.value.txid
  }

  /** What `BuildTemplateTxData` collects from the first `n` entries: entries are filed under the node's txid. */
  ghost predicate Collects(d: TxData, t: Template, n: int) {
    && (forall info :: info in d.list <==> exists i :: i < n && DecodesTo(t, i, info))
    && (forall x :: x in d.txids <==> exists i, info :: i < n && DecodesTo(t, i, info) && info.txid == x)
    && (forall x :: x in d.infos <==> exists i, info :: i < n && DecodesTo(t, i, info) && t.txs[i].txid == x)
    && (forall x :: x in d.infos ==> exists i :: i < n && DecodesTo(t, i, d.infos[x]) && t.txs[i].txid == x)
  }

  method BuildTemplateTxData(t: Template) returns (d: TxData)
    ensures Collects(d, t, |t.txs|)
  {
    d := TxData({}, map[], []);
    for n := 0 to |t.txs|
      invariant Collects(d, t, n)
    {
      var entry := t.txs[n];
      ghost var before := d;
      if entry.decoded.Some? {
        var info := TxInfo(entry.decoded.value.txid, entry.decoded.value, n, entry.fee);
        d := TxData(d.txids + {info.txid}, d.infos[entry.txid := info], d.list + [info]);
        CollectsMore(before, t, n, info);
      } else {
        assert forall i, info :: i < n + 1 && DecodesTo(t, i, info) <==> i < n && DecodesTo(t, i, info);
      }
    }
  }

  lemma CollectsMore(d: TxData, t: Template, n: int, info: TxInfo)
    requires 0 <= n < |t.txs| && Collects(d, t, n) && DecodesTo(t, n, info)
    ensures Collects(TxData(d.txids + {info.txid}, d.infos[t.txs[n].txid := info], d.list + [info]), t, n + 1)
  {
    assert forall i, other :: i < n + 1 && DecodesTo(t, i, other) <==>
                              (i < n && DecodesTo(t, i, other)) || (i == n && other == info);
  }

  /** With matching txids the template data is as well keyed as the block data, so no lookup can miss. */
  lemma MatchingTxidsAreWellKeyed(d: TxData, t: Template)
    requires Collects(d, t, |t.txs|) && NodeTxidsMatch(t)
    ensures WellKeyed(d)
  {
    forall x | x in d.txids ensures x in d.infos {
      var i, info :| i < |t.txs| && DecodesTo(t, i, info) && info.txid == x;
      assert t.txs[i].txid == x;
    }
    forall x | x in d.infos
      ensures x in d.txids && d.infos[x].txid == x && d.infos[x].tx.txid == x && d.infos[x] in d.list
    {
      var i :| i < |t.txs| && DecodesTo(t, i, d.infos[x]) && t.txs[i].txid == x;
    }
    forall info | info in d.list ensures info.txid in d.txids {
      var i :| i < |t.txs| && DecodesTo(t, i, info);
    }
  }

  ghost predicate IsComputedTxid(t: Template, x: Txid) {
    exists i, info :: DecodesTo(t, i, info) && info.txid == x
  }

  ghost predicate IsNodeTxid(t: Template, x: Txid) {
    exists i, info :: DecodesTo(t, i, info) && t.txs[i].txid == x
  }

  lemma CollectedKeys(d: TxData, t: Template, x: Txid)
    requires Collects(d, t, |t.txs|)
    ensures x in d.txids <==> IsComputedTxid(t, x)
    ensures x in d.infos <==> IsNodeTxid(t, x)
  {
    if IsComputedTxid(t, x) {
      var i, info :| DecodesTo(t, i, info) && info.txid == x;
      assert i < |t.txs|;
    }
    if IsNodeTxid(t, x) {
      var i, info :| DecodesTo(t, i, info) && t.txs[i].txid == x;
      assert i < |t.txs|;
    }
  }

  /** Lookups by computed txid never miss if and only if each is the node's txid of some decoded entry. */
  lemma LookupsNeverMiss(d: TxData, t: Template)
    requires Collects(d, t, |t.txs|)
    ensures d.txids <= d.infos.Keys <==> forall x :: IsComputedTxid(t, x) ==> IsNodeTxid(t, x)
  {
    forall x ensures x in d.txids <==> IsComputedTxid(t, x) {
      CollectedKeys(d, t, x);
    }
    forall x ensures x in d.infos <==> IsNodeTxid(t, x) {
      CollectedKeys(d, t, x);
    }
  }

  // ---------------------------------------------------------------- link rows

  datatype OnlyInBlockRow = OnlyInBlockRow(blockId: int, position: int, txid: Bytes)

  datatype OnlyInTemplateRow = OnlyInTemplateRow(blockId: int, position: int, mempoolAge: int, txid: Bytes)

  function RequestsFor(order: seq<Txid>, infos: map<Txid, TxInfo>): (qs: seq<Request>)
    requires forall i :: 0 <= i < |order| ==> order[i] in infos
    ensures |qs| == |order|
    ensures forall i :: 0 <= i < |qs| ==> qs[i] == Request(infos[order[i]], false)
  {
    seq(|order|, i requires 0 <= i < |order| => Request(infos[order[i]], false))
  }

  /** Build one record and add it; a transaction that does not decode is skipped. */
  method AddTransaction(q: Request, ctx: Context, txs: TransactionMap, ghost start: RecordMap, ghost done: seq<Request>)
    requires txs.rows == AddAll(start, RecordsFor(done, ctx))
    modifies txs
    ensures txs.rows == AddAll(start, RecordsFor(done + [q], ctx))
  {
    var built := BuildTransaction(q.info, q.conflicting, ctx);
    assert (done + [q])[..|done|] == done;
    if built.Some? {
      var rs := RecordsFor(done, ctx);
      assert (rs + [built.value])[..|rs|] == rs;
      txs.Add(built.value);
    }
  }

  /** The row has the place and the display txid of the entry. */
  ghost predicate IsBlockLink(row: OnlyInBlockRow, id: int, info: TxInfo) {
    row.blockId == id && row.position == info.pos && row.txid == Reversed(info.txid)
  }

  /** One row for each transaction. */
  ghost predicate BlockLinksBuilt(rows: seq<OnlyInBlockRow>, id: int, order: seq<Txid>, infos: map<Txid, TxInfo>) {
    && |rows| == |order|
    && forall i :: 0 <= i < |rows| ==> order[i] in infos && IsBlockLink(rows[i], id, infos[order[i]])
  }

  function BlockLink(id: int, info: TxInfo): OnlyInBlockRow {
    OnlyInBlockRow(id, info.pos, Reversed(info.txid))
  }

  method BuildOnlyInBlock(id: int, order: seq<Txid>, infos: map<Txid, TxInfo>, ctx: Context, txs: TransactionMap)
    returns (rows: seq<OnlyInBlockRow>)
    requires forall i :: 0 <= i < |order| ==> order[i] in infos
    modifies txs
    ensures BlockLinksBuilt(rows, id, order, infos)
    ensures txs.rows == AddAll(old(txs.rows), RecordsFor(RequestsFor(order, infos), ctx))
  {
    rows := [];
    ghost var qs := RequestsFor(order, infos);
    for n := 0 to |order|
      invariant BlockLinksBuilt(rows, id, order[..n], infos)
      invariant txs.rows == AddAll(old(txs.rows), RecordsFor(qs[..n], ctx))
    {
      var info := infos[order[n]];
      rows := rows + [BlockLink(id, info)];
      assert qs[..n + 1] == qs[..n] + [Request(info, false)];
      AddTransaction(Request(info, false), ctx, txs, old(txs.rows), qs[..n]);
    }
    assert qs[..|qs|] == qs && order[..|order|] == order;
  }

  /** The row has the place and the display txid of the entry, and the age of `x` or, if there is none, -1. */
  ghost predicate IsTemplateLink(row: OnlyInTemplateRow, id: int, info: TxInfo, x: Txid, ages: map<Txid, int>) {
    && row.blockId == id && row.position == info.pos && row.txid == Reversed(info.txid)
    && (x in ages ==> row.mempoolAge == ages[x]) && (x !in ages ==> row.mempoolAge == -1)
  }

  ghost predicate TemplateLinksBuilt(
      rows: seq<OnlyInTemplateRow>, id: int, order: seq<Txid>, infos: map<Txid, TxInfo>, ages: map<Txid, int>)
  {
    && |rows| == |order|
    && forall i :: 0 <= i < |rows| ==> order[i] in infos && IsTemplateLink(rows[i], id, infos[order[i]], order[i], ages)
  }

  /** The mempool age is -1 if the node does not know it. */
  function TemplateLink(id: int, info: TxInfo, x: Txid, ages: map<Txid, int>): OnlyInTemplateRow {
    OnlyInTemplateRow(id, info.pos, if x in ages then ages[x] else -1, Reversed(info.txid))
  }

  lemma OneMoreTemplateLink(
      rows: seq<OnlyInTemplateRow>, id: int, order: seq<Txid>, infos: map<Txid, TxInfo>, ages: map<Txid, int>, n: nat)
    requires n < |order| && order[n] in infos && TemplateLinksBuilt(rows, id, order[..n], infos, ages)
    ensures TemplateLinksBuilt(
              rows + [TemplateLink(id, infos[order[n]], order[n], ages)], id, order[..n + 1], infos, ages)
  {
  }

  method BuildOnlyInTemplate(id: int, order: seq<Txid>, infos: map<Txid, TxInfo>, ages: map<Txid, int>,
                             ctx: Context, txs: TransactionMap)
    returns (rows: seq<OnlyInTemplateRow>)
    requires forall i :: 0 <= i < |order| ==> order[i] in infos
    modifies txs
    ensures TemplateLinksBuilt(rows, id, order, infos, ages)
    ensures txs.rows == AddAll(old(txs.rows), RecordsFor(RequestsFor(order, infos), ctx))
  {
    rows := [];
    ghost var qs := RequestsFor(order, infos);
    for n := 0 to |order|
      invariant TemplateLinksBuilt(rows, id, order[..n], infos, ages)
      invariant txs.rows == AddAll(old(txs.rows), RecordsFor(qs[..n], ctx))
    {
      var info := infos[order[n]];
      OneMoreTemplateLink(rows, id, order, infos, ages, n);
      rows := rows + [TemplateLink(id, info, order[n], ages)];
      assert qs[..n + 1] == qs[..n] + [Request(info, false)];
      AddTransaction(Request(info, false), ctx, txs, old(txs.rows), qs[..n]);
    }
    assert qs[..|qs|] == qs && order[..|order|] == order;
  }

  // ---------------------------------------------------------------- conflict rows

  /** A finished conflict set. */
  datatype ConflictSet = ConflictSet(templateTxns: seq<TxInfo>, blockTxns: seq<TxInfo>, outpoints: seq<OutPoint>)

  ghost predicate HoldsSet(s: ConflictSet, c: Component) {
    Enumerates(s.templateTxns, c.ts) && Enumerates(s.blockTxns, c.bs) && Enumerates(s.outpoints, c.os)
  }

  /** The sets hold the components of the conflict graph of the two sides, in some order. */
  ghost predicate AreConflictSets(sets: seq<ConflictSet>, cs: seq<Component>, g: Graph) {
    && g.Valid() && Partition(g, cs)
    && |sets| == |cs| && (forall i :: 0 <= i < |cs| ==> HoldsSet(sets[i], cs[i]))
  }

  /** The conflict graph of the transactions found on one side only. */
  ghost predicate IsGraphOf(
      g: Graph, onlyT: set<Txid>, tInfos: map<Txid, TxInfo>, onlyB: set<Txid>, bInfos: map<Txid, TxInfo>)
    requires Keyed(onlyT, tInfos) && Keyed(onlyB, bInfos)
  {
    && RecordsSpenders(g.tmpl, onlyT, tInfos)
    && RecordsSpenders(g.blk, onlyB, bInfos)
    && g.edges == g.tmpl.Keys * g.blk.Keys
  }

  lemma RecordedSpendersAreKeyed(spenders: map<OutPoint, TxInfo>, txids: set<Txid>, infos: map<Txid, TxInfo>)
    requires Keyed(txids, infos) && RecordsSpenders(spenders, txids, infos)
    ensures KeyedByTxid(spenders)
  {
    forall o, p | o in spenders && p in spenders && spenders[o].txid == spenders[p].txid
      ensures spenders[o] == spenders[p]
    {
      assert infos[spenders[o].txid] == spenders[o] && infos[spenders[p].txid] == spenders[p];
    }
  }

  method FindConflicts(orderT: seq<Txid>, tInfos: map<Txid, TxInfo>, orderB: seq<Txid>, bInfos: map<Txid, TxInfo>)
    returns (sets: seq<ConflictSet>, ghost cs: seq<Component>, ghost g: Graph)
    requires Keyed(Elements(orderT), tInfos) && Keyed(Elements(orderB), bInfos)
    ensures IsGraphOf(g, Elements(orderT), tInfos, Elements(orderB), bInfos)
    ensures AreConflictSets(sets, cs, g)
    ensures SpentOnce(Elements(orderT), tInfos) && SpentOnce(Elements(orderB), bInfos) ==>
              forall h :: IsGraphOf(h, Elements(orderT), tInfos, Elements(orderB), bInfos) ==>
                Reported(sets) == Components(h)
  {
    var tmpl := CollectSpenders(orderT, tInfos);
    var blk := CollectSpenders(orderB, bInfos);
    RecordedSpendersAreKeyed(tmpl, Elements(orderT), tInfos);
    RecordedSpendersAreKeyed(blk, Elements(orderB), bInfos);
    g := Graph(tmpl.Keys * blk.Keys, tmpl, blk);
    var conflicting := Iterate(tmpl.Keys * blk.Keys);
    var conflicts: seq<Conflict>;
    conflicts, cs := GroupConflicts(conflicting, tmpl, blk);
    sets := [];
    for n := 0 to |conflicts|
      invariant |sets| == n && forall i :: 0 <= i < n ==> HoldsSet(sets[i], cs[i])
    {
      var c := conflicts[n];
      assert c.Holds(cs[n]);
      sets := sets + [ConflictSet(c.templateTxns, c.blockTxns, c.outpoints)];
    }
    ReportedAreComponents(sets, cs, g);
    if SpentOnce(Elements(orderT), tInfos) && SpentOnce(Elements(orderB), bInfos) {
      forall h | IsGraphOf(h, Elements(orderT), tInfos, Elements(orderB), bInfos) ensures h == g {
        GraphIsUnique(g, h, Elements(orderT), tInfos, Elements(orderB), bInfos);
      }
    }
  }

  datatype ConflictRow = ConflictRow(
    blockId: int, templateTxids: seq<Bytes>, blockTxids: seq<Bytes>,
    outpointTxids: seq<Bytes>, outpointVouts: seq<int>)

  function RowOf(id: int, s: ConflictSet): ConflictRow {
    ConflictRow(id, ReversedAll(TxidsOf(s.templateTxns)), ReversedAll(TxidsOf(s.blockTxns)),
                seq(|s.outpoints|, i requires 0 <= i < |s.outpoints| => Reversed(s.outpoints[i].txid)),
                seq(|s.outpoints|, i requires 0 <= i < |s.outpoints| => AsI32(s.outpoints[i].vout)))
  }

  function AsConflicting(txns: seq<TxInfo>): (qs: seq<Request>)
    ensures |qs| == |txns| && forall i :: 0 <= i < |qs| ==> qs[i] == Request(txns[i], true)
  {
    seq(|txns|, i requires 0 <= i < |txns| => Request(txns[i], true))
  }

  function SetRequests(sets: seq<ConflictSet>): seq<Request> {
    if sets == [] then []
    else
      var last := sets[|sets| - 1];
      SetRequests(sets[..|sets| - 1]) + AsConflicting(last.templateTxns) + AsConflicting(last.blockTxns)
  }

  method AddConflicting(
      txns: seq<TxInfo>, ctx: Context, txs: TransactionMap, ghost start: RecordMap, ghost done: seq<Request>)
    requires txs.rows == AddAll(start, RecordsFor(done, ctx))
    modifies txs
    ensures txs.rows == AddAll(start, RecordsFor(done + AsConflicting(txns), ctx))
  {
    ghost var qs := AsConflicting(txns);
    assert done + qs[..0] == done;
    for n := 0 to |txns|
      invariant txs.rows == AddAll(start, RecordsFor(done + qs[..n], ctx))
    {
      AddTransaction(Request(txns[n], true), ctx, txs, start, done + qs[..n]);
      assert done + qs[..n] + [Request(txns[n], true)] == done + qs[..n + 1];
    }
    assert qs[..|qs|] == qs;
  }

  lemma SetRequestsStep(sets: seq<ConflictSet>, n: nat)
    requires n < |sets|
    ensures SetRequests(sets[..n + 1])
            == SetRequests(sets[..n]) + AsConflicting(sets[n].templateTxns) + AsConflicting(sets[n].blockTxns)
  {
    assert sets[..n + 1][..n] == sets[..n];
  }

  method AddMembers(s: ConflictSet, ctx: Context, txs: TransactionMap, ghost start: RecordMap, ghost done: seq<Request>)
    requires txs.rows == AddAll(start, RecordsFor(done, ctx))
    modifies txs
    ensures txs.rows
         == AddAll(start, RecordsFor(done + AsConflicting(s.templateTxns) + AsConflicting(s.blockTxns), ctx))
  {
    AddConflicting(s.templateTxns, ctx, txs, start, done);
    AddConflicting(s.blockTxns, ctx, txs, start, done + AsConflicting(s.templateTxns));
  }

  /** One row per conflict set; the members of the set are recorded as conflicting. */
  method BuildConflictRows(id: int, sets: seq<ConflictSet>, ctx: Context, txs: TransactionMap)
    returns (rows: seq<ConflictRow>)
    modifies txs
    ensures |rows| == |sets| && forall i :: 0 <= i < |rows| ==> rows[i] == RowOf(id, sets[i])
    ensures txs.rows == AddAll(old(txs.rows), RecordsFor(SetRequests(sets), ctx))
  {
    rows := [];
    for n := 0 to |sets|
      invariant |rows| == n && forall i :: 0 <= i < n ==> rows[i] == RowOf(id, sets[i])
      invariant txs.rows == AddAll(old(txs.rows), RecordsFor(SetRequests(sets[..n]), ctx))
    {
      ghost var done := SetRequests(sets[..n]);
      SetRequestsStep(sets, n);
      AddMembers(sets[n], ctx, txs, old(txs.rows), done);
      rows := rows + [RowOf(id, sets[n])];
    }
    assert sets[..|sets|] == sets;
  }

  method BuildConflicting(id: int, orderT: seq<Txid>, tInfos: map<Txid, TxInfo>,
                          orderB: seq<Txid>, bInfos: map<Txid, TxInfo>, ctx: Context, txs: TransactionMap)
    returns (rows: seq<ConflictRow>, ghost sets: seq<ConflictSet>, ghost cs: seq<Component>, ghost g: Graph)
    requires Keyed(Elements(orderT), tInfos) && Keyed(Elements(orderB), bInfos)
    modifies txs
    ensures IsGraphOf(g, Elements(orderT), tInfos, Elements(orderB), bInfos)
    ensures AreConflictSets(sets, cs, g)
    ensures |rows| == |sets| && forall i :: 0 <= i < |rows| ==> rows[i] == RowOf(id, sets[i])
    ensures txs.rows == AddAll(old(txs.rows), RecordsFor(SetRequests(sets), ctx))
  {
    var found, cs', g' := FindConflicts(orderT, tInfos, orderB, bInfos);
    sets, cs, g := found, cs', g';
    rows := BuildConflictRows(id, found, ctx, txs);
  }

  /** With one spender per outpoint the conflict graph is determined by the two sides. */
  lemma GraphIsUnique(
      g: Graph, h: Graph, onlyT: set<Txid>, tInfos: map<Txid, TxInfo>, onlyB: set<Txid>, bInfos: map<Txid, TxInfo>)
    requires Keyed(onlyT, tInfos) && Keyed(onlyB, bInfos) && SpentOnce(onlyT, tInfos) && SpentOnce(onlyB, bInfos)
    requires IsGraphOf(g, onlyT, tInfos, onlyB, bInfos) && IsGraphOf(h, onlyT, tInfos, onlyB, bInfos)
    ensures g == h
  {
    SpendersAreUnique(g.tmpl, h.tmpl, onlyT, tInfos);
    SpendersAreUnique(g.blk, h.blk, onlyB, bInfos);
  }

  lemma SpendersAreUnique(
      m: map<OutPoint, TxInfo>, n: map<OutPoint, TxInfo>, txids: set<Txid>, infos: map<Txid, TxInfo>)
    requires Keyed(txids, infos) && SpentOnce(txids, infos)
    requires RecordsSpenders(m, txids, infos) && RecordsSpenders(n, txids, infos)
    ensures m == n
  {
    forall o ensures o in m <==> o in n {
      if o in m {
        assert Spends(infos[m[o].txid], o);
      }
      if o in n {
        assert Spends(infos[n[o].txid], o);
      }
    }
    forall o | o in m ensures m[o] == n[o] {
      assert Spends(infos[m[o].txid], o) && Spends(infos[n[o].txid], o);
    }
  }

  ghost function Contents(s: ConflictSet): Component {
    Component(Elements(s.templateTxns), Elements(s.blockTxns), Elements(s.outpoints))
  }

  /** The reported sets, as sets. */
  ghost function Reported(sets: seq<ConflictSet>): set<Component> {
    set i | 0 <= i < |sets| :: Contents(sets[i])
  }

  /** The reported sets are exactly the connected components, each reported once. */
  lemma ReportedAreComponents(sets: seq<ConflictSet>, cs: seq<Component>, g: Graph)
    requires AreConflictSets(sets, cs, g)
    ensures Reported(sets) == Components(g)
    ensures forall i, j :: 0 <= i < j < |sets| ==> Contents(sets[i]) != Contents(sets[j])
  {
    PartitionIsComponents(g, cs);
    forall i | 0 <= i < |sets| ensures Contents(sets[i]) == cs[i] {
      assert HoldsSet(sets[i], cs[i]);
    }
    assert Reported(sets) == Elements(cs);
  }

  /** Any two groupings of the same two sides report the same sets, whatever order was used anywhere. */
  lemma ConflictSetsDoNotDependOnOrder(
      xs: seq<ConflictSet>, cs: seq<Component>, g: Graph, ys: seq<ConflictSet>, ds: seq<Component>, h: Graph,
      onlyT: set<Txid>, tInfos: map<Txid, TxInfo>, onlyB: set<Txid>, bInfos: map<Txid, TxInfo>)
    requires Keyed(onlyT, tInfos) && Keyed(onlyB, bInfos) && SpentOnce(onlyT, tInfos) && SpentOnce(onlyB, bInfos)
    requires IsGraphOf(g, onlyT, tInfos, onlyB, bInfos) && IsGraphOf(h, onlyT, tInfos, onlyB, bInfos)
    requires AreConflictSets(xs, cs, g) && AreConflictSets(ys, ds, h)
    ensures |xs| == |ys| && Reported(xs) == Reported(ys)
  {
    GraphIsUnique(g, h, onlyT, tInfos, onlyB, bInfos);
    PartitionsAgree(g, cs, ds);
    ReportedAreComponents(xs, cs, g);
    ReportedAreComponents(ys, ds, h);
  }

  ghost predicate InSomeSet(sets: seq<ConflictSet>, info: TxInfo) {
    exists i :: 0 <= i < |sets| && (info in sets[i].templateTxns || info in sets[i].blockTxns)
  }

  /** Every transaction of one side that spends an outpoint spent on the other side is in a set. */
  lemma ConflictingSpendersAreGrouped(
      sets: seq<ConflictSet>, cs: seq<Component>, g: Graph,
      onlyT: set<Txid>, tInfos: map<Txid, TxInfo>, onlyB: set<Txid>, bInfos: map<Txid, TxInfo>,
      x: Txid, y: Txid, o: OutPoint)
    requires Keyed(onlyT, tInfos) && Keyed(onlyB, bInfos) && SpentOnce(onlyT, tInfos) && SpentOnce(onlyB, bInfos)
    requires IsGraphOf(g, onlyT, tInfos, onlyB, bInfos) && AreConflictSets(sets, cs, g)
    requires x in onlyT && y in onlyB && Spends(tInfos[x], o) && Spends(bInfos[y], o)
    ensures exists i :: 0 <= i < |sets| && tInfos[x] in sets[i].templateTxns && bInfos[y] in sets[i].blockTxns
                        && o in sets[i].outpoints
  {
    assert o in g.edges;
    assert Spends(tInfos[g.tmpl[o].txid], o) && Spends(bInfos[g.blk[o].txid], o);
    assert g.tmpl[o] == tInfos[x] && g.blk[o] == bInfos[y];
    assert Covered(cs, o);
    var i :| 0 <= i < |cs| && o in cs[i].os;
    assert IsLinkedGroup(g, cs[i]) && HoldsSet(sets[i], cs[i]);
    assert tInfos[x] in Elements(sets[i].templateTxns) && bInfos[y] in Elements(sets[i].blockTxns);
    assert o in Elements(sets[i].outpoints);
  }

  /** Members of the sets are transactions of the two sides. */
  lemma SetMembersComeFromSides(
      sets: seq<ConflictSet>, cs: seq<Component>, g: Graph,
      onlyT: set<Txid>, tInfos: map<Txid, TxInfo>, onlyB: set<Txid>, bInfos: map<Txid, TxInfo>, i: int, info: TxInfo)
    requires Keyed(onlyT, tInfos) && Keyed(onlyB, bInfos)
    requires IsGraphOf(g, onlyT, tInfos, onlyB, bInfos) && AreConflictSets(sets, cs, g) && 0 <= i < |sets|
    ensures info in sets[i].templateTxns ==> info.txid in onlyT && tInfos[info.txid] == info
    ensures info in sets[i].blockTxns ==> info.txid in onlyB && bInfos[info.txid] == info
  {
    assert IsLinkedGroup(g, cs[i]) && HoldsSet(sets[i], cs[i]);
    if info in sets[i].templateTxns {
      assert info in cs[i].ts;
      var o :| o in cs[i].os && g.tmpl[o] == info;
    }
    if info in sets[i].blockTxns {
      assert info in cs[i].bs;
      var o :| o in cs[i].os && g.blk[o] == info;
    }
  }
}
