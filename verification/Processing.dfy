/** One processing from a block and the buffered templates to the database. */
module Processing {
  import opened Basics
  import opened Ledger
  import opened ConflictGraph
  import opened ConflictGrouping
  import opened Sanctions
  import opened Records
  import opened Builders
  import opened SanctionedInfos
  import opened TagStore
  import opened TemplateSelection
  import opened Store
  import TemplateBuffer

  // ---------------------------------------------------------------- requests of all builders

  /** The entry the builders use for a txid: the template's if there is one, else the block's. */
  function Entries(template: TxData, block: TxData): map<Txid, TxInfo> {
    block.infos + template.infos
  }

  /** The orders in which the builders visit the hash sets of one processing. */
  datatype Orders = Orders(onlyT: seq<Txid>, onlyB: seq<Txid>, allT: seq<Txid>)

  ghost predicate ValidOrders(o: Orders, template: TxData, block: TxData) {
    && WellKeyed(template) && WellKeyed(block)
    && Enumerates(o.onlyT, template.txids - block.txids)
    && Enumerates(o.onlyB, block.txids - template.txids)
    && Enumerates(o.allT, template.txids)
  }

  lemma OrdersFindEntries(o: Orders, template: TxData, block: TxData)
    requires ValidOrders(o, template, block)
    ensures AllIn(o.onlyT, template.infos) && AllIn(o.onlyB, block.infos) && AllIn(o.allT, template.infos)
    ensures Keyed(Elements(o.onlyT), template.infos) && Keyed(Elements(o.onlyB), block.infos)
    ensures forall i :: 0 <= i < |o.onlyT| ==> o.onlyT[i] in template.txids && o.onlyT[i] !in block.txids
    ensures forall i :: 0 <= i < |o.onlyB| ==> o.onlyB[i] in block.txids && o.onlyB[i] !in template.txids
  {
    forall i | 0 <= i < |o.onlyT| ensures o.onlyT[i] in template.txids - block.txids {
      assert o.onlyT[i] in Elements(o.onlyT);
    }
    forall i | 0 <= i < |o.onlyB| ensures o.onlyB[i] in block.txids - template.txids {
      assert o.onlyB[i] in Elements(o.onlyB);
    }
    forall i | 0 <= i < |o.allT| ensures o.allT[i] in template.txids {
      assert o.allT[i] in Elements(o.allT);
    }
  }

  /** Everything the builders ask for, in the order they run. */
  ghost function AllRequests(
      sets: seq<ConflictSet>, o: Orders, template: TxData, block: TxData, rules: Rules): seq<Request>
    requires ValidOrders(o, template, block)
  {
    OrdersFindEntries(o, template, block);
    SetRequests(sets) + RequestsFor(o.onlyT, template.infos) + RequestsFor(o.onlyB, block.infos)
    + (InfoRequests(o.allT, template.infos, rules) + InfoRequests(o.onlyB, block.infos, rules))
  }

  ghost predicate RequestDrawn(q: Request, entries: map<Txid, TxInfo>) {
    q.info.txid in entries && entries[q.info.txid] == q.info
  }

  lemma InSomeSetStep(sets: seq<ConflictSet>, info: TxInfo)
    requires sets != []
    ensures InSomeSet(sets, info) <==>
            || InSomeSet(sets[..|sets| - 1], info)
            || info in sets[|sets| - 1].templateTxns || info in sets[|sets| - 1].blockTxns
  {
    var front := sets[..|sets| - 1];
    if InSomeSet(front, info) {
      var i :| 0 <= i < |front| && (info in front[i].templateTxns || info in front[i].blockTxns);
      assert sets[i] == front[i];
    }
    if InSomeSet(sets, info) {
      var i :| 0 <= i < |sets| && (info in sets[i].templateTxns || info in sets[i].blockTxns);
      assert i < |front| ==> front[i] == sets[i];
    }
  }

  lemma {:induction false} SetRequestMembers(sets: seq<ConflictSet>, q: Request)
    ensures q in SetRequests(sets) <==> q.conflicting && InSomeSet(sets, q.info)
  {
    if sets == [] {
    } else {
      var front, last := sets[..|sets| - 1], sets[|sets| - 1];
      SetRequestMembers(front, q);
      InSomeSetStep(sets, q.info);
      ConflictingMembers(last.templateTxns, q);
      ConflictingMembers(last.blockTxns, q);
    }
  }

  lemma ConflictingMembers(txns: seq<TxInfo>, q: Request)
    ensures q in AsConflicting(txns) <==> q.conflicting && q.info in txns
  {
    if q.conflicting && q.info in txns {
      var i :| 0 <= i < |txns| && txns[i] == q.info;
      assert AsConflicting(txns)[i] == q;
    }
  }

  lemma PlainRequestMembers(order: seq<Txid>, infos: map<Txid, TxInfo>, q: Request)
    requires AllIn(order, infos)
    ensures q in RequestsFor(order, infos) <==>
            !q.conflicting && exists x :: x in order && x in infos && infos[x] == q.info
  {
    if !q.conflicting && exists x :: x in order && x in infos && infos[x] == q.info {
      var x :| x in order && x in infos && infos[x] == q.info;
      var i :| 0 <= i < |order| && order[i] == x;
      assert RequestsFor(order, infos)[i] == q;
    }
  }

  lemma InfoRequestMembers(order: seq<Txid>, infos: map<Txid, TxInfo>, rules: Rules, q: Request)
    requires AllIn(order, infos) && q in InfoRequests(order, infos, rules)
    ensures !q.conflicting && exists x :: x in order && x in infos && infos[x] == q.info
  {
    SanctionedMembers(order, infos, rules);
    PlainRequestMembers(SanctionedOf(order, infos, rules), infos, q);
  }

  /** Every request uses the entry of its txid. */
  lemma RequestsAreDrawn(
      sets: seq<ConflictSet>, cs: seq<Component>, g: Graph, o: Orders, template: TxData, block: TxData, rules: Rules)
    requires ValidOrders(o, template, block)
    requires Keyed(Elements(o.onlyT), template.infos) && Keyed(Elements(o.onlyB), block.infos)
    requires IsGraphOf(g, Elements(o.onlyT), template.infos, Elements(o.onlyB), block.infos)
    requires AreConflictSets(sets, cs, g)
    ensures DrawnFrom(AllRequests(sets, o, template, block, rules), Entries(template, block))
  {
    var entries := Entries(template, block);
    OrdersFindEntries(o, template, block);
    var qs := AllRequests(sets, o, template, block, rules);
    forall k | 0 <= k < |qs| ensures RequestDrawn(qs[k], entries) {
      var q := qs[k];
      if q in SetRequests(sets) {
        SetRequestMembers(sets, q);
        var i :| 0 <= i < |sets| && (q.info in sets[i].templateTxns || q.info in sets[i].blockTxns);
        SetMembersComeFromSides(
          sets, cs, g, Elements(o.onlyT), template.infos, Elements(o.onlyB), block.infos, i, q.info);
      } else {
        PlainRequestIsDrawn(o, template, block, rules, q);
      }
    }
  }

  lemma PlainRequestIsDrawn(o: Orders, template: TxData, block: TxData, rules: Rules, q: Request)
    requires ValidOrders(o, template, block)
    requires AllIn(o.onlyT, template.infos) && AllIn(o.onlyB, block.infos) && AllIn(o.allT, template.infos)
    requires || q in RequestsFor(o.onlyT, template.infos) || q in RequestsFor(o.onlyB, block.infos)
             || q in InfoRequests(o.allT, template.infos, rules) || q in InfoRequests(o.onlyB, block.infos, rules)
    ensures RequestDrawn(q, Entries(template, block)) && !q.conflicting
  {
    PlainRequestMembers(o.onlyT, template.infos, q);
    PlainRequestMembers(o.onlyB, block.infos, q);
    if q in InfoRequests(o.allT, template.infos, rules) {
      InfoRequestMembers(o.allT, template.infos, rules, q);
    }
    if q in InfoRequests(o.onlyB, block.infos, rules) {
      InfoRequestMembers(o.onlyB, block.infos, rules, q);
    }
    if exists x :: x in o.onlyB && x in block.infos && block.infos[x] == q.info {
      var x :| x in o.onlyB && x in block.infos && block.infos[x] == q.info;
      assert x in Elements(o.onlyB);
    }
  }

  // ---------------------------------------------------------------- tags after all builders

  ghost predicate TxidInSets(sets: seq<ConflictSet>, x: Txid) {
    exists info: TxInfo :: info.txid == x && InSomeSet(sets, info)
  }

  lemma ConflictingIffInSets(sets: seq<ConflictSet>, o: Orders, template: TxData, block: TxData, rules: Rules, x: Txid)
    requires ValidOrders(o, template, block)
    ensures RequestedAsConflicting(AllRequests(sets, o, template, block, rules), x) <==> TxidInSets(sets, x)
  {
    var qs := AllRequests(sets, o, template, block, rules);
    OrdersFindEntries(o, template, block);
    if RequestedAsConflicting(qs, x) {
      var k :| 0 <= k < |qs| && qs[k].info.txid == x && qs[k].conflicting;
      var q := qs[k];
      if q !in SetRequests(sets) {
        PlainRequestIsDrawn(o, template, block, rules, q);
      }
      SetRequestMembers(sets, q);
    }
    if TxidInSets(sets, x) {
      var info: TxInfo :| info.txid == x && InSomeSet(sets, info);
      SetRequestMembers(sets, Request(info, true));
      assert Request(info, true) in qs;
    }
  }

  /**
   * After all builders a transaction that has a record is tagged as conflicting if and only if it is in
   * a conflict set, and marked as sanctioned if and only if it is tagged as paying to or spending from
   * the sanctioned.
   */
  lemma TagsAfterAllBuilders(
      sets: seq<ConflictSet>, cs: seq<Component>, g: Graph, o: Orders,
      template: TxData, block: TxData, ctx: Context, x: Txid)
    requires ValidOrders(o, template, block)
    requires Keyed(Elements(o.onlyT), template.infos) && Keyed(Elements(o.onlyB), block.infos)
    requires IsGraphOf(g, Elements(o.onlyT), template.infos, Elements(o.onlyB), block.infos)
    requires AreConflictSets(sets, cs, g)
    ensures var rows := AddAll(map[], RecordsFor(AllRequests(sets, o, template, block, ctx.rules), ctx));
            Reversed(x) in rows ==>
              var row := rows[Reversed(x)];
              && (CONFLICTING in row.tags <==> TxidInSets(sets, x))
              && (row.sanctioned <==> TO_SANCTIONED in row.tags || FROM_SANCTIONED in row.tags)
  {
    RequestsAreDrawn(sets, cs, g, o, template, block, ctx.rules);
    RequestsDecideRecord(AllRequests(sets, o, template, block, ctx.rules), Entries(template, block), ctx, x);
    ConflictingIffInSets(sets, o, template, block, ctx.rules, x);
  }

  /** A transaction of one side has a record exactly when it decodes. */
  lemma OneSidedRecord(
      sets: seq<ConflictSet>, cs: seq<Component>, g: Graph, o: Orders,
      template: TxData, block: TxData, ctx: Context, x: Txid)
    requires ValidOrders(o, template, block)
    requires Keyed(Elements(o.onlyT), template.infos) && Keyed(Elements(o.onlyB), block.infos)
    requires IsGraphOf(g, Elements(o.onlyT), template.infos, Elements(o.onlyB), block.infos)
    requires AreConflictSets(sets, cs, g)
    requires x in o.onlyT || x in o.onlyB
    ensures x in Entries(template, block)
    ensures Reversed(x) in AddAll(map[], RecordsFor(AllRequests(sets, o, template, block, ctx.rules), ctx))
            <==> ctx.decodes(Entries(template, block)[x].tx)
  {
    OrdersFindEntries(o, template, block);
    var qs := AllRequests(sets, o, template, block, ctx.rules);
    assert x in Elements(o.onlyT) + Elements(o.onlyB);
    var q := Request(Entries(template, block)[x], false);
    PlainRequestMembers(o.onlyT, template.infos, q);
    PlainRequestMembers(o.onlyB, block.infos, q);
    assert q in qs;
    RequestsAreDrawn(sets, cs, g, o, template, block, ctx.rules);
    RequestsDecideRecord(qs, Entries(template, block), ctx, x);
  }

  // ---------------------------------------------------------------- building the rows

  /** What the builders found and how they went about it. */
  datatype Trace = Trace(
    sets: seq<ConflictSet>, cs: seq<Component>, g: Graph, orders: Orders, split: nat, ages: map<Txid, int>)

  /** The records of the shared map, each once, in any order. */
  ghost predicate ListsRecords(rs: seq<TxRecord>, rows: RecordMap) {
    && DistinctRecords(rs)
    && (forall i :: 0 <= i < |rs| ==> rs[i].txid in rows && rows[rs[i].txid] == rs[i])
    && RecordTxids(rs) == rows.Keys
  }

  ghost predicate ConflictsBuilt(rows: seq<ConflictRow>, id: int, w: Trace, template: TxData, block: TxData) {
    && ValidOrders(w.orders, template, block)
    && Keyed(Elements(w.orders.onlyT), template.infos) && Keyed(Elements(w.orders.onlyB), block.infos)
    && IsGraphOf(w.g, Elements(w.orders.onlyT), template.infos, Elements(w.orders.onlyB), block.infos)
    && AreConflictSets(w.sets, w.cs, w.g)
    && |rows| == |w.sets| && forall i :: 0 <= i < |rows| ==> rows[i] == RowOf(id, w.sets[i])
  }

  /** The rows of one processing and how they relate to the template and the block. */
  ghost predicate Built(bundle: Bundle, id: int, w: Trace, template: TxData, block: TxData, ctx: Context) {
    && ConflictsBuilt(bundle.conflicts, id, w, template, block)
    && BlockLinksBuilt(bundle.onlyInBlock, id, w.orders.onlyB, block.infos)
    && TemplateLinksBuilt(bundle.onlyInTemplate, id, w.orders.onlyT, template.infos, w.ages)
    && RowsFor(bundle.infos, w.split, id, template, block, w.orders.allT, w.orders.onlyB, ctx)
    && ListsRecords(bundle.transactions,
                    AddAll(map[], RecordsFor(AllRequests(w.sets, w.orders, template, block, ctx.rules), ctx)))
  }

  lemma {:induction false} RecordsStayKeyed(rows: RecordMap, rs: seq<TxRecord>)
    requires WellKeyedTable(rows)
    ensures WellKeyedTable(AddAll(rows, rs))
  {
    if rs == [] {
    } else {
      RecordsStayKeyed(rows, rs[..|rs| - 1]);
    }
  }

  /** `transactions.values()`. */
  method ListRecords(rows: RecordMap) returns (rs: seq<TxRecord>)
    requires WellKeyedTable(rows)
    ensures ListsRecords(rs, rows)
  {
    var keys := Iterate(rows.Keys);
    assert forall i :: 0 <= i < |keys| ==> keys[i] in Elements(keys);
    rs := seq(|keys|, i requires 0 <= i < |keys| => rows[keys[i]]);
    forall k | k in rows.Keys ensures k in RecordTxids(rs) {
      assert k in Elements(keys);
      var i :| 0 <= i < |keys| && keys[i] == k;
      assert rs[i].txid == k;
    }
  }

  lemma JoinRequests(a: seq<Request>, b: seq<Request>, ctx: Context)
    ensures AddAll(AddAll(map[], RecordsFor(a, ctx)), RecordsFor(b, ctx)) == AddAll(map[], RecordsFor(a + b, ctx))
  {
    RecordsForConcat(a, b, ctx);
    AddAllConcat(map[], RecordsFor(a, ctx), RecordsFor(b, ctx));
  }

  method ChooseOrders(template: TxData, block: TxData) returns (o: Orders)
    requires WellKeyed(template) && WellKeyed(block)
    ensures ValidOrders(o, template, block)
  {
    var onlyT := Iterate(template.txids - block.txids);
    var onlyB := Iterate(block.txids - template.txids);
    var allT := Iterate(template.txids);
    o := Orders(onlyT, onlyB, allT);
  }

  /** The two builders of link rows. */
  method BuildLinks(id: int, o: Orders, template: TxData, block: TxData, ages: map<Txid, int>, ctx: Context,
                    txs: TransactionMap, ghost done: seq<Request>)
    returns (inTemplate: seq<OnlyInTemplateRow>, inBlock: seq<OnlyInBlockRow>)
    requires ValidOrders(o, template, block) && AllIn(o.onlyT, template.infos) && AllIn(o.onlyB, block.infos)
    requires txs.rows == AddAll(map[], RecordsFor(done, ctx))
    modifies txs
    ensures TemplateLinksBuilt(inTemplate, id, o.onlyT, template.infos, ages)
    ensures BlockLinksBuilt(inBlock, id, o.onlyB, block.infos)
    ensures txs.rows == AddAll(map[], RecordsFor(
              done + RequestsFor(o.onlyT, template.infos) + RequestsFor(o.onlyB, block.infos), ctx))
  {
    OrdersFindEntries(o, template, block);
    inTemplate := BuildOnlyInTemplate(id, o.onlyT, template.infos, ages, ctx, txs);
    JoinRequests(done, RequestsFor(o.onlyT, template.infos), ctx);
    inBlock := BuildOnlyInBlock(id, o.onlyB, block.infos, ctx, txs);
    JoinRequests(done + RequestsFor(o.onlyT, template.infos), RequestsFor(o.onlyB, block.infos), ctx);
  }

  /** Run the builders in their order on one shared record map. */
  method BuildRows(id: int, template: TxData, block: TxData, ages: map<Txid, int>, ctx: Context)
    returns (bundle: Bundle, ghost w: Trace)
    requires WellKeyed(template) && WellKeyed(block)
    ensures Built(bundle, id, w, template, block, ctx) && w.ages == ages
    ensures bundle.utxos == [] && bundle.debug == []
  {
    var o := ChooseOrders(template, block);
    OrdersFindEntries(o, template, block);
    var txs := new TransactionMap();
    var conflicts, sets, cs, g := BuildConflicting(id, o.onlyT, template.infos, o.onlyB, block.infos, ctx, txs);
    ghost var q0 := SetRequests(sets);
    var inTemplate, inBlock := BuildLinks(id, o, template, block, ages, ctx, txs, q0);
    ghost var q2 := q0 + RequestsFor(o.onlyT, template.infos) + RequestsFor(o.onlyB, block.infos);
    var infos, split := BuildSanctionedInfos(id, o.allT, template.infos, o.onlyB, block.infos, block.txids, ctx, txs);
    JoinRequests(
      q2, InfoRequests(o.allT, template.infos, ctx.rules) + InfoRequests(o.onlyB, block.infos, ctx.rules), ctx);
    w := Trace(sets, cs, g, o, split, ages);
    RecordsStayKeyed(map[], RecordsFor(AllRequests(sets, o, template, block, ctx.rules), ctx));
    var rs := ListRecords(txs.rows);
    bundle := Bundle(rs, inBlock, inTemplate, infos, conflicts, [], []);
  }

  // ---------------------------------------------------------------- the rows are fit to be stored

  lemma ReversedKeysDistinct<R>(rows: seq<R>, key: R -> LinkKey, order: seq<Txid>, id: int)
    requires |rows| == |order| && NoDup(order)
    requires forall i :: 0 <= i < |rows| ==> key(rows[i]) == (id, Reversed(order[i]))
    ensures Shaped(rows, key, id)
  {
    forall i, j | 0 <= i < j < |rows| ensures key(rows[i]) != key(rows[j]) {
      if Reversed(order[i]) == Reversed(order[j]) {
        ReversedInjective(order[i], order[j]);
      }
    }
  }

  lemma InfosShaped(infos: seq<InfoRow>, split: nat, id: int, template: TxData, block: TxData,
                    orderT: seq<Txid>, orderB: seq<Txid>, ctx: Context)
    requires RowsFor(infos, split, id, template, block, orderT, orderB, ctx)
    ensures Shaped(infos, InfoKey, id)
  {
    forall i, j | 0 <= i < j < |infos| ensures InfoKey(infos[i]) != InfoKey(infos[j]) {
      InfoKeysDoNotRepeat(infos, split, id, template, block, orderT, orderB, ctx, i, j);
    }
    forall i | 0 <= i < |infos| ensures InfoKey(infos[i]).0 == id {
      var xs, ys := Selected(orderT, template.infos, ctx), Selected(orderB, block.infos, ctx);
      if i < split {
        assert Describes(infos[..split][i], xs[i], template.infos[xs[i]], id, block.txids, true, ctx.rules);
      } else {
        var y := ys[i - split];
        assert Describes(infos[split..][i - split], y, block.infos[y], id, block.txids, false, ctx.rules);
      }
    }
  }

  /** Link rows are under the txids that the builders visit, in their order. */
  ghost predicate LinksFollowOrders(bundle: Bundle, id: int, o: Orders) {
    && |bundle.onlyInBlock| == |o.onlyB| && |bundle.onlyInTemplate| == |o.onlyT|
    && (forall i :: 0 <= i < |o.onlyB| ==> BlockLinkKey(bundle.onlyInBlock[i]) == (id, Reversed(o.onlyB[i])))
    && (forall i :: 0 <= i < |o.onlyT| ==> TemplateLinkKey(bundle.onlyInTemplate[i]) == (id, Reversed(o.onlyT[i])))
  }

  lemma LinksAreInOrder(bundle: Bundle, id: int, w: Trace, template: TxData, block: TxData)
    requires ValidOrders(w.orders, template, block)
    requires BlockLinksBuilt(bundle.onlyInBlock, id, w.orders.onlyB, block.infos)
    requires TemplateLinksBuilt(bundle.onlyInTemplate, id, w.orders.onlyT, template.infos, w.ages)
    ensures LinksFollowOrders(bundle, id, w.orders)
  {
    OrdersFindEntries(w.orders, template, block);
  }

  /** Two conflict sets never have the same key, and all their members have link rows. */
  lemma ConflictRowsShaped(bundle: Bundle, id: int, w: Trace, template: TxData, block: TxData)
    requires ConflictsBuilt(bundle.conflicts, id, w, template, block)
    requires LinksFollowOrders(bundle, id, w.orders)
    ensures ConflictsShaped(bundle, id)
  {
    var rows := bundle.conflicts;
    forall i, j | 0 <= i < j < |rows| ensures ConflictKeyOf(rows[i]) != ConflictKeyOf(rows[j]) {
      ConflictKeysDiffer(w.sets, w.cs, w.g, id, i, j);
    }
    forall i | 0 <= i < |rows| ensures MembersLinked(bundle, id, rows[i]) {
      forall x | x in rows[i].templateTxids ensures LinkedInTemplate(bundle, x) {
        var k :| 0 <= k < |w.sets[i].templateTxns| && Reversed(w.sets[i].templateTxns[k].txid) == x;
        SetMembersComeFromSides(w.sets, w.cs, w.g, Elements(w.orders.onlyT), template.infos,
                                Elements(w.orders.onlyB), block.infos, i, w.sets[i].templateTxns[k]);
        var n :| 0 <= n < |w.orders.onlyT| && w.orders.onlyT[n] == w.sets[i].templateTxns[k].txid;
        assert TemplateLinkKey(bundle.onlyInTemplate[n]).1 == x;
      }
      forall x | x in rows[i].blockTxids ensures LinkedInBlock(bundle, x) {
        var k :| 0 <= k < |w.sets[i].blockTxns| && Reversed(w.sets[i].blockTxns[k].txid) == x;
        SetMembersComeFromSides(w.sets, w.cs, w.g, Elements(w.orders.onlyT), template.infos,
                                Elements(w.orders.onlyB), block.infos, i, w.sets[i].blockTxns[k]);
        var n :| 0 <= n < |w.orders.onlyB| && w.orders.onlyB[n] == w.sets[i].blockTxns[k].txid;
        assert BlockLinkKey(bundle.onlyInBlock[n]).1 == x;
      }
    }
  }

  lemma ConflictKeysDiffer(sets: seq<ConflictSet>, cs: seq<Component>, g: Graph, id: int, i: int, j: int)
    requires AreConflictSets(sets, cs, g) && KeyedByTxid(g.tmpl) && 0 <= i < j < |sets|
    ensures ConflictKeyOf(RowOf(id, sets[i])) != ConflictKeyOf(RowOf(id, sets[j]))
  {
    assert HoldsSet(sets[i], cs[i]) && HoldsSet(sets[j], cs[j]);
    assert IsLinkedGroup(g, cs[i]) && IsLinkedGroup(g, cs[j]) && Apart(cs, i, j);
    NoneEmpty(g, cs, i);
    var t := sets[i].templateTxns[0];
    assert t in cs[i].ts;
    SpendersTellApart(g.tmpl, cs[i].ts + cs[j].ts);
    forall u | u in sets[j].templateTxns ensures Reversed(t.txid) != Reversed(u.txid) {
      assert u in cs[j].ts;
      if Reversed(t.txid) == Reversed(u.txid) {
        ReversedInjective(t.txid, u.txid);
      }
    }
    assert RowOf(id, sets[i]).templateTxids[0] == Reversed(t.txid);
    assert RowOf(id, sets[i]).templateTxids[0] !in RowOf(id, sets[j]).templateTxids;
  }

  /** What the builders produce can be stored. */
  lemma BuiltIsWellFormed(bundle: Bundle, id: int, w: Trace, template: TxData, block: TxData, ctx: Context)
    requires Built(bundle, id, w, template, block, ctx)
    ensures WellFormed(bundle, id)
  {
    LinksAreInOrder(bundle, id, w, template, block);
    RecordsForDoNotRepeat(AllRequests(w.sets, w.orders, template, block, ctx.rules), ctx);
    MergingDoesNotRepeat(map[], RecordsFor(AllRequests(w.sets, w.orders, template, block, ctx.rules), ctx));
    ReversedKeysDistinct(bundle.onlyInBlock, BlockLinkKey, w.orders.onlyB, id);
    ReversedKeysDistinct(bundle.onlyInTemplate, TemplateLinkKey, w.orders.onlyT, id);
    InfosShaped(bundle.infos, w.split, id, template, block, w.orders.allT, w.orders.onlyB, ctx);
    ConflictRowsShaped(bundle, id, w, template, block);
    InfosHaveRecords(bundle, id, w, template, block, ctx);
  }

  lemma InfosHaveRecords(bundle: Bundle, id: int, w: Trace, template: TxData, block: TxData, ctx: Context)
    requires Built(bundle, id, w, template, block, ctx)
    ensures TxidsIn(bundle.infos, InfoKey, RecordTxids(bundle.transactions))
  {
    forall i | 0 <= i < |bundle.infos| ensures InfoKey(bundle.infos[i]).1 in RecordTxids(bundle.transactions) {
      InfoHasRecord(bundle, id, w, template, block, ctx, i);
    }
  }

  lemma InfoHasRecord(bundle: Bundle, id: int, w: Trace, template: TxData, block: TxData, ctx: Context, i: nat)
    requires ConflictsBuilt(bundle.conflicts, id, w, template, block)
    requires RowsFor(bundle.infos, w.split, id, template, block, w.orders.allT, w.orders.onlyB, ctx)
    requires i < |bundle.infos|
    ensures bundle.infos[i].txid in
            AddAll(map[], RecordsFor(AllRequests(w.sets, w.orders, template, block, ctx.rules), ctx))
  {
    var x, keys := KeyOfRow(bundle.infos, w.split, id, template, block, w.orders.allT, w.orders.onlyB, ctx, i);
    InfoRecord(w, template, block, ctx, x, keys);
  }

  /** A transaction that gets an info row also gets a record. */
  lemma InfoRecord(w: Trace, template: TxData, block: TxData, ctx: Context, x: Txid, keys: seq<Txid>)
    requires ValidOrders(w.orders, template, block)
    requires Keyed(Elements(w.orders.onlyT), template.infos) && Keyed(Elements(w.orders.onlyB), block.infos)
    requires IsGraphOf(w.g, Elements(w.orders.onlyT), template.infos, Elements(w.orders.onlyB), block.infos)
    requires AreConflictSets(w.sets, w.cs, w.g)
    requires AllIn(w.orders.allT, template.infos) && AllIn(w.orders.onlyB, block.infos)
    requires keys == Selected(w.orders.allT, template.infos, ctx) || keys == Selected(w.orders.onlyB, block.infos, ctx)
    requires x in keys
    ensures Reversed(x) in AddAll(map[], RecordsFor(AllRequests(w.sets, w.orders, template, block, ctx.rules), ctx))
  {
    var o := w.orders;
    var qs := AllRequests(w.sets, o, template, block, ctx.rules);
    var entries := Entries(template, block);
    SelectedMembers(o.allT, template.infos, ctx);
    SelectedMembers(o.onlyB, block.infos, ctx);
    assert x in o.allT ==> x in Elements(o.allT);
    assert x in o.onlyB ==> x in Elements(o.onlyB);
    var q := Request(entries[x], false);
    SanctionedMembers(o.allT, template.infos, ctx.rules);
    SanctionedMembers(o.onlyB, block.infos, ctx.rules);
    PlainRequestMembers(SanctionedOf(o.allT, template.infos, ctx.rules), template.infos, q);
    PlainRequestMembers(SanctionedOf(o.onlyB, block.infos, ctx.rules), block.infos, q);
    assert q in InfoRequests(o.allT, template.infos, ctx.rules) || q in InfoRequests(o.onlyB, block.infos, ctx.rules);
    assert q in qs;
    RequestsAreDrawn(w.sets, w.cs, w.g, o, template, block, ctx.rules);
    RequestsDecideRecord(qs, entries, ctx, x);
  }

  ghost predicate Known(txids: set<Txid>, infos: map<Txid, TxInfo>, ctx: Context, stored: RecordMap) {
    forall x :: x in txids && x in infos ==> ctx.decodes(infos[x].tx) || Reversed(x) in stored
  }

  /** Every transaction found on one side only decodes or is already stored. */
  ghost predicate OneSidedKnown(template: TxData, block: TxData, ctx: Context, stored: RecordMap) {
    && Known(template.txids - block.txids, template.infos, ctx, stored)
    && Known(block.txids - template.txids, block.infos, ctx, stored)
  }

  lemma SideKnown<R>(rows: seq<R>, key: R -> LinkKey, order: seq<Txid>, id: int,
                     txids: set<Txid>, infos: map<Txid, TxInfo>, ctx: Context, records: set<Bytes>, stored: RecordMap)
    requires |rows| == |order| && forall i :: 0 <= i < |rows| ==> key(rows[i]) == (id, Reversed(order[i]))
    requires Elements(order) == txids && txids <= infos.Keys
    requires forall x :: x in txids ==> (Reversed(x) in records <==> ctx.decodes(infos[x].tx))
    ensures TxidsIn(rows, key, stored.Keys + records) <==> Known(txids, infos, ctx, stored)
  {
    LinkSideKnown(rows, key, order, id, stored.Keys + records);
    assert forall x :: x in order <==> x in Elements(order);
  }

  lemma OneSidedRecords(bundle: Bundle, id: int, w: Trace, template: TxData, block: TxData, ctx: Context)
    requires Built(bundle, id, w, template, block, ctx)
    ensures forall x :: x in template.txids - block.txids ==>
              (Reversed(x) in RecordTxids(bundle.transactions) <==> ctx.decodes(template.infos[x].tx))
    ensures forall x :: x in block.txids - template.txids ==>
              (Reversed(x) in RecordTxids(bundle.transactions) <==> ctx.decodes(block.infos[x].tx))
  {
    var o := w.orders;
    forall x | x in template.txids - block.txids
      ensures Reversed(x) in RecordTxids(bundle.transactions) <==> ctx.decodes(template.infos[x].tx)
    {
      assert x in Elements(o.onlyT);
      OneSidedRecord(w.sets, w.cs, w.g, o, template, block, ctx, x);
    }
    forall x | x in block.txids - template.txids
      ensures Reversed(x) in RecordTxids(bundle.transactions) <==> ctx.decodes(block.infos[x].tx)
    {
      assert x in Elements(o.onlyB);
      OneSidedRecord(w.sets, w.cs, w.g, o, template, block, ctx, x);
    }
  }

  /** The link rows are admitted exactly in that case. */
  lemma LinksKnownIffDecoded(
      bundle: Bundle, id: int, w: Trace, template: TxData, block: TxData, ctx: Context, stored: RecordMap)
    requires Built(bundle, id, w, template, block, ctx)
    ensures LinksKnown(bundle, stored) <==> OneSidedKnown(template, block, ctx, stored)
  {
    OneSidedRecords(bundle, id, w, template, block, ctx);
    LinksAreInOrder(bundle, id, w, template, block);
    SideKnown(bundle.onlyInBlock, BlockLinkKey, w.orders.onlyB, id, block.txids - template.txids, block.infos, ctx,
              RecordTxids(bundle.transactions), stored);
    SideKnown(bundle.onlyInTemplate, TemplateLinkKey, w.orders.onlyT, id, template.txids - block.txids, template.infos,
              ctx, RecordTxids(bundle.transactions), stored);
  }

  lemma LinkSideKnown<R>(rows: seq<R>, key: R -> LinkKey, order: seq<Txid>, id: int, known: set<Bytes>)
    requires |rows| == |order| && forall i :: 0 <= i < |rows| ==> key(rows[i]) == (id, Reversed(order[i]))
    ensures TxidsIn(rows, key, known) <==> forall x :: x in order ==> Reversed(x) in known
  {
    if TxidsIn(rows, key, known) {
      forall x | x in order ensures Reversed(x) in known {
        var i :| 0 <= i < |order| && order[i] == x;
        assert key(rows[i]).1 in known;
      }
    }
    if forall x :: x in order ==> Reversed(x) in known {
      forall i | 0 <= i < |rows| ensures key(rows[i]).1 in known {
        assert order[i] in order;
      }
    }
  }

  // ---------------------------------------------------------------- one processing

  /** Everything a processing gets from outside: RPC answers, library functions, the next id, and faults. */
  datatype Environment = Environment(
    fees: map<Txid, nat>, ages: map<Txid, int>,
    addressOf: Bytes -> Option<string>, addresses: set<string>,
    decodes: Transaction -> bool, facts: TxInfo -> TagFacts,
    id: int, utxosUnreadable: bool, blockFault: bool, fault: Option<Fault>)

  /** The counts of the block row: sizes from the block and the node's template, differences from the txid sets. */
  function BlockRowFor(id: int, selected: Template, b: Block, template: TxData, block: TxData, rules: Rules): BlockRow
    requires template.txids <= template.infos.Keys
  {
    BlockRow(id, selected.height, |b.txdata|, |selected.txs|,
             |template.txids - block.txids|, |block.txids - template.txids|, |block.txids * template.txids|,
             TemplateSanctioned(template, rules), BlockSanctioned(b.txdata, rules),
             SanctionedMissing(template.txids - block.txids, template, rules))
  }

  ghost predicate ReadsRules(rules: Rules, env: Environment, utxos: UtxoTable) {
    && rules.addressOf == env.addressOf && rules.addresses == env.addresses
    && exists listed :: rules.utxos == IndexUtxos(listed)
         && (if env.utxosUnreadable then listed == [] else Elements(listed) == utxos.Values)
  }

  /** The rules of one processing: an unreadable table of sanctioned outputs counts as empty. */
  method ReadRules(env: Environment, db: Database) returns (rules: Rules)
    ensures ReadsRules(rules, env, db.utxos)
  {
    var listed: seq<SanctionedUtxo> := [];
    if !env.utxosUnreadable {
      listed := Iterate(db.utxos.Values);
    }
    rules := Rules(env.addressOf, env.addresses, IndexUtxos(listed));
  }

  ghost predicate AreNewUtxos(rows: seq<SanctionedUtxo>, b: Block, rules: Rules) {
    forall r :: r in rows <==> IsNewUtxo(b, rules, |b.txdata|, r)
  }

  /**
   * What one step of a run stored about sanctioned outputs is what later ones see: a transaction that
   * spends an output which paid a sanctioned address in an earlier block counts as from-sanctioned.
   */
  lemma LaterRulesSeeStoredOutputs(
      steps: seq<UtxoStep>, j: nat, k: nat, b: Block, earlier: Rules, x: nat, i: U32,
      env: Environment, later: Rules, spender: Transaction)
    requires IsUtxoLog(steps) && j < k < |steps| && ValidTable(steps[0].before)
    requires AreNewUtxos(steps[j].batch, b, earlier)
    requires x < |b.txdata| && i < |b.txdata[x].outputs| && PaysSanctioned(b.txdata[x].outputs[i], earlier)
    requires !env.utxosUnreadable && ReadsRules(later, env, steps[k].before)
    requires OutPoint(b.txdata[x].txid, i) in spender.inputs
    ensures IsFromSanctioned(spender, later)
  {
    LogInsertsBatches(steps, 0, j);
    BatchesStayValid(steps[0].before, BatchesOf(steps[0..j]));
    LogInsertsBatches(steps, j, k);
    var stored, batches := steps[k].before, BatchesOf(steps[j..k]);
    BatchesStayValid(steps[j].before, batches);
    var listed :| later.utxos == IndexUtxos(listed) && Elements(listed) == stored.Values;
    ListingIsTable(listed, stored);
    SpenderIsFromSanctioned(steps[j].before, batches, 0, b, earlier, x, i, listed, later, spender);
  }

  /** What a processing worked on, for its contract. */
  datatype Work = Work(template: TxData, block: TxData, ctx: Context, bundle: Bundle, trace: Trace)

  /** The data is that of the template which differs least from the block. */
  ghost predicate CollectsBest(template: TxData, buffer: seq<Template>, block: set<Txid>)
    requires buffer != []
  {
    var selected := buffer[SelectBest(buffer, block)];
    Collects(template, selected, |selected.txs|)
  }

  ghost predicate WorksOn(wk: Work, b: Block, buffer: seq<Template>, env: Environment, utxos: UtxoTable)
    requires buffer != []
  {
    && WellKeyed(wk.template) && WellKeyed(wk.block)
    && ListsBlock(wk.block.list, b, env.fees)
    && CollectsBest(wk.template, buffer, wk.block.txids)
    && wk.ctx.decodes == env.decodes && wk.ctx.facts == env.facts && ReadsRules(wk.ctx.rules, env, utxos)
  }

  /** Collect both sides: the block and the template that differs least from it. */
  method CollectData(
      b: Block, buffer: seq<Template>, fees: map<Txid, nat>)
    returns (template: TxData, block: TxData, selected: Template)
    requires buffer != [] && (forall t :: t in buffer ==> NodeTxidsMatch(t))
    requires forall i :: 0 <= i < |b.txdata| ==> b.txdata[i].txid in fees
    ensures WellKeyed(template) && WellKeyed(block)
    ensures ListsBlock(block.list, b, fees)
    ensures selected == buffer[SelectBest(buffer, block.txids)] && CollectsBest(template, buffer, block.txids)
  {
    block := BuildBlockTxData(b, fees);
    selected := buffer[SelectBest(buffer, block.txids)];
    template := BuildTemplateTxData(selected);
    MatchingTxidsAreWellKeyed(template, selected);
  }

  /** Build all rows of a block that has just got its row, and store them. */
  method BuildAndStore(b: Block, template: TxData, block: TxData, debug: seq<DebugRow>, ctx: Context,
                       env: Environment, db: Database)
    returns (completed: bool, ghost bundle: Bundle, ghost w: Trace, ghost part: Part)
    requires WellKeyed(template) && WellKeyed(block)
    requires db.Closed() && env.id in db.Ids() && db.Unused(env.id)
    modifies db`onlyInBlock, db`onlyInTemplate, db`infos, db`conflicts, db`utxos, db`debug, db.transactions
    ensures db.Closed()
    ensures Grows(old(db.transactions.rows), db.transactions.rows)
    ensures Built(bundle, env.id, w, template, block, ctx) && bundle.debug == debug && w.ages == env.ages
    ensures AreNewUtxos(bundle.utxos, b, ctx.rules)
    ensures env.fault.None? ==> (completed <==> OneSidedKnown(template, block, ctx, old(db.transactions.rows)))
    ensures completed ==> db.Contents() == WithBundle(old(db.Contents()), bundle, env.id)
    ensures IsPartOf(part, bundle)
    ensures db.conflicts == PutAll(old(db.conflicts), part.conflicts, ConflictKeyOf)
    ensures db.utxos == InsertUtxos(old(db.utxos), part.utxos)
    ensures db.onlyInTemplate == PutAll(old(db.onlyInTemplate), part.leftOut, TemplateLinkKey)
    ensures HaveId(part.conflicts, env.id) && HaveLinkId(part.leftOut, env.id)
    ensures completed ==> part == WholeOf(bundle)
    ensures SparesOutputs(env.fault) && OneSidedKnown(template, block, ctx, old(db.transactions.rows)) ==>
              part.utxos == bundle.utxos
  {
    var rows, trace := BuildRows(env.id, template, block, env.ages, ctx);
    var newUtxos := BuildNewUtxos(b, ctx.rules);
    var all := rows.(utxos := newUtxos, debug := debug);
    bundle, w := all, trace;
    BuiltIsWellFormed(all, env.id, trace, template, block, ctx);
    BuiltReports(all, env.id, trace, template, block, ctx);
    LinksKnownIffDecoded(all, env.id, trace, template, block, ctx, db.transactions.rows);
    completed, part := db.StoreBundle(all, env.id, env.fault);
  }

  /** Block hash and id are new, so the block row is accepted. */
  ghost predicate IsNew(b: Block, env: Environment, blocks: BlockTable) {
    !env.blockFault && b.hash !in blocks && env.id !in IdsOf(blocks)
  }

  /** The conflict rows of a new block: one for each set of conflicting transactions, under different keys. */
  ghost predicate ReportsConflicts(rows: seq<ConflictRow>, id: int, w: Trace, template: TxData, block: TxData) {
    ConflictsBuilt(rows, id, w, template, block) && DistinctKeys(rows, ConflictKeyOf)
  }

  lemma BuiltReports(bundle: Bundle, id: int, w: Trace, template: TxData, block: TxData, ctx: Context)
    requires Built(bundle, id, w, template, block, ctx)
    ensures ReportsConflicts(bundle.conflicts, id, w, template, block)
    ensures HaveId(bundle.conflicts, id) && HaveLinkId(bundle.onlyInTemplate, id)
  {
    LinksAreInOrder(bundle, id, w, template, block);
    ConflictRowsShaped(bundle, id, w, template, block);
  }

  lemma RowIsAdded(before: Core, after: Core, hash: Hash, row: BlockRow, part: Part)
    requires Refers(before) && Adds(before, after, hash, row, part)
    ensures ValidTableStep(TableStep(before, after, Some((hash, row)), part))
  {
  }

  /** The block row first; a block or id that has one ends the processing. */
  method StoreComparison(b: Block, row: BlockRow, template: TxData, block: TxData, debug: seq<DebugRow>, ctx: Context,
                         env: Environment, db: Database)
    returns (completed: bool, ghost bundle: Bundle, ghost w: Trace, ghost step: TableStep,
             ghost outcome: TemplateBuffer.DbOutcome)
    requires WellKeyed(template) && WellKeyed(block) && db.Closed() && row.id == env.id
    modifies db, db.transactions
    ensures db.Closed()
    ensures Grows(old(db.transactions.rows), db.transactions.rows)
    ensures step.before == old(db.CoreTables()) && step.after == db.CoreTables() && ValidTableStep(step)
    ensures step.added == if IsNew(b, env, old(db.blocks)) then Some((b.hash, row)) else None
    ensures step.added.None? ==> !completed && unchanged(db) && unchanged(db.transactions)
    ensures step.added.Some? ==>
              && Built(bundle, env.id, w, template, block, ctx) && bundle.debug == debug && w.ages == env.ages
              && AreNewUtxos(bundle.utxos, b, ctx.rules)
    ensures IsPartOf(step.part, bundle)
    ensures env.fault.None? && step.added.Some? ==>
              (completed <==> OneSidedKnown(template, block, ctx, old(db.transactions.rows)))
    ensures completed ==> db.Contents() == WithBundle(old(db.Contents()), bundle, env.id)
    ensures completed ==> step.part == WholeOf(bundle)
    ensures SparesOutputs(env.fault) && step.added.Some?
            && OneSidedKnown(template, block, ctx, old(db.transactions.rows)) ==>
              step.part.utxos == bundle.utxos
    ensures completed == TemplateBuffer.Completes(old(db.blocks).Keys, b, outcome)
    ensures db.blocks.Keys == TemplateBuffer.RowsAfter(old(db.blocks).Keys, b, outcome)
  {
    bundle := Bundle([], [], [], [], [], [], []);
    w := Trace([], [], Graph({}, map[], map[]), Orders([], [], []), 0, map[]);
    outcome := TemplateBuffer.FailsBeforeBlockRow;
    ghost var before, part := db.CoreTables(), NOTHING;
    ClosedRefers(before, db.transactions.rows.Keys);
    completed := db.InsertBlock(b.hash, row, env.blockFault);
    step := TableStep(before, before, None, part);
    if completed {
      completed, bundle, w, part := BuildAndStore(b, template, block, debug, ctx, env, db);
      RowIsAdded(before, db.CoreTables(), b.hash, row, part);
      step := TableStep(before, db.CoreTables(), Some((b.hash, row)), part);
      outcome := if completed then TemplateBuffer.StoresEverything else TemplateBuffer.FailsAfterBlockRow;
    }
  }

  /** The template that differs least from the block. */
  function ChosenBy(wk: Work, buffer: seq<Template>): Template
    requires buffer != []
  {
    buffer[SelectBest(buffer, wk.block.txids)]
  }

  ghost function RowFrom(wk: Work, b: Block, buffer: seq<Template>, id: int): BlockRow
    requires buffer != [] && wk.template.txids <= wk.template.infos.Keys
  {
    BlockRowFor(id, ChosenBy(wk, buffer), b, wk.template, wk.block, wk.ctx.rules)
  }

  /** What the processing of a new block builds. */
  ghost predicate BuildsFor(wk: Work, b: Block, buffer: seq<Template>, env: Environment)
    requires buffer != []
  {
    && Built(wk.bundle, env.id, wk.trace, wk.template, wk.block, wk.ctx) && wk.trace.ages == env.ages
    && wk.bundle.debug == DebugRows(buffer, wk.block.txids, ChosenBy(wk, buffer).time)
    && AreNewUtxos(wk.bundle.utxos, b, wk.ctx.rules)
  }

  // ---------------------------------------------------------------- what the rows tell

  /** The block row has the sizes of both sides, and counts what the other rows list. */
  ghost predicate BlockRowTells(row: BlockRow, wk: Work, b: Block, selected: Template) {
    && row.height == selected.height && row.blockTx == |b.txdata| && row.templateTx == |selected.txs|
    && row.missing == |wk.bundle.onlyInTemplate| && row.extra == |wk.bundle.onlyInBlock|
    && row.shared + row.missing == |wk.template.txids| && row.shared + row.extra == |wk.block.txids|
  }

  lemma LinksAreCounted(bundle: Bundle, id: int, w: Trace, template: TxData, block: TxData)
    requires LinksFollowOrders(bundle, id, w.orders) && ValidOrders(w.orders, template, block)
    ensures |bundle.onlyInTemplate| == |template.txids - block.txids|
    ensures |bundle.onlyInBlock| == |block.txids - template.txids|
  {
    NoDupSize(w.orders.onlyT);
    NoDupSize(w.orders.onlyB);
  }

  lemma SidesAddUp(t: set<Txid>, b: set<Txid>)
    ensures |b * t| + |t - b| == |t| && |b * t| + |b - t| == |b|
  {
    assert t == (b * t) + (t - b) && b == (b * t) + (b - t);
  }

  lemma WhatBlockRowTells(wk: Work, b: Block, selected: Template, id: int)
    requires LinksFollowOrders(wk.bundle, id, wk.trace.orders) && ValidOrders(wk.trace.orders, wk.template, wk.block)
    ensures BlockRowTells(BlockRowFor(id, selected, b, wk.template, wk.block, wk.ctx.rules), wk, b, selected)
  {
    LinksAreCounted(wk.bundle, id, wk.trace, wk.template, wk.block);
    SidesAddUp(wk.template.txids, wk.block.txids);
  }

  /** The row of a transaction left out leads to its entry in the template, and has the age the node gave for it. */
  ghost predicate StandsInTemplate(r: OnlyInTemplateRow, selected: Template, ages: map<Txid, int>) {
    && 0 <= r.position < |selected.txs| && Reversed(selected.txs[r.position].txid) == r.txid
    && (Reversed(r.txid) in ages ==> r.mempoolAge == ages[Reversed(r.txid)])
    && (Reversed(r.txid) !in ages ==> r.mempoolAge == -1)
  }

  ghost predicate StandsInBlock(r: OnlyInBlockRow, b: Block) {
    0 <= r.position < |b.txdata| && Reversed(b.txdata[r.position].txid) == r.txid
  }

  /** Every transaction found on one side only has a row, and its row leads back to it. */
  ghost predicate LinkRowsTell(wk: Work, b: Block, selected: Template, ages: map<Txid, int>) {
    && (forall r :: r in wk.bundle.onlyInTemplate ==> StandsInTemplate(r, selected, ages))
    && (forall r :: r in wk.bundle.onlyInBlock ==> StandsInBlock(r, b))
    && (forall x :: x in wk.template.txids - wk.block.txids ==> LinkedInTemplate(wk.bundle, Reversed(x)))
    && (forall x :: x in wk.block.txids - wk.template.txids ==> LinkedInBlock(wk.bundle, Reversed(x)))
  }

  lemma EntryIsInTemplate(d: TxData, t: Template, x: Txid)
    requires WellKeyed(d) && Collects(d, t, |t.txs|) && x in d.txids
    ensures DecodesTo(t, d.infos[x].pos, d.infos[x]) && t.txs[d.infos[x].pos].txid == x
  {
    var i :| i < |t.txs| && DecodesTo(t, i, d.infos[x]) && t.txs[i].txid == x;
  }

  lemma EntryIsInBlock(d: TxData, b: Block, fees: map<Txid, nat>, x: Txid)
    requires WellKeyed(d) && ListsBlock(d.list, b, fees) && x in d.txids
    ensures 0 <= d.infos[x].pos < |b.txdata| && b.txdata[d.infos[x].pos] == d.infos[x].tx
    ensures x in fees && d.infos[x].fee == fees[x]
  {
    var i :| 0 <= i < |d.list| && d.list[i] == d.infos[x];
  }

  lemma TemplateRowStands(
      r: OnlyInTemplateRow, id: int, d: TxData, selected: Template, x: Txid, ages: map<Txid, int>)
    requires WellKeyed(d) && Collects(d, selected, |selected.txs|) && x in d.txids
    requires IsTemplateLink(r, id, d.infos[x], x, ages)
    ensures StandsInTemplate(r, selected, ages)
  {
    EntryIsInTemplate(d, selected, x);
    ReversedTwice(x);
  }

  lemma BlockRowStands(r: OnlyInBlockRow, id: int, d: TxData, b: Block, fees: map<Txid, nat>, x: Txid)
    requires WellKeyed(d) && ListsBlock(d.list, b, fees) && x in d.txids && IsBlockLink(r, id, d.infos[x])
    ensures StandsInBlock(r, b)
  {
    EntryIsInBlock(d, b, fees, x);
  }

  lemma OneSidedAreLinked(wk: Work, id: int)
    requires ValidOrders(wk.trace.orders, wk.template, wk.block) && LinksFollowOrders(wk.bundle, id, wk.trace.orders)
    ensures forall x :: x in wk.template.txids - wk.block.txids ==> LinkedInTemplate(wk.bundle, Reversed(x))
    ensures forall x :: x in wk.block.txids - wk.template.txids ==> LinkedInBlock(wk.bundle, Reversed(x))
  {
    var o := wk.trace.orders;
    forall x | x in wk.template.txids - wk.block.txids ensures LinkedInTemplate(wk.bundle, Reversed(x)) {
      assert x in Elements(o.onlyT);
      var i :| 0 <= i < |o.onlyT| && o.onlyT[i] == x;
      assert TemplateLinkKey(wk.bundle.onlyInTemplate[i]).1 == Reversed(x);
    }
    forall x | x in wk.block.txids - wk.template.txids ensures LinkedInBlock(wk.bundle, Reversed(x)) {
      assert x in Elements(o.onlyB);
      var i :| 0 <= i < |o.onlyB| && o.onlyB[i] == x;
      assert BlockLinkKey(wk.bundle.onlyInBlock[i]).1 == Reversed(x);
    }
  }

  lemma WhatLinkRowsTell(wk: Work, b: Block, selected: Template, id: int, fees: map<Txid, nat>)
    requires ValidOrders(wk.trace.orders, wk.template, wk.block)
    requires BlockLinksBuilt(wk.bundle.onlyInBlock, id, wk.trace.orders.onlyB, wk.block.infos)
    requires TemplateLinksBuilt(
               wk.bundle.onlyInTemplate, id, wk.trace.orders.onlyT, wk.template.infos, wk.trace.ages)
    requires Collects(wk.template, selected, |selected.txs|) && ListsBlock(wk.block.list, b, fees)
    ensures LinkRowsTell(wk, b, selected, wk.trace.ages)
  {
    var o := wk.trace.orders;
    OrdersFindEntries(o, wk.template, wk.block);
    forall r | r in wk.bundle.onlyInTemplate ensures StandsInTemplate(r, selected, wk.trace.ages) {
      var i :| 0 <= i < |wk.bundle.onlyInTemplate| && wk.bundle.onlyInTemplate[i] == r;
      TemplateRowStands(r, id, wk.template, selected, o.onlyT[i], wk.trace.ages);
    }
    forall r | r in wk.bundle.onlyInBlock ensures StandsInBlock(r, b) {
      var i :| 0 <= i < |wk.bundle.onlyInBlock| && wk.bundle.onlyInBlock[i] == r;
      BlockRowStands(r, id, wk.block, b, fees, o.onlyB[i]);
    }
    LinksAreInOrder(wk.bundle, id, wk.trace, wk.template, wk.block);
    OneSidedAreLinked(wk, id);
  }

  /** The record has the fee and the size of the template's entry at `i`. */
  ghost predicate IsRecordOfEntry(r: TxRecord, t: Template, i: int) {
    && 0 <= i < |t.txs| && t.txs[i].decoded.Some? && r.txid == Reversed(t.txs[i].txid)
    && r.fee == t.txs[i].fee && r.vsize == t.txs[i].decoded.value.vsize
  }

  /** The record has the size of the block's transaction at `i`, and the fee the node gave for it. */
  ghost predicate IsRecordOfMined(r: TxRecord, b: Block, fees: map<Txid, nat>, i: int) {
    && 0 <= i < |b.txdata| && r.txid == Reversed(b.txdata[i].txid) && r.vsize == b.txdata[i].vsize
    && b.txdata[i].txid in fees && r.fee == fees[b.txdata[i].txid]
  }

  ghost predicate RecordTells(r: TxRecord, template: set<Txid>, b: Block, selected: Template, fees: map<Txid, nat>) {
    if Reversed(r.txid) in template then exists i :: IsRecordOfEntry(r, selected, i)
    else exists i :: IsRecordOfMined(r, b, fees, i)
  }

  /** The record has the txid, fee and size of the entry of its txid. */
  ghost predicate HasEntry(r: TxRecord, entries: map<Txid, TxInfo>) {
    var x := Reversed(r.txid);
    x in entries && r.txid == Reversed(x) && r.fee == entries[x].fee && r.vsize == entries[x].tx.vsize
  }

  lemma RecordIsOfEntry(wk: Work, id: int, r: TxRecord)
    requires Built(wk.bundle, id, wk.trace, wk.template, wk.block, wk.ctx) && r in wk.bundle.transactions
    ensures HasEntry(r, Entries(wk.template, wk.block))
  {
    var w, x := wk.trace, Reversed(r.txid);
    var qs := AllRequests(w.sets, w.orders, wk.template, wk.block, wk.ctx.rules);
    ReversedTwice(r.txid);
    RequestsAreDrawn(w.sets, w.cs, w.g, w.orders, wk.template, wk.block, wk.ctx.rules);
    RequestsDecideRecord(qs, Entries(wk.template, wk.block), wk.ctx, x);
  }

  lemma WhatRecordTells(
      r: TxRecord, template: TxData, block: TxData, b: Block, selected: Template, fees: map<Txid, nat>)
    requires WellKeyed(template) && WellKeyed(block) && HasEntry(r, Entries(template, block))
    requires Collects(template, selected, |selected.txs|) && ListsBlock(block.list, b, fees)
    ensures RecordTells(r, template.txids, b, selected, fees)
  {
    var x := Reversed(r.txid);
    if x in template.txids {
      EntryIsInTemplate(template, selected, x);
      assert IsRecordOfEntry(r, selected, template.infos[x].pos);
    } else {
      EntryIsInBlock(block, b, fees, x);
      assert IsRecordOfMined(r, b, fees, block.infos[x].pos);
    }
  }

  ghost predicate StandsForOutput(r: SanctionedUtxo, b: Block, rules: Rules) {
    exists k, i, a :: IsRowOfOutput(r, b, rules, k, i, a)
  }

  ghost predicate HasOutputRow(rows: seq<SanctionedUtxo>, b: Block, rules: Rules, k: nat, i: nat) {
    exists r, a :: r in rows && IsRowOfOutput(r, b, rules, k, i, a)
  }

  /** The rows are about outputs that pay listed addresses, and every such output has one. */
  ghost predicate OutputRowsTell(rows: seq<SanctionedUtxo>, b: Block, rules: Rules) {
    && (forall r :: r in rows ==> StandsForOutput(r, b, rules))
    && (forall k: nat, i: nat ::
          k < |b.txdata| && i < |b.txdata[k].outputs| && PaysSanctioned(b.txdata[k].outputs[i], rules) ==>
            HasOutputRow(rows, b, rules, k, i))
  }

  lemma WhatOutputRowsTell(rows: seq<SanctionedUtxo>, b: Block, rules: Rules)
    requires AreNewUtxos(rows, b, rules)
    ensures OutputRowsTell(rows, b, rules)
  {
    forall r | r in rows ensures StandsForOutput(r, b, rules) {
      var k, i, a := NewUtxoShowsOutput(b, rules, r);
    }
    forall k: nat, i: nat |
        k < |b.txdata| && i < |b.txdata[k].outputs| && PaysSanctioned(b.txdata[k].outputs[i], rules)
      ensures HasOutputRow(rows, b, rules, k, i)
    {
      var r := PaidOutputHasRow(b, rules, k, i, rules.addressOf(b.txdata[k].outputs[i].script).value);
    }
  }

  /** The rows of a new block, told from the block, the selected template and the answers of the node. */
  ghost predicate RowsTell(row: BlockRow, wk: Work, b: Block, selected: Template, env: Environment) {
    && BlockRowTells(row, wk, b, selected) && LinkRowsTell(wk, b, selected, env.ages)
    && (forall r :: r in wk.bundle.transactions ==> RecordTells(r, wk.template.txids, b, selected, env.fees))
    && OutputRowsTell(wk.bundle.utxos, b, wk.ctx.rules)
  }

  lemma WhatRowsTell(wk: Work, b: Block, buffer: seq<Template>, env: Environment)
    requires buffer != [] && BuildsFor(wk, b, buffer, env)
    requires CollectsBest(wk.template, buffer, wk.block.txids) && ListsBlock(wk.block.list, b, env.fees)
    ensures RowsTell(RowFrom(wk, b, buffer, env.id), wk, b, ChosenBy(wk, buffer), env)
  {
    var selected := ChosenBy(wk, buffer);
    LinksAreInOrder(wk.bundle, env.id, wk.trace, wk.template, wk.block);
    WhatBlockRowTells(wk, b, selected, env.id);
    WhatLinkRowsTell(wk, b, selected, env.id, env.fees);
    forall r | r in wk.bundle.transactions ensures RecordTells(r, wk.template.txids, b, selected, env.fees) {
      RecordIsOfEntry(wk, env.id, r);
      WhatRecordTells(r, wk.template, wk.block, b, selected, env.fees);
    }
    WhatOutputRowsTell(wk.bundle.utxos, b, wk.ctx.rules);
  }

  /**
   * The row that documents the selected template has the same differences as the block row if and only if
   * every entry of that template decodes, or has the txid of one that does.
   */
  lemma SelectionAgreesWithBlockRow(
      row: BlockRow, wk: Work, b: Block, buffer: seq<Template>, env: Environment, utxos: UtxoTable, time: nat)
    requires buffer != [] && (forall t :: t in buffer ==> NodeTxidsMatch(t))
    requires WorksOn(wk, b, buffer, env, utxos) && BuildsFor(wk, b, buffer, env)
    requires row == RowFrom(wk, b, buffer, env.id)
    ensures var documented := RowFor(ChosenBy(wk, buffer), wk.block.txids, time);
            && (documented.missing == row.missing && documented.extra == row.extra
                <==> EntriesCollected(wk.template, ChosenBy(wk, buffer)))
            && (EntriesCollected(wk.template, ChosenBy(wk, buffer)) ==> documented.shared == row.shared)
  {
    assert ChosenBy(wk, buffer) in buffer;
    CountsAreOfCollected(wk.template, ChosenBy(wk, buffer), wk.block.txids);
  }

  /** Shared and extra make up the transactions of the block if and only if no txid repeats. */
  lemma BlockRowCoversBlock(
      row: BlockRow, wk: Work, b: Block, selected: Template, fees: map<Txid, nat>)
    requires BlockRowTells(row, wk, b, selected) && WellKeyed(wk.block) && ListsBlock(wk.block.list, b, fees)
    ensures row.shared + row.extra == row.blockTx <==>
            forall i, j :: 0 <= i < j < |b.txdata| ==> b.txdata[i].txid != b.txdata[j].txid
  {
    var list := TxidsOf(wk.block.list);
    forall x ensures x in list <==> x in wk.block.txids {
      if x in wk.block.txids {
        var i :| 0 <= i < |wk.block.list| && wk.block.list[i] == wk.block.infos[x];
        assert list[i] == x;
      }
    }
    assert Elements(list) == wk.block.txids;
    FullSizeMeansNoDup(list);
  }

  /** The sanction counts of the block row agree with the rows exactly when what they count decodes. */
  lemma BlockRowSanctionCounts(
      row: BlockRow, wk: Work, b: Block, buffer: seq<Template>, env: Environment, utxos: UtxoTable)
    requires buffer != [] && WorksOn(wk, b, buffer, env, utxos) && BuildsFor(wk, b, buffer, env)
    requires row == RowFrom(wk, b, buffer, env.id)
    requires SharedAgree(wk.template, wk.block) && DistinctTxids(wk.block.list)
    ensures row.templateSanctioned == Count(wk.bundle.infos, IsInTemplate)
            <==> SanctionedDecode(wk.template.txids, wk.template, wk.ctx)
    ensures row.sanctionedMissing == Count(wk.bundle.infos, IsMissing)
            <==> SanctionedDecode(wk.template.txids - wk.block.txids, wk.template, wk.ctx)
    ensures row.blockSanctioned == Count(wk.bundle.infos, IsInBlock)
            <==> SanctionedDecode(wk.template.txids * wk.block.txids, wk.template, wk.ctx)
                 && SanctionedDecode(wk.block.txids - wk.template.txids, wk.block, wk.ctx)
  {
    SanctionedCountsAgree(wk.bundle.infos, wk.trace.split, env.id, wk.template, wk.block, b.txdata,
                          wk.trace.orders.allT, wk.trace.orders.onlyB, wk.ctx);
  }

  /**
   * Compare a block with the best template and store the result. References are closed at every return.
   * A block or id that has a row changes nothing. Without faults the processing of a new block completes if
   * and only if every transaction found on one side only decodes or is already stored. Every outcome is one
   * that the model of the main loop reckons with.
   */
  method Process(b: Block, buffer: seq<Template>, env: Environment, db: Database)
    returns (completed: bool, ghost wk: Work, ghost step: TableStep, ghost outcome: TemplateBuffer.DbOutcome)
    requires buffer != [] && (forall t :: t in buffer ==> NodeTxidsMatch(t))
    requires forall i :: 0 <= i < |b.txdata| ==> b.txdata[i].txid in env.fees
    requires db.Closed()
    modifies db, db.transactions
    ensures db.Closed()
    ensures Grows(old(db.transactions.rows), db.transactions.rows)
    ensures WorksOn(wk, b, buffer, env, old(db.utxos))
    ensures step.before == old(db.CoreTables()) && step.after == db.CoreTables() && ValidTableStep(step)
    ensures step.added == if IsNew(b, env, old(db.blocks)) then Some((b.hash, RowFrom(wk, b, buffer, env.id))) else None
    ensures step.added.None? ==> !completed && unchanged(db) && unchanged(db.transactions)
    ensures step.added.Some? ==>
              BuildsFor(wk, b, buffer, env) && RowsTell(step.added.value.1, wk, b, ChosenBy(wk, buffer), env)
    ensures IsPartOf(step.part, wk.bundle)
    ensures env.fault.None? && step.added.Some? ==>
              (completed <==> OneSidedKnown(wk.template, wk.block, wk.ctx, old(db.transactions.rows)))
    ensures completed ==> db.Contents() == WithBundle(old(db.Contents()), wk.bundle, env.id)
    ensures completed ==> step.part == WholeOf(wk.bundle)
    ensures SparesOutputs(env.fault) && step.added.Some?
            && OneSidedKnown(wk.template, wk.block, wk.ctx, old(db.transactions.rows)) ==>
              step.part.utxos == wk.bundle.utxos
    ensures completed == TemplateBuffer.Completes(old(db.blocks).Keys, b, outcome)
    ensures db.blocks.Keys == TemplateBuffer.RowsAfter(old(db.blocks).Keys, b, outcome)
  {
    var template, block, selected := CollectData(b, buffer, env.fees);
    var rules := ReadRules(env, db);
    var ctx := Context(rules, env.decodes, env.facts);
    var row := BlockRowFor(env.id, selected, b, template, block, rules);
    var debug := DebugRows(buffer, block.txids, selected.time);
    ghost var bundle, trace;
    completed, bundle, trace, step, outcome := StoreComparison(b, row, template, block, debug, ctx, env, db);
    wk := Work(template, block, ctx, bundle, trace);
    if step.added.Some? {
      WhatRowsTell(wk, b, buffer, env);
    }
  }

  /**
   * The selection rows that a completed processing leaves behind: exactly one is marked, it is that of the
   * oldest template with the selected time, and it is minimal if and only if that is the selected one.
   */
  lemma StoredRowsDocumentSelection(wk: Work, buffer: seq<Template>, first: int)
    requires buffer != [] && FirstWithTime(buffer, ChosenBy(wk, buffer).time, first)
    requires wk.bundle.debug == DebugRows(buffer, wk.block.txids, ChosenBy(wk, buffer).time)
    ensures MarksSelection(wk.bundle.debug, ChosenBy(wk, buffer).time, first, SelectBest(buffer, wk.block.txids))
  {
    StoredSelection(buffer, wk.block.txids, first);
  }
}
