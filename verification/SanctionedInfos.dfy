/** The rows about sanctioned transactions, and the counts in the block row that must agree with them. */
module SanctionedInfos {
  import opened Basics
  import opened Ledger
  import opened Sanctions
  import opened Records
  import opened Builders

  datatype InfoRow = InfoRow(blockId: int, txid: Bytes, inBlock: bool, inTemplate: bool, addresses: seq<string>)

  ghost predicate AllIn(order: seq<Txid>, infos: map<Txid, TxInfo>) {
    forall i :: 0 <= i < |order| ==> order[i] in infos
  }

  /** The sanctioned transactions of `order`. */
  function SanctionedOf(order: seq<Txid>, infos: map<Txid, TxInfo>, rules: Rules): seq<Txid>
    requires AllIn(order, infos)
  {
    if order == [] then []
    else
      var front := SanctionedOf(order[..|order| - 1], infos, rules);
      var x := order[|order| - 1];
      if IsSanctioned(infos[x].tx, rules) then front + [x] else front
  }

  /** Those of them that decode, which are the ones that get a row. */
  function Selected(order: seq<Txid>, infos: map<Txid, TxInfo>, ctx: Context): seq<Txid>
    requires AllIn(order, infos)
  {
    if order == [] then []
    else
      var front := Selected(order[..|order| - 1], infos, ctx);
      var x := order[|order| - 1];
      if IsSanctioned(infos[x].tx, ctx.rules) && ctx.decodes(infos[x].tx) then front + [x] else front
  }

  lemma {:induction false} SanctionedMembers(order: seq<Txid>, infos: map<Txid, TxInfo>, rules: Rules)
    requires AllIn(order, infos)
    ensures forall x :: x in SanctionedOf(order, infos, rules) <==>
              x in order && x in infos && IsSanctioned(infos[x].tx, rules)
    ensures AllIn(SanctionedOf(order, infos, rules), infos)
  {
    if order == [] {
    } else {
      SanctionedMembers(order[..|order| - 1], infos, rules);
    }
  }

  lemma {:induction false} SelectedMembers(order: seq<Txid>, infos: map<Txid, TxInfo>, ctx: Context)
    requires AllIn(order, infos)
    ensures forall x :: x in Selected(order, infos, ctx) <==>
              x in order && x in infos && IsSanctioned(infos[x].tx, ctx.rules) && ctx.decodes(infos[x].tx)
    ensures AllIn(Selected(order, infos, ctx), infos)
    ensures NoDup(order) ==> NoDup(Selected(order, infos, ctx))
  {
    if order == [] {
    } else {
      SelectedMembers(order[..|order| - 1], infos, ctx);
    }
  }

  ghost predicate Describes(
      row: InfoRow, x: Txid, info: TxInfo, id: int, block: set<Txid>, inTemplate: bool, rules: Rules) {
    && row.blockId == id && row.txid == Reversed(info.txid)
    && row.inTemplate == inTemplate && row.inBlock == (x in block)
    && IsSortedAddressList(row.addresses, info.tx, rules)
  }

  ghost predicate DescribeAll(rows: seq<InfoRow>, xs: seq<Txid>, infos: map<Txid, TxInfo>, id: int,
                              block: set<Txid>, inTemplate: bool, rules: Rules)
  {
    && |rows| == |xs| && AllIn(xs, infos)
    && forall i :: 0 <= i < |xs| ==> Describes(rows[i], xs[i], infos[xs[i]], id, block, inTemplate, rules)
  }

  lemma SelectedStep(order: seq<Txid>, infos: map<Txid, TxInfo>, ctx: Context, n: nat)
    requires AllIn(order, infos) && n < |order|
    ensures SanctionedOf(order[..n + 1], infos, ctx.rules)
         == if IsSanctioned(infos[order[n]].tx, ctx.rules) then SanctionedOf(order[..n], infos, ctx.rules) + [order[n]]
            else SanctionedOf(order[..n], infos, ctx.rules)
    ensures Selected(order[..n + 1], infos, ctx)
         == if IsSanctioned(infos[order[n]].tx, ctx.rules) && ctx.decodes(infos[order[n]].tx)
            then Selected(order[..n], infos, ctx) + [order[n]] else Selected(order[..n], infos, ctx)
  {
    assert order[..n + 1][..n] == order[..n];
  }

  ghost function InfoRequests(order: seq<Txid>, infos: map<Txid, TxInfo>, rules: Rules): seq<Request>
    requires AllIn(order, infos)
  {
    SanctionedMembers(order, infos, rules);
    RequestsFor(SanctionedOf(order, infos, rules), infos)
  }

  lemma InfoRequestsStep(order: seq<Txid>, infos: map<Txid, TxInfo>, ctx: Context, n: nat)
    requires AllIn(order, infos) && n < |order|
    ensures InfoRequests(order[..n + 1], infos, ctx.rules)
         == if IsSanctioned(infos[order[n]].tx, ctx.rules)
            then InfoRequests(order[..n], infos, ctx.rules) + [Request(infos[order[n]], false)]
            else InfoRequests(order[..n], infos, ctx.rules)
  {
    SelectedStep(order, infos, ctx, n);
  }

  /** The body of the loops: a record and a row for a sanctioned transaction that decodes. */
  method InfoFor(id: int, x: Txid, info: TxInfo, block: set<Txid>, inTemplate: bool, ctx: Context, txs: TransactionMap,
                 ghost start: RecordMap, ghost done: seq<Request>)
    returns (row: Option<InfoRow>)
    requires txs.rows == AddAll(start, RecordsFor(done, ctx))
    modifies txs
    ensures row.Some? <==> IsSanctioned(info.tx, ctx.rules) && ctx.decodes(info.tx)
    ensures row.Some? ==> Describes(row.value, x, info, id, block, inTemplate, ctx.rules)
    ensures txs.rows == AddAll(start, RecordsFor(
              if IsSanctioned(info.tx, ctx.rules) then done + [Request(info, false)] else done, ctx))
  {
    row := None;
    if IsSanctioned(info.tx, ctx.rules) {
      AddTransaction(Request(info, false), ctx, txs, start, done);
      if ctx.decodes(info.tx) {
        var addresses := TxSanctionedAddresses(info.tx, ctx.rules);
        row := Some(InfoRow(id, Reversed(info.txid), x in block, inTemplate, addresses));
      }
    }
  }

  lemma DescribeMore(rows: seq<InfoRow>, xs: seq<Txid>, row: InfoRow, x: Txid, infos: map<Txid, TxInfo>, id: int,
                     block: set<Txid>, inTemplate: bool, rules: Rules)
    requires DescribeAll(rows, xs, infos, id, block, inTemplate, rules)
    requires x in infos && Describes(row, x, infos[x], id, block, inTemplate, rules)
    ensures DescribeAll(rows + [row], xs + [x], infos, id, block, inTemplate, rules)
  {
  }

  /** One of the two loops. */
  method BuildInfos(id: int, order: seq<Txid>, infos: map<Txid, TxInfo>, block: set<Txid>, inTemplate: bool,
                    ctx: Context, txs: TransactionMap)
    returns (rows: seq<InfoRow>)
    requires AllIn(order, infos)
    modifies txs
    ensures DescribeAll(rows, Selected(order, infos, ctx), infos, id, block, inTemplate, ctx.rules)
    ensures txs.rows == AddAll(old(txs.rows), RecordsFor(InfoRequests(order, infos, ctx.rules), ctx))
  {
    rows := [];
    ghost var xs: seq<Txid>, done: seq<Request> := [], [];
    for n := 0 to |order|
      invariant xs == Selected(order[..n], infos, ctx) && done == InfoRequests(order[..n], infos, ctx.rules)
      invariant DescribeAll(rows, xs, infos, id, block, inTemplate, ctx.rules)
      invariant txs.rows == AddAll(old(txs.rows), RecordsFor(done, ctx))
    {
      var x := order[n];
      var row := InfoFor(id, x, infos[x], block, inTemplate, ctx, txs, old(txs.rows), done);
      SelectedStep(order, infos, ctx, n);
      InfoRequestsStep(order, infos, ctx, n);
      done := InfoRequests(order[..n + 1], infos, ctx.rules);
      if row.Some? {
        DescribeMore(rows, xs, row.value, x, infos, id, block, inTemplate, ctx.rules);
        rows, xs := rows + [row.value], xs + [x];
      }
    }
    assert order[..|order|] == order;
  }

  /** Template transactions first, then those found only in the block. */
  method BuildSanctionedInfos(id: int, orderT: seq<Txid>, tInfos: map<Txid, TxInfo>,
                              orderB: seq<Txid>, bInfos: map<Txid, TxInfo>, block: set<Txid>,
                              ctx: Context, txs: TransactionMap)
    returns (rows: seq<InfoRow>, ghost split: nat)
    requires AllIn(orderT, tInfos) && AllIn(orderB, bInfos)
    modifies txs
    ensures split <= |rows|
    ensures DescribeAll(rows[..split], Selected(orderT, tInfos, ctx), tInfos, id, block, true, ctx.rules)
    ensures DescribeAll(rows[split..], Selected(orderB, bInfos, ctx), bInfos, id, block, false, ctx.rules)
    ensures txs.rows == AddAll(old(txs.rows), RecordsFor(
              InfoRequests(orderT, tInfos, ctx.rules) + InfoRequests(orderB, bInfos, ctx.rules), ctx))
  {
    var inTemplate := BuildInfos(id, orderT, tInfos, block, true, ctx, txs);
    var onlyInBlock := BuildInfos(id, orderB, bInfos, block, false, ctx, txs);
    rows, split := inTemplate + onlyInBlock, |inTemplate|;
    assert rows[..split] == inTemplate && rows[split..] == onlyInBlock;
    ghost var qs, more := InfoRequests(orderT, tInfos, ctx.rules), InfoRequests(orderB, bInfos, ctx.rules);
    RecordsForConcat(qs, more, ctx);
    AddAllConcat(old(txs.rows), RecordsFor(qs, ctx), RecordsFor(more, ctx));
  }

  // ---------------------------------------------------------------- counts

  function Count<T>(s: seq<T>, p: T -> bool): nat {
    if s == [] then 0 else Count(s[..|s| - 1], p) + if p(s[|s| - 1]) then 1 else 0
  }

  lemma {:induction false} CountConcat<T>(s: seq<T>, t: seq<T>, p: T -> bool)
    ensures Count(s + t, p) == Count(s, p) + Count(t, p)
  {
    if t == [] {
      assert s + t == s;
    } else {
      assert (s + t)[..|s + t| - 1] == s + t[..|t| - 1];
      CountConcat(s, t[..|t| - 1], p);
    }
  }

  lemma OneMoreKey<K>(keys: seq<K>, k: K, q: set<K>)
    requires k !in keys
    ensures |Elements(keys + [k]) * q| == |Elements(keys) * q| + if k in q then 1 else 0
  {
    var before, after := Elements(keys) * q, Elements(keys + [k]) * q;
    if k in q {
      assert after == before + {k};
    } else {
      assert after == before;
    }
  }

  /** Counting rows is counting the distinct keys behind them. */
  lemma {:induction false} CountByKey<T, K>(rows: seq<T>, keys: seq<K>, p: T -> bool, q: set<K>)
    requires |rows| == |keys| && NoDup(keys)
    requires forall i :: 0 <= i < |rows| ==> (p(rows[i]) <==> keys[i] in q)
    ensures Count(rows, p) == |Elements(keys) * q|
  {
    if rows == [] {
    } else {
      var n := |rows| - 1;
      CountByKey(rows[..n], keys[..n], p, q);
      OneMoreKey(keys[..n], keys[n], q);
      assert keys == keys[..n] + [keys[n]];
    }
  }

  predicate IsInTemplate(r: InfoRow) { r.inTemplate }

  predicate IsInBlock(r: InfoRow) { r.inBlock }

  predicate IsMissing(r: InfoRow) { r.inTemplate && !r.inBlock }

  /** `template_sanctioned`: entries of the template map that are sanctioned. */
  function TemplateSanctioned(template: TxData, rules: Rules): nat {
    |set x | x in template.infos && IsSanctioned(template.infos[x].tx, rules)|
  }

  /** `sanctioned_missing_tx`: transactions found only in the template that are sanctioned. */
  function SanctionedMissing(onlyT: set<Txid>, template: TxData, rules: Rules): nat
    requires onlyT <= template.infos.Keys
  {
    |set x | x in onlyT && IsSanctioned(template.infos[x].tx, rules)|
  }

  function SanctionTest(rules: Rules): Transaction -> bool {
    tx => IsSanctioned(tx, rules)
  }

  /** `block_sanctioned`: sanctioned transactions of the block. */
  function BlockSanctioned(txdata: seq<Transaction>, rules: Rules): nat {
    Count(txdata, SanctionTest(rules))
  }

  ghost function SanctionedTxids(d: TxData, rules: Rules): set<Txid> {
    set x | x in d.infos && IsSanctioned(d.infos[x].tx, rules)
  }

  ghost predicate DistinctTxids(list: seq<TxInfo>) {
    forall i, j :: 0 <= i < j < |list| ==> list[i].txid != list[j].txid
  }

  lemma BlockCountByTxid(block: TxData, txdata: seq<Transaction>, rules: Rules)
    requires WellKeyed(block) && |block.list| == |txdata| && DistinctTxids(block.list)
    requires forall i :: 0 <= i < |txdata| ==> block.list[i].tx == txdata[i]
    ensures BlockSanctioned(txdata, rules) == |SanctionedTxids(block, rules)|
  {
    var keys := seq(|txdata|, i requires 0 <= i < |txdata| => block.list[i].txid);
    var q := SanctionedTxids(block, rules);
    forall i | 0 <= i < |txdata| ensures SanctionTest(rules)(txdata[i]) <==> keys[i] in q {
      assert block.list[i] in block.list;
      var j :| 0 <= j < |block.list| && block.list[j] == block.infos[keys[i]];
      assert i == j;
    }
    CountByKey(txdata, keys, SanctionTest(rules), q);
    forall x | x in q ensures x in keys {
      var j :| 0 <= j < |block.list| && block.list[j] == block.infos[x];
      assert keys[j] == x;
    }
    assert Elements(keys) * q == q;
  }

  /** A txid found on both sides stands for the same spends and payments on both. */
  ghost predicate SharedAgree(template: TxData, block: TxData) {
    forall x :: x in template.infos && x in block.infos ==>
      && template.infos[x].tx.inputs == block.infos[x].tx.inputs
      && template.infos[x].tx.outputs == block.infos[x].tx.outputs
  }

  lemma SanctionIgnoresWitness(tx: Transaction, other: Transaction, rules: Rules)
    requires tx.inputs == other.inputs && tx.outputs == other.outputs
    ensures IsSanctioned(tx, rules) <==> IsSanctioned(other, rules)
  {
    assert IsToSanctioned(tx, rules) <==> IsToSanctioned(other, rules);
    assert IsFromSanctioned(tx, rules) <==> IsFromSanctioned(other, rules);
  }

  /** Of the given transactions, the sanctioned ones decode. */
  ghost predicate SanctionedDecode(txids: set<Txid>, d: TxData, ctx: Context) {
    forall x :: x in txids && x in d.infos && IsSanctioned(d.infos[x].tx, ctx.rules) ==> ctx.decodes(d.infos[x].tx)
  }

  /** The rows that one processing builds, together with the data they were built from. */
  ghost predicate RowsFor(rows: seq<InfoRow>, split: nat, id: int, template: TxData, block: TxData,
                          orderT: seq<Txid>, orderB: seq<Txid>, ctx: Context)
  {
    && WellKeyed(template) && WellKeyed(block)
    && Enumerates(orderT, template.txids) && Enumerates(orderB, block.txids - template.txids)
    && AllIn(orderT, template.infos) && AllIn(orderB, block.infos)
    && split <= |rows|
    && DescribeAll(
         rows[..split], Selected(orderT, template.infos, ctx), template.infos, id, block.txids, true, ctx.rules)
    && DescribeAll(rows[split..], Selected(orderB, block.infos, ctx), block.infos, id, block.txids, false, ctx.rules)
  }

  ghost function Decoding(d: TxData, ctx: Context): set<Txid> {
    set x | x in d.infos && ctx.decodes(d.infos[x].tx)
  }

  lemma SelectedElements(order: seq<Txid>, d: TxData, ctx: Context, txids: set<Txid>)
    requires Enumerates(order, txids) && AllIn(order, d.infos)
    ensures Elements(Selected(order, d.infos, ctx)) == txids * SanctionedTxids(d, ctx.rules) * Decoding(d, ctx)
    ensures NoDup(Selected(order, d.infos, ctx))
  {
    SelectedMembers(order, d.infos, ctx);
    assert forall x :: x in order <==> x in Elements(order);
  }

  /** Restricting to those that decode loses none exactly when all decode. */
  lemma NoneLostIffAllDecode(txids: set<Txid>, d: TxData, ctx: Context)
    ensures |txids * SanctionedTxids(d, ctx.rules) * Decoding(d, ctx)| <= |txids * SanctionedTxids(d, ctx.rules)|
    ensures |txids * SanctionedTxids(d, ctx.rules) * Decoding(d, ctx)| == |txids * SanctionedTxids(d, ctx.rules)|
            <==> SanctionedDecode(txids, d, ctx)
  {
    var all := txids * SanctionedTxids(d, ctx.rules);
    SubsetSize(all * Decoding(d, ctx), all);
    if SanctionedDecode(txids, d, ctx) {
      assert all * Decoding(d, ctx) == all;
    } else {
      var x :| x in txids && x in d.infos && IsSanctioned(d.infos[x].tx, ctx.rules) && !ctx.decodes(d.infos[x].tx);
      assert x in all && x !in all * Decoding(d, ctx);
    }
  }

  lemma CountInTwoParts(rows: seq<InfoRow>, split: nat, p: InfoRow -> bool, xs: seq<Txid>, ys: seq<Txid>,
                        q: set<Txid>, r: set<Txid>)
    requires split <= |rows| && |xs| == split && |ys| == |rows| - split && NoDup(xs) && NoDup(ys)
    requires forall i :: 0 <= i < split ==> (p(rows[..split][i]) <==> xs[i] in q)
    requires forall i :: 0 <= i < |ys| ==> (p(rows[split..][i]) <==> ys[i] in r)
    ensures Count(rows, p) == |Elements(xs) * q| + |Elements(ys) * r|
  {
    assert rows == rows[..split] + rows[split..];
    CountConcat(rows[..split], rows[split..], p);
    CountByKey(rows[..split], xs, p, q);
    CountByKey(rows[split..], ys, p, r);
  }

  /** A count over disjoint parts of the block's transactions. */
  lemma SharedAndOnly(t: set<Txid>, b: set<Txid>, st: set<Txid>, sb: set<Txid>)
    requires sb <= b
    requires forall x :: x in t && x in b ==> (x in st <==> x in sb)
    ensures |(t * b) * st| + |(b - t) * sb| == |sb|
  {
    var shared, only := (t * b) * st, (b - t) * sb;
    assert shared !! only;
    assert shared + only == sb;
  }

  lemma SharedSanctioned(template: TxData, block: TxData, rules: Rules)
    requires SharedAgree(template, block)
    ensures forall x :: x in template.infos && x in block.infos ==>
              (x in SanctionedTxids(template, rules) <==> x in SanctionedTxids(block, rules))
  {
    forall x | x in template.infos && x in block.infos
      ensures x in SanctionedTxids(template, rules) <==> x in SanctionedTxids(block, rules)
    {
      SanctionIgnoresWitness(template.infos[x].tx, block.infos[x].tx, rules);
    }
  }

  /** The flags of the rows, told from the txids behind them. */
  ghost predicate FlagsMatch(rows: seq<InfoRow>, split: nat, xs: seq<Txid>, ys: seq<Txid>, block: set<Txid>) {
    && split <= |rows| && |xs| == split && |ys| == |rows| - split
    && (forall i :: 0 <= i < |xs| ==> rows[..split][i].inTemplate && rows[..split][i].inBlock == (xs[i] in block))
    && (forall i :: 0 <= i < |ys| ==> !rows[split..][i].inTemplate && rows[split..][i].inBlock == (ys[i] in block))
  }

  lemma FlagCounts(rows: seq<InfoRow>, split: nat, xs: seq<Txid>, ys: seq<Txid>, block: set<Txid>)
    requires FlagsMatch(rows, split, xs, ys, block) && NoDup(xs) && NoDup(ys)
    ensures Count(rows, IsInTemplate) == |Elements(xs)|
    ensures Count(rows, IsMissing) == |Elements(xs) - block|
    ensures Count(rows, IsInBlock) == |Elements(xs) * block| + |Elements(ys) * block|
  {
    assert forall i :: 0 <= i < |xs| ==> xs[i] in Elements(xs);
    CountInTwoParts(rows, split, IsInTemplate, xs, ys, Elements(xs), {});
    CountInTwoParts(rows, split, IsMissing, xs, ys, Elements(xs) - block, {});
    CountInTwoParts(rows, split, IsInBlock, xs, ys, block, block);
    assert Elements(ys) * {} == {} && Elements(xs) * Elements(xs) == Elements(xs);
    assert Elements(xs) * (Elements(xs) - block) == Elements(xs) - block;
  }

  /** The txids behind the rows, for the template part and for the block part. */
  lemma KeysOfRows(rows: seq<InfoRow>, split: nat, id: int, template: TxData, block: TxData,
                   orderT: seq<Txid>, orderB: seq<Txid>, ctx: Context) returns (xs: seq<Txid>, ys: seq<Txid>)
    requires RowsFor(rows, split, id, template, block, orderT, orderB, ctx)
    ensures FlagsMatch(rows, split, xs, ys, block.txids) && NoDup(xs) && NoDup(ys)
    ensures forall i :: 0 <= i < |xs| ==> xs[i] in template.txids && rows[..split][i].txid == Reversed(xs[i])
    ensures forall i :: 0 <= i < |ys| ==>
              ys[i] in block.txids - template.txids && rows[split..][i].txid == Reversed(ys[i])
    ensures xs == Selected(orderT, template.infos, ctx) && ys == Selected(orderB, block.infos, ctx)
  {
    xs, ys := Selected(orderT, template.infos, ctx), Selected(orderB, block.infos, ctx);
    SelectedMembers(orderT, template.infos, ctx);
    SelectedMembers(orderB, block.infos, ctx);
    forall i | 0 <= i < |xs|
      ensures xs[i] in template.txids && rows[..split][i].txid == Reversed(xs[i])
      ensures rows[..split][i].inTemplate && rows[..split][i].inBlock == (xs[i] in block.txids)
    {
      assert xs[i] in Elements(orderT);
      assert Describes(rows[..split][i], xs[i], template.infos[xs[i]], id, block.txids, true, ctx.rules);
    }
    forall i | 0 <= i < |ys|
      ensures ys[i] in block.txids - template.txids && rows[split..][i].txid == Reversed(ys[i])
      ensures !rows[split..][i].inTemplate && rows[split..][i].inBlock == (ys[i] in block.txids)
    {
      assert ys[i] in Elements(orderB);
      assert Describes(rows[split..][i], ys[i], block.infos[ys[i]], id, block.txids, false, ctx.rules);
    }
  }

  /**
   * The three counts of the block row agree with the rows exactly when the sanctioned transactions they
   * count decode: of the template, of the template without the block, and of the block, where shared
   * transactions are decoded as the template has them.
   */
  lemma SanctionedCountsAgree(rows: seq<InfoRow>, split: nat, id: int, template: TxData, block: TxData,
                              txdata: seq<Transaction>, orderT: seq<Txid>, orderB: seq<Txid>, ctx: Context)
    requires RowsFor(rows, split, id, template, block, orderT, orderB, ctx) && SharedAgree(template, block)
    requires |block.list| == |txdata| && DistinctTxids(block.list)
    requires forall i :: 0 <= i < |txdata| ==> block.list[i].tx == txdata[i]
    ensures Count(rows, IsInTemplate) == TemplateSanctioned(template, ctx.rules)
            <==> SanctionedDecode(template.txids, template, ctx)
    ensures Count(rows, IsMissing) == SanctionedMissing(template.txids - block.txids, template, ctx.rules)
            <==> SanctionedDecode(template.txids - block.txids, template, ctx)
    ensures Count(rows, IsInBlock) == BlockSanctioned(txdata, ctx.rules)
            <==> SanctionedDecode(template.txids * block.txids, template, ctx)
                 && SanctionedDecode(block.txids - template.txids, block, ctx)
  {
    var xs, ys := KeysOfRows(rows, split, id, template, block, orderT, orderB, ctx);
    FlagCounts(rows, split, xs, ys, block.txids);
    SelectedElements(orderT, template, ctx, template.txids);
    SelectedElements(orderB, block, ctx, block.txids - template.txids);
    TemplateCounts(template, block.txids, ctx, Elements(xs));
    BlockCount(template, block, ctx, Elements(xs), Elements(ys));
    BlockCountByTxid(block, txdata, ctx.rules);
  }

  lemma TemplateCounts(template: TxData, block: set<Txid>, ctx: Context, xs: set<Txid>)
    requires template.infos.Keys == template.txids
    requires xs == template.txids * SanctionedTxids(template, ctx.rules) * Decoding(template, ctx)
    ensures |xs| == TemplateSanctioned(template, ctx.rules) <==> SanctionedDecode(template.txids, template, ctx)
    ensures |xs - block| == SanctionedMissing(template.txids - block, template, ctx.rules)
            <==> SanctionedDecode(template.txids - block, template, ctx)
  {
    var sanctioned := SanctionedTxids(template, ctx.rules);
    var only := template.txids - block;
    NoneLostIffAllDecode(template.txids, template, ctx);
    NoneLostIffAllDecode(only, template, ctx);
    assert template.txids * sanctioned == sanctioned;
    assert xs - block == only * sanctioned * Decoding(template, ctx);
    assert only * sanctioned == set x | x in only && IsSanctioned(template.infos[x].tx, ctx.rules);
  }

  lemma BlockCount(template: TxData, block: TxData, ctx: Context, xs: set<Txid>, ys: set<Txid>)
    requires template.infos.Keys == template.txids && block.infos.Keys == block.txids && SharedAgree(template, block)
    requires xs == template.txids * SanctionedTxids(template, ctx.rules) * Decoding(template, ctx)
    requires ys == (block.txids - template.txids) * SanctionedTxids(block, ctx.rules) * Decoding(block, ctx)
    ensures |xs * block.txids| + |ys * block.txids| == |SanctionedTxids(block, ctx.rules)|
            <==> SanctionedDecode(template.txids * block.txids, template, ctx)
                 && SanctionedDecode(block.txids - template.txids, block, ctx)
  {
    var st, sb := SanctionedTxids(template, ctx.rules), SanctionedTxids(block, ctx.rules);
    var shared, only := template.txids * block.txids, block.txids - template.txids;
    SharedSanctioned(template, block, ctx.rules);
    SharedAndOnly(template.txids, block.txids, st, sb);
    NoneLostIffAllDecode(shared, template, ctx);
    NoneLostIffAllDecode(only, block, ctx);
    RegroupParts(template.txids, block.txids, st, sb, Decoding(template, ctx), Decoding(block, ctx));
  }

  lemma RegroupParts(t: set<Txid>, b: set<Txid>, st: set<Txid>, sb: set<Txid>, dt: set<Txid>, db: set<Txid>)
    ensures (t * st * dt) * b == (t * b) * st * dt
    ensures ((b - t) * sb * db) * b == (b - t) * sb * db
  {
  }

  /** The txid behind one row, and the part of the rows it belongs to. */
  lemma KeyOfRow(rows: seq<InfoRow>, split: nat, id: int, template: TxData, block: TxData,
                 orderT: seq<Txid>, orderB: seq<Txid>, ctx: Context, i: nat) returns (x: Txid, keys: seq<Txid>)
    requires RowsFor(rows, split, id, template, block, orderT, orderB, ctx) && i < |rows|
    ensures x in keys && rows[i].txid == Reversed(x)
    ensures keys == Selected(orderT, template.infos, ctx) || keys == Selected(orderB, block.infos, ctx)
  {
    var xs, ys := KeysOfRows(rows, split, id, template, block, orderT, orderB, ctx);
    x, keys := if i < split then xs[i] else ys[i - split], if i < split then xs else ys;
    assert rows[i] == if i < split then rows[..split][i] else rows[split..][i - split];
  }

  /** No transaction gets two rows for one block. */
  lemma InfoKeysDoNotRepeat(rows: seq<InfoRow>, split: nat, id: int, template: TxData, block: TxData,
                            orderT: seq<Txid>, orderB: seq<Txid>, ctx: Context, i: int, j: int)
    requires RowsFor(rows, split, id, template, block, orderT, orderB, ctx)
    requires 0 <= i < j < |rows|
    ensures rows[i].txid != rows[j].txid
  {
    var xs, ys := KeysOfRows(rows, split, id, template, block, orderT, orderB, ctx);
    var x := if i < split then xs[i] else ys[i - split];
    var y := if j < split then xs[j] else ys[j - split];
    assert rows[i] == if i < split then rows[..split][i] else rows[split..][i - split];
    assert rows[j] == if j < split then rows[..split][j] else rows[split..][j - split];
    assert x != y;
    if Reversed(x) == Reversed(y) {
      ReversedInjective(x, y);
    }
  }
}
