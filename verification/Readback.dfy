/** How the web side reads the conflict sets of a block back from the tables. */
module Readback {
  import opened Basics
  import opened Ledger
  import opened Records
  import opened Builders
  import opened TagStore
  import opened Store
  import opened Processing
  import opened TemplateBuffer
  import opened MainLoop

  datatype WebOutpoint = WebOutpoint(txid: Bytes, vout: int)

  datatype WebConflictSet = WebConflictSet(
    templateTxns: seq<TxRecord>, blockTxns: seq<TxRecord>, outpoints: seq<WebOutpoint>)

  /** Look every txid up; the precondition is that no `unwrap` fails. */
  function LookUp(txids: seq<Bytes>, table: RecordMap): (r: seq<TxRecord>)
    requires forall x :: x in txids ==> x in table
    ensures |r| == |txids| && forall i :: 0 <= i < |r| ==> r[i] == table[txids[i]]
  {
    seq(|txids|, i requires 0 <= i < |txids| => table[txids[i]])
  }

  function Min(a: nat, b: nat): nat { if a < b then a else b }

  /** The two parallel arrays of a row, zipped; `zip` stops with the shorter one. */
  function ZipOutpoints(txids: seq<Bytes>, vouts: seq<int>): (r: seq<WebOutpoint>)
    ensures |r| == Min(|txids|, |vouts|)
    ensures forall i :: 0 <= i < |r| ==> r[i] == WebOutpoint(txids[i], vouts[i])
  {
    seq(Min(|txids|, |vouts|), i requires 0 <= i < Min(|txids|, |vouts|) => WebOutpoint(txids[i], vouts[i]))
  }

  function ReadRow(row: ConflictRow, table: RecordMap): WebConflictSet
    requires forall x :: x in row.templateTxids ==> x in table
    requires forall x :: x in row.blockTxids ==> x in table
  {
    WebConflictSet(LookUp(row.templateTxids, table), LookUp(row.blockTxids, table),
                   ZipOutpoints(row.outpointTxids, row.outpointVouts))
  }

  /** The stored conflict rows of one block. */
  function RowsOfBlock(conflicts: ConflictTable, id: int): set<ConflictRow> {
    set k | k in conflicts && conflicts[k].blockId == id :: conflicts[k]
  }

  ghost predicate ReadsRows(sets: seq<WebConflictSet>, order: seq<ConflictRow>, table: RecordMap) {
    |sets| == |order| && forall i :: 0 <= i < |order| ==>
      && (forall x :: x in order[i].templateTxids ==> x in table)
      && (forall x :: x in order[i].blockTxids ==> x in table)
      && sets[i] == ReadRow(order[i], table)
  }

  /** The page of one block: `None` if the block is unknown. No lookup fails while references are closed. */
  method ConflictsOfBlock(
      db: Database, hash: Hash)
    returns (r: Option<seq<WebConflictSet>>, ghost order: seq<ConflictRow>)
    requires db.Closed()
    ensures r.None? <==> hash !in db.blocks
    ensures r.Some? ==>
              && Enumerates(order, RowsOfBlock(db.conflicts, db.blocks[hash].id))
              && ReadsRows(r.value, order, db.transactions.rows)
  {
    if hash !in db.blocks {
      return None, [];
    }
    var rows := Iterate(RowsOfBlock(db.conflicts, db.blocks[hash].id));
    var table := db.transactions.rows;
    forall row | row in rows
      ensures (forall x :: x in row.templateTxids ==> x in table) && (forall x :: x in row.blockTxids ==> x in table)
    {
      assert row in Elements(rows);
      var k :| k in db.conflicts && db.conflicts[k] == row;
      assert ConflictClosed(db.conflicts[k], db.Ids(), table.Keys);
    }
    var sets: seq<WebConflictSet> := [];
    for n := 0 to |rows|
      invariant |sets| == n && forall i :: 0 <= i < n ==>
        && (forall x :: x in rows[i].templateTxids ==> x in table)
        && (forall x :: x in rows[i].blockTxids ==> x in table)
        && sets[i] == ReadRow(rows[i], table)
    {
      sets := sets + [ReadRow(rows[n], table)];
    }
    return Some(sets), rows;
  }

  /** The page of several blocks: for each of them its own conflict rows, in the order of the blocks. */
  method ConflictsOfBlocks(db: Database, page: seq<Hash>)
    returns (infos: seq<seq<WebConflictSet>>, ghost orders: seq<seq<ConflictRow>>)
    requires db.Closed() && forall h :: h in page ==> h in db.blocks
    ensures |infos| == |page| == |orders|
    ensures forall i :: 0 <= i < |page| ==> |infos[i]| == |RowsOfBlock(db.conflicts, db.blocks[page[i]].id)|
    ensures forall i :: 0 <= i < |page| ==>
              && Enumerates(orders[i], RowsOfBlock(db.conflicts, db.blocks[page[i]].id))
              && ReadsRows(infos[i], orders[i], db.transactions.rows)
  {
    infos, orders := [], [];
    for n := 0 to |page|
      invariant |infos| == n == |orders|
      invariant forall i :: 0 <= i < n ==>
        && Enumerates(orders[i], RowsOfBlock(db.conflicts, db.blocks[page[i]].id))
        && ReadsRows(infos[i], orders[i], db.transactions.rows)
    {
      var sets, order := ConflictsOfBlock(db, page[n]);
      infos, orders := infos + [sets.value], orders + [order];
    }
    forall i | 0 <= i < |page| ensures |infos[i]| == |RowsOfBlock(db.conflicts, db.blocks[page[i]].id)| {
      NoDupSize(orders[i]);
    }
  }

  // ---------------------------------------------------------------- reading undoes writing

  /** The records are those of the transactions, one by one. */
  ghost predicate AreRecordsOf(records: seq<TxRecord>, txns: seq<TxInfo>) {
    |records| == |txns| && forall i :: 0 <= i < |txns| ==> Reversed(records[i].txid) == txns[i].txid
  }

  function OutpointsBack(outpoints: seq<WebOutpoint>): (r: seq<OutPoint>)
    ensures |r| == |outpoints|
    ensures forall i :: 0 <= i < |r| ==> r[i] == OutPoint(Reversed(outpoints[i].txid), AsU32(outpoints[i].vout))
  {
    seq(|outpoints|, i requires 0 <= i < |outpoints| => OutPoint(Reversed(outpoints[i].txid), AsU32(outpoints[i].vout)))
  }

  /** The web set shows the transactions and the outpoints of the conflict set, in its order. */
  ghost predicate Shows(web: WebConflictSet, s: ConflictSet) {
    && AreRecordsOf(web.templateTxns, s.templateTxns)
    && AreRecordsOf(web.blockTxns, s.blockTxns)
    && OutpointsBack(web.outpoints) == s.outpoints
  }

  lemma LookUpUndoesStoring(txns: seq<TxInfo>, table: RecordMap)
    requires WellKeyedTable(table) && forall x :: x in ReversedAll(TxidsOf(txns)) ==> x in table
    ensures AreRecordsOf(LookUp(ReversedAll(TxidsOf(txns)), table), txns)
  {
    var stored := ReversedAll(TxidsOf(txns));
    forall i | 0 <= i < |txns| ensures Reversed(LookUp(stored, table)[i].txid) == txns[i].txid {
      assert stored[i] in stored;
      ReversedTwice(txns[i].txid);
    }
  }

  lemma ReadRowUndoesRowOf(id: int, s: ConflictSet, table: RecordMap)
    requires WellKeyedTable(table)
    requires forall x :: x in RowOf(id, s).templateTxids ==> x in table
    requires forall x :: x in RowOf(id, s).blockTxids ==> x in table
    ensures Shows(ReadRow(RowOf(id, s), table), s)
  {
    LookUpUndoesStoring(s.templateTxns, table);
    LookUpUndoesStoring(s.blockTxns, table);
    var back := OutpointsBack(ReadRow(RowOf(id, s), table).outpoints);
    forall i | 0 <= i < |s.outpoints| ensures back[i] == s.outpoints[i] {
      ReversedTwice(s.outpoints[i].txid);
      CastRoundTrip(s.outpoints[i].vout);
    }
  }

  /** A new block's conflict rows are exactly the ones just stored. */
  lemma RowsOfNewBlock(before: ConflictTable, rows: seq<ConflictRow>, id: int)
    requires forall k :: k in before ==> before[k].blockId != id
    requires DistinctKeys(rows, ConflictKeyOf) && forall i :: 0 <= i < |rows| ==> rows[i].blockId == id
    ensures RowsOfBlock(PutAll(before, rows, ConflictKeyOf), id) == Elements(rows)
  {
    var after := PutAll(before, rows, ConflictKeyOf);
    PutAllKeys(before, rows, ConflictKeyOf);
    forall r | r in rows ensures r in RowsOfBlock(after, id) {
      var i :| 0 <= i < |rows| && rows[i] == r;
      var k := ConflictKeyOf(r);
      PutAllLast(before, rows, ConflictKeyOf, i);
      assert after[k] == r;
    }
  }

  lemma {:induction false} PutAllLast<K(!new), R>(table: map<K, R>, rows: seq<R>, key: R -> K, i: int)
    requires DistinctKeys(rows, key) && 0 <= i < |rows|
    ensures key(rows[i]) in PutAll(table, rows, key) && PutAll(table, rows, key)[key(rows[i])] == rows[i]
  {
    var front := rows[..|rows| - 1];
    if i < |front| {
      PutAllLast(table, front, key, i);
      assert front[i] == rows[i];
    }
  }

  // ---------------------------------------------------------------- later processings

  ghost predicate OtherIds(rows: seq<ConflictRow>, id: int) {
    forall i :: 0 <= i < |rows| ==> rows[i].blockId != id
  }

  /** Rows of other blocks have other keys, so they leave the rows of this block alone. */
  lemma {:induction false} OtherRowsLeavePage(table: ConflictTable, rows: seq<ConflictRow>, id: int)
    requires KeyedConflicts(table) && OtherIds(rows, id)
    ensures KeyedConflicts(PutAll(table, rows, ConflictKeyOf))
    ensures RowsOfBlock(PutAll(table, rows, ConflictKeyOf), id) == RowsOfBlock(table, id)
  {
    if rows == [] {
    } else {
      var front, last := rows[..|rows| - 1], rows[|rows| - 1];
      OtherRowsLeavePage(table, front, id);
      OneOtherRow(PutAll(table, front, ConflictKeyOf), last, id);
    }
  }

  lemma OneOtherRow(table: ConflictTable, row: ConflictRow, id: int)
    requires KeyedConflicts(table) && row.blockId != id
    ensures RowsOfBlock(table[ConflictKeyOf(row) := row], id) == RowsOfBlock(table, id)
  {
    var after := table[ConflictKeyOf(row) := row];
    forall k | k in table && table[k].blockId == id ensures k in after && after[k] == table[k] {
      assert k != ConflictKeyOf(row);
    }
  }

  ghost predicate HasBlock(c: Core, hash: Hash, row: BlockRow) {
    hash in c.blocks && c.blocks[hash] == row
  }

  lemma StepLeavesPage(s: TableStep, hash: Hash, row: BlockRow)
    requires ValidTableStep(s) && HasBlock(s.before, hash, row)
    ensures HasBlock(s.after, hash, row)
    ensures RowsOfBlock(s.after.conflicts, row.id) == RowsOfBlock(s.before.conflicts, row.id)
  {
    if s.added.Some? {
      assert row.id in IdsOf(s.before.blocks);
      OtherRowsLeavePage(s.before.conflicts, s.part.conflicts, row.id);
    }
  }

  /** Once a block has its row, later rounds leave that row and the block's conflict rows alone, failed or not. */
  lemma {:induction false} LaterRoundsLeavePage(steps: seq<TableStep>, j: nat, k: nat, hash: Hash, row: BlockRow)
    requires IsTableLog(steps) && j <= k < |steps| && steps[j].added == Some((hash, row))
    ensures HasBlock(steps[k].after, hash, row)
    ensures RowsOfBlock(steps[k].after.conflicts, row.id) == RowsOfBlock(steps[j].after.conflicts, row.id)
  {
    assert ValidTableStep(steps[k]);
    if k == j {
    } else {
      LaterRoundsLeavePage(steps, j, k - 1, hash, row);
      assert steps[k - 1].after == steps[k - 1 + 1].before;
      StepLeavesPage(steps[k], hash, row);
    }
  }

  /** A block that gets its row has no conflict rows yet, so right after the round it has exactly the stored ones. */
  lemma RowsOfAddedBlock(s: TableStep, hash: Hash, row: BlockRow)
    requires ValidTableStep(s) && s.added == Some((hash, row)) && DistinctKeys(s.part.conflicts, ConflictKeyOf)
    ensures RowsOfBlock(s.after.conflicts, row.id) == Elements(s.part.conflicts)
  {
    RowsOfNewBlock(s.before.conflicts, s.part.conflicts, row.id);
  }

  ghost predicate IsShown(s: ConflictSet, web: seq<WebConflictSet>) {
    exists i :: 0 <= i < |web| && Shows(web[i], s)
  }

  ghost predicate ShowsOneOf(w: WebConflictSet, sets: seq<ConflictSet>) {
    exists j :: 0 <= j < |sets| && Shows(w, sets[j])
  }

  /** The web sets show the conflict sets, and nothing else. */
  ghost predicate ShowsAll(web: seq<WebConflictSet>, sets: seq<ConflictSet>) {
    && |web| == |sets|
    && (forall j {:trigger IsShown(sets[j], web)} :: 0 <= j < |sets| ==> IsShown(sets[j], web))
    && (forall i {:trigger ShowsOneOf(web[i], sets)} :: 0 <= i < |web| ==> ShowsOneOf(web[i], sets))
  }

  lemma RowsShowSets(web: seq<WebConflictSet>, order: seq<ConflictRow>, table: RecordMap,
                     sets: seq<ConflictSet>, rows: seq<ConflictRow>, id: int)
    requires RowsOfSets(rows, sets, id) && Elements(order) == Elements(rows) && |order| == |rows|
    requires WellKeyedTable(table) && ReadsRows(web, order, table)
    ensures ShowsAll(web, sets)
  {
    forall j | 0 <= j < |sets| ensures IsShown(sets[j], web) {
      assert rows[j] in Elements(order);
      var i :| 0 <= i < |order| && order[i] == rows[j];
      ReadRowUndoesRowOf(id, sets[j], table);
      assert Shows(web[i], sets[j]);
    }
    forall i | 0 <= i < |web| ensures ShowsOneOf(web[i], sets) {
      assert order[i] in Elements(rows);
      var j :| 0 <= j < |rows| && rows[j] == order[i];
      ReadRowUndoesRowOf(id, sets[j], table);
      assert Shows(web[i], sets[j]);
    }
  }

  ghost predicate RowsOfSets(rows: seq<ConflictRow>, sets: seq<ConflictSet>, id: int) {
    |rows| == |sets| && forall i :: 0 <= i < |rows| ==> rows[i] == RowOf(id, sets[i])
  }

  lemma CompletedRows(c: Comparison, s: TableStep)
    requires ValidComparison(c, s) && c.completed
    ensures s.added.Some? && s.added.value.0 == c.block.hash
    ensures RowsOfSets(s.part.conflicts, c.work.trace.sets, s.added.value.1.id)
    ensures DistinctKeys(s.part.conflicts, ConflictKeyOf)
  {
  }

  /** What a run leaves behind for a block whose processing completed in round `j`. */
  ghost predicate LeavesBehind(c: Core, hash: Hash, rows: set<ConflictRow>) {
    hash in c.blocks && RowsOfBlock(c.conflicts, c.blocks[hash].id) == rows
  }

  lemma RunLeavesRows(steps: seq<TableStep>, start: Core, end: Core, j: nat, hash: Hash, row: BlockRow)
    requires Connects(steps, start, end) && j < |steps| && steps[j].added == Some((hash, row))
    requires DistinctKeys(steps[j].part.conflicts, ConflictKeyOf)
    ensures LeavesBehind(end, hash, Elements(steps[j].part.conflicts)) && end.blocks[hash] == row
  {
    LaterRoundsLeavePage(steps, j, |steps| - 1, hash, row);
    assert ValidTableStep(steps[j]);
    RowsOfAddedBlock(steps[j], hash, row);
  }

  lemma FoundRowsShowSets(
      rows: seq<ConflictRow>, id: int, sets: seq<ConflictSet>, order: seq<ConflictRow>, table: RecordMap,
      web: seq<WebConflictSet>)
    requires RowsOfSets(rows, sets, id) && DistinctKeys(rows, ConflictKeyOf) && Enumerates(order, Elements(rows))
    requires WellKeyedTable(table) && ReadsRows(web, order, table)
    ensures ShowsAll(web, sets)
  {
    NoDupSize(order);
    assert NoDup(rows);
    NoDupSize(rows);
    RowsShowSets(web, order, table, sets, rows, id);
  }

  /**
   * At any later moment of a run of the loop, whatever other rounds did or failed to do, the page of a block
   * whose processing completed shows a web set with the same transactions and outpoints for every conflict
   * set of the comparison, and nothing else.
   */
  method PageShowsConflictSets(
      daemon: Daemon, ghost start: Start, ghost run: seq<Answers>, ghost log: seq<Round>, ghost j: nat,
      ghost c: Comparison, hash: Hash)
    returns (web: seq<WebConflictSet>)
    requires Reached(daemon, start, run, log) && j < |log| && log[j].comparison == Some(c)
    requires c.completed && c.block.hash == hash
    ensures ShowsAll(web, c.work.trace.sets)
  {
    assert Documents(log[j], EventAt(start.core.blocks.Keys, run, j));
    CompletedRows(c, log[j].step);
    RunLeavesRows(StepsOf(log), start.core, daemon.db.CoreTables(), j, hash, log[j].step.added.value.1);
    var page, order := ConflictsOfBlock(daemon.db, hash);
    web := page.value;
    FoundRowsShowSets(log[j].step.part.conflicts, daemon.db.blocks[hash].id, c.work.trace.sets, order,
                      daemon.db.transactions.rows, web);
  }
}
