/** The tables one processing writes, with their keys and foreign keys, and the order of the inserts. */
module Store {
  import opened Basics
  import opened Ledger
  import opened Sanctions
  import opened Records
  import opened Builders
  import opened SanctionedInfos
  import opened TagStore
  import opened TemplateSelection

  datatype BlockRow = BlockRow(
    id: int, height: nat, blockTx: nat, templateTx: nat, missing: nat, extra: nat, shared: nat,
    templateSanctioned: nat, blockSanctioned: nat, sanctionedMissing: nat)

  /** Block id and stored txid, the key of all rows about one transaction of one block. */
  type LinkKey = (int, Bytes)

  type ConflictKey = (int, seq<Bytes>, seq<Bytes>)

  type BlockTable = map<Hash, BlockRow>

  type ConflictTable = map<ConflictKey, ConflictRow>

  function BlockLinkKey(r: OnlyInBlockRow): LinkKey { (r.blockId, r.txid) }

  function TemplateLinkKey(r: OnlyInTemplateRow): LinkKey { (r.blockId, r.txid) }

  function InfoKey(r: InfoRow): LinkKey { (r.blockId, r.txid) }

  function ConflictKeyOf(r: ConflictRow): ConflictKey { (r.blockId, r.templateTxids, r.blockTxids) }

  /** A bulk insert of rows that violate no key. */
  function PutAll<K, R>(table: map<K, R>, rows: seq<R>, key: R -> K): map<K, R> {
    if rows == [] then table
    else PutAll(table, rows[..|rows| - 1], key)[key(rows[|rows| - 1]) := rows[|rows| - 1]]
  }

  lemma {:induction false} PutAllKeys<K, R>(table: map<K, R>, rows: seq<R>, key: R -> K)
    ensures forall k :: k in PutAll(table, rows, key) <==>
              k in table || exists i :: 0 <= i < |rows| && key(rows[i]) == k
    ensures forall k :: k in PutAll(table, rows, key) ==>
              (k in table && PutAll(table, rows, key)[k] == table[k])
              || (PutAll(table, rows, key)[k] in rows && key(PutAll(table, rows, key)[k]) == k)
  {
    if rows == [] {
    } else {
      PutAllKeys(table, rows[..|rows| - 1], key);
    }
  }

  predicate DistinctKeys<K(==), R>(rows: seq<R>, key: R -> K) {
    forall i, j :: 0 <= i < j < |rows| ==> key(rows[i]) != key(rows[j])
  }

  /** The primary key and the two foreign keys of the rows about one transaction. */
  predicate AdmitsLinks<R>(rows: seq<R>, key: R -> LinkKey, present: set<LinkKey>, ids: set<int>, txids: set<Bytes>) {
    && DistinctKeys(rows, key)
    && forall i :: 0 <= i < |rows| ==> key(rows[i]) !in present && key(rows[i]).0 in ids && key(rows[i]).1 in txids
  }

  /** Conflict rows have a primary key and refer to a block, but no constraint ties them to transactions. */
  predicate AdmitsConflicts(rows: seq<ConflictRow>, present: set<ConflictKey>, ids: set<int>) {
    && DistinctKeys(rows, ConflictKeyOf)
    && forall i :: 0 <= i < |rows| ==> ConflictKeyOf(rows[i]) !in present && rows[i].blockId in ids
  }

  // ---------------------------------------------------------------- what one processing stores

  datatype Bundle = Bundle(
    transactions: seq<TxRecord>,
    onlyInBlock: seq<OnlyInBlockRow>,
    onlyInTemplate: seq<OnlyInTemplateRow>,
    infos: seq<InfoRow>,
    conflicts: seq<ConflictRow>,
    utxos: seq<SanctionedUtxo>,
    debug: seq<DebugRow>)

  ghost predicate LinkedInBlock(bundle: Bundle, x: Bytes) {
    exists i :: 0 <= i < |bundle.onlyInBlock| && bundle.onlyInBlock[i].txid == x
  }

  ghost predicate LinkedInTemplate(bundle: Bundle, x: Bytes) {
    exists i :: 0 <= i < |bundle.onlyInTemplate| && bundle.onlyInTemplate[i].txid == x
  }

  /** Rows carry the block's id and distinct keys. */
  ghost predicate Shaped<R>(rows: seq<R>, key: R -> LinkKey, id: int) {
    DistinctKeys(rows, key) && forall i :: 0 <= i < |rows| ==> key(rows[i]).0 == id
  }

  ghost predicate TxidsIn<R>(rows: seq<R>, key: R -> LinkKey, txids: set<Bytes>) {
    forall i :: 0 <= i < |rows| ==> key(rows[i]).1 in txids
  }

  /** Members of conflict sets have link rows. */
  ghost predicate MembersLinked(bundle: Bundle, id: int, r: ConflictRow) {
    && r.blockId == id
    && (forall x :: x in r.templateTxids ==> LinkedInTemplate(bundle, x))
    && (forall x :: x in r.blockTxids ==> LinkedInBlock(bundle, x))
  }

  ghost predicate ConflictsShaped(bundle: Bundle, id: int) {
    && DistinctKeys(bundle.conflicts, ConflictKeyOf)
    && forall i :: 0 <= i < |bundle.conflicts| ==> MembersLinked(bundle, id, bundle.conflicts[i])
  }

  function RecordTxids(rs: seq<TxRecord>): set<Bytes> {
    set i | 0 <= i < |rs| :: rs[i].txid
  }

  ghost predicate WellFormed(bundle: Bundle, id: int) {
    && DistinctRecords(bundle.transactions) && RecordsDoNotRepeat(bundle.transactions)
    && Shaped(bundle.onlyInBlock, BlockLinkKey, id)
    && Shaped(bundle.onlyInTemplate, TemplateLinkKey, id)
    && Shaped(bundle.infos, InfoKey, id)
    && TxidsIn(bundle.infos, InfoKey, RecordTxids(bundle.transactions))
    && ConflictsShaped(bundle, id)
  }

  /** Every transaction with a link row is in the transaction table or about to be. */
  ghost predicate LinksKnown(bundle: Bundle, stored: RecordMap) {
    LinksStored(bundle, stored.Keys + RecordTxids(bundle.transactions))
  }

  ghost predicate LinksStored(bundle: Bundle, txids: set<Bytes>) {
    && TxidsIn(bundle.onlyInBlock, BlockLinkKey, txids)
    && TxidsIn(bundle.onlyInTemplate, TemplateLinkKey, txids)
  }

  /** Which statement the connection does not survive; `None` means all succeed. */
  datatype Fault =
    | AtTransactions(statement: nat)
    | AtOnlyInBlock
    | AtOnlyInTemplate
    | AtInfos
    | AtConflicts
    | AtUtxos
    | AtDebug

  /** The link rows are not affected. */
  predicate SparesLinks(fault: Option<Fault>) {
    fault.None? || fault.value.AtConflicts? || fault.value.AtUtxos? || fault.value.AtDebug?
  }

  /** Everything up to the new sanctioned outputs is not affected. */
  predicate SparesOutputs(fault: Option<Fault>) {
    fault.None? || fault.value.AtDebug?
  }

  /** All tables but the one of blocks, at one moment. */
  datatype Snapshot = Snapshot(
    transactions: RecordMap,
    onlyInBlock: map<LinkKey, OnlyInBlockRow>,
    onlyInTemplate: map<LinkKey, OnlyInTemplateRow>,
    infos: map<LinkKey, InfoRow>,
    conflicts: ConflictTable,
    utxos: UtxoTable,
    debug: map<int, map<nat, DebugRow>>)

  /** The tables once all rows of a block are stored. */
  ghost function WithBundle(s: Snapshot, bundle: Bundle, id: int): Snapshot {
    Snapshot(
      AddAll(s.transactions, bundle.transactions),
      PutAll(s.onlyInBlock, bundle.onlyInBlock, BlockLinkKey),
      PutAll(s.onlyInTemplate, bundle.onlyInTemplate, TemplateLinkKey),
      PutAll(s.infos, bundle.infos, InfoKey),
      PutAll(s.conflicts, bundle.conflicts, ConflictKeyOf),
      InsertUtxos(s.utxos, bundle.utxos),
      s.debug[id := InsertRows(map[], bundle.debug)])
  }

  /** What got stored of the conflict rows, the new sanctioned outputs and the rows of left-out transactions. */
  datatype Part = Part(conflicts: seq<ConflictRow>, utxos: seq<SanctionedUtxo>, leftOut: seq<OnlyInTemplateRow>)

  const NOTHING := Part([], [], [])

  /** What gets stored if nothing fails. */
  function WholeOf(bundle: Bundle): Part {
    Part(bundle.conflicts, bundle.utxos, bundle.onlyInTemplate)
  }

  /** Each of the three is stored as a whole or not at all. */
  ghost predicate IsPartOf(part: Part, bundle: Bundle) {
    && (part.conflicts == [] || part.conflicts == bundle.conflicts)
    && (part.utxos == [] || part.utxos == bundle.utxos)
    && (part.leftOut == [] || part.leftOut == bundle.onlyInTemplate)
  }

  function RowsUnder(debug: map<int, map<nat, DebugRow>>, id: int): map<nat, DebugRow> {
    if id in debug then debug[id] else map[]
  }

  function IdsOf(blocks: BlockTable): set<int> {
    set h | h in blocks :: blocks[h].id
  }

  /** The id column is unique. */
  ghost predicate UniqueIds(blocks: BlockTable) {
    forall g, h :: g in blocks && h in blocks && blocks[g].id == blocks[h].id ==> g == h
  }

  lemma IdsAfter(blocks: BlockTable, hash: Hash, row: BlockRow)
    requires hash !in blocks
    ensures IdsOf(blocks[hash := row]) == IdsOf(blocks) + {row.id}
    ensures UniqueIds(blocks) && row.id !in IdsOf(blocks) ==> UniqueIds(blocks[hash := row])
  {
    var more := blocks[hash := row];
    forall id | id in IdsOf(blocks) ensures id in IdsOf(more) {
      var h :| h in blocks && blocks[h].id == id;
      assert more[h].id == id;
    }
    assert more[hash].id == row.id;
  }

  // ---------------------------------------------------------------- the database

  class Database {
    var blocks: BlockTable
    var onlyInBlock: map<LinkKey, OnlyInBlockRow>
    var onlyInTemplate: map<LinkKey, OnlyInTemplateRow>
    var infos: map<LinkKey, InfoRow>
    var conflicts: ConflictTable
    var utxos: UtxoTable
    var debug: map<int, map<nat, DebugRow>>
    const transactions: TagTable

    constructor ()
      ensures blocks == map[] && onlyInBlock == map[] && onlyInTemplate == map[] && infos == map[]
      ensures conflicts == map[] && utxos == map[] && debug == map[]
      ensures fresh(transactions) && transactions.rows == map[]
    {
      blocks, onlyInBlock, onlyInTemplate, infos := map[], map[], map[], map[];
      conflicts, utxos, debug := map[], map[], map[];
      transactions := new TagTable(map[]);
    }

    ghost function CoreTables(): Core
      reads this
    {
      Core(blocks, conflicts, utxos, onlyInTemplate)
    }

    ghost function Contents(): Snapshot
      reads this, transactions
    {
      Snapshot(transactions.rows, onlyInBlock, onlyInTemplate, infos, conflicts, utxos, debug)
    }

    function Ids(): set<int>
      reads this`blocks
    {
      IdsOf(blocks)
    }

    /**
     * Every link row refers to a stored block and a stored transaction, and so does every conflict row;
     * selection rows refer to a stored block. Block ids are unique, transactions are filed under their txid
     * and none repeats a tag.
     */
    ghost predicate Closed()
      reads this, transactions
    {
      && UniqueIds(blocks) && WellKeyedTable(transactions.rows) && TagsDoNotRepeat(transactions.rows)
      && debug.Keys <= Ids()
      && KeysClosed(onlyInBlock.Keys, Ids(), transactions.rows.Keys)
      && KeysClosed(onlyInTemplate.Keys, Ids(), transactions.rows.Keys)
      && KeysClosed(infos.Keys, Ids(), transactions.rows.Keys)
      && ConflictsClosed(conflicts, Ids(), transactions.rows.Keys)
    }

    /** No row carries the id yet. */
    ghost predicate Unused(id: int)
      reads this
    {
      && IdUnused(onlyInBlock.Keys, id) && IdUnused(onlyInTemplate.Keys, id) && IdUnused(infos.Keys, id)
      && (forall k :: k in conflicts ==> k.0 != id)
      && id !in debug
    }

    /** Block hash and block id are unique; a second row for a block is refused. */
    method InsertBlock(hash: Hash, row: BlockRow, fault: bool) returns (ok: bool)
      requires Closed()
      modifies this`blocks
      ensures ok <==> !fault && hash !in old(blocks) && row.id !in old(Ids())
      ensures blocks == if ok then old(blocks)[hash := row] else old(blocks)
      ensures Closed()
      ensures ok ==> row.id in Ids() && Unused(row.id)
    {
      ok := !fault && hash !in blocks && row.id !in Ids();
      if ok {
        ghost var ids := Ids();
        assert forall k :: k in conflicts ==> ConflictClosed(conflicts[k], ids, transactions.rows.Keys);
        blocks := blocks[hash := row];
        IdsAfter(old(blocks), hash, row);
        ClosedGrows(conflicts, ids, Ids(), transactions.rows.Keys, transactions.rows.Keys);
      }
    }

    method InsertOnlyInBlock(rows: seq<OnlyInBlockRow>, id: int, fault: bool) returns (ok: bool)
      requires Shaped(rows, BlockLinkKey, id) && id in Ids() && IdUnused(onlyInBlock.Keys, id)
      requires KeysClosed(onlyInBlock.Keys, Ids(), transactions.rows.Keys)
      modifies this`onlyInBlock
      ensures ok <==> !fault && TxidsIn(rows, BlockLinkKey, transactions.rows.Keys)
      ensures onlyInBlock == if ok then PutAll(old(onlyInBlock), rows, BlockLinkKey) else old(onlyInBlock)
      ensures KeysClosed(onlyInBlock.Keys, Ids(), transactions.rows.Keys)
    {
      AdmittedIffKnown(rows, BlockLinkKey, id, onlyInBlock, Ids(), transactions.rows.Keys);
      ok := !fault && AdmitsLinks(rows, BlockLinkKey, onlyInBlock.Keys, Ids(), transactions.rows.Keys);
      if ok {
        onlyInBlock := PutAll(onlyInBlock, rows, BlockLinkKey);
      }
    }

    method InsertOnlyInTemplate(rows: seq<OnlyInTemplateRow>, id: int, fault: bool) returns (ok: bool)
      requires Shaped(rows, TemplateLinkKey, id) && id in Ids() && IdUnused(onlyInTemplate.Keys, id)
      requires KeysClosed(onlyInTemplate.Keys, Ids(), transactions.rows.Keys)
      modifies this`onlyInTemplate
      ensures ok <==> !fault && TxidsIn(rows, TemplateLinkKey, transactions.rows.Keys)
      ensures onlyInTemplate == if ok then PutAll(old(onlyInTemplate), rows, TemplateLinkKey) else old(onlyInTemplate)
      ensures KeysClosed(onlyInTemplate.Keys, Ids(), transactions.rows.Keys)
    {
      AdmittedIffKnown(rows, TemplateLinkKey, id, onlyInTemplate, Ids(), transactions.rows.Keys);
      ok := !fault && AdmitsLinks(rows, TemplateLinkKey, onlyInTemplate.Keys, Ids(), transactions.rows.Keys);
      if ok {
        onlyInTemplate := PutAll(onlyInTemplate, rows, TemplateLinkKey);
      }
    }

    method InsertInfos(rows: seq<InfoRow>, id: int, fault: bool) returns (ok: bool)
      requires Shaped(rows, InfoKey, id) && id in Ids() && IdUnused(infos.Keys, id)
      requires KeysClosed(infos.Keys, Ids(), transactions.rows.Keys)
      modifies this`infos
      ensures ok <==> !fault && TxidsIn(rows, InfoKey, transactions.rows.Keys)
      ensures infos == if ok then PutAll(old(infos), rows, InfoKey) else old(infos)
      ensures KeysClosed(infos.Keys, Ids(), transactions.rows.Keys)
    {
      AdmittedIffKnown(rows, InfoKey, id, infos, Ids(), transactions.rows.Keys);
      ok := !fault && AdmitsLinks(rows, InfoKey, infos.Keys, Ids(), transactions.rows.Keys);
      if ok {
        infos := PutAll(infos, rows, InfoKey);
      }
    }

    /** Conflict rows come after the link rows of all their members. */
    method InsertConflicts(bundle: Bundle, id: int, fault: bool) returns (ok: bool)
      requires ConflictsShaped(bundle, id) && id in Ids()
      requires forall k :: k in conflicts ==> k.0 != id
      requires ConflictsClosed(conflicts, Ids(), transactions.rows.Keys)
      requires LinksStored(bundle, transactions.rows.Keys)
      modifies this`conflicts
      ensures ok <==> !fault
      ensures conflicts == if ok then PutAll(old(conflicts), bundle.conflicts, ConflictKeyOf) else old(conflicts)
      ensures ConflictsClosed(conflicts, Ids(), transactions.rows.Keys)
    {
      ConflictsAdmitted(bundle, id, conflicts, Ids(), transactions.rows.Keys);
      ok := !fault && AdmitsConflicts(bundle.conflicts, conflicts.Keys, Ids());
      if ok {
        conflicts := PutAll(conflicts, bundle.conflicts, ConflictKeyOf);
      }
    }

    /** The transactions and their tags; stopping midway leaves a part of them merged. */
    method StoreTransactions(rs: seq<TxRecord>, faultAt: Option<nat>) returns (ok: bool)
      requires Closed() && DistinctRecords(rs) && RecordsDoNotRepeat(rs)
      modifies transactions
      ensures Closed()
      ensures Grows(old(transactions.rows), transactions.rows)
      ensures faultAt.None? ==> ok
      ensures ok ==>
                && transactions.rows == AddAll(old(transactions.rows), rs)
                && transactions.rows.Keys == old(transactions.rows).Keys + RecordTxids(rs)
    {
      ghost var before := transactions.rows;
      ok := transactions.InsertTransactions(rs, faultAt);
      InsertGrows(before, rs, transactions.rows);
      ClosedGrows(conflicts, Ids(), Ids(), before.Keys, transactions.rows.Keys);
      KeysAfterInsert(before, rs);
    }

    /** The rows of transactions found on one side only. */
    method StoreOneSided(bundle: Bundle, id: int, fault: Option<Fault>) returns (ok: bool)
      requires Closed() && id in Ids()
      requires Shaped(bundle.onlyInBlock, BlockLinkKey, id) && IdUnused(onlyInBlock.Keys, id)
      requires Shaped(bundle.onlyInTemplate, TemplateLinkKey, id) && IdUnused(onlyInTemplate.Keys, id)
      modifies this`onlyInBlock, this`onlyInTemplate
      ensures Closed()
      ensures SparesLinks(fault) ==> (ok <==> LinksStored(bundle, transactions.rows.Keys))
      ensures AllOrNothing(old(onlyInTemplate), bundle.onlyInTemplate, onlyInTemplate)
      ensures ok ==>
                && LinksStored(bundle, transactions.rows.Keys)
                && onlyInBlock == PutAll(old(onlyInBlock), bundle.onlyInBlock, BlockLinkKey)
                && onlyInTemplate == PutAll(old(onlyInTemplate), bundle.onlyInTemplate, TemplateLinkKey)
    {
      ok := InsertOnlyInBlock(bundle.onlyInBlock, id, fault == Some(AtOnlyInBlock));
      if !ok {
        return;
      }
      ok := InsertOnlyInTemplate(bundle.onlyInTemplate, id, fault == Some(AtOnlyInTemplate));
    }

    /** All rows that refer to transactions. */
    method StoreLinkRows(bundle: Bundle, id: int, fault: Option<Fault>) returns (ok: bool)
      requires Closed() && id in Ids() && Unused(id) && WellFormed(bundle, id)
      requires RecordTxids(bundle.transactions) <= transactions.rows.Keys
      modifies this`onlyInBlock, this`onlyInTemplate, this`infos
      ensures Closed()
      ensures SparesLinks(fault) ==> (ok <==> LinksStored(bundle, transactions.rows.Keys))
      ensures AllOrNothing(old(onlyInTemplate), bundle.onlyInTemplate, onlyInTemplate)
      ensures ok ==>
                && LinksStored(bundle, transactions.rows.Keys)
                && onlyInBlock == PutAll(old(onlyInBlock), bundle.onlyInBlock, BlockLinkKey)
                && onlyInTemplate == PutAll(old(onlyInTemplate), bundle.onlyInTemplate, TemplateLinkKey)
                && infos == PutAll(old(infos), bundle.infos, InfoKey)
    {
      ok := StoreOneSided(bundle, id, fault);
      if !ok {
        return;
      }
      ok := InsertInfos(bundle.infos, id, fault == Some(AtInfos));
    }

    /** Transactions first, then the rows that refer to them. */
    method StoreLinks(bundle: Bundle, id: int, fault: Option<Fault>)
      returns (ok: bool, ghost leftOut: seq<OnlyInTemplateRow>)
      requires Closed() && id in Ids() && Unused(id) && WellFormed(bundle, id)
      modifies this`onlyInBlock, this`onlyInTemplate, this`infos, transactions
      ensures Closed()
      ensures Grows(old(transactions.rows), transactions.rows)
      ensures SparesLinks(fault) ==> (ok <==> LinksKnown(bundle, old(transactions.rows)))
      ensures leftOut == [] || leftOut == bundle.onlyInTemplate
      ensures onlyInTemplate == PutAll(old(onlyInTemplate), leftOut, TemplateLinkKey)
      ensures ok ==>
                && leftOut == bundle.onlyInTemplate
                && LinksKnown(bundle, old(transactions.rows))
                && LinksStored(bundle, transactions.rows.Keys)
                && transactions.rows == AddAll(old(transactions.rows), bundle.transactions)
                && onlyInBlock == PutAll(old(onlyInBlock), bundle.onlyInBlock, BlockLinkKey)
                && infos == PutAll(old(infos), bundle.infos, InfoKey)
    {
      leftOut := [];
      var faultAt := if fault.Some? && fault.value.AtTransactions? then Some(fault.value.statement) else None;
      ok := StoreTransactions(bundle.transactions, faultAt);
      if !ok {
        return;
      }
      ok := StoreLinkRows(bundle, id, fault);
      leftOut := if ok || onlyInTemplate != old(onlyInTemplate) then bundle.onlyInTemplate else [];
    }

    /** New sanctioned outputs and the selection rows, both skipping keys that exist. */
    method StoreRest(bundle: Bundle, id: int, fault: Option<Fault>)
      returns (ok: bool, ghost stored: seq<SanctionedUtxo>)
      requires id in Ids() && debug.Keys <= Ids() && id !in debug
      modifies this`utxos, this`debug
      ensures debug.Keys <= Ids()
      ensures fault.None? ==> ok
      ensures stored == [] || stored == bundle.utxos
      ensures utxos == InsertUtxos(old(utxos), stored)
      ensures SparesOutputs(fault) || ok ==> stored == bundle.utxos
      ensures ok ==> debug == old(debug)[id := InsertRows(map[], bundle.debug)]
    {
      stored := [];
      if bundle.utxos != [] {
        if fault == Some(AtUtxos) {
          return false, stored;
        }
        utxos := InsertUtxos(utxos, bundle.utxos);
        stored := bundle.utxos;
      }
      if fault == Some(AtDebug) {
        return false, stored;
      }
      debug := debug[id := InsertRows(RowsUnder(debug, id), bundle.debug)];
      ok := true;
    }

    method StoreConflicts(bundle: Bundle, id: int, fault: Option<Fault>, ghost leftOut: seq<OnlyInTemplateRow>)
      returns (ok: bool, ghost part: Part)
      requires Closed() && id in Ids() && ConflictsShaped(bundle, id) && id !in debug
      requires forall k :: k in conflicts ==> k.0 != id
      requires LinksStored(bundle, transactions.rows.Keys) && leftOut == bundle.onlyInTemplate
      modifies this`conflicts, this`utxos, this`debug
      ensures Closed()
      ensures fault.None? ==> ok
      ensures IsPartOf(part, bundle) && part.leftOut == leftOut
      ensures conflicts == PutAll(old(conflicts), part.conflicts, ConflictKeyOf)
      ensures utxos == InsertUtxos(old(utxos), part.utxos)
      ensures ok ==> part.conflicts == bundle.conflicts
      ensures SparesOutputs(fault) || ok ==> part.utxos == bundle.utxos
      ensures ok ==> debug == old(debug)[id := InsertRows(map[], bundle.debug)]
    {
      ok := InsertConflicts(bundle, id, fault == Some(AtConflicts));
      if !ok {
        part := NOTHING.(leftOut := leftOut);
        return;
      }
      ghost var stored;
      ok, stored := StoreRest(bundle, id, fault);
      part := Part(bundle.conflicts, stored, leftOut);
    }

    /**
     * All inserts after the block row. References are closed wherever it stops; without a fault it
     * completes if and only if every transaction with a link row is known. A fault at the selection rows
     * comes too late for the new sanctioned outputs.
     */
    method StoreBundle(bundle: Bundle, id: int, fault: Option<Fault>) returns (completed: bool, ghost part: Part)
      requires Closed() && id in Ids() && Unused(id) && WellFormed(bundle, id)
      modifies this`onlyInBlock, this`onlyInTemplate, this`infos, this`conflicts, this`utxos, this`debug, transactions
      ensures Closed()
      ensures Grows(old(transactions.rows), transactions.rows)
      ensures fault.None? ==> (completed <==> LinksKnown(bundle, old(transactions.rows)))
      ensures completed ==> LinksKnown(bundle, old(transactions.rows))
      ensures completed ==> Contents() == WithBundle(old(Contents()), bundle, id)
      ensures IsPartOf(part, bundle)
      ensures conflicts == PutAll(old(conflicts), part.conflicts, ConflictKeyOf)
      ensures utxos == InsertUtxos(old(utxos), part.utxos)
      ensures onlyInTemplate == PutAll(old(onlyInTemplate), part.leftOut, TemplateLinkKey)
      ensures completed ==> part == WholeOf(bundle)
      ensures SparesOutputs(fault) && LinksKnown(bundle, old(transactions.rows)) ==> part.utxos == bundle.utxos
    {
      ghost var leftOut;
      completed, leftOut := StoreLinks(bundle, id, fault);
      part := NOTHING.(leftOut := leftOut);
      if !completed {
        return;
      }
      completed, part := StoreConflicts(bundle, id, fault, leftOut);
    }
  }

  /** All rows are in, or none. */
  ghost predicate AllOrNothing(
      before: map<LinkKey, OnlyInTemplateRow>, rows: seq<OnlyInTemplateRow>, after: map<LinkKey, OnlyInTemplateRow>)
  {
    after == before || after == PutAll(before, rows, TemplateLinkKey)
  }

  // ---------------------------------------------------------------- foreign keys

  ghost predicate KeysClosed(keys: set<LinkKey>, ids: set<int>, txids: set<Bytes>) {
    forall k :: k in keys ==> k.0 in ids && k.1 in txids
  }

  ghost predicate IdUnused(keys: set<LinkKey>, id: int) {
    forall k :: k in keys ==> k.0 != id
  }

  ghost predicate ConflictClosed(r: ConflictRow, ids: set<int>, txids: set<Bytes>) {
    && r.blockId in ids
    && (forall x :: x in r.templateTxids ==> x in txids)
    && (forall x :: x in r.blockTxids ==> x in txids)
  }

  ghost predicate ConflictsClosed(conflicts: ConflictTable, ids: set<int>, txids: set<Bytes>) {
    forall k :: k in conflicts ==> ConflictKeyOf(conflicts[k]) == k && ConflictClosed(conflicts[k], ids, txids)
  }

  lemma ClosedGrows(
      conflicts: ConflictTable, ids: set<int>, ids': set<int>, txids: set<Bytes>, txids': set<Bytes>)
    requires ids <= ids' && txids <= txids' && ConflictsClosed(conflicts, ids, txids)
    ensures ConflictsClosed(conflicts, ids', txids')
  {
    forall k | k in conflicts ensures ConflictClosed(conflicts[k], ids', txids') {
      assert ConflictClosed(conflicts[k], ids, txids);
    }
  }

  lemma InsertGrows(before: RecordMap, rs: seq<TxRecord>, after: RecordMap)
    requires DistinctRecords(rs)
    requires after == before || exists n :: 0 <= n <= |rs| && after == MergedUpTo(before, rs, n)
    ensures Grows(before, after) && before.Keys <= after.Keys
    ensures WellKeyedTable(before) ==> WellKeyedTable(after)
    ensures TagsDoNotRepeat(before) && RecordsDoNotRepeat(rs) ==> TagsDoNotRepeat(after)
  {
    if after != before {
      var n :| 0 <= n <= |rs| && after == MergedUpTo(before, rs, n);
      MergedGrows(before, rs, n);
      if TagsDoNotRepeat(before) && RecordsDoNotRepeat(rs) {
        MergedDoNotRepeat(before, rs, n);
      }
    }
  }

  lemma KeysAfterInsert(before: RecordMap, rs: seq<TxRecord>)
    requires DistinctRecords(rs)
    ensures AddAll(before, rs).Keys == before.Keys + RecordTxids(rs)
  {
    forall k ensures k in AddAll(before, rs) <==> k in before || k in RecordTxids(rs) {
      if Recorded(rs, k) {
        var i :| 0 <= i < |rs| && rs[i].txid == k;
        AddAllMergesOnce(before, rs, i);
      } else {
        AddAllLeavesOthers(before, rs, k);
      }
    }
  }

  /** The keys admit rows of a new block exactly when their transactions are known. */
  lemma AdmittedIffKnown<R>(
      rows: seq<R>, key: R -> LinkKey, id: int, table: map<LinkKey, R>, ids: set<int>, txids: set<Bytes>)
    requires Shaped(rows, key, id) && id in ids && IdUnused(table.Keys, id) && KeysClosed(table.Keys, ids, txids)
    ensures AdmitsLinks(rows, key, table.Keys, ids, txids) <==> TxidsIn(rows, key, txids)
    ensures TxidsIn(rows, key, txids) ==> KeysClosed(PutAll(table, rows, key).Keys, ids, txids)
  {
    PutAllKeys(table, rows, key);
  }

  lemma ConflictsAdmitted(
      bundle: Bundle, id: int, table: ConflictTable, ids: set<int>, txids: set<Bytes>)
    requires ConflictsShaped(bundle, id) && id in ids && (forall k :: k in table ==> k.0 != id)
    requires ConflictsClosed(table, ids, txids)
    requires LinksStored(bundle, txids)
    ensures AdmitsConflicts(bundle.conflicts, table.Keys, ids)
    ensures ConflictsClosed(PutAll(table, bundle.conflicts, ConflictKeyOf), ids, txids)
  {
    PutAllKeys(table, bundle.conflicts, ConflictKeyOf);
    forall r | r in bundle.conflicts ensures ConflictClosed(r, ids, txids) {
      assert MembersLinked(bundle, id, r);
      forall x | x in r.templateTxids ensures x in txids {
        assert LinkedInTemplate(bundle, x);
        var i :| 0 <= i < |bundle.onlyInTemplate| && bundle.onlyInTemplate[i].txid == x;
        assert TemplateLinkKey(bundle.onlyInTemplate[i]).1 in txids;
      }
      forall x | x in r.blockTxids ensures x in txids {
        assert LinkedInBlock(bundle, x);
        var i :| 0 <= i < |bundle.onlyInBlock| && bundle.onlyInBlock[i].txid == x;
        assert BlockLinkKey(bundle.onlyInBlock[i]).1 in txids;
      }
    }
  }

  // ---------------------------------------------------------------- consecutive processings

  /** The tables that later processings and readers build on. */
  datatype Core = Core(
    blocks: BlockTable, conflicts: ConflictTable, utxos: UtxoTable, leftOut: map<LinkKey, OnlyInTemplateRow>)

  ghost predicate KeyedConflicts(table: ConflictTable) {
    forall k :: k in table ==> ConflictKeyOf(table[k]) == k
  }

  /** Conflict rows have their own key, and like the rows of left-out transactions they refer to a block. */
  ghost predicate Refers(c: Core) {
    && KeyedConflicts(c.conflicts) && (forall k :: k in c.conflicts ==> c.conflicts[k].blockId in IdsOf(c.blocks))
    && (forall k :: k in c.leftOut ==> k.0 in IdsOf(c.blocks))
  }

  /** What one round did: it added a block row and some of the block's other rows, or nothing at all. */
  datatype TableStep = TableStep(before: Core, after: Core, added: Option<(Hash, BlockRow)>, part: Part)

  ghost predicate HaveId(rows: seq<ConflictRow>, id: int) {
    forall i :: 0 <= i < |rows| ==> rows[i].blockId == id
  }

  ghost predicate HaveLinkId(rows: seq<OnlyInTemplateRow>, id: int) {
    forall i :: 0 <= i < |rows| ==> rows[i].blockId == id
  }

  ghost predicate Adds(before: Core, after: Core, hash: Hash, row: BlockRow, part: Part) {
    && hash !in before.blocks && row.id !in IdsOf(before.blocks)
    && after.blocks == before.blocks[hash := row]
    && after.conflicts == PutAll(before.conflicts, part.conflicts, ConflictKeyOf)
    && after.utxos == InsertUtxos(before.utxos, part.utxos)
    && after.leftOut == PutAll(before.leftOut, part.leftOut, TemplateLinkKey)
    && HaveId(part.conflicts, row.id) && HaveLinkId(part.leftOut, row.id)
  }

  ghost predicate ValidTableStep(s: TableStep) {
    && Refers(s.before)
    && match s.added
       case None => s.after == s.before && s.part == NOTHING
       case Some(block) => Adds(s.before, s.after, block.0, block.1, s.part)
  }

  /** The steps of consecutive rounds. */
  ghost predicate IsTableLog(steps: seq<TableStep>) {
    && (forall i {:trigger ValidTableStep(steps[i])} :: 0 <= i < |steps| ==> ValidTableStep(steps[i]))
    && (forall i {:trigger steps[i].after} :: 0 <= i < |steps| - 1 ==> steps[i].after == steps[i + 1].before)
  }

  lemma LongerTableLog(steps: seq<TableStep>, s: TableStep)
    requires IsTableLog(steps) && ValidTableStep(s) && (steps != [] ==> steps[|steps| - 1].after == s.before)
    ensures IsTableLog(steps + [s])
  {
    var longer := steps + [s];
    forall i | 0 <= i < |longer| ensures ValidTableStep(longer[i]) {
      assert i < |steps| ==> ValidTableStep(steps[i]);
    }
    forall i {:trigger longer[i].after} | 0 <= i < |longer| - 1 ensures longer[i].after == longer[i + 1].before {
      assert i < |steps| - 1 ==> steps[i].after == steps[i + 1].before;
    }
  }

  function UtxoStepOf(s: TableStep): UtxoStep {
    UtxoStep(s.before.utxos, s.after.utxos, s.part.utxos)
  }

  function UtxoStepsOf(steps: seq<TableStep>): (r: seq<UtxoStep>)
    ensures |r| == |steps| && forall i :: 0 <= i < |r| ==> r[i] == UtxoStepOf(steps[i])
  {
    seq(|steps|, i requires 0 <= i < |steps| => UtxoStepOf(steps[i]))
  }

  lemma UtxoStepIsValid(s: TableStep)
    requires ValidTableStep(s)
    ensures ValidStep(UtxoStepOf(s))
  {
  }

  /** Seen as steps on the sanctioned outputs alone. */
  lemma UtxoLogOf(steps: seq<TableStep>)
    requires IsTableLog(steps)
    ensures IsUtxoLog(UtxoStepsOf(steps))
  {
    var r := UtxoStepsOf(steps);
    forall i | 0 <= i < |r| ensures ValidStep(r[i]) {
      assert ValidTableStep(steps[i]);
      UtxoStepIsValid(steps[i]);
    }
    forall i {:trigger r[i].after} | 0 <= i < |r| - 1 ensures r[i].after == r[i + 1].before {
      assert steps[i].after == steps[i + 1].before;
    }
  }

  lemma ClosedRefers(c: Core, txids: set<Bytes>)
    requires ConflictsClosed(c.conflicts, IdsOf(c.blocks), txids) && KeysClosed(c.leftOut.Keys, IdsOf(c.blocks), txids)
    ensures Refers(c)
  {
    forall k | k in c.conflicts ensures c.conflicts[k].blockId in IdsOf(c.blocks) {
      assert ConflictClosed(c.conflicts[k], IdsOf(c.blocks), txids);
    }
  }
}
