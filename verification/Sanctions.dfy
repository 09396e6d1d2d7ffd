/** Sanctioned transactions: the rules, the index of sanctioned outputs and how the daemon maintains it. */
module Sanctions {
  import opened Basics
  import opened Ledger

  /** A row of the table; `txid` is in display order and `vout` an `i32`. */
  datatype SanctionedUtxo = SanctionedUtxo(txid: Bytes, vout: int, script: Bytes, amount: int, height: int)

  type UtxoIndex = map<(Txid, U32), SanctionedUtxo>

  /** `addressOf` is the library's script-to-address conversion, which fails for some scripts. */
  datatype Rules = Rules(addressOf: Bytes -> Option<string>, addresses: set<string>, utxos: UtxoIndex)

  // ---------------------------------------------------------------- which transactions are sanctioned

  predicate PaysSanctioned(out: TxOut, rules: Rules) {
    var address := rules.addressOf(out.script);
    address.Some? && address.value in rules.addresses
  }

  predicate IsToSanctioned(tx: Transaction, rules: Rules) {
    exists i :: 0 <= i < |tx.outputs| && PaysSanctioned(tx.outputs[i], rules)
  }

  /** Somebody on the list is paid: an output's script has an address, and the address is listed. */
  lemma ToSanctionedMeansListed(tx: Transaction, rules: Rules)
    ensures IsToSanctioned(tx, rules) <==>
            exists i, a :: 0 <= i < |tx.outputs| && a in rules.addresses
                           && rules.addressOf(tx.outputs[i].script) == Some(a)
  {
    if IsToSanctioned(tx, rules) {
      var i :| 0 <= i < |tx.outputs| && PaysSanctioned(tx.outputs[i], rules);
      assert rules.addressOf(tx.outputs[i].script) == Some(rules.addressOf(tx.outputs[i].script).value);
    }
    if exists i, a :: 0 <= i < |tx.outputs| && a in rules.addresses
                      && rules.addressOf(tx.outputs[i].script) == Some(a) {
      var i, a :| 0 <= i < |tx.outputs| && a in rules.addresses && rules.addressOf(tx.outputs[i].script) == Some(a);
      assert PaysSanctioned(tx.outputs[i], rules);
    }
  }

  predicate IsFromSanctioned(tx: Transaction, rules: Rules) {
    exists i :: 0 <= i < |tx.inputs| && (tx.inputs[i].txid, tx.inputs[i].vout) in rules.utxos
  }

  predicate IsSanctioned(tx: Transaction, rules: Rules) {
    IsToSanctioned(tx, rules) || IsFromSanctioned(tx, rules)
  }

  // ---------------------------------------------------------------- the index

  function KeyOf(row: SanctionedUtxo): (Txid, U32) {
    (Reversed(row.txid), AsU32(row.vout))
  }

  /** The outpoints of the rows; of two rows with one key the later would win. */
  function IndexUtxos(rows: seq<SanctionedUtxo>): UtxoIndex {
    if rows == [] then map[]
    else IndexUtxos(rows[..|rows| - 1])[KeyOf(rows[|rows| - 1]) := rows[|rows| - 1]]
  }

  lemma {:induction false} IndexHoldsRows(rows: seq<SanctionedUtxo>)
    ensures forall r :: r in rows ==> KeyOf(r) in IndexUtxos(rows)
    ensures forall k :: k in IndexUtxos(rows) ==> IndexUtxos(rows)[k] in rows && KeyOf(IndexUtxos(rows)[k]) == k
  {
    if rows == [] {
    } else {
      IndexHoldsRows(rows[..|rows| - 1]);
    }
  }

  // ---------------------------------------------------------------- new sanctioned outputs

  function UtxoFor(b: Block, tx: Transaction, i: int): SanctionedUtxo
    requires 0 <= i < |tx.outputs|
  {
    SanctionedUtxo(Reversed(tx.txid), AsI32(i), tx.outputs[i].script, tx.outputs[i].value, b.height)
  }

  ghost predicate IsNewUtxo(b: Block, rules: Rules, n: int, r: SanctionedUtxo) {
    exists k, i :: 0 <= k < n <= |b.txdata| && 0 <= i < |b.txdata[k].outputs|
                   && PaysSanctioned(b.txdata[k].outputs[i], rules) && r == UtxoFor(b, b.txdata[k], i)
  }

  method NewUtxosOf(b: Block, tx: Transaction, rules: Rules) returns (rows: seq<SanctionedUtxo>)
    ensures forall r :: r in rows <==>
              exists i :: 0 <= i < |tx.outputs| && PaysSanctioned(tx.outputs[i], rules) && r == UtxoFor(b, tx, i)
  {
    rows := [];
    for n := 0 to |tx.outputs|
      invariant forall r :: r in rows <==>
                  exists i :: 0 <= i < n && PaysSanctioned(tx.outputs[i], rules) && r == UtxoFor(b, tx, i)
    {
      if PaysSanctioned(tx.outputs[n], rules) {
        rows := rows + [UtxoFor(b, tx, n)];
      }
    }
  }

  /** Exactly the outputs of the block that pay a sanctioned address. */
  method BuildNewUtxos(b: Block, rules: Rules) returns (rows: seq<SanctionedUtxo>)
    ensures forall r :: r in rows <==> IsNewUtxo(b, rules, |b.txdata|, r)
  {
    rows := [];
    for n := 0 to |b.txdata|
      invariant forall r :: r in rows <==> IsNewUtxo(b, rules, n, r)
    {
      var tx := b.txdata[n];
      ghost var before := rows;
      if IsToSanctioned(tx, rules) {
        var more := NewUtxosOf(b, tx, rules);
        rows := rows + more;
      }
      forall r ensures r in rows <==> IsNewUtxo(b, rules, n + 1, r) {
        NewUtxoStep(b, rules, n, r);
      }
    }
  }

  lemma NewUtxoStep(b: Block, rules: Rules, n: int, r: SanctionedUtxo)
    requires 0 <= n < |b.txdata|
    ensures IsNewUtxo(b, rules, n + 1, r) <==>
            IsNewUtxo(b, rules, n, r)
            || exists i :: 0 <= i < |b.txdata[n].outputs| && PaysSanctioned(b.txdata[n].outputs[i], rules)
                           && r == UtxoFor(b, b.txdata[n], i)
  {
  }

  /** The row is about output `i` of transaction `k` of the block, which pays the address `a`. */
  ghost predicate IsRowOfOutput(r: SanctionedUtxo, b: Block, rules: Rules, k: nat, i: nat, a: string) {
    && k < |b.txdata| && i < |b.txdata[k].outputs| && KeyOf(r) == (b.txdata[k].txid, i % 0x1_0000_0000)
    && r.script == b.txdata[k].outputs[i].script && r.amount == b.txdata[k].outputs[i].value && r.height == b.height
    && a in rules.addresses && rules.addressOf(r.script) == Some(a)
  }

  /** A new row gives back its outpoint and has the script, value and height of the output it stands for. */
  lemma NewUtxoShowsOutput(b: Block, rules: Rules, r: SanctionedUtxo) returns (k: nat, i: nat, a: string)
    requires IsNewUtxo(b, rules, |b.txdata|, r)
    ensures IsRowOfOutput(r, b, rules, k, i, a)
  {
    var x, n :| 0 <= x < |b.txdata| && 0 <= n < |b.txdata[x].outputs|
                && PaysSanctioned(b.txdata[x].outputs[n], rules) && r == UtxoFor(b, b.txdata[x], n);
    k, i, a := x, n, rules.addressOf(r.script).value;
    ReversedTwice(b.txdata[k].txid);
  }

  /** And every output that pays a listed address has such a row. */
  lemma PaidOutputHasRow(b: Block, rules: Rules, k: nat, i: nat, a: string) returns (r: SanctionedUtxo)
    requires k < |b.txdata| && i < |b.txdata[k].outputs|
    requires a in rules.addresses && rules.addressOf(b.txdata[k].outputs[i].script) == Some(a)
    ensures IsNewUtxo(b, rules, |b.txdata|, r) && IsRowOfOutput(r, b, rules, k, i, a)
  {
    r := UtxoFor(b, b.txdata[k], i);
    assert PaysSanctioned(b.txdata[k].outputs[i], rules);
    ReversedTwice(b.txdata[k].txid);
  }

  // ---------------------------------------------------------------- the table between rescans

  type UtxoTable = map<(Bytes, int), SanctionedUtxo>

  ghost predicate ValidTable(table: UtxoTable) {
    forall k :: k in table ==> k == (table[k].txid, table[k].vout)
  }

  /** Insert with "on conflict do nothing". */
  function InsertUtxos(table: UtxoTable, rows: seq<SanctionedUtxo>): UtxoTable {
    if rows == [] then table
    else
      var before := InsertUtxos(table, rows[..|rows| - 1]);
      var r := rows[|rows| - 1];
      if (r.txid, r.vout) in before then before else before[(r.txid, r.vout) := r]
  }

  lemma {:induction false} InsertUtxosKeeps(table: UtxoTable, rows: seq<SanctionedUtxo>)
    requires ValidTable(table)
    ensures ValidTable(InsertUtxos(table, rows))
    ensures forall k :: k in table ==> k in InsertUtxos(table, rows) && InsertUtxos(table, rows)[k] == table[k]
    ensures forall r :: r in rows ==> (r.txid, r.vout) in InsertUtxos(table, rows)
    ensures forall k :: k in InsertUtxos(table, rows) ==> k in table || InsertUtxos(table, rows)[k] in rows
  {
    if rows == [] {
    } else {
      InsertUtxosKeeps(table, rows[..|rows| - 1]);
    }
  }

  /** The table after storing the new outputs of several blocks, without a rescan in between. */
  function InsertBatches(table: UtxoTable, batches: seq<seq<SanctionedUtxo>>): UtxoTable {
    if batches == [] then table
    else InsertUtxos(InsertBatches(table, batches[..|batches| - 1]), batches[|batches| - 1])
  }

  lemma {:induction false} BatchesKeepKeys(
      table: UtxoTable, batches: seq<seq<SanctionedUtxo>>, j: int, r: SanctionedUtxo)
    requires ValidTable(table) && 0 <= j < |batches| && r in batches[j]
    ensures ValidTable(InsertBatches(table, batches)) && (r.txid, r.vout) in InsertBatches(table, batches)
  {
    var front := batches[..|batches| - 1];
    BatchesStayValid(table, front);
    InsertUtxosKeeps(InsertBatches(table, front), batches[|batches| - 1]);
    if j < |front| {
      BatchesKeepKeys(table, front, j, r);
    }
  }

  lemma {:induction false} BatchesStayValid(table: UtxoTable, batches: seq<seq<SanctionedUtxo>>)
    requires ValidTable(table)
    ensures ValidTable(InsertBatches(table, batches))
  {
    if batches == [] {
    } else {
      BatchesStayValid(table, batches[..|batches| - 1]);
      InsertUtxosKeeps(InsertBatches(table, batches[..|batches| - 1]), batches[|batches| - 1]);
    }
  }

  /** What one round does to the table: it inserts a batch, which may be empty. */
  datatype UtxoStep = UtxoStep(before: UtxoTable, after: UtxoTable, batch: seq<SanctionedUtxo>)

  ghost predicate ValidStep(s: UtxoStep) {
    s.after == InsertUtxos(s.before, s.batch)
  }

  /** Consecutive steps. */
  ghost predicate IsUtxoLog(steps: seq<UtxoStep>) {
    && (forall i :: 0 <= i < |steps| ==> ValidStep(steps[i]))
    && (forall i {:trigger steps[i].after} :: 0 <= i < |steps| - 1 ==> steps[i].after == steps[i + 1].before)
  }

  function BatchesOf(steps: seq<UtxoStep>): (r: seq<seq<SanctionedUtxo>>)
    ensures |r| == |steps| && forall i :: 0 <= i < |r| ==> r[i] == steps[i].batch
  {
    seq(|steps|, i requires 0 <= i < |steps| => steps[i].batch)
  }

  lemma OneMoreBatch(table: UtxoTable, batches: seq<seq<SanctionedUtxo>>, batch: seq<SanctionedUtxo>)
    ensures InsertBatches(table, batches + [batch]) == InsertUtxos(InsertBatches(table, batches), batch)
  {
    assert (batches + [batch])[..|batches|] == batches;
  }

  lemma PartOfUtxoLog(steps: seq<UtxoStep>, j: nat, k: nat)
    requires IsUtxoLog(steps) && j <= k <= |steps|
    ensures IsUtxoLog(steps[j..k])
  {
    var part := steps[j..k];
    forall i {:trigger part[i].after} | 0 <= i < |part| - 1 ensures part[i].after == part[i + 1].before {
      assert steps[j + i].after == steps[j + i + 1].before;
    }
  }

  lemma {:induction false} WholeLogInserts(steps: seq<UtxoStep>)
    requires IsUtxoLog(steps) && steps != []
    ensures InsertBatches(steps[0].before, BatchesOf(steps)) == steps[|steps| - 1].after
  {
    var n := |steps| - 1;
    var front, last := steps[..n], steps[n];
    assert BatchesOf(steps) == BatchesOf(front) + [last.batch];
    OneMoreBatch(steps[0].before, BatchesOf(front), last.batch);
    assert ValidStep(last);
    if n == 0 {
      assert BatchesOf(front) == [];
    } else {
      PartOfUtxoLog(steps, 0, n);
      assert steps[0..n] == front;
      WholeLogInserts(front);
      assert steps[n - 1].after == steps[n - 1 + 1].before;
    }
  }

  /** Over a log the table is what inserting all batches gives. */
  lemma LogInsertsBatches(steps: seq<UtxoStep>, j: nat, k: nat)
    requires IsUtxoLog(steps) && j <= k < |steps|
    ensures InsertBatches(steps[j].before, BatchesOf(steps[j..k])) == steps[k].before
  {
    if j < k {
      PartOfUtxoLog(steps, j, k);
      WholeLogInserts(steps[j..k]);
      assert steps[k - 1].after == steps[k - 1 + 1].before;
    } else {
      assert BatchesOf(steps[j..k]) == [];
    }
  }

  /** The rows a query may return for a table: all of them, in any order. */
  ghost predicate ListsTable(rows: seq<SanctionedUtxo>, table: UtxoTable) {
    forall r :: r in rows <==> (r.txid, r.vout) in table && table[(r.txid, r.vout)] == r
  }

  lemma ListingIsTable(rows: seq<SanctionedUtxo>, table: UtxoTable)
    requires ValidTable(table) && Elements(rows) == table.Values
    ensures ListsTable(rows, table)
  {
    forall r: SanctionedUtxo ensures r in rows <==> (r.txid, r.vout) in table && table[(r.txid, r.vout)] == r {
      assert r in Elements(rows) <==> r in table.Values;
    }
  }

  /**
   * Once the new outputs of a processed block are stored, every later transaction that spends one of
   * those that paid a sanctioned address counts as from-sanctioned, for any rules with the index that is
   * built from the table.
   */
  lemma SpenderIsFromSanctioned(
      table: UtxoTable, batches: seq<seq<SanctionedUtxo>>, j: int,
      b: Block, earlier: Rules, k: int, i: U32,
      rows: seq<SanctionedUtxo>, later: Rules, spender: Transaction)
    requires ValidTable(table) && 0 <= j < |batches|
    requires forall r :: r in batches[j] <==> IsNewUtxo(b, earlier, |b.txdata|, r)
    requires 0 <= k < |b.txdata| && i < |b.txdata[k].outputs| && PaysSanctioned(b.txdata[k].outputs[i], earlier)
    requires ListsTable(rows, InsertBatches(table, batches)) && later.utxos == IndexUtxos(rows)
    requires OutPoint(b.txdata[k].txid, i) in spender.inputs
    ensures IsFromSanctioned(spender, later)
  {
    var tx := b.txdata[k];
    var r := UtxoFor(b, tx, i);
    assert IsNewUtxo(b, earlier, |b.txdata|, r);
    BatchesKeepKeys(table, batches, j, r);
    var stored := InsertBatches(table, batches)[(r.txid, r.vout)];
    assert (stored.txid, stored.vout) == (r.txid, r.vout);
    assert stored in rows;
    IndexHoldsRows(rows);
    ReversedTwice(tx.txid);
    CastRoundTrip(i);
    assert KeyOf(stored) == (tx.txid, i);
    var n :| 0 <= n < |spender.inputs| && spender.inputs[n] == OutPoint(tx.txid, i);
    assert (spender.inputs[n].txid, spender.inputs[n].vout) in later.utxos;
  }

  // ---------------------------------------------------------------- addresses

  function AddressesTo(tx: Transaction, rules: Rules): set<string> {
    set i | 0 <= i < |tx.outputs| && PaysSanctioned(tx.outputs[i], rules) :: rules.addressOf(tx.outputs[i].script).value
  }

  /** The indexed output spent by input `i`, if its script has an address. */
  predicate SpendsAddressed(tx: Transaction, rules: Rules, i: int) {
    && 0 <= i < |tx.inputs|
    && (tx.inputs[i].txid, tx.inputs[i].vout) in rules.utxos
    && rules.addressOf(rules.utxos[(tx.inputs[i].txid, tx.inputs[i].vout)].script).Some?
  }

  function AddressesFrom(tx: Transaction, rules: Rules): set<string> {
    set i | 0 <= i < |tx.inputs| && SpendsAddressed(tx, rules, i) ::
      rules.addressOf(rules.utxos[(tx.inputs[i].txid, tx.inputs[i].vout)].script).value
  }

  ghost predicate IsSortedAddressList(list: seq<string>, tx: Transaction, rules: Rules) {
    && StrictlySorted(list, Same, StringLess)
    && Elements(list) == AddressesTo(tx, rules) + AddressesFrom(tx, rules)
  }

  method TxAddressesTo(tx: Transaction, rules: Rules) returns (list: seq<string>)
    ensures Elements(list) == AddressesTo(tx, rules) && Elements(list) <= rules.addresses
    ensures forall a :: a in rules.addresses ==>
              (a in list <==> exists i :: 0 <= i < |tx.outputs| && rules.addressOf(tx.outputs[i].script) == Some(a))
  {
    var found: set<string> := {};
    for n := 0 to |tx.outputs|
      invariant found == set i | 0 <= i < n && PaysSanctioned(tx.outputs[i], rules)
                             :: rules.addressOf(tx.outputs[i].script).value
    {
      if PaysSanctioned(tx.outputs[n], rules) {
        found := found + {rules.addressOf(tx.outputs[n].script).value};
      }
    }
    list := Iterate(found);
    forall a | a in rules.addresses
      ensures a in list <==> exists i :: 0 <= i < |tx.outputs| && rules.addressOf(tx.outputs[i].script) == Some(a)
    {
      assert a in list <==> a in Elements(list);
      PaidAddresses(tx, rules, a);
    }
  }

  lemma PaidAddresses(tx: Transaction, rules: Rules, a: string)
    requires a in rules.addresses
    ensures a in AddressesTo(tx, rules) <==>
            exists i :: 0 <= i < |tx.outputs| && rules.addressOf(tx.outputs[i].script) == Some(a)
  {
    if a in AddressesTo(tx, rules) {
      var i :| 0 <= i < |tx.outputs| && PaysSanctioned(tx.outputs[i], rules)
               && rules.addressOf(tx.outputs[i].script).value == a;
      assert rules.addressOf(tx.outputs[i].script) == Some(a);
    }
    if exists i :: 0 <= i < |tx.outputs| && rules.addressOf(tx.outputs[i].script) == Some(a) {
      var i :| 0 <= i < |tx.outputs| && rules.addressOf(tx.outputs[i].script) == Some(a);
      assert PaysSanctioned(tx.outputs[i], rules);
    }
  }

  method TxAddressesFrom(tx: Transaction, rules: Rules) returns (list: seq<string>)
    ensures Elements(list) == AddressesFrom(tx, rules)
  {
    var found: set<string> := {};
    for n := 0 to |tx.inputs|
      invariant found == set i | 0 <= i < n && SpendsAddressed(tx, rules, i)
                             :: rules.addressOf(rules.utxos[(tx.inputs[i].txid, tx.inputs[i].vout)].script).value
    {
      if SpendsAddressed(tx, rules, n) {
        found := found + {rules.addressOf(rules.utxos[(tx.inputs[n].txid, tx.inputs[n].vout)].script).value};
      }
    }
    list := Iterate(found);
  }

  /** The sanctioned addresses of a transaction, sorted and without repeats. */
  method TxSanctionedAddresses(tx: Transaction, rules: Rules) returns (list: seq<string>)
    ensures IsSortedAddressList(list, tx, rules)
  {
    var to := TxAddressesTo(tx, rules);
    var from := TxAddressesFrom(tx, rules);
    assert Elements(to + from) == Elements(to) + Elements(from);
    StringOrder();
    SortDedupByElements(to + from, Same, StringLess);
    list := SortDedupBy(to + from, Same, StringLess);
  }

  /** The list is a function of the transaction and the rules, although it is collected from hash sets. */
  lemma AddressListIsUnique(xs: seq<string>, ys: seq<string>, tx: Transaction, rules: Rules)
    requires IsSortedAddressList(xs, tx, rules) && IsSortedAddressList(ys, tx, rules)
    ensures xs == ys
  {
    StringOrder();
    StrictlySortedUnique(xs, ys, Same, StringLess);
  }

  ghost predicate ScriptsHaveAddresses(utxos: UtxoIndex, addressOf: Bytes -> Option<string>) {
    forall k :: k in utxos ==> addressOf(utxos[k].script).Some?
  }

  /** The address list is empty exactly when nothing is paid to, or spent with an address from, the sanctioned. */
  lemma AddressListIsEmpty(list: seq<string>, tx: Transaction, rules: Rules)
    requires IsSortedAddressList(list, tx, rules)
    ensures list != [] <==> IsToSanctioned(tx, rules) || exists i :: SpendsAddressed(tx, rules, i)
  {
    if list != [] {
      assert list[0] in AddressesTo(tx, rules) + AddressesFrom(tx, rules);
    }
    if IsToSanctioned(tx, rules) {
      var i :| 0 <= i < |tx.outputs| && PaysSanctioned(tx.outputs[i], rules);
      assert rules.addressOf(tx.outputs[i].script).value in AddressesTo(tx, rules);
      assert rules.addressOf(tx.outputs[i].script).value in Elements(list);
    } else if exists i :: SpendsAddressed(tx, rules, i) {
      var i :| SpendsAddressed(tx, rules, i);
      var a := rules.addressOf(rules.utxos[(tx.inputs[i].txid, tx.inputs[i].vout)].script).value;
      assert a in AddressesFrom(tx, rules);
      assert a in Elements(list);
    }
  }

  /** If every indexed script has an address, a transaction is sanctioned if and only if its list is not empty. */
  lemma SanctionedIffAddresses(list: seq<string>, tx: Transaction, rules: Rules)
    requires ScriptsHaveAddresses(rules.utxos, rules.addressOf) && IsSortedAddressList(list, tx, rules)
    ensures IsSanctioned(tx, rules) <==> list != []
  {
    AddressListIsEmpty(list, tx, rules);
    if IsFromSanctioned(tx, rules) {
      var i :| 0 <= i < |tx.inputs| && (tx.inputs[i].txid, tx.inputs[i].vout) in rules.utxos;
      assert SpendsAddressed(tx, rules, i);
    }
  }

  /** Storing newly created outputs keeps that condition. */
  lemma NewUtxosHaveAddresses(
      table: UtxoTable, rows: seq<SanctionedUtxo>, b: Block, rules: Rules, listed: seq<SanctionedUtxo>)
    requires ValidTable(table)
    requires forall k :: k in table ==> rules.addressOf(table[k].script).Some?
    requires forall r :: r in rows ==> IsNewUtxo(b, rules, |b.txdata|, r)
    requires ListsTable(listed, InsertUtxos(table, rows))
    ensures ScriptsHaveAddresses(IndexUtxos(listed), rules.addressOf)
  {
    InsertUtxosKeeps(table, rows);
    IndexHoldsRows(listed);
  }
}
