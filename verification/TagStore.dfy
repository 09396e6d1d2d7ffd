/** The stored tags of transactions: merging on insert, retagging, and what runs of the two keep. */
module TagStore {
  import opened Basics
  import opened Ledger
  import opened Sanctions
  import opened Records

  // ---------------------------------------------------------------- insert and merge

  ghost predicate DistinctRecords(rs: seq<TxRecord>) {
    forall i, j :: 0 <= i < j < |rs| ==> rs[i].txid != rs[j].txid
  }

  ghost predicate WellKeyedTable(table: RecordMap) {
    forall k :: k in table ==> table[k].txid == k
  }

  function MergeRow(stored: TxRecord, r: TxRecord): TxRecord {
    stored.(tags := MergeTags(stored.tags, r.tags))
  }

  lemma {:induction false} AddAllLeavesOthers(table: RecordMap, rs: seq<TxRecord>, k: Bytes)
    requires !Recorded(rs, k)
    ensures k in AddAll(table, rs) <==> k in table
    ensures k in table ==> AddAll(table, rs)[k] == table[k]
  {
    if rs == [] {
    } else {
      var front := rs[..|rs| - 1];
      assert Recorded(front, k) ==> Recorded(rs, k);
      assert rs[|rs| - 1].txid != k;
      AddAllLeavesOthers(table, front, k);
    }
  }

  lemma {:induction false} AddAllMergesOnce(table: RecordMap, rs: seq<TxRecord>, i: int)
    requires DistinctRecords(rs) && 0 <= i < |rs|
    ensures rs[i].txid in AddAll(table, rs)
    ensures AddAll(table, rs)[rs[i].txid] == if rs[i].txid in table then MergeRow(table[rs[i].txid], rs[i]) else rs[i]
  {
    var front := rs[..|rs| - 1];
    if i == |rs| - 1 {
      AddAllLeavesOthers(table, front, rs[i].txid);
    } else {
      AddAllMergesOnce(table, front, i);
      assert front[i] == rs[i];
    }
  }

  /** No row disappears and no row loses a tag. */
  ghost predicate Grows(before: RecordMap, after: RecordMap) {
    forall k :: k in before ==> k in after && Elements(before[k].tags) <= Elements(after[k].tags)
  }

  /** The table once the bulk insert is done: only rows that were not there are new. */
  ghost function Inserted(start: RecordMap, rs: seq<TxRecord>): RecordMap {
    map k | k in AddAll(start, rs) :: if k in start then start[k] else AddAll(start, rs)[k]
  }

  /** The table once the first `n` records are merged too. */
  ghost function MergedUpTo(start: RecordMap, rs: seq<TxRecord>, n: nat): RecordMap
    requires n <= |rs|
  {
    if n == 0 then Inserted(start, rs)
    else
      var before, r := MergedUpTo(start, rs, n - 1), rs[n - 1];
      if r.txid in start then before[r.txid := MergeRow(start[r.txid], r)] else before
  }

  lemma {:induction false} MergedKeys(start: RecordMap, rs: seq<TxRecord>, n: nat)
    requires DistinctRecords(rs) && n <= |rs|
    ensures MergedUpTo(start, rs, n).Keys == AddAll(start, rs).Keys
  {
    if n == 0 {
    } else {
      MergedKeys(start, rs, n - 1);
      AddAllMergesOnce(start, rs, n - 1);
    }
  }

  lemma {:induction false} MergedRows(start: RecordMap, rs: seq<TxRecord>, n: nat, k: Bytes)
    requires DistinctRecords(rs) && n <= |rs| && k in AddAll(start, rs)
    ensures k in MergedUpTo(start, rs, n)
    ensures MergedUpTo(start, rs, n)[k]
         == if k in start && !Recorded(rs[..n], k) then start[k] else AddAll(start, rs)[k]
  {
    if n == 0 {
    } else {
      MergedRows(start, rs, n - 1, k);
      RecordedStep(rs, n - 1, k);
      AddAllMergesOnce(start, rs, n - 1);
    }
  }

  /** The next record still finds its row as it was before the insert. */
  lemma MergedNext(start: RecordMap, rs: seq<TxRecord>, n: nat)
    requires DistinctRecords(rs) && n < |rs|
    ensures rs[n].txid in MergedUpTo(start, rs, n)
    ensures rs[n].txid in start ==> MergedUpTo(start, rs, n)[rs[n].txid] == start[rs[n].txid]
  {
    AddAllMergesOnce(start, rs, n);
    MergedRows(start, rs, n, rs[n].txid);
    assert forall i :: 0 <= i < n ==> rs[..n][i] == rs[i];
  }

  lemma MergedEnds(start: RecordMap, rs: seq<TxRecord>)
    requires DistinctRecords(rs)
    ensures MergedUpTo(start, rs, |rs|) == AddAll(start, rs)
  {
    MergedKeys(start, rs, |rs|);
    forall k | k in AddAll(start, rs) ensures MergedUpTo(start, rs, |rs|)[k] == AddAll(start, rs)[k] {
      assert rs[..|rs|] == rs;
      MergedRows(start, rs, |rs|, k);
      if k in start && !Recorded(rs, k) {
        AddAllLeavesOthers(start, rs, k);
      }
    }
  }

  /** Inserting never takes a tag away, and keeps rows under their txid. */
  lemma AddAllGrows(table: RecordMap, rs: seq<TxRecord>)
    requires DistinctRecords(rs)
    ensures Grows(table, AddAll(table, rs))
    ensures WellKeyedTable(table) ==> WellKeyedTable(AddAll(table, rs))
  {
    forall k | k in AddAll(table, rs) || k in table
      ensures k in table ==> k in AddAll(table, rs) && Elements(table[k].tags) <= Elements(AddAll(table, rs)[k].tags)
      ensures k in AddAll(table, rs)
      ensures WellKeyedTable(table) ==> AddAll(table, rs)[k].txid == k
    {
      if Recorded(rs, k) {
        var i :| 0 <= i < |rs| && rs[i].txid == k;
        AddAllMergesOnce(table, rs, i);
      } else {
        AddAllLeavesOthers(table, rs, k);
      }
    }
  }

  lemma MergedGrows(start: RecordMap, rs: seq<TxRecord>, n: nat)
    requires DistinctRecords(rs) && n <= |rs|
    ensures MergedUpTo(start, rs, n).Keys == AddAll(start, rs).Keys
    ensures Grows(start, MergedUpTo(start, rs, n))
    ensures WellKeyedTable(start) ==> WellKeyedTable(MergedUpTo(start, rs, n))
  {
    AddAllGrows(start, rs);
    MergedKeys(start, rs, n);
    forall k | k in AddAll(start, rs)
      ensures || MergedUpTo(start, rs, n)[k] == AddAll(start, rs)[k]
              || (k in start && MergedUpTo(start, rs, n)[k] == start[k])
    {
      MergedRows(start, rs, n, k);
    }
  }

  /** However far an insert gets, no stored row repeats a tag. */
  lemma MergedDoNotRepeat(start: RecordMap, rs: seq<TxRecord>, n: nat)
    requires DistinctRecords(rs) && n <= |rs| && TagsDoNotRepeat(start) && RecordsDoNotRepeat(rs)
    ensures TagsDoNotRepeat(MergedUpTo(start, rs, n))
  {
    MergingDoesNotRepeat(start, rs);
    MergedKeys(start, rs, n);
    forall k | k in AddAll(start, rs) ensures NoDup(MergedUpTo(start, rs, n)[k].tags) {
      MergedRows(start, rs, n, k);
    }
  }

  class TagTable {
    var rows: RecordMap

    constructor (start: RecordMap)
      ensures rows == start
    {
      rows := start;
    }

    /** The bulk insert, which skips rows that exist and returns the txids it inserted. */
    method InsertNew(rs: seq<TxRecord>) returns (inserted: set<Bytes>)
      requires DistinctRecords(rs)
      modifies this
      ensures forall i :: 0 <= i < |rs| ==> (rs[i].txid in inserted <==> rs[i].txid !in old(rows))
      ensures rows == MergedUpTo(old(rows), rs, 0)
    {
      inserted := {};
      ghost var start := rows;
      for n := 0 to |rs|
        invariant forall k :: k in inserted <==> Recorded(rs[..n], k) && k !in start
        invariant rows.Keys == start.Keys + inserted
        invariant forall k :: k in start ==> rows[k] == start[k]
        invariant forall i :: 0 <= i < n && rs[i].txid !in start ==> rs[i].txid in rows && rows[rs[i].txid] == rs[i]
      {
        forall k ensures Recorded(rs[..n + 1], k) <==> Recorded(rs[..n], k) || k == rs[n].txid {
          RecordedStep(rs, n, k);
        }
        if rs[n].txid !in rows {
          rows := rows[rs[n].txid := rs[n]];
          inserted := inserted + {rs[n].txid};
        }
      }
      InsertedIsStart(start, rs, rows);
    }

    /**
     * Insert, then merge the tags of the rows that existed. `faultAt` is the number of statements the
     * connection survives, if it does not survive them all.
     */
    method InsertTransactions(rs: seq<TxRecord>, faultAt: Option<nat>) returns (ok: bool)
      requires DistinctRecords(rs)
      modifies this
      ensures ok ==> rows == AddAll(old(rows), rs)
      ensures faultAt.None? ==> ok
      ensures rows == old(rows) || exists n :: 0 <= n <= |rs| && rows == MergedUpTo(old(rows), rs, n)
    {
      ghost var start := rows;
      if faultAt == Some(0) {
        return false;
      }
      var inserted := InsertNew(rs);
      var statements := 1;
      for n := 0 to |rs|
        invariant rows == MergedUpTo(start, rs, n)
      {
        var r := rs[n];
        MergedNext(start, rs, n);
        if r.txid !in inserted {
          if faultAt == Some(statements) {
            return false;
          }
          var dbTags := rows[r.txid].tags;
          if dbTags != r.tags {
            if faultAt == Some(statements + 1) {
              return false;
            }
            rows := rows[r.txid := rows[r.txid].(tags := MergeTags(dbTags, r.tags))];
          } else {
            assert rows[r.txid := MergeRow(start[r.txid], r)] == rows;
          }
          statements := statements + 2;
        }
      }
      ok := true;
      MergedEnds(start, rs);
    }
  }

  lemma RecordedStep(rs: seq<TxRecord>, n: nat, k: Bytes)
    requires n < |rs|
    ensures Recorded(rs[..n + 1], k) <==> Recorded(rs[..n], k) || k == rs[n].txid
  {
    if Recorded(rs[..n], k) {
      var i :| 0 <= i < n && rs[..n][i].txid == k;
      assert rs[..n + 1][i].txid == k;
    }
    assert rs[..n + 1][n].txid == rs[n].txid;
  }

  lemma InsertedIsStart(start: RecordMap, rs: seq<TxRecord>, rows: RecordMap)
    requires DistinctRecords(rs)
    requires forall k :: k in rows <==> k in start || (Recorded(rs, k) && k !in start)
    requires forall k :: k in start ==> rows[k] == start[k]
    requires forall i :: 0 <= i < |rs| && rs[i].txid !in start ==> rs[i].txid in rows && rows[rs[i].txid] == rs[i]
    ensures rows == MergedUpTo(start, rs, 0)
  {
    forall k
      ensures k in rows <==> k in AddAll(start, rs)
      ensures k in rows && k !in start ==> rows[k] == AddAll(start, rs)[k]
    {
      if Recorded(rs, k) {
        var i :| 0 <= i < |rs| && rs[i].txid == k;
        AddAllMergesOnce(start, rs, i);
      } else {
        AddAllLeavesOthers(start, rs, k);
      }
    }
  }

  /** Tag sets after an insert are unions, in order if anything had to be merged; other rows are untouched. */
  lemma InsertUnitesTags(table: RecordMap, rs: seq<TxRecord>, k: Bytes)
    requires DistinctRecords(rs) && k in table
    ensures k in AddAll(table, rs)
    ensures !Recorded(rs, k) ==> AddAll(table, rs)[k] == table[k]
    ensures forall i :: 0 <= i < |rs| && rs[i].txid == k ==>
              Elements(AddAll(table, rs)[k].tags) == Elements(table[k].tags) + Elements(rs[i].tags)
    ensures forall i :: 0 <= i < |rs| && rs[i].txid == k && table[k].tags != rs[i].tags ==>
              StrictlySorted(AddAll(table, rs)[k].tags, Same, IntLess)
  {
    if Recorded(rs, k) {
      forall i | 0 <= i < |rs| && rs[i].txid == k
        ensures k in AddAll(table, rs)
        ensures Elements(AddAll(table, rs)[k].tags) == Elements(table[k].tags) + Elements(rs[i].tags)
        ensures table[k].tags != rs[i].tags ==> StrictlySorted(AddAll(table, rs)[k].tags, Same, IntLess)
      {
        AddAllMergesOnce(table, rs, i);
      }
    } else {
      AddAllLeavesOthers(table, rs, k);
    }
  }

  /** A second insert of the same records changes no tag set. */
  lemma InsertTwiceIsOnce(table: RecordMap, rs: seq<TxRecord>, k: Bytes)
    requires DistinctRecords(rs) && k in AddAll(table, rs)
    ensures k in AddAll(AddAll(table, rs), rs)
    ensures Elements(AddAll(AddAll(table, rs), rs)[k].tags) == Elements(AddAll(table, rs)[k].tags)
  {
    var once := AddAll(table, rs);
    InsertUnitesTags(once, rs, k);
    if Recorded(rs, k) {
      var i :| 0 <= i < |rs| && rs[i].txid == k;
      AddAllMergesOnce(table, rs, i);
      assert Elements(rs[i].tags) <= Elements(once[k].tags);
    }
  }

  // ---------------------------------------------------------------- the sanctioned flag of stored rows

  /** The flag says what the tags say. */
  ghost predicate FlagMatches(row: TxRecord) {
    row.sanctioned <==> TO_SANCTIONED in row.tags || FROM_SANCTIONED in row.tags
  }

  lemma MembersOfUnion(tags: seq<int>, a: seq<int>, b: seq<int>, tag: int)
    requires Elements(tags) == Elements(a) + Elements(b)
    ensures tag in tags <==> tag in a || tag in b
  {
    assert tag in tags <==> tag in Elements(tags);
  }

  lemma MergedFlag(stored: TxRecord, r: TxRecord)
    requires FlagMatches(stored) && FlagMatches(r)
    ensures FlagMatches(MergeRow(stored, r)) <==> stored.sanctioned || !r.sanctioned
  {
    var tags := MergeRow(stored, r).tags;
    MembersOfUnion(tags, stored.tags, r.tags, TO_SANCTIONED);
    MembersOfUnion(tags, stored.tags, r.tags, FROM_SANCTIONED);
  }

  /**
   * An insert merges tags but leaves the flag of a stored row alone. So the flag still matches exactly when
   * no transaction is stored as not sanctioned and inserted as sanctioned.
   */
  lemma InsertKeepsFlagIff(table: RecordMap, rs: seq<TxRecord>, i: int)
    requires DistinctRecords(rs) && 0 <= i < |rs| && FlagMatches(rs[i])
    requires rs[i].txid in table ==> FlagMatches(table[rs[i].txid])
    ensures rs[i].txid in AddAll(table, rs)
    ensures FlagMatches(AddAll(table, rs)[rs[i].txid]) <==>
            (rs[i].txid in table && !table[rs[i].txid].sanctioned ==> !rs[i].sanctioned)
  {
    AddAllMergesOnce(table, rs, i);
    if rs[i].txid in table {
      MergedFlag(table[rs[i].txid], rs[i]);
    }
  }

  /** For instance a transaction first stored without, and later inserted with the from-sanctioned tag. */
  lemma StoredFlagFallsBehind() returns (table: RecordMap, rs: seq<TxRecord>)
    ensures DistinctRecords(rs) && |rs| == 1 && FlagMatches(rs[0])
    ensures rs[0].txid in table && FlagMatches(table[rs[0].txid])
    ensures rs[0].txid in AddAll(table, rs) && !FlagMatches(AddAll(table, rs)[rs[0].txid])
  {
    var txid: Bytes := [7];
    table := map[txid := TxRecord(txid, false, [], 0, 0)];
    rs := [TxRecord(txid, true, [FROM_SANCTIONED], 0, 0)];
    InsertKeepsFlagIff(table, rs, 0);
  }

  // ---------------------------------------------------------------- retagging

  /**
   * The transactions the node returns for stored txids, what is needed to tag them, and the rows whose
   * update the database refuses, which is logged and passed over.
   */
  datatype Retagger = Retagger(lookup: map<Bytes, TxInfo>, ctx: Context, failing: set<Bytes>)

  /** Tags computed anew: never conflicting, and with no index of sanctioned outputs. */
  function FreshTags(rt: Retagger, k: Bytes): seq<int>
    requires k in rt.lookup
  {
    var ctx := rt.ctx.(rules := rt.ctx.rules.(utxos := map[]));
    if ctx.decodes(rt.lookup[k].tx) then TransactionTags(rt.lookup[k], false, ctx) else []
  }

  lemma FreshTagsAreDistinct(rt: Retagger, k: Bytes)
    requires k in rt.lookup
    ensures NoDup(FreshTags(rt, k))
  {
    TagsAreDistinct(rt.lookup[k], false, rt.ctx.(rules := rt.ctx.rules.(utxos := map[])));
  }

  function AppendMissing(computed: seq<int>, stored: seq<int>): seq<int> {
    if stored == [] then computed
    else
      var front := AppendMissing(computed, stored[..|stored| - 1]);
      var tag := stored[|stored| - 1];
      if tag in front then front else front + [tag]
  }

  lemma {:induction false} AppendMissingElements(computed: seq<int>, stored: seq<int>)
    requires NoDup(computed)
    ensures NoDup(AppendMissing(computed, stored))
    ensures Elements(AppendMissing(computed, stored)) == Elements(computed) + Elements(stored)
  {
    if stored == [] {
    } else {
      var front, tag := stored[..|stored| - 1], stored[|stored| - 1];
      AppendMissingElements(computed, front);
      assert stored == front + [tag];
      assert Elements(stored) == Elements(front) + {tag};
      var r := AppendMissing(computed, front);
      assert tag in r <==> tag in Elements(r);
      assert Elements(r + [tag]) == Elements(r) + {tag};
    }
  }

  /** The new tag list of a row with tags `tags`. */
  function NewTags(computed: seq<int>, tags: seq<int>): seq<int> {
    Sort(AppendMissing(computed, Sort(tags)))
  }

  predicate NeedsWrite(computed: seq<int>, tags: seq<int>) {
    NewTags(computed, tags) != Sort(tags)
  }

  lemma NewTagsAreUnion(computed: seq<int>, tags: seq<int>)
    requires NoDup(computed)
    ensures StrictlySorted(NewTags(computed, tags), Same, IntLess)
    ensures Elements(NewTags(computed, tags)) == Elements(computed) + Elements(tags)
  {
    AppendMissingElements(computed, Sort(tags));
    SortElements(tags);
    SortStrict(AppendMissing(computed, Sort(tags)));
    SortElements(AppendMissing(computed, Sort(tags)));
  }

  function Retagged(computed: seq<int>, tags: seq<int>): seq<int> {
    if NeedsWrite(computed, tags) then NewTags(computed, tags) else tags
  }

  /** Retagging only adds tags: the row ends up with the old and the computed ones. */
  lemma RetaggedIsUnion(computed: seq<int>, tags: seq<int>)
    requires NoDup(computed)
    ensures Elements(Retagged(computed, tags)) == Elements(computed) + Elements(tags)
  {
    NewTagsAreUnion(computed, tags);
    SortElements(tags);
  }

  /** A second pass with the same inputs has nothing to write. */
  lemma SecondPassWritesNothing(computed: seq<int>, tags: seq<int>)
    requires NoDup(computed)
    ensures !NeedsWrite(computed, Retagged(computed, tags))
  {
    if NeedsWrite(computed, tags) {
      var once := NewTags(computed, tags);
      NewTagsAreUnion(computed, tags);
      NewTagsAreUnion(computed, once);
      IntOrder();
      StrictlySortedUnique(NewTags(computed, once), once, Same, IntLess);
      SortElements(once);
      assert NoDup(once);
      SortStrict(once);
      StrictlySortedUnique(Sort(once), once, Same, IntLess);
    }
  }

  function RetagAll(table: RecordMap, rt: Retagger): RecordMap {
    map k | k in table :: RetagRow(table[k], rt, k)
  }

  lemma RetagGrows(table: RecordMap, rt: Retagger)
    ensures Grows(table, RetagAll(table, rt))
    ensures WellKeyedTable(table) ==> WellKeyedTable(RetagAll(table, rt))
  {
    forall k | k in table ensures Elements(table[k].tags) <= Elements(RetagAll(table, rt)[k].tags) {
      if k in rt.lookup {
        FreshTagsAreDistinct(rt, k);
        RetaggedIsUnion(FreshTags(rt, k), table[k].tags);
      }
    }
  }

  /** The loop that merges the old tags into the new ones. */
  method AppendOldTags(computed: seq<int>, oldTags: seq<int>) returns (tags: seq<int>)
    ensures tags == AppendMissing(computed, oldTags)
  {
    tags := computed;
    for n := 0 to |oldTags|
      invariant tags == AppendMissing(computed, oldTags[..n])
    {
      assert oldTags[..n + 1][..n] == oldTags[..n];
      if oldTags[n] !in tags {
        tags := tags + [oldTags[n]];
      }
    }
    assert oldTags[..|oldTags|] == oldTags;
  }

  function RetagRow(row: TxRecord, rt: Retagger, k: Bytes): TxRecord {
    if k in rt.lookup && k !in rt.failing then row.(tags := Retagged(FreshTags(rt, k), row.tags)) else row
  }

  predicate RowNeedsWrite(row: TxRecord, rt: Retagger, k: Bytes) {
    k in rt.lookup && NeedsWrite(FreshTags(rt, k), row.tags)
  }

  /** One row of the pass. */
  method RetagOne(table: TagTable, row: TxRecord, rt: Retagger, k: Bytes) returns (wrote: bool)
    requires k in table.rows && table.rows[k] == row
    modifies table
    ensures table.rows == old(table.rows)[k := RetagRow(row, rt, k)]
    ensures wrote <==> RowNeedsWrite(row, rt, k) && k !in rt.failing
  {
    wrote := false;
    if k in rt.lookup {
      var oldTags := Sort(row.tags);
      var newTags := AppendOldTags(FreshTags(rt, k), oldTags);
      newTags := Sort(newTags);
      if newTags != oldTags {
        if k !in rt.failing {
          table.rows := table.rows[k := row.(tags := newTags)];
          wrote := true;
        }
      }
    }
    assert !wrote ==> table.rows[k := row] == table.rows;
  }

  ghost function NeedingWrite(table: RecordMap, rt: Retagger): set<Bytes> {
    set k | k in table && RowNeedsWrite(table[k], rt, k)
  }

  /** The table after the rows of `order`. */
  ghost function Passed(table: RecordMap, rt: Retagger, order: seq<Bytes>): (r: RecordMap)
    requires forall k :: k in order ==> k in table
    ensures r.Keys == table.Keys
  {
    if order == [] then table
    else
      var k := order[|order| - 1];
      Passed(table, rt, order[..|order| - 1])[k := RetagRow(table[k], rt, k)]
  }

  ghost function Writes(table: RecordMap, rt: Retagger, order: seq<Bytes>): set<Bytes> {
    set k | k in order && k in table && RowNeedsWrite(table[k], rt, k) && k !in rt.failing
  }

  lemma {:induction false} PassedRows(table: RecordMap, rt: Retagger, order: seq<Bytes>, k: Bytes)
    requires (forall x :: x in order ==> x in table) && k in table
    ensures Passed(table, rt, order)[k] == if k in order then RetagRow(table[k], rt, k) else table[k]
  {
    if order == [] {
    } else {
      PassedRows(table, rt, order[..|order| - 1], k);
    }
  }

  lemma PassedNext(table: RecordMap, rt: Retagger, order: seq<Bytes>, n: nat)
    requires NoDup(order) && n < |order| && forall x :: x in order ==> x in table
    ensures Passed(table, rt, order[..n])[order[n]] == table[order[n]]
    ensures Passed(table, rt, order[..n + 1])
         == Passed(table, rt, order[..n])[order[n] := RetagRow(table[order[n]], rt, order[n])]
  {
    PassedRows(table, rt, order[..n], order[n]);
    assert order[..n + 1][..n] == order[..n];
  }

  lemma WritesNext(table: RecordMap, rt: Retagger, order: seq<Bytes>, n: nat)
    requires NoDup(order) && n < |order| && order[n] in table
    ensures |Writes(table, rt, order[..n + 1])| == |Writes(table, rt, order[..n])|
            + if RowNeedsWrite(table[order[n]], rt, order[n]) && order[n] !in rt.failing then 1 else 0
  {
    var k, before := order[n], Writes(table, rt, order[..n]);
    assert order[..n + 1] == order[..n] + [k] && k !in order[..n];
    if RowNeedsWrite(table[k], rt, k) && k !in rt.failing {
      assert Writes(table, rt, order[..n + 1]) == before + {k};
    } else {
      assert Writes(table, rt, order[..n + 1]) == before;
    }
  }

  lemma PassEnds(table: RecordMap, rt: Retagger, order: seq<Bytes>)
    requires Enumerates(order, table.Keys) && forall x :: x in order ==> x in table
    ensures Passed(table, rt, order) == RetagAll(table, rt)
    ensures Writes(table, rt, order) == NeedingWrite(table, rt) - rt.failing
  {
    assert forall k :: k in order <==> k in Elements(order);
    forall k | k in table ensures Passed(table, rt, order)[k] == RetagRow(table[k], rt, k) {
      PassedRows(table, rt, order, k);
    }
  }

  /** A pass over all rows, read at the start; `writes` counts the updates that succeed. */
  method RetagPass(table: TagTable, rt: Retagger) returns (writes: nat)
    modifies table
    ensures table.rows == RetagAll(old(table.rows), rt)
    ensures writes == |NeedingWrite(old(table.rows), rt) - rt.failing|
  {
    var snapshot := table.rows;
    var order := Iterate(snapshot.Keys);
    assert forall x :: x in order ==> x in Elements(order);
    writes := 0;
    for n := 0 to |order|
      invariant table.rows == Passed(snapshot, rt, order[..n])
      invariant writes == |Writes(snapshot, rt, order[..n])|
    {
      PassedNext(snapshot, rt, order, n);
      WritesNext(snapshot, rt, order, n);
      var wrote := RetagOne(table, snapshot[order[n]], rt, order[n]);
      if wrote {
        writes := writes + 1;
      }
    }
    assert order[..|order|] == order;
    PassEnds(snapshot, rt, order);
  }

  lemma RowNeedsNoSecondWrite(row: TxRecord, rt: Retagger, k: Bytes)
    ensures RowNeedsWrite(RetagRow(row, rt, k), rt, k) <==> RowNeedsWrite(row, rt, k) && k in rt.failing
  {
    if k in rt.lookup && k !in rt.failing {
      FreshTagsAreDistinct(rt, k);
      SecondPassWritesNothing(FreshTags(rt, k), row.tags);
    }
  }

  /**
   * After a pass exactly the rows whose update failed still need a write; if none failed, a second pass
   * with the same inputs writes nothing.
   */
  lemma SecondRetagPass(table: RecordMap, rt: Retagger)
    ensures NeedingWrite(RetagAll(table, rt), rt) == NeedingWrite(table, rt) * rt.failing
    ensures RetagAll(RetagAll(table, rt), rt) == RetagAll(table, rt)
  {
    forall k | k in table
      ensures RowNeedsWrite(RetagAll(table, rt)[k], rt, k) <==> RowNeedsWrite(table[k], rt, k) && k in rt.failing
    {
      RowNeedsNoSecondWrite(table[k], rt, k);
    }
  }

  /** The tags that a pass computes say sanctioned only for a transaction that decodes and pays a sanctioned address. */
  predicate ComputesSanctioned(rt: Retagger, k: Bytes) {
    k in rt.lookup && rt.ctx.decodes(rt.lookup[k].tx) && IsToSanctioned(rt.lookup[k].tx, rt.ctx.rules)
  }

  lemma FreshTagsSayTo(rt: Retagger, k: Bytes)
    requires k in rt.lookup
    ensures FROM_SANCTIONED !in FreshTags(rt, k)
    ensures TO_SANCTIONED in FreshTags(rt, k) <==> ComputesSanctioned(rt, k)
  {
    var ctx := rt.ctx.(rules := rt.ctx.rules.(utxos := map[]));
    ImportantTags(rt.lookup[k], false, ctx);
    assert IsToSanctioned(rt.lookup[k].tx, ctx.rules) <==> IsToSanctioned(rt.lookup[k].tx, rt.ctx.rules) by {
      assert forall out: TxOut :: PaysSanctioned(out, ctx.rules) <==> PaysSanctioned(out, rt.ctx.rules);
    }
  }

  /** Nor does a pass touch the flag: it goes on matching unless a row without it turns out to be sanctioned. */
  lemma RetagKeepsFlagIff(row: TxRecord, rt: Retagger, k: Bytes)
    requires FlagMatches(row)
    ensures FlagMatches(RetagRow(row, rt, k)) <==> row.sanctioned || k in rt.failing || !ComputesSanctioned(rt, k)
  {
    if k in rt.lookup && k !in rt.failing {
      var tags := RetagRow(row, rt, k).tags;
      FreshTagsAreDistinct(rt, k);
      RetaggedIsUnion(FreshTags(rt, k), row.tags);
      FreshTagsSayTo(rt, k);
      MembersOfUnion(tags, FreshTags(rt, k), row.tags, TO_SANCTIONED);
      MembersOfUnion(tags, FreshTags(rt, k), row.tags, FROM_SANCTIONED);
    }
  }

  /** For instance a row without tags whose transaction turns out to pay an address that is sanctioned by now. */
  lemma RetaggedFlagFallsBehind() returns (row: TxRecord, rt: Retagger)
    ensures FlagMatches(row) && !FlagMatches(RetagRow(row, rt, row.txid))
  {
    var txid: Bytes, address := [7], "sanctioned";
    var tx := Transaction(txid, [], [TxOut([], 1)], 0, 0);
    row := TxRecord(txid, false, [], 0, 0);
    var rules := Rules(script => Some(address), {address}, map[]);
    rt := Retagger(map[txid := TxInfo(txid, tx, -1, 0)], Context(rules, tx => true, info => ZeroFeeFacts(info)), {});
    assert PaysSanctioned(tx.outputs[0], rules);
    RetagKeepsFlagIff(row, rt, txid);
  }

  // ---------------------------------------------------------------- runs

  datatype Operation = Insert(records: seq<TxRecord>, merged: Option<nat>) | Retag(retagger: Retagger)

  /** Inserts may stop after some merges; a retag pass is not interleaved with an insert. */
  ghost predicate ValidOperation(op: Operation) {
    op.Insert? ==> DistinctRecords(op.records) && (op.merged.Some? ==> op.merged.value <= |op.records|)
  }

  ghost function Apply(table: RecordMap, op: Operation): RecordMap
    requires ValidOperation(op)
  {
    match op
    case Insert(rs, None) => AddAll(table, rs)
    case Insert(rs, Some(n)) => MergedUpTo(table, rs, n)
    case Retag(rt) => RetagAll(table, rt)
  }

  ghost function RunOperations(table: RecordMap, ops: seq<Operation>): RecordMap
    requires forall i :: 0 <= i < |ops| ==> ValidOperation(ops[i])
  {
    if ops == [] then table else Apply(RunOperations(table, ops[..|ops| - 1]), ops[|ops| - 1])
  }

  /** Over any such run no stored transaction loses a tag. */
  lemma {:induction false} TagsOnlyGrow(table: RecordMap, ops: seq<Operation>)
    requires forall i :: 0 <= i < |ops| ==> ValidOperation(ops[i])
    ensures Grows(table, RunOperations(table, ops))
  {
    if ops == [] {
    } else {
      var front, op := ops[..|ops| - 1], ops[|ops| - 1];
      TagsOnlyGrow(table, front);
      var before := RunOperations(table, front);
      match op {
        case Insert(rs, None) => AddAllGrows(before, rs);
        case Insert(rs, Some(n)) => MergedGrows(before, rs, n);
        case Retag(rt) => RetagGrows(before, rt);
      }
    }
  }

  ghost predicate InsertsNoRepeats(op: Operation) {
    op.Insert? ==> RecordsDoNotRepeat(op.records)
  }

  lemma RetagDoesNotRepeat(table: RecordMap, rt: Retagger)
    requires TagsDoNotRepeat(table)
    ensures TagsDoNotRepeat(RetagAll(table, rt))
  {
    forall k | k in table ensures NoDup(RetagAll(table, rt)[k].tags) {
      if k in rt.lookup {
        FreshTagsAreDistinct(rt, k);
        NewTagsAreUnion(FreshTags(rt, k), table[k].tags);
      }
    }
  }

  /** Nor does a stored row ever repeat a tag. */
  lemma {:induction false} TagsNeverRepeat(table: RecordMap, ops: seq<Operation>)
    requires forall i :: 0 <= i < |ops| ==> ValidOperation(ops[i]) && InsertsNoRepeats(ops[i])
    requires TagsDoNotRepeat(table)
    ensures TagsDoNotRepeat(RunOperations(table, ops))
  {
    if ops == [] {
    } else {
      var front, op := ops[..|ops| - 1], ops[|ops| - 1];
      TagsNeverRepeat(table, front);
      var before := RunOperations(table, front);
      assert InsertsNoRepeats(op);
      match op {
        case Insert(rs, None) => MergingDoesNotRepeat(before, rs);
        case Insert(rs, Some(n)) => MergedDoNotRepeat(before, rs, n);
        case Retag(rt) => RetagDoesNotRepeat(before, rt);
      }
    }
  }

  // ---------------------------------------------------------------- overlap of a retag pass with an insert

  /** The write of row `k` that was computed from `read`, applied to a table that has changed since. */
  function StaleWrite(table: RecordMap, read: TxRecord, rt: Retagger, k: Bytes): RecordMap
    requires k in table
  {
    if RowNeedsWrite(read, rt, k) && k !in rt.failing
    then table[k := table[k].(tags := NewTags(FreshTags(rt, k), read.tags))]
    else table
  }

  /**
   * With an insert between the read and the write of row `k`, no tag is lost if and only if the row is not
   * written or the inserted tags are among the ones read and the computed ones.
   */
  lemma InterleavedMerge(table: RecordMap, rs: seq<TxRecord>, i: int, rt: Retagger, k: Bytes)
    requires DistinctRecords(rs) && 0 <= i < |rs| && rs[i].txid == k && k in table
    ensures k in AddAll(table, rs)
    ensures Grows(AddAll(table, rs), StaleWrite(AddAll(table, rs), table[k], rt, k)) <==>
            (RowNeedsWrite(table[k], rt, k) && k !in rt.failing ==>
               Elements(rs[i].tags) <= Elements(table[k].tags) + Elements(FreshTags(rt, k)))
  {
    InsertUnitesTags(table, rs, k);
    var mid := AddAll(table, rs);
    var after := StaleWrite(mid, table[k], rt, k);
    assert Elements(mid[k].tags) == Elements(table[k].tags) + Elements(rs[i].tags);
    if RowNeedsWrite(table[k], rt, k) && k !in rt.failing {
      FreshTagsAreDistinct(rt, k);
      NewTagsAreUnion(FreshTags(rt, k), table[k].tags);
      assert Elements(after[k].tags) == Elements(FreshTags(rt, k)) + Elements(table[k].tags);
      assert Grows(mid, after) <==> Elements(mid[k].tags) <= Elements(after[k].tags);
    }
  }

  /** A zero-fee transaction stored with no tags, which an insert records as conflicting. */
  const TXID: Bytes := [7]

  const STORED: RecordMap := map[TXID := TxRecord(TXID, false, [], 0, 0)]

  const INSERTED: seq<TxRecord> := [TxRecord(TXID, false, [CONFLICTING], 0, 0)]

  function ZeroFeeFacts(info: TxInfo): TagFacts {
    TagFacts(false, true, false, false, false, false, false, false, false, false, false, false,
             false, false, false, false, false, false, false)
  }

  /** The node knows the transaction, it decodes, and nothing is sanctioned. */
  function ZeroFeeRetagger(): Retagger {
    var info := TxInfo(TXID, Transaction(TXID, [], [], 0, 0), -1, 0);
    var rules := Rules(script => None, {}, map[]);
    Retagger(map[TXID := info], Context(rules, tx => true, info => ZeroFeeFacts(info)), {})
  }

  lemma ZeroFeeIsComputed()
    ensures ZERO_FEE in FreshTags(ZeroFeeRetagger(), TXID) && CONFLICTING !in FreshTags(ZeroFeeRetagger(), TXID)
  {
    var rt := ZeroFeeRetagger();
    var ctx := rt.ctx.(rules := rt.ctx.rules.(utxos := map[]));
    ImportantTags(rt.lookup[TXID], false, ctx);
    ZeroFeeTag(rt.lookup[TXID], false, ctx);
  }

  /** There a retag pass that read the row before the insert takes the conflict tag away again. */
  lemma InterleavingLosesConflictTag()
    ensures CONFLICTING in AddAll(STORED, INSERTED)[TXID].tags
    ensures CONFLICTING !in StaleWrite(AddAll(STORED, INSERTED), STORED[TXID], ZeroFeeRetagger(), TXID)[TXID].tags
  {
    var rt, mid := ZeroFeeRetagger(), AddAll(STORED, INSERTED);
    var computed := FreshTags(rt, TXID);
    InsertUnitesTags(STORED, INSERTED, TXID);
    assert CONFLICTING in Elements(INSERTED[0].tags);
    assert CONFLICTING in Elements(mid[TXID].tags);
    ZeroFeeIsComputed();
    FreshTagsAreDistinct(rt, TXID);
    NewTagsAreUnion(computed, []);
    MembersOfUnion(NewTags(computed, []), computed, [], ZERO_FEE);
    MembersOfUnion(NewTags(computed, []), computed, [], CONFLICTING);
  }
}
