/** The page of transactions that several blocks left out, and the two queries behind it. */
module MissingTransactions {
  import opened Basics
  import opened Ledger
  import opened Records
  import opened Builders
  import opened TagStore
  import opened Store
  import opened Paging
  import Processing
  import TemplateBuffer
  import MainLoop
  import Readback

  const WINDOW := 20000

  /** The tables that the queries read. */
  datatype Tables = Tables(
    links: map<LinkKey, OnlyInTemplateRow>, blocks: BlockTable, transactions: RecordMap)

  ghost predicate ClosedTables(t: Tables) {
    && KeysClosed(t.links.Keys, IdsOf(t.blocks), t.transactions.Keys)
    && UniqueIds(t.blocks) && WellKeyedTable(t.transactions)
  }

  // ---------------------------------------------------------------- the queries

  /** Not in the last two percent of the template, not an empty block, and among the recent blocks. */
  predicate Where(t: Tables, k: LinkKey, b: BlockRow)
    requires k in t.links
  {
    && 100 * t.links[k].position < 98 * b.templateTx
    && b.blockTx > 1
    && forall j :: j in t.links ==> k.0 > j.0 - WINDOW
  }

  /** A row of the join: a link row and a block with its id, as far as the WHERE clause lets them through. */
  predicate Joins(t: Tables, k: LinkKey, h: Hash) {
    k in t.links && h in t.blocks && t.blocks[h].id == k.0 && Where(t, k, t.blocks[h])
  }

  /** `count(*)` of the paged query counts the rows of the join in one group. */
  function JoinedRows(t: Tables, x: Bytes): set<(LinkKey, Hash)> {
    set k, h | k in t.links && k.1 == x && h in t.blocks && Joins(t, k, h) :: (k, h)
  }

  /** The groups of the paged query. */
  function Groups(t: Tables): set<Bytes> {
    set k | k in t.links && |JoinedRows(t, k.1)| > 2 :: k.1
  }

  /**
   * `COUNT(transaction_txid)` of the count query counts the link rows that find a partner in the join; the
   * txid is part of the primary key and never null.
   */
  function CountedRows(t: Tables, x: Bytes): set<LinkKey> {
    set k, h | k in t.links && k.1 == x && h in t.blocks && Joins(t, k, h) :: k
  }

  /** The count query: how many different txids it is left with. */
  function CountQuery(t: Tables): nat {
    |set k | k in t.links && |CountedRows(t, k.1)| > 2 :: k.1|
  }

  /** The blocks that count as having left the transaction out. */
  function Hits(t: Tables, x: Bytes): set<int> {
    set k, h | k in t.links && k.1 == x && h in t.blocks && Joins(t, k, h) :: k.0
  }

  /** Block ids are unique and link rows keyed by block and txid, so all three count the same. */
  lemma JoinIsOneToOne(t: Tables, x: Bytes)
    requires UniqueIds(t.blocks)
    ensures |JoinedRows(t, x)| == |CountedRows(t, x)| == |Hits(t, x)|
  {
    var rows, keys, ids := JoinedRows(t, x), CountedRows(t, x), Hits(t, x);
    forall k | k in keys ensures k in set r | r in rows :: r.0 {
      var h :| h in t.blocks && Joins(t, k, h);
      assert (k, h) in rows;
    }
    SameSize(rows, keys, (r: (LinkKey, Hash)) => r.0);
    assert ids == set k | k in keys :: k.0;
    SameSize(keys, ids, (k: LinkKey) => k.0);
  }

  /** The paged query ranges over the transactions left out of more than two blocks. */
  lemma GroupsAreLeftOutOften(t: Tables, x: Bytes)
    requires UniqueIds(t.blocks)
    ensures x in Groups(t) <==> |Hits(t, x)| > 2
  {
    JoinIsOneToOne(t, x);
    if |Hits(t, x)| > 2 {
      var id := SomeElement(Hits(t, x));
      var k, h :| k in t.links && k.1 == x && h in t.blocks && Joins(t, k, h) && k.0 == id;
      assert k.1 in Groups(t);
    }
  }

  /** The row is of an empty block, behind the cut-off, or of a block that is no longer recent. */
  ghost predicate IsKeptOut(t: Tables, k: LinkKey)
    requires k in t.links
  {
    || (exists h :: h in t.blocks && t.blocks[h].id == k.0 &&
                    (t.blocks[h].blockTx <= 1 || 98 * t.blocks[h].templateTx <= 100 * t.links[k].position))
    || (exists j :: j in t.links && k.0 <= j.0 - WINDOW)
  }

  ghost function Admitted(t: Tables, x: Bytes): set<LinkKey> {
    set k | k in t.links && k.1 == x && !IsKeptOut(t, k)
  }

  lemma KeptOutMeansNoHit(t: Tables, k: LinkKey)
    requires ClosedTables(t) && k in t.links
    ensures IsKeptOut(t, k) <==> k.0 !in Hits(t, k.1)
  {
    var h :| h in t.blocks && t.blocks[h].id == k.0;
    if k.0 in Hits(t, k.1) {
      var j, g :| j in t.links && j.1 == k.1 && g in t.blocks && Joins(t, j, g) && j.0 == k.0;
      assert j == k && g == h;
    }
    if !IsKeptOut(t, k) {
      assert Joins(t, k, h);
    }
  }

  /** A transaction is in the answers if and only if more than two of its rows are not kept out. */
  lemma AnswersIffAdmitted(t: Tables, order: seq<Bytes>, x: Bytes)
    requires ClosedTables(t) && IsAnswer(order, t)
    ensures x in order <==> |Admitted(t, x)| > 2
  {
    assert x in order <==> x in Elements(order);
    GroupsAreLeftOutOften(t, x);
    var keys, ids := Admitted(t, x), Hits(t, x);
    forall k | k in t.links && k.1 == x ensures k in keys <==> k.0 in ids {
      KeptOutMeansNoHit(t, k);
    }
    forall id | id in ids ensures id in set k | k in keys :: k.0 {
      var k, h :| k in t.links && k.1 == x && h in t.blocks && Joins(t, k, h) && k.0 == id;
      assert k in keys;
    }
    SameSize(keys, ids, (k: LinkKey) => k.0);
  }

  /** The transactions come by the latest block that left them out, the latest first. */
  lemma LatestFirst(t: Tables, order: seq<Bytes>, i: nat, j: nat, y: int)
    requires UniqueIds(t.blocks) && IsAnswer(order, t) && i < j < |order| && y in Hits(t, order[j])
    ensures exists x :: x in Hits(t, order[i]) && y <= x
  {
    assert order[i] in Elements(order);
    GroupsAreLeftOutOften(t, order[i]);
    assert LatestHit(t)(order[i]) >= LatestHit(t)(order[j]);
    assert Largest(Hits(t, order[i])) in Hits(t, order[i]);
  }

  /** The count query counts exactly these. */
  lemma CountQueryCountsGroups(t: Tables)
    requires UniqueIds(t.blocks)
    ensures CountQuery(t) == |Groups(t)|
  {
    forall k | k in t.links ensures |CountedRows(t, k.1)| == |JoinedRows(t, k.1)| {
      JoinIsOneToOne(t, k.1);
    }
    assert Groups(t) == set k | k in t.links && |CountedRows(t, k.1)| > 2 :: k.1;
  }

  ghost predicate IsLargest(m: int, xs: set<int>) {
    m in xs && forall y :: y in xs ==> y <= m
  }

  lemma {:induction false} HasLargest(xs: set<int>)
    requires xs != {}
    ensures exists m :: IsLargest(m, xs)
    decreases |xs|
  {
    var x := SomeElement(xs);
    var rest := xs - {x};
    assert xs == rest + {x};
    if rest == {} {
      assert IsLargest(x, xs);
    } else {
      HasLargest(rest);
      var m :| IsLargest(m, rest);
      assert IsLargest(if x > m then x else m, xs);
    }
  }

  ghost function Largest(xs: set<int>): (m: int)
    requires xs != {}
    ensures IsLargest(m, xs)
  {
    HasLargest(xs);
    var m :| IsLargest(m, xs);
    m
  }

  /** What the query sorts by. */
  ghost function LatestHit(t: Tables): Bytes -> int {
    x => if Hits(t, x) == {} then 0 else Largest(Hits(t, x))
  }

  /** An answer of the unpaged query; the database may break ties as it likes. */
  ghost predicate IsAnswer(order: seq<Bytes>, t: Tables) {
    IsListing(order, Groups(t), LatestHit(t))
  }

  /** The page count from the count query is the number of pages that the paged query needs. */
  lemma CountMatchesPages(t: Tables, order: seq<Bytes>, p: nat)
    requires UniqueIds(t.blocks) && IsAnswer(order, t)
    ensures FirstPages(order, PageCount(CountQuery(t))) == order
    ensures Page(order, p) != [] <==> p < PageCount(CountQuery(t))
  {
    CountQueryCountsGroups(t);
    NoDupSize(order);
    PagesMakeUpListing(order, p);
  }

  /** Different evaluations for different pages fit together exactly when no tie lies across a boundary. */
  lemma PagesOfAnswersFit(t: Tables, order: seq<Bytes>)
    requires IsAnswer(order, t)
    ensures NoTieAtBoundaries(order, LatestHit(t)) <==> forall other :: IsAnswer(other, t) ==> SamePages(order, other)
  {
    PagesFitIffNoTie(order, Groups(t), LatestHit(t));
    if forall other :: IsAnswer(other, t) ==> SamePages(order, other) {
      forall other | IsListing(other, Groups(t), LatestHit(t)) ensures SamePages(order, other) {
        assert IsAnswer(other, t);
      }
    }
  }

  // ---------------------------------------------------------------- the page

  datatype BlockInfo = BlockInfo(id: int, height: int, position: int, mempoolAge: int, templateTx: nat)

  datatype Missing = Missing(transaction: TxRecord, blocks: seq<BlockInfo>)

  /** `block_id_to_block_map`. */
  function ById(blocks: BlockTable): (r: map<int, BlockRow>)
    requires UniqueIds(blocks)
    ensures r.Keys == IdsOf(blocks)
    ensures forall h :: h in blocks ==> r[blocks[h].id] == blocks[h]
  {
    map h | h in blocks :: blocks[h].id := blocks[h]
  }

  function InfoOf(t: Tables, k: LinkKey): BlockInfo
    requires UniqueIds(t.blocks) && k in t.links && k.0 in IdsOf(t.blocks)
  {
    var b := ById(t.blocks)[k.0];
    BlockInfo(k.0, b.height, t.links[k].position, t.links[k].mempoolAge, b.templateTx)
  }

  ghost function HistoryOf(t: Tables, x: Bytes): set<BlockInfo>
    requires ClosedTables(t)
  {
    set k | k in t.links && k.1 == x :: InfoOf(t, k)
  }

  /** Every block the transaction is missing from, the highest first. */
  ghost predicate IsHistory(blocks: seq<BlockInfo>, t: Tables, x: Bytes)
    requires ClosedTables(t)
  {
    && Enumerates(blocks, HistoryOf(t, x))
    && forall i, j :: 0 <= i < j < |blocks| ==> blocks[i].height >= blocks[j].height
  }

  function HeightOf(b: BlockInfo): int { b.height }

  lemma ReversedHistory(sorted: seq<BlockInfo>, t: Tables, x: Bytes)
    requires ClosedTables(t) && Enumerates(sorted, HistoryOf(t, x)) && Ascending(sorted, HeightOf)
    ensures IsHistory(Reversed(sorted), t, x)
  {
    var r := Reversed(sorted);
    forall b ensures b in r <==> b in sorted {
      if b in sorted {
        var i :| 0 <= i < |sorted| && sorted[i] == b;
        assert r[|sorted| - 1 - i] == b;
      }
    }
    assert forall i, j :: 0 <= i < j < |r| ==> HeightOf(r[j]) <= HeightOf(r[i]);
  }

  /** The history of one transaction; no block lookup fails while references are closed. */
  method HistoryFor(t: Tables, x: Bytes) returns (blocks: seq<BlockInfo>)
    requires ClosedTables(t)
    ensures IsHistory(blocks, t, x)
  {
    var rows := Iterate(set k | k in t.links && k.1 == x);
    assert forall i :: 0 <= i < |rows| ==> rows[i] in Elements(rows);
    var infos := seq(|rows|, i requires 0 <= i < |rows| => InfoOf(t, rows[i]));
    forall k | k in t.links && k.1 == x ensures InfoOf(t, k) in infos {
      assert k in Elements(rows);
      var i :| 0 <= i < |rows| && rows[i] == k;
      assert infos[i] == InfoOf(t, k);
    }
    assert Elements(infos) == HistoryOf(t, x);
    SortStableCorrect(infos, HeightOf);
    ReversedHistory(SortStable(infos, HeightOf), t, x);
    blocks := Reversed(SortStable(infos, HeightOf));
  }

  /** `max_height`, whose `unwrap` needs a block. */
  function MaxHeight(blocks: seq<BlockInfo>): (h: int)
    requires blocks != []
    ensures forall b :: b in blocks ==> b.height <= h
    ensures exists b :: b in blocks && b.height == h
  {
    if |blocks| == 1 then blocks[0].height
    else
      var h := MaxHeight(blocks[1..]);
      assert forall b :: b in blocks <==> b == blocks[0] || b in blocks[1..];
      if blocks[0].height > h then blocks[0].height else h
  }

  function SortKey(m: Missing): int {
    if m.blocks == [] then 0 else -MaxHeight(m.blocks)
  }

  lemma GroupsHaveHistory(t: Tables, x: Bytes, blocks: seq<BlockInfo>)
    requires ClosedTables(t) && x in Groups(t) && IsHistory(blocks, t, x)
    ensures x in t.transactions && blocks != []
  {
    GroupsAreLeftOutOften(t, x);
    var id := SomeElement(Hits(t, x));
    var k :| k in t.links && k.1 == x && k.0 == id;
    assert InfoOf(t, k) in HistoryOf(t, x);
    assert InfoOf(t, k) in Elements(blocks);
  }

  ghost predicate ShowsGroup(m: Missing, t: Tables, x: Bytes)
    requires ClosedTables(t)
  {
    && x in t.transactions && m.transaction == t.transactions[x]
    && IsHistory(m.blocks, t, x) && m.blocks != []
  }

  ghost function Shown(entries: seq<Missing>): set<Bytes> {
    set m | m in entries :: m.transaction.txid
  }

  /** The entries show exactly the transactions of the page, each with its record and its history. */
  ghost predicate ShowsPage(entries: seq<Missing>, t: Tables, page: seq<Bytes>)
    requires ClosedTables(t)
  {
    && Shown(entries) == Elements(page)
    && (forall m :: m in entries ==> ShowsGroup(m, t, m.transaction.txid))
    && (forall m, n :: m in entries && n in entries && m.transaction.txid == n.transaction.txid ==> m == n)
  }

  lemma EntriesShowPage(entries: seq<Missing>, t: Tables, page: seq<Bytes>, found: seq<Bytes>)
    requires ClosedTables(t) && Enumerates(found, Elements(page)) && |entries| == |found|
    requires forall i :: 0 <= i < |found| ==> ShowsGroup(entries[i], t, found[i])
    ensures NoDup(entries) && ShowsPage(entries, t, page)
  {
    forall i | 0 <= i < |found| ensures entries[i].transaction.txid == found[i] {
      assert ShowsGroup(entries[i], t, found[i]);
    }
    forall x | x in Elements(page) ensures x in Shown(entries) {
      assert x in Elements(found);
      var i :| 0 <= i < |found| && found[i] == x;
      assert entries[i] in entries;
    }
    forall m | m in entries ensures m.transaction.txid in Elements(page) {
      var i :| 0 <= i < |entries| && entries[i] == m;
      assert found[i] in Elements(found);
    }
  }

  /** Collect the entries in the order in which the database returns the transactions. */
  method CollectEntries(t: Tables, order: seq<Bytes>, page: nat) returns (entries: seq<Missing>)
    requires ClosedTables(t) && IsAnswer(order, t)
    ensures NoDup(entries) && ShowsPage(entries, t, Page(order, page))
  {
    entries := [];
    ghost var txids := Page(order, page);
    forall x | x in txids ensures x in Groups(t) && x in t.transactions {
      assert x in Elements(order);
    }
    var found := Iterate(set x | x in Page(order, page) && x in t.transactions);
    assert Elements(found) == Elements(txids);
    for n := 0 to |found|
      invariant |entries| == n
      invariant forall i :: 0 <= i < n ==> ShowsGroup(entries[i], t, found[i])
    {
      var x := found[n];
      assert x in Elements(found);
      var blocks := HistoryFor(t, x);
      GroupsHaveHistory(t, x, blocks);
      entries := entries + [Missing(t.transactions[x], blocks)];
    }
    EntriesShowPage(entries, t, txids, found);
  }

  /** The page: the transactions of one page of the query, each once, the one missed last first. */
  method MissingPage(t: Tables, order: seq<Bytes>, page: nat) returns (entries: seq<Missing>)
    requires ClosedTables(t) && IsAnswer(order, t)
    ensures NoDup(entries) && ShowsPage(entries, t, Page(order, page))
    ensures forall i :: 0 <= i < |entries| ==> entries[i].blocks != []
    ensures forall i, j :: 0 <= i < j < |entries| ==> MaxHeight(entries[i].blocks) >= MaxHeight(entries[j].blocks)
  {
    var collected := CollectEntries(t, order, page);
    SortStableCorrect(collected, SortKey);
    entries := SortStable(collected, SortKey);
    forall m ensures m in entries <==> m in collected {
      assert m in Elements(entries) <==> m in Elements(collected);
    }
    forall i | 0 <= i < |entries| ensures entries[i].blocks != [] {
      assert ShowsGroup(entries[i], t, entries[i].transaction.txid);
    }
    forall i, j | 0 <= i < j < |entries| ensures MaxHeight(entries[i].blocks) >= MaxHeight(entries[j].blocks) {
      assert SortKey(entries[i]) <= SortKey(entries[j]);
    }
  }

  // ---------------------------------------------------------------- the tables of the daemon

  /** What the daemon has stored is closed in this sense, whenever the page is asked for. */
  lemma DatabaseIsClosed(db: Database)
    requires db.Closed()
    ensures ClosedTables(Tables(db.onlyInTemplate, db.blocks, db.transactions.rows))
  {
  }

  // ---------------------------------------------------------------- what the page shows of a run

  function TablesOf(core: Core, records: RecordMap): Tables {
    Tables(core.leftOut, core.blocks, records)
  }

  /** Rows of other blocks have other keys, so they leave the rows under this id alone. */
  lemma OtherRowsLeaveLinks(
      table: map<LinkKey, OnlyInTemplateRow>, rows: seq<OnlyInTemplateRow>, id: int, other: int, x: Bytes)
    requires HaveLinkId(rows, other) && id != other
    ensures (id, x) in PutAll(table, rows, TemplateLinkKey) <==> (id, x) in table
    ensures (id, x) in table ==> PutAll(table, rows, TemplateLinkKey)[(id, x)] == table[(id, x)]
  {
    PutAllKeys(table, rows, TemplateLinkKey);
  }

  /** Of the rows under the id of a block, later rounds leave what they find. */
  lemma {:induction false} LaterRoundsLeaveLinks(
      steps: seq<TableStep>, j: nat, k: nat, hash: Hash, row: BlockRow, x: Bytes)
    requires IsTableLog(steps) && j <= k < |steps| && steps[j].added == Some((hash, row))
    ensures (row.id, x) in steps[k].after.leftOut <==> (row.id, x) in steps[j].after.leftOut
    ensures (row.id, x) in steps[k].after.leftOut ==>
              steps[k].after.leftOut[(row.id, x)] == steps[j].after.leftOut[(row.id, x)]
  {
    if k == j {
    } else {
      LaterRoundsLeaveLinks(steps, j, k - 1, hash, row, x);
      Readback.LaterRoundsLeavePage(steps, j, k - 1, hash, row);
      assert ValidTableStep(steps[k]) && steps[k - 1].after == steps[k - 1 + 1].before;
      if steps[k].added.Some? {
        assert row.id in IdsOf(steps[k].before.blocks);
        OtherRowsLeaveLinks(steps[k].before.leftOut, steps[k].part.leftOut, row.id, steps[k].added.value.1.id, x);
      }
    }
  }

  /** A block that gets its row has no such rows yet, so right after the round it has exactly the stored ones. */
  lemma LinksOfAddedBlock(s: TableStep, hash: Hash, row: BlockRow, x: Bytes)
    requires ValidTableStep(s) && s.added == Some((hash, row))
    ensures (row.id, x) in s.after.leftOut <==> exists i :: 0 <= i < |s.part.leftOut| && s.part.leftOut[i].txid == x
    ensures (row.id, x) in s.after.leftOut ==>
              s.after.leftOut[(row.id, x)] in s.part.leftOut && s.after.leftOut[(row.id, x)].txid == x
  {
    PutAllKeys(s.before.leftOut, s.part.leftOut, TemplateLinkKey);
    assert forall i :: 0 <= i < |s.part.leftOut| ==> TemplateLinkKey(s.part.leftOut[i]) == (row.id, s.part.leftOut[i].txid);
  }

  /** What is shown of a block that left out `x`: its height, and the place of `x` in the template and its age then. */
  ghost predicate ShowsPlace(info: BlockInfo, x: Bytes, selected: Template, ages: map<Txid, int>) {
    && info.height == selected.height && info.templateTx == |selected.txs|
    && 0 <= info.position < |selected.txs| && Reversed(selected.txs[info.position].txid) == x
    && (Reversed(x) in ages ==> info.mempoolAge == ages[Reversed(x)])
    && (Reversed(x) !in ages ==> info.mempoolAge == -1)
  }

  lemma ShownLink(t: Tables, x: Bytes, info: BlockInfo)
    requires ClosedTables(t) && info in HistoryOf(t, x)
    ensures (info.id, x) in t.links && info == InfoOf(t, (info.id, x))
  {
    var k :| k in t.links && k.1 == x && InfoOf(t, k) == info;
    assert k == (info.id, x);
  }

  /** A round that stored rows which lead back to the template. */
  ghost predicate StoresPlaces(s: TableStep, row: BlockRow, selected: Template, ages: map<Txid, int>) {
    && row.height == selected.height && row.templateTx == |selected.txs|
    && forall r :: r in s.part.leftOut ==> Processing.StandsInTemplate(r, selected, ages)
  }

  lemma ComparisonStoresPlaces(c: MainLoop.Comparison, s: TableStep)
    requires MainLoop.ValidComparison(c, s) && s.added.Some?
    ensures c.templates != [] && s.added.value.1.id == c.env.id
    ensures StoresPlaces(s, s.added.value.1, Processing.ChosenBy(c.work, c.templates), c.env.ages)
  {
  }

  /** What later tables say about a block that got its row in round `j`. */
  lemma LaterTables(steps: seq<TableStep>, j: nat, hash: Hash, row: BlockRow, x: Bytes, end: Core)
    requires IsTableLog(steps) && j < |steps| && steps[j].added == Some((hash, row)) && steps[|steps| - 1].after == end
    ensures hash in end.blocks && end.blocks[hash] == row
    ensures (row.id, x) in end.leftOut <==>
            exists i :: 0 <= i < |steps[j].part.leftOut| && steps[j].part.leftOut[i].txid == x
    ensures (row.id, x) in end.leftOut ==>
              end.leftOut[(row.id, x)] in steps[j].part.leftOut && end.leftOut[(row.id, x)].txid == x
  {
    Readback.LaterRoundsLeavePage(steps, j, |steps| - 1, hash, row);
    LaterRoundsLeaveLinks(steps, j, |steps| - 1, hash, row, x);
    assert ValidTableStep(steps[j]);
    LinksOfAddedBlock(steps[j], hash, row, x);
  }

  lemma LinkShowsPlace(
      t: Tables, x: Bytes, info: BlockInfo, steps: seq<TableStep>, j: nat, selected: Template, ages: map<Txid, int>,
      hash: Hash, row: BlockRow, end: Core)
    requires ClosedTables(t) && info in HistoryOf(t, x) && info.id == row.id
    requires IsTableLog(steps) && j < |steps| && steps[j].added == Some((hash, row)) && steps[|steps| - 1].after == end
    requires t.links == end.leftOut && t.blocks == end.blocks && StoresPlaces(steps[j], row, selected, ages)
    ensures ShowsPlace(info, x, selected, ages)
  {
    ShownLink(t, x, info);
    LaterTables(steps, j, hash, row, x, end);
    assert Processing.StandsInTemplate(t.links[(row.id, x)], selected, ages);
    assert ById(t.blocks)[row.id] == row;
  }

  lemma LastStep(steps: seq<TableStep>, start: Core, end: Core)
    requires MainLoop.Connects(steps, start, end) && steps != []
    ensures IsTableLog(steps) && steps[|steps| - 1].after == end
  {
  }

  /**
   * At any later moment of a run of the loop: of every block that got its row in the run, completed or not, the
   * page shows the height and the template's size, and for each transaction the place it had in the selected
   * template and the age it had when the block was processed.
   */
  lemma PageShowsPlaces(
      daemon: MainLoop.Daemon, start: MainLoop.Start, run: seq<TemplateBuffer.Answers>, log: seq<MainLoop.Round>,
      j: nat, hash: Hash, row: BlockRow, entries: seq<Missing>, page: seq<Bytes>, m: Missing, info: BlockInfo)
    requires MainLoop.Reached(daemon, start, run, log)
    requires j < |log| && log[j].comparison.Some? && log[j].step.added == Some((hash, row))
    requires ClosedTables(TablesOf(daemon.db.CoreTables(), daemon.db.transactions.rows))
    requires ShowsPage(entries, TablesOf(daemon.db.CoreTables(), daemon.db.transactions.rows), page)
    requires m in entries && info in m.blocks && info.id == row.id
    ensures var c := log[j].comparison.value;
            && c.templates != []
            && ShowsPlace(info, m.transaction.txid, Processing.ChosenBy(c.work, c.templates), c.env.ages)
  {
    var t, x := TablesOf(daemon.db.CoreTables(), daemon.db.transactions.rows), m.transaction.txid;
    var steps := MainLoop.StepsOf(log);
    assert MainLoop.Documents(log[j], TemplateBuffer.EventAt(start.core.blocks.Keys, run, j));
    assert ShowsGroup(m, t, x);
    assert info in Elements(m.blocks);
    LastStep(steps, start.core, daemon.db.CoreTables());
    var c := log[j].comparison.value;
    ComparisonStoresPlaces(c, steps[j]);
    LinkShowsPlace(t, x, info, steps, j, Processing.ChosenBy(c.work, c.templates), c.env.ages, hash, row,
                   daemon.db.CoreTables());
  }

  /** And a transaction that a completed comparison found missing is shown with that block. */
  lemma PageShowsBlock(
      daemon: MainLoop.Daemon, start: MainLoop.Start, run: seq<TemplateBuffer.Answers>, log: seq<MainLoop.Round>,
      j: nat, c: MainLoop.Comparison, x: Txid, entries: seq<Missing>, page: seq<Bytes>, m: Missing)
    requires MainLoop.Reached(daemon, start, run, log)
    requires j < |log| && log[j].comparison == Some(c) && c.completed
    requires x in c.work.template.txids - c.work.block.txids
    requires ClosedTables(TablesOf(daemon.db.CoreTables(), daemon.db.transactions.rows))
    requires ShowsPage(entries, TablesOf(daemon.db.CoreTables(), daemon.db.transactions.rows), page)
    requires m in entries && m.transaction.txid == Reversed(x)
    ensures exists info :: info in m.blocks && info.id == c.env.id
  {
    var t, y := TablesOf(daemon.db.CoreTables(), daemon.db.transactions.rows), m.transaction.txid;
    var steps := MainLoop.StepsOf(log);
    assert MainLoop.Documents(log[j], TemplateBuffer.EventAt(start.core.blocks.Keys, run, j));
    LastStep(steps, start.core, daemon.db.CoreTables());
    CompletedStoresLink(c, steps[j], x);
    var hash, row := steps[j].added.value.0, steps[j].added.value.1;
    LaterTables(steps, j, hash, row, y, daemon.db.CoreTables());
    ListedInHistory(t, (row.id, y), m);
  }

  lemma CompletedStoresLink(c: MainLoop.Comparison, s: TableStep, x: Txid)
    requires MainLoop.ValidComparison(c, s) && c.completed && x in c.work.template.txids - c.work.block.txids
    ensures s.added.Some? && s.added.value.1.id == c.env.id
    ensures exists i :: 0 <= i < |s.part.leftOut| && s.part.leftOut[i].txid == Reversed(x)
  {
    assert LinkedInTemplate(c.work.bundle, Reversed(x));
  }

  lemma ListedInHistory(t: Tables, k: LinkKey, m: Missing)
    requires ClosedTables(t) && k in t.links && ShowsGroup(m, t, k.1)
    ensures exists info :: info in m.blocks && info.id == k.0
  {
    assert InfoOf(t, k) in HistoryOf(t, k.1);
    assert InfoOf(t, k) in Elements(m.blocks);
  }

  // ---------------------------------------------------------------- a tie across a page boundary

  /** All of `txids` were left out of the same blocks, the ones with the given ids, and nothing else was. */
  ghost predicate LeftOutTogether(t: Tables, txids: set<Bytes>, ids: set<int>) {
    && IdsOf(t.blocks) == ids && UniqueIds(t.blocks)
    && (forall h :: h in t.blocks ==> t.blocks[h].blockTx > 1)
    && (forall k :: k in t.links <==> k.0 in ids && k.1 in txids)
    && (forall k, h :: k in t.links && h in t.blocks && t.blocks[h].id == k.0 ==>
          100 * t.links[k].position < 98 * t.blocks[h].templateTx)
    && (forall i, j :: i in ids && j in ids ==> i > j - WINDOW)
  }

  lemma HitsOfAll(t: Tables, txids: set<Bytes>, ids: set<int>, x: Bytes)
    requires LeftOutTogether(t, txids, ids) && x in txids
    ensures Hits(t, x) == ids
  {
    forall id | id in ids ensures id in Hits(t, x) {
      assert (id, x) in t.links;
      var h :| h in t.blocks && t.blocks[h].id == id;
      assert Joins(t, (id, x), h);
    }
  }

  lemma GroupsOfAll(t: Tables, txids: set<Bytes>, ids: set<int>)
    requires LeftOutTogether(t, txids, ids) && |ids| > 2
    ensures Groups(t) == txids
    ensures forall x :: x in txids ==> LatestHit(t)(x) == Largest(ids)
  {
    forall x ensures x in Groups(t) <==> x in txids {
      if x in txids {
        HitsOfAll(t, txids, ids, x);
        GroupsAreLeftOutOften(t, x);
      }
    }
    forall x | x in txids ensures LatestHit(t)(x) == Largest(ids) {
      HitsOfAll(t, txids, ids, x);
    }
  }

  /** If they do not fit one page, evaluations disagree: one transaction is shown twice, another one never. */
  lemma LeftOutTogetherSpoilsPages(t: Tables, order: seq<Bytes>, ids: set<int>) returns (other: seq<Bytes>)
    requires LeftOutTogether(t, Elements(order), ids) && |ids| > 2 && NoDup(order) && |order| > PAGE_SIZE
    ensures IsAnswer(order, t) && IsAnswer(other, t) && !SamePages(order, other)
    ensures order[PAGE_SIZE - 1] in Page(order, 0) && order[PAGE_SIZE - 1] in Page(other, 1)
    ensures order[PAGE_SIZE] !in Page(order, 0) && order[PAGE_SIZE] !in Page(other, 1)
  {
    GroupsOfAll(t, Elements(order), ids);
    AllTied(order, LatestHit(t), Largest(ids));
    other := FirstTie(order, Groups(t), LatestHit(t));
  }

  /** Different places in the template for different transactions of one small byte. */
  function ExamplePosition(x: Bytes): nat {
    if |x| == 1 && x[0] < 98 then x[0] as int else 0
  }

  /** Tables in which all of `txids` were left out of the blocks with the given ids. */
  function ExampleTables(txids: set<Bytes>, ids: set<int>): Tables
    requires forall id :: id in ids ==> IsByte(id)
  {
    Tables(
      map id, x | id in ids && x in txids :: (id, x) := OnlyInTemplateRow(id, ExamplePosition(x), 0, x),
      map h | h in (set id | id in ids :: OneByte(id)) :: BlockRow(h[0] as int, 0, 2, 100, 0, 0, 0, 0, 0, 0),
      map x | x in txids :: TxRecord(x, false, [], 0, 0))
  }

  lemma ExampleBlocks(txids: set<Bytes>, ids: set<int>)
    requires forall id :: id in ids ==> IsByte(id)
    ensures UniqueIds(ExampleTables(txids, ids).blocks) && IdsOf(ExampleTables(txids, ids).blocks) == ids
  {
    var blocks := ExampleTables(txids, ids).blocks;
    forall id | id in ids ensures id in IdsOf(blocks) {
      assert OneByte(id) in blocks && blocks[OneByte(id)].id == id;
    }
    forall h | h in blocks ensures blocks[h].id in ids && h == OneByte(blocks[h].id) {
    }
  }

  lemma ExampleIsLeftOutTogether(txids: set<Bytes>, ids: set<int>)
    requires forall id :: id in ids ==> IsByte(id)
    ensures ClosedTables(ExampleTables(txids, ids)) && LeftOutTogether(ExampleTables(txids, ids), txids, ids)
  {
    ExampleBlocks(txids, ids);
  }

  /** For instance twenty-six transactions that three blocks left out. */
  lemma ExampleSpoilsPages() returns (t: Tables, order: seq<Bytes>, other: seq<Bytes>)
    ensures ClosedTables(t) && IdsOf(t.blocks) == {1, 2, 3} && |order| == PAGE_SIZE + 1 == 26
    ensures IsAnswer(order, t) && IsAnswer(other, t) && !SamePages(order, other)
    ensures order[24] in Page(order, 0) && order[24] in Page(other, 1)
    ensures order[25] !in Page(order, 0) && order[25] !in Page(other, 1)
  {
    var n, ids := PAGE_SIZE + 1, {1, 2, 3};
    order := OneBytes(n);
    t := ExampleTables(Elements(order), ids);
    ExampleIsLeftOutTogether(Elements(order), ids);
    other := LeftOutTogetherSpoilsPages(t, order, ids);
  }
}
