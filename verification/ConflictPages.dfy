/** The pages of blocks with conflicting transactions, and the two queries behind them. */
module ConflictPages {
  import opened Basics
  import opened Ledger
  import opened Builders
  import opened TagStore
  import opened Store
  import opened Paging
  import opened Readback

  // ---------------------------------------------------------------- the queries

  /** The paged query selects ids and heights of blocks that join with a conflict row, each pair once. */
  function ListedBlocks(blocks: BlockTable, conflicts: ConflictTable): set<(int, int)> {
    set k, h | k in conflicts && h in blocks && blocks[h].id == conflicts[k].blockId ::
      (conflicts[k].blockId, blocks[h].height)
  }

  /** The count query counts different block ids, without a join. */
  function CountedIds(conflicts: ConflictTable): set<int> {
    set k | k in conflicts :: conflicts[k].blockId
  }

  function HeightIn(p: (int, int)): int { p.1 }

  /** An answer of the unpaged query, the highest block first. */
  ghost predicate IsAnswer(order: seq<(int, int)>, blocks: BlockTable, conflicts: ConflictTable) {
    IsListing(order, ListedBlocks(blocks, conflicts), HeightIn)
  }

  ghost predicate ReferToBlocks(blocks: BlockTable, conflicts: ConflictTable) {
    UniqueIds(blocks) && forall k :: k in conflicts ==> conflicts[k].blockId in IdsOf(blocks)
  }

  lemma ListedIsOneBlock(blocks: BlockTable, conflicts: ConflictTable, h: Hash, p: (int, int))
    requires UniqueIds(blocks) && h in blocks && p in ListedBlocks(blocks, conflicts) && p.0 == blocks[h].id
    ensures p.1 == blocks[h].height
  {
    var k, g :| k in conflicts && g in blocks && blocks[g].id == conflicts[k].blockId
                && p == (conflicts[k].blockId, blocks[g].height);
    assert g == h;
  }

  /** References are closed and ids unique, so the count query counts what the paged query lists. */
  lemma CountQueryCountsBlocks(blocks: BlockTable, conflicts: ConflictTable)
    requires ReferToBlocks(blocks, conflicts)
    ensures |CountedIds(conflicts)| == |ListedBlocks(blocks, conflicts)|
  {
    var pairs, ids := ListedBlocks(blocks, conflicts), CountedIds(conflicts);
    forall id | id in ids ensures id in set p | p in pairs :: p.0 {
      var k :| k in conflicts && conflicts[k].blockId == id;
      var h :| h in blocks && blocks[h].id == id;
      assert (id, blocks[h].height as int) in pairs;
    }
    forall p, q | p in pairs && q in pairs && p.0 == q.0 ensures p == q {
      var h :| h in blocks && blocks[h].id == p.0;
      ListedIsOneBlock(blocks, conflicts, h, p);
      ListedIsOneBlock(blocks, conflicts, h, q);
    }
    SameSize(pairs, ids, (p: (int, int)) => p.0);
  }

  /** So the page count is the number of pages that the paged query needs. */
  lemma CountMatchesPages(
      blocks: BlockTable, conflicts: ConflictTable, order: seq<(int, int)>, p: nat)
    requires ReferToBlocks(blocks, conflicts) && IsAnswer(order, blocks, conflicts)
    ensures FirstPages(order, PageCount(|CountedIds(conflicts)|)) == order
    ensures Page(order, p) != [] <==> p < PageCount(|CountedIds(conflicts)|)
  {
    CountQueryCountsBlocks(blocks, conflicts);
    NoDupSize(order);
    PagesMakeUpListing(order, p);
  }

  /** Pages of different evaluations fit exactly when no two listed blocks of one height lie across a boundary. */
  lemma PagesOfAnswersFit(
      blocks: BlockTable, conflicts: ConflictTable, order: seq<(int, int)>)
    requires IsAnswer(order, blocks, conflicts)
    ensures NoTieAtBoundaries(order, HeightIn) <==>
            forall other :: IsAnswer(other, blocks, conflicts) ==> SamePages(order, other)
  {
    PagesFitIffNoTie(order, ListedBlocks(blocks, conflicts), HeightIn);
    if forall other :: IsAnswer(other, blocks, conflicts) ==> SamePages(order, other) {
      forall other | IsListing(other, ListedBlocks(blocks, conflicts), HeightIn) ensures SamePages(order, other) {
        assert IsAnswer(other, blocks, conflicts);
      }
    }
  }

  // ---------------------------------------------------------------- the page

  /** The blocks of a page. */
  function BlocksOn(page: seq<(int, int)>, blocks: BlockTable): set<Hash> {
    set h | h in blocks && (blocks[h].id, blocks[h].height) in page
  }

  function FallingId(blocks: BlockTable): Hash -> int {
    h => if h in blocks then -blocks[h].id else 0
  }

  lemma BlocksWithIds(blocks: BlockTable, conflicts: ConflictTable, page: seq<(int, int)>)
    requires UniqueIds(blocks) && forall p :: p in page ==> p in ListedBlocks(blocks, conflicts)
    ensures BlocksOn(page, blocks) == set h | h in blocks && exists p :: p in page && p.0 == blocks[h].id
  {
    forall h, p | h in blocks && p in page && p.0 == blocks[h].id ensures h in BlocksOn(page, blocks) {
      ListedIsOneBlock(blocks, conflicts, h, p);
      assert p == (blocks[h].id, blocks[h].height);
    }
  }

  /** The blocks of a page, the latest id first. */
  method PageBlocks(blocks: BlockTable, ghost conflicts: ConflictTable,
                    order: seq<(int, int)>, page: nat)
    returns (shown: seq<Hash>)
    requires UniqueIds(blocks) && IsAnswer(order, blocks, conflicts)
    ensures Enumerates(shown, BlocksOn(Page(order, page), blocks))
    ensures forall i :: 0 <= i < |shown| ==> shown[i] in blocks
    ensures forall i, j :: 0 <= i < j < |shown| ==> blocks[shown[i]].id > blocks[shown[j]].id
  {
    var ids := set p | p in Page(order, page) :: p.0;
    var found := Iterate(set h | h in blocks && blocks[h].id in ids);
    PageIsListed(order, page, blocks, conflicts);
    BlocksWithIds(blocks, conflicts, Page(order, page));
    assert (set h | h in blocks && blocks[h].id in ids) == BlocksOn(Page(order, page), blocks);
    SortStableCorrect(found, FallingId(blocks));
    shown := SortStable(found, FallingId(blocks));
    assert forall h :: h in shown ==> h in Elements(shown);
    FallingIds(shown, blocks);
  }

  /** One page: its blocks, each with its conflict sets, of which there is at least one. */
  method ConflictPage(db: Database, order: seq<(int, int)>, page: nat)
    returns (shown: seq<Hash>, infos: seq<seq<WebConflictSet>>, ghost orders: seq<seq<ConflictRow>>)
    requires db.Closed() && IsAnswer(order, db.blocks, db.conflicts)
    ensures Enumerates(shown, BlocksOn(Page(order, page), db.blocks))
    ensures forall i :: 0 <= i < |shown| ==> shown[i] in db.blocks
    ensures forall i, j :: 0 <= i < j < |shown| ==> db.blocks[shown[i]].id > db.blocks[shown[j]].id
    ensures |infos| == |shown| == |orders|
    ensures forall i :: 0 <= i < |shown| ==>
              && infos[i] != []
              && Enumerates(orders[i], RowsOfBlock(db.conflicts, db.blocks[shown[i]].id))
              && ReadsRows(infos[i], orders[i], db.transactions.rows)
  {
    shown := PageBlocks(db.blocks, db.conflicts, order, page);
    infos, orders := ConflictsOfBlocks(db, shown);
    PageIsListed(order, page, db.blocks, db.conflicts);
    forall i | 0 <= i < |shown| ensures infos[i] != [] {
      assert shown[i] in Elements(shown);
      ListedHasRows(db.blocks, db.conflicts, shown[i]);
    }
  }

  lemma PageIsListed(order: seq<(int, int)>, page: nat, blocks: BlockTable, conflicts: ConflictTable)
    requires IsAnswer(order, blocks, conflicts)
    ensures forall p :: p in Page(order, page) ==> p in ListedBlocks(blocks, conflicts)
  {
    forall p | p in Page(order, page) ensures p in ListedBlocks(blocks, conflicts) {
      assert p in Elements(order);
    }
  }

  lemma FallingIds(shown: seq<Hash>, blocks: BlockTable)
    requires UniqueIds(blocks) && NoDup(shown) && Ascending(shown, FallingId(blocks))
    requires forall h :: h in shown ==> h in blocks
    ensures forall i, j :: 0 <= i < j < |shown| ==> blocks[shown[i]].id > blocks[shown[j]].id
  {
    forall i, j | 0 <= i < j < |shown| ensures blocks[shown[i]].id > blocks[shown[j]].id {
      assert FallingId(blocks)(shown[i]) <= FallingId(blocks)(shown[j]);
      assert shown[i] in shown && shown[j] in shown && shown[i] != shown[j];
    }
  }

  lemma ListedHasRows(blocks: BlockTable, conflicts: ConflictTable, h: Hash)
    requires h in blocks && (blocks[h].id, blocks[h].height as int) in ListedBlocks(blocks, conflicts)
    ensures |RowsOfBlock(conflicts, blocks[h].id)| > 0
  {
    var k :| k in conflicts && conflicts[k].blockId == blocks[h].id;
    assert conflicts[k] in RowsOfBlock(conflicts, blocks[h].id);
  }

  lemma DatabaseRefers(db: Database)
    requires db.Closed()
    ensures ReferToBlocks(db.blocks, db.conflicts)
  {
    forall k | k in db.conflicts ensures db.conflicts[k].blockId in db.Ids() {
      assert ConflictClosed(db.conflicts[k], db.Ids(), db.transactions.rows.Keys);
    }
  }

  // ---------------------------------------------------------------- two blocks of one height

  /** Falling heights, but the last two blocks of the list share one, as after a reorg. */
  function ExampleHeight(i: int): nat
    requires IsByte(i)
  {
    if i < PAGE_SIZE then 1000 - i else 1000 - PAGE_SIZE + 1
  }

  const EXAMPLE_IDS: set<int> := set i | 0 <= i <= PAGE_SIZE

  function ExampleBlocks(ids: set<int>): BlockTable
    requires forall id :: id in ids ==> IsByte(id)
  {
    map h | h in (set id | id in ids :: OneByte(id)) ::
      BlockRow(h[0] as int, ExampleHeight(h[0] as int), 2, 2, 1, 1, 1, 0, 0, 0)
  }

  function ExampleRow(id: int): ConflictRow
    requires IsByte(id)
  {
    ConflictRow(id, [[1] + OneByte(id)], [[2] + OneByte(id)], [[3] + OneByte(id)], [0])
  }

  function ExampleConflicts(ids: set<int>): ConflictTable
    requires forall id :: id in ids ==> IsByte(id)
  {
    map k | k in (set id | id in ids :: ConflictKeyOf(ExampleRow(id))) ::
      ExampleRow(k.0)
  }

  lemma ExampleListing(ids: set<int>)
    requires forall id :: id in ids ==> IsByte(id)
    ensures ReferToBlocks(ExampleBlocks(ids), ExampleConflicts(ids))
    ensures ListedBlocks(ExampleBlocks(ids), ExampleConflicts(ids))
         == set id | id in ids :: (id, ExampleHeight(id) as int)
  {
    var blocks, conflicts := ExampleBlocks(ids), ExampleConflicts(ids);
    forall h | h in blocks ensures blocks[h].id in ids && h == OneByte(blocks[h].id) {
    }
    forall id | id in ids
      ensures OneByte(id) in blocks && blocks[OneByte(id)].id == id && blocks[OneByte(id)].height == ExampleHeight(id)
      ensures ConflictKeyOf(ExampleRow(id)) in conflicts && conflicts[ConflictKeyOf(ExampleRow(id))].blockId == id
    {
    }
    forall k | k in conflicts ensures conflicts[k].blockId in ids {
    }
    forall id | id in ids ensures (id, ExampleHeight(id) as int) in ListedBlocks(blocks, conflicts) {
      assert ConflictKeyOf(ExampleRow(id)) in conflicts && OneByte(id) in blocks;
    }
  }

  /** Two blocks of one height across the first boundary: one is shown on two pages, the other on none. */
  lemma SameHeightSpoilsPages() returns (
      blocks: BlockTable, conflicts: ConflictTable, order: seq<(int, int)>, other: seq<(int, int)>)
    ensures ReferToBlocks(blocks, conflicts) && IsAnswer(order, blocks, conflicts) && IsAnswer(other, blocks, conflicts)
    ensures |order| == PAGE_SIZE + 1 && !SamePages(order, other)
    ensures order[PAGE_SIZE - 1] in Page(order, 0) && order[PAGE_SIZE - 1] in Page(other, 1)
    ensures order[PAGE_SIZE] !in Page(order, 0) && order[PAGE_SIZE] !in Page(other, 1)
  {
    var ids := EXAMPLE_IDS;
    blocks, conflicts := ExampleBlocks(ids), ExampleConflicts(ids);
    ExampleListing(ids);
    order := seq(PAGE_SIZE + 1, i requires 0 <= i <= PAGE_SIZE => (i, ExampleHeight(i) as int));
    ExampleOrder(order, ListedBlocks(blocks, conflicts), ids);
    other := FirstTie(order, ListedBlocks(blocks, conflicts), HeightIn);
  }

  lemma ExampleOrder(order: seq<(int, int)>, listed: set<(int, int)>, ids: set<int>)
    requires ids == EXAMPLE_IDS && listed == set id | id in ids :: (id, ExampleHeight(id) as int)
    requires |order| == PAGE_SIZE + 1 && forall i :: 0 <= i <= PAGE_SIZE ==> order[i] == (i, ExampleHeight(i) as int)
    ensures IsListing(order, listed, HeightIn) && TieAt(order, HeightIn, PAGE_SIZE)
  {
    forall p | p in listed ensures p in order {
      var id :| id in ids && p == (id, ExampleHeight(id) as int);
      assert order[id] == p;
    }
  }
}
