/** Which buffered template is compared with a block, and the rows that document the choice. */
module TemplateSelection {
  import opened Basics
  import opened Ledger
  import opened Builders
  import TemplateBuffer

  function NodeTxids(t: Template): set<Txid> {
    set i | 0 <= i < |t.txs| :: t.txs[i].txid
  }

  function Missing(t: Template, block: set<Txid>): nat { |NodeTxids(t) - block| }

  function Extra(t: Template, block: set<Txid>): nat { |block - NodeTxids(t)| }

  function Shared(t: Template, block: set<Txid>): nat { |block * NodeTxids(t)| }

  function Difference(t: Template, block: set<Txid>): nat { Missing(t, block) + Extra(t, block) }

  function Differences(buffer: seq<Template>, block: set<Txid>): (xs: seq<nat>)
    ensures |xs| == |buffer|
    ensures forall i :: 0 <= i < |xs| ==> xs[i] == Difference(buffer[i], block)
  {
    seq(|buffer|, i requires 0 <= i < |buffer| => Difference(buffer[i], block))
  }

  /** No entry is smaller, and every earlier one is larger. */
  ghost predicate IsFirstMin(xs: seq<nat>, k: int) {
    && 0 <= k < |xs|
    && (forall i :: 0 <= i < |xs| ==> xs[k] <= xs[i])
    && (forall i :: 0 <= i < k ==> xs[k] < xs[i])
  }

  /** `min_by_key` keeps the first of equal minima. */
  function FirstMin(xs: seq<nat>): (k: nat)
    requires xs != []
    ensures IsFirstMin(xs, k)
  {
    var n := |xs| - 1;
    if n == 0 then 0
    else
      var k := FirstMin(xs[..n]);
      if xs[n] < xs[k] then n else k
  }

  /** Position of the selected template: the oldest that differs least from the block. */
  function SelectBest(buffer: seq<Template>, block: set<Txid>): (k: nat)
    requires buffer != []
    ensures IsFirstMin(Differences(buffer, block), k)
  {
    FirstMin(Differences(buffer, block))
  }

  datatype DebugRow = DebugRow(time: nat, missing: nat, shared: nat, extra: nat, selected: bool)

  function RowFor(t: Template, block: set<Txid>, selectedTime: nat): DebugRow {
    DebugRow(t.time, Missing(t, block), Shared(t, block), Extra(t, block), t.time == selectedTime)
  }

  function DebugRows(buffer: seq<Template>, block: set<Txid>, selectedTime: nat): (rows: seq<DebugRow>)
    ensures |rows| == |buffer|
    ensures forall i :: 0 <= i < |rows| ==> rows[i] == RowFor(buffer[i], block, selectedTime)
  {
    seq(|buffer|, i requires 0 <= i < |buffer| => RowFor(buffer[i], block, selectedTime))
  }

  /** Shared and missing make up the template; shared and extra make up the block. */
  lemma CountsAddUp(t: Template, block: set<Txid>, selectedTime: nat)
    ensures var row := RowFor(t, block, selectedTime);
            row.shared + row.missing == |NodeTxids(t)| && row.shared + row.extra == |block|
  {
    var ids := NodeTxids(t);
    assert ids == (block * ids) + (ids - block);
    assert block == (block * ids) + (block - ids);
  }

  // ---------------------------------------------------------------- the txids that are counted

  /** Every entry is under the txid of one that decodes. */
  ghost predicate EntriesCollected(d: TxData, t: Template) {
    forall i :: 0 <= i < |t.txs| ==> t.txs[i].txid in d.txids
  }

  lemma CollectedAreCounted(d: TxData, t: Template)
    requires Collects(d, t, |t.txs|) && NodeTxidsMatch(t)
    ensures d.txids <= NodeTxids(t)
    ensures EntriesCollected(d, t) <==> d.txids == NodeTxids(t)
  {
    forall x | x in d.txids ensures x in NodeTxids(t) {
      var i, info :| i < |t.txs| && DecodesTo(t, i, info) && info.txid == x;
      assert t.txs[i].txid == x;
    }
    if EntriesCollected(d, t) {
      assert NodeTxids(t) <= d.txids;
    } else {
      var i :| 0 <= i < |t.txs| && t.txs[i].txid !in d.txids;
      assert t.txs[i].txid in NodeTxids(t);
    }
  }

  lemma DifferencesDecide(c: set<Txid>, n: set<Txid>, block: set<Txid>)
    requires c <= n
    ensures |n - block| == |c - block| && |block - n| == |block - c| <==> c == n
  {
    SubsetSize(c - block, n - block);
    SubsetSize(block - n, block - c);
    if |n - block| == |c - block| && |block - n| == |block - c| {
      forall x | x in n ensures x in c {
        assert x in n - block <==> x in c - block;
        assert x in block - n <==> x in block - c;
      }
    }
  }

  /**
   * The counts that select a template, and that its row shows, are those of the collected transactions if and
   * only if every entry decodes, or has the txid of one that does.
   */
  lemma CountsAreOfCollected(d: TxData, t: Template, block: set<Txid>)
    requires Collects(d, t, |t.txs|) && NodeTxidsMatch(t)
    ensures Missing(t, block) == |d.txids - block| && Extra(t, block) == |block - d.txids| <==> EntriesCollected(d, t)
    ensures EntriesCollected(d, t) ==> Shared(t, block) == |block * d.txids|
  {
    CollectedAreCounted(d, t);
    DifferencesDecide(d.txids, NodeTxids(t), block);
  }

  ghost predicate AllDecode(t: Template) {
    forall i :: 0 <= i < |t.txs| ==> t.txs[i].decoded.Some?
  }

  lemma DecodedAreCollected(d: TxData, t: Template)
    requires Collects(d, t, |t.txs|) && NodeTxidsMatch(t) && AllDecode(t)
    ensures EntriesCollected(d, t)
  {
    forall i | 0 <= i < |t.txs| ensures t.txs[i].txid in d.txids {
      var tx := t.txs[i].decoded.value;
      assert DecodesTo(t, i, TxInfo(tx.txid, tx, i, t.txs[i].fee));
    }
  }

  /** In particular if every entry decodes. */
  lemma CountsOfDecoded(d: TxData, t: Template, block: set<Txid>)
    requires Collects(d, t, |t.txs|) && NodeTxidsMatch(t) && AllDecode(t)
    ensures Missing(t, block) == |d.txids - block| && Extra(t, block) == |block - d.txids|
    ensures Shared(t, block) == |block * d.txids|
  {
    DecodedAreCollected(d, t);
    CountsAreOfCollected(d, t, block);
  }

  /** So no buffered template differs less from the block, transaction by transaction, and older ones differ more. */
  lemma SelectedDiffersLeast(buffer: seq<Template>, block: set<Txid>, d: TxData, i: nat, e: TxData)
    requires buffer != [] && i < |buffer|
    requires forall t :: t in buffer ==> NodeTxidsMatch(t) && AllDecode(t)
    requires var best := buffer[SelectBest(buffer, block)]; Collects(d, best, |best.txs|)
    requires Collects(e, buffer[i], |buffer[i].txs|)
    ensures |d.txids - block| + |block - d.txids| <= |e.txids - block| + |block - e.txids|
    ensures i < SelectBest(buffer, block) ==>
              |d.txids - block| + |block - d.txids| < |e.txids - block| + |block - e.txids|
  {
    var k := SelectBest(buffer, block);
    assert buffer[k] in buffer && buffer[i] in buffer;
    CountsOfDecoded(d, buffer[k], block);
    CountsOfDecoded(e, buffer[i], block);
    assert Differences(buffer, block)[k] <= Differences(buffer, block)[i];
  }

  function NodeTxidList(t: Template): (r: seq<Txid>)
    ensures |r| == |t.txs| && forall i :: 0 <= i < |r| ==> r[i] == t.txs[i].txid
  {
    seq(|t.txs|, i requires 0 <= i < |t.txs| => t.txs[i].txid)
  }

  /** Shared and missing make up the list of entries if and only if no txid is listed twice. */
  lemma CountsCoverEntries(t: Template, block: set<Txid>, selectedTime: nat)
    ensures var row := RowFor(t, block, selectedTime);
            row.shared + row.missing == |t.txs| <==>
            forall i, j :: 0 <= i < j < |t.txs| ==> t.txs[i].txid != t.txs[j].txid
  {
    CountsAddUp(t, block, selectedTime);
    var list := NodeTxidList(t);
    assert NodeTxids(t) == Elements(list);
    FullSizeMeansNoDup(list);
  }

  ghost predicate DistinctTimes(buffer: seq<Template>) {
    forall i, j :: 0 <= i < j < |buffer| ==> buffer[i].time != buffer[j].time
  }

  ghost predicate RowIsMinimal(rows: seq<DebugRow>, k: int)
    requires 0 <= k < |rows|
  {
    forall i :: 0 <= i < |rows| ==> rows[k].missing + rows[k].extra <= rows[i].missing + rows[i].extra
  }

  lemma MinimalRows(buffer: seq<Template>, block: set<Txid>, time: nat, first: int, k: int)
    requires IsFirstMin(Differences(buffer, block), k) && 0 <= first <= k
    ensures RowIsMinimal(DebugRows(buffer, block, time), first) <==> first == k
  {
    var rows, xs := DebugRows(buffer, block, time), Differences(buffer, block);
    assert forall i :: 0 <= i < |rows| ==> rows[i].missing + rows[i].extra == xs[i];
    assert first < k ==> rows[k].missing + rows[k].extra < rows[first].missing + rows[first].extra;
  }

  /** With distinct times exactly one row is marked, and no row has a smaller difference. */
  lemma ExactlyOneRowIsSelected(buffer: seq<Template>, block: set<Txid>)
    requires buffer != [] && DistinctTimes(buffer)
    ensures var k := SelectBest(buffer, block);
            var rows := DebugRows(buffer, block, buffer[k].time);
            (forall i :: 0 <= i < |rows| ==> (rows[i].selected <==> i == k)) && RowIsMinimal(rows, k)
  {
    var k := SelectBest(buffer, block);
    MinimalRows(buffer, block, buffer[k].time, k, k);
  }

  // ---------------------------------------------------------------- the rows as stored

  /** The first template with the time `time`. */
  ghost predicate FirstWithTime(buffer: seq<Template>, time: nat, k: int) {
    0 <= k < |buffer| && buffer[k].time == time && forall i :: 0 <= i < k ==> buffer[i].time != time
  }

  ghost predicate IsFirstRow(rows: seq<DebugRow>, time: nat, k: int) {
    0 <= k < |rows| && rows[k].time == time && forall i :: 0 <= i < k ==> rows[i].time != time
  }

  /** Insert with "on conflict do nothing": the table is keyed by template time, so the first row stays. */
  function InsertRows(table: map<nat, DebugRow>, rows: seq<DebugRow>): map<nat, DebugRow> {
    if rows == [] then table
    else
      var before := InsertRows(table, rows[..|rows| - 1]);
      var row := rows[|rows| - 1];
      if row.time in before then before else before[row.time := row]
  }

  ghost predicate StoresFirst(table: map<nat, DebugRow>, rows: seq<DebugRow>, time: nat) {
    time in table && exists k :: 0 <= k < |rows| && rows[k] == table[time] && IsFirstRow(rows, time, k)
  }

  ghost predicate StoresAllFirst(table: map<nat, DebugRow>, rows: seq<DebugRow>) {
    && (forall i :: 0 <= i < |rows| ==> rows[i].time in table)
    && (forall time {:trigger StoresFirst(table, rows, time)} :: time in table ==> StoresFirst(table, rows, time))
  }

  lemma OneMoreRow(table: map<nat, DebugRow>, rows: seq<DebugRow>, row: DebugRow)
    requires StoresAllFirst(table, rows)
    ensures StoresAllFirst(if row.time in table then table else table[row.time := row], rows + [row])
  {
    var after, longer := if row.time in table then table else table[row.time := row], rows + [row];
    forall time | time in after ensures StoresFirst(after, longer, time) {
      if time in table {
        assert StoresFirst(table, rows, time);
        var k :| 0 <= k < |rows| && rows[k] == table[time] && IsFirstRow(rows, time, k);
        assert longer[k] == after[time] && IsFirstRow(longer, time, k);
      } else {
        assert longer[|rows|] == after[time] && IsFirstRow(longer, time, |rows|);
      }
    }
  }

  /** Every stored row is the first one listed for its time. */
  lemma {:induction false} FirstRowStays(rows: seq<DebugRow>)
    ensures StoresAllFirst(InsertRows(map[], rows), rows)
  {
    if rows == [] {
    } else {
      var front, row := rows[..|rows| - 1], rows[|rows| - 1];
      FirstRowStays(front);
      OneMoreRow(InsertRows(map[], front), front, row);
      assert rows == front + [row];
    }
  }

  lemma OneMarkedRow(rows: seq<DebugRow>, time: nat, first: int)
    requires forall i :: 0 <= i < |rows| ==> (rows[i].selected <==> rows[i].time == time)
    requires IsFirstRow(rows, time, first)
    ensures var stored := InsertRows(map[], rows);
            && (forall t :: t in stored && stored[t].selected <==> t == time)
            && stored[time] == rows[first]
  {
    var stored := InsertRows(map[], rows);
    FirstRowStays(rows);
    forall t | t in stored
      ensures stored[t].selected <==> t == time
      ensures t == time ==> stored[t] == rows[first]
    {
      assert StoresFirst(stored, rows, t);
      var at :| 0 <= at < |rows| && rows[at] == stored[t] && IsFirstRow(rows, t, at);
      if t == time {
        assert at <= first && first <= at;
      }
    }
  }

  /** Once stored, exactly the row of `time` is marked; it is row `first`, which is minimal only as row `best`. */
  ghost predicate MarksSelection(rows: seq<DebugRow>, time: nat, first: int, best: int) {
    var stored := InsertRows(map[], rows);
    && 0 <= first < |rows|
    && (forall t :: t in stored && stored[t].selected <==> t == time)
    && stored[time] == rows[first]
    && (RowIsMinimal(rows, first) <==> first == best)
  }

  /**
   * Whatever the times, the stored rows of a block have exactly one marked row. It belongs to the
   * oldest template with the selected time, and its difference is the smallest if and only if that
   * template is the selected one.
   */
  lemma StoredSelection(buffer: seq<Template>, block: set<Txid>, first: int)
    requires buffer != []
    requires FirstWithTime(buffer, buffer[SelectBest(buffer, block)].time, first)
    ensures MarksSelection(
              DebugRows(buffer, block, buffer[SelectBest(buffer, block)].time),
              buffer[SelectBest(buffer, block)].time, first, SelectBest(buffer, block))
  {
    var k := SelectBest(buffer, block);
    MinimalRows(buffer, block, buffer[k].time, first, k);
    OneMarkedRow(DebugRows(buffer, block, buffer[k].time), buffer[k].time, first);
  }

  // ---------------------------------------------------------------- equal times

  /** Two templates of one second; the older one has a transaction that the block below lacks. */
  function SameSecond(n: nat): Template {
    Template([2], 3, 5, if n == 0 then [TemplateTx([7], None, 0)] else [])
  }

  const EQUAL_TIMES: seq<Template> := [SameSecond(0), SameSecond(1)]

  /** The txids of a block with nothing but a coinbase. */
  const COINBASE_ONLY: set<Txid> := {[9]}

  /**
   * A run over an append-only chain that buffers them. The first template's block is missed and processed,
   * the current template is pushed, and the loop asks for the next one without sleeping.
   */
  lemma EqualTimesOccur()
    returns (chain: seq<Hash>, run: seq<TemplateBuffer.Answers>, tips: seq<TemplateBuffer.Tips>)
    ensures TemplateBuffer.AppendOnly(chain, {}, run, tips)
    ensures TemplateBuffer.After({}, run).buffer == EQUAL_TIMES
  {
    chain, tips := [[0], [1], [2]], [TemplateBuffer.Tips(1, 1), TemplateBuffer.Tips(3, 3), TemplateBuffer.Tips(3, 3)];
    var up := TemplateBuffer.StoresEverything;
    var first := TemplateBuffer.Answers(Some(Template([0], 1, 0, [])), None, None, None, true, up);
    var second := TemplateBuffer.Answers(
      Some(SameSecond(0)), Some(Block([2], [1], 2, [])), Some([1]), Some(Block([1], [0], 1, [])), true, up);
    var third := TemplateBuffer.Answers(Some(SameSecond(1)), None, None, None, true, up);
    run := [first, second, third];
    var s0 := TemplateBuffer.State([], {});
    var s1 := TemplateBuffer.State([Template([0], 1, 0, [])], {});
    var s2 := TemplateBuffer.State([SameSecond(0)], {[1]});
    ThreeHashes();
    assert TemplateBuffer.Step(s1, second).0 == s2;
    TemplateBuffer.StatesOfShortRun(run, s0, s1, s2);
    assert TemplateBuffer.TruthfulAt(chain, {}, run, tips, 0) && TemplateBuffer.TruthfulAt(chain, {}, run, tips, 1);
    assert TemplateBuffer.TruthfulAt(chain, {}, run, tips, 2);
    assert run[..2] == run[..|run| - 1];
    assert [SameSecond(0)] + [SameSecond(1)] == EQUAL_TIMES;
  }

  lemma ThreeHashes()
    ensures var chain: seq<Hash> := [[0], [1], [2]];
            && NoDup(chain)
            && TemplateBuffer.IsBlockOf(chain, Block([1], [0], 1, []), [1])
            && TemplateBuffer.IsBlockOf(chain, Block([2], [1], 2, []), [2])
  {
    var chain: seq<Hash> := [[0], [1], [2]];
    assert forall i :: 0 <= i < |chain| ==> chain[i][0] as int == i;
  }

  lemma DifferencesOfEqualTimes()
    ensures Difference(SameSecond(0), COINBASE_ONLY) == 2 && Difference(SameSecond(1), COINBASE_ONLY) == 1
  {
    var a, b, coinbase := SameSecond(0), SameSecond(1), COINBASE_ONLY;
    var missed: Txid, mined: Txid := [7], [9];
    assert missed[0] != mined[0];
    assert a.txs[0].txid in NodeTxids(a);
    assert NodeTxids(a) == {missed} && NodeTxids(b) == {};
    assert NodeTxids(a) - coinbase == {missed} && coinbase - NodeTxids(a) == {mined};
    assert NodeTxids(b) - coinbase == {} && coinbase - NodeTxids(b) == {mined};
  }

  /** There the stored marked row is not minimal: the row of the selected template is the one not stored. */
  lemma EqualTimesSpoilStoredRow()
    ensures var k := SelectBest(EQUAL_TIMES, COINBASE_ONLY);
            var rows := DebugRows(EQUAL_TIMES, COINBASE_ONLY, EQUAL_TIMES[k].time);
            var marked := InsertRows(map[], rows)[EQUAL_TIMES[k].time];
            marked.selected && marked == rows[0] && !RowIsMinimal(rows, 0)
  {
    DifferencesOfEqualTimes();
    assert EQUAL_TIMES[0] == SameSecond(0) && EQUAL_TIMES[1] == SameSecond(1);
    StoredSelection(EQUAL_TIMES, COINBASE_ONLY, 0);
  }
}
