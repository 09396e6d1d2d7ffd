/** Transaction records: tags, and the map that merges the tags a transaction collects in one processing. */
module Records {
  import opened Basics
  import opened Ledger
  import opened Sanctions

  // ---------------------------------------------------------------- tags

  const FROM_SANCTIONED := 1099
  const TO_SANCTIONED := 1100
  const CONFLICTING := 1110
  const ZERO_FEE := 2110

  /** The answers to the remaining tag questions, which the library and the transaction decide. */
  datatype TagFacts = TagFacts(
    coinbase: bool, zeroFee: bool, highFeerate: bool, large: bool, dustOutput: bool, highValue: bool,
    manySigops: bool, segwit: bool, taproot: bool, multisig: bool, opReturn: bool, counterParty: bool,
    inscription: bool, rareScriptType: bool, rbfSignaling: bool, coinjoin: bool, consolidation: bool,
    lockByHeight: bool, lockByTimestamp: bool)

  /** What one processing knows: the sanction rules, which transactions decode, and the tag facts. */
  datatype Context = Context(rules: Rules, decodes: Transaction -> bool, facts: TxInfo -> TagFacts)

  function Questions(info: TxInfo, conflicting: bool, ctx: Context): seq<(bool, int)> {
    var f := ctx.facts(info);
    [ (conflicting, CONFLICTING),
      (IsToSanctioned(info.tx, ctx.rules), TO_SANCTIONED),
      (IsFromSanctioned(info.tx, ctx.rules), FROM_SANCTIONED),
      (f.coinbase, 4099), (f.zeroFee, ZERO_FEE), (f.highFeerate, 2120), (f.large, 2100), (f.dustOutput, 4180),
      (f.highValue, 2130), (f.manySigops, 2140), (f.segwit, 4110), (f.taproot, 4111), (f.multisig, 4120),
      (f.opReturn, 4140), (f.counterParty, 4141), (f.inscription, 4190), (f.rareScriptType, 4142),
      (f.rbfSignaling, 4130), (f.coinjoin, 4100), (f.consolidation, 4170), (f.lockByHeight, 4150),
      (f.lockByTimestamp, 4160) ]
  }

  function Affirmed(questions: seq<(bool, int)>): seq<int> {
    if questions == [] then []
    else
      var last := questions[|questions| - 1];
      Affirmed(questions[..|questions| - 1]) + if last.0 then [last.1] else []
  }

  /** The tags of a transaction in display order. */
  function TransactionTags(info: TxInfo, conflicting: bool, ctx: Context): seq<int> {
    Affirmed(Questions(info, conflicting, ctx))
  }

  lemma {:induction false} AffirmedMembers(questions: seq<(bool, int)>, tag: int)
    ensures tag in Affirmed(questions) <==> exists i :: 0 <= i < |questions| && questions[i] == (true, tag)
  {
    if questions == [] {
    } else {
      var front := questions[..|questions| - 1];
      AffirmedMembers(front, tag);
      if tag in Affirmed(questions) && tag !in Affirmed(front) {
        assert questions[|questions| - 1] == (true, tag);
      }
    }
  }

  lemma {:induction false} AffirmedNoDup(questions: seq<(bool, int)>)
    requires forall i, j :: 0 <= i < j < |questions| ==> questions[i].1 != questions[j].1
    ensures NoDup(Affirmed(questions))
  {
    if questions == [] {
    } else {
      var front, last := questions[..|questions| - 1], questions[|questions| - 1];
      AffirmedNoDup(front);
      AffirmedMembers(front, last.1);
    }
  }

  lemma TagsAreDistinct(info: TxInfo, conflicting: bool, ctx: Context)
    ensures NoDup(TransactionTags(info, conflicting, ctx))
  {
    AffirmedNoDup(Questions(info, conflicting, ctx));
  }

  /** What the three important tags mean; the other tags do not depend on the conflict flag. */
  lemma ImportantTags(info: TxInfo, conflicting: bool, ctx: Context)
    ensures var tags := TransactionTags(info, conflicting, ctx);
            && (CONFLICTING in tags <==> conflicting)
            && (TO_SANCTIONED in tags <==> IsToSanctioned(info.tx, ctx.rules))
            && (FROM_SANCTIONED in tags <==> IsFromSanctioned(info.tx, ctx.rules))
  {
    var qs := Questions(info, conflicting, ctx);
    AffirmedMembers(qs, CONFLICTING);
    AffirmedMembers(qs, TO_SANCTIONED);
    AffirmedMembers(qs, FROM_SANCTIONED);
    assert qs[0].1 == CONFLICTING && qs[1].1 == TO_SANCTIONED && qs[2].1 == FROM_SANCTIONED;
    assert forall i :: 3 <= i < |qs| ==> qs[i].1 >= 2000;
  }

  lemma ZeroFeeTag(info: TxInfo, conflicting: bool, ctx: Context)
    requires ctx.facts(info).zeroFee
    ensures ZERO_FEE in TransactionTags(info, conflicting, ctx)
  {
    var qs := Questions(info, conflicting, ctx);
    AffirmedMembers(qs, ZERO_FEE);
    assert exists i :: 0 <= i < |qs| && qs[i] == (true, ZERO_FEE) by {
      assert qs[4] == (true, ZERO_FEE);
    }
  }

  // ---------------------------------------------------------------- records

  /** A row of the transaction table. */
  datatype TxRecord = TxRecord(txid: Bytes, sanctioned: bool, tags: seq<int>, fee: nat, vsize: nat)

  function RecordOf(info: TxInfo, conflicting: bool, ctx: Context): TxRecord {
    TxRecord(Reversed(info.txid), IsSanctioned(info.tx, ctx.rules), TransactionTags(info, conflicting, ctx),
             info.fee, info.tx.vsize)
  }

  function BuildTransaction(info: TxInfo, conflicting: bool, ctx: Context): Option<TxRecord> {
    if ctx.decodes(info.tx) then Some(RecordOf(info, conflicting, ctx)) else None
  }

  function MergeTags(a: seq<int>, b: seq<int>): (r: seq<int>)
    ensures Elements(r) == Elements(a) + Elements(b)
    ensures a != b ==> StrictlySorted(r, Same, IntLess)
    ensures NoDup(a) ==> NoDup(r)
  {
    if a == b then a
    else
      IntOrder();
      SortDedupByElements(a + b, Same, IntLess);
      SortDedupBy(a + b, Same, IntLess)
  }

  type RecordMap = map<Bytes, TxRecord>

  /** The record of a transaction seen before keeps its place and gains the new tags. */
  function AddRecord(rows: RecordMap, r: TxRecord): RecordMap {
    if r.txid in rows
    then rows[r.txid := rows[r.txid].(tags := MergeTags(rows[r.txid].tags, r.tags))]
    else rows[r.txid := r]
  }

  function AddAll(rows: RecordMap, rs: seq<TxRecord>): RecordMap {
    if rs == [] then rows else AddRecord(AddAll(rows, rs[..|rs| - 1]), rs[|rs| - 1])
  }

  lemma {:induction false} AddAllConcat(rows: RecordMap, rs: seq<TxRecord>, more: seq<TxRecord>)
    ensures AddAll(rows, rs + more) == AddAll(AddAll(rows, rs), more)
  {
    if more == [] {
      assert rs + more == rs;
    } else {
      var all := rs + more;
      assert all[..|all| - 1] == rs + more[..|more| - 1];
      AddAllConcat(rows, rs, more[..|more| - 1]);
    }
  }

  ghost predicate TagsDoNotRepeat(rows: RecordMap) {
    forall k :: k in rows ==> NoDup(rows[k].tags)
  }

  ghost predicate RecordsDoNotRepeat(rs: seq<TxRecord>) {
    forall i :: 0 <= i < |rs| ==> NoDup(rs[i].tags)
  }

  /** Merging sorts and removes repeats, so no row ever repeats a tag. */
  lemma {:induction false} MergingDoesNotRepeat(rows: RecordMap, rs: seq<TxRecord>)
    requires TagsDoNotRepeat(rows) && RecordsDoNotRepeat(rs)
    ensures TagsDoNotRepeat(AddAll(rows, rs))
  {
    if rs == [] {
    } else {
      MergingDoesNotRepeat(rows, rs[..|rs| - 1]);
    }
  }

  /** The collection that the builders of one processing share. */
  class TransactionMap {
    var rows: RecordMap

    constructor ()
      ensures rows == map[]
    {
      rows := map[];
    }

    method Add(r: TxRecord)
      modifies this
      ensures rows == AddRecord(old(rows), r)
    {
      if r.txid in rows {
        var existing := rows[r.txid];
        if existing.tags != r.tags {
          rows := rows[r.txid := existing.(tags := MergeTags(existing.tags, r.tags))];
        } else {
          assert rows[r.txid := existing] == rows;
        }
      } else {
        rows := rows[r.txid := r];
      }
    }
  }

  // ---------------------------------------------------------------- what the map ends up with

  /** A tag was added for `k` by one of the records. */
  ghost predicate TagAdded(rs: seq<TxRecord>, k: Bytes, tag: int) {
    exists i :: 0 <= i < |rs| && rs[i].txid == k && tag in rs[i].tags
  }

  ghost predicate Recorded(rs: seq<TxRecord>, k: Bytes) {
    exists i :: 0 <= i < |rs| && rs[i].txid == k
  }

  /** A tag set is the union of all tags added for the transaction. */
  lemma {:induction false} TagsAreUnions(rs: seq<TxRecord>, k: Bytes)
    ensures k in AddAll(map[], rs) <==> Recorded(rs, k)
    ensures k in AddAll(map[], rs) ==> AddAll(map[], rs)[k].txid == k
    ensures forall tag :: k in AddAll(map[], rs) ==> (tag in AddAll(map[], rs)[k].tags <==> TagAdded(rs, k, tag))
  {
    if rs == [] {
    } else {
      var front, last := rs[..|rs| - 1], rs[|rs| - 1];
      TagsAreUnions(front, k);
      var before, after := AddAll(map[], front), AddAll(map[], rs);
      assert Recorded(rs, k) <==> Recorded(front, k) || last.txid == k;
      forall tag ensures k in after ==> (tag in after[k].tags <==> TagAdded(rs, k, tag)) {
        assert TagAdded(rs, k, tag) <==> TagAdded(front, k, tag) || (last.txid == k && tag in last.tags);
        if last.txid == k && k in before {
          var merged := MergeTags(before[k].tags, last.tags);
          assert tag in merged <==> tag in Elements(merged);
          assert tag in before[k].tags <==> tag in Elements(before[k].tags);
          assert tag in last.tags <==> tag in Elements(last.tags);
        }
      }
    }
  }

  lemma SameRecordsSameRow(rs: seq<TxRecord>, qs: seq<TxRecord>, k: Bytes)
    requires forall r :: r in rs <==> r in qs
    ensures k in AddAll(map[], rs) <==> k in AddAll(map[], qs)
    ensures k in AddAll(map[], rs) ==> Elements(AddAll(map[], rs)[k].tags) == Elements(AddAll(map[], qs)[k].tags)
  {
    TagsAreUnions(rs, k);
    TagsAreUnions(qs, k);
    SameRecordsSameTags(rs, qs, k);
    SameRecordsSameTags(qs, rs, k);
    if k in AddAll(map[], rs) {
      var a, b := AddAll(map[], rs)[k].tags, AddAll(map[], qs)[k].tags;
      forall tag ensures tag in a <==> tag in b {
        assert tag in a <==> TagAdded(rs, k, tag);
        assert tag in b <==> TagAdded(qs, k, tag);
      }
    }
  }

  /** So the order in which the builders add records does not matter for the tag sets. */
  lemma TagsDoNotDependOnOrder(rs: seq<TxRecord>, qs: seq<TxRecord>)
    requires Elements(rs) == Elements(qs)
    ensures AddAll(map[], rs).Keys == AddAll(map[], qs).Keys
    ensures forall k :: k in AddAll(map[], rs) ==>
              Elements(AddAll(map[], rs)[k].tags) == Elements(AddAll(map[], qs)[k].tags)
  {
    assert forall r :: r in rs <==> r in Elements(rs);
    assert forall r :: r in qs <==> r in Elements(qs);
    forall k
      ensures k in AddAll(map[], rs) <==> k in AddAll(map[], qs)
      ensures k in AddAll(map[], rs) ==> Elements(AddAll(map[], rs)[k].tags) == Elements(AddAll(map[], qs)[k].tags)
    {
      SameRecordsSameRow(rs, qs, k);
    }
  }

  lemma SameRecordsSameTags(rs: seq<TxRecord>, qs: seq<TxRecord>, k: Bytes)
    requires forall r :: r in rs ==> r in qs
    ensures Recorded(rs, k) ==> Recorded(qs, k)
    ensures forall tag :: TagAdded(rs, k, tag) ==> TagAdded(qs, k, tag)
  {
    if Recorded(rs, k) {
      var i :| 0 <= i < |rs| && rs[i].txid == k;
      assert rs[i] in qs;
    }
    forall tag | TagAdded(rs, k, tag) ensures TagAdded(qs, k, tag) {
      var i :| 0 <= i < |rs| && rs[i].txid == k && tag in rs[i].tags;
      assert rs[i] in qs;
    }
  }

  ghost predicate HasColumns(r: TxRecord, flag: bool, fee: nat, vsize: nat) {
    r.sanctioned == flag && r.fee == fee && r.vsize == vsize
  }

  /** Merging changes nothing but tags. */
  lemma {:induction false} ColumnsAreKept(rs: seq<TxRecord>, k: Bytes, flag: bool, fee: nat, vsize: nat)
    requires forall i :: 0 <= i < |rs| && rs[i].txid == k ==> HasColumns(rs[i], flag, fee, vsize)
    ensures k in AddAll(map[], rs) ==> HasColumns(AddAll(map[], rs)[k], flag, fee, vsize)
  {
    if rs == [] {
    } else {
      ColumnsAreKept(rs[..|rs| - 1], k, flag, fee, vsize);
    }
  }

  // ---------------------------------------------------------------- requests of the builders

  /** One builder asks for the record of one transaction, flagged as conflicting or not. */
  datatype Request = Request(info: TxInfo, conflicting: bool)

  function RecordsFor(requests: seq<Request>, ctx: Context): seq<TxRecord> {
    if requests == [] then []
    else
      var last := requests[|requests| - 1];
      var front := RecordsFor(requests[..|requests| - 1], ctx);
      if ctx.decodes(last.info.tx) then front + [RecordOf(last.info, last.conflicting, ctx)] else front
  }

  lemma {:induction false} RecordsForConcat(rs: seq<Request>, more: seq<Request>, ctx: Context)
    ensures RecordsFor(rs + more, ctx) == RecordsFor(rs, ctx) + RecordsFor(more, ctx)
  {
    if more == [] {
      assert rs + more == rs;
    } else {
      var all := rs + more;
      assert all[..|all| - 1] == rs + more[..|more| - 1];
      RecordsForConcat(rs, more[..|more| - 1], ctx);
    }
  }

  lemma {:induction false} RecordsForMembers(requests: seq<Request>, ctx: Context, r: TxRecord)
    ensures r in RecordsFor(requests, ctx) <==>
            exists i :: 0 <= i < |requests| && ctx.decodes(requests[i].info.tx)
                        && r == RecordOf(requests[i].info, requests[i].conflicting, ctx)
  {
    if requests == [] {
    } else {
      RecordsForMembers(requests[..|requests| - 1], ctx, r);
    }
  }

  lemma {:induction false} RecordsForDoNotRepeat(requests: seq<Request>, ctx: Context)
    ensures RecordsDoNotRepeat(RecordsFor(requests, ctx))
  {
    if requests == [] {
    } else {
      var last := requests[|requests| - 1];
      RecordsForDoNotRepeat(requests[..|requests| - 1], ctx);
      TagsAreDistinct(last.info, last.conflicting, ctx);
    }
  }

  ghost predicate Requested(requests: seq<Request>, x: Txid) {
    exists i :: 0 <= i < |requests| && requests[i].info.txid == x
  }

  ghost predicate RequestedAsConflicting(requests: seq<Request>, x: Txid) {
    exists i :: 0 <= i < |requests| && requests[i].info.txid == x && requests[i].conflicting
  }

  /** Every request names a transaction by the entry that `entries` has for its txid. */
  ghost predicate DrawnFrom(requests: seq<Request>, entries: map<Txid, TxInfo>) {
    forall i :: 0 <= i < |requests| ==>
      requests[i].info.txid in entries && entries[requests[i].info.txid] == requests[i].info
  }

  /**
   * The outcome of all requests together, transaction by transaction: a requested transaction has a row
   * if and only if it decodes, it has the fee and size of its entry, it is tagged as conflicting if and only
   * if one request says so, and it is marked as sanctioned if and only if it has one of the two tags that say why.
   */
  lemma RequestsDecideRecord(requests: seq<Request>, entries: map<Txid, TxInfo>, ctx: Context, x: Txid)
    requires DrawnFrom(requests, entries)
    ensures Requested(requests, x) ==> x in entries
    ensures var rows := AddAll(map[], RecordsFor(requests, ctx));
            && (Reversed(x) in rows <==> Requested(requests, x) && ctx.decodes(entries[x].tx))
            && (Reversed(x) in rows ==>
                  var row := rows[Reversed(x)];
                  && row.txid == Reversed(x) && row.fee == entries[x].fee && row.vsize == entries[x].tx.vsize
                  && (CONFLICTING in row.tags <==> RequestedAsConflicting(requests, x))
                  && (row.sanctioned <==> TO_SANCTIONED in row.tags || FROM_SANCTIONED in row.tags))
  {
    var rs := RecordsFor(requests, ctx);
    TagsAreUnions(rs, Reversed(x));
    forall i | 0 <= i < |rs| && rs[i].txid == Reversed(x)
      ensures Requested(requests, x) && ctx.decodes(entries[x].tx)
      ensures HasColumns(rs[i], IsSanctioned(entries[x].tx, ctx.rules), entries[x].fee, entries[x].tx.vsize)
    {
      var q := RequestBehind(requests, ctx, rs[i]);
      ReversedInjective(q.info.txid, x);
    }
    if Requested(requests, x) && ctx.decodes(entries[x].tx) {
      ColumnsAreKept(
        rs, Reversed(x), IsSanctioned(entries[x].tx, ctx.rules), entries[x].fee, entries[x].tx.vsize);
      SomeRecord(requests, entries, ctx, x);
      TagsOfRequested(requests, entries, ctx, x);
    }
  }

  lemma RequestBehind(requests: seq<Request>, ctx: Context, r: TxRecord) returns (q: Request)
    requires r in RecordsFor(requests, ctx)
    ensures q in requests && ctx.decodes(q.info.tx) && r == RecordOf(q.info, q.conflicting, ctx)
  {
    RecordsForMembers(requests, ctx, r);
    var i :| 0 <= i < |requests| && ctx.decodes(requests[i].info.tx)
             && r == RecordOf(requests[i].info, requests[i].conflicting, ctx);
    q := requests[i];
  }

  lemma RecordOfRequest(requests: seq<Request>, ctx: Context, i: int)
    requires 0 <= i < |requests| && ctx.decodes(requests[i].info.tx)
    ensures RecordOf(requests[i].info, requests[i].conflicting, ctx) in RecordsFor(requests, ctx)
  {
    RecordsForMembers(requests, ctx, RecordOf(requests[i].info, requests[i].conflicting, ctx));
  }

  lemma SomeRecord(requests: seq<Request>, entries: map<Txid, TxInfo>, ctx: Context, x: Txid)
    requires DrawnFrom(requests, entries) && Requested(requests, x) && ctx.decodes(entries[x].tx)
    ensures Recorded(RecordsFor(requests, ctx), Reversed(x))
  {
    var i :| 0 <= i < |requests| && requests[i].info.txid == x;
    RecordOfRequest(requests, ctx, i);
  }

  lemma TagsOfRequested(requests: seq<Request>, entries: map<Txid, TxInfo>, ctx: Context, x: Txid)
    requires DrawnFrom(requests, entries) && Requested(requests, x) && ctx.decodes(entries[x].tx)
    ensures var rs := RecordsFor(requests, ctx);
            && (TagAdded(rs, Reversed(x), CONFLICTING) <==> RequestedAsConflicting(requests, x))
            && (TagAdded(rs, Reversed(x), TO_SANCTIONED) <==> IsToSanctioned(entries[x].tx, ctx.rules))
            && (TagAdded(rs, Reversed(x), FROM_SANCTIONED) <==> IsFromSanctioned(entries[x].tx, ctx.rules))
  {
    var rs := RecordsFor(requests, ctx);
    forall k, tag | 0 <= k < |rs| && rs[k].txid == Reversed(x) && tag in rs[k].tags
      ensures tag == CONFLICTING ==> RequestedAsConflicting(requests, x)
      ensures tag == TO_SANCTIONED ==> IsToSanctioned(entries[x].tx, ctx.rules)
      ensures tag == FROM_SANCTIONED ==> IsFromSanctioned(entries[x].tx, ctx.rules)
    {
      var q := RequestBehind(requests, ctx, rs[k]);
      ReversedInjective(q.info.txid, x);
      ImportantTags(q.info, q.conflicting, ctx);
    }
    forall i | 0 <= i < |requests| && requests[i].info.txid == x
      ensures requests[i].conflicting ==> TagAdded(rs, Reversed(x), CONFLICTING)
      ensures IsToSanctioned(entries[x].tx, ctx.rules) ==> TagAdded(rs, Reversed(x), TO_SANCTIONED)
      ensures IsFromSanctioned(entries[x].tx, ctx.rules) ==> TagAdded(rs, Reversed(x), FROM_SANCTIONED)
    {
      RecordOfRequest(requests, ctx, i);
      ImportantTags(requests[i].info, requests[i].conflicting, ctx);
    }
  }
}
