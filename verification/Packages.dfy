/** Package building: the right-to-left segmentation of a transaction list, package weights and feerates. */
module Packages {
  import opened Basics
  import opened Ledger

  /** A package as it is returned: its transactions from the last to the first. */
  type Package = seq<TxInfo>

  /** Both transactions spend an output of the listed one at `m`. */
  ghost predicate ShareParent(t: TxInfo, later: TxInfo, list: seq<TxInfo>, m: int) {
    0 <= m < |list| && SpendsFrom(t, list[m].tx.txid) && SpendsFrom(later, list[m].tx.txid)
  }

  /** What links a transaction to a later one: it is its parent, or the two share a parent of the list. */
  ghost predicate LinkedTo(t: TxInfo, later: TxInfo, list: seq<TxInfo>) {
    SpendsFrom(later, t.tx.txid) || exists m :: ShareParent(t, later, list, m)
  }

  ghost predicate LinkedToAny(t: TxInfo, run: seq<TxInfo>, list: seq<TxInfo>) {
    exists j :: 0 <= j < |run| && LinkedTo(t, run[j], list)
  }

  /** In list order: every transaction but the last is linked to a later one of the run. */
  ghost predicate IsRun(run: seq<TxInfo>, list: seq<TxInfo>) {
    run != [] && forall i :: 0 <= i < |run| - 1 ==> LinkedToAny(run[i], run[i + 1..], list)
  }

  /** Consecutive runs, each cut off from the transaction just before it. */
  ghost predicate IsSegmentation(runs: seq<seq<TxInfo>>, list: seq<TxInfo>) {
    && (forall k :: 0 <= k < |runs| ==> IsRun(runs[k], list))
    && (forall k {:trigger runs[k + 1]} :: 0 <= k < |runs| - 1 ==>
          IsRun(runs[k], list) && !LinkedToAny(runs[k][|runs[k]| - 1], runs[k + 1], list))
  }

  function Concat<T>(runs: seq<seq<T>>): seq<T> {
    if runs == [] then [] else Concat(runs[..|runs| - 1]) + runs[|runs| - 1]
  }

  function Txids(txns: seq<TxInfo>): set<Txid> {
    set i | 0 <= i < |txns| :: txns[i].tx.txid
  }

  // ---------------------------------------------------------------- uniqueness

  lemma LastRunReaches(runs: seq<seq<TxInfo>>, list: seq<TxInfo>, txns: seq<TxInfo>, a: int)
    requires IsSegmentation(runs, list) && Concat(runs) == txns && runs != []
    requires a == |txns| - |runs[|runs| - 1]|
    ensures 0 <= a < |txns| && txns[a..] == runs[|runs| - 1] && txns[..a] == Concat(runs[..|runs| - 1])
    ensures forall i :: a <= i < |txns| - 1 ==> LinkedToAny(txns[i], txns[i + 1..], list)
    ensures 0 < a ==> !LinkedToAny(txns[a - 1], txns[a..], list)
  {
    var front, last := Concat(runs[..|runs| - 1]), runs[|runs| - 1];
    assert txns == front + last;
    assert IsRun(last, list);
    forall i | a <= i < |txns| - 1 ensures LinkedToAny(txns[i], txns[i + 1..], list) {
      assert txns[i + 1..] == last[i - a + 1..];
      assert LinkedToAny(last[i - a], last[i - a + 1..], list);
    }
    if 0 < a {
      var k := |runs| - 2;
      assert k >= 0;
      assert runs[k + 1] == last;
      assert runs[..|runs| - 1][|runs| - 2] == runs[k];
      assert front == Concat(runs[..|runs| - 1][..|runs| - 2]) + runs[k];
      assert txns[a - 1] == runs[k][|runs[k]| - 1];
    }
  }

  /** No cut falls inside a stretch whose transactions are all linked to later ones. */
  lemma CutsLieOutsideRuns(txns: seq<TxInfo>, list: seq<TxInfo>, a: int, b: int)
    requires 0 <= a && 0 <= b < |txns|
    requires forall i :: a <= i < |txns| - 1 ==> LinkedToAny(txns[i], txns[i + 1..], list)
    requires 0 < b ==> !LinkedToAny(txns[b - 1], txns[b..], list)
    ensures b <= a
  {
    assert b > 0 ==> txns[b - 1 + 1..] == txns[b..];
  }

  lemma PrefixIsSegmentation(runs: seq<seq<TxInfo>>, list: seq<TxInfo>)
    requires IsSegmentation(runs, list) && runs != []
    ensures IsSegmentation(runs[..|runs| - 1], list)
  {
    var front := runs[..|runs| - 1];
    forall k {:trigger front[k + 1]} | 0 <= k < |front| - 1
      ensures IsRun(front[k], list) && !LinkedToAny(front[k][|front[k]| - 1], front[k + 1], list)
    {
      assert runs[k + 1] == front[k + 1];
    }
  }

  /** A list has only one such segmentation. */
  lemma {:induction false} SegmentationUnique(xs: seq<seq<TxInfo>>, ys: seq<seq<TxInfo>>, list: seq<TxInfo>)
    requires IsSegmentation(xs, list) && IsSegmentation(ys, list)
    requires Concat(xs) == Concat(ys)
    ensures xs == ys
  {
    var txns := Concat(xs);
    if xs == [] || ys == [] {
      if xs != [] {
        LastRunReaches(xs, list, txns, |txns| - |xs[|xs| - 1]|);
      } else if ys != [] {
        LastRunReaches(ys, list, txns, |txns| - |ys[|ys| - 1]|);
      }
    } else {
      var a, b := |txns| - |xs[|xs| - 1]|, |txns| - |ys[|ys| - 1]|;
      LastRunReaches(xs, list, txns, a);
      LastRunReaches(ys, list, txns, b);
      CutsLieOutsideRuns(txns, list, a, b);
      CutsLieOutsideRuns(txns, list, b, a);
      PrefixIsSegmentation(xs, list);
      PrefixIsSegmentation(ys, list);
      SegmentationUnique(xs[..|xs| - 1], ys[..|ys| - 1], list);
      assert xs == xs[..|xs| - 1] + [xs[|xs| - 1]] && ys == ys[..|ys| - 1] + [ys[|ys| - 1]];
    }
  }

  // ---------------------------------------------------------------- the algorithm

  /** The packages in list order: runs of the list. */
  function Runs(packages: seq<Package>): (runs: seq<seq<TxInfo>>)
    ensures |runs| == |packages|
    ensures forall k :: 0 <= k < |runs| ==> runs[k] == Reversed(packages[k])
  {
    seq(|packages|, k requires 0 <= k < |packages| => Reversed(packages[k]))
  }

  function ParentTxids(package: Package): set<Txid> {
    if package == [] then {} else ParentTxids(package[..|package| - 1]) + PrevTxids(package[|package| - 1])
  }

  /** The membership test of the loop. */
  predicate Belongs(t: TxInfo, package: Package, listed: set<Txid>) {
    var parents := ParentTxids(package);
    t.tx.txid in parents || exists x :: x in PrevTxids(t) && x in listed && x in parents
  }

  lemma {:induction false} ParentTxidsMembers(package: Package, x: Txid)
    ensures x in ParentTxids(package) <==> exists j :: 0 <= j < |package| && x in PrevTxids(package[j])
  {
    if package == [] {
    } else {
      ParentTxidsMembers(package[..|package| - 1], x);
    }
  }

  lemma BelongsMeansLinked(t: TxInfo, package: Package, list: seq<TxInfo>)
    ensures Belongs(t, package, Txids(list)) <==> LinkedToAny(t, Reversed(package), list)
  {
    var run := Reversed(package);
    ParentTxidsMembers(package, t.tx.txid);
    if Belongs(t, package, Txids(list)) {
      var x :| x in ParentTxids(package) && (x == t.tx.txid || (x in PrevTxids(t) && x in Txids(list)));
      ParentTxidsMembers(package, x);
      var j :| 0 <= j < |package| && x in PrevTxids(package[j]);
      TestMeansLinked(t, package[j], list);
      assert LinkedTo(t, run[|package| - 1 - j], list);
    }
    if LinkedToAny(t, run, list) {
      var j :| 0 <= j < |run| && LinkedTo(t, run[j], list);
      var later := package[|package| - 1 - j];
      TestMeansLinked(t, later, list);
      var x :| x in PrevTxids(later) && (x == t.tx.txid || (x in PrevTxids(t) && x in Txids(list)));
      ParentTxidsMembers(package, x);
    }
  }

  /** What the loop compares are txids, what links transactions is what they spend. */
  lemma TestMeansLinked(t: TxInfo, later: TxInfo, list: seq<TxInfo>)
    ensures LinkedTo(t, later, list) <==>
            exists x :: x in PrevTxids(later) && (x == t.tx.txid || (x in PrevTxids(t) && x in Txids(list)))
  {
    PrevTxidsAreSpent(later, t.tx.txid);
    forall m | 0 <= m < |list|
      ensures ShareParent(t, later, list, m) <==> list[m].tx.txid in PrevTxids(t) && list[m].tx.txid in PrevTxids(later)
    {
      PrevTxidsAreSpent(t, list[m].tx.txid);
      PrevTxidsAreSpent(later, list[m].tx.txid);
    }
    if exists x :: x in PrevTxids(later) && x in PrevTxids(t) && x in Txids(list) {
      var x :| x in PrevTxids(later) && x in PrevTxids(t) && x in Txids(list);
      var m :| 0 <= m < |list| && list[m].tx.txid == x;
      assert ShareParent(t, later, list, m);
    }
    if exists m :: ShareParent(t, later, list, m) {
      var m :| ShareParent(t, later, list, m);
      assert list[m].tx.txid in Txids(list);
    }
  }

  lemma {:induction false} ConcatPrepend<T>(run: seq<T>, runs: seq<seq<T>>)
    ensures Concat([run] + runs) == run + Concat(runs)
  {
    if runs == [] {
      assert [run] + runs == [run];
      assert Concat([run]) == Concat([run][..0]) + run;
    } else {
      var all := [run] + runs;
      assert all[..|all| - 1] == [run] + runs[..|runs| - 1];
      ConcatPrepend(run, runs[..|runs| - 1]);
    }
  }

  lemma ReversedAppend<T>(s: seq<T>, x: T)
    ensures Reversed(s + [x]) == [x] + Reversed(s)
  {
  }

  lemma RunGrowsLeft(t: TxInfo, run: seq<TxInfo>, list: seq<TxInfo>)
    requires IsRun(run, list) && LinkedToAny(t, run, list)
    ensures IsRun([t] + run, list)
  {
    var longer := [t] + run;
    forall i | 0 <= i < |longer| - 1 ensures LinkedToAny(longer[i], longer[i + 1..], list) {
      assert longer[i + 1..] == run[i..];
      assert i > 0 ==> run[i - 1 + 1..] == run[i..];
    }
  }

  lemma RunsCons(package: Package, done: seq<Package>)
    ensures Runs(Reversed(done + [package])) == [Reversed(package)] + Runs(Reversed(done))
  {
    ReversedAppend(done, package);
  }

  lemma SegmentationGrowsLeft(t: TxInfo, runs: seq<seq<TxInfo>>, list: seq<TxInfo>)
    requires IsSegmentation(runs, list) && (runs != [] ==> !LinkedToAny(t, runs[0], list))
    ensures IsSegmentation([[t]] + runs, list)
  {
    var longer := [[t]] + runs;
    forall k {:trigger longer[k + 1]} | 0 <= k < |longer| - 1
      ensures IsRun(longer[k], list) && !LinkedToAny(longer[k][|longer[k]| - 1], longer[k + 1], list)
    {
      assert longer[k + 1] == runs[k];
      if k > 0 {
        var m := k - 1;
        assert longer[k] == runs[m] && longer[k + 1] == runs[m + 1];
      } else {
        assert longer[k] == [t];
      }
    }
  }

  lemma FirstRunGrowsLeft(t: TxInfo, run: seq<TxInfo>, runs: seq<seq<TxInfo>>, list: seq<TxInfo>)
    requires IsSegmentation([run] + runs, list) && LinkedToAny(t, run, list)
    ensures IsSegmentation([[t] + run] + runs, list)
  {
    var shorter, longer := [run] + runs, [[t] + run] + runs;
    assert IsRun(shorter[0], list);
    RunGrowsLeft(t, run, list);
    forall k | 0 <= k < |longer| ensures IsRun(longer[k], list) {
      assert k > 0 ==> longer[k] == shorter[k];
    }
    forall k {:trigger longer[k + 1]} | 0 <= k < |longer| - 1
      ensures IsRun(longer[k], list) && !LinkedToAny(longer[k][|longer[k]| - 1], longer[k + 1], list)
    {
      assert longer[k + 1] == shorter[k + 1];
      assert longer[k][|longer[k]| - 1] == shorter[k][|shorter[k]| - 1];
    }
  }

  /** The part of the list already walked: an open run, if any, in front of closed runs. */
  ghost predicate Walked(part: seq<TxInfo>, current: Package, packages: seq<Package>, list: seq<TxInfo>) {
    var runs := Runs(Reversed(packages));
    if current == [] then packages == [] && part == []
    else IsSegmentation([Reversed(current)] + runs, list) && part == Reversed(current) + Concat(runs)
  }

  lemma WalkStarts(t: TxInfo, list: seq<TxInfo>)
    ensures Walked([t], [t], [], list)
  {
    SegmentationGrowsLeft(t, [], list);
    assert Runs(Reversed<Package>([])) == [];
  }

  lemma WalkJoins(t: TxInfo, part: seq<TxInfo>, current: Package, packages: seq<Package>, list: seq<TxInfo>)
    requires Walked(part, current, packages, list) && current != [] && Belongs(t, current, Txids(list))
    ensures Walked([t] + part, current + [t], packages, list)
  {
    BelongsMeansLinked(t, current, list);
    FirstRunGrowsLeft(t, Reversed(current), Runs(Reversed(packages)), list);
    ReversedAppend(current, t);
  }

  lemma WalkCloses(t: TxInfo, part: seq<TxInfo>, current: Package, packages: seq<Package>, list: seq<TxInfo>)
    requires Walked(part, current, packages, list) && current != [] && !Belongs(t, current, Txids(list))
    ensures Walked([t] + part, [t], packages + [current], list)
  {
    var run, runs := Reversed(current), Runs(Reversed(packages));
    BelongsMeansLinked(t, current, list);
    RunsCons(current, packages);
    SegmentationGrowsLeft(t, [run] + runs, list);
    ConcatPrepend(run, runs);
    assert Reversed([t]) == [t];
  }

  /** Walk the list from its end; a transaction joins the current package or closes it. */
  method BuildPackages(txns: seq<TxInfo>) returns (packages: seq<Package>)
    ensures IsSegmentation(Runs(packages), txns)
    ensures Concat(Runs(packages)) == txns
  {
    var listed := Txids(txns);
    packages := [];
    var current: Package := [];
    var n := |txns|;
    while n > 0
      invariant 0 <= n <= |txns|
      invariant Walked(txns[n..], current, packages, txns)
      invariant current == [] <==> n == |txns|
    {
      n := n - 1;
      var t := txns[n];
      ghost var part := txns[n + 1..];
      assert txns[n..] == [t] + part;
      if current == [] {
        WalkStarts(t, txns);
        current := [t];
      } else if Belongs(t, current, listed) {
        WalkJoins(t, part, current, packages, txns);
        current := current + [t];
      } else {
        WalkCloses(t, part, current, packages, txns);
        packages := packages + [current];
        current := [t];
      }
    }
    assert txns[0..] == txns;
    if current != [] {
      RunsCons(current, packages);
      ConcatPrepend(Reversed(current), Runs(Reversed(packages)));
      packages := packages + [current];
    }
    packages := Reversed(packages);
  }

  // ---------------------------------------------------------------- what a segmentation promises

  /** Any segmentation of the list, however found, is the one that `BuildPackages` returns. */
  lemma PackagesAreTheSegmentation(txns: seq<TxInfo>, packages: seq<Package>, runs: seq<seq<TxInfo>>)
    requires IsSegmentation(Runs(packages), txns) && Concat(Runs(packages)) == txns
    requires IsSegmentation(runs, txns) && Concat(runs) == txns
    ensures runs == Runs(packages)
  {
    SegmentationUnique(runs, Runs(packages), txns);
  }

  /** Run `k` holds the places `i` and `i + 1` of the list. */
  ghost predicate HoldsBoth(runs: seq<seq<TxInfo>>, i: nat, k: nat) {
    k < |runs| && |Concat(runs[..k])| <= i && i + 1 < |Concat(runs[..k + 1])|
  }

  lemma NoCutAfterLinked(txns: seq<TxInfo>, list: seq<TxInfo>, i: nat)
    requires i + 1 < |txns| && LinkedTo(txns[i], txns[i + 1], list)
    ensures LinkedToAny(txns[i], txns[i + 1..], list)
  {
    assert LinkedTo(txns[i], txns[i + 1..][0], list);
  }

  lemma LinkedIsNotCut(runs: seq<seq<TxInfo>>, list: seq<TxInfo>, i: nat)
    requires IsSegmentation(runs, list) && runs != [] && i + 1 < |Concat(runs)|
    requires LinkedTo(Concat(runs)[i], Concat(runs)[i + 1], list)
    ensures i + 1 != |Concat(runs[..|runs| - 1])|
  {
    var txns := Concat(runs);
    LastRunReaches(runs, list, txns, |txns| - |runs[|runs| - 1]|);
    NoCutAfterLinked(txns, list, i);
  }

  lemma HoldsBothInFront(runs: seq<seq<TxInfo>>, i: nat, k: nat)
    requires runs != [] && HoldsBoth(runs[..|runs| - 1], i, k)
    ensures HoldsBoth(runs, i, k)
  {
    var front := runs[..|runs| - 1];
    assert front[..k] == runs[..k] && front[..k + 1] == runs[..k + 1];
  }

  lemma HoldsBothAtEnd(runs: seq<seq<TxInfo>>, i: nat)
    requires runs != [] && |Concat(runs[..|runs| - 1])| <= i && i + 1 < |Concat(runs)|
    ensures HoldsBoth(runs, i, |runs| - 1)
  {
    assert runs[..|runs|] == runs;
  }

  /** Adjacent transactions that are linked, such as a parent and its child, are never split. */
  lemma {:induction false} LinkedNeighboursStayTogether(runs: seq<seq<TxInfo>>, list: seq<TxInfo>, i: nat)
    requires IsSegmentation(runs, list) && i + 1 < |Concat(runs)|
    requires LinkedTo(Concat(runs)[i], Concat(runs)[i + 1], list)
    ensures exists k: nat :: HoldsBoth(runs, i, k)
  {
    var front := runs[..|runs| - 1];
    LinkedIsNotCut(runs, list, i);
    if i + 1 < |Concat(front)| {
      PrefixIsSegmentation(runs, list);
      LinkedNeighboursStayTogether(front, list, i);
      var k: nat :| HoldsBoth(front, i, k);
      HoldsBothInFront(runs, i, k);
    } else {
      HoldsBothAtEnd(runs, i);
    }
  }

  /** A transaction that spends any output of the one just before it is never cut off from it. */
  lemma ParentAndChildStayTogether(txns: seq<TxInfo>, packages: seq<Package>, i: nat, v: U32)
    requires IsSegmentation(Runs(packages), txns) && Concat(Runs(packages)) == txns
    requires i + 1 < |txns| && Spends(txns[i + 1], OutPoint(txns[i].tx.txid, v))
    ensures exists k: nat :: HoldsBoth(Runs(packages), i, k)
  {
    assert SpendsFrom(txns[i + 1], txns[i].tx.txid);
    LinkedNeighboursStayTogether(Runs(packages), txns, i);
  }

  /** Nor are neighbours that both spend outputs of one transaction of the list. */
  lemma SiblingsStayTogether(txns: seq<TxInfo>, packages: seq<Package>, i: nat, m: nat, v: U32, w: U32)
    requires IsSegmentation(Runs(packages), txns) && Concat(Runs(packages)) == txns
    requires i + 1 < |txns| && m < |txns|
    requires Spends(txns[i], OutPoint(txns[m].tx.txid, v)) && Spends(txns[i + 1], OutPoint(txns[m].tx.txid, w))
    ensures exists k: nat :: HoldsBoth(Runs(packages), i, k)
  {
    assert ShareParent(txns[i], txns[i + 1], txns, m);
    LinkedNeighboursStayTogether(Runs(packages), txns, i);
  }

  /** A later transaction spends an output of `t`, or both spend outputs of one transaction of the list. */
  ghost predicate IsSpentWith(t: TxInfo, later: TxInfo, txns: seq<TxInfo>) {
    || (exists v: U32 :: Spends(later, OutPoint(t.tx.txid, v)))
    || (exists m, v: U32, w: U32 :: 0 <= m < |txns| && Spends(t, OutPoint(txns[m].tx.txid, v))
                                    && Spends(later, OutPoint(txns[m].tx.txid, w)))
  }

  lemma LinkedMeansSpent(t: TxInfo, later: TxInfo, txns: seq<TxInfo>)
    ensures LinkedTo(t, later, txns) <==> IsSpentWith(t, later, txns)
  {
    if LinkedTo(t, later, txns) && !SpendsFrom(later, t.tx.txid) {
      var m :| ShareParent(t, later, txns, m);
      var v: U32 :| Spends(t, OutPoint(txns[m].tx.txid, v));
      var w: U32 :| Spends(later, OutPoint(txns[m].tx.txid, w));
    }
    if IsSpentWith(t, later, txns) && !SpendsFrom(later, t.tx.txid) {
      var m, v: U32, w: U32 :| 0 <= m < |txns| && Spends(t, OutPoint(txns[m].tx.txid, v))
                               && Spends(later, OutPoint(txns[m].tx.txid, w));
      assert ShareParent(t, later, txns, m);
    }
  }

  ghost predicate IsSpentWithAny(t: TxInfo, run: seq<TxInfo>, txns: seq<TxInfo>) {
    exists j :: 0 <= j < |run| && IsSpentWith(t, run[j], txns)
  }

  lemma LinkedToAnyMeansSpent(t: TxInfo, run: seq<TxInfo>, txns: seq<TxInfo>)
    ensures LinkedToAny(t, run, txns) <==> IsSpentWithAny(t, run, txns)
  {
    forall j | 0 <= j < |run| ensures LinkedTo(t, run[j], txns) <==> IsSpentWith(t, run[j], txns) {
      LinkedMeansSpent(t, run[j], txns);
    }
  }

  /** Nothing else holds a package together: whatever is not last in its package is spent with a later member. */
  lemma MembersAreSpentTogether(txns: seq<TxInfo>, packages: seq<Package>, k: nat, i: nat)
    requires IsSegmentation(Runs(packages), txns) && k < |packages| && i + 1 < |packages[k]|
    ensures IsSpentWithAny(Runs(packages)[k][i], Runs(packages)[k][i + 1..], txns)
  {
    var run := Runs(packages)[k];
    assert IsRun(run, txns);
    LinkedToAnyMeansSpent(run[i], run[i + 1..], txns);
  }

  /** The transaction just in front of a package is spent with none of its members. */
  lemma NeighboursAreSpentApart(txns: seq<TxInfo>, packages: seq<Package>, k: nat)
    requires IsSegmentation(Runs(packages), txns) && k + 1 < |packages|
    ensures packages[k] != [] && packages[k + 1] != []
    ensures !IsSpentWithAny(Runs(packages)[k][|packages[k]| - 1], Runs(packages)[k + 1], txns)
  {
    var runs := Runs(packages);
    assert IsRun(runs[k], txns) && IsRun(runs[k + 1], txns);
    LinkedToAnyMeansSpent(runs[k][|runs[k]| - 1], runs[k + 1], txns);
  }

  function Sum(xs: seq<nat>): nat {
    if xs == [] then 0 else Sum(xs[..|xs| - 1]) + xs[|xs| - 1]
  }

  lemma {:induction false} SumConcat(xs: seq<nat>, ys: seq<nat>)
    ensures Sum(xs + ys) == Sum(xs) + Sum(ys)
  {
    if ys == [] {
      assert xs + ys == xs;
    } else {
      assert (xs + ys)[..|xs + ys| - 1] == xs + ys[..|ys| - 1];
      SumConcat(xs, ys[..|ys| - 1]);
    }
  }

  lemma {:induction false} SumReversed(xs: seq<nat>)
    ensures Sum(Reversed(xs)) == Sum(xs)
  {
    if xs == [] {
    } else {
      var front := xs[..|xs| - 1];
      assert xs == front + [xs[|xs| - 1]];
      ReversedAppend(front, xs[|xs| - 1]);
      SumReversed(front);
      SumConcat([xs[|xs| - 1]], Reversed(front));
      assert Sum([xs[|xs| - 1]]) == xs[|xs| - 1];
    }
  }

  function Weights(txns: seq<TxInfo>): (r: seq<nat>)
    ensures |r| == |txns| && forall i :: 0 <= i < |r| ==> r[i] == txns[i].tx.weight
  {
    seq(|txns|, i requires 0 <= i < |txns| => txns[i].tx.weight)
  }

  function Vsizes(txns: seq<TxInfo>): (r: seq<nat>)
    ensures |r| == |txns| && forall i :: 0 <= i < |r| ==> r[i] == txns[i].tx.vsize
  {
    seq(|txns|, i requires 0 <= i < |txns| => txns[i].tx.vsize)
  }

  function Fees(txns: seq<TxInfo>): (r: seq<nat>)
    ensures |r| == |txns| && forall i :: 0 <= i < |r| ==> r[i] == txns[i].fee
  {
    seq(|txns|, i requires 0 <= i < |txns| => txns[i].fee)
  }

  function Weight(package: Package): nat {
    Sum(Weights(package))
  }

  function PackageWeights(packages: seq<Package>): (r: seq<nat>)
    ensures |r| == |packages| && forall i :: 0 <= i < |r| ==> r[i] == Weight(packages[i])
  {
    seq(|packages|, i requires 0 <= i < |packages| => Weight(packages[i]))
  }

  /** A package of one transaction weighs what the transaction weighs. */
  lemma WeightOfOne(t: TxInfo)
    ensures Weight([t]) == t.tx.weight
  {
    assert Weights([t]) == [t.tx.weight];
    assert Sum([t.tx.weight]) == Sum([]) + t.tx.weight;
  }

  /** Package weights add up to the weight of the list the packages were cut from. */
  lemma {:induction false} WeightIsConserved(packages: seq<Package>)
    ensures Sum(PackageWeights(packages)) == Weight(Concat(Runs(packages)))
  {
    if packages == [] {
    } else {
      var front, last := packages[..|packages| - 1], packages[|packages| - 1];
      WeightIsConserved(front);
      assert PackageWeights(packages)[..|front|] == PackageWeights(front);
      assert Runs(packages)[..|front|] == Runs(front);
      var listed := Concat(Runs(front));
      assert Weights(listed + Reversed(last)) == Weights(listed) + Weights(Reversed(last));
      SumConcat(Weights(listed), Weights(Reversed(last)));
      assert Weights(Reversed(last)) == Reversed(Weights(last));
      SumReversed(Weights(last));
    }
  }

  /** Lengths add up too, which is the assertion at the end of package building. */
  lemma {:induction false} LengthIsConserved(packages: seq<Package>)
    ensures Sum(seq(|packages|, k requires 0 <= k < |packages| => |packages[k]|)) == |Concat(Runs(packages))|
  {
    if packages == [] {
    } else {
      var front, last := packages[..|packages| - 1], packages[|packages| - 1];
      LengthIsConserved(front);
      var lengths := seq(|packages|, k requires 0 <= k < |packages| => |packages[k]|);
      assert lengths[..|front|] == seq(|front|, k requires 0 <= k < |front| => |front[k]|);
      assert Runs(packages)[..|front|] == Runs(front);
    }
  }

  // ---------------------------------------------------------------- feerates

  /** What `fee` pays for each virtual byte. */
  function Feerate(fee: nat, vsize: nat): (r: real)
    requires vsize > 0
    ensures r * vsize as real == fee as real
  {
    fee as real / vsize as real
  }

  /** The feerate of a package, from the sums over its members. */
  function PackageFeerate(package: Package): real
    requires Sum(Vsizes(package)) > 0
  {
    Feerate(Sum(Fees(package)), Sum(Vsizes(package)))
  }

  /** A package of one transaction has the transaction's feerate. */
  lemma FeerateOfOne(t: TxInfo)
    requires t.tx.vsize > 0
    ensures Sum(Vsizes([t])) > 0 && PackageFeerate([t]) * t.tx.vsize as real == t.fee as real
  {
    assert Vsizes([t])[..0] == [] && Fees([t])[..0] == [];
  }

  lemma {:induction false} SumPositive(txns: seq<TxInfo>)
    requires txns != [] && forall i :: 0 <= i < |txns| ==> txns[i].tx.vsize > 0
    ensures Sum(Vsizes(txns)) > 0
  {
    var front := txns[..|txns| - 1];
    assert Vsizes(txns)[..|front|] == Vsizes(front);
  }

  /** A common rate `p / q` that every member meets is met by the totals too. */
  lemma {:induction false} MediantLower(txns: seq<TxInfo>, p: nat, q: nat)
    requires forall i :: 0 <= i < |txns| ==> p * txns[i].tx.vsize <= txns[i].fee * q
    ensures p * Sum(Vsizes(txns)) <= Sum(Fees(txns)) * q
  {
    if txns == [] {
    } else {
      var front, last := txns[..|txns| - 1], txns[|txns| - 1];
      MediantLower(front, p, q);
      assert Vsizes(txns)[..|front|] == Vsizes(front) && Fees(txns)[..|front|] == Fees(front);
      assert p * (Sum(Vsizes(front)) + last.tx.vsize) == p * Sum(Vsizes(front)) + p * last.tx.vsize;
      assert (Sum(Fees(front)) + last.fee) * q == Sum(Fees(front)) * q + last.fee * q;
    }
  }

  lemma {:induction false} MediantUpper(txns: seq<TxInfo>, p: nat, q: nat)
    requires forall i :: 0 <= i < |txns| ==> txns[i].fee * q <= p * txns[i].tx.vsize
    ensures Sum(Fees(txns)) * q <= p * Sum(Vsizes(txns))
  {
    if txns == [] {
    } else {
      var front, last := txns[..|txns| - 1], txns[|txns| - 1];
      MediantUpper(front, p, q);
      assert Vsizes(txns)[..|front|] == Vsizes(front) && Fees(txns)[..|front|] == Fees(front);
      assert p * (Sum(Vsizes(front)) + last.tx.vsize) == p * Sum(Vsizes(front)) + p * last.tx.vsize;
      assert (Sum(Fees(front)) + last.fee) * q == Sum(Fees(front)) * q + last.fee * q;
    }
  }

  lemma FeerateOrder(f: nat, v: nat, g: nat, w: nat)
    requires v > 0 && w > 0
    ensures Feerate(f, v) <= Feerate(g, w) <==> f * w <= g * v
  {
    var a, b := Feerate(f, v), Feerate(g, w);
    assert a * (v as real) == f as real && b * (w as real) == g as real;
    var x, y := v as real, w as real;
    assert (f * w) as real == a * x * y;
    assert (g * v) as real == b * x * y;
    ScaleOrder(a, b, x * y);
  }

  lemma ScaleOrder(a: real, b: real, s: real)
    requires s > 0.0
    ensures a <= b <==> a * s <= b * s
  {
    if a <= b {
      assert (b - a) * s >= 0.0;
    } else {
      assert (a - b) * s > 0.0;
    }
  }

  function FeerateOf(t: TxInfo): real
    requires t.tx.vsize > 0
  {
    Feerate(t.fee, t.tx.vsize)
  }

  ghost predicate IsCheapest(package: Package, lo: int) {
    && 0 <= lo < |package| && package[lo].tx.vsize > 0
    && forall i :: 0 <= i < |package| ==>
         package[i].tx.vsize > 0 && FeerateOf(package[lo]) <= FeerateOf(package[i])
  }

  ghost predicate IsDearest(package: Package, hi: int) {
    && 0 <= hi < |package| && package[hi].tx.vsize > 0
    && forall i :: 0 <= i < |package| ==>
         package[i].tx.vsize > 0 && FeerateOf(package[i]) <= FeerateOf(package[hi])
  }

  lemma FeerateAboveCheapest(package: Package, lo: int)
    requires IsCheapest(package, lo)
    ensures Sum(Vsizes(package)) > 0
    ensures FeerateOf(package[lo]) <= PackageFeerate(package)
  {
    SumPositive(package);
    var l := package[lo];
    forall i | 0 <= i < |package| ensures l.fee * package[i].tx.vsize <= package[i].fee * l.tx.vsize {
      FeerateOrder(l.fee, l.tx.vsize, package[i].fee, package[i].tx.vsize);
    }
    MediantLower(package, l.fee, l.tx.vsize);
    FeerateOrder(l.fee, l.tx.vsize, Sum(Fees(package)), Sum(Vsizes(package)));
  }

  lemma FeerateBelowDearest(package: Package, hi: int)
    requires IsDearest(package, hi)
    ensures Sum(Vsizes(package)) > 0
    ensures PackageFeerate(package) <= FeerateOf(package[hi])
  {
    SumPositive(package);
    var h := package[hi];
    forall i | 0 <= i < |package| ensures package[i].fee * h.tx.vsize <= h.fee * package[i].tx.vsize {
      FeerateOrder(package[i].fee, package[i].tx.vsize, h.fee, h.tx.vsize);
    }
    MediantUpper(package, h.fee, h.tx.vsize);
    FeerateOrder(Sum(Fees(package)), Sum(Vsizes(package)), h.fee, h.tx.vsize);
  }

  /** A package's feerate lies between those of its cheapest and its dearest member. */
  lemma FeerateIsBetweenMembers(package: Package, lo: int, hi: int)
    requires IsCheapest(package, lo) && IsDearest(package, hi)
    ensures Sum(Vsizes(package)) > 0
    ensures FeerateOf(package[lo]) <= PackageFeerate(package)
    ensures PackageFeerate(package) <= FeerateOf(package[hi])
  {
    FeerateAboveCheapest(package, lo);
    FeerateBelowDearest(package, hi);
  }
}
