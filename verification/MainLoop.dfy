/**
 * The main loop as it runs: templates in a mutable buffer, processings on the real tables. Every round is
 * a step of the template buffer, so what is proved about runs of steps holds for runs of the loop.
 */
module MainLoop {
  import opened Basics
  import opened Ledger
  import opened Sanctions
  import opened Records
  import opened Builders
  import opened TagStore
  import opened Store
  import opened Processing
  import opened TemplateBuffer

  /** What the node answers about txids and fees is consistent with its transactions. */
  ghost predicate Consistent(a: Answers, env: Environment, s: State) {
    && (a.template.Some? ==> NodeTxidsMatch(a.template.value))
    && (Step(s, a).1.Processed? ==> FeesCover(env.fees, Step(s, a).1.block))
  }

  ghost predicate FeesCover(fees: map<Txid, nat>, b: Block) {
    forall i :: 0 <= i < |b.txdata| ==> b.txdata[i].txid in fees
  }

  // ---------------------------------------------------------------- the record of a round

  /** The processing of a block, if a round got that far. */
  datatype Comparison = Comparison(
    block: Block, templates: seq<Template>, completed: bool, env: Environment, work: Work, transactions: RecordMap)

  /** The block row went in, and with it the new sanctioned outputs of the block. */
  ghost predicate OutputsStored(c: Comparison, s: TableStep) {
    s.added.Some? && s.part.utxos == c.work.bundle.utxos
  }

  ghost predicate AllKnown(c: Comparison) {
    OneSidedKnown(c.work.template, c.work.block, c.work.ctx, c.transactions)
  }

  /** What the rows of a new block are, whether or not they got stored. */
  ghost predicate Describes(c: Comparison, hash: Hash, row: BlockRow)
    requires c.templates != []
  {
    && (hash, row.id) == (c.block.hash, c.env.id)
    && AreNewUtxos(c.work.bundle.utxos, c.block, c.work.ctx.rules)
    && ReportsConflicts(c.work.bundle.conflicts, row.id, c.work.trace, c.work.template, c.work.block)
    && RowsTell(row, c.work, c.block, ChosenBy(c.work, c.templates), c.env)
  }

  /** The connection holds for the block row, and neither the block nor the id has a row. */
  ghost predicate AdmitsBlock(c: Comparison, before: BlockTable) {
    !c.env.blockFault && c.block.hash !in before && c.env.id !in IdsOf(before)
  }

  /**
   * It read its rules from the table, and the block row went in if it was admitted. From there on it completes,
   * and stores the outputs, unless a fault or an unknown transaction comes first.
   */
  ghost predicate ValidComparison(c: Comparison, s: TableStep) {
    && c.templates != [] && ReadsRules(c.work.ctx.rules, c.env, s.before.utxos)
    && (s.added.Some? <==> AdmitsBlock(c, s.before.blocks))
    && (s.added.Some? ==> Describes(c, s.added.value.0, s.added.value.1))
    && (s.added.Some? && c.env.fault.None? ==> (c.completed <==> AllKnown(c)))
    && (c.completed ==> s.added.Some? && s.part == WholeOf(c.work.bundle))
    && IsPartOf(s.part, c.work.bundle)
    && (s.added.Some? && SparesOutputs(c.env.fault) && AllKnown(c) ==> OutputsStored(c, s))
  }

  /** The record of a round: what it compared, if anything, and what it did to the tables. */
  datatype Round = Round(comparison: Option<Comparison>, step: TableStep)

  ghost predicate Documents(r: Round, e: Event) {
    && ValidTableStep(r.step)
    && match r.comparison
       case None => !e.Processed?
       case Some(c) =>
         && e.Processed? && (c.block, c.templates, c.completed) == (e.block, e.templates, e.completed)
         && ValidComparison(c, r.step)
  }

  /** The round's processing, if any, got these answers. */
  ghost predicate IsIn(r: Round, env: Environment) {
    r.comparison.Some? ==> r.comparison.value.env == env
  }

  ghost predicate AreIn(log: seq<Round>, envs: seq<Environment>) {
    |log| == |envs| && forall j {:trigger log[j]} :: 0 <= j < |log| ==> IsIn(log[j], envs[j])
  }

  lemma OneMoreIn(log: seq<Round>, envs: seq<Environment>, n: nat, r: Round)
    requires n < |envs| && AreIn(log, envs[..n]) && IsIn(r, envs[n])
    ensures AreIn(log + [r], envs[..n + 1])
  {
  }

  /** Every round starts with the block rows of the run. */
  ghost predicate StartsWithRows(log: seq<Round>, rows: set<Hash>, run: seq<Answers>) {
    && |log| == |run|
    && forall j {:trigger log[j]} :: 0 <= j < |log| ==> log[j].step.before.blocks.Keys == After(rows, run[..j]).blockRows
  }

  lemma LongerStarts(log: seq<Round>, rows: set<Hash>, run: seq<Answers>, r: Round, a: Answers)
    requires StartsWithRows(log, rows, run) && r.step.before.blocks.Keys == After(rows, run).blockRows
    ensures StartsWithRows(log + [r], rows, run + [a])
  {
    forall j | 0 <= j < |log + [r]|
      ensures (log + [r])[j].step.before.blocks.Keys == After(rows, (run + [a])[..j]).blockRows
    {
      assert (run + [a])[..j] == run[..j];
      assert j == |run| ==> run[..j] == run;
      assert j < |run| ==> log[j].step.before.blocks.Keys == After(rows, run[..j]).blockRows;
    }
  }

  function StepsOf(log: seq<Round>): (steps: seq<TableStep>)
    ensures |steps| == |log| && forall i :: 0 <= i < |log| ==> steps[i] == log[i].step
  {
    seq(|log|, i requires 0 <= i < |log| => log[i].step)
  }

  // ---------------------------------------------------------------- the loop

  class Daemon {
    var lastTemplates: seq<Template>
    const db: Database

    constructor (database: Database)
      ensures lastTemplates == [] && db == database
    {
      lastTemplates, db := [], database;
    }

    ghost predicate Valid()
      reads this, db, db.transactions
    {
      db.Closed() && forall t :: t in lastTemplates ==> NodeTxidsMatch(t)
    }

    ghost function Abstract(): State
      reads this, db
    {
      State(lastTemplates, db.blocks.Keys)
    }

    /** The call of `process`, which clears the templates if it gets to its end. */
    method CallProcess(b: Block, env: Environment)
      returns (completed: bool, ghost outcome: DbOutcome, ghost c: Comparison, ghost s: TableStep)
      requires Valid() && lastTemplates != [] && FeesCover(env.fees, b)
      modifies this, db, db.transactions
      ensures Valid() && Grows(old(db.transactions.rows), db.transactions.rows)
      ensures completed == Completes(old(db.blocks).Keys, b, outcome)
      ensures lastTemplates == if completed then [] else old(lastTemplates)
      ensures db.blocks.Keys == RowsAfter(old(db.blocks).Keys, b, outcome)
      ensures s.before == old(db.CoreTables()) && s.after == db.CoreTables() && ValidTableStep(s)
      ensures (c.block, c.templates, c.completed, c.env) == (b, old(lastTemplates), completed, env)
      ensures ValidComparison(c, s)
    {
      ghost var transactions := db.transactions.rows;
      ghost var wk;
      completed, wk, s, outcome := Process(b, lastTemplates, env, db);
      if s.added.Some? {
        BuiltReports(wk.bundle, env.id, wk.trace, wk.template, wk.block, wk.ctx);
      }
      c := Comparison(b, lastTemplates, completed, env, wk, transactions);
      if completed {
        Clear();
      }
    }

    method Clear()
      requires Valid()
      modifies this`lastTemplates
      ensures Valid() && lastTemplates == []
      ensures db.CoreTables() == old(db.CoreTables())
    {
      lastTemplates := [];
    }

    /** Nothing happened to the tables. */
    ghost function IdleRound(): (r: Round)
      requires Valid()
      reads this, db, db.transactions
      ensures ValidTableStep(r.step)
    {
      ClosedRefers(db.CoreTables(), db.transactions.rows.Keys);
      Round(None, TableStep(db.CoreTables(), db.CoreTables(), None, NOTHING))
    }

    method Push(current: Template)
      requires Valid() && NodeTxidsMatch(current)
      modifies this`lastTemplates
      ensures Valid() && lastTemplates == old(lastTemplates) + [current]
    {
      lastTemplates := lastTemplates + [current];
    }

    /** A processing; after that of a missed block the current template is pushed, whatever came of it. */
    method ProcessBlock(path: Path, b: Block, current: Template, env: Environment)
      returns (e: Event, ghost outcome: DbOutcome, ghost r: Round)
      requires Valid() && lastTemplates != [] && FeesCover(env.fees, b) && NodeTxidsMatch(current)
      modifies this, db, db.transactions
      ensures Valid() && Grows(old(db.transactions.rows), db.transactions.rows)
      ensures (Abstract(), e) == ProcessStep(old(Abstract()), path, b, outcome, current)
      ensures r.step.before == old(db.CoreTables()) && r.step.after == db.CoreTables() && Documents(r, e)
      ensures IsIn(r, env)
    {
      var compared := lastTemplates;
      var completed: bool;
      ghost var c, s;
      completed, outcome, c, s := CallProcess(b, env);
      r := Round(Some(c), s);
      var pushed := None;
      if path.MissedPath? {
        Push(current);
        pushed := Some(current);
      }
      e := Processed(path, b, compared, completed, pushed);
    }

    /** No new block: the template joins the others, and the oldest one may have to go. */
    method Keep(current: Template)
      requires Valid() && NodeTxidsMatch(current)
      modifies this`lastTemplates
      ensures Valid()
      ensures lastTemplates == Capped(old(lastTemplates) + [current])
    {
      Push(current);
      if |lastTemplates| > MAX_OLD_TEMPLATES {
        lastTemplates := lastTemplates[1..];
      }
    }

    /** The chain tip changed: find the block to compare with and process it. */
    method HandleNewTip(a: Answers, env: Environment)
      returns (e: Event, ghost outcome: DbOutcome, ghost r: Round)
      requires Valid() && Consistent(a, env, Abstract()) && a.template.Some? && lastTemplates != []
      requires Newest(lastTemplates).prevHash != a.template.value.prevHash
      modifies this, db, db.transactions
      ensures Valid() && Grows(old(db.transactions.rows), db.transactions.rows)
      ensures (Abstract(), e) == Step(old(Abstract()), a.(db := outcome))
      ensures r.step.before == old(db.CoreTables()) && r.step.after == db.CoreTables() && Documents(r, e)
      ensures IsIn(r, env)
    {
      e, outcome, r := Quiet, FailsBeforeBlockRow, IdleRound();
      if a.tipBlock.None? {
        return;
      }
      var previous := lastTemplates[|lastTemplates| - 1];
      if a.tipBlock.value.prevHash != previous.prevHash {
        if a.missedHash.None? || a.missedBlock.None? || !a.fees {
          return;
        }
        e, outcome, r := ProcessBlock(MissedPath, a.missedBlock.value, a.template.value, env);
      } else {
        if !a.fees {
          return;
        }
        e, outcome, r := ProcessBlock(TipPath, a.tipBlock.value, a.template.value, env);
      }
    }

    /**
     * One round of the endless loop. Whatever the database does, it is a step of the template buffer with
     * one of the outcomes that the buffer reckons with.
     */
    method Iterate(a: Answers, env: Environment)
      returns (e: Event, ghost outcome: DbOutcome, ghost r: Round)
      requires Valid() && Consistent(a, env, Abstract())
      modifies this, db, db.transactions
      ensures Valid() && Grows(old(db.transactions.rows), db.transactions.rows)
      ensures (Abstract(), e) == Step(old(Abstract()), a.(db := outcome))
      ensures r.step.before == old(db.CoreTables()) && r.step.after == db.CoreTables() && Documents(r, e)
      ensures IsIn(r, env)
    {
      e, outcome, r := Quiet, FailsBeforeBlockRow, IdleRound();
      if a.template.None? {
        return;
      }
      var current := a.template.value;
      if lastTemplates == [] {
        lastTemplates := [current];
        return Kept(current), outcome, r;
      }
      if lastTemplates[|lastTemplates| - 1].prevHash == current.prevHash {
        Keep(current);
        return Kept(current), outcome, r;
      }
      e, outcome, r := HandleNewTip(a, env);
    }
  }

  // ---------------------------------------------------------------- runs of the loop

  /** The run got these answers from the node; only what the database did is its own. */
  ghost predicate SameAnswers(run: seq<Answers>, answers: seq<Answers>) {
    |run| == |answers| && forall i :: 0 <= i < |run| ==> run[i] == answers[i].(db := run[i].db)
  }

  lemma OneMoreAnswer(run: seq<Answers>, answers: seq<Answers>, n: nat, outcome: DbOutcome)
    requires n < |answers| && SameAnswers(run, answers[..n])
    ensures SameAnswers(run + [answers[n].(db := outcome)], answers[..n + 1])
  {
  }

  /**
   * Whatever the database does, the fee answer of each round covers the block that the round processes, and
   * the node's txids are the computed ones.
   */
  ghost predicate ConsistentRun(rows: set<Hash>, answers: seq<Answers>, envs: seq<Environment>)
    requires |answers| == |envs|
  {
    forall run :: |run| < |answers| && SameAnswers(run, answers[..|run|]) ==>
      Consistent(answers[|run|], envs[|run|], After(rows, run))
  }

  /** Where the loop started. */
  datatype Start = Start(core: Core, records: RecordMap)

  ghost function StartOf(daemon: Daemon): Start
    reads daemon, daemon.db, daemon.db.transactions
  {
    Start(daemon.db.CoreTables(), daemon.db.transactions.rows)
  }

  /** What the loop has got to after the rounds of `run`. */
  ghost predicate Reached(daemon: Daemon, start: Start, run: seq<Answers>, log: seq<Round>)
    reads daemon, daemon.db, daemon.db.transactions
  {
    && daemon.Valid()
    && daemon.Abstract() == After(start.core.blocks.Keys, run)
    && Grows(start.records, daemon.db.transactions.rows)
    && IsLogOf(log, start.core.blocks.Keys, run, Documents)
    && StartsWithRows(log, start.core.blocks.Keys, run)
    && Connects(StepsOf(log), start.core, daemon.db.CoreTables())
  }

  lemma NothingReachedYet(daemon: Daemon)
    requires daemon.Valid() && daemon.lastTemplates == []
    ensures Reached(daemon, StartOf(daemon), [], [])
  {
  }

  method RunRound(
      daemon: Daemon, a: Answers, env: Environment, ghost start: Start, ghost run: seq<Answers>, ghost log: seq<Round>)
    returns (ghost outcome: DbOutcome, ghost r: Round)
    requires Consistent(a, env, daemon.Abstract()) && Reached(daemon, start, run, log)
    modifies daemon, daemon.db, daemon.db.transactions
    ensures Reached(daemon, start, run + [a.(db := outcome)], log + [r]) && IsIn(r, env)
  {
    var e;
    e, outcome, r := daemon.Iterate(a, env);
    AfterOneMore(start.core.blocks.Keys, run, a.(db := outcome));
    LongerLog(log, start.core.blocks.Keys, run, Documents, r, a.(db := outcome));
    LongerStarts(log, start.core.blocks.Keys, run, r, a.(db := outcome));
    LongerConnection(log, r, start.core);
  }

  /**
   * The loop for as many rounds as there are answers. The buffer and the block rows are those of a run of
   * steps, references are closed throughout, and no transaction loses a tag.
   */
  method Run(daemon: Daemon, answers: seq<Answers>, envs: seq<Environment>)
    returns (ghost run: seq<Answers>, ghost log: seq<Round>)
    requires daemon.Valid() && daemon.lastTemplates == [] && |answers| == |envs|
    requires ConsistentRun(daemon.db.blocks.Keys, answers, envs)
    modifies daemon, daemon.db, daemon.db.transactions
    ensures |run| == |answers| && SameAnswers(run, answers)
    ensures Reached(daemon, old(StartOf(daemon)), run, log) && AreIn(log, envs)
  {
    run, log := [], [];
    ghost var start := StartOf(daemon);
    NothingReachedYet(daemon);
    for n := 0 to |answers|
      invariant |run| == n && SameAnswers(run, answers[..n])
      invariant Reached(daemon, start, run, log) && AreIn(log, envs[..n])
    {
      ghost var outcome, r;
      outcome, r := RunRound(daemon, answers[n], envs[n], start, run, log);
      OneMoreAnswer(run, answers, n, outcome);
      OneMoreIn(log, envs, n, r);
      run, log := run + [answers[n].(db := outcome)], log + [r];
    }
    assert answers[..|answers|] == answers && envs[..|envs|] == envs;
  }

  /** Steps that lead from some tables to others. */
  ghost predicate Connects(steps: seq<TableStep>, before: Core, after: Core) {
    && IsTableLog(steps)
    && if steps == [] then before == after else steps[0].before == before && steps[|steps| - 1].after == after
  }

  lemma LongerConnection(log: seq<Round>, r: Round, start: Core)
    requires Connects(StepsOf(log), start, r.step.before) && ValidTableStep(r.step)
    ensures Connects(StepsOf(log + [r]), start, r.step.after)
  {
    LongerTableLog(StepsOf(log), r.step);
    assert StepsOf(log + [r]) == StepsOf(log) + [r.step];
  }

  // ---------------------------------------------------------------- progress of the loop

  /** Nothing fails in the database, and the id of the block row is a new one. */
  ghost predicate NothingFails(c: Comparison, before: BlockTable) {
    !c.env.blockFault && c.env.fault.None? && c.env.id !in IdsOf(before)
  }

  lemma CompletedIsOnRecord(
      daemon: Daemon, start: Start, run: seq<Answers>, log: seq<Round>, chain: seq<Hash>, tips: seq<Tips>, j: nat)
    requires Reached(daemon, start, run, log) && AppendOnly(chain, start.core.blocks.Keys, run, tips)
    requires j < |log| && EventAt(start.core.blocks.Keys, run, j).Processed?
    ensures log[j].comparison.Some? && ValidComparison(log[j].comparison.value, log[j].step)
    ensures var rows, c := start.core.blocks.Keys, log[j].comparison.value;
            && c.templates == After(rows, run[..j]).buffer
            && Newest(c.templates).height < |chain| && c.block.hash == chain[Newest(c.templates).height]
            && (Newest(c.templates).height in CompletedHeights(rows, run[..j + 1]) <==> c.completed)
  {
    var rows := start.core.blocks.Keys;
    assert Documents(log[j], EventAt(rows, run, j));
    ProcessesBlockAtNewestHeight(chain, rows, run, tips, j);
    NewestIsNotCompleted(chain, rows, run, tips, j);
    HeightsNext(rows, run, j);
  }

  /**
   * In every round of the loop that brings a new block and has its calls answered, the block at the newest
   * buffered height is compared. If nothing fails in the database, its height is completed if and only if the
   * block had no row and every transaction found on one side only decodes or is stored.
   */
  lemma LoopCompletesNewBlock(
      daemon: Daemon, start: Start, run: seq<Answers>, log: seq<Round>, chain: seq<Hash>, tips: seq<Tips>, j: nat)
    requires Reached(daemon, start, run, log) && AppendOnly(chain, start.core.blocks.Keys, run, tips)
    requires j < |run| && BringsNewBlock(start.core.blocks.Keys, run, j)
    requires CallsAnswered(run[j], Newest(After(start.core.blocks.Keys, run[..j]).buffer).prevHash)
    ensures log[j].comparison.Some?
    ensures var rows, c := start.core.blocks.Keys, log[j].comparison.value;
            var h := Newest(After(rows, run[..j]).buffer).height;
            && h < |chain| && c.block.hash == chain[h]
            && (NothingFails(c, log[j].step.before.blocks) ==>
                  (h in CompletedHeights(rows, run[..j + 1]) <==>
                     chain[h] !in rows && !GotRowBefore(rows, run, j, chain[h]) && AllKnown(c)))
  {
    var rows := start.core.blocks.Keys;
    NewBlockCompletesIff(chain, rows, run, tips, j);
    CompletedIsOnRecord(daemon, start, run, log, chain, tips, j);
    RowsAreAccountedFor(rows, run, j, log[j].comparison.value.block.hash);
    assert log[j].step.before.blocks.Keys == After(rows, run[..j]).blockRows;
  }

  /** A comparison with templates of the block's parent alone stores the row under the block's own height. */
  lemma StoredHeightIsOfBlock(
      daemon: Daemon, start: Start, run: seq<Answers>, log: seq<Round>, chain: seq<Hash>, tips: seq<Tips>, j: nat,
      hash: Hash, row: BlockRow)
    requires Reached(daemon, start, run, log) && AppendOnly(chain, start.core.blocks.Keys, run, tips)
    requires j < |log| && log[j].comparison.Some? && log[j].step.added == Some((hash, row))
    requires |log[j].comparison.value.templates| <= Trailing(start.core.blocks.Keys, run[..j])
    ensures row.height < |chain| && chain[row.height] == hash
  {
    var rows, c := start.core.blocks.Keys, log[j].comparison.value;
    assert Documents(log[j], EventAt(rows, run, j));
    ComparesTheParentIffTrailing(chain, rows, run, tips, j);
    assert ChosenBy(c.work, c.templates) in c.templates;
  }

  // ---------------------------------------------------------------- sanctioned outputs over a run

  lemma StoredBatchIsNew(c: Comparison, s: TableStep)
    requires ValidComparison(c, s) && OutputsStored(c, s)
    ensures AreNewUtxos(s.part.utxos, c.block, c.work.ctx.rules)
  {
  }

  lemma LaterSpenders(
      steps: seq<TableStep>, j: nat, earlier: Comparison, k: nat, later: Comparison, x: nat, i: U32,
      spender: Transaction)
    requires IsTableLog(steps) && j < k < |steps| && ValidTable(steps[0].before.utxos)
    requires ValidComparison(earlier, steps[j]) && OutputsStored(earlier, steps[j])
    requires ValidComparison(later, steps[k]) && !later.env.utxosUnreadable
    requires x < |earlier.block.txdata| && i < |earlier.block.txdata[x].outputs|
    requires PaysSanctioned(earlier.block.txdata[x].outputs[i], earlier.work.ctx.rules)
    requires OutPoint(earlier.block.txdata[x].txid, i) in spender.inputs
    ensures IsFromSanctioned(spender, later.work.ctx.rules)
  {
    UtxoLogOf(steps);
    StoredBatchIsNew(earlier, steps[j]);
    LaterRulesSeeStoredOutputs(
      UtxoStepsOf(steps), j, k, earlier.block, earlier.work.ctx.rules, x, i, later.env, later.work.ctx.rules, spender);
  }

  /**
   * Over a run of the loop without a rescan: once the outputs of a block are stored, even if its processing
   * then failed, every transaction that spends one which paid a sanctioned address counts as
   * from-sanctioned in each later processing that can read the table.
   */
  lemma LaterSpendersAreFromSanctioned(
      daemon: Daemon, start: Start, run: seq<Answers>, log: seq<Round>, j: nat, k: nat, x: nat, i: U32,
      spender: Transaction)
    requires Reached(daemon, start, run, log) && ValidTable(start.core.utxos)
    requires j < k < |log| && log[j].comparison.Some? && log[k].comparison.Some?
    requires OutputsStored(log[j].comparison.value, log[j].step) && !log[k].comparison.value.env.utxosUnreadable
    requires var earlier := log[j].comparison.value;
             && x < |earlier.block.txdata| && i < |earlier.block.txdata[x].outputs|
             && PaysSanctioned(earlier.block.txdata[x].outputs[i], earlier.work.ctx.rules)
             && OutPoint(earlier.block.txdata[x].txid, i) in spender.inputs
    ensures IsFromSanctioned(spender, log[k].comparison.value.work.ctx.rules)
  {
    var rows, steps := start.core.blocks.Keys, StepsOf(log);
    assert Documents(log[j], EventAt(rows, run, j)) && Documents(log[k], EventAt(rows, run, k));
    LaterSpenders(steps, j, log[j].comparison.value, k, log[k].comparison.value, x, i, spender);
  }
}
