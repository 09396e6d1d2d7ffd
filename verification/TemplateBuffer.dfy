/**
 * The main loop: a buffer of recent templates that is compared with each new block. Every iteration
 * is a step against an environment that answers, or fails to answer, the RPC calls and the database.
 */
module TemplateBuffer {
  import opened Basics
  import opened Ledger

  const MAX_OLD_TEMPLATES := 15

  /** How far the database lets one processing get. */
  datatype DbOutcome = FailsBeforeBlockRow | FailsAfterBlockRow | StoresEverything

  /** What the environment answers in one iteration; `None` and `false` are failed calls. */
  datatype Answers = Answers(
    template: Option<Template>,
    tipBlock: Option<Block>,
    missedHash: Option<Hash>,
    missedBlock: Option<Block>,
    fees: bool,
    db: DbOutcome)

  datatype State = State(buffer: seq<Template>, blockRows: set<Hash>)

  datatype Path = TipPath | MissedPath

  datatype Event =
    | Quiet
    | Kept(template: Template)
    | Processed(path: Path, block: Block, templates: seq<Template>, completed: bool, pushed: Option<Template>)

  // ---------------------------------------------------------------- one iteration, as a function

  /** The block table is keyed by hash, so a block that has a row is refused. */
  predicate Completes(blockRows: set<Hash>, b: Block, db: DbOutcome) {
    db.StoresEverything? && b.hash !in blockRows
  }

  function RowsAfter(blockRows: set<Hash>, b: Block, db: DbOutcome): set<Hash> {
    if db.FailsBeforeBlockRow? then blockRows else blockRows + {b.hash}
  }

  function Newest(buffer: seq<Template>): Template
    requires buffer != []
  {
    buffer[|buffer| - 1]
  }

  function Capped(buffer: seq<Template>): seq<Template> {
    if |buffer| > MAX_OLD_TEMPLATES then buffer[1..] else buffer
  }

  function ProcessStep(s: State, path: Path, b: Block, db: DbOutcome, current: Template): (State, Event) {
    var completed := Completes(s.blockRows, b, db);
    var kept := if completed then [] else s.buffer;
    var pushed := if path.MissedPath? then Some(current) else None;
    var buffer := if path.MissedPath? then kept + [current] else kept;
    (State(buffer, RowsAfter(s.blockRows, b, db)), Processed(path, b, s.buffer, completed, pushed))
  }

  function Step(s: State, a: Answers): (State, Event) {
    if a.template.None? then (s, Quiet)
    else
      var current := a.template.value;
      if s.buffer == [] then (s.(buffer := [current]), Kept(current))
      else
        var previous := Newest(s.buffer);
        if previous.prevHash == current.prevHash then
          (s.(buffer := Capped(s.buffer + [current])), Kept(current))
        else if a.tipBlock.None? then (s, Quiet)
        else if a.tipBlock.value.prevHash != previous.prevHash then
          if a.missedHash.None? || a.missedBlock.None? || !a.fees then (s, Quiet)
          else ProcessStep(s, MissedPath, a.missedBlock.value, a.db, current)
        else if !a.fees then (s, Quiet)
        else ProcessStep(s, TipPath, a.tipBlock.value, a.db, current)
  }

  // ---------------------------------------------------------------- runs

  /** The daemon starts with an empty buffer and whatever rows earlier runs left behind. */
  function After(rows: set<Hash>, run: seq<Answers>): State {
    if run == [] then State([], rows) else Step(After(rows, run[..|run| - 1]), run[|run| - 1]).0
  }

  function EventAt(rows: set<Hash>, run: seq<Answers>, i: int): Event
    requires 0 <= i < |run|
  {
    Step(After(rows, run[..i]), run[i]).1
  }

  lemma AfterNext(rows: set<Hash>, run: seq<Answers>, i: int)
    requires 0 <= i < |run|
    ensures After(rows, run[..i + 1]) == Step(After(rows, run[..i]), run[i]).0
  {
    assert run[..i + 1][..i] == run[..i];
  }

  ghost predicate CompletedAt(rows: set<Hash>, run: seq<Answers>, i: int)
    requires 0 <= i < |run|
  {
    var e := EventAt(rows, run, i);
    e.Processed? && e.completed
  }

  ghost predicate GivesUpAt(rows: set<Hash>, run: seq<Answers>, i: int) {
    0 <= i < |run| && GivesUpOnMissed(EventAt(rows, run, i))
  }

  /** An early return of `process` on the path that handles a missed block. */
  ghost predicate GivesUpOnMissed(e: Event) {
    e.Processed? && e.path.MissedPath? && !e.completed
  }

  lemma AfterOneMore(rows: set<Hash>, run: seq<Answers>, a: Answers)
    ensures After(rows, run + [a]) == Step(After(rows, run), a).0
  {
    assert (run + [a])[..|run|] == run;
  }

  /** A log has one record for every iteration, and it fits what happened there. */
  ghost predicate IsLogOf<R>(log: seq<R>, rows: set<Hash>, run: seq<Answers>, fits: (R, Event) -> bool) {
    && |log| == |run|
    && forall i {:trigger EventAt(rows, run, i)} :: 0 <= i < |run| ==> fits(log[i], EventAt(rows, run, i))
  }

  lemma LongerLog<R>(log: seq<R>, rows: set<Hash>, run: seq<Answers>, fits: (R, Event) -> bool, r: R, a: Answers)
    requires IsLogOf(log, rows, run, fits) && fits(r, Step(After(rows, run), a).1)
    ensures IsLogOf(log + [r], rows, run + [a], fits)
  {
    var longer := run + [a];
    forall i | 0 <= i < |longer| ensures fits((log + [r])[i], EventAt(rows, longer, i)) {
      assert longer[..i] == run[..i];
      assert i == |run| ==> run[..i] == run;
      assert i < |run| ==> fits(log[i], EventAt(rows, run, i));
    }
  }

  // ---------------------------------------------------------------- any chain behaviour

  lemma {:induction false} RowsOnlyGrow(rows: set<Hash>, run: seq<Answers>, i: int, j: int)
    requires 0 <= i <= j <= |run|
    ensures After(rows, run[..i]).blockRows <= After(rows, run[..j]).blockRows
    decreases j - i
  {
    if i == j {
    } else {
      RowsOnlyGrow(rows, run, i, j - 1);
      AfterNext(rows, run, j - 1);
    }
  }

  /** Iteration `i` processed the block `h` and got as far as its row, completed or not. */
  ghost predicate GotRow(rows: set<Hash>, run: seq<Answers>, i: int, h: Hash)
    requires 0 <= i < |run|
  {
    var e := EventAt(rows, run, i);
    e.Processed? && e.block.hash == h && !run[i].db.FailsBeforeBlockRow?
  }

  ghost predicate GotRowBefore(rows: set<Hash>, run: seq<Answers>, j: int, h: Hash)
    requires 0 <= j <= |run|
  {
    exists i :: 0 <= i < j && GotRow(rows, run, i, h)
  }

  lemma StepRows(s: State, a: Answers, h: Hash)
    ensures h in Step(s, a).0.blockRows <==>
            || h in s.blockRows
            || (Step(s, a).1.Processed? && Step(s, a).1.block.hash == h && !a.db.FailsBeforeBlockRow?)
  {
  }

  /** Rows come from earlier runs or from a processing of this one. */
  lemma {:induction false} RowsAreAccountedFor(rows: set<Hash>, run: seq<Answers>, j: int, h: Hash)
    requires 0 <= j <= |run|
    ensures h in After(rows, run[..j]).blockRows <==> h in rows || GotRowBefore(rows, run, j, h)
  {
    if j == 0 {
      assert run[..0] == [];
    } else {
      RowsAreAccountedFor(rows, run, j - 1, h);
      AfterNext(rows, run, j - 1);
      StepRows(After(rows, run[..j - 1]), run[j - 1], h);
      assert GotRowBefore(rows, run, j, h) <==> GotRowBefore(rows, run, j - 1, h) || GotRow(rows, run, j - 1, h);
    }
  }

  /**
   * Whatever the chain does, a processing completes if and only if the database stores everything and the
   * block has no row, neither from an earlier run nor from an earlier processing, completed or not.
   */
  lemma CompletesIffRowIsNew(rows: set<Hash>, run: seq<Answers>, j: int)
    requires 0 <= j < |run| && EventAt(rows, run, j).Processed?
    ensures var h := EventAt(rows, run, j).block.hash;
            CompletedAt(rows, run, j) <==>
            run[j].db.StoresEverything? && h !in rows && !GotRowBefore(rows, run, j, h)
  {
    RowsAreAccountedFor(rows, run, j, EventAt(rows, run, j).block.hash);
  }

  /** Early returns on the missed-block path since the buffer was last cleared. */
  function GaveUpSinceClear(rows: set<Hash>, run: seq<Answers>): nat {
    if run == [] then 0
    else
      var before := GaveUpSinceClear(rows, run[..|run| - 1]);
      match Step(After(rows, run[..|run| - 1]), run[|run| - 1]).1
      case Processed(path, _, _, completed, _) =>
        if completed then 0 else if path.MissedPath? then before + 1 else before
      case _ => before
  }

  /** The early returns among the rounds `i` to `j`, counted one by one. */
  ghost function GivingUp(rows: set<Hash>, run: seq<Answers>, i: nat, j: nat): nat
    requires i <= j
  {
    if i == j then 0 else GivingUp(rows, run, i, j - 1) + if GivesUpAt(rows, run, j - 1) then 1 else 0
  }

  lemma GaveUpNext(rows: set<Hash>, run: seq<Answers>, j: nat)
    requires j < |run| && !CompletedAt(rows, run, j)
    ensures GaveUpSinceClear(rows, run[..j + 1])
         == GaveUpSinceClear(rows, run[..j]) + if GivesUpAt(rows, run, j) then 1 else 0
  {
    assert run[..j + 1][..j] == run[..j];
  }

  lemma ClearForgets(rows: set<Hash>, run: seq<Answers>, j: nat)
    requires j < |run| && CompletedAt(rows, run, j)
    ensures GaveUpSinceClear(rows, run[..j + 1]) == 0
  {
    assert run[..j + 1][..j] == run[..j];
  }

  /** So they are the early returns of the rounds after the last completion. */
  lemma {:induction false} GaveUpIsCounted(rows: set<Hash>, run: seq<Answers>, i: nat, j: nat)
    requires i <= j <= |run| && (i > 0 ==> CompletedAt(rows, run, i - 1))
    requires forall k :: i <= k < j ==> !CompletedAt(rows, run, k)
    ensures GaveUpSinceClear(rows, run[..j]) == GivingUp(rows, run, i, j)
  {
    if i == j {
      if i > 0 {
        ClearForgets(rows, run, i - 1);
      }
    } else {
      GaveUpIsCounted(rows, run, i, j - 1);
      GaveUpNext(rows, run, j - 1);
    }
  }

  ghost predicate SamePrevHash(buffer: seq<Template>) {
    forall i, j :: 0 <= i < j < |buffer| ==> buffer[i].prevHash == buffer[j].prevHash
  }

  lemma StepLength(s: State, a: Answers)
    ensures Step(s, a).1.Processed? && Step(s, a).1.completed ==> |Step(s, a).0.buffer| <= 1
    ensures |Step(s, a).0.buffer| <= MAX_OLD_TEMPLATES || |Step(s, a).0.buffer| <= |s.buffer|
            || (GivesUpOnMissed(Step(s, a).1) && |Step(s, a).0.buffer| == |s.buffer| + 1)
  {
  }

  lemma StepPrevHash(s: State, a: Answers)
    requires SamePrevHash(s.buffer) || (Step(s, a).1.Processed? && Step(s, a).1.completed)
    requires !GivesUpOnMissed(Step(s, a).1)
    ensures SamePrevHash(Step(s, a).0.buffer)
  {
    var e, after := Step(s, a).1, Step(s, a).0.buffer;
    if e.Kept? && s.buffer != [] {
      var longer := s.buffer + [e.template];
      assert forall i :: 0 <= i < |longer| ==> longer[i].prevHash == e.template.prevHash;
      assert after == longer || after == longer[1..];
    }
  }

  /** The buffer exceeds its capacity by at most one template per such early return. */
  lemma {:induction false} BufferIsBounded(rows: set<Hash>, run: seq<Answers>)
    ensures |After(rows, run).buffer| <= MAX_OLD_TEMPLATES + GaveUpSinceClear(rows, run)
    ensures GaveUpSinceClear(rows, run) == 0 ==> SamePrevHash(After(rows, run).buffer)
  {
    if run == [] {
    } else {
      var s, a := After(rows, run[..|run| - 1]), run[|run| - 1];
      BufferIsBounded(rows, run[..|run| - 1]);
      StepLength(s, a);
      if GaveUpSinceClear(rows, run) == 0 {
        StepPrevHash(s, a);
      }
    }
  }

  function SomeTemplate(parent: Hash): Template {
    Template(parent, 0, 0, [])
  }

  function Parity(k: nat): Hash {
    if k % 2 == 0 then [0] else [1]
  }

  lemma ParityAlternates(k: nat)
    requires k > 0
    ensures Parity(k) != Parity(k - 1) && Parity(k - 1) != [2]
  {
    assert k % 2 != (k - 1) % 2;
    assert Parity(k)[0] != Parity(k - 1)[0] && Parity(k - 1)[0] != 2;
  }

  function Filling(n: nat): (run: seq<Answers>)
    ensures |run| == n
  {
    seq(n, _ => Answers(Some(SomeTemplate([0])), None, None, None, true, FailsBeforeBlockRow))
  }

  /** Fill the buffer, then miss blocks while the database is down. */
  function OverfullRun(k: nat): (run: seq<Answers>)
    ensures |run| == MAX_OLD_TEMPLATES + k
  {
    if k == 0 then Filling(MAX_OLD_TEMPLATES) else OverfullRun(k - 1) + [Missed(Parity(k))]
  }

  lemma {:induction false} FilledRun(rows: set<Hash>, n: nat)
    requires n <= MAX_OLD_TEMPLATES
    ensures After(rows, Filling(n)).buffer == seq(n, _ => SomeTemplate([0]))
    ensures GaveUpSinceClear(rows, Filling(n)) == 0
  {
    if n == 0 {
    } else {
      FilledRun(rows, n - 1);
      assert Filling(n)[..n - 1] == Filling(n - 1);
    }
  }

  function Missed(parent: Hash): Answers {
    var b := Block([], [2], 0, []);
    Answers(Some(SomeTemplate(parent)), Some(b), Some([]), Some(b), true, FailsBeforeBlockRow)
  }

  lemma MissedWhileDown(s: State, parent: Hash)
    requires s.buffer != [] && Newest(s.buffer).prevHash != parent && Newest(s.buffer).prevHash != [2]
    ensures Step(s, Missed(parent)).0.buffer == s.buffer + [SomeTemplate(parent)]
    ensures GivesUpOnMissed(Step(s, Missed(parent)).1)
  {
  }

  lemma MissedExtends(rows: set<Hash>, run: seq<Answers>, parent: Hash)
    requires After(rows, run).buffer != []
    requires Newest(After(rows, run).buffer).prevHash != parent && Newest(After(rows, run).buffer).prevHash != [2]
    ensures After(rows, run + [Missed(parent)]).buffer == After(rows, run).buffer + [SomeTemplate(parent)]
    ensures GaveUpSinceClear(rows, run + [Missed(parent)]) == GaveUpSinceClear(rows, run) + 1
  {
    var longer := run + [Missed(parent)];
    assert longer[..|longer| - 1] == run;
    MissedWhileDown(After(rows, run), parent);
  }

  /** A run that gave up `k` times reaches the bound. */
  ghost predicate AtBound(rows: set<Hash>, run: seq<Answers>, k: nat) {
    && GaveUpSinceClear(rows, run) == k
    && |After(rows, run).buffer| == MAX_OLD_TEMPLATES + k
    && Newest(After(rows, run).buffer).prevHash == Parity(k)
  }

  lemma OneMoreMissed(rows: set<Hash>, run: seq<Answers>, k: nat)
    requires k > 0 && AtBound(rows, run, k - 1)
    ensures AtBound(rows, run + [Missed(Parity(k))], k)
  {
    ParityAlternates(k);
    MissedExtends(rows, run, Parity(k));
  }

  lemma FilledIsAtBound(rows: set<Hash>)
    ensures AtBound(rows, Filling(MAX_OLD_TEMPLATES), 0)
  {
    FilledRun(rows, MAX_OLD_TEMPLATES);
  }

  /** The bound is exact: for every number of early returns some run reaches it. */
  lemma {:induction false} BoundIsReached(rows: set<Hash>, k: nat)
    ensures AtBound(rows, OverfullRun(k), k)
  {
    if k == 0 {
      FilledIsAtBound(rows);
    } else {
      BoundIsReached(rows, k - 1);
      OneMoreMissed(rows, OverfullRun(k - 1), k);
    }
  }

  /** Giving up on a missed block is what mixes templates with different parents. */
  lemma GivingUpMixesTemplates(s: State, a: Answers)
    requires GivesUpOnMissed(Step(s, a).1)
    ensures !SamePrevHash(Step(s, a).0.buffer)
  {
    var buffer := Step(s, a).0.buffer;
    assert buffer[|buffer| - 2].prevHash != buffer[|buffer| - 1].prevHash;
  }

  function TrailingAfter(n: nat, e: Event): nat {
    match e
    case Quiet => n
    case Kept(_) => n + 1
    case Processed(path, _, _, completed, _) => if path.MissedPath? then 1 else if completed then 0 else n
  }

  /** Templates pushed since the parent last changed; the oldest of them may have been dropped again. */
  function Trailing(rows: set<Hash>, run: seq<Answers>): nat {
    if run == [] then 0
    else
      var front := run[..|run| - 1];
      TrailingAfter(Trailing(rows, front), Step(After(rows, front), run[|run| - 1]).1)
  }

  /** The newest `n` templates share a parent, and the one before them has another. */
  ghost predicate SharedTail(buffer: seq<Template>, n: nat) {
    && (forall i :: 0 <= i < |buffer| && |buffer| - n <= i ==> buffer[i].prevHash == Newest(buffer).prevHash)
    && (|buffer| > n ==> n > 0 && buffer[|buffer| - n - 1].prevHash != Newest(buffer).prevHash)
  }

  lemma KeepingExtendsTail(buffer: seq<Template>, n: nat, t: Template)
    requires SharedTail(buffer, n) && (buffer != [] ==> Newest(buffer).prevHash == t.prevHash)
    ensures SharedTail(Capped(buffer + [t]), n + 1)
  {
    var longer := buffer + [t];
    assert SharedTail(longer, n + 1);
    assert |longer| > MAX_OLD_TEMPLATES ==> forall i :: 0 <= i < |longer[1..]| ==> longer[1..][i] == longer[i + 1];
  }

  lemma StepTail(s: State, a: Answers, n: nat)
    requires SharedTail(s.buffer, n)
    ensures SharedTail(Step(s, a).0.buffer, TrailingAfter(n, Step(s, a).1))
  {
    var e := Step(s, a).1;
    if e.Kept? {
      KeepingExtendsTail(s.buffer, n, e.template);
      assert s.buffer == [] ==> s.buffer + [e.template] == [e.template];
    }
  }

  lemma {:induction false} TrailingTail(rows: set<Hash>, run: seq<Answers>)
    ensures SharedTail(After(rows, run).buffer, Trailing(rows, run))
  {
    if run == [] {
    } else {
      var front := run[..|run| - 1];
      TrailingTail(rows, front);
      StepTail(After(rows, front), run[|run| - 1], Trailing(rows, front));
    }
  }

  lemma TailDecides(buffer: seq<Template>, n: nat)
    requires SharedTail(buffer, n)
    ensures SamePrevHash(buffer) <==> |buffer| <= n
  {
    if |buffer| > n {
      assert buffer[|buffer| - n - 1].prevHash != buffer[|buffer| - 1].prevHash;
    }
  }

  /** On every run the templates share a parent if and only if the buffer is no longer than its trailing part. */
  lemma SameParentIffTrailing(rows: set<Hash>, run: seq<Answers>)
    ensures SamePrevHash(After(rows, run).buffer) <==> |After(rows, run).buffer| <= Trailing(rows, run)
  {
    TrailingTail(rows, run);
    TailDecides(After(rows, run).buffer, Trailing(rows, run));
  }

  // ---------------------------------------------------------------- append-only chains

  /** The answer to a request for the block with hash `h`. */
  ghost predicate IsBlockOf(chain: seq<Hash>, b: Block, h: Hash) {
    b.hash == h && forall i :: Follows(chain, i, h, b.prevHash)
  }

  /** If `h` is at height `i`, then `prev` is just below it. */
  ghost predicate Follows(chain: seq<Hash>, i: int, h: Hash, prev: Hash) {
    1 <= i < |chain| && chain[i] == h ==> prev == chain[i - 1]
  }

  /** Lengths of the chain when the template and when the block hash were requested. */
  datatype Tips = Tips(atTemplate: nat, atHash: nat)

  /** Every answer that is given agrees with the chain as it was when the request arrived. */
  ghost predicate Truthful(chain: seq<Hash>, s: State, a: Answers, tips: Tips) {
    && 1 <= tips.atTemplate <= tips.atHash <= |chain|
    && (a.template.Some? ==>
          a.template.value.height == tips.atTemplate && a.template.value.prevHash == chain[tips.atTemplate - 1])
    && (a.template.Some? && a.tipBlock.Some? ==> IsBlockOf(chain, a.tipBlock.value, a.template.value.prevHash))
    && (s.buffer != [] && a.missedHash.Some? ==>
          Newest(s.buffer).height < tips.atHash && a.missedHash.value == chain[Newest(s.buffer).height])
    && (a.missedHash.Some? && a.missedBlock.Some? ==> IsBlockOf(chain, a.missedBlock.value, a.missedHash.value))
  }

  /** A run over a chain that only grows, towards `chain`, while calls and the database fail at will. */
  ghost predicate AppendOnly(chain: seq<Hash>, rows: set<Hash>, run: seq<Answers>, tips: seq<Tips>) {
    && NoDup(chain)
    && |tips| == |run|
    && (forall i {:trigger TruthfulAt(chain, rows, run, tips, i)} :: 0 <= i < |run| ==>
          TruthfulAt(chain, rows, run, tips, i))
    && (forall i, j {:trigger InOrder(tips, i, j)} :: 0 <= i < j < |run| ==> InOrder(tips, i, j))
  }

  ghost predicate TruthfulAt(chain: seq<Hash>, rows: set<Hash>, run: seq<Answers>, tips: seq<Tips>, i: int)
    requires |tips| == |run| && 0 <= i < |run|
  {
    Truthful(chain, After(rows, run[..i]), run[i], tips[i])
  }

  /** The chain does not shrink between two iterations. */
  ghost predicate InOrder(tips: seq<Tips>, i: int, j: int)
    requires 0 <= i < |tips| && 0 <= j < |tips|
  {
    tips[i].atHash <= tips[j].atTemplate
  }

  ghost predicate Fits(chain: seq<Hash>, t: Template, tip: nat) {
    1 <= t.height <= tip && t.height <= |chain| && t.prevHash == chain[t.height - 1]
  }

  /** Templates fit the chain up to `tip`. */
  ghost predicate FitsChain(chain: seq<Hash>, buffer: seq<Template>, tip: nat) {
    forall t :: t in buffer ==> Fits(chain, t, tip)
  }

  /** A step keeps, clears or drops the oldest of the templates, and may push the current one. */
  lemma StepShape(s: State, a: Answers)
    ensures var after := Step(s, a).0.buffer;
            || after == s.buffer
            || after == []
            || (a.template.Some? && (
                  || after == [a.template.value]
                  || after == s.buffer + [a.template.value]
                  || after == (s.buffer + [a.template.value])[1..]))
  {
  }

  lemma StepFitsChain(chain: seq<Hash>, s: State, a: Answers, tips: Tips, tip: nat)
    requires Truthful(chain, s, a, tips) && tip <= tips.atTemplate && FitsChain(chain, s.buffer, tip)
    ensures FitsChain(chain, Step(s, a).0.buffer, tips.atHash)
  {
    StepShape(s, a);
    forall t | t in Step(s, a).0.buffer ensures Fits(chain, t, tips.atHash) {
      if t in s.buffer {
        assert Fits(chain, t, tip);
      }
    }
  }

  function TipBefore(tips: seq<Tips>, i: nat): nat
    requires i <= |tips|
  {
    if i == 0 then 0 else tips[i - 1].atHash
  }

  lemma StepIsTruthful(chain: seq<Hash>, rows: set<Hash>, run: seq<Answers>, tips: seq<Tips>, i: nat)
    requires AppendOnly(chain, rows, run, tips) && i < |run|
    ensures Truthful(chain, After(rows, run[..i]), run[i], tips[i]) && TipBefore(tips, i) <= tips[i].atTemplate
  {
    assert TruthfulAt(chain, rows, run, tips, i);
    assert i > 0 ==> InOrder(tips, i - 1, i);
  }

  lemma {:induction false} BufferFitsChain(
      chain: seq<Hash>, rows: set<Hash>, run: seq<Answers>, tips: seq<Tips>, i: nat)
    requires AppendOnly(chain, rows, run, tips) && i <= |run|
    ensures FitsChain(chain, After(rows, run[..i]).buffer, TipBefore(tips, i))
  {
    if i == 0 {
    } else {
      BufferFitsChain(chain, rows, run, tips, i - 1);
      AfterNext(rows, run, i - 1);
      StepIsTruthful(chain, rows, run, tips, i - 1);
      StepFitsChain(chain, After(rows, run[..i - 1]), run[i - 1], tips[i - 1], TipBefore(tips, i - 1));
    }
  }

  /** The block on top of the newest template's parent is the one at its height. */
  lemma ChildOfParent(chain: seq<Hash>, b: Block, n: nat, p: nat)
    requires NoDup(chain) && 1 <= p < n <= |chain|
    requires IsBlockOf(chain, b, chain[n - 1]) && b.prevHash == chain[p - 1]
    ensures n == p + 1
  {
    assert Follows(chain, n - 1, b.hash, b.prevHash);
  }

  lemma StepProcessesNewest(chain: seq<Hash>, s: State, a: Answers, tips: Tips, tip: nat)
    requires NoDup(chain) && Truthful(chain, s, a, tips) && tip <= tips.atTemplate && FitsChain(chain, s.buffer, tip)
    requires Step(s, a).1.Processed?
    ensures s.buffer != [] && Newest(s.buffer).height < tips.atHash
    ensures Step(s, a).1.block.hash == chain[Newest(s.buffer).height]
    ensures Step(s, a).1.block.prevHash == Newest(s.buffer).prevHash
    ensures forall t :: Step(s, a).1.pushed == Some(t) ==> Newest(s.buffer).height < t.height
  {
    var newest := s.buffer[|s.buffer| - 1];
    var p, n := newest.height, tips.atTemplate;
    assert Fits(chain, newest, tip);
    if Step(s, a).1.path.TipPath? {
      ChildOfParent(chain, a.tipBlock.value, n, p);
    } else {
      assert Follows(chain, p, a.missedBlock.value.hash, a.missedBlock.value.prevHash);
    }
  }

  /** With the chain append-only, the processed block is the one at the newest buffered height. */
  lemma ProcessesBlockAtNewestHeight(chain: seq<Hash>, rows: set<Hash>, run: seq<Answers>, tips: seq<Tips>, i: nat)
    requires AppendOnly(chain, rows, run, tips) && i < |run| && EventAt(rows, run, i).Processed?
    ensures EventAt(rows, run, i).templates != []
    ensures Newest(EventAt(rows, run, i).templates).height < tips[i].atHash <= |chain|
    ensures EventAt(rows, run, i).block.hash == chain[Newest(EventAt(rows, run, i).templates).height]
    ensures EventAt(rows, run, i).block.prevHash == Newest(EventAt(rows, run, i).templates).prevHash
  {
    BufferFitsChain(chain, rows, run, tips, i);
    StepIsTruthful(chain, rows, run, tips, i);
    StepProcessesNewest(chain, After(rows, run[..i]), run[i], tips[i], TipBefore(tips, i));
  }

  ghost predicate AllAbove(buffer: seq<Template>, h: nat) {
    forall t :: t in buffer ==> h < t.height
  }

  lemma StepStaysAbove(chain: seq<Hash>, s: State, a: Answers, tips: Tips, h: nat)
    requires Truthful(chain, s, a, tips) && h < tips.atTemplate && AllAbove(s.buffer, h)
    ensures AllAbove(Step(s, a).0.buffer, h)
  {
    StepShape(s, a);
  }

  lemma CompletionLeavesBehind(chain: seq<Hash>, s: State, a: Answers, tips: Tips, tip: nat)
    requires NoDup(chain) && Truthful(chain, s, a, tips) && tip <= tips.atTemplate && FitsChain(chain, s.buffer, tip)
    requires Step(s, a).1.Processed? && Step(s, a).1.completed
    ensures s.buffer != [] && AllAbove(Step(s, a).0.buffer, Newest(s.buffer).height)
  {
    StepProcessesNewest(chain, s, a, tips, tip);
  }

  ghost function HeightAt(rows: set<Hash>, run: seq<Answers>, i: nat): nat
    requires i < |run| && EventAt(rows, run, i).Processed? && EventAt(rows, run, i).templates != []
  {
    Newest(EventAt(rows, run, i).templates).height
  }

  /** Once a height is completed, only higher templates are ever buffered. */
  lemma CompletedHeightsAreLeftBehind(
      chain: seq<Hash>, rows: set<Hash>, run: seq<Answers>, tips: seq<Tips>, i: nat, j: nat)
    requires AppendOnly(chain, rows, run, tips) && i < j <= |run| && CompletedAt(rows, run, i)
    ensures EventAt(rows, run, i).templates != [] && HeightAt(rows, run, i) < tips[i].atHash
    ensures AllAbove(After(rows, run[..j]).buffer, HeightAt(rows, run, i))
  {
    ProcessesBlockAtNewestHeight(chain, rows, run, tips, i);
    HeightsNext(rows, run, i);
    CompletedHeightsStay(rows, run, i + 1, j, HeightAt(rows, run, i));
    CompletedAreLeftBehind(chain, rows, run, tips, j);
    assert BelowAll(HeightAt(rows, run, i), After(rows, run[..j]).buffer, TipBefore(tips, j));
  }

  lemma NextCompletes(rows: set<Hash>, run: seq<Answers>, j: nat, h: nat)
    requires j < |run| && h in CompletedHeights(rows, run[..j])
    ensures h in CompletedHeights(rows, run[..j + 1])
  {
    HeightsNext(rows, run, j);
  }

  lemma {:induction false} CompletedHeightsStay(rows: set<Hash>, run: seq<Answers>, i: nat, j: nat, h: nat)
    requires i <= j <= |run| && h in CompletedHeights(rows, run[..i])
    ensures h in CompletedHeights(rows, run[..j])
    decreases j - i
  {
    if i == j {
    } else {
      NextCompletes(rows, run, i, h);
      CompletedHeightsStay(rows, run, i + 1, j, h);
    }
  }

  /** Completed heights strictly increase, so no block of the chain is completed twice. */
  lemma CompletedHeightsIncrease(
      chain: seq<Hash>, rows: set<Hash>, run: seq<Answers>, tips: seq<Tips>, i: nat, j: nat)
    requires AppendOnly(chain, rows, run, tips) && i < j < |run|
    requires CompletedAt(rows, run, i) && CompletedAt(rows, run, j)
    ensures EventAt(rows, run, i).templates != [] && EventAt(rows, run, j).templates != []
    ensures HeightAt(rows, run, i) < HeightAt(rows, run, j)
    ensures EventAt(rows, run, i).block.hash != EventAt(rows, run, j).block.hash
  {
    ProcessesBlockAtNewestHeight(chain, rows, run, tips, i);
    ProcessesBlockAtNewestHeight(chain, rows, run, tips, j);
    CompletedHeightsAreLeftBehind(chain, rows, run, tips, i, j);
  }

  // ---------------------------------------------------------------- giving up on a missed block

  /** None of the first `i` iterations returned early on the missed-block path. */
  ghost predicate NeverGivesUp(rows: set<Hash>, run: seq<Answers>, i: int)
    requires 0 <= i <= |run|
  {
    forall k :: 0 <= k < i ==> !GivesUpOnMissed(EventAt(rows, run, k))
  }

  function StoredBy(e: Event): set<nat> {
    match e
    case Kept(t) => {t.height}
    case Processed(_, _, _, _, Some(t)) => {t.height}
    case _ => {}
  }

  function CompletedBy(e: Event): set<nat> {
    if e.Processed? && e.completed && e.templates != [] then {Newest(e.templates).height} else {}
  }

  /** Heights of all templates ever stored in the buffer. */
  function StoredHeights(rows: set<Hash>, run: seq<Answers>): set<nat> {
    if run == [] then {}
    else StoredHeights(rows, run[..|run| - 1]) + StoredBy(Step(After(rows, run[..|run| - 1]), run[|run| - 1]).1)
  }

  /** Heights whose processing reached the final clear. */
  function CompletedHeights(rows: set<Hash>, run: seq<Answers>): set<nat> {
    if run == [] then {}
    else CompletedHeights(rows, run[..|run| - 1]) + CompletedBy(Step(After(rows, run[..|run| - 1]), run[|run| - 1]).1)
  }

  function BufferedHeights(s: State): set<nat> {
    if s.buffer == [] then {} else {Newest(s.buffer).height}
  }

  /** All templates of the buffer are for one height and one parent. */
  ghost predicate OneHeight(buffer: seq<Template>) {
    forall t :: t in buffer ==> t.height == Newest(buffer).height && t.prevHash == Newest(buffer).prevHash
  }

  lemma StepKeepsOneHeight(chain: seq<Hash>, s: State, a: Answers, tips: Tips, tip: nat)
    requires NoDup(chain) && Truthful(chain, s, a, tips) && tip <= tips.atTemplate && FitsChain(chain, s.buffer, tip)
    requires OneHeight(s.buffer) && !GivesUpOnMissed(Step(s, a).1)
    ensures OneHeight(Step(s, a).0.buffer)
    ensures StoredBy(Step(s, a).1) + BufferedHeights(s) == CompletedBy(Step(s, a).1) + BufferedHeights(Step(s, a).0)
  {
    var e, after := Step(s, a).1, Step(s, a).0.buffer;
    if e.Kept? && s.buffer != [] {
      var longer := s.buffer + [e.template];
      var p, n := Newest(s.buffer).height, e.template.height;
      assert Fits(chain, s.buffer[|s.buffer| - 1], tip);
      assert p == n by {
        assert chain[p - 1] == chain[n - 1];
      }
      assert forall t :: t in longer ==> t.height == n && t.prevHash == e.template.prevHash;
      assert after == longer || after == longer[1..];
    }
  }

  /** Every stored height is completed or being collected, and nothing else is completed. */
  ghost predicate Balanced(stored: set<nat>, completed: set<nat>, s: State) {
    stored == completed + BufferedHeights(s)
  }

  ghost predicate HeightsAddUp(rows: set<Hash>, run: seq<Answers>) {
    Balanced(StoredHeights(rows, run), CompletedHeights(rows, run), After(rows, run))
  }

  lemma HeightsNext(rows: set<Hash>, run: seq<Answers>, i: int)
    requires 0 <= i < |run|
    ensures StoredHeights(rows, run[..i + 1]) == StoredHeights(rows, run[..i]) + StoredBy(EventAt(rows, run, i))
    ensures CompletedHeights(rows, run[..i + 1])
         == CompletedHeights(rows, run[..i]) + CompletedBy(EventAt(rows, run, i))
  {
    assert run[..i + 1][..i] == run[..i];
  }

  lemma StepKeepsBalance(
      chain: seq<Hash>, s: State, a: Answers, tips: Tips, tip: nat, stored: set<nat>, completed: set<nat>)
    requires NoDup(chain) && Truthful(chain, s, a, tips) && tip <= tips.atTemplate && FitsChain(chain, s.buffer, tip)
    requires OneHeight(s.buffer) && !GivesUpOnMissed(Step(s, a).1) && Balanced(stored, completed, s)
    ensures OneHeight(Step(s, a).0.buffer)
    ensures Balanced(stored + StoredBy(Step(s, a).1), completed + CompletedBy(Step(s, a).1), Step(s, a).0)
  {
    StepKeepsOneHeight(chain, s, a, tips, tip);
  }

  lemma {:induction false} HeightsAddUpWithoutGivingUp(
      chain: seq<Hash>, rows: set<Hash>, run: seq<Answers>, tips: seq<Tips>, i: nat)
    requires AppendOnly(chain, rows, run, tips) && i <= |run| && NeverGivesUp(rows, run, i)
    ensures OneHeight(After(rows, run[..i]).buffer)
    ensures HeightsAddUp(rows, run[..i])
  {
    if i == 0 {
      assert run[..0] == [];
    } else {
      var front := run[..i - 1];
      HeightsAddUpWithoutGivingUp(chain, rows, run, tips, i - 1);
      AfterNext(rows, run, i - 1);
      HeightsNext(rows, run, i - 1);
      BufferFitsChain(chain, rows, run, tips, i - 1);
      assert !GivesUpOnMissed(EventAt(rows, run, i - 1));
      StepIsTruthful(chain, rows, run, tips, i - 1);
      StepKeepsBalance(chain, After(rows, front), run[i - 1], tips[i - 1], TipBefore(tips, i - 1),
                       StoredHeights(rows, front), CompletedHeights(rows, front));
    }
  }

  ghost predicate AllStored(buffer: seq<Template>, stored: set<nat>) {
    forall t :: t in buffer ==> t.height in stored
  }

  lemma StepStores(s: State, a: Answers, stored: set<nat>)
    requires AllStored(s.buffer, stored)
    ensures AllStored(Step(s, a).0.buffer, stored + StoredBy(Step(s, a).1))
  {
  }

  lemma NextStores(rows: set<Hash>, run: seq<Answers>, i: nat)
    requires i < |run| && AllStored(After(rows, run[..i]).buffer, StoredHeights(rows, run[..i]))
    ensures AllStored(After(rows, run[..i + 1]).buffer, StoredHeights(rows, run[..i + 1]))
  {
    AfterNext(rows, run, i);
    HeightsNext(rows, run, i);
    StepStores(After(rows, run[..i]), run[i], StoredHeights(rows, run[..i]));
  }

  lemma {:induction false} BufferedHeightsWereStored(rows: set<Hash>, run: seq<Answers>, i: nat)
    requires i <= |run|
    ensures AllStored(After(rows, run[..i]).buffer, StoredHeights(rows, run[..i]))
  {
    if i == 0 {
      assert run[..0] == [];
    } else {
      BufferedHeightsWereStored(rows, run, i - 1);
      NextStores(rows, run, i - 1);
    }
  }

  /** Completed heights lie below the tip and below everything buffered. */
  ghost predicate LeftBehind(completed: set<nat>, buffer: seq<Template>, tip: nat) {
    forall h {:trigger BelowAll(h, buffer, tip)} :: h in completed ==> BelowAll(h, buffer, tip)
  }

  ghost predicate BelowAll(h: nat, buffer: seq<Template>, tip: nat) {
    h < tip && AllAbove(buffer, h)
  }

  lemma StepLeavesBehind(chain: seq<Hash>, s: State, a: Answers, tips: Tips, tip: nat, completed: set<nat>)
    requires NoDup(chain) && Truthful(chain, s, a, tips) && tip <= tips.atTemplate && FitsChain(chain, s.buffer, tip)
    requires LeftBehind(completed, s.buffer, tip)
    ensures LeftBehind(completed + CompletedBy(Step(s, a).1), Step(s, a).0.buffer, tips.atHash)
  {
    forall h | h in completed + CompletedBy(Step(s, a).1)
      ensures BelowAll(h, Step(s, a).0.buffer, tips.atHash)
    {
      if h in completed {
        assert BelowAll(h, s.buffer, tip);
        StepStaysAbove(chain, s, a, tips, h);
      } else {
        CompletionLeavesBehind(chain, s, a, tips, tip);
        StepProcessesNewest(chain, s, a, tips, tip);
      }
    }
  }

  lemma NextLeavesBehind(chain: seq<Hash>, rows: set<Hash>, run: seq<Answers>, tips: seq<Tips>, i: nat)
    requires AppendOnly(chain, rows, run, tips) && i < |run|
    requires LeftBehind(CompletedHeights(rows, run[..i]), After(rows, run[..i]).buffer, TipBefore(tips, i))
    ensures LeftBehind(CompletedHeights(rows, run[..i + 1]), After(rows, run[..i + 1]).buffer, TipBefore(tips, i + 1))
  {
    AfterNext(rows, run, i);
    HeightsNext(rows, run, i);
    BufferFitsChain(chain, rows, run, tips, i);
    StepIsTruthful(chain, rows, run, tips, i);
    var s, completed := After(rows, run[..i]), CompletedHeights(rows, run[..i]);
    StepLeavesBehind(chain, s, run[i], tips[i], TipBefore(tips, i), completed);
  }

  lemma {:induction false} CompletedAreLeftBehind(
      chain: seq<Hash>, rows: set<Hash>, run: seq<Answers>, tips: seq<Tips>, i: nat)
    requires AppendOnly(chain, rows, run, tips) && i <= |run|
    ensures LeftBehind(CompletedHeights(rows, run[..i]), After(rows, run[..i]).buffer, TipBefore(tips, i))
  {
    if i == 0 {
      assert run[..0] == [];
    } else {
      CompletedAreLeftBehind(chain, rows, run, tips, i - 1);
      NextLeavesBehind(chain, rows, run, tips, i - 1);
    }
  }

  /** Stored, yet neither completed nor the height being collected. */
  ghost predicate Lost(h: nat, stored: set<nat>, completed: set<nat>, s: State) {
    h in stored && h !in completed && (s.buffer != [] ==> h < Newest(s.buffer).height)
  }

  ghost predicate HeightIsLost(rows: set<Hash>, run: seq<Answers>, h: nat) {
    Lost(h, StoredHeights(rows, run), CompletedHeights(rows, run), After(rows, run))
  }

  lemma StepStaysLost(chain: seq<Hash>, s: State, a: Answers, tips: Tips, h: nat, stored: set<nat>, completed: set<nat>)
    requires Truthful(chain, s, a, tips) && h < tips.atTemplate && Lost(h, stored, completed, s)
    ensures Lost(h, stored + StoredBy(Step(s, a).1), completed + CompletedBy(Step(s, a).1), Step(s, a).0)
  {
    StepShape(s, a);
  }

  lemma NewestIsNotCompleted(chain: seq<Hash>, rows: set<Hash>, run: seq<Answers>, tips: seq<Tips>, j: nat)
    requires AppendOnly(chain, rows, run, tips) && j <= |run| && After(rows, run[..j]).buffer != []
    ensures Newest(After(rows, run[..j]).buffer).height !in CompletedHeights(rows, run[..j])
    ensures Newest(After(rows, run[..j]).buffer).height in StoredHeights(rows, run[..j])
  {
    var buffer := After(rows, run[..j]).buffer;
    var newest := buffer[|buffer| - 1];
    assert newest in buffer;
    BufferedHeightsWereStored(rows, run, j);
    CompletedAreLeftBehind(chain, rows, run, tips, j);
    assert !BelowAll(newest.height, buffer, TipBefore(tips, j));
  }

  lemma GivingUpLosesNow(chain: seq<Hash>, rows: set<Hash>, run: seq<Answers>, tips: seq<Tips>, j: nat)
    requires AppendOnly(chain, rows, run, tips) && j < |run| && GivesUpOnMissed(EventAt(rows, run, j))
    ensures EventAt(rows, run, j).templates != [] && HeightAt(rows, run, j) < tips[j].atHash
    ensures HeightIsLost(rows, run[..j + 1], HeightAt(rows, run, j))
  {
    var s := After(rows, run[..j]);
    BufferFitsChain(chain, rows, run, tips, j);
    StepIsTruthful(chain, rows, run, tips, j);
    StepProcessesNewest(chain, s, run[j], tips[j], TipBefore(tips, j));
    NewestIsNotCompleted(chain, rows, run, tips, j);
    AfterNext(rows, run, j);
    HeightsNext(rows, run, j);
  }

  lemma {:induction false} LostHeightStaysLost(
      chain: seq<Hash>, rows: set<Hash>, run: seq<Answers>, tips: seq<Tips>, h: nat, j: nat, i: nat)
    requires AppendOnly(chain, rows, run, tips) && 0 < j <= i <= |run|
    requires HeightIsLost(rows, run[..j], h) && h < tips[j - 1].atHash
    ensures HeightIsLost(rows, run[..i], h)
  {
    if i == j {
    } else {
      LostHeightStaysLost(chain, rows, run, tips, h, j, i - 1);
      AfterNext(rows, run, i - 1);
      HeightsNext(rows, run, i - 1);
      StepIsTruthful(chain, rows, run, tips, i - 1);
      assert InOrder(tips, j - 1, i - 1);
      StepStaysLost(chain, After(rows, run[..i - 1]), run[i - 1], tips[i - 1], h,
                    StoredHeights(rows, run[..i - 1]), CompletedHeights(rows, run[..i - 1]));
    }
  }

  /** The height given up on is never completed afterwards. */
  lemma GivingUpLosesAHeight(
      chain: seq<Hash>, rows: set<Hash>, run: seq<Answers>, tips: seq<Tips>, j: nat, i: nat)
    requires AppendOnly(chain, rows, run, tips) && j < i <= |run| && GivesUpOnMissed(EventAt(rows, run, j))
    ensures EventAt(rows, run, j).templates != []
    ensures HeightIsLost(rows, run[..i], HeightAt(rows, run, j))
  {
    GivingUpLosesNow(chain, rows, run, tips, j);
    LostHeightStaysLost(chain, rows, run, tips, HeightAt(rows, run, j), j + 1, i);
  }

  /**
   * Over an append-only chain the stored heights are the completed ones and the one being collected, if
   * and only if `process` never returned early on the missed-block path.
   */
  lemma StoredHeightsAreAccountedFor(
      chain: seq<Hash>, rows: set<Hash>, run: seq<Answers>, tips: seq<Tips>, i: nat)
    requires AppendOnly(chain, rows, run, tips) && i <= |run|
    ensures HeightsAddUp(rows, run[..i]) <==> NeverGivesUp(rows, run, i)
  {
    if NeverGivesUp(rows, run, i) {
      HeightsAddUpWithoutGivingUp(chain, rows, run, tips, i);
    } else {
      var j :| 0 <= j < i && GivesUpOnMissed(EventAt(rows, run, j));
      GivingUpLosesAHeight(chain, rows, run, tips, j, i);
    }
  }

  // ---------------------------------------------------------------- progress

  /** Every call that a round makes about a new block is answered. */
  ghost predicate CallsAnswered(a: Answers, parent: Hash) {
    && a.tipBlock.Some? && a.fees
    && (a.tipBlock.value.prevHash != parent ==> a.missedHash.Some? && a.missedBlock.Some?)
  }

  ghost predicate IsAbove(a: Answers, buffer: seq<Template>) {
    buffer != [] && a.template.Some? && Newest(buffer).height < a.template.value.height
  }

  /** The template of round `i` is above the buffered ones, so a block was mined. */
  ghost predicate BringsNewBlock(rows: set<Hash>, run: seq<Answers>, i: nat)
    requires i < |run|
  {
    IsAbove(run[i], After(rows, run[..i]).buffer)
  }

  lemma StepOnNewBlock(chain: seq<Hash>, s: State, a: Answers, tips: Tips, tip: nat)
    requires NoDup(chain) && Truthful(chain, s, a, tips) && tip <= tips.atTemplate && FitsChain(chain, s.buffer, tip)
    requires IsAbove(a, s.buffer)
    ensures Newest(s.buffer).height < |chain|
    ensures Step(s, a).1.Processed? <==> CallsAnswered(a, Newest(s.buffer).prevHash)
    ensures Step(s, a).1.Processed? ==> Step(s, a).1.templates == s.buffer
  {
    var newest := s.buffer[|s.buffer| - 1];
    assert Fits(chain, newest, tip);
    assert chain[newest.height - 1] != chain[tips.atTemplate - 1];
  }

  /**
   * Progress: in a round that brings a new block, the height of the buffered templates gets completed if and
   * only if every call is answered, the database stores everything, and the block of that height had no row.
   */
  lemma NewBlockCompletesIff(chain: seq<Hash>, rows: set<Hash>, run: seq<Answers>, tips: seq<Tips>, i: nat)
    requires AppendOnly(chain, rows, run, tips) && i < |run| && BringsNewBlock(rows, run, i)
    ensures var newest := Newest(After(rows, run[..i]).buffer);
            && newest.height < |chain|
            && (EventAt(rows, run, i).Processed? <==> CallsAnswered(run[i], newest.prevHash))
            && (newest.height in CompletedHeights(rows, run[..i + 1]) <==>
                  && CallsAnswered(run[i], newest.prevHash) && run[i].db.StoresEverything?
                  && chain[newest.height] !in rows && !GotRowBefore(rows, run, i, chain[newest.height]))
  {
    var s := After(rows, run[..i]);
    BufferFitsChain(chain, rows, run, tips, i);
    StepIsTruthful(chain, rows, run, tips, i);
    StepOnNewBlock(chain, s, run[i], tips[i], TipBefore(tips, i));
    NewestIsNotCompleted(chain, rows, run, tips, i);
    HeightsNext(rows, run, i);
    if EventAt(rows, run, i).Processed? {
      ProcessesBlockAtNewestHeight(chain, rows, run, tips, i);
      CompletesIffRowIsNew(rows, run, i);
    }
  }

  /** The buffer with one more template; at its capacity the oldest one goes. */
  ghost predicate Joins(before: seq<Template>, t: Template, after: seq<Template>) {
    && after != [] && after[|after| - 1] == t
    && after[..|after| - 1] == if |before| < MAX_OLD_TEMPLATES then before else before[1..]
  }

  lemma StepWithoutNewBlock(chain: seq<Hash>, s: State, a: Answers, tips: Tips, tip: nat)
    requires NoDup(chain) && Truthful(chain, s, a, tips) && tip <= tips.atTemplate && FitsChain(chain, s.buffer, tip)
    requires a.template.Some? && !IsAbove(a, s.buffer)
    ensures Joins(s.buffer, a.template.value, Step(s, a).0.buffer)
  {
    if s.buffer != [] {
      assert Fits(chain, s.buffer[|s.buffer| - 1], tip);
      var longer := s.buffer + [a.template.value];
      assert longer[..|longer| - 1] == s.buffer;
      assert longer[1..][..|longer| - 2] == s.buffer[1..];
    }
  }

  /** Without a new block the template is kept, as the newest one. */
  lemma TemplateJoinsBuffer(chain: seq<Hash>, rows: set<Hash>, run: seq<Answers>, tips: seq<Tips>, i: nat)
    requires AppendOnly(chain, rows, run, tips) && i < |run| && run[i].template.Some? && !BringsNewBlock(rows, run, i)
    ensures Joins(After(rows, run[..i]).buffer, run[i].template.value, After(rows, run[..i + 1]).buffer)
  {
    AfterNext(rows, run, i);
    BufferFitsChain(chain, rows, run, tips, i);
    StepIsTruthful(chain, rows, run, tips, i);
    StepWithoutNewBlock(chain, After(rows, run[..i]), run[i], tips[i], TipBefore(tips, i));
  }

  /** Rounds `i` to `j` process nothing, whatever else they do. */
  ghost predicate ProcessesNothing(rows: set<Hash>, run: seq<Answers>, i: nat, j: nat)
    requires i <= j <= |run|
  {
    forall k :: i <= k < j ==> !EventAt(rows, run, k).Processed?
  }

  lemma StepKeepsHeight(chain: seq<Hash>, s: State, a: Answers, tips: Tips, tip: nat)
    requires NoDup(chain) && Truthful(chain, s, a, tips) && tip <= tips.atTemplate && FitsChain(chain, s.buffer, tip)
    requires s.buffer != [] && !Step(s, a).1.Processed?
    ensures Step(s, a).0.buffer != []
    ensures Newest(Step(s, a).0.buffer).height == Newest(s.buffer).height
    ensures Newest(Step(s, a).0.buffer).prevHash == Newest(s.buffer).prevHash
  {
    if Step(s, a).1.Kept? {
      var newest := s.buffer[|s.buffer| - 1];
      assert Fits(chain, newest, tip);
      assert chain[newest.height - 1] == chain[a.template.value.height - 1];
    }
  }

  lemma {:induction false} WaitingKeepsHeight(
      chain: seq<Hash>, rows: set<Hash>, run: seq<Answers>, tips: seq<Tips>, i: nat, j: nat)
    requires AppendOnly(chain, rows, run, tips) && i <= j <= |run| && After(rows, run[..i]).buffer != []
    requires ProcessesNothing(rows, run, i, j)
    ensures After(rows, run[..j]).buffer != []
    ensures Newest(After(rows, run[..j]).buffer).height == Newest(After(rows, run[..i]).buffer).height
  {
    if i == j {
    } else {
      WaitingKeepsHeight(chain, rows, run, tips, i, j - 1);
      AfterNext(rows, run, j - 1);
      BufferFitsChain(chain, rows, run, tips, j - 1);
      StepIsTruthful(chain, rows, run, tips, j - 1);
      assert !EventAt(rows, run, j - 1).Processed?;
      StepKeepsHeight(chain, After(rows, run[..j - 1]), run[j - 1], tips[j - 1], TipBefore(tips, j - 1));
    }
  }

  /**
   * However many rounds fail before: the height that is being collected in round `i` is completed by the
   * first round that brings a new block, has all its calls answered and a database that works.
   */
  lemma CollectedHeightIsCompleted(
      chain: seq<Hash>, rows: set<Hash>, run: seq<Answers>, tips: seq<Tips>, i: nat, j: nat)
    requires AppendOnly(chain, rows, run, tips) && i <= j < |run| && After(rows, run[..i]).buffer != []
    requires ProcessesNothing(rows, run, i, j) && BringsNewBlock(rows, run, j)
    requires CallsAnswered(run[j], Newest(After(rows, run[..j]).buffer).prevHash) && run[j].db.StoresEverything?
    requires var h := Newest(After(rows, run[..i]).buffer).height;
             h < |chain| ==> chain[h] !in rows && !GotRowBefore(rows, run, i, chain[h])
    ensures Newest(After(rows, run[..i]).buffer).height in CompletedHeights(rows, run[..j + 1])
  {
    var h := Newest(After(rows, run[..i]).buffer).height;
    WaitingKeepsHeight(chain, rows, run, tips, i, j);
    NewBlockCompletesIff(chain, rows, run, tips, j);
    assert !GotRowBefore(rows, run, j, chain[h]);
  }

  // ---------------------------------------------------------------- what is compared

  /** Every compared template is built on the parent of the processed block. */
  ghost predicate ComparesOnlyTemplatesOfTheParent(e: Event)
    requires e.Processed?
  {
    forall t :: t in e.templates ==> t.prevHash == e.block.prevHash
  }

  lemma SameParentAsNewest(buffer: seq<Template>, parent: Hash)
    requires buffer != [] && Newest(buffer).prevHash == parent
    ensures SamePrevHash(buffer) <==> forall t :: t in buffer ==> t.prevHash == parent
  {
    if SamePrevHash(buffer) {
      assert forall i :: 0 <= i < |buffer| - 1 ==> buffer[i].prevHash == buffer[|buffer| - 1].prevHash;
    } else {
      var i, j :| 0 <= i < j < |buffer| && buffer[i].prevHash != buffer[j].prevHash;
      assert buffer[i] in buffer && buffer[j] in buffer;
    }
  }

  /**
   * Over an append-only chain a comparison uses only templates of the block's parent if and only if there
   * are no more of them than were pushed since the parent last changed. Then all are for the block's height.
   */
  lemma ComparesTheParentIffTrailing(
      chain: seq<Hash>, rows: set<Hash>, run: seq<Answers>, tips: seq<Tips>, i: nat)
    requires AppendOnly(chain, rows, run, tips) && i < |run| && EventAt(rows, run, i).Processed?
    ensures ComparesOnlyTemplatesOfTheParent(EventAt(rows, run, i))
            <==> |EventAt(rows, run, i).templates| <= Trailing(rows, run[..i])
    ensures forall t :: t in EventAt(rows, run, i).templates && t.prevHash == EventAt(rows, run, i).block.prevHash ==>
              t.height < |chain| && chain[t.height] == EventAt(rows, run, i).block.hash
  {
    var e, s := EventAt(rows, run, i), After(rows, run[..i]);
    ProcessesBlockAtNewestHeight(chain, rows, run, tips, i);
    SameParentIffTrailing(rows, run[..i]);
    SameParentAsNewest(s.buffer, e.block.prevHash);
    BufferFitsChain(chain, rows, run, tips, i);
    SameParentSameHeight(chain, s.buffer, TipBefore(tips, i));
  }

  lemma SameParentSameHeight(chain: seq<Hash>, buffer: seq<Template>, tip: nat)
    requires NoDup(chain) && FitsChain(chain, buffer, tip) && buffer != []
    ensures forall t :: t in buffer && t.prevHash == Newest(buffer).prevHash ==> t.height == Newest(buffer).height
  {
    var newest := buffer[|buffer| - 1];
    assert newest in buffer;
    forall t | t in buffer && t.prevHash == newest.prevHash ensures t.height == newest.height {
      assert Fits(chain, t, tip) && Fits(chain, newest, tip);
      assert chain[t.height - 1] == chain[newest.height - 1];
    }
  }

  /** In particular if nothing was given up since the buffer was last cleared. */
  lemma ComparesTheParentAfterCleanClear(
      chain: seq<Hash>, rows: set<Hash>, run: seq<Answers>, tips: seq<Tips>, i: nat)
    requires AppendOnly(chain, rows, run, tips) && i < |run| && EventAt(rows, run, i).Processed?
    requires GaveUpSinceClear(rows, run[..i]) == 0
    ensures ComparesOnlyTemplatesOfTheParent(EventAt(rows, run, i))
  {
    BufferIsBounded(rows, run[..i]);
    SameParentIffTrailing(rows, run[..i]);
    ComparesTheParentIffTrailing(chain, rows, run, tips, i);
  }

  // ---------------------------------------------------------------- failing after the block row

  /** The buffer is stuck below `n`: its block has a row, and every later template has another parent. */
  ghost predicate Stuck(chain: seq<Hash>, s: State, tip: nat) {
    && FitsChain(chain, s.buffer, tip)
    && s.buffer != []
    && Newest(s.buffer).height < tip && Newest(s.buffer).height < |chain|
    && chain[Newest(s.buffer).height] in s.blockRows
  }

  lemma StuckStep(chain: seq<Hash>, s: State, a: Answers, tips: Tips, tip: nat)
    requires NoDup(chain) && Truthful(chain, s, a, tips) && tip <= tips.atTemplate && Stuck(chain, s, tip)
    ensures !Step(s, a).1.Kept?
    ensures Step(s, a).1.Processed? ==>
              !Step(s, a).1.completed && Step(s, a).1.block.hash == chain[Newest(s.buffer).height]
    ensures GivesUpOnMissed(Step(s, a).1) || Step(s, a).0 == s
  {
    var newest, n := s.buffer[|s.buffer| - 1], tips.atTemplate;
    assert Fits(chain, newest, tip);
    assert a.template.Some? ==> chain[newest.height - 1] != chain[n - 1];
    if Step(s, a).1.Processed? {
      StepProcessesNewest(chain, s, a, tips, tip);
    }
  }

  /**
   * One failure after the block row on the tip path, and nothing is completed any more until a missed
   * block is given up on: whatever is processed up to then is the same block, which is refused.
   */
  lemma {:induction false} FailureAfterRowLeadsToGivingUp(
      chain: seq<Hash>, rows: set<Hash>, run: seq<Answers>, tips: seq<Tips>, i: nat, j: nat)
    requires AppendOnly(chain, rows, run, tips) && i < j < |run|
    requires EventAt(rows, run, i).Processed? && EventAt(rows, run, i).path.TipPath? && !CompletedAt(rows, run, i)
    requires !run[i].db.FailsBeforeBlockRow?
    requires forall k :: i < k < j ==> !GivesUpOnMissed(EventAt(rows, run, k))
    ensures EventAt(rows, run, j).Processed? ==>
              !CompletedAt(rows, run, j) && EventAt(rows, run, j).block.hash == EventAt(rows, run, i).block.hash
    ensures EventAt(rows, run, j).Processed? && EventAt(rows, run, j).path.MissedPath? ==>
              GivesUpOnMissed(EventAt(rows, run, j))
  {
    StaysStuck(chain, rows, run, tips, i, j);
    StepIsTruthful(chain, rows, run, tips, j);
    StuckStep(chain, After(rows, run[..j]), run[j], tips[j], TipBefore(tips, j));
    ProcessesBlockAtNewestHeight(chain, rows, run, tips, i);
  }

  lemma {:induction false} StaysStuck(
      chain: seq<Hash>, rows: set<Hash>, run: seq<Answers>, tips: seq<Tips>, i: nat, j: nat)
    requires AppendOnly(chain, rows, run, tips) && i < j <= |run|
    requires EventAt(rows, run, i).Processed? && EventAt(rows, run, i).path.TipPath? && !CompletedAt(rows, run, i)
    requires !run[i].db.FailsBeforeBlockRow?
    requires forall k :: i < k < j ==> !GivesUpOnMissed(EventAt(rows, run, k))
    ensures Stuck(chain, After(rows, run[..j]), TipBefore(tips, j))
    ensures After(rows, run[..j]).buffer == EventAt(rows, run, i).templates
  {
    AfterNext(rows, run, j - 1);
    BufferFitsChain(chain, rows, run, tips, j);
    if j == i + 1 {
      ProcessesBlockAtNewestHeight(chain, rows, run, tips, i);
    } else {
      StaysStuck(chain, rows, run, tips, i, j - 1);
      StepIsTruthful(chain, rows, run, tips, j - 1);
      StuckStep(chain, After(rows, run[..j - 1]), run[j - 1], tips[j - 1], TipBefore(tips, j - 1));
      assert !GivesUpOnMissed(EventAt(rows, run, j - 1));
    }
  }

  /**
   * Such comparisons do occur: a missed block while the database is down, then the next block. The second
   * processing completes, yet it compares a block with a template of another parent.
   */
  lemma GivingUpSpoilsALaterComparison()
    returns (chain: seq<Hash>, run: seq<Answers>, tips: seq<Tips>)
    ensures AppendOnly(chain, {}, run, tips) && |run| == 3
    ensures CompletedAt({}, run, 2)
    ensures !ComparesOnlyTemplatesOfTheParent(EventAt({}, run, 2))
  {
    chain, tips := SHORT_CHAIN, [Tips(1, 1), Tips(3, 3), Tips(4, 4)];
    var first := Answers(Some(OnTop(1)), None, None, None, false, StoresEverything);
    var second := Answers(Some(OnTop(3)), Some(Mined(2)), Some(chain[1]), Some(Mined(1)), true, FailsBeforeBlockRow);
    var third := Answers(Some(OnTop(4)), Some(Mined(3)), None, None, true, StoresEverything);
    run := [first, second, third];
    var s0, s1, s2 := State([], {}), State([OnTop(1)], {}), State([OnTop(1), OnTop(3)], {});
    ShortChainFacts();
    assert Step(s1, second).0.buffer == [OnTop(1)] + [OnTop(3)];
    assert Step(s2, third).1 == Processed(TipPath, Mined(3), s2.buffer, true, None);
    StatesOfShortRun(run, s0, s1, s2);
    assert TruthfulAt(chain, {}, run, tips, 0) && TruthfulAt(chain, {}, run, tips, 1);
    assert TruthfulAt(chain, {}, run, tips, 2);
    assert OnTop(1) in s2.buffer;
  }

  /** A block whose processing failed behind its row is refused once the database is up again. */
  lemma FailedBlockIsRefused() returns (chain: seq<Hash>, run: seq<Answers>, tips: seq<Tips>)
    ensures AppendOnly(chain, {}, run, tips) && |run| == 3
    ensures EventAt({}, run, 1).Processed? && !CompletedAt({}, run, 1)
    ensures EventAt({}, run, 2).Processed? && run[2].db.StoresEverything? && !CompletedAt({}, run, 2)
    ensures EventAt({}, run, 2).block == EventAt({}, run, 1).block
  {
    chain, tips := SHORT_CHAIN, [Tips(1, 1), Tips(2, 2), Tips(2, 2)];
    var first := Answers(Some(OnTop(1)), None, None, None, false, StoresEverything);
    var second := Answers(Some(OnTop(2)), Some(Mined(1)), None, None, true, FailsAfterBlockRow);
    var third := Answers(Some(OnTop(2)), Some(Mined(1)), None, None, true, StoresEverything);
    run := [first, second, third];
    var s0, s1, s2 := State([], {}), State([OnTop(1)], {}), State([OnTop(1)], {Mined(1).hash});
    ShortChainFacts();
    assert {} + {Mined(1).hash} == {Mined(1).hash};
    assert Step(s1, second) == (s2, Processed(TipPath, Mined(1), s1.buffer, false, None));
    assert Step(s2, third).1 == Processed(TipPath, Mined(1), s2.buffer, false, None);
    StatesOfShortRun(run, s0, s1, s2);
    assert TruthfulAt(chain, {}, run, tips, 0) && TruthfulAt(chain, {}, run, tips, 1);
    assert TruthfulAt(chain, {}, run, tips, 2);
  }

  const SHORT_CHAIN: seq<Hash> := [[0], [1], [2], [3]]

  function OnTop(height: nat): Template
    requires 1 <= height <= 4
  {
    Template(SHORT_CHAIN[height - 1], height, 0, [])
  }

  function Mined(height: nat): Block
    requires 1 <= height <= 3
  {
    Block(SHORT_CHAIN[height], SHORT_CHAIN[height - 1], height, [])
  }

  lemma ShortChainFacts()
    ensures NoDup(SHORT_CHAIN)
    ensures forall h :: 1 <= h <= 3 ==> IsBlockOf(SHORT_CHAIN, Mined(h), SHORT_CHAIN[h])
  {
    assert forall i :: 0 <= i < |SHORT_CHAIN| ==> SHORT_CHAIN[i][0] as int == i;
  }

  lemma StatesOfShortRun(run: seq<Answers>, s0: State, s1: State, s2: State)
    requires |run| == 3 && s0 == State([], {}) && s1 == Step(s0, run[0]).0 && s2 == Step(s1, run[1]).0
    ensures After({}, run[..0]) == s0 && After({}, run[..1]) == s1 && After({}, run[..2]) == s2
  {
    AfterNext({}, run, 0);
    AfterNext({}, run, 1);
  }
}
