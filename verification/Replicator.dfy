/**
 The consumer loop: execute each message's command, retry, commit the offset, and after a
 crash start again from the committed offset. One topic partition, one table.
 */
module Replicator {
  import opened Wrappers
  import opened Casting
  import opened Statements
  import opened ReplicaTable
  import opened SourceHistory

  /** avro_main.py skips a message on UniqueViolation; main.py retries it like any other error. */
  datatype Variant = Skipping | Retrying

  datatype Phase = Applying | Committing

  datatype State = State(replica: Table, committed: nat, position: nat, phase: Phase)

  /**
   What can happen next. A statement or a commit can fail without effect, or take effect while
   its acknowledgement is lost.
   */
  datatype Step =
    | Attempt
    | StatementLost
    | StatementUnacknowledged
    | Commit
    | CommitLost
    | CommitUnacknowledged
    | Crash

  const START := State({}, 0, 0, Applying)

  function Executed(cfg: TableConfig, replica: Table, m: Message): Outcome {
    match Plan(cfg, m)
    case Err(_) => Failed
    case Ok(None) => Done(replica)
    case Ok(Some(command)) => Execute(cfg.rowIdentifier, replica, command)
  }

  predicate Enabled(log: seq<Message>, s: State, step: Step) {
    match step
    case Attempt => s.phase.Applying? && s.position < |log|
    case StatementLost => s.phase.Applying? && s.position < |log|
    case StatementUnacknowledged => s.phase.Applying? && s.position < |log|
    case Commit => s.phase.Committing?
    case CommitLost => s.phase.Committing?
    case CommitUnacknowledged => s.phase.Committing?
    case Crash => true
  }

  function Next(cfg: TableConfig, variant: Variant, log: seq<Message>, s: State, step: Step): State
    requires Enabled(log, s, step)
  {
    match step
    case Attempt =>
      (match Executed(cfg, s.replica, log[s.position])
       case Done(rows) => s.(replica := rows, phase := Committing)
       case UniqueViolation => if variant == Skipping then s.(phase := Committing) else s
       case Failed => s)
    case StatementLost => s
    case StatementUnacknowledged =>
      (match Executed(cfg, s.replica, log[s.position])
       case Done(rows) => s.(replica := rows)
       case _ => s)
    case Commit => s.(committed := s.position + 1, position := s.position + 1, phase := Applying)
    case CommitLost => s
    case CommitUnacknowledged => s.(committed := s.position + 1)
    case Crash => s.(position := s.committed, phase := Applying)
  }

  ghost predicate CastableUpTo(cfg: TableConfig, log: seq<Message>, k: nat)
    requires k <= |log|
  {
    forall i :: 0 <= i < k ==> ValuesFit(cfg, log[i])
  }

  /** The replica is the image of the source after k events, all of which could be cast. */
  ghost predicate Shows(cfg: TableConfig, log: seq<Message>, replica: Table, k: nat) {
    && k <= |log|
    && CastableUpTo(cfg, log, k)
    && replica == Image(cfg, SourceAfter(log, k))
  }

  ghost predicate Inv(cfg: TableConfig, log: seq<Message>, s: State) {
    match s.phase
    case Applying =>
      && s.position == s.committed <= |log|
      && (Shows(cfg, log, s.replica, s.committed) || Shows(cfg, log, s.replica, s.committed + 1))
    case Committing =>
      && s.position < |log|
      && s.position <= s.committed <= s.position + 1
      && Shows(cfg, log, s.replica, s.position + 1)
  }

  /**
   The assumptions about the source: a real history of an identified table, whose rows casting
   keeps apart for as long as its events can be cast.
   */
  ghost predicate Faithful(cfg: TableConfig, log: seq<Message>) {
    && cfg.rowIdentifier != []
    && ValidHistory(cfg.rowIdentifier, log)
    && (forall k {:trigger KeysApart(cfg, SourceAfter(log, k))} ::
          0 <= k <= |log| && CastableUpTo(cfg, log, k) ==> KeysApart(cfg, SourceAfter(log, k)))
  }

  /** A check on the configuration is enough for every history. */
  lemma {:induction false} KeptIdentifierIsFaithful(cfg: TableConfig, log: seq<Message>)
    requires cfg.rowIdentifier != [] && ValidHistory(cfg.rowIdentifier, log)
    requires forall column :: column in cfg.rowIdentifier ==> column !in cfg.timeFields || column in cfg.dateFields
    ensures Faithful(cfg, log)
  {
    forall k | 0 <= k <= |log| && CastableUpTo(cfg, log, k)
      ensures KeysApart(cfg, SourceAfter(log, k))
    {
      HistoryKeepsUniqueKeys(cfg.rowIdentifier, log, k);
      AppliedIsCastable(cfg, log, k);
      KeptIdentifierRepresents(cfg, SourceAfter(log, k));
    }
  }

  lemma StepKeepsCastable(cfg: TableConfig, rows: Table, m: Message)
    requires Emits(cfg.rowIdentifier, rows, m) && ValuesFit(cfg, m)
    requires forall r :: r in rows ==> Castable(cfg, r)
    ensures forall r :: r in SourceStep(rows, m) ==> Castable(cfg, r)
  {
    PlannedIff(cfg, m);
    if IsUpdate(m) {
      UpdateMeansRowOperation(cfg, m);
    } else if IsInsert(m) {
      InsertMeansRowOperation(cfg, m);
    }
  }

  lemma {:induction false} AppliedIsCastable(cfg: TableConfig, log: seq<Message>, k: nat)
    requires ValidHistory(cfg.rowIdentifier, log) && k <= |log|
    requires CastableUpTo(cfg, log, k)
    ensures forall r :: r in SourceAfter(log, k) ==> Castable(cfg, r)
  {
    if k > 0 {
      AppliedIsCastable(cfg, log, k - 1);
      StepKeepsCastable(cfg, SourceAfter(log, k - 1), log[k - 1]);
    }
  }

  lemma {:induction false} AppliedIsRepresentable(cfg: TableConfig, log: seq<Message>, k: nat)
    requires Faithful(cfg, log) && k <= |log|
    requires CastableUpTo(cfg, log, k)
    ensures Representable(cfg, SourceAfter(log, k))
  {
    HistoryKeepsUniqueKeys(cfg.rowIdentifier, log, k);
    AppliedIsCastable(cfg, log, k);
    assert KeysApart(cfg, SourceAfter(log, k));
  }

  /** Executing event k on a replica that has not seen it shows one more event. */
  lemma ExecuteNew(cfg: TableConfig, log: seq<Message>, replica: Table, k: nat)
    requires Faithful(cfg, log) && k < |log| && Shows(cfg, log, replica, k) && ValuesFit(cfg, log[k])
    ensures Executed(cfg, replica, log[k]).Done?
    ensures Shows(cfg, log, Executed(cfg, replica, log[k]).rows, k + 1)
  {
    if log[k].Change? {
      ExecuteNewChange(cfg, log, k);
    }
  }

  lemma {:induction false} ExecuteNewChange(cfg: TableConfig, log: seq<Message>, k: nat)
    requires Faithful(cfg, log) && k < |log| && log[k].Change?
    requires CastableUpTo(cfg, log, k + 1)
    ensures Executed(cfg, Image(cfg, SourceAfter(log, k)), log[k]) == Done(Image(cfg, SourceAfter(log, k + 1)))
  {
    AppliedIsRepresentable(cfg, log, k);
    AppliedIsRepresentable(cfg, log, k + 1);
    assert Emits(cfg.rowIdentifier, SourceAfter(log, k), log[k]);
    PlannedIff(cfg, log[k]);
    FirstDelivery(cfg, SourceAfter(log, k), SourceAfter(log, k + 1), log[k]);
  }

  /** Without fitting values nothing is executed. */
  lemma {:induction false} ExecuteUnfit(cfg: TableConfig, replica: Table, m: Message)
    requires !ValuesFit(cfg, m)
    ensures Executed(cfg, replica, m) == Failed
  {
    PlannedIff(cfg, m);
  }

  /** Executing it again changes nothing, and is refused exactly when it is an insert. */
  lemma {:induction false} ExecuteAgain(cfg: TableConfig, log: seq<Message>, replica: Table, k: nat)
    requires Faithful(cfg, log) && k < |log| && Shows(cfg, log, replica, k + 1)
    ensures Executed(cfg, replica, log[k]) == if IsInsert(log[k]) then UniqueViolation else Done(replica)
  {
    if log[k].Change? {
      AppliedIsRepresentable(cfg, log, k);
      AppliedIsRepresentable(cfg, log, k + 1);
      assert Emits(cfg.rowIdentifier, SourceAfter(log, k), log[k]);
      assert ValuesFit(cfg, log[k]);
      PlannedIff(cfg, log[k]);
      Redelivery(cfg, SourceAfter(log, k), SourceAfter(log, k + 1), log[k]);
    }
  }

  lemma {:induction false} StepKeepsInv(cfg: TableConfig, variant: Variant, log: seq<Message>, s: State, step: Step)
    requires Faithful(cfg, log) && Inv(cfg, log, s) && Enabled(log, s, step)
    ensures Inv(cfg, log, Next(cfg, variant, log, s, step))
  {
    if step.Attempt? || step.StatementUnacknowledged? {
      var k := s.position;
      if Shows(cfg, log, s.replica, k + 1) {
        ExecuteAgain(cfg, log, s.replica, k);
      } else if ValuesFit(cfg, log[k]) {
        ExecuteNew(cfg, log, s.replica, k);
      } else {
        ExecuteUnfit(cfg, s.replica, log[k]);
      }
    }
  }

  // ---------- Runs ----------

  predicate IsRun(cfg: TableConfig, variant: Variant, log: seq<Message>, from: State, steps: seq<Step>)
    decreases |steps|, 0
  {
    steps == [] ||
    (IsRun(cfg, variant, log, from, steps[..|steps| - 1]) &&
     Enabled(log, After(cfg, variant, log, from, steps[..|steps| - 1]), steps[|steps| - 1]))
  }

  function After(cfg: TableConfig, variant: Variant, log: seq<Message>, from: State, steps: seq<Step>): State
    requires IsRun(cfg, variant, log, from, steps)
    decreases |steps|, 1
  {
    if steps == [] then from
    else Next(cfg, variant, log, After(cfg, variant, log, from, steps[..|steps| - 1]), steps[|steps| - 1])
  }

  lemma {:induction false} RunKeepsInv(
      cfg: TableConfig, variant: Variant, log: seq<Message>, from: State, steps: seq<Step>)
    requires Faithful(cfg, log) && Inv(cfg, log, from) && IsRun(cfg, variant, log, from, steps)
    ensures Inv(cfg, log, After(cfg, variant, log, from, steps))
    decreases |steps|
  {
    if steps != [] {
      var front := steps[..|steps| - 1];
      RunKeepsInv(cfg, variant, log, from, front);
      StepKeepsInv(cfg, variant, log, After(cfg, variant, log, from, front), steps[|steps| - 1]);
    }
  }

  lemma StartInv(cfg: TableConfig, log: seq<Message>)
    ensures Inv(cfg, log, START)
  {
  }

  /**
   Both loops, every run: however statements, commits and processes fail, the replica is the
   image of the source after k events, where k is the committed offset or one more.
   */
  lemma ReplicaNeverDrifts(cfg: TableConfig, variant: Variant, log: seq<Message>, steps: seq<Step>)
    requires Faithful(cfg, log) && IsRun(cfg, variant, log, START, steps)
    ensures var s := After(cfg, variant, log, START, steps);
            exists k :: s.committed <= k <= s.committed + 1 && k <= |log|
                        && s.replica == Image(cfg, SourceAfter(log, k))
  {
    StartInv(cfg, log);
    RunKeepsInv(cfg, variant, log, START, steps);
    InvIsCloseToCommitted(cfg, log, After(cfg, variant, log, START, steps));
  }

  lemma InvIsCloseToCommitted(cfg: TableConfig, log: seq<Message>, s: State)
    requires Inv(cfg, log, s)
    ensures exists k :: s.committed <= k <= s.committed + 1 && k <= |log|
                        && s.replica == Image(cfg, SourceAfter(log, k))
  {
  }

  // ---------- Every state the invariant allows is reached ----------

  lemma {:induction false} RunContinues(
      cfg: TableConfig, variant: Variant, log: seq<Message>, from: State, steps: seq<Step>, step: Step)
    requires IsRun(cfg, variant, log, from, steps)
    requires Enabled(log, After(cfg, variant, log, from, steps), step)
    ensures IsRun(cfg, variant, log, from, steps + [step])
    ensures After(cfg, variant, log, from, steps + [step]) ==
            Next(cfg, variant, log, After(cfg, variant, log, from, steps), step)
  {
    assert (steps + [step])[..|steps|] == steps;
  }

  /** Undisturbed, either loop shows and commits one event after the other, in two steps each. */
  lemma {:induction false} SettledIsReached(cfg: TableConfig, variant: Variant, log: seq<Message>, k: nat)
    returns (steps: seq<Step>)
    requires Faithful(cfg, log) && k <= |log| && CastableUpTo(cfg, log, k)
    ensures IsRun(cfg, variant, log, START, steps)
    ensures After(cfg, variant, log, START, steps) == State(Image(cfg, SourceAfter(log, k)), k, k, Applying)
    ensures |steps| == multiset(steps)[Attempt] + multiset(steps)[Commit] == 2 * k && multiset(steps)[Crash] == 0
    decreases k, 0
  {
    if k == 0 {
      steps := [];
    } else {
      steps := AttemptedIsReached(cfg, variant, log, k - 1);
      RunContinues(cfg, variant, log, START, steps, Commit);
      steps := steps + [Commit];
    }
  }

  lemma {:induction false} AttemptedIsReached(cfg: TableConfig, variant: Variant, log: seq<Message>, k: nat)
    returns (steps: seq<Step>)
    requires Faithful(cfg, log) && k < |log| && CastableUpTo(cfg, log, k + 1)
    ensures IsRun(cfg, variant, log, START, steps)
    ensures After(cfg, variant, log, START, steps) == State(Image(cfg, SourceAfter(log, k + 1)), k, k, Committing)
    ensures |steps| == multiset(steps)[Attempt] + multiset(steps)[Commit] == 2 * k + 1 && multiset(steps)[Crash] == 0
    decreases k, 1
  {
    steps := SettledIsReached(cfg, variant, log, k);
    ExecuteNew(cfg, log, Image(cfg, SourceAfter(log, k)), k);
    RunContinues(cfg, variant, log, START, steps, Attempt);
    steps := steps + [Attempt];
  }

  /**
   The invariant is no wider than it must be: each state it allows, the event shown but not
   committed and the offset committed without the process knowing included, is reached.
   */
  lemma {:induction false} InvIsReached(cfg: TableConfig, variant: Variant, log: seq<Message>, s: State)
    returns (steps: seq<Step>)
    requires Faithful(cfg, log) && Inv(cfg, log, s)
    ensures IsRun(cfg, variant, log, START, steps) && After(cfg, variant, log, START, steps) == s
  {
    if s.phase == Committing {
      steps := AttemptedIsReached(cfg, variant, log, s.position);
      if s.committed == s.position + 1 {
        RunContinues(cfg, variant, log, START, steps, CommitUnacknowledged);
        steps := steps + [CommitUnacknowledged];
      }
    } else if Shows(cfg, log, s.replica, s.committed) {
      steps := SettledIsReached(cfg, variant, log, s.committed);
    } else {
      steps := SettledIsReached(cfg, variant, log, s.committed);
      ExecuteNew(cfg, log, Image(cfg, SourceAfter(log, s.committed)), s.committed);
      RunContinues(cfg, variant, log, START, steps, StatementUnacknowledged);
      steps := steps + [StatementUnacknowledged];
    }
  }

  // ---------- Where the retrying loop stops for good ----------

  /** The next event is an insert that the replica already shows. */
  ghost predicate Stuck(cfg: TableConfig, log: seq<Message>, s: State) {
    && s.phase == Applying && s.position == s.committed < |log|
    && IsInsert(log[s.committed])
    && Shows(cfg, log, s.replica, s.committed + 1)
  }

  /** An attempt gets past its event exactly when the loop skips duplicates or is not stuck on one. */
  lemma AttemptSucceedsIff(cfg: TableConfig, variant: Variant, log: seq<Message>, s: State)
    requires Faithful(cfg, log) && Inv(cfg, log, s) && Enabled(log, s, Attempt)
    requires ValuesFit(cfg, log[s.position])
    ensures Next(cfg, variant, log, s, Attempt).phase == Committing <==> variant == Skipping || !Stuck(cfg, log, s)
  {
    if Shows(cfg, log, s.replica, s.position + 1) {
      ExecuteAgain(cfg, log, s.replica, s.position);
    } else {
      ExecuteNew(cfg, log, s.replica, s.position);
    }
  }

  /** From a stuck state no continuation of the retrying loop, crashes included, commits anything more. */
  lemma {:induction false} StuckForever(cfg: TableConfig, log: seq<Message>, s: State, steps: seq<Step>)
    requires Faithful(cfg, log) && Stuck(cfg, log, s) && IsRun(cfg, Retrying, log, s, steps)
    ensures After(cfg, Retrying, log, s, steps) == s
  {
    ExecuteAgain(cfg, log, s.replica, s.committed);
    RefusedForever(cfg, log, s, steps);
  }

  /** The database refuses the next event as a duplicate. */
  predicate Refused(cfg: TableConfig, log: seq<Message>, s: State) {
    && s.phase == Applying && s.position == s.committed < |log|
    && Executed(cfg, s.replica, log[s.position]) == UniqueViolation
  }

  lemma {:induction false} RefusedForever(cfg: TableConfig, log: seq<Message>, s: State, steps: seq<Step>)
    requires Refused(cfg, log, s) && IsRun(cfg, Retrying, log, s, steps)
    ensures After(cfg, Retrying, log, s, steps) == s
    decreases |steps|
  {
    if steps != [] {
      RefusedForever(cfg, log, s, steps[..|steps| - 1]);
    }
  }

  /** One crash between an insert and its commit is enough to get there. */
  lemma CrashAfterInsertSticks(cfg: TableConfig, log: seq<Message>, s: State)
    requires Faithful(cfg, log) && s.phase == Applying && s.position == s.committed < |log|
    requires Shows(cfg, log, s.replica, s.committed)
    requires IsInsert(log[s.committed]) && ValuesFit(cfg, log[s.committed])
    ensures IsRun(cfg, Retrying, log, s, [Attempt, Crash])
    ensures Stuck(cfg, log, After(cfg, Retrying, log, s, [Attempt, Crash]))
  {
    ExecuteNew(cfg, log, s.replica, s.committed);
    var steps := [Attempt, Crash];
    assert steps[..1] == [Attempt] && [Attempt][..0] == [];
    assert IsRun(cfg, Retrying, log, s, []);
    assert IsRun(cfg, Retrying, log, s, [Attempt]);
  }

  /** The images before and after an insert differ. */
  lemma InsertShowsOnce(cfg: TableConfig, log: seq<Message>, replica: Table, k: nat)
    requires Faithful(cfg, log) && k < |log| && IsInsert(log[k])
    ensures !(Shows(cfg, log, replica, k) && Shows(cfg, log, replica, k + 1))
  {
    if Shows(cfg, log, replica, k) && Shows(cfg, log, replica, k + 1) {
      ExecuteNew(cfg, log, replica, k);
      ExecuteAgain(cfg, log, replica, k);
    }
  }

  /**
   A fault that strands the retrying loop: the process dies between an insert and its commit,
   or an insert takes effect and its acknowledgement is lost.
   */
  predicate Strands(cfg: TableConfig, log: seq<Message>, s: State, step: Step) {
    && s.position < |log| && IsInsert(log[s.position]) && ValuesFit(cfg, log[s.position])
    && match step
       case Crash => s.phase == Committing && s.committed == s.position
       case StatementUnacknowledged => s.phase == Applying
       case _ => false
  }

  lemma StatementStrandsIff(cfg: TableConfig, log: seq<Message>, s: State, step: Step)
    requires Faithful(cfg, log) && Inv(cfg, log, s) && Enabled(log, s, step)
    requires step.Attempt? || step.StatementUnacknowledged?
    ensures Stuck(cfg, log, Next(cfg, Retrying, log, s, step)) <==> Stuck(cfg, log, s) || Strands(cfg, log, s, step)
  {
    if Shows(cfg, log, s.replica, s.position + 1) {
      ExecuteAgain(cfg, log, s.replica, s.position);
    } else if ValuesFit(cfg, log[s.position]) {
      ExecuteNew(cfg, log, s.replica, s.position);
    } else {
      ExecuteUnfit(cfg, s.replica, log[s.position]);
    }
  }

  lemma StepStrandsIff(cfg: TableConfig, log: seq<Message>, s: State, step: Step)
    requires Faithful(cfg, log) && Inv(cfg, log, s) && Enabled(log, s, step)
    ensures Stuck(cfg, log, Next(cfg, Retrying, log, s, step)) <==> Stuck(cfg, log, s) || Strands(cfg, log, s, step)
  {
    var k := s.position;
    if step.Attempt? || step.StatementUnacknowledged? {
      StatementStrandsIff(cfg, log, s, step);
    } else if s.phase == Committing && k + 1 < |log| && IsInsert(log[k + 1]) {
      InsertShowsOnce(cfg, log, s.replica, k + 1);
    }
  }

  predicate SomeStepStrands(cfg: TableConfig, log: seq<Message>, steps: seq<Step>)
    requires IsRun(cfg, Retrying, log, START, steps)
  {
    steps != [] &&
    (SomeStepStrands(cfg, log, steps[..|steps| - 1]) ||
     Strands(cfg, log, After(cfg, Retrying, log, START, steps[..|steps| - 1]), steps[|steps| - 1]))
  }

  /** The retrying loop is stuck exactly when one of the steps so far has stranded it. */
  lemma {:induction false} StuckIffStranded(cfg: TableConfig, log: seq<Message>, steps: seq<Step>)
    requires Faithful(cfg, log) && IsRun(cfg, Retrying, log, START, steps)
    ensures Stuck(cfg, log, After(cfg, Retrying, log, START, steps)) <==> SomeStepStrands(cfg, log, steps)
    decreases |steps|
  {
    StartInv(cfg, log);
    if steps == [] {
      if log != [] && IsInsert(log[0]) {
        InsertShowsOnce(cfg, log, {}, 0);
      }
    } else {
      var front := steps[..|steps| - 1];
      StuckIffStranded(cfg, log, front);
      RunKeepsInv(cfg, Retrying, log, START, front);
      StepStrandsIff(cfg, log, After(cfg, Retrying, log, START, front), steps[|steps| - 1]);
    }
  }

  // ---------- Progress ----------

  /** Attempts and commits still needed. */
  function Work(log: seq<Message>, s: State): int {
    2 * (|log| - s.position) - if s.phase == Committing then 1 else 0
  }

  ghost predicate AllCastable(cfg: TableConfig, log: seq<Message>) {
    CastableUpTo(cfg, log, |log|)
  }

  lemma StepWork(cfg: TableConfig, variant: Variant, log: seq<Message>, s: State, step: Step)
    requires Faithful(cfg, log) && AllCastable(cfg, log) && Inv(cfg, log, s) && Enabled(log, s, step)
    requires variant == Skipping || !Stuck(cfg, log, s)
    ensures var w, w' := Work(log, s), Work(log, Next(cfg, variant, log, s, step));
            if step.Attempt? || step.Commit? then w' == w - 1
            else if step.Crash? then w' <= w + 1
            else w' == w
  {
    if step.Attempt? {
      AttemptSucceedsIff(cfg, variant, log, s);
    }
  }

  lemma {:induction false} RunWork(cfg: TableConfig, variant: Variant, log: seq<Message>, steps: seq<Step>)
    requires Faithful(cfg, log) && AllCastable(cfg, log) && IsRun(cfg, variant, log, START, steps)
    requires variant == Skipping || !SomeStepStrands(cfg, log, steps)
    ensures Work(log, After(cfg, variant, log, START, steps)) + multiset(steps)[Attempt] + multiset(steps)[Commit] <=
            2 * |log| + multiset(steps)[Crash]
    decreases |steps|
  {
    if steps != [] {
      var front := steps[..|steps| - 1];
      RunWork(cfg, variant, log, front);
      assert front + [steps[|steps| - 1]] == steps;
      StartInv(cfg, log);
      RunKeepsInv(cfg, variant, log, START, front);
      if variant == Retrying {
        StuckIffStranded(cfg, log, front);
      }
      StepWork(cfg, variant, log, After(cfg, variant, log, START, front), steps[|steps| - 1]);
    }
  }

  /**
   The skipping loop finishes: whatever the faults, a run that gets in two steps per event and
   one more per crash has committed every event and shows the whole source; and until it has,
   such a step is possible.
   */
  lemma SkippingLoopFinishes(cfg: TableConfig, log: seq<Message>, steps: seq<Step>)
    requires Faithful(cfg, log) && AllCastable(cfg, log) && IsRun(cfg, Skipping, log, START, steps)
    ensures var s := After(cfg, Skipping, log, START, steps);
            && (multiset(steps)[Attempt] + multiset(steps)[Commit] >= 2 * |log| + multiset(steps)[Crash] ==>
                  s.committed == |log| && s.replica == Image(cfg, SourceAfter(log, |log|)))
            && (s.committed < |log| ==> Enabled(log, s, Attempt) || Enabled(log, s, Commit))
  {
    StartInv(cfg, log);
    RunKeepsInv(cfg, Skipping, log, START, steps);
    RunWork(cfg, Skipping, log, steps);
  }

  /**
   Of the runs long enough for the skipping loop, the retrying loop finishes exactly those in
   which no step strands it.
   */
  lemma RetryingLoopFinishesIff(cfg: TableConfig, log: seq<Message>, steps: seq<Step>)
    requires Faithful(cfg, log) && AllCastable(cfg, log) && IsRun(cfg, Retrying, log, START, steps)
    requires multiset(steps)[Attempt] + multiset(steps)[Commit] >= 2 * |log| + multiset(steps)[Crash]
    ensures var s := After(cfg, Retrying, log, START, steps);
            && (s.committed == |log| <==> !SomeStepStrands(cfg, log, steps))
            && (s.committed == |log| ==> s.replica == Image(cfg, SourceAfter(log, |log|)))
  {
    StartInv(cfg, log);
    RunKeepsInv(cfg, Retrying, log, START, steps);
    StuckIffStranded(cfg, log, steps);
    if !SomeStepStrands(cfg, log, steps) {
      RunWork(cfg, Retrying, log, steps);
    }
  }

  /**
   Being castable is not only enough but needed: past an event whose values cannot be cast, or
   whose images do not fit, neither loop ever commits.
   */
  lemma UncastableEventBlocks(cfg: TableConfig, variant: Variant, log: seq<Message>, k: nat, steps: seq<Step>)
    requires Faithful(cfg, log) && IsRun(cfg, variant, log, START, steps)
    requires k < |log| && !ValuesFit(cfg, log[k])
    ensures After(cfg, variant, log, START, steps).committed <= k
  {
    StartInv(cfg, log);
    RunKeepsInv(cfg, variant, log, START, steps);
  }

  // ---------- Identifiers that the cast confuses ----------

  /** The next event inserts a row whose cast identifier some row of the source already has. */
  ghost predicate Collides(cfg: TableConfig, log: seq<Message>, s: State) {
    && s.phase == Applying && s.position == s.committed < |log|
    && Shows(cfg, log, s.replica, s.committed)
    && IsInsert(log[s.committed]) && ValuesFit(cfg, log[s.committed])
    && exists r :: r in SourceAfter(log, s.committed)
         && Key(cfg.rowIdentifier, CastRow(cfg, r)) ==
            Key(cfg.rowIdentifier, CastRow(cfg, RowOf(log[s.committed].after.value)))
  }

  lemma {:induction false} CollisionIsRefused(cfg: TableConfig, log: seq<Message>, s: State)
    requires ValidHistory(cfg.rowIdentifier, log) && Collides(cfg, log, s)
    ensures Refused(cfg, log, s)
  {
    var m, rows := log[s.committed], SourceAfter(log, s.committed);
    assert Emits(cfg.rowIdentifier, rows, m);
    InsertRefused(cfg, rows, m);
  }

  lemma {:induction false} InsertRefused(cfg: TableConfig, rows: Table, m: Message)
    requires IsInsert(m) && WellFormed(m) && ValuesFit(cfg, m) && HasKey(cfg.rowIdentifier, RowOf(m.after.value))
    requires exists r :: r in rows
               && Key(cfg.rowIdentifier, CastRow(cfg, r)) == Key(cfg.rowIdentifier, CastRow(cfg, RowOf(m.after.value)))
    ensures Executed(cfg, Image(cfg, rows), m) == UniqueViolation
  {
    PlannedIff(cfg, m);
    InsertAcceptedIff(cfg, rows, m);
    InsertMeansRowOperation(cfg, m);
    CastHasKey(cfg, RowOf(m.after.value));
  }

  /**
   The skipping loop passes such an insert without a trace: the offset is committed, the
   replica stays as it was, and shows the source only if the copy of the row was there before.
   */
  lemma {:induction false} CollisionIsSkipped(cfg: TableConfig, log: seq<Message>, s: State)
    requires ValidHistory(cfg.rowIdentifier, log) && Collides(cfg, log, s)
    ensures IsRun(cfg, Skipping, log, s, [Attempt, Commit])
    ensures var s' := After(cfg, Skipping, log, s, [Attempt, Commit]);
            && s'.committed == s.committed + 1 && s'.replica == s.replica
            && (s'.replica == Image(cfg, SourceAfter(log, s'.committed)) <==>
                  CastRow(cfg, RowOf(log[s.committed].after.value)) in s.replica)
  {
    CollisionIsRefused(cfg, log, s);
    RefusedIsSkipped(cfg, log, s);
    ImageAfterInsert(cfg, log, s.committed);
  }

  lemma RefusedIsSkipped(cfg: TableConfig, log: seq<Message>, s: State)
    requires Refused(cfg, log, s)
    ensures IsRun(cfg, Skipping, log, s, [Attempt, Commit])
    ensures After(cfg, Skipping, log, s, [Attempt, Commit]) ==
              s.(committed := s.committed + 1, position := s.position + 1)
  {
    var steps := [Attempt, Commit];
    assert steps[..1] == [Attempt] && [Attempt][..0] == [];
    assert IsRun(cfg, Skipping, log, s, []);
    assert IsRun(cfg, Skipping, log, s, [Attempt]);
  }

  lemma ImageAfterInsert(cfg: TableConfig, log: seq<Message>, k: nat)
    requires k < |log| && IsInsert(log[k])
    ensures Image(cfg, SourceAfter(log, k + 1)) ==
            Image(cfg, SourceAfter(log, k)) + {CastRow(cfg, RowOf(log[k].after.value))}
  {
  }

  /** The retrying loop never gets past it. */
  lemma CollisionBlocks(cfg: TableConfig, log: seq<Message>, s: State, steps: seq<Step>)
    requires ValidHistory(cfg.rowIdentifier, log) && Collides(cfg, log, s)
    requires IsRun(cfg, Retrying, log, s, steps)
    ensures After(cfg, Retrying, log, s, steps) == s
  {
    CollisionIsRefused(cfg, log, s);
    RefusedForever(cfg, log, s, steps);
  }

  // ---------- The loops themselves ----------

  /** What befalls one attempt or one commit; beyond the end of a schedule all goes well. */
  datatype Fate = Fine | LostBefore | LostAfter | ProcessDies

  class Consumer {
    const cfg: TableConfig
    var replica: Table
    var committed: nat

    constructor (cfg: TableConfig)
      ensures this.cfg == cfg && replica == {} && committed == 0
    {
      this.cfg := cfg;
      replica, committed := {}, 0;
    }

    /** `while True: try: ... execute` for one message. */
    method ApplyMessage(log: seq<Message>, position: nat, fates: seq<Fate>) returns (died: bool, rest: seq<Fate>)
      requires Faithful(cfg, log) && AllCastable(cfg, log) && position < |log|
      requires Shows(cfg, log, replica, position) || Shows(cfg, log, replica, position + 1)
      modifies this`replica
      ensures Shows(cfg, log, replica, position + 1) || (died && Shows(cfg, log, replica, position))
      ensures |rest| <= |fates| && (died ==> |rest| < |fates|)
    {
      rest := fates;
      while true
        invariant Shows(cfg, log, replica, position) || Shows(cfg, log, replica, position + 1)
        invariant |rest| <= |fates|
        decreases |rest|
      {
        var fate := if rest == [] then Fine else rest[0];
        rest := if rest == [] then [] else rest[1..];
        if fate == ProcessDies {
          return true, rest;
        }
        if fate == LostBefore {
          continue;
        }
        if Shows(cfg, log, replica, position + 1) {
          ExecuteAgain(cfg, log, replica, position);
        } else {
          ExecuteNew(cfg, log, replica, position);
        }
        var command := BuildCommand(cfg, log[position]);
        if command.value == None {
          return false, rest;
        }
        var outcome := Execute(cfg.rowIdentifier, replica, command.value.value);
        if outcome.Done? {
          replica := outcome.rows;
        }
        if fate == Fine && outcome != Failed {
          return false, rest;
        }
      }
    }

    /** `while True: try: consumer.commit()`. */
    method CommitOffset(position: nat, fates: seq<Fate>) returns (died: bool, rest: seq<Fate>)
      requires position <= committed <= position + 1
      modifies this`committed
      ensures position <= committed <= position + 1 && (!died ==> committed == position + 1)
      ensures |rest| <= |fates| && (died ==> |rest| < |fates|)
    {
      rest := fates;
      while true
        invariant position <= committed <= position + 1
        invariant |rest| <= |fates|
        decreases |rest|
      {
        var fate := if rest == [] then Fine else rest[0];
        rest := if rest == [] then [] else rest[1..];
        if fate == ProcessDies {
          return true, rest;
        }
        if fate != LostBefore {
          committed := position + 1;
        }
        if fate == Fine {
          return false, rest;
        }
      }
    }

    /**
     The whole program, restarted whenever it dies: for every history and every finite
     schedule of faults it ends with everything committed and the replica equal to the source.
     */
    method Replicate(log: seq<Message>, schedule: seq<Fate>)
      requires Faithful(cfg, log) && AllCastable(cfg, log)
      requires replica == {} && committed == 0
      modifies this
      ensures committed == |log|
      ensures replica == Image(cfg, SourceAfter(log, |log|))
    {
      StartInv(cfg, log);
      var fates := schedule;
      while committed < |log|
        invariant committed <= |log|
        invariant Shows(cfg, log, replica, committed) || Shows(cfg, log, replica, committed + 1)
        decreases |fates|, |log| - committed
      {
        fates := Session(log, fates);
      }
    }

    /** `for msg in consumer`, from the committed offset until the process dies or the log ends. */
    method Session(log: seq<Message>, fates: seq<Fate>) returns (rest: seq<Fate>)
      requires Faithful(cfg, log) && AllCastable(cfg, log) && committed < |log|
      requires Shows(cfg, log, replica, committed) || Shows(cfg, log, replica, committed + 1)
      modifies this
      ensures committed <= |log|
      ensures Shows(cfg, log, replica, committed) || Shows(cfg, log, replica, committed + 1)
      ensures |rest| < |fates| || (|rest| == |fates| && committed == |log|)
    {
      rest := fates;
      var position := committed;
      while position < |log|
        invariant position == committed <= |log|
        invariant Shows(cfg, log, replica, committed) || Shows(cfg, log, replica, committed + 1)
        invariant |rest| <= |fates|
      {
        var died;
        died, rest := ApplyMessage(log, position, rest);
        if died {
          return;
        }
        died, rest := CommitOffset(position, rest);
        if died {
          return;
        }
        position := position + 1;
      }
    }
  }
}
