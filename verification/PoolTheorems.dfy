/** What holds of the whole pool on every run, across its components. */
module PoolTheorems {
  import opened Prelude
  import opened Hashpower
  import opened RewardSplit
  import opened Pool
  import R = Round
  import I = Intake
  import D = Dispatch
  import W = DispatchProvenance
  import L = Ledger
  import T = Tables
  import P = RoundProtocol
  import V = RoundIntervals
  import C = LedgerConservation
  import N = Enrolment

  // ----- The best solution lasts until the epoch is cleared

  /** The stages of an attender in which the epoch still stands. */
  predicate EpochStands(stage: R.Stage) {
    match stage
    case RpcResume => false
    case RpcSignal => false
    case Resuming => false
    case Signalling => false
    case Finished(_) => false
    case _ => true
  }

  ghost predicate NeedsSolution(round: R.State) {
    || round.main.AtRecheck? || round.main.AtPause? || round.main.AtAttempt?
    || (round.main.Awaiting? && EpochStands(P.CurrentStage(round)))
  }

  ghost predicate SolutionStands(s: State) {
    && (NeedsSolution(s.round) ==> s.intake.epoch.solution.Some?)
    && (s.round.main.AtPause? || s.round.main.AtAttempt? ==> s.round.main.best.Some?)
  }

  lemma IntakeKeepsSolution(o: I.Oracle, s: I.State, e: I.Event)
    requires o.minDifficulty >= MIN_DIFF && I.Enabled(s, e) && !e.Reset? && s.epoch.solution.Some?
    ensures I.Apply(o, s, e).epoch.solution.Some?
  {
  }

  /** An attender needs the solution only while it has not cleared the epoch. */
  lemma AttenderNeeds(config: R.Config, r: R.State, e: R.Event)
    requires R.Enabled(r, e) && P.OneAttender(r) && (e.Attend? || e.Crash?)
    ensures NeedsSolution(R.Apply(config, r, e)) ==> NeedsSolution(r) && R.Emitted(r, e) != Some(R.EpochCleared)
    ensures R.Apply(config, r, e).main == r.main
  {
    assert R.Active(r, e.id);
  }

  /** The main loop comes to need it by reading it. */
  lemma MainNeeds(config: R.Config, r: R.State, e: R.Event)
    requires R.Enabled(r, e) && P.OneAttender(r) && !e.Attend? && !e.Crash?
    ensures var r' := R.Apply(config, r, e);
            NeedsSolution(r') ==> R.Emitted(r, e) != Some(R.EpochCleared)
                                  && (NeedsSolution(r) || (e.Peek? && e.view.solution.Some?))
    ensures var main := R.Apply(config, r, e).main;
            main.AtPause? || main.AtAttempt? ==>
              (e.Recheck? && main.best == e.view.solution && NeedsSolution(r))
              || ((r.main.AtPause? || r.main.AtAttempt?) && main.best == r.main.best)
  {
  }

  /** What a step makes of the epoch's solution. */
  lemma SolutionAfter(setup: Setup, s: State, e: Event)
    requires setup.oracle.minDifficulty >= MIN_DIFF && Enabled(setup, s, e)
    ensures s.intake.epoch.solution.Some? && EffectOf(s, e) != Some(R.EpochCleared) ==>
              Apply(setup, s, e).intake.epoch.solution.Some?
  {
    IntakePart(setup, s, e);
    if e.OfIntake? && s.intake.epoch.solution.Some? {
      IntakeKeepsSolution(setup.oracle, s.intake, e.intake);
    }
  }

  lemma StepKeepsSolution(setup: Setup, s: State, e: Event)
    requires setup.oracle.minDifficulty >= MIN_DIFF && Enabled(setup, s, e)
    requires P.OneAttender(s.round) && SolutionStands(s)
    ensures SolutionStands(Apply(setup, s, e))
  {
    SolutionAfter(setup, s, e);
    if e.OfRound? {
      if e.round.Attend? || e.round.Crash? {
        AttenderNeeds(setup.config, s.round, e.round);
      } else {
        MainNeeds(setup.config, s.round, e.round);
      }
    }
  }

  // ----- Contributions that can be rewarded

  ghost predicate Earnt(o: I.Oracle, c: Contribution) {
    exists x :: I.Genuine(o, c, x)
  }

  /** Every contribution is what some solution of the pool's minimum difficulty says. */
  ghost predicate Payable(o: I.Oracle, contributions: Contributions) {
    forall p :: p in contributions ==> Earnt(o, contributions[p])
  }

  lemma RecordIsPayable(o: I.Oracle, epoch: I.Epoch, log: seq<I.Entry>)
    requires I.LogOk(o, log) && I.FromLog(epoch, log)
    ensures Payable(o, epoch.contributions)
  {
    forall p | p in epoch.contributions ensures Earnt(o, epoch.contributions[p]) {
      var i :| I.StoredIs(epoch, log, p, i);
      assert I.Genuine(o, log[i].contribution, log[i].solution);
    }
  }

  lemma EarntHashpower(o: I.Oracle, c: Contribution)
    requires Earnt(o, c)
    ensures c.hashpower <= HASHPOWER_CAP
    ensures c.hashpower > 0 <==> c.diff <= 68
    ensures exists x :: c.diff == o.difficulty(x)
  {
    var x :| I.Genuine(o, c, x);
    IntendedUpTo68(c.diff);
  }

  ghost predicate SentPayable(o: I.Oracle, m: Message) {
    && Payable(o, m.contributions) && m.contributions != map[]
    && m.totalHashpower == TotalHashpower(m.contributions) && IsI64(m.rewards)
  }

  ghost predicate StagePayable(o: I.Oracle, stage: R.Stage) {
    stage.Sending? ==> Payable(o, stage.collected) && stage.collected != map[]
  }

  /** What an attender has collected, and what it has sent. */
  ghost predicate CollectedOk(o: I.Oracle, round: R.State) {
    && (forall id :: id in round.attenders ==> StagePayable(o, round.attenders[id].stage))
    && (forall i :: 0 <= i < |round.effects| && round.effects[i].Sent? ==> SentPayable(o, round.effects[i].message))
  }

  lemma MoveCollects(o: I.Oracle, round: R.State, id: nat, input: R.Input)
    requires id in round.attenders && R.AttendEnabled(round.chain, round.proof, round.attenders[id], input)
    requires StagePayable(o, round.attenders[id].stage)
    requires input.Seen? && round.attenders[id].stage.Collecting? ==>
               Payable(o, input.view.contributions) && input.view.contributions != map[]
    ensures var m := R.AttenderMove(round, id, input);
            && StagePayable(o, m.stage)
            && (m.effect.Some? && m.effect.value.Sent? ==> SentPayable(o, m.effect.value.message))
  {
  }

  lemma RoundKeepsCollected(o: I.Oracle, config: R.Config, round: R.State, e: R.Event)
    requires R.Enabled(round, e) && CollectedOk(o, round)
    requires e.Attend? && round.attenders[e.id].stage.Collecting? && e.input.Seen? ==>
               Payable(o, e.input.view.contributions) && e.input.view.contributions != map[]
    ensures CollectedOk(o, R.Apply(config, round, e))
  {
    var round' := R.Apply(config, round, e);
    if e.Attend? {
      MoveCollects(o, round, e.id, e.input);
    }
    var effect := R.Emitted(round, e);
    assert effect.Some? && effect.value.Sent? ==> SentPayable(o, effect.value.message);
    forall id | id in round'.attenders ensures StagePayable(o, round'.attenders[id].stage) {
      if id in round.attenders {
        assert StagePayable(o, round.attenders[id].stage);
      }
    }
  }

  lemma CollectingNeedsSolution(r: R.State, id: nat)
    requires P.OneAttender(r) && id in r.attenders && r.attenders[id].stage.Collecting?
    ensures NeedsSolution(r)
  {
    assert R.Active(r, id);
  }

  lemma SeenIsPayable(setup: Setup, s: State, e: Event)
    requires setup.oracle.minDifficulty >= MIN_DIFF && Enabled(setup, s, e)
    requires e.OfRound? && e.round.Attend? && e.round.input.Seen?
    requires P.OneAttender(s.round) && I.Sound(setup.oracle, s.intake) && SolutionStands(s)
    ensures Payable(setup.oracle, e.round.input.view.contributions)
    ensures s.round.attenders[e.round.id].stage.Collecting? ==> e.round.input.view.contributions != map[]
  {
    I.RecordIsObserved(s.intake.epoch, s.intake.log);
    RecordIsPayable(setup.oracle, s.intake.epoch, s.intake.log);
    if s.round.attenders[e.round.id].stage.Collecting? {
      CollectingNeedsSolution(s.round, e.round.id);
    }
  }

  lemma StepKeepsCollected(setup: Setup, s: State, e: Event)
    requires setup.oracle.minDifficulty >= MIN_DIFF && Enabled(setup, s, e)
    requires P.OneAttender(s.round) && I.Sound(setup.oracle, s.intake) && SolutionStands(s)
    requires CollectedOk(setup.oracle, s.round)
    ensures CollectedOk(setup.oracle, Apply(setup, s, e).round)
  {
    if e.OfRound? {
      if e.round.Attend? && e.round.input.Seen? {
        SeenIsPayable(setup, s, e);
      }
      RoundKeepsCollected(setup.oracle, setup.config, s.round, e.round);
    }
  }

  // ----- Provenance of nonces

  ghost predicate TaskIssued(d: D.State, task: I.Task) {
    !task.stage.AtRange? ==> D.IssuedTo(d, task.pubkey, task.stage.range, task.source)
  }

  /** The nonce lies in the range that assignment `k` issued to that same pubkey. */
  ghost predicate IssuedNonce(d: D.State, p: Pubkey, nonce: nat, k: int) {
    && 0 <= k < |d.assignments| && d.assignments[k].pubkey == p && d.assignments[k].mission < |d.missions|
    && d.missions[d.assignments[k].mission].range.Contains(nonce)
  }

  ghost predicate EntryIssued(d: D.State, x: I.Entry) {
    IssuedNonce(d, x.pubkey, x.contribution.nonce, x.source)
  }

  /** Every task and every decided submission was checked against the range its source issued. */
  ghost predicate Provenance(s: State) {
    && (forall t :: t in s.intake.tasks ==> TaskIssued(s.dispatch, s.intake.tasks[t]))
    && (forall i :: 0 <= i < |s.intake.log| ==> EntryIssued(s.dispatch, s.intake.log[i]))
  }

  lemma DispatchKeepsProvenance(s: State, s': State, e: D.Event)
    requires Provenance(s) && D.Enabled(s.dispatch, e)
    requires s'.dispatch == D.Apply(s.dispatch, e) && s'.intake == s.intake
    ensures Provenance(s')
  {
    forall t | t in s'.intake.tasks ensures TaskIssued(s'.dispatch, s'.intake.tasks[t]) {
      var task := s.intake.tasks[t];
      assert TaskIssued(s.dispatch, task);
      if !task.stage.AtRange? {
        D.IssuedPersists(s.dispatch, e, task.pubkey, task.stage.range, task.source);
      }
    }
    forall i | 0 <= i < |s'.intake.log| ensures EntryIssued(s'.dispatch, s'.intake.log[i]) {
      assert EntryIssued(s.dispatch, s.intake.log[i]);
    }
  }

  lemma DecidedIsIssued(o: I.Oracle, d: D.State, task: I.Task)
    requires I.TaskOk(o, task) && TaskIssued(d, task) && (task.stage.AtCheck? || task.stage.AtCommit?)
    ensures EntryIssued(d, I.EntryOf(task))
  {
  }

  lemma IntakeKeepsTasksIssued(setup: Setup, s: State, e: Event)
    requires setup.oracle.minDifficulty >= MIN_DIFF && Enabled(setup, s, e) && e.OfIntake?
    requires Provenance(s) && D.RangesIssued(s.dispatch)
    ensures var tasks := I.Apply(setup.oracle, s.intake, e.intake).tasks;
            forall t :: t in tasks ==> TaskIssued(s.dispatch, tasks[t])
  {
    var tasks := I.Apply(setup.oracle, s.intake, e.intake).tasks;
    forall t | t in tasks ensures TaskIssued(s.dispatch, tasks[t]) {
      if t in s.intake.tasks {
        assert TaskIssued(s.dispatch, s.intake.tasks[t]);
      }
    }
  }

  lemma IntakeKeepsProvenance(setup: Setup, s: State, e: Event)
    requires setup.oracle.minDifficulty >= MIN_DIFF && Enabled(setup, s, e) && e.OfIntake?
    requires Provenance(s) && I.TasksOk(setup.oracle, s.intake.tasks) && D.RangesIssued(s.dispatch)
    ensures Provenance(Apply(setup, s, e))
  {
    IntakeKeepsTasksIssued(setup, s, e);
    var i, log := e.intake, s.intake.log;
    var log' := I.Apply(setup.oracle, s.intake, i).log;
    if i.Check? || i.Commit? {
      var task := s.intake.tasks[i.task];
      assert TaskIssued(s.dispatch, task) && I.TaskOk(setup.oracle, task);
      DecidedIsIssued(setup.oracle, s.dispatch, task);
      assert log' == log || log' == log + [I.EntryOf(task)];
    }
    forall j | 0 <= j < |log'| ensures EntryIssued(s.dispatch, log'[j]) {
      if j < |log| {
        assert EntryIssued(s.dispatch, log[j]);
      }
    }
  }

  // ----- Every run

  ghost predicate Invariant(setup: Setup, s: State) {
    && P.OneAttender(s.round) && I.Sound(setup.oracle, s.intake) && D.RangesIssued(s.dispatch)
    && SolutionStands(s) && Provenance(s)
  }

  lemma ComponentInvariants(setup: Setup, account: R.Account, db: T.Db, es: seq<Event>)
    requires setup.oracle.minDifficulty >= MIN_DIFF && Legal(setup, Initial(account, db), es)
    ensures var s := Exec(setup, Initial(account, db), es);
            P.OneAttender(s.round) && I.Sound(setup.oracle, s.intake) && D.RangesIssued(s.dispatch)
  {
    var s0 := Initial(account, db);
    ProjectRound(setup, s0, es);
    ProjectIntake(setup, s0, es);
    ProjectDispatch(setup, s0, es);
    P.RunKeepsProtocol(setup.config, account, RoundTrace(es));
    I.EveryInterleaving(setup.oracle, IntakeTrace(setup, s0, es));
    D.RangeMapProvenance(DispatchTrace(setup, s0, es));
  }

  lemma StepKeepsProvenance(setup: Setup, s: State, e: Event)
    requires setup.oracle.minDifficulty >= MIN_DIFF && Enabled(setup, s, e) && Invariant(setup, s)
    ensures Provenance(Apply(setup, s, e))
  {
    var s' := Apply(setup, s, e);
    IntakePart(setup, s, e);
    DispatchPart(setup, s, e);
    if e.OfIntake? {
      IntakeKeepsProvenance(setup, s, e);
    } else if DispatchEvent(s, e).Some? {
      assert s'.intake == s.intake;
      DispatchKeepsProvenance(s, s', DispatchEvent(s, e).value);
    } else {
      assert s'.dispatch == s.dispatch;
      assert s'.intake == s.intake || (s'.intake.tasks == s.intake.tasks && s'.intake.epoch == I.CLEARED);
    }
  }

  lemma {:induction false} RunKeepsInvariant(setup: Setup, account: R.Account, db: T.Db, es: seq<Event>)
    requires setup.oracle.minDifficulty >= MIN_DIFF && Legal(setup, Initial(account, db), es)
    ensures Invariant(setup, Exec(setup, Initial(account, db), es))
    decreases |es|
  {
    ComponentInvariants(setup, account, db, es);
    if es != [] {
      var rest := es[..|es| - 1];
      RunKeepsInvariant(setup, account, db, rest);
      var s := Exec(setup, Initial(account, db), rest);
      StepKeepsSolution(setup, s, es[|es| - 1]);
      StepKeepsProvenance(setup, s, es[|es| - 1]);
    }
  }

  /** A round that reached its submissions has a best solution: the branch for its absence is dead,
      and while the attender has not cleared the epoch the contributions are not empty. */
  lemma SubmissionsHaveASolution(setup: Setup, account: R.Account, db: T.Db, es: seq<Event>)
    requires setup.oracle.minDifficulty >= MIN_DIFF && Legal(setup, Initial(account, db), es)
    ensures var s := Exec(setup, Initial(account, db), es);
            && (s.round.main.AtAttempt? ==> s.round.main.best.Some?)
            && (NeedsSolution(s.round) ==> s.intake.epoch.contributions != map[])
  {
    RunKeepsInvariant(setup, account, db, es);
    var s := Exec(setup, Initial(account, db), es);
    I.RecordIsObserved(s.intake.epoch, s.intake.log);
  }

  /** The assignment is of a mission allocated for the very address it was made for. */
  ghost predicate OwnMission(d: D.State, k: int) {
    && 0 <= k < |d.assignments| && d.assignments[k].mission < |d.missions|
    && d.missions[d.assignments[k].mission].addr == d.assignments[k].addr
  }

  /** Every stored contribution is an entry of the log whose nonce lies in the range that the
      entry's own assignment issued to that same pubkey, for a mission of that client's address. */
  lemma NonceProvenance(setup: Setup, account: R.Account, db: T.Db, es: seq<Event>, p: Pubkey)
    requires setup.oracle.minDifficulty >= MIN_DIFF && Legal(setup, Initial(account, db), es)
    requires p in Exec(setup, Initial(account, db), es).intake.epoch.contributions
    ensures var s := Exec(setup, Initial(account, db), es);
            var epoch, log := s.intake.epoch, s.intake.log;
            exists i :: I.StoredIs(epoch, log, p, i)
                        && IssuedNonce(s.dispatch, p, epoch.contributions[p].nonce, log[i].source)
                        && OwnMission(s.dispatch, log[i].source)
  {
    RunKeepsInvariant(setup, account, db, es);
    ProjectDispatch(setup, Initial(account, db), es);
    W.AssignmentsFollowLookups(DispatchTrace(setup, Initial(account, db), es));
    var s := Exec(setup, Initial(account, db), es);
    var i :| I.StoredIs(s.intake.epoch, s.intake.log, p, i);
    assert EntryIssued(s.dispatch, s.intake.log[i]);
  }

  /** No allocation of the run wraps the nonce counter. */
  ghost predicate NonceNeverWraps(setup: Setup, s: State, es: seq<Event>)
    requires setup.oracle.minDifficulty >= MIN_DIFF && Legal(setup, s, es)
  {
    D.Legal(s.dispatch, DispatchTrace(setup, s, es)) && D.NoWrapRun(s.dispatch, DispatchTrace(setup, s, es))
  }

  /** The mission whose range a decided submission was checked against. */
  ghost predicate CheckedAgainst(s: State, x: int, mission: nat) {
    && 0 <= x < |s.intake.log|
    && s.intake.log[x].source < |s.dispatch.assignments|
    && s.dispatch.assignments[s.intake.log[x].source].mission == mission < |s.dispatch.missions|
  }

  /** Different assignments of one nonce generation. */
  ghost predicate CheckedApart(s: State, x: int, y: int, i: nat, j: nat) {
    && CheckedAgainst(s, x, i) && CheckedAgainst(s, y, j) && s.intake.log[x].source != s.intake.log[y].source
    && s.dispatch.missions[i].generation == s.dispatch.missions[j].generation
  }

  /** Submissions that were checked under different assignments of one nonce generation have different
      nonces; each was checked against some mission, and those of different pubkeys under different ones. */
  lemma DifferentMissionsDifferentNonces(setup: Setup, account: R.Account, db: T.Db, es: seq<Event>, x: nat, y: nat)
    requires setup.oracle.minDifficulty >= MIN_DIFF && Legal(setup, Initial(account, db), es)
    requires NonceNeverWraps(setup, Initial(account, db), es)
    requires var log := Exec(setup, Initial(account, db), es).intake.log; x < |log| && y < |log|
    ensures var s := Exec(setup, Initial(account, db), es);
            && (exists i: nat :: CheckedAgainst(s, x, i))
            && (forall i: nat, j: nat :: CheckedApart(s, x, y, i, j) ==>
                  s.intake.log[x].contribution.nonce != s.intake.log[y].contribution.nonce)
            && (s.intake.log[x].pubkey != s.intake.log[y].pubkey ==> s.intake.log[x].source != s.intake.log[y].source)
  {
    var s0 := Initial(account, db);
    var s := Exec(setup, s0, es);
    RunKeepsInvariant(setup, account, db, es);
    ProjectDispatch(setup, s0, es);
    W.AssignmentsFollowLookups(DispatchTrace(setup, s0, es));
    assert EntryIssued(s.dispatch, s.intake.log[x]) && EntryIssued(s.dispatch, s.intake.log[y]);
    assert CheckedAgainst(s, x, s.dispatch.assignments[s.intake.log[x].source].mission);
    forall i: nat, j: nat | CheckedApart(s, x, y, i, j)
      ensures s.intake.log[x].contribution.nonce != s.intake.log[y].contribution.nonce
    {
      D.MissionsOfOneGenerationAreDisjoint(DispatchTrace(setup, s0, es), i, j,
                                           s.intake.log[x].contribution.nonce, s.intake.log[y].contribution.nonce);
    }
  }

  // ----- The divisor

  lemma {:induction false} RunKeepsCollected(setup: Setup, account: R.Account, db: T.Db, es: seq<Event>)
    requires setup.oracle.minDifficulty >= MIN_DIFF && Legal(setup, Initial(account, db), es)
    ensures CollectedOk(setup.oracle, Exec(setup, Initial(account, db), es).round)
    decreases |es|
  {
    if es != [] {
      var rest := es[..|es| - 1];
      RunKeepsCollected(setup, account, db, rest);
      RunKeepsInvariant(setup, account, db, rest);
      StepKeepsCollected(setup, Exec(setup, Initial(account, db), rest), es[|es| - 1]);
    }
  }

  /** On every run each success message carries a contribution, and the total hashpower by which
      its reward is divided is the sum over its contributions. That divisor is positive exactly
      when some contribution's difficulty is below 69, where the credited hashpower wraps to 0. */
  lemma DivisorPositiveIff(setup: Setup, account: R.Account, db: T.Db, es: seq<Event>, i: nat)
    requires setup.oracle.minDifficulty >= MIN_DIFF && Legal(setup, Initial(account, db), es)
    requires var effects := Exec(setup, Initial(account, db), es).round.effects; i < |effects| && effects[i].Sent?
    ensures var m := Exec(setup, Initial(account, db), es).round.effects[i].message;
            && m.contributions != map[] && m.totalHashpower == TotalHashpower(m.contributions)
            && (m.totalHashpower > 0 <==> exists p :: p in m.contributions && m.contributions[p].diff <= 68)
  {
    RunKeepsCollected(setup, account, db, es);
    var m := Exec(setup, Initial(account, db), es).round.effects[i].message;
    assert SentPayable(setup.oracle, m);
    C.ZeroTotalIff(m.contributions);
    forall p | p in m.contributions ensures m.contributions[p].hashpower == 0 <==> m.contributions[p].diff > 68 {
      EarntHashpower(setup.oracle, m.contributions[p]);
    }
  }

  // ----- Conservation, from the chain to the miners

  ghost predicate SentAt(effects: seq<R.Effect>, j: int, m: Message) {
    0 <= j < |effects| && effects[j] == R.Sent(m)
  }

  lemma TraceSnoc(before: seq<L.Event>, l: Option<L.Event>, effects: seq<R.Effect>, effect: Option<R.Effect>)
    requires if effect.Some? && effect.value.Sent? then l == Some(L.Enqueue(effect.value.message))
             else l.None? || !l.value.Enqueue?
    requires C.Enqueued(before) == V.SentRewards(effects)
    requires forall i :: 0 <= i < |before| && before[i].Enqueue? ==> exists j :: SentAt(effects, j, before[i].msg)
    ensures var trace := before + if l.Some? then [l.value] else [];
            var effects' := R.Appended(effects, effect);
            && C.Enqueued(trace) == V.SentRewards(effects')
            && forall i :: 0 <= i < |trace| && trace[i].Enqueue? ==> exists j :: SentAt(effects', j, trace[i].msg)
  {
    var trace := before + if l.Some? then [l.value] else [];
    var effects' := R.Appended(effects, effect);
    if l.Some? {
      assert trace[..|trace| - 1] == before;
    } else {
      assert trace == before;
    }
    if effect.Some? {
      assert effects'[..|effects|] == effects;
    }
    forall i | 0 <= i < |trace| && trace[i].Enqueue? ensures exists j :: SentAt(effects', j, trace[i].msg) {
      if i < |before| {
        assert trace[i] == before[i];
        var j :| SentAt(effects, j, before[i].msg);
        assert SentAt(effects', j, trace[i].msg);
      } else {
        assert SentAt(effects', |effects|, trace[i].msg);
      }
    }
  }

  /** The ledger receives exactly the messages that the round sends. */
  lemma {:induction false} EnqueuedIsSent(setup: Setup, account: R.Account, db: T.Db, es: seq<Event>)
    requires setup.oracle.minDifficulty >= MIN_DIFF && Legal(setup, Initial(account, db), es)
    ensures var s0 := Initial(account, db);
            C.Enqueued(LedgerTrace(setup, s0, es)) == V.SentRewards(Exec(setup, s0, es).round.effects)
    ensures var s0 := Initial(account, db);
            forall i :: 0 <= i < |LedgerTrace(setup, s0, es)| && LedgerTrace(setup, s0, es)[i].Enqueue? ==>
              exists j :: SentAt(Exec(setup, s0, es).round.effects, j, LedgerTrace(setup, s0, es)[i].msg)
    decreases |es|
  {
    if es != [] {
      var s0 := Initial(account, db);
      var rest, e := es[..|es| - 1], es[|es| - 1];
      EnqueuedIsSent(setup, account, db, rest);
      var s := Exec(setup, s0, rest);
      var before, trace := LedgerTrace(setup, s0, rest), LedgerTrace(setup, s0, es);
      var effects, effects' := s.round.effects, Exec(setup, s0, es).round.effects;
      assert effects' == R.Appended(effects, EffectOf(s, e));
      var l := LedgerEvent(s, e);
      TraceSnoc(before, l, effects, EffectOf(s, e));
      assert trace == before + if l.Some? then [l.value] else [];
    }
  }

  /** What is assumed of the environment: a nondecreasing on-chain balance, and no delivered proof
      older than the newest one the submission processor has read. */
  ghost predicate FairEnvironment(setup: Setup, s: State, es: seq<Event>) {
    R.Legal(setup.config, s.round, RoundTrace(es)) && V.AssumedRun(setup.config, s.round, RoundTrace(es))
  }

  /** The ledger's part of a run meets what the ledger assumes of its messages. */
  lemma LedgerAssumptionsHold(setup: Setup, account: R.Account, db: T.Db, es: seq<Event>)
    requires setup.oracle.minDifficulty >= MIN_DIFF && account.balance < I64_LIMIT
    requires Legal(setup, Initial(account, db), es) && FairEnvironment(setup, Initial(account, db), es)
    ensures C.AssumedRun(LedgerTrace(setup, Initial(account, db), es))
  {
    var s0 := Initial(account, db);
    var s := Exec(setup, s0, es);
    ProjectRound(setup, s0, es);
    V.NoGainCreditedTwice(setup.config, account, RoundTrace(es));
    RunKeepsCollected(setup, account, db, es);
    EnqueuedIsSent(setup, account, db, es);
    var trace := LedgerTrace(setup, s0, es);
    forall i | 0 <= i < |trace| ensures C.Assumed(trace[i]) {
      if trace[i].Enqueue? {
        var j :| SentAt(s.round.effects, j, trace[i].msg);
        var m := s.round.effects[j].message;
        assert SentPayable(setup.oracle, m) && V.Exact(s.round.chain, m);
        forall p | p in m.contributions ensures m.contributions[p].hashpower <= HASHPOWER_CAP {
          EarntHashpower(setup.oracle, m.contributions[p]);
        }
      }
    }
  }

  /** On every run, with any batch failing: the growth of all miner balances is covered by the
      growth of the pool's total and the rewards of messages queued or in process, and these
      together by the balance gained on chain since the start. */
  lemma EndToEndConservation(setup: Setup, account: R.Account, db: T.Db, es: seq<Event>)
    requires setup.oracle.minDifficulty >= MIN_DIFF && account.balance < I64_LIMIT
    requires N.MinersUnique(db.miners) && N.RewardsUnique(db)
    requires Legal(setup, Initial(account, db), es) && FairEnvironment(setup, Initial(account, db), es)
    ensures var s := Exec(setup, Initial(account, db), es);
            var balances := C.BalanceSum(s.ledger.db.rewards) - C.BalanceSum(db.rewards);
            var covered := s.ledger.db.poolTotal - db.poolTotal + C.Pending(s.ledger);
            var chain := s.round.chain;
            chain != [] && balances <= covered <= chain[|chain| - 1].balance - chain[0].balance
  {
    var s0 := Initial(account, db);
    ProjectRound(setup, s0, es);
    ProjectLedger(setup, s0, es);
    V.NoGainCreditedTwice(setup.config, account, RoundTrace(es));
    EnqueuedIsSent(setup, account, db, es);
    LedgerAssumptionsHold(setup, account, db, es);
    C.LedgerConserves(setup.poolId, db, LedgerTrace(setup, s0, es));
  }

  lemma MessageIsSplittable(setup: Setup, account: R.Account, db: T.Db, es: seq<Event>, i: nat)
    requires setup.oracle.minDifficulty >= MIN_DIFF && Legal(setup, Initial(account, db), es)
    requires forall x :: setup.oracle.difficulty(x) <= 68
    requires var effects := Exec(setup, Initial(account, db), es).round.effects; i < |effects| && effects[i].Sent?
    ensures C.Splittable(Exec(setup, Initial(account, db), es).round.effects[i].message)
  {
    RunKeepsCollected(setup, account, db, es);
    var m := Exec(setup, Initial(account, db), es).round.effects[i].message;
    assert SentPayable(setup.oracle, m);
    var p :| p in m.contributions;
    EarntHashpower(setup.oracle, m.contributions[p]);
    DivisorPositiveIff(setup, account, db, es, i);
  }

  /** The success-message processor never divides by zero while no solution reaches difficulty 69. */
  lemma ProcessorNeverHalts(setup: Setup, account: R.Account, db: T.Db, es: seq<Event>)
    requires setup.oracle.minDifficulty >= MIN_DIFF && Legal(setup, Initial(account, db), es)
    requires forall x :: setup.oracle.difficulty(x) <= 68
    ensures !Exec(setup, Initial(account, db), es).ledger.stage.Halted?
  {
    var s0 := Initial(account, db);
    var s := Exec(setup, s0, es);
    ProjectLedger(setup, s0, es);
    EnqueuedIsSent(setup, account, db, es);
    var trace := LedgerTrace(setup, s0, es);
    forall i | 0 <= i < |trace| && trace[i].Enqueue? ensures C.Splittable(trace[i].msg) {
      var j :| SentAt(s.round.effects, j, trace[i].msg);
      MessageIsSplittable(setup, account, db, es, j);
    }
    C.NeverHalts(setup.poolId, db, trace);
  }
}
