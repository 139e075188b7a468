/** Who is paid, and for what, across the components: on every run of the pool, each share of a success
    message goes to the miner whose own task brought the solution. */
module PoolProvenance {
  import opened Prelude
  import opened Hashpower
  import opened Pool
  import opened IntakeProvenance
  import R = Round
  import I = Intake
  import T = Tables

  /** Some task of the intake run decided this very contribution of this pubkey. */
  ghost predicate Credited(o: I.Oracle, trace: seq<I.Event>, p: Pubkey, c: Contribution) {
    exists x :: Decided(o, trace, x) && x.pubkey == p && x.contribution == c
  }

  ghost predicate AllCredited(o: I.Oracle, trace: seq<I.Event>, contributions: Contributions) {
    forall p :: p in contributions ==> Credited(o, trace, p, contributions[p])
  }

  ghost predicate StageCredited(o: I.Oracle, trace: seq<I.Event>, stage: R.Stage) {
    stage.Sending? ==> AllCredited(o, trace, stage.collected)
  }

  /** What an attender has collected, and what was sent. */
  ghost predicate RoundCredited(o: I.Oracle, trace: seq<I.Event>, round: R.State) {
    && (forall id :: id in round.attenders ==> StageCredited(o, trace, round.attenders[id].stage))
    && (forall i :: 0 <= i < |round.effects| && round.effects[i].Sent? ==>
          AllCredited(o, trace, round.effects[i].message.contributions))
  }

  lemma StillCredited(o: I.Oracle, trace: seq<I.Event>, e: I.Event, contributions: Contributions)
    requires AllCredited(o, trace, contributions)
    ensures AllCredited(o, trace + [e], contributions)
  {
    forall p | p in contributions ensures Credited(o, trace + [e], p, contributions[p]) {
      var x :| Decided(o, trace, x) && x.pubkey == p && x.contribution == contributions[p];
      DecidedStays(o, trace, e, x);
    }
  }

  lemma TraceGrows(o: I.Oracle, trace: seq<I.Event>, e: I.Event, round: R.State)
    requires RoundCredited(o, trace, round)
    ensures RoundCredited(o, trace + [e], round)
  {
    forall id | id in round.attenders ensures StageCredited(o, trace + [e], round.attenders[id].stage) {
      assert StageCredited(o, trace, round.attenders[id].stage);
      if round.attenders[id].stage.Sending? {
        StillCredited(o, trace, e, round.attenders[id].stage.collected);
      }
    }
    forall i | 0 <= i < |round.effects| && round.effects[i].Sent?
      ensures AllCredited(o, trace + [e], round.effects[i].message.contributions)
    {
      StillCredited(o, trace, e, round.effects[i].message.contributions);
    }
  }

  lemma MoveKeepsCredited(o: I.Oracle, trace: seq<I.Event>, round: R.State, id: nat, input: R.Input)
    requires id in round.attenders && R.AttendEnabled(round.chain, round.proof, round.attenders[id], input)
    requires StageCredited(o, trace, round.attenders[id].stage)
    requires input.Seen? ==> AllCredited(o, trace, input.view.contributions)
    ensures var m := R.AttenderMove(round, id, input);
            && StageCredited(o, trace, m.stage)
            && (m.effect.Some? && m.effect.value.Sent? ==> AllCredited(o, trace, m.effect.value.message.contributions))
  {
  }

  lemma RoundStepKeepsCredited(o: I.Oracle, trace: seq<I.Event>, config: R.Config, round: R.State, e: R.Event)
    requires R.Enabled(round, e) && RoundCredited(o, trace, round)
    requires e.Attend? && e.input.Seen? ==> AllCredited(o, trace, e.input.view.contributions)
    ensures RoundCredited(o, trace, R.Apply(config, round, e))
  {
    var round', effect := R.Apply(config, round, e), R.Emitted(round, e);
    if e.Attend? {
      MoveKeepsCredited(o, trace, round, e.id, e.input);
    }
    assert effect.Some? && effect.value.Sent? ==> AllCredited(o, trace, effect.value.message.contributions);
    forall id | id in round'.attenders ensures StageCredited(o, trace, round'.attenders[id].stage) {
      if id in round.attenders {
        assert StageCredited(o, trace, round.attenders[id].stage);
      }
    }
  }

  /** What a read lock on the epoch shows was decided by tasks of the run. */
  lemma ViewIsCredited(setup: Setup, account: R.Account, db: T.Db, es: seq<Event>)
    requires setup.oracle.minDifficulty >= MIN_DIFF && Legal(setup, Initial(account, db), es)
    ensures var s0 := Initial(account, db);
            AllCredited(setup.oracle, IntakeTrace(setup, s0, es), ViewOf(Exec(setup, s0, es)).contributions)
  {
    var s0 := Initial(account, db);
    var trace := IntakeTrace(setup, s0, es);
    ProjectIntake(setup, s0, es);
    EveryCreditIsItsTasks(setup.oracle, trace);
    var contributions := ViewOf(Exec(setup, s0, es)).contributions;
    forall p | p in contributions ensures Credited(setup.oracle, trace, p, contributions[p]) {
    }
  }

  /** How one event extends the intake's part of a run. */
  lemma IntakeTraceSnoc(setup: Setup, s0: State, es: seq<Event>)
    requires setup.oracle.minDifficulty >= MIN_DIFF && Legal(setup, s0, es) && es != []
    ensures var rest := es[..|es| - 1];
            var i := IntakeEvent(Exec(setup, s0, rest), es[|es| - 1]);
            IntakeTrace(setup, s0, es)
            == if i.Some? then IntakeTrace(setup, s0, rest) + [i.value] else IntakeTrace(setup, s0, rest)
  {
  }

  lemma {:induction false} RunKeepsCredited(setup: Setup, account: R.Account, db: T.Db, es: seq<Event>)
    requires setup.oracle.minDifficulty >= MIN_DIFF && Legal(setup, Initial(account, db), es)
    ensures var s0 := Initial(account, db);
            RoundCredited(setup.oracle, IntakeTrace(setup, s0, es), Exec(setup, s0, es).round)
    decreases |es|
  {
    if es != [] {
      var s0, rest, e := Initial(account, db), es[..|es| - 1], es[|es| - 1];
      var s, before := Exec(setup, s0, rest), IntakeTrace(setup, s0, rest);
      RunKeepsCredited(setup, account, db, rest);
      ViewIsCredited(setup, account, db, rest);
      if e.OfRound? {
        RoundStepKeepsCredited(setup.oracle, before, setup.config, s.round, e.round);
      }
      IntakeTraceSnoc(setup, s0, es);
      if IntakeEvent(s, e).Some? {
        TraceGrows(setup.oracle, before, IntakeEvent(s, e).value, Exec(setup, s0, es).round);
      }
    }
  }

  // ----- The challenges that solutions are checked against

  ghost predicate OnTheChain(chain: seq<R.Account>, challenge: Challenge) {
    exists v :: 0 <= v < |chain| && chain[v].challenge == challenge
  }

  /** Intake reads no challenge that the pool's proof never had. */
  ghost predicate ChecksTheChain(trace: seq<I.Event>, chain: seq<R.Account>) {
    forall i :: 0 <= i < |trace| && trace[i].ReadProof? ==> OnTheChain(chain, trace[i].challenge)
  }

  lemma StepChecksTheChain(trace: seq<I.Event>, chain: seq<R.Account>, chain': seq<R.Account>, i: Option<I.Event>)
    requires ChecksTheChain(trace, chain) && chain <= chain'
    requires i.Some? && i.value.ReadProof? ==> OnTheChain(chain, i.value.challenge)
    ensures ChecksTheChain(if i.Some? then trace + [i.value] else trace, chain')
  {
    var longer := if i.Some? then trace + [i.value] else trace;
    forall k | 0 <= k < |longer| && longer[k].ReadProof? ensures OnTheChain(chain', longer[k].challenge) {
      assert OnTheChain(chain, longer[k].challenge);
      var v :| 0 <= v < |chain| && chain[v].challenge == longer[k].challenge;
      assert chain'[v] == chain[v];
    }
  }

  lemma {:induction false} RunChecksTheChain(setup: Setup, account: R.Account, db: T.Db, es: seq<Event>)
    requires setup.oracle.minDifficulty >= MIN_DIFF && Legal(setup, Initial(account, db), es)
    ensures var s0 := Initial(account, db);
            ChecksTheChain(IntakeTrace(setup, s0, es), Exec(setup, s0, es).round.chain)
    decreases |es|
  {
    if es != [] {
      var s0, rest, e := Initial(account, db), es[..|es| - 1], es[|es| - 1];
      var s := Exec(setup, s0, rest);
      RunChecksTheChain(setup, account, db, rest);
      IntakeTraceSnoc(setup, s0, es);
      StepChecksTheChain(IntakeTrace(setup, s0, rest), s.round.chain, Exec(setup, s0, es).round.chain,
                         IntakeEvent(s, e));
    }
  }

  lemma {:induction false} AnswerWasRead(trace: seq<I.Event>, t: nat)
    requires ProofAnswer(trace, t).Some?
    ensures exists i :: 0 <= i < |trace| && trace[i] == I.ReadProof(t, ProofAnswer(trace, t).value)
    decreases |trace|
  {
    var rest, e := trace[..|trace| - 1], trace[|trace| - 1];
    if e.ReadProof? && e.task == t {
      assert trace[|trace| - 1] == I.ReadProof(t, ProofAnswer(trace, t).value);
    } else {
      AnswerWasRead(rest, t);
      var i :| 0 <= i < |rest| && rest[i] == I.ReadProof(t, ProofAnswer(rest, t).value);
      assert trace[i] == rest[i];
    }
  }

  /** The share of a pubkey was earned by a solution that answers a challenge the pool's proof has had. */
  ghost predicate EarnedByWork(o: I.Oracle, trace: seq<I.Event>, chain: seq<R.Account>, p: Pubkey, c: Contribution) {
    exists x, v ::
      && Decided(o, trace, x) && x.pubkey == p && x.contribution == c
      && 0 <= v < |chain| && o.valid(x.solution, chain[v].challenge)
      && c.nonce == x.solution.nonce && c.diff == o.difficulty(x.solution) >= o.minDifficulty
  }

  lemma CreditedIsEarned(o: I.Oracle, trace: seq<I.Event>, chain: seq<R.Account>, p: Pubkey, c: Contribution)
    requires Credited(o, trace, p, c) && ChecksTheChain(trace, chain)
    ensures EarnedByWork(o, trace, chain, p, c)
  {
    var x :| Decided(o, trace, x) && x.pubkey == p && x.contribution == c;
    var j, t :| DecidedAt(o, trace, x, j, t);
    AnswerWasRead(trace[..j], t);
    var i :| 0 <= i < j && trace[..j][i] == I.ReadProof(t, ProofAnswer(trace[..j], t).value);
    assert trace[i] == trace[..j][i];
    assert OnTheChain(chain, trace[i].challenge);
    var v :| 0 <= v < |chain| && chain[v].challenge == trace[i].challenge;
    assert o.valid(x.solution, chain[v].challenge);
  }

  /** On every run of the whole pool: each contribution that a success message pays was decided by a task
      of the intake, which was given the solution under that very pubkey, found its nonce in the range it
      read there, credits the miner whom its own socket lookup answered, and checked the solution against
      a challenge that the pool's proof has had. */
  lemma EveryShareIsEarned(setup: Setup, account: R.Account, db: T.Db, es: seq<Event>, i: nat, p: Pubkey)
    requires setup.oracle.minDifficulty >= MIN_DIFF && Legal(setup, Initial(account, db), es)
    requires var effects := Exec(setup, Initial(account, db), es).round.effects;
             i < |effects| && effects[i].Sent? && p in effects[i].message.contributions
    ensures var s := Exec(setup, Initial(account, db), es);
            EarnedByWork(setup.oracle, IntakeTrace(setup, Initial(account, db), es), s.round.chain, p,
                   s.round.effects[i].message.contributions[p])
  {
    var s0 := Initial(account, db);
    RunKeepsCredited(setup, account, db, es);
    RunChecksTheChain(setup, account, db, es);
    var m := Exec(setup, s0, es).round.effects[i].message;
    CreditedIsEarned(setup.oracle, IntakeTrace(setup, s0, es), Exec(setup, s0, es).round.chain, p, m.contributions[p]);
  }
}
