/** The whole pool: the round protocol, intake, dispatch and the ledger, interleaved over the
    state they share. */
module Pool {
  import opened Prelude
  import opened Hashpower
  import R = Round
  import I = Intake
  import D = Dispatch
  import L = Ledger

  datatype Setup = Setup(config: R.Config, oracle: I.Oracle, poolId: int)

  datatype State = State(round: R.State, intake: I.State, dispatch: D.State, ledger: L.State)

  datatype Event =
    | OfRound(round: R.Event)
    | OfIntake(intake: I.Event)
    | OfDispatch(dispatch: D.Event)
    | OfLedger(ledger: L.Event)

  function Initial(account: R.Account, db: L.Tables.Db): State {
    State(R.Initial(account), I.INITIAL, D.INITIAL, L.Initial(db))
  }

  /** What a read lock on the epoch hashes shows. */
  function ViewOf(s: State): R.View {
    R.View(s.intake.epoch.solution, s.intake.epoch.contributions)
  }

  /** What a read lock on the range map shows for a pubkey, and which assignment wrote it. */
  predicate ReadsMap(s: State, p: Pubkey, range: Option<Range>, source: nat) {
    if p in s.dispatch.ranges
    then range == Some(s.dispatch.ranges[p]) && p in s.dispatch.sources && source == s.dispatch.sources[p]
    else range == None
  }

  /** Each component steps as it may on its own, but reads what the others have written: the
      epoch hashes, the range map, the shared proof and the dispatch flag. Resets and success messages come from the
      round alone. */
  ghost predicate Enabled(setup: Setup, s: State, e: Event) {
    match e
    case OfRound(r) =>
      && R.Enabled(s.round, r)
      && (r.Peek? ==> r.view == ViewOf(s))
      && (r.Recheck? ==> r.view == ViewOf(s))
      && (r.Attend? && r.input.Seen? ==> r.input.view == ViewOf(s))
    case OfIntake(i) =>
      && I.Enabled(s.intake, i) && !i.Reset?
      && (i.ReadRange? ==> ReadsMap(s, s.intake.tasks[i.task].pubkey, i.range, i.source))
      && (i.ReadProof? ==> s.round.proof < |s.round.chain| && i.challenge == s.round.chain[s.round.proof].challenge)
    case OfDispatch(d) =>
      && D.Enabled(s.dispatch, d) && !d.NonceReset?
      && (d.ReadFlag? ==> d.paused == s.round.paused)
      && (d.Decide? && d.cutoff <= 0 ==> d.solved == s.intake.epoch.solution.Some?)
    case OfLedger(l) => L.Enabled(s.ledger, l) && !l.Enqueue?
  }

  ghost function EffectOf(s: State, e: Event): Option<R.Effect>
    requires e.OfRound? ==> R.Enabled(s.round, e.round)
  {
    if e.OfRound? then R.Emitted(s.round, e.round) else None
  }

  /** The intake event that a step amounts to, if any. */
  ghost function IntakeEvent(s: State, e: Event): Option<I.Event>
    requires e.OfRound? ==> R.Enabled(s.round, e.round)
  {
    if e.OfIntake? then Some(e.intake)
    else if EffectOf(s, e) == Some(R.EpochCleared) then Some(I.Reset) else None
  }

  ghost function DispatchEvent(s: State, e: Event): Option<D.Event>
    requires e.OfRound? ==> R.Enabled(s.round, e.round)
  {
    if e.OfDispatch? then Some(e.dispatch)
    else if EffectOf(s, e) == Some(R.NonceCleared) then Some(D.NonceReset) else None
  }

  ghost function LedgerEvent(s: State, e: Event): Option<L.Event>
    requires e.OfRound? ==> R.Enabled(s.round, e.round)
  {
    if e.OfLedger? then Some(e.ledger)
    else if EffectOf(s, e).Some? && EffectOf(s, e).value.Sent? then Some(L.Enqueue(EffectOf(s, e).value.message))
    else None
  }

  ghost function Apply(setup: Setup, s: State, e: Event): State
    requires setup.oracle.minDifficulty >= MIN_DIFF
    requires Enabled(setup, s, e)
  {
    var i, d, l := IntakeEvent(s, e), DispatchEvent(s, e), LedgerEvent(s, e);
    State(if e.OfRound? then R.Apply(setup.config, s.round, e.round) else s.round,
          if i.Some? then I.Apply(setup.oracle, s.intake, i.value) else s.intake,
          if d.Some? then D.Apply(s.dispatch, d.value) else s.dispatch,
          if l.Some? then L.Apply(setup.poolId, s.ledger, l.value) else s.ledger)
  }

  ghost function Exec(setup: Setup, s: State, es: seq<Event>): State
    requires setup.oracle.minDifficulty >= MIN_DIFF
    requires Legal(setup, s, es)
    decreases |es|, 1
  {
    if es == [] then s else Apply(setup, Exec(setup, s, es[..|es| - 1]), es[|es| - 1])
  }

  ghost predicate Legal(setup: Setup, s: State, es: seq<Event>)
    requires setup.oracle.minDifficulty >= MIN_DIFF
    decreases |es|, 0
  {
    es == [] || (Legal(setup, s, es[..|es| - 1]) && Enabled(setup, Exec(setup, s, es[..|es| - 1]), es[|es| - 1]))
  }

  // ----- Each component's part of a run is a run of that component

  ghost function RoundTrace(es: seq<Event>): seq<R.Event> {
    if es == [] then []
    else RoundTrace(es[..|es| - 1]) + if es[|es| - 1].OfRound? then [es[|es| - 1].round] else []
  }

  ghost function IntakeTrace(setup: Setup, s: State, es: seq<Event>): seq<I.Event>
    requires setup.oracle.minDifficulty >= MIN_DIFF && Legal(setup, s, es)
    decreases |es|
  {
    if es == [] then []
    else
      var i := IntakeEvent(Exec(setup, s, es[..|es| - 1]), es[|es| - 1]);
      IntakeTrace(setup, s, es[..|es| - 1]) + if i.Some? then [i.value] else []
  }

  ghost function DispatchTrace(setup: Setup, s: State, es: seq<Event>): seq<D.Event>
    requires setup.oracle.minDifficulty >= MIN_DIFF && Legal(setup, s, es)
    decreases |es|
  {
    if es == [] then []
    else
      var d := DispatchEvent(Exec(setup, s, es[..|es| - 1]), es[|es| - 1]);
      DispatchTrace(setup, s, es[..|es| - 1]) + if d.Some? then [d.value] else []
  }

  ghost function LedgerTrace(setup: Setup, s: State, es: seq<Event>): seq<L.Event>
    requires setup.oracle.minDifficulty >= MIN_DIFF && Legal(setup, s, es)
    decreases |es|
  {
    if es == [] then []
    else
      var l := LedgerEvent(Exec(setup, s, es[..|es| - 1]), es[|es| - 1]);
      LedgerTrace(setup, s, es[..|es| - 1]) + if l.Some? then [l.value] else []
  }

  lemma {:induction false} ProjectRound(setup: Setup, s: State, es: seq<Event>)
    requires setup.oracle.minDifficulty >= MIN_DIFF && Legal(setup, s, es)
    ensures R.Legal(setup.config, s.round, RoundTrace(es))
    ensures R.Exec(setup.config, s.round, RoundTrace(es)) == Exec(setup, s, es).round
    decreases |es|
  {
    if es != [] {
      var rest, e := es[..|es| - 1], es[|es| - 1];
      ProjectRound(setup, s, rest);
      if e.OfRound? {
        R.ExecSnoc(setup.config, s.round, RoundTrace(rest), e.round);
      } else {
        assert RoundTrace(es) == RoundTrace(rest);
      }
    }
  }

  lemma IntakePart(setup: Setup, s: State, e: Event)
    requires setup.oracle.minDifficulty >= MIN_DIFF && Enabled(setup, s, e)
    ensures var i := IntakeEvent(s, e);
            if i.None? then Apply(setup, s, e).intake == s.intake
            else I.Enabled(s.intake, i.value) && Apply(setup, s, e).intake == I.Apply(setup.oracle, s.intake, i.value)
  {
  }

  lemma {:induction false} ProjectIntake(setup: Setup, s: State, es: seq<Event>)
    requires setup.oracle.minDifficulty >= MIN_DIFF && Legal(setup, s, es)
    ensures I.Legal(setup.oracle, s.intake, IntakeTrace(setup, s, es))
    ensures I.Exec(setup.oracle, s.intake, IntakeTrace(setup, s, es)) == Exec(setup, s, es).intake
    decreases |es|
  {
    if es != [] {
      var rest, e := es[..|es| - 1], es[|es| - 1];
      ProjectIntake(setup, s, rest);
      var t, before := Exec(setup, s, rest), IntakeTrace(setup, s, rest);
      IntakePart(setup, t, e);
      if IntakeEvent(t, e).Some? {
        I.ExecSnoc(setup.oracle, s.intake, before, IntakeEvent(t, e).value);
      } else {
        assert IntakeTrace(setup, s, es) == before;
      }
    }
  }

  lemma DispatchPart(setup: Setup, s: State, e: Event)
    requires setup.oracle.minDifficulty >= MIN_DIFF && Enabled(setup, s, e)
    ensures var d := DispatchEvent(s, e);
            if d.None? then Apply(setup, s, e).dispatch == s.dispatch
            else D.Enabled(s.dispatch, d.value) && Apply(setup, s, e).dispatch == D.Apply(s.dispatch, d.value)
  {
  }

  lemma {:induction false} ProjectDispatch(setup: Setup, s: State, es: seq<Event>)
    requires setup.oracle.minDifficulty >= MIN_DIFF && Legal(setup, s, es)
    ensures D.Legal(s.dispatch, DispatchTrace(setup, s, es))
    ensures D.Exec(s.dispatch, DispatchTrace(setup, s, es)) == Exec(setup, s, es).dispatch
    decreases |es|
  {
    if es != [] {
      var rest, e := es[..|es| - 1], es[|es| - 1];
      ProjectDispatch(setup, s, rest);
      var t, before := Exec(setup, s, rest), DispatchTrace(setup, s, rest);
      DispatchPart(setup, t, e);
      if DispatchEvent(t, e).Some? {
        D.ExecSnoc(s.dispatch, before, DispatchEvent(t, e).value);
      } else {
        assert DispatchTrace(setup, s, es) == before;
      }
    }
  }

  lemma LedgerPart(setup: Setup, s: State, e: Event)
    requires setup.oracle.minDifficulty >= MIN_DIFF && Enabled(setup, s, e)
    ensures var l := LedgerEvent(s, e);
            if l.None? then Apply(setup, s, e).ledger == s.ledger
            else L.Enabled(s.ledger, l.value) && Apply(setup, s, e).ledger == L.Apply(setup.poolId, s.ledger, l.value)
  {
  }

  lemma {:induction false} ProjectLedger(setup: Setup, s: State, es: seq<Event>)
    requires setup.oracle.minDifficulty >= MIN_DIFF && Legal(setup, s, es)
    ensures L.Legal(setup.poolId, s.ledger, LedgerTrace(setup, s, es))
    ensures L.Exec(setup.poolId, s.ledger, LedgerTrace(setup, s, es)) == Exec(setup, s, es).ledger
    decreases |es|
  {
    if es != [] {
      var rest, e := es[..|es| - 1], es[|es| - 1];
      ProjectLedger(setup, s, rest);
      var t, before := Exec(setup, s, rest), LedgerTrace(setup, s, rest);
      LedgerPart(setup, t, e);
      if LedgerEvent(t, e).Some? {
        L.ExecSnoc(setup.poolId, s.ledger, before, LedgerEvent(t, e).value);
      } else {
        assert LedgerTrace(setup, s, es) == before;
      }
    }
  }
}
