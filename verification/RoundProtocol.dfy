/** What every interleaving of the round protocol keeps, whatever the environment delivers. */
module RoundProtocol {
  import opened Prelude
  import opened Round

  // ----- One attender at a time

  ghost predicate AttenderOk(s: State, a: Attender) {
    && a.base < |s.chain|
    && match a.stage
       case Polling(checks) => checks < CHECK_LIMIT
       case Asking(checks) => checks < CHECK_LIMIT
       case RpcStore(found) => found < |s.chain|
       case Collecting(_, latest) => latest < |s.chain|
       case Sending(_, latest, _) => latest < |s.chain|
       case WritingBack(latest) => latest < |s.chain|
       case _ => true
  }

  ghost predicate Bounded(s: State) {
    && s.proof < |s.chain| && s.base < |s.chain| && s.floor < |s.chain|
    && s.waiting <= WAIT_LIMIT
    && (s.main.AtAttempt? ==> s.main.attempt < SUBMIT_LIMIT)
    && (forall id :: id in s.attenders ==> AttenderOk(s, s.attenders[id]))
  }

  ghost predicate OneAttender(s: State) {
    && (forall id :: id in s.attenders ==> id <= s.rounds)
    && (forall id :: Active(s, id) ==> id == s.rounds && s.main.Awaiting? && s.attenders[id].base == s.base)
    && (s.main.Awaiting? ==> s.rounds in s.attenders)
    && (s.main.AtAttempt? ==> s.rounds !in s.attenders)
  }

  lemma AttenderKeepsBounded(config: Config, s: State, e: Event)
    requires Enabled(s, e) && Bounded(s) && (e.Attend? || e.Crash?)
    ensures Bounded(Apply(config, s, e))
  {
    var s' := Apply(config, s, e);
    assert AttenderOk(s, s.attenders[e.id]);
    assert AttenderOk(s', s'.attenders[e.id]);
    forall id | id in s'.attenders ensures AttenderOk(s', s'.attenders[id]) {
      if id != e.id {
        assert AttenderOk(s, s.attenders[id]);
      }
    }
  }

  lemma StepKeepsBounded(config: Config, s: State, e: Event)
    requires Enabled(s, e) && Bounded(s)
    ensures Bounded(Apply(config, s, e))
  {
    if e.Attend? || e.Crash? {
      AttenderKeepsBounded(config, s, e);
    } else {
      var s' := Apply(config, s, e);
      forall id | id in s'.attenders ensures AttenderOk(s', s'.attenders[id]) {
        if id in s.attenders {
          assert AttenderOk(s, s.attenders[id]);
        }
      }
    }
  }

  lemma StepKeepsOneAttender(config: Config, s: State, e: Event)
    requires Enabled(s, e) && OneAttender(s)
    ensures OneAttender(Apply(config, s, e))
  {
    var s' := Apply(config, s, e);
    forall id | Active(s', id)
      ensures id == s'.rounds && s'.main.Awaiting? && s'.attenders[id].base == s'.base
    {
      if e != Attempt(Landed) {
        assert Active(s, id);
      }
    }
  }

  lemma {:induction false} SegmentKeepsProtocol(config: Config, s: State, es: seq<Event>)
    requires Legal(config, s, es) && Bounded(s) && OneAttender(s)
    ensures Bounded(Exec(config, s, es)) && OneAttender(Exec(config, s, es))
    decreases |es|
  {
    if es != [] {
      var rest := es[..|es| - 1];
      SegmentKeepsProtocol(config, s, rest);
      StepKeepsBounded(config, Exec(config, s, rest), es[|es| - 1]);
      StepKeepsOneAttender(config, Exec(config, s, rest), es[|es| - 1]);
    }
  }

  lemma RunKeepsProtocol(config: Config, account: Account, es: seq<Event>)
    requires Legal(config, Initial(account), es)
    ensures var s := Exec(config, Initial(account), es); Bounded(s) && OneAttender(s)
  {
    SegmentKeepsProtocol(config, Initial(account), es);
  }

  /** For all interleavings: at most one attender is neither signalled nor dropped, and while it
      is, the main loop waits for it, so no new round has started. */
  lemma AtMostOneAttender(config: Config, account: Account, es: seq<Event>, i: nat, j: nat)
    requires Legal(config, Initial(account), es)
    requires Active(Exec(config, Initial(account), es), i)
    ensures Exec(config, Initial(account), es).main.Awaiting?
    ensures i == Exec(config, Initial(account), es).rounds
    ensures Active(Exec(config, Initial(account), es), j) ==> i == j
  {
    RunKeepsProtocol(config, account, es);
  }

  // ----- The dispatch flag

  /** `x` happened after the last pause (and a pause there was). */
  ghost predicate ClearedAt(effects: seq<Effect>, x: Effect, j: int) {
    && 0 <= j < |effects| && effects[j] == x
    && (exists p :: 0 <= p < j && effects[p].Paused?)
    && (forall m :: j < m < |effects| ==> !effects[m].Paused?)
  }

  ghost predicate SincePause(effects: seq<Effect>, x: Effect) {
    exists j :: ClearedAt(effects, x, j)
  }

  ghost predicate HasPaused(effects: seq<Effect>) {
    exists p :: 0 <= p < |effects| && effects[p].Paused?
  }

  lemma SincePauseSurvives(effects: seq<Effect>, x: Effect, y: Effect)
    requires SincePause(effects, x) && !y.Paused?
    ensures SincePause(effects + [y], x)
  {
    var j :| ClearedAt(effects, x, j);
    var p :| 0 <= p < j && effects[p].Paused?;
    assert (effects + [y])[p] == effects[p];
    assert ClearedAt(effects + [y], x, j);
  }

  lemma SincePauseNow(effects: seq<Effect>, x: Effect)
    requires HasPaused(effects)
    ensures SincePause(effects + [x], x)
  {
    var p :| 0 <= p < |effects| && effects[p].Paused?;
    assert (effects + [x])[p] == effects[p];
    assert ClearedAt(effects + [x], x, |effects|);
  }

  /** The part of a round that still owes the resets, and has paused dispatch. */
  ghost predicate InRound(main: Main) {
    main.AtAttempt? || main.Awaiting? || main.AtRefresh? || main.AtClearNonce? || main.AtClearEpoch? || main.AtResume?
  }

  ghost predicate BeforeResume(stage: Stage) {
    !stage.RpcSignal? && !stage.Signalling? && !stage.Finished?
  }

  ghost predicate NonceDone(main: Main, stage: Stage) {
    main.AtClearEpoch? || main.AtResume?
    || (main.Awaiting? && (stage.RpcClearEpoch? || stage.RpcResume? || stage.ClearingEpoch? || stage.Resuming?))
  }

  ghost predicate EpochDone(main: Main, stage: Stage) {
    main.AtResume? || (main.Awaiting? && (stage.RpcResume? || stage.Resuming?))
  }

  function CurrentStage(s: State): Stage {
    if s.rounds in s.attenders then s.attenders[s.rounds].stage else Finished(false)
  }

  /** What the effect log says about pauses and resets. */
  datatype LogFacts = LogFacts(everPaused: bool, nonceCleared: bool, epochCleared: bool)

  ghost function Facts(effects: seq<Effect>): LogFacts {
    LogFacts(HasPaused(effects), SincePause(effects, NonceCleared), SincePause(effects, EpochCleared))
  }

  ghost predicate FlagFits(s: State, f: LogFacts) {
    && (InRound(s.main) ==> f.everPaused)
    && (InRound(s.main) && (s.main.Awaiting? ==> BeforeResume(CurrentStage(s))) ==> s.paused)
    && (NonceDone(s.main, CurrentStage(s)) ==> f.nonceCleared)
    && (EpochDone(s.main, CurrentStage(s)) ==> f.epochCleared)
  }

  /** The flag and the resets behind it, in terms of where the round stands. */
  ghost predicate FlagOk(s: State) {
    FlagFits(s, Facts(s.effects))
  }

  /** How one more effect may change those facts. */
  ghost predicate FactsAfter(f: LogFacts, effect: Option<Effect>, g: LogFacts) {
    match effect
    case None => g == f
    case Some(Paused) => g.everPaused
    case Some(x) =>
      f.everPaused ==>
        && g.everPaused
        && (f.nonceCleared || x.NonceCleared? ==> g.nonceCleared)
        && (f.epochCleared || x.EpochCleared? ==> g.epochCleared)
  }

  /** Every resumption found both resets done since the last pause. */
  ghost predicate ResumedClean(effects: seq<Effect>) {
    forall i :: 0 <= i < |effects| && effects[i].Resumed? ==>
      SincePause(effects[..i], NonceCleared) && SincePause(effects[..i], EpochCleared)
  }

  lemma ResumedCleanSnoc(effects: seq<Effect>, x: Effect)
    requires ResumedClean(effects)
    requires x.Resumed? ==> SincePause(effects, NonceCleared) && SincePause(effects, EpochCleared)
    ensures ResumedClean(effects + [x])
  {
    var longer := effects + [x];
    forall i | 0 <= i < |longer| && longer[i].Resumed?
      ensures SincePause(longer[..i], NonceCleared) && SincePause(longer[..i], EpochCleared)
    {
      if i < |effects| {
        assert longer[..i] == effects[..i];
      } else {
        assert longer[..i] == effects;
      }
    }
  }

  lemma FactsPersist(effects: seq<Effect>, x: Effect)
    requires HasPaused(effects) && !x.Paused?
    ensures HasPaused(effects + [x]) && SincePause(effects + [x], x)
    ensures SincePause(effects, NonceCleared) ==> SincePause(effects + [x], NonceCleared)
    ensures SincePause(effects, EpochCleared) ==> SincePause(effects + [x], EpochCleared)
  {
    var p :| 0 <= p < |effects| && effects[p].Paused?;
    assert (effects + [x])[p].Paused?;
    SincePauseNow(effects, x);
    if SincePause(effects, NonceCleared) {
      SincePauseSurvives(effects, NonceCleared, x);
    }
    if SincePause(effects, EpochCleared) {
      SincePauseSurvives(effects, EpochCleared, x);
    }
  }

  lemma FactsOfAppended(effects: seq<Effect>, effect: Option<Effect>)
    ensures FactsAfter(Facts(effects), effect, Facts(Appended(effects, effect)))
  {
    if effect.Some? {
      var x := effect.value;
      if x.Paused? {
        assert (effects + [x])[|effects|].Paused?;
      } else if HasPaused(effects) {
        FactsPersist(effects, x);
      }
    }
  }

  lemma AttenderFitsFlag(config: Config, s: State, e: Event, f: LogFacts, g: LogFacts)
    requires Enabled(s, e) && OneAttender(s) && (e.Attend? || e.Crash?)
    requires FlagFits(s, f) && FactsAfter(f, Emitted(s, e), g)
    ensures FlagFits(Apply(config, s, e), g)
    ensures Emitted(s, e) == Some(Resumed) ==> f.nonceCleared && f.epochCleared
  {
    assert Active(s, e.id);
    assert CurrentStage(s) == s.attenders[e.id].stage;
    assert CurrentStage(Apply(config, s, e)) ==
           if e.Attend? then AttenderMove(s, e.id, e.input).stage else Finished(false);
  }

  lemma MainFitsFlag(config: Config, s: State, e: Event, f: LogFacts, g: LogFacts)
    requires Enabled(s, e) && !e.Attend? && !e.Crash?
    requires FlagFits(s, f) && FactsAfter(f, Emitted(s, e), g)
    ensures FlagFits(Apply(config, s, e), g)
    ensures Emitted(s, e) == Some(Resumed) ==> f.nonceCleared && f.epochCleared
  {
  }

  lemma StepKeepsFlag(config: Config, s: State, e: Event)
    requires Enabled(s, e) && OneAttender(s) && FlagOk(s) && ResumedClean(s.effects)
    ensures FlagOk(Apply(config, s, e)) && ResumedClean(Apply(config, s, e).effects)
  {
    var effect := Emitted(s, e);
    FactsOfAppended(s.effects, effect);
    if e.Attend? || e.Crash? {
      AttenderFitsFlag(config, s, e, Facts(s.effects), Facts(Appended(s.effects, effect)));
    } else {
      MainFitsFlag(config, s, e, Facts(s.effects), Facts(Appended(s.effects, effect)));
    }
    if effect.Some? {
      ResumedCleanSnoc(s.effects, effect.value);
    }
  }

  lemma {:induction false} RunKeepsFlag(config: Config, account: Account, es: seq<Event>)
    requires Legal(config, Initial(account), es)
    ensures var s := Exec(config, Initial(account), es); FlagOk(s) && ResumedClean(s.effects)
    decreases |es|
  {
    if es != [] {
      var rest := es[..|es| - 1];
      RunKeepsFlag(config, account, rest);
      RunKeepsProtocol(config, account, rest);
      StepKeepsFlag(config, Exec(config, Initial(account), rest), es[|es| - 1]);
    }
  }

  /** For all interleavings, crashes included: dispatch is resumed only after both a nonce reset
      and an epoch reset that follow the last pause. */
  lemma ResumedOnlyAfterBothResets(config: Config, account: Account, es: seq<Event>, i: nat)
    requires Legal(config, Initial(account), es)
    requires i < |Exec(config, Initial(account), es).effects|
    requires Exec(config, Initial(account), es).effects[i].Resumed?
    ensures var before := Exec(config, Initial(account), es).effects[..i];
            SincePause(before, NonceCleared) && SincePause(before, EpochCleared)
  {
    RunKeepsFlag(config, account, es);
  }

  /** An attender that gives up after the last check leaves dispatch paused, and so does the main
      loop's return from waiting for it. */
  lemma CheckLimitLeavesPaused(config: Config, account: Account, es: seq<Event>, id: nat, input: Input)
    requires Legal(config, Initial(account), es)
    requires var s := Exec(config, Initial(account), es);
             && id in s.attenders && s.attenders[id].stage == Polling(CHECK_LIMIT - 1)
             && Enabled(s, Attend(id, input))
             && s.chain[s.attenders[id].base].challenge == s.chain[s.proof].challenge
    ensures var s1 := Apply(config, Exec(config, Initial(account), es), Attend(id, input));
            && s1.attenders[id].stage == Finished(false) && s1.paused
            && Enabled(s1, AwaitAttender) && Apply(config, s1, AwaitAttender).paused
            && Apply(config, s1, AwaitAttender).effects == Exec(config, Initial(account), es).effects
  {
    RunKeepsProtocol(config, account, es);
    RunKeepsFlag(config, account, es);
    assert Active(Exec(config, Initial(account), es), id);
  }

  /** An attender that has resumed dispatch finds it running until it ends. */
  ghost predicate RunningAgain(s: State) {
    forall id :: Active(s, id) && !BeforeResume(s.attenders[id].stage) ==> !s.paused
  }

  lemma StepKeepsRunning(config: Config, s: State, e: Event)
    requires Enabled(s, e) && OneAttender(s) && RunningAgain(s)
    ensures RunningAgain(Apply(config, s, e))
  {
    var s' := Apply(config, s, e);
    forall id | Active(s', id) && !BeforeResume(s'.attenders[id].stage) ensures !s'.paused {
      assert Active(s, id);
      if e.Attend? || e.Crash? {
        assert Active(s, e.id);
      }
    }
  }

  lemma {:induction false} RunKeepsRunning(config: Config, account: Account, es: seq<Event>)
    requires Legal(config, Initial(account), es)
    ensures RunningAgain(Exec(config, Initial(account), es))
    decreases |es|
  {
    if es != [] {
      var rest := es[..|es| - 1];
      RunKeepsRunning(config, account, rest);
      RunKeepsProtocol(config, account, rest);
      StepKeepsRunning(config, Exec(config, Initial(account), rest), es[|es| - 1]);
    }
  }

  /** An attender may panic at any time. The main loop goes on without its signal, nothing is reset,
      and dispatch stays paused exactly when the attender had not yet resumed it. */
  lemma CrashLeavesPausedIff(config: Config, account: Account, es: seq<Event>, id: nat)
    requires Legal(config, Initial(account), es) && Active(Exec(config, Initial(account), es), id)
    ensures var s := Exec(config, Initial(account), es);
            && Enabled(s, Crash(id)) && Enabled(Apply(config, s, Crash(id)), AwaitAttender)
            && var s2 := Apply(config, Apply(config, s, Crash(id)), AwaitAttender);
               && s2.main.Idle? && s2.effects == s.effects && !Active(s2, id)
               && (s2.paused <==> BeforeResume(s.attenders[id].stage))
  {
    RunKeepsProtocol(config, account, es);
    RunKeepsFlag(config, account, es);
    RunKeepsRunning(config, account, es);
  }

  // ----- One success message a round

  ghost predicate AfterSend(stage: Stage) {
    || stage.WritingBack? || stage.ClearingNonce? || stage.ClearingEpoch? || stage.Resuming? || stage.Signalling?
    || stage.Finished?
  }

  ghost predicate SentOk(s: State) {
    forall i :: 0 <= i < |s.effects| && s.effects[i].Sent? ==>
      var r := s.effects[i].message.round;
      r in s.attenders && AfterSend(s.attenders[r].stage)
  }

  ghost predicate SentOnce(effects: seq<Effect>) {
    forall i, j :: 0 <= i < j < |effects| && effects[i].Sent? && effects[j].Sent? ==>
      effects[i].message.round < effects[j].message.round
  }

  /** An attender past its send stays past it. */
  lemma PastSendStays(config: Config, s: State, e: Event, r: nat)
    requires Enabled(s, e) && OneAttender(s) && r in s.attenders && AfterSend(s.attenders[r].stage)
    ensures r in Apply(config, s, e).attenders && AfterSend(Apply(config, s, e).attenders[r].stage)
  {
  }

  /** A message is sent by the current round, before any other message of it. */
  lemma SenderIsNew(config: Config, s: State, e: Event)
    requires Enabled(s, e) && OneAttender(s) && SentOk(s)
    requires Emitted(s, e).Some? && Emitted(s, e).value.Sent?
    ensures var r := Emitted(s, e).value.message.round;
            && r in Apply(config, s, e).attenders && AfterSend(Apply(config, s, e).attenders[r].stage)
            && forall i :: 0 <= i < |s.effects| && s.effects[i].Sent? ==> s.effects[i].message.round < r
  {
    assert Active(s, e.id);
    forall i | 0 <= i < |s.effects| && s.effects[i].Sent? ensures s.effects[i].message.round < e.id {
      var r := s.effects[i].message.round;
      assert r in s.attenders && AfterSend(s.attenders[r].stage);
    }
  }

  lemma StepKeepsSent(config: Config, s: State, e: Event)
    requires Enabled(s, e) && OneAttender(s) && SentOk(s) && SentOnce(s.effects)
    ensures SentOk(Apply(config, s, e)) && SentOnce(Apply(config, s, e).effects)
  {
    var s', effect := Apply(config, s, e), Emitted(s, e);
    var sends := effect.Some? && effect.value.Sent?;
    assert s'.effects == Appended(s.effects, effect);
    if sends {
      SenderIsNew(config, s, e);
    }
    forall i | 0 <= i < |s'.effects| && s'.effects[i].Sent?
      ensures var r := s'.effects[i].message.round; r in s'.attenders && AfterSend(s'.attenders[r].stage)
    {
      if i < |s.effects| {
        PastSendStays(config, s, e, s.effects[i].message.round);
      }
    }
  }

  /** Each round sends at most one success message, and messages are sent in round order. */
  lemma {:induction false} OneMessagePerRound(config: Config, account: Account, es: seq<Event>)
    requires Legal(config, Initial(account), es)
    ensures var s := Exec(config, Initial(account), es); SentOk(s) && SentOnce(s.effects)
    decreases |es|
  {
    if es != [] {
      var rest := es[..|es| - 1];
      OneMessagePerRound(config, account, rest);
      RunKeepsProtocol(config, account, rest);
      StepKeepsSent(config, Exec(config, Initial(account), rest), es[|es| - 1]);
    }
  }
}
