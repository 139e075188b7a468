/** When a round may start, and how much work it can do. */
module RoundWork {
  import opened Round
  import opened RoundProtocol

  // ----- Bounded work

  /** The lock sections left to an attender at this stage, at most. */
  function AttenderWork(stage: Stage): nat {
    match stage
    case Finished(_) => 0
    case RpcSignal => 1
    case Signalling => 1
    case RpcResume => 2
    case Resuming => 2
    case RpcClearEpoch => 3
    case ClearingEpoch(_) => 3
    case RpcClearNonce => 4
    case ClearingNonce(_) => 4
    case RpcReread => 5
    case WritingBack(_) => 5
    case RpcStore(_) => 6
    case Sending(_, _, _) => 6
    case Collecting(_, _) => 7
    case Rereading(_) => 8
    case Recording => 9
    case Polling(checks) => if checks < CHECK_LIMIT then 10 + 2 * (CHECK_LIMIT - checks) else 10
    case Asking(checks) => if checks < CHECK_LIMIT then 11 + 2 * (CHECK_LIMIT - checks) else 11
  }

  const ROUND_WORK: nat := 82

  /** The steps left in the current round; 0 outside a round. */
  function Work(s: State): nat {
    match s.main
    case AtPause(_) => ROUND_WORK
    case AtAttempt(_, k) => if k < SUBMIT_LIMIT then 76 + (SUBMIT_LIMIT - k) else 76
    case Awaiting => 1 + AttenderWork(CurrentStage(s))
    case AtRefresh => 4
    case AtClearNonce => 3
    case AtClearEpoch => 2
    case AtResume => 1
    case _ => 0
  }

  function AttemptsLeft(s: State): nat {
    match s.main
    case AtPause(_) => SUBMIT_LIMIT
    case AtAttempt(_, k) => if k < SUBMIT_LIMIT then SUBMIT_LIMIT - k else 0
    case _ => 0
  }

  function StagePolls(stage: Stage): nat {
    match stage
    case Polling(checks) => if checks < CHECK_LIMIT then CHECK_LIMIT - checks else 0
    case Asking(checks) => if checks < CHECK_LIMIT then CHECK_LIMIT - checks else 0
    case _ => 0
  }

  function PollsLeft(s: State): nat {
    match s.main
    case AtPause(_) => CHECK_LIMIT
    case AtAttempt(_, _) => CHECK_LIMIT
    case Awaiting => StagePolls(CurrentStage(s))
    case _ => 0
  }

  /** The steps of the environment: the chain grows, or the websocket writes the proof. */
  predicate Environment(e: Event) {
    e.ChainGrows? || e.Notified?
  }

  predicate IsPoll(s: State, e: Event) {
    e.Attend? && e.id in s.attenders && s.attenders[e.id].stage.Polling?
  }

  ghost predicate RoundRunning(s: State) {
    InRound(s.main) || s.main.AtPause?
  }

  /** Processor steps, attempts and polls along a run. */
  datatype Tally = Tally(steps: nat, attempts: nat, polls: nat)

  ghost function Count(config: Config, s: State, es: seq<Event>): Tally
    requires Legal(config, s, es)
    decreases |es|
  {
    if es == [] then Tally(0, 0, 0)
    else
      var rest := es[..|es| - 1];
      var e := es[|es| - 1];
      var t := Count(config, s, rest);
      Tally(t.steps + if Environment(e) then 0 else 1,
            t.attempts + if e.Attempt? then 1 else 0,
            t.polls + if IsPoll(Exec(config, s, rest), e) then 1 else 0)
  }

  lemma MoveSpendsWork(s: State, id: nat, input: Input)
    requires id in s.attenders && AttendEnabled(s.chain, s.proof, s.attenders[id], input)
    requires AttenderOk(s, s.attenders[id])
    ensures var stage, stage' := s.attenders[id].stage, AttenderMove(s, id, input).stage;
            && AttenderWork(stage') + 1 <= AttenderWork(stage)
            && StagePolls(stage') + (if stage.Polling? then 1 else 0) <= StagePolls(stage)
  {
  }

  lemma AttenderSpendsWork(config: Config, s: State, e: Event)
    requires Enabled(s, e) && Bounded(s) && OneAttender(s) && (e.Attend? || e.Crash?)
    ensures var s' := Apply(config, s, e);
            && s.main.Awaiting? && s'.main.Awaiting?
            && Work(s') + 1 <= Work(s)
            && PollsLeft(s') + (if IsPoll(s, e) then 1 else 0) <= PollsLeft(s)
  {
    assert Active(s, e.id);
    assert AttenderOk(s, s.attenders[e.id]);
    if e.Attend? {
      MoveSpendsWork(s, e.id, e.input);
    }
  }

  lemma MainSpendsWork(config: Config, s: State, e: Event)
    requires Enabled(s, e) && Bounded(s) && !e.Attend? && !e.Crash?
    requires RoundRunning(s) || (s.main.Idle? && !e.TakeSnapshot?)
    ensures var s' := Apply(config, s, e);
            && (RoundRunning(s') || s'.main.Idle?)
            && Work(s') + (if Environment(e) then 0 else 1) <= Work(s)
            && AttemptsLeft(s') + (if e.Attempt? then 1 else 0) <= AttemptsLeft(s)
            && PollsLeft(s') <= PollsLeft(s)
  {
    if Environment(e) {
      assert CurrentStage(Apply(config, s, e)) == CurrentStage(s);
    }
  }

  lemma StepSpendsWork(config: Config, s: State, e: Event)
    requires Enabled(s, e) && Bounded(s) && OneAttender(s)
    requires RoundRunning(s) || (s.main.Idle? && !e.TakeSnapshot?)
    ensures var s' := Apply(config, s, e);
            && (RoundRunning(s') || s'.main.Idle?)
            && Work(s') + (if Environment(e) then 0 else 1) <= Work(s)
            && AttemptsLeft(s') + (if e.Attempt? then 1 else 0) <= AttemptsLeft(s)
            && PollsLeft(s') + (if IsPoll(s, e) then 1 else 0) <= PollsLeft(s)
  {
    if e.Attend? || e.Crash? {
      AttenderSpendsWork(config, s, e);
    } else {
      MainSpendsWork(config, s, e);
    }
  }

  lemma {:induction false} SegmentSpendsWork(config: Config, s: State, es: seq<Event>)
    requires Legal(config, s, es) && Bounded(s) && OneAttender(s) && RoundRunning(s)
    requires TakeSnapshot !in es
    ensures var s' := Exec(config, s, es);
            var t := Count(config, s, es);
            && (RoundRunning(s') || s'.main.Idle?)
            && t.steps + Work(s') <= Work(s)
            && t.attempts + AttemptsLeft(s') <= AttemptsLeft(s)
            && t.polls + PollsLeft(s') <= PollsLeft(s)
    decreases |es|
  {
    if es != [] {
      var rest, e := es[..|es| - 1], es[|es| - 1];
      assert e in es;
      SegmentSpendsWork(config, s, rest);
      SegmentKeepsProtocol(config, s, rest);
      StepSpendsWork(config, Exec(config, s, rest), e);
    }
  }

  /** A round that is about to pause ends within 82 steps of the processor, whatever the
      environment does meanwhile: at most 5 attempts and 30 polls of the attender. */
  lemma RoundIsBounded(config: Config, account: Account, before: seq<Event>, es: seq<Event>)
    requires Legal(config, Initial(account), before)
    requires var s := Exec(config, Initial(account), before);
             s.main.AtPause? && Legal(config, s, es) && TakeSnapshot !in es
    ensures var t := Count(config, Exec(config, Initial(account), before), es);
            t.steps <= 82 && t.attempts <= 5 && t.polls <= 30
  {
    RunKeepsProtocol(config, account, before);
    SegmentSpendsWork(config, Exec(config, Initial(account), before), es);
  }

  // ----- Deferrals

  /** The rechecks since the last pause that sent the main loop back to wait for more miners. */
  ghost function Deferrals(config: Config, s: State, es: seq<Event>): nat
    requires Legal(config, s, es)
    decreases |es|
  {
    if es == [] then 0
    else
      var rest := es[..|es| - 1];
      var e := es[|es| - 1];
      if e.Pause? then 0
      else if e.Recheck? && Apply(config, Exec(config, s, rest), e).main.Idle? then Deferrals(config, s, rest) + 1
      else Deferrals(config, s, rest)
  }

  ghost predicate WaitingFits(s: State, deferrals: nat) {
    && deferrals <= WAIT_LIMIT && s.waiting <= WAIT_LIMIT
    && (if s.main.AtPause? then s.waiting == 0 else deferrals == s.waiting)
  }

  lemma StepKeepsWaiting(config: Config, s: State, e: Event, d: nat)
    requires Enabled(s, e) && WaitingFits(s, d)
    ensures var s' := Apply(config, s, e);
            WaitingFits(s', if e.Pause? then 0 else if e.Recheck? && s'.main.Idle? then d + 1 else d)
  {
  }

  /** At most 6 deferrals separate consecutive rounds. */
  lemma {:induction false} AtMostSixDeferrals(config: Config, account: Account, es: seq<Event>)
    requires Legal(config, Initial(account), es)
    ensures Deferrals(config, Initial(account), es) <= 6
    ensures WaitingFits(Exec(config, Initial(account), es), Deferrals(config, Initial(account), es))
    decreases |es|
  {
    if es != [] {
      var rest := es[..|es| - 1];
      AtMostSixDeferrals(config, account, rest);
      StepKeepsWaiting(config, Exec(config, Initial(account), rest), es[|es| - 1],
                       Deferrals(config, Initial(account), rest));
    }
  }

  // ----- Timing

  ghost function LastClock(es: seq<Event>): int {
    if es == [] then 0
    else if es[|es| - 1].CheckCutoff? then es[|es| - 1].clock
    else LastClock(es[..|es| - 1])
  }

  /** The buffer time cancels out: past the gate the clock stands at or after the last hash plus
      60 seconds plus the risk time. */
  lemma GateIffDue(config: Config, account: Account, clock: int)
    ensures var c := Cutoff(config, account, clock);
            c <= 0 && c <= 0 - config.bufferTime <==> clock >= account.lastHashAt + 60 + config.riskTime
  {
  }

  ghost predicate Due(config: Config, s: State, clock: int) {
    s.base < |s.chain| && clock >= s.chain[s.base].lastHashAt + BASE_INTERVAL + config.riskTime
  }

  ghost predicate PastGateDue(config: Config, s: State, clock: int) {
    !s.main.Idle? && !s.main.AtCutoff? ==> Due(config, s, clock)
  }

  lemma StepKeepsDue(config: Config, s: State, e: Event, clock: int)
    requires Enabled(s, e) && PastGateDue(config, s, clock)
    ensures PastGateDue(config, Apply(config, s, e), if e.CheckCutoff? then e.clock else clock)
  {
    var s' := Apply(config, s, e);
    if e.CheckCutoff? {
      GateIffDue(config, s.chain[s.base], e.clock);
    } else if !e.TakeSnapshot? {
      assert s'.base == s.base && (e.ChainGrows? || s'.chain == s.chain);
    }
  }

  /** A submission round runs only on a proof whose interval has elapsed, whatever the buffer. */
  lemma {:induction false} RoundsStartWhenDue(config: Config, account: Account, es: seq<Event>)
    requires Legal(config, Initial(account), es)
    ensures var s := Exec(config, Initial(account), es);
            !s.main.Idle? && !s.main.AtCutoff? ==> Due(config, s, LastClock(es))
    decreases |es|
  {
    if es != [] {
      var rest := es[..|es| - 1];
      RoundsStartWhenDue(config, account, rest);
      StepKeepsDue(config, Exec(config, Initial(account), rest), es[|es| - 1], LastClock(rest));
    }
  }
}
