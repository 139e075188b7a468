/** The submission round: the main loop, the attender of a landed transaction and the websocket
    writer of the shared proof, one lock section at a time. */
module Round {
  import opened Prelude
  import opened RewardSplit

  const SUBMIT_LIMIT: nat := 5
  const CHECK_LIMIT: nat := 30
  const WAIT_LIMIT: nat := 6
  const BASE_INTERVAL: int := 60

  /** The pool's proof account at one moment of the chain. */
  datatype Account = Account(challenge: Challenge, balance: nat, lastHashAt: int)

  datatype Config = Config(bufferTime: nat, riskTime: nat)

  /** What one read lock on the epoch hashes returns. */
  datatype View = View(solution: Option<Solution>, contributions: Contributions)

  /** How one submission attempt ends: landed, to be tried again, or given up. */
  datatype Outcome = Landed | Retry | GiveUp

  datatype Main =
    | Idle
    | AtCutoff
    | AtPeek
    | AtRecheck
    | AtPause(best: Option<Solution>)
    | AtAttempt(best: Option<Solution>, attempt: nat)
    | Awaiting
    | AtRefresh
    | AtClearNonce
    | AtClearEpoch
    | AtResume

  /** Proofs are named by their position (version) in the chain's history. The stages from
      `RpcStore` on belong to the exit without a success message. */
  datatype Stage =
    | Polling(checks: nat)
    | Asking(checks: nat)
    | RpcStore(found: nat)
    | RpcReread
    | RpcClearNonce
    | RpcClearEpoch
    | RpcResume
    | RpcSignal
    | Recording
    | Rereading(challengeId: int)
    | Collecting(challengeId: int, latest: nat)
    | Sending(challengeId: int, latest: nat, collected: Contributions)
    | WritingBack(latest: nat)
    | ClearingNonce(latest: nat)
    | ClearingEpoch(latest: nat)
    | Resuming
    | Signalling
    | Finished(signalled: bool)

  datatype Attender = Attender(base: nat, best: Solution, stage: Stage)

  datatype Effect =
    | Paused
    | Resumed
    | NonceCleared
    | EpochCleared
    | Sent(message: Message)

  /** `proof` is the shared proof, `paused` the dispatch flag, `waiting` the deferral counter.
      History: `chain`, `rounds` (pauses so far), `floor` (the newest version the processor has
      read for its own use), and `effects`, the steps that other components observe. */
  datatype State = State(
    chain: seq<Account>, proof: nat, paused: bool, base: nat, waiting: nat, main: Main,
    rounds: nat, attenders: map<nat, Attender>, floor: nat, effects: seq<Effect>)

  function Initial(account: Account): State {
    State([account], 0, false, 0, 0, Idle, 0, map[], 0, [])
  }

  datatype Input =
    | Nothing
    | Fetched(version: Option<nat>)
    | Found(challengeId: int)
    | Seen(view: View)

  datatype Event =
    | ChainGrows(account: Account)
    | Notified(version: nat)
    | TakeSnapshot
    | CheckCutoff(clock: int)
    | Peek(view: View)
    | Recheck(view: View, active: nat)
    | Pause
    | Attempt(outcome: Outcome)
    | AwaitAttender
    | Refresh(fetched: Option<nat>)
    | ClearNonce
    | ClearEpoch
    | Resume
    | Attend(id: nat, input: Input)
    | Crash(id: nat)

  /** The seconds left before the cutoff, with or without risk time. */
  function Cutoff(config: Config, account: Account, clock: int): int {
    if config.riskTime > 0 then account.lastHashAt + BASE_INTERVAL + config.riskTime - config.bufferTime - clock
    else account.lastHashAt + BASE_INTERVAL - config.bufferTime - clock
  }

  ghost predicate Active(s: State, id: nat) {
    id in s.attenders && !s.attenders[id].stage.Finished?
  }

  /** The proof versions in use exist on the chain. */
  predicate OnChain(s: State, version: nat) {
    version < |s.chain|
  }

  predicate AttendEnabled(chain: seq<Account>, proof: nat, a: Attender, input: Input) {
    && a.base < |chain| && proof < |chain|
    && match a.stage
       case Asking(_) => input.Fetched? && (input.version.Some? ==> input.version.value < |chain|)
       case Recording => input.Found?
       case Collecting(_, latest) => input.Seen? && latest < |chain|
       case Sending(_, latest, _) => input.Nothing? && latest < |chain|
       case Finished(_) => false
       case _ => input.Nothing?
  }

  predicate Enabled(s: State, e: Event) {
    match e
    case ChainGrows(_) => true
    case Notified(v) => OnChain(s, v)
    case TakeSnapshot => s.main.Idle?
    case CheckCutoff(_) => s.main.AtCutoff? && OnChain(s, s.base)
    case Peek(_) => s.main.AtPeek?
    case Recheck(_, _) => s.main.AtRecheck?
    case Pause => s.main.AtPause?
    case Attempt(o) => s.main.AtAttempt? && (s.main.best.None? ==> o.Retry?)
    case AwaitAttender => s.main.Awaiting? && s.rounds in s.attenders && s.attenders[s.rounds].stage.Finished?
    case Refresh(v) => s.main.AtRefresh? && (v.Some? ==> OnChain(s, v.value))
    case ClearNonce => s.main.AtClearNonce?
    case ClearEpoch => s.main.AtClearEpoch?
    case Resume => s.main.AtResume?
    case Attend(id, input) => id in s.attenders && AttendEnabled(s.chain, s.proof, s.attenders[id], input)
    case Crash(id) => id in s.attenders && !s.attenders[id].stage.Finished?
  }

  /** The reward of a message: a `u64` difference cast to `i64`. */
  function RewardOf(latest: Account, base: Account): int {
    AsI64(WrapU64(latest.balance - base.balance))
  }

  ghost function NewMessage(chain: seq<Account>, id: nat, a: Attender): Message
    requires a.stage.Sending? && a.base < |chain| && a.stage.latest < |chain|
  {
    Message(id, a.base, a.stage.latest, RewardOf(chain[a.stage.latest], chain[a.base]), a.stage.challengeId,
            chain[a.base].challenge, a.best.nonce, TotalHashpower(a.stage.collected), a.stage.collected)
  }

  /** What one lock section of the attender does. */
  datatype Move = Move(stage: Stage, proof: nat, paused: bool, floor: nat, effect: Option<Effect>)

  function Newer(a: nat, b: nat): nat {
    if a > b then a else b
  }

  /** The move of attender `a`, given the chain and the shared values it finds in `stay`. */
  ghost function MoveOf(chain: seq<Account>, id: nat, a: Attender, stay: Move, input: Input): Move
    requires stay.stage == a.stage && stay.effect.None? && AttendEnabled(chain, stay.proof, a, input)
  {
    match a.stage
    case Polling(checks) =>
      if chain[a.base].challenge != chain[stay.proof].challenge then stay.(stage := Recording)
      else if checks + 1 >= CHECK_LIMIT then stay.(stage := Finished(false))
      else stay.(stage := Asking(checks + 1))
    case Asking(checks) =>
      if input.version.Some? && chain[a.base].challenge != chain[input.version.value].challenge
      then stay.(stage := RpcStore(input.version.value))
      else stay.(stage := Polling(checks))
    case RpcStore(found) => stay.(stage := RpcReread, proof := found)
    case RpcReread => stay.(stage := RpcClearNonce)
    case RpcClearNonce => stay.(stage := RpcClearEpoch, effect := Some(NonceCleared))
    case RpcClearEpoch => stay.(stage := RpcResume, effect := Some(EpochCleared))
    case RpcResume => stay.(stage := RpcSignal, paused := false, effect := Some(Resumed))
    case RpcSignal => stay.(stage := Finished(true))
    case Recording => stay.(stage := Rereading(input.challengeId))
    case Rereading(cid) => stay.(stage := Collecting(cid, stay.proof), floor := Newer(stay.floor, stay.proof))
    case Collecting(cid, latest) => stay.(stage := Sending(cid, latest, input.view.contributions))
    case Sending(_, latest, _) => stay.(stage := WritingBack(latest), effect := Some(Sent(NewMessage(chain, id, a))))
    case WritingBack(latest) => stay.(stage := ClearingNonce(latest), proof := latest)
    case ClearingNonce(latest) => stay.(stage := ClearingEpoch(latest), effect := Some(NonceCleared))
    case ClearingEpoch(latest) => stay.(stage := Resuming, effect := Some(EpochCleared))
    case Resuming => stay.(stage := Signalling, paused := false, effect := Some(Resumed))
    case Signalling => stay.(stage := Finished(true))
  }

  ghost function AttenderMove(s: State, id: nat, input: Input): Move
    requires id in s.attenders && AttendEnabled(s.chain, s.proof, s.attenders[id], input)
  {
    MoveOf(s.chain, id, s.attenders[id], Move(s.attenders[id].stage, s.proof, s.paused, s.floor, None), input)
  }

  function WithStage(s: State, id: nat, stage: Stage): map<nat, Attender>
    requires id in s.attenders
  {
    s.attenders[id := s.attenders[id].(stage := stage)]
  }

  /** The effect that other components observe. */
  ghost function Emitted(s: State, e: Event): Option<Effect>
    requires Enabled(s, e)
  {
    match e
    case Pause => Some(Paused)
    case ClearNonce => Some(NonceCleared)
    case ClearEpoch => Some(EpochCleared)
    case Resume => Some(Resumed)
    case Attend(id, input) => AttenderMove(s, id, input).effect
    case _ => None
  }

  function Appended(effects: seq<Effect>, effect: Option<Effect>): seq<Effect> {
    match effect
    case None => effects
    case Some(x) => effects + [x]
  }

  /** The state without its effect log. */
  ghost function Moved(config: Config, s: State, e: Event): State
    requires Enabled(s, e)
  {
    match e
    case ChainGrows(account) => s.(chain := s.chain + [account])
    case Notified(v) => s.(proof := v)
    case TakeSnapshot => s.(base := s.proof, floor := Newer(s.floor, s.proof), main := AtCutoff)
    case CheckCutoff(clock) =>
      var cutoff := Cutoff(config, s.chain[s.base], clock);
      s.(main := if cutoff <= 0 && cutoff <= 0 - config.bufferTime then AtPeek else Idle)
    case Peek(view) => s.(main := if view.solution.Some? then AtRecheck else Idle)
    case Recheck(view, active) =>
      if |view.contributions| != active && s.waiting < WAIT_LIMIT then s.(waiting := s.waiting + 1, main := Idle)
      else s.(waiting := 0, main := AtPause(view.solution))
    case Pause => s.(paused := true, rounds := s.rounds + 1, main := AtAttempt(s.main.best, 0))
    case Attempt(outcome) =>
      if outcome.Landed? then
        s.(attenders := s.attenders[s.rounds := Attender(s.base, s.main.best.value, Polling(0))], main := Awaiting)
      else if outcome.Retry? && s.main.attempt + 1 < SUBMIT_LIMIT then
        s.(main := AtAttempt(s.main.best, s.main.attempt + 1))
      else s.(main := AtRefresh)
    case AwaitAttender => s.(main := Idle)
    case Refresh(v) => s.(proof := if v.Some? then v.value else s.proof, main := AtClearNonce)
    case ClearNonce => s.(main := AtClearEpoch)
    case ClearEpoch => s.(main := AtResume)
    case Resume => s.(paused := false, main := Idle)
    case Attend(id, input) =>
      var m := AttenderMove(s, id, input);
      s.(attenders := WithStage(s, id, m.stage), proof := m.proof, paused := m.paused, floor := m.floor)
    case Crash(id) => s.(attenders := WithStage(s, id, Finished(false)))
  }

  ghost function Apply(config: Config, s: State, e: Event): State
    requires Enabled(s, e)
  {
    Moved(config, s, e).(effects := Appended(s.effects, Emitted(s, e)))
  }

  // ----- Runs

  ghost function Exec(config: Config, s: State, es: seq<Event>): State
    requires Legal(config, s, es)
    decreases |es|, 1
  {
    if es == [] then s else Apply(config, Exec(config, s, es[..|es| - 1]), es[|es| - 1])
  }

  ghost predicate Legal(config: Config, s: State, es: seq<Event>)
    decreases |es|, 0
  {
    es == [] || (Legal(config, s, es[..|es| - 1]) && Enabled(Exec(config, s, es[..|es| - 1]), es[|es| - 1]))
  }

  lemma ExecSnoc(config: Config, s: State, es: seq<Event>, e: Event)
    requires Legal(config, s, es) && Enabled(Exec(config, s, es), e)
    ensures Legal(config, s, es + [e]) && Exec(config, s, es + [e]) == Apply(config, Exec(config, s, es), e)
  {
    assert (es + [e])[..|es|] == es;
  }
}
