/** A run of the whole pool in which nothing fails and every miner's submissions are serialised, and
    which holds the queue of success messages up for good: the best miner's own better submission is
    committed between the re-read of the best solution and the re-read of the contributions. */
module PoolBlocks {
  import opened Prelude
  import opened Sums
  import opened Hashpower
  import opened RewardSplit
  import opened Pool
  import R = Round
  import I = Intake
  import D = Dispatch
  import L = Ledger
  import T = Tables
  import V = RoundIntervals
  import C = LedgerConservation
  import K = LedgerLookup

  // ----- Runs in which nothing fails

  predicate NoFault(e: L.Event) {
    match e
    case InsertEarnings(fault) => !fault
    case UpdateBalances(fault) => !fault
    case InsertContributions(fault) => !fault
    case UpdateTotal(fault) => !fault
    case Locate(_, fault) => !fault
    case Attribute(fault) => !fault
    case LookUpMiner(_, reply) => reply.Answer?
    case AddMiner(_, fault) => !fault
    case ReloadMiner(_, fault) => !fault
    case FindPool(_, ok) => ok
    case AddReward(_, fault) => !fault
    case _ => true
  }

  /** No statement fails, no task crashes, the transaction lands, the environment behaves, the nonce
      counter does not wrap, and each miner's submissions are serialised. */
  ghost predicate Benign(s: State, e: Event) {
    match e
    case OfRound(r) => V.Assumed(s.round, r) && !r.Crash? && (r.Attempt? ==> r.outcome.Landed?)
    case OfIntake(i) => I.Serial(s.intake, i)
    case OfDispatch(d) => D.NoWrap(s.dispatch, d)
    case OfLedger(l) => NoFault(l)
  }

  ghost predicate BenignRun(setup: Setup, s: State, es: seq<Event>)
    requires setup.oracle.minDifficulty >= MIN_DIFF && Legal(setup, s, es)
    decreases |es|
  {
    es == [] || (BenignRun(setup, s, es[..|es| - 1]) && Benign(Exec(setup, s, es[..|es| - 1]), es[|es| - 1]))
  }

  ghost predicate ReachesBy(setup: Setup, s: State, es: seq<Event>, t: State)
    requires setup.oracle.minDifficulty >= MIN_DIFF
  {
    Legal(setup, s, es) && BenignRun(setup, s, es) && Exec(setup, s, es) == t
  }

  /** Some such run leads from `s` to `t`. */
  ghost predicate Reaches(setup: Setup, s: State, t: State)
    requires setup.oracle.minDifficulty >= MIN_DIFF
  {
    exists es :: ReachesBy(setup, s, es, t)
  }

  lemma Extend(setup: Setup, s: State, t: State, e: Event)
    requires setup.oracle.minDifficulty >= MIN_DIFF
    requires Reaches(setup, s, t) && Enabled(setup, t, e) && Benign(t, e)
    ensures Reaches(setup, s, Apply(setup, t, e))
  {
    var es :| ReachesBy(setup, s, es, t);
    assert (es + [e])[..|es|] == es;
    assert ReachesBy(setup, s, es + [e], Apply(setup, t, e));
  }

  // ----- Steps of one component

  lemma DispatchStep(setup: Setup, s: State, t: State, d: D.Event) returns (u: State)
    requires setup.oracle.minDifficulty >= MIN_DIFF && Reaches(setup, s, t)
    requires D.Enabled(t.dispatch, d) && D.NoWrap(t.dispatch, d) && !d.NonceReset?
    requires d.ReadFlag? ==> d.paused == t.round.paused
    requires d.Decide? ==> d.cutoff > 0
    ensures u == t.(dispatch := D.Apply(t.dispatch, d)) && Reaches(setup, s, u)
  {
    u := t.(dispatch := D.Apply(t.dispatch, d));
    Extend(setup, s, t, OfDispatch(d));
    assert Apply(setup, t, OfDispatch(d)) == u;
  }

  lemma IntakeStep(setup: Setup, s: State, t: State, i: I.Event) returns (u: State)
    requires setup.oracle.minDifficulty >= MIN_DIFF && Reaches(setup, s, t)
    requires Enabled(setup, t, OfIntake(i)) && I.Serial(t.intake, i)
    ensures u == t.(intake := I.Apply(setup.oracle, t.intake, i)) && Reaches(setup, s, u)
  {
    u := t.(intake := I.Apply(setup.oracle, t.intake, i));
    Extend(setup, s, t, OfIntake(i));
    assert Apply(setup, t, OfIntake(i)) == u;
  }

  /** A step of the round that no other component observes. */
  lemma RoundStep(setup: Setup, s: State, t: State, r: R.Event) returns (u: State)
    requires setup.oracle.minDifficulty >= MIN_DIFF && Reaches(setup, s, t)
    requires Enabled(setup, t, OfRound(r)) && Benign(t, OfRound(r))
    requires R.Emitted(t.round, r).None? || R.Emitted(t.round, r).value.Paused?
    ensures u == t.(round := R.Apply(setup.config, t.round, r)) && Reaches(setup, s, u)
  {
    u := t.(round := R.Apply(setup.config, t.round, r));
    Extend(setup, s, t, OfRound(r));
    assert Apply(setup, t, OfRound(r)) == u;
  }

  lemma SendStep(setup: Setup, s: State, t: State, r: R.Event, m: Message) returns (u: State)
    requires setup.oracle.minDifficulty >= MIN_DIFF && Reaches(setup, s, t)
    requires Enabled(setup, t, OfRound(r)) && Benign(t, OfRound(r)) && R.Emitted(t.round, r) == Some(R.Sent(m))
    ensures u.ledger == L.Apply(setup.poolId, t.ledger, L.Enqueue(m)) && Reaches(setup, s, u)
  {
    u := Apply(setup, t, OfRound(r));
    Extend(setup, s, t, OfRound(r));
  }

  lemma LedgerStep(setup: Setup, s: State, t: State, l: L.Event) returns (u: State)
    requires setup.oracle.minDifficulty >= MIN_DIFF && Reaches(setup, s, t)
    requires L.Enabled(t.ledger, l) && NoFault(l) && !l.Enqueue?
    ensures u.ledger == L.Apply(setup.poolId, t.ledger, l) && Reaches(setup, s, u)
  {
    u := Apply(setup, t, OfLedger(l));
    Extend(setup, s, t, OfLedger(l));
  }

  // ----- The parts of the run

  /** The first range is taken for address 0. */
  lemma Allocate(setup: Setup, s: State, t: State) returns (u: State)
    requires setup.oracle.minDifficulty >= MIN_DIFF && Reaches(setup, s, t)
    requires t.dispatch == D.INITIAL.(ready := {0}, loop := D.Allocating([0]), received := multiset{0})
    ensures Reaches(setup, s, u) && u == t.(dispatch := u.dispatch)
    ensures u.dispatch.missions == [D.Mission(0, 0, Range(0, D.MISSION_WIDTH))] && u.dispatch.loop == D.LookingUp([0])
    ensures u.dispatch.ranges == map[] && u.dispatch.assignments == [] && u.dispatch.pending == {}
  {
    u := DispatchStep(setup, s, t, D.Allocate);
  }

  /** ... sent to its pubkey, and filed in the range map. */
  lemma Assign(setup: Setup, s: State, t: State, p: Pubkey) returns (u: State)
    requires setup.oracle.minDifficulty >= MIN_DIFF && Reaches(setup, s, t)
    requires t.dispatch.missions == [D.Mission(0, 0, Range(0, D.MISSION_WIDTH))] && t.dispatch.loop == D.LookingUp([0])
    requires t.dispatch.ranges == map[] && t.dispatch.assignments == [] && t.dispatch.pending == {}
    ensures Reaches(setup, s, u) && u == t.(dispatch := u.dispatch)
    ensures u.dispatch.ranges == map[p := Range(0, D.MISSION_WIDTH)] && p in u.dispatch.sources
  {
    u := DispatchStep(setup, s, t, D.LookUp(0, Some(p)));
    assert u.dispatch.assignments == [D.Assignment(p, 0, 0)] && u.dispatch.pending == {0};
    u := DispatchStep(setup, s, u, D.RangeInserted(0));
  }

  lemma FirstReady(setup: Setup, a: R.Account, db: T.Db) returns (t: State)
    requires setup.oracle.minDifficulty >= MIN_DIFF
    ensures Reaches(setup, Initial(a, db), t)
    ensures t == Initial(a, db).(dispatch := D.INITIAL.(ready := {0}, received := multiset{0}))
  {
    var s := Initial(a, db);
    assert ReachesBy(setup, s, [], s);
    t := DispatchStep(setup, s, s, D.ReadyReceived(0));
    t := DispatchStep(setup, s, t, D.ReadyEntered(0));
  }

  /** One client becomes ready and is sent the first mission. */
  lemma FirstMission(setup: Setup, a: R.Account, db: T.Db, p: Pubkey) returns (t: State)
    requires setup.oracle.minDifficulty >= MIN_DIFF
    ensures Reaches(setup, Initial(a, db), t) && t == Initial(a, db).(dispatch := t.dispatch)
    ensures t.dispatch.ranges == map[p := Range(0, D.MISSION_WIDTH)] && p in t.dispatch.sources
  {
    var s := Initial(a, db);
    t := FirstReady(setup, a, db);
    t := DispatchStep(setup, s, t, D.Snapshot([0]));
    t := DispatchStep(setup, s, t, D.ReadFlag(false));
    t := DispatchStep(setup, s, t, D.Decide(1, false));
    t := Allocate(setup, s, t);
    t := Assign(setup, s, t, p);
  }

  ghost function Earnt(o: I.Oracle, miner: int, x: Solution): Contribution
    requires o.difficulty(x) >= MIN_DIFF
  {
    Contribution(miner, o.difficulty(x), x.nonce, HashpowerOf(o.difficulty(x)))
  }

  /** A miner's submission whose nonce lies in its range, while no other task is about. */
  lemma ReachSocket(setup: Setup, s: State, t: State, x: Solution, p: Pubkey) returns (u: State)
    requires setup.oracle.minDifficulty >= MIN_DIFF && Reaches(setup, s, t) && t.intake.tasks == map[]
    requires p in t.dispatch.ranges && p in t.dispatch.sources && t.dispatch.ranges[p].Contains(x.nonce)
    ensures Reaches(setup, s, u) && u == t.(intake := u.intake) && u.intake.epoch == t.intake.epoch
    ensures u.intake.tasks == map[0 := I.Task(0, x, p, t.dispatch.sources[p], I.AtSocket(t.dispatch.ranges[p]))]
  {
    u := IntakeStep(setup, s, t, I.Arrive(0, 0, x, p));
    assert u.intake.tasks == map[0 := I.Task(0, x, p, 0, I.AtRange)];
    u := IntakeStep(setup, s, u, I.ReadRange(0, Some(t.dispatch.ranges[p]), t.dispatch.sources[p]));
  }

  /** ... goes on to its check. */
  lemma Approach(setup: Setup, s: State, t: State, x: Solution, p: Pubkey, miner: int) returns (u: State)
    requires setup.oracle.minDifficulty >= MIN_DIFF && Reaches(setup, s, t) && t.intake.tasks == map[]
    requires p in t.dispatch.ranges && p in t.dispatch.sources && t.dispatch.ranges[p].Contains(x.nonce)
    requires t.round.proof < |t.round.chain| && setup.oracle.valid(x, t.round.chain[t.round.proof].challenge)
    requires setup.oracle.difficulty(x) >= setup.oracle.minDifficulty
    ensures Reaches(setup, s, u) && u == t.(intake := u.intake) && u.intake.epoch == t.intake.epoch
    ensures u.intake.tasks == map[0 := I.Task(0, x, p, t.dispatch.sources[p],
                                              I.AtCheck(t.dispatch.ranges[p], Earnt(setup.oracle, miner, x)))]
  {
    u := ReachSocket(setup, s, t, x, p);
    u := IntakeStep(setup, s, u, I.ReadSocket(0, Some(miner)));
    assert u.intake.tasks == map[0 := I.Task(0, x, p, t.dispatch.sources[p], I.AtProof(t.dispatch.ranges[p], miner))];
    u := IntakeStep(setup, s, u, I.ReadProof(0, t.round.chain[t.round.proof].challenge));
  }

  /** ... and, as it improves on what is stored, to its commit. */
  lemma Submit(setup: Setup, s: State, t: State, x: Solution, p: Pubkey, miner: int) returns (u: State)
    requires setup.oracle.minDifficulty >= MIN_DIFF && Reaches(setup, s, t) && t.intake.tasks == map[]
    requires p in t.dispatch.ranges && p in t.dispatch.sources && t.dispatch.ranges[p].Contains(x.nonce)
    requires t.round.proof < |t.round.chain| && setup.oracle.valid(x, t.round.chain[t.round.proof].challenge)
    requires setup.oracle.difficulty(x) >= setup.oracle.minDifficulty
    requires I.Improves(t.intake.epoch, p, setup.oracle.difficulty(x))
    ensures Reaches(setup, s, u) && u == t.(intake := u.intake) && u.intake.tasks == map[]
    ensures u.intake.epoch == I.Insert(t.intake.epoch, p, Earnt(setup.oracle, miner, x), x)
  {
    u := Approach(setup, s, t, x, p, miner);
    u := IntakeStep(setup, s, u, I.Check(0));
    u := IntakeStep(setup, s, u, I.Commit(0));
  }

  lemma PauseAndLand(setup: Setup, s: State, t: State, best: Solution) returns (u: State)
    requires setup.oracle.minDifficulty >= MIN_DIFF && Reaches(setup, s, t)
    requires t.round.main == R.AtPause(Some(best))
    ensures Reaches(setup, s, u) && u == t.(round := u.round) && u.round.main == R.Awaiting
    ensures u.round.chain == t.round.chain && u.round.proof == t.round.proof && u.round.floor == t.round.floor
    ensures u.round.rounds in u.round.attenders
    ensures u.round.attenders[u.round.rounds] == R.Attender(t.round.base, best, R.Polling(0))
  {
    u := RoundStep(setup, s, t, R.Pause);
    assert u.round.main == R.AtAttempt(Some(best), 0);
    u := RoundStep(setup, s, u, R.Attempt(R.Landed));
  }

  /** The proof is snapshotted and its interval has elapsed. */
  lemma OpenRound(setup: Setup, s: State, t: State) returns (u: State)
    requires setup.oracle.minDifficulty >= MIN_DIFF && Reaches(setup, s, t)
    requires t.round.main.Idle? && t.round.proof < |t.round.chain|
    ensures Reaches(setup, s, u)
    ensures u == t.(round := t.round.(base := t.round.proof, floor := R.Newer(t.round.floor, t.round.proof),
                                      main := R.AtPeek))
  {
    var clock := t.round.chain[t.round.proof].lastHashAt + R.BASE_INTERVAL + setup.config.riskTime;
    u := RoundStep(setup, s, t, R.TakeSnapshot);
    u := RoundStep(setup, s, u, R.CheckCutoff(clock));
  }

  /** There is a best solution, and every active miner has contributed. */
  lemma ReadyToPause(setup: Setup, s: State, t: State, best: Solution) returns (u: State)
    requires setup.oracle.minDifficulty >= MIN_DIFF && Reaches(setup, s, t)
    requires t.round.main.AtPeek? && t.intake.epoch.solution == Some(best)
    ensures Reaches(setup, s, u)
    ensures u == t.(round := t.round.(waiting := 0, main := R.AtPause(Some(best))))
  {
    var view := ViewOf(t);
    u := RoundStep(setup, s, t, R.Peek(view));
    assert u == t.(round := t.round.(main := R.AtRecheck));
    u := RoundStep(setup, s, u, R.Recheck(view, |view.contributions|));
  }

  /** A round starts on the current best solution, and its transaction lands. */
  lemma LandRound(setup: Setup, s: State, t: State, best: Solution) returns (u: State)
    requires setup.oracle.minDifficulty >= MIN_DIFF && Reaches(setup, s, t)
    requires t.round.main.Idle? && t.round.proof < |t.round.chain| && t.intake.epoch.solution == Some(best)
    ensures Reaches(setup, s, u) && u == t.(round := u.round) && u.round.main == R.Awaiting
    ensures u.round.chain == t.round.chain && u.round.proof == t.round.proof
    ensures u.round.floor == R.Newer(t.round.floor, t.round.proof)
    ensures u.round.rounds in u.round.attenders
    ensures u.round.attenders[u.round.rounds] == R.Attender(t.round.proof, best, R.Polling(0))
  {
    u := OpenRound(setup, s, t);
    u := ReadyToPause(setup, s, u, best);
    u := PauseAndLand(setup, s, u, best);
  }

  /** The chain moves on and the websocket delivers the new proof. */
  lemma NextProof(setup: Setup, s: State, t: State, b: R.Account) returns (u: State)
    requires setup.oracle.minDifficulty >= MIN_DIFF && Reaches(setup, s, t)
    requires |t.round.chain| == 1 && t.round.floor == 0
    requires t.round.chain[0].balance <= b.balance < I64_LIMIT
    ensures Reaches(setup, s, u)
    ensures u == t.(round := t.round.(chain := t.round.chain + [b], proof := 1))
  {
    u := RoundStep(setup, s, t, R.ChainGrows(b));
    assert u.round == t.round.(chain := t.round.chain + [b]);
    u := RoundStep(setup, s, u, R.Notified(1));
  }

  /** The attender's stage, with everything else of the round as in `t`. */
  ghost predicate AttenderAt(t: State, u: State, base: nat, best: Solution, stage: R.Stage) {
    && u == t.(round := u.round)
    && u.round.chain == t.round.chain && u.round.proof == t.round.proof && u.round.rounds == t.round.rounds
    && t.round.rounds in u.round.attenders && u.round.attenders[t.round.rounds] == R.Attender(base, best, stage)
  }

  lemma AttenderStep(setup: Setup, s: State, t: State, u: State, base: nat, best: Solution, stage: R.Stage,
                     input: R.Input, next: R.Stage) returns (v: State)
    requires setup.oracle.minDifficulty >= MIN_DIFF && Reaches(setup, s, u) && AttenderAt(t, u, base, best, stage)
    requires R.AttendEnabled(u.round.chain, u.round.proof, R.Attender(base, best, stage), input)
    requires !input.Fetched? && (input.Seen? ==> input.view == ViewOf(t))
    requires stage.Polling? || stage.Recording? || stage.Rereading? || stage.Collecting?
    requires R.AttenderMove(u.round, t.round.rounds, input).stage == next
    ensures Reaches(setup, s, v) && AttenderAt(t, v, base, best, next)
  {
    v := RoundStep(setup, s, u, R.Attend(t.round.rounds, input));
  }

  /** The attender sees the new challenge and re-reads the proof. */
  lemma Reread(setup: Setup, s: State, t: State, best: Solution, cid: int) returns (u: State)
    requires setup.oracle.minDifficulty >= MIN_DIFF && Reaches(setup, s, t)
    requires AttenderAt(t, t, 0, best, R.Polling(0)) && |t.round.chain| == 2 && t.round.proof == 1
    requires t.round.chain[0].challenge != t.round.chain[1].challenge
    ensures Reaches(setup, s, u) && AttenderAt(t, u, 0, best, R.Collecting(cid, 1))
  {
    u := AttenderStep(setup, s, t, t, 0, best, R.Polling(0), R.Nothing, R.Recording);
    u := AttenderStep(setup, s, t, u, 0, best, R.Recording, R.Found(cid), R.Rereading(cid));
    u := AttenderStep(setup, s, t, u, 0, best, R.Rereading(cid), R.Nothing, R.Collecting(cid, 1));
  }

  lemma Send(setup: Setup, s: State, t: State, u: State, best: Solution, cid: int) returns (v: State, m: Message)
    requires setup.oracle.minDifficulty >= MIN_DIFF && Reaches(setup, s, u)
    requires |t.round.chain| == 2 && t.round.proof == 1
    requires AttenderAt(t, u, 0, best, R.Sending(cid, 1, t.intake.epoch.contributions))
    ensures Reaches(setup, s, v) && v.ledger == L.Apply(setup.poolId, t.ledger, L.Enqueue(m))
    ensures m.contributions == t.intake.epoch.contributions && m.bestNonce == best.nonce && m.challengeId == cid
    ensures IsI64(m.rewards) && m.totalHashpower == TotalHashpower(m.contributions)
  {
    var a := R.Attender(0, best, R.Sending(cid, 1, t.intake.epoch.contributions));
    m := R.NewMessage(t.round.chain, t.round.rounds, a);
    v := SendStep(setup, s, u, R.Attend(t.round.rounds, R.Nothing), m);
  }

  /** It re-reads the contributions too, and sends its message. */
  lemma Reward(setup: Setup, s: State, t: State, best: Solution, cid: int) returns (u: State, m: Message)
    requires setup.oracle.minDifficulty >= MIN_DIFF && Reaches(setup, s, t)
    requires AttenderAt(t, t, 0, best, R.Polling(0)) && |t.round.chain| == 2 && t.round.proof == 1
    requires t.round.chain[0].challenge != t.round.chain[1].challenge
    ensures Reaches(setup, s, u) && u.ledger == L.Apply(setup.poolId, t.ledger, L.Enqueue(m))
    ensures m.contributions == t.intake.epoch.contributions && m.bestNonce == best.nonce && m.challengeId == cid
    ensures IsI64(m.rewards) && m.totalHashpower == TotalHashpower(m.contributions)
  {
    var collected := t.intake.epoch.contributions;
    u := Reread(setup, s, t, best, cid);
    u := AttenderStep(setup, s, t, u, 0, best, R.Collecting(cid, 1), R.Seen(ViewOf(t)), R.Sending(cid, 1, collected));
    u, m := Send(setup, s, t, u, best, cid);
  }

  lemma LegalInit(poolId: int, s: L.State, es: seq<L.Event>, e: L.Event)
    requires L.Legal(poolId, s, es + [e])
    ensures L.Legal(poolId, s, es) && L.Enabled(L.Exec(poolId, s, es), e)
    ensures L.Exec(poolId, s, es + [e]) == L.Apply(poolId, L.Exec(poolId, s, es), e)
  {
    assert (es + [e])[..|es|] == es;
  }

  lemma LedgerNext(setup: Setup, s: State, t: State, l0: L.State, es: seq<L.Event>, e: L.Event) returns (u: State)
    requires setup.oracle.minDifficulty >= MIN_DIFF && Reaches(setup, s, t)
    requires L.Legal(setup.poolId, l0, es) && L.Legal(setup.poolId, l0, es + [e])
    requires t.ledger == L.Exec(setup.poolId, l0, es) && NoFault(e) && !e.Enqueue?
    ensures Reaches(setup, s, u) && u.ledger == L.Exec(setup.poolId, l0, es + [e])
  {
    LegalInit(setup.poolId, l0, es, e);
    u := LedgerStep(setup, s, t, e);
  }

  /** The message is received and written without any fault. */
  lemma WriteMessage(setup: Setup, s: State, t: State, db: T.Db, m: Message, order: seq<Pubkey>) returns (u: State)
    requires setup.oracle.minDifficulty >= MIN_DIFF && Reaches(setup, s, t)
    requires t.ledger == L.Apply(setup.poolId, L.Initial(db), L.Enqueue(m))
    requires Enumerates(order, m.contributions) && L.CanSplit(m, Listing(order, m.contributions))
    ensures L.Legal(setup.poolId, L.Initial(db), K.FaultFree(m, order))
    ensures Reaches(setup, s, u) && u.ledger == L.Exec(setup.poolId, L.Initial(db), K.FaultFree(m, order))
  {
    var l0 := L.Initial(db);
    K.FaultFreeIsStuckIff(setup.poolId, db, m, order);
    var e1 := [] + [L.Enqueue(m)];
    var e2 := e1 + [L.Receive(order)];
    var e3 := e2 + [L.InsertEarnings(false)];
    var e4 := e3 + [L.UpdateBalances(false)];
    var e5 := e4 + [L.InsertContributions(false)];
    LegalInit(setup.poolId, l0, e5, L.UpdateTotal(false));
    LegalInit(setup.poolId, l0, e4, L.InsertContributions(false));
    LegalInit(setup.poolId, l0, e3, L.UpdateBalances(false));
    LegalInit(setup.poolId, l0, e2, L.InsertEarnings(false));
    LegalInit(setup.poolId, l0, e1, L.Receive(order));
    LegalInit(setup.poolId, l0, [], L.Enqueue(m));
    u := LedgerNext(setup, s, t, l0, e1, L.Receive(order));
    u := LedgerNext(setup, s, u, l0, e2, L.InsertEarnings(false));
    u := LedgerNext(setup, s, u, l0, e3, L.UpdateBalances(false));
    u := LedgerNext(setup, s, u, l0, e4, L.InsertContributions(false));
    u := LedgerNext(setup, s, u, l0, e5, L.UpdateTotal(false));
  }

  /** From a stuck ledger, every continuation of the whole pool keeps it stuck. */
  lemma BlockedForGood(setup: Setup, s: State, es: seq<Event>)
    requires setup.oracle.minDifficulty >= MIN_DIFF && Legal(setup, s, es)
    requires s.ledger.stage.Locating? && K.Stuck(s.ledger, s.ledger.stage.msg)
    ensures K.Stuck(Exec(setup, s, es).ledger, s.ledger.stage.msg)
    ensures s.ledger.queue <= Exec(setup, s, es).ledger.queue
  {
    ProjectLedger(setup, s, es);
    K.MissingNonceBlocksTheQueue(setup.poolId, s.ledger, LedgerTrace(setup, s, es));
  }

  // ----- The whole run

  /** The two submissions of one miner around the landing of the first. */
  lemma TwoSubmissions(setup: Setup, a: R.Account, db: T.Db, p: Pubkey, miner: int, low: Solution, high: Solution)
    returns (t: State)
    requires setup.oracle.minDifficulty >= MIN_DIFF
    requires setup.oracle.valid(low, a.challenge) && setup.oracle.valid(high, a.challenge)
    requires low.nonce < D.MISSION_WIDTH && high.nonce < D.MISSION_WIDTH
    requires setup.oracle.minDifficulty <= setup.oracle.difficulty(low) < setup.oracle.difficulty(high)
    ensures Reaches(setup, Initial(a, db), t) && AttenderAt(t, t, 0, low, R.Polling(0))
    ensures t.round.chain == [a] && t.round.proof == 0 && t.round.floor == 0 && t.ledger == L.Initial(db)
    ensures t.intake.epoch.contributions == map[p := Earnt(setup.oracle, miner, high)]
  {
    var s := Initial(a, db);
    t := FirstMission(setup, a, db, p);
    t := Submit(setup, s, t, low, p, miner);
    assert t.intake.epoch.solution == Some(low);
    t := LandRound(setup, s, t, low);
    t := Submit(setup, s, t, high, p, miner);
  }

  /** Any two valid submissions of one miner, the second the better one, can hold the queue up: the
      message carries the first one's nonce as its best nonce, and the second one's contribution. */
  lemma BetterSubmissionBlocks(setup: Setup, a: R.Account, b: R.Account, db: T.Db, p: Pubkey, miner: int,
                               challengeId: int, low: Solution, high: Solution)
    returns (s: State)
    requires setup.oracle.minDifficulty >= MIN_DIFF
    requires setup.oracle.valid(low, a.challenge) && setup.oracle.valid(high, a.challenge)
    requires low.nonce < D.MISSION_WIDTH && high.nonce < D.MISSION_WIDTH && low.nonce != high.nonce
    requires setup.oracle.minDifficulty <= setup.oracle.difficulty(low) < setup.oracle.difficulty(high) <= 68
    requires a.challenge != b.challenge && a.balance <= b.balance < I64_LIMIT
    requires T.Missing(db.contributions, low.nonce)
    ensures Reaches(setup, Initial(a, db), s)
    ensures s.ledger.stage.Locating? && K.Stuck(s.ledger, s.ledger.stage.msg)
    ensures s.ledger.stage.msg.bestNonce == low.nonce && s.ledger.stage.msg.challengeId == challengeId
    ensures s.ledger.stage.msg.contributions == map[p := Earnt(setup.oracle, miner, high)]
  {
    var s0 := Initial(a, db);
    var t := TwoSubmissions(setup, a, db, p, miner, low, high);
    t := NextProof(setup, s0, t, b);
    var m;
    t, m := Reward(setup, s0, t, low, challengeId);
    IntendedUpTo68(setup.oracle.difficulty(high));
    C.ZeroTotalIff(m.contributions);
    assert m.contributions[p].hashpower > 0;
    assert Enumerates([p], m.contributions);
    s := WriteMessage(setup, s0, t, db, m, [p]);
    K.FaultFreeIsStuckIff(setup.poolId, db, m, [p]);
    T.StoredNonceInjective(high.nonce, low.nonce);
    assert !K.CarriesBest(m);
  }
}
