/** The submission processor over the shared proof and the dispatch flag, updated in place. */
module Submission {
  import opened Prelude
  import opened Sums
  import opened Hashpower
  import opened RewardSplit
  import opened Round
  import opened RoundProtocol
  import D = Dispatch
  import Dispatcher
  import I = Intake
  import EpochHashes

  /** A proof as it arrives, and its place in the chain's history. */
  datatype Delivery = Delivery(account: Account, version: nat)

  /** How the attender's polling ends. */
  datatype PollExit = Updated | FoundByRpc(found: Delivery) | GaveUp

  /** What may happen around one poll: the websocket writes the proof before it, and the RPC call
      after an unchanged challenge returns a proof or fails. */
  datatype Poll = Poll(notified: Option<Delivery>, fetched: Option<Delivery>)

  predicate Genuine(chain: seq<Account>, d: Option<Delivery>) {
    d.Some? ==> d.value.version < |chain| && d.value.account == chain[d.value.version]
  }

  function VersionOf(d: Option<Delivery>): Option<nat> {
    if d.Some? then Some(d.value.version) else None
  }

  // ----- What a polling loop is to make of its polls

  /** The shared proof after the first `k` polls: the one notified last, or the one at the start. */
  function Shared(start: Account, polls: seq<Poll>, k: nat): Account
    requires k <= |polls|
  {
    if k == 0 then start
    else if polls[k - 1].notified.Some? then polls[k - 1].notified.value.account
    else Shared(start, polls, k - 1)
  }

  predicate Differs(d: Option<Delivery>, submitted: Challenge) {
    d.Some? && d.value.account.challenge != submitted
  }

  /** Poll `i` shows no other challenge, neither delivered nor fetched. */
  ghost predicate Quiet(start: Account, submitted: Challenge, polls: seq<Poll>, i: nat)
    requires i < |polls|
  {
    Shared(start, polls, i + 1).challenge == submitted && !Differs(polls[i].fetched, submitted)
  }

  ghost predicate QuietBefore(start: Account, submitted: Challenge, polls: seq<Poll>, k: nat)
    requires k <= |polls|
  {
    forall i :: 0 <= i < k ==> Quiet(start, submitted, polls, i)
  }

  /** Poll `k` is the first that ends the loop, and this is how: a delivered proof has another challenge;
      or a fetched one has, unless this was the last check; or this was the last check. */
  ghost predicate ExitsAt(start: Account, submitted: Challenge, polls: seq<Poll>, exit: PollExit, k: nat) {
    && k < CHECK_LIMIT <= |polls| && QuietBefore(start, submitted, polls, k)
    && match exit
       case Updated => Shared(start, polls, k + 1).challenge != submitted
       case FoundByRpc(d) =>
         && Shared(start, polls, k + 1).challenge == submitted && k + 1 < CHECK_LIMIT
         && polls[k].fetched == Some(d) && d.account.challenge != submitted
       case GaveUp => Shared(start, polls, k + 1).challenge == submitted && k + 1 == CHECK_LIMIT
  }

  lemma ExitIsNotQuiet(start: Account, submitted: Challenge, polls: seq<Poll>, x: PollExit, j: nat)
    requires ExitsAt(start, submitted, polls, x, j)
    ensures j + 1 < CHECK_LIMIT ==> !Quiet(start, submitted, polls, j)
  {
  }

  lemma ExitIsUnique(start: Account, submitted: Challenge, polls: seq<Poll>, x: PollExit, j: nat, y: PollExit, k: nat)
    requires ExitsAt(start, submitted, polls, x, j) && ExitsAt(start, submitted, polls, y, k)
    ensures x == y && j == k
  {
    ExitIsNotQuiet(start, submitted, polls, x, j);
    ExitIsNotQuiet(start, submitted, polls, y, k);
  }

  /** What a turn decides when it has the proof `now` in front of it after `k` quiet polls. */
  function TurnExit(now: Account, submitted: Challenge, k: nat, fetched: Option<Delivery>): Option<PollExit> {
    if now.challenge != submitted then Some(Updated)
    else if k + 1 == CHECK_LIMIT then Some(GaveUp)
    else if Differs(fetched, submitted) then Some(FoundByRpc(fetched.value))
    else None
  }

  /** The polls allow this exit, at this poll, and no other. */
  ghost predicate OnlyExit(start: Account, submitted: Challenge, polls: seq<Poll>, exit: PollExit, k: int) {
    forall x, j: nat :: ExitsAt(start, submitted, polls, x, j) <==> x == exit && j == k
  }

  lemma TurnExitsOrIsQuiet(start: Account, submitted: Challenge, polls: seq<Poll>, k: nat)
    requires k < CHECK_LIMIT == |polls| && QuietBefore(start, submitted, polls, k)
    ensures match TurnExit(Shared(start, polls, k + 1), submitted, k, polls[k].fetched)
            case None => k + 1 < CHECK_LIMIT && QuietBefore(start, submitted, polls, k + 1)
            case Some(exit) => OnlyExit(start, submitted, polls, exit, k)
  {
    var turn := TurnExit(Shared(start, polls, k + 1), submitted, k, polls[k].fetched);
    if turn.None? {
      assert Quiet(start, submitted, polls, k);
    } else {
      assert ExitsAt(start, submitted, polls, turn.value, k);
      forall x, j: nat | ExitsAt(start, submitted, polls, x, j) ensures x == turn.value && j == k {
        ExitIsUnique(start, submitted, polls, x, j, turn.value, k);
      }
    }
  }

  ghost function Attempts(outcomes: seq<Outcome>): seq<Event> {
    seq(|outcomes|, i requires 0 <= i < |outcomes| => Attempt(outcomes[i]))
  }

  /** One more of an attender's lock sections that take nothing from outside. */
  ghost function More(es: seq<Event>, id: nat): seq<Event> {
    es + [Attend(id, Nothing)]
  }

  ghost function AttendSteps(id: nat, n: nat): seq<Event> {
    if n == 0 then [] else More(AttendSteps(id, n - 1), id)
  }

  lemma SixAttends(id: nat)
    ensures AttendSteps(id, 5) == More(More(More(More(More([], id), id), id), id), id)
    ensures AttendSteps(id, 6) == More(AttendSteps(id, 5), id)
  {
    assert AttendSteps(id, 0) == [];
    assert AttendSteps(id, 1) == More([], id);
    assert AttendSteps(id, 2) == More(AttendSteps(id, 1), id);
    assert AttendSteps(id, 3) == More(AttendSteps(id, 2), id);
    assert AttendSteps(id, 4) == More(AttendSteps(id, 3), id);
  }

  /** Dispatch and intake have taken exactly their reset steps. */
  ghost predicate ResetsDone(dispatcher: Dispatcher.MissionDispatcher, epoch: EpochHashes.EpochStore, o: I.Oracle,
                             dispatch: D.State, intake: I.State)
    requires o.minDifficulty >= MIN_DIFF
    reads dispatcher, epoch
  {
    && dispatcher.Valid() && dispatcher.model == D.Apply(dispatch, D.NonceReset) && dispatcher.nonce == 0
    && epoch.Valid() && epoch.model == I.Apply(o, intake, I.Reset)
    && epoch.solution == None && epoch.difficulty == 0 && epoch.contributions == map[]
  }

  class Processor {
    var proof: Account
    var paused: bool
    var oldProof: Account
    var numWaiting: nat
    ghost const config: Config
    ghost var model: State

    /** The fields are what the model says, and the model is one the protocol can reach. */
    ghost predicate Valid()
      reads this
    {
      && Bounded(model) && OneAttender(model)
      && proof == model.chain[model.proof]
      && oldProof == model.chain[model.base]
      && paused == model.paused
      && numWaiting == model.waiting
    }

    /** The events lead from `s0` to the model. */
    ghost predicate Ran(s0: State, es: seq<Event>)
      reads this
    {
      Legal(config, s0, es) && model == Exec(config, s0, es)
    }

    constructor (account: Account, ghost config: Config)
      ensures Valid() && model == Initial(account) && this.config == config
    {
      proof, oldProof, paused, numWaiting := account, account, false, 0;
      this.config := config;
      model := Initial(account);
    }

    ghost method Advance(e: Event)
      requires Enabled(model, e) && Bounded(model) && OneAttender(model)
      modifies this`model
      ensures model == Apply(config, old(model), e) && Bounded(model) && OneAttender(model)
    {
      StepKeepsBounded(config, model, e);
      StepKeepsOneAttender(config, model, e);
      model := Apply(config, model, e);
    }

    /** The same, as the next event of a run. */
    ghost method AdvanceRun(e: Event, s0: State, es: seq<Event>) returns (fs: seq<Event>)
      requires Enabled(model, e) && Bounded(model) && OneAttender(model) && Ran(s0, es)
      modifies this`model
      ensures model == Apply(config, old(model), e) && Bounded(model) && OneAttender(model)
      ensures fs == es + [e] && Ran(s0, fs)
    {
      ExecSnoc(config, s0, es, e);
      fs := es + [e];
      Advance(e);
    }

    /** The websocket task replaces the shared proof. */
    method Notify(account: Account, ghost version: nat)
      requires Valid() && version < |model.chain| && account == model.chain[version]
      modifies this
      ensures Valid() && model == Apply(config, old(model), Notified(version)) && proof == account
    {
      Advance(Notified(version));
      proof := account;
    }

    method Snapshot()
      requires Valid() && Enabled(model, TakeSnapshot)
      modifies this
      ensures Valid() && model == Apply(config, old(model), TakeSnapshot) && oldProof == proof == old(proof)
    {
      Advance(TakeSnapshot);
      oldProof := proof;
    }

    /** Reads the clock and decides whether the buffer time has elapsed. */
    method PastBuffer(clock: int, bufferTime: nat, riskTime: nat) returns (due: bool)
      requires Valid() && Enabled(model, CheckCutoff(clock)) && config == Config(bufferTime, riskTime)
      modifies this`model
      ensures Valid() && model == Apply(config, old(model), CheckCutoff(clock))
      ensures due <==> model.main.AtPeek?
      ensures due <==> clock >= oldProof.lastHashAt + BASE_INTERVAL + riskTime
    {
      var cutoff;
      if riskTime > 0 {
        cutoff := oldProof.lastHashAt + BASE_INTERVAL + riskTime - bufferTime - clock;
      } else {
        cutoff := oldProof.lastHashAt + BASE_INTERVAL - bufferTime - clock;
      }
      due := false;
      if cutoff <= 0 {
        if cutoff <= 0 - bufferTime {
          due := true;
        }
      }
      Advance(CheckCutoff(clock));
    }

    /** Waits for stragglers at most six times in a row. */
    method EnoughMiners(view: View, active: nat) returns (proceed: bool)
      requires Valid() && Enabled(model, Recheck(view, active))
      modifies this
      ensures Valid() && model == Apply(config, old(model), Recheck(view, active))
      ensures proceed <==> model.main == AtPause(view.solution)
      ensures proceed <==> |view.contributions| == active || old(numWaiting) == WAIT_LIMIT
      ensures if proceed then numWaiting == 0 else numWaiting == old(numWaiting) + 1 <= WAIT_LIMIT
    {
      if |view.contributions| != active && numWaiting < WAIT_LIMIT {
        numWaiting := numWaiting + 1;
        proceed := false;
      } else {
        numWaiting := 0;
        proceed := true;
      }
      Advance(Recheck(view, active));
    }

    method PauseDispatch()
      requires Valid() && Enabled(model, Pause)
      modifies this
      ensures Valid() && model == Apply(config, old(model), Pause) && paused
    {
      Advance(Pause);
      paused := true;
    }

    /** Submission attempt number `k`, counted from 0. */
    method AttemptOnce(best: Option<Solution>, outcomes: seq<Outcome>, k: nat, ghost s0: State)
      returns (done: bool, success: bool)
      requires Valid() && model.main == AtAttempt(best, k) && k < SUBMIT_LIMIT && k < |outcomes|
      requires best.None? ==> outcomes[k].Retry?
      requires Ran(s0, Attempts(outcomes[..k]))
      modifies this`model
      ensures Valid() && Ran(s0, Attempts(outcomes[..k + 1]))
      ensures done == !outcomes[k].Retry? && success == outcomes[k].Landed?
      ensures model.main == match outcomes[k]
                            case Landed => Awaiting
                            case GiveUp => AtRefresh
                            case Retry => if k + 1 < SUBMIT_LIMIT then AtAttempt(best, k + 1) else AtRefresh
    {
      var e := Attempt(outcomes[k]);
      assert Attempts(outcomes[..k + 1]) == Attempts(outcomes[..k]) + [e];
      ghost var _ := AdvanceRun(e, s0, Attempts(outcomes[..k]));
      done, success := !outcomes[k].Retry?, outcomes[k].Landed?;
    }

    /** The submission loop: `outcomes[i]` is how attempt `i` ends. */
    method SubmitLoop(best: Option<Solution>, outcomes: seq<Outcome>)
      returns (success: bool, attempts: nat)
      requires Valid() && model.main == AtAttempt(best, 0) && |outcomes| == SUBMIT_LIMIT
      requires best.None? ==> forall i :: 0 <= i < SUBMIT_LIMIT ==> outcomes[i].Retry?
      modifies this`model
      ensures 1 <= attempts <= SUBMIT_LIMIT && Valid() && Ran(old(model), Attempts(outcomes[..attempts]))
      ensures forall i :: 0 <= i < attempts - 1 ==> outcomes[i].Retry?
      ensures success <==> outcomes[attempts - 1].Landed?
      ensures outcomes[attempts - 1].Retry? ==> attempts == SUBMIT_LIMIT
      ensures if success then model.main.Awaiting? else model.main.AtRefresh?
    {
      success := false;
      attempts := 0;
      var done := false;
      assert Attempts(outcomes[..0]) == [];
      while attempts < SUBMIT_LIMIT && !done
        invariant 0 <= attempts <= SUBMIT_LIMIT && Valid()
        invariant Ran(old(model), Attempts(outcomes[..attempts]))
        invariant forall i :: 0 <= i < attempts - 1 ==> outcomes[i].Retry?
        invariant done == (attempts > 0 && !outcomes[attempts - 1].Retry?)
        invariant success == (attempts > 0 && outcomes[attempts - 1].Landed?)
        invariant model.main == if success then Awaiting
                                else if done || attempts == SUBMIT_LIMIT then AtRefresh
                                else AtAttempt(best, attempts)
        decreases SUBMIT_LIMIT - attempts
      {
        done, success := AttemptOnce(best, outcomes, attempts, old(model));
        attempts := attempts + 1;
      }
    }

    /** The model's attender `id` is at stage `stage`, and is the one for challenge `submitted`. */
    ghost predicate AttenderAt(id: nat, stage: Stage, submitted: Challenge)
      reads this
    {
      && id in model.attenders && model.attenders[id].stage == stage
      && model.attenders[id].base < |model.chain|
      && model.chain[model.attenders[id].base].challenge == submitted
    }

    /** Where each of the three ways out of the loop leaves the attender. */
    ghost predicate EndedAs(exit: PollExit, id: nat, submitted: Challenge)
      reads this
    {
      match exit
      case Updated => AttenderAt(id, Recording, submitted)
      case FoundByRpc(d) => AttenderAt(id, RpcStore(d.version), submitted)
      case GaveUp => AttenderAt(id, Finished(false), submitted)
    }

    /** The websocket task may write the proof just before a poll. */
    method MaybeNotify(d: Option<Delivery>, ghost id: nat, ghost stage: Stage, ghost submitted: Challenge,
                       ghost s0: State, ghost es: seq<Event>)
      returns (ghost fs: seq<Event>)
      requires Valid() && AttenderAt(id, stage, submitted) && Genuine(model.chain, d)
      requires Ran(s0, es)
      modifies this
      ensures Valid() && AttenderAt(id, stage, submitted)
      ensures Ran(s0, fs) && model.chain == old(model).chain && paused == old(paused)
      ensures proof == if d.Some? then d.value.account else old(proof)
      ensures model.attenders == old(model).attenders && model.effects == old(model).effects
      ensures model.proof == if d.Some? then d.value.version else old(model).proof
    {
      fs := es;
      if d.Some? {
        ExecSnoc(config, s0, es, Notified(d.value.version));
        fs := es + [Notified(d.value.version)];
        Notify(d.value.account, d.value.version);
      }
    }

    /** One lock section of the attender that compares challenges and counts the check. */
    method CompareOnce(ghost id: nat, submitted: Challenge, numChecking: nat, ghost s0: State, ghost es: seq<Event>)
      returns (exit: Option<PollExit>, ghost fs: seq<Event>)
      requires Valid() && AttenderAt(id, Polling(numChecking), submitted) && numChecking < CHECK_LIMIT
      requires Ran(s0, es)
      modifies this`model
      ensures Valid() && Ran(s0, fs) && model.chain == old(model).chain
      ensures exit == if proof.challenge != submitted then Some(Updated)
                      else if numChecking + 1 == CHECK_LIMIT then Some(GaveUp) else None
      ensures match exit
              case None => AttenderAt(id, Asking(numChecking + 1), submitted)
              case Some(x) => EndedAs(x, id, submitted)
    {
      fs := AdvanceRun(Attend(id, Nothing), s0, es);
      if submitted != proof.challenge {
        exit := Some(Updated);
      } else if numChecking + 1 >= CHECK_LIMIT {
        exit := Some(GaveUp);
      } else {
        exit := None;
      }
    }

    /** The RPC call between two polls. */
    method AskOnce(ghost id: nat, submitted: Challenge, ghost checks: nat, d: Option<Delivery>,
                   ghost s0: State, ghost es: seq<Event>)
      returns (exit: Option<PollExit>, ghost fs: seq<Event>)
      requires Valid() && AttenderAt(id, Asking(checks), submitted) && Genuine(model.chain, d)
      requires Ran(s0, es)
      modifies this`model
      ensures Valid() && Ran(s0, fs) && model.chain == old(model).chain
      ensures exit == if Differs(d, submitted) then Some(FoundByRpc(d.value)) else None
      ensures match exit
              case None => AttenderAt(id, Polling(checks), submitted)
              case Some(x) => EndedAs(x, id, submitted)
    {
      fs := AdvanceRun(Attend(id, Fetched(VersionOf(d))), s0, es);
      exit := None;
      if d.Some? {
        if submitted != d.value.account.challenge {
          exit := Some(FoundByRpc(d.value));
        }
      }
    }

    /** The first half of a turn of the polling loop: a proof may have been delivered meanwhile. */
    method CheckOnce(ghost id: nat, submitted: Challenge, numChecking: nat, poll: Poll,
                     ghost s0: State, ghost es: seq<Event>)
      returns (exit: Option<PollExit>, checked: nat, ghost fs: seq<Event>)
      requires Valid() && AttenderAt(id, Polling(numChecking), submitted) && numChecking < CHECK_LIMIT
      requires Genuine(model.chain, poll.notified) && Ran(s0, es)
      modifies this
      ensures Valid() && Ran(s0, fs) && model.chain == old(model).chain && paused == old(paused)
      ensures proof == if poll.notified.Some? then poll.notified.value.account else old(proof)
      ensures exit == if proof.challenge != submitted then Some(Updated)
                      else if numChecking + 1 == CHECK_LIMIT then Some(GaveUp) else None
      ensures checked == if exit == Some(Updated) then numChecking else numChecking + 1
      ensures match exit
              case None => AttenderAt(id, Asking(checked), submitted)
              case Some(x) => EndedAs(x, id, submitted)
    {
      fs := MaybeNotify(poll.notified, id, Polling(numChecking), submitted, s0, es);
      exit, fs := CompareOnce(id, submitted, numChecking, s0, fs);
      checked := if exit == Some(Updated) then numChecking else numChecking + 1;
    }

    /** One turn of the polling loop: compare, count, ask. */
    method PollOnce(ghost id: nat, submitted: Challenge, numChecking: nat, poll: Poll,
                    ghost s0: State, ghost es: seq<Event>)
      returns (exit: Option<PollExit>, checked: nat, ghost fs: seq<Event>)
      requires Valid() && AttenderAt(id, Polling(numChecking), submitted) && numChecking < CHECK_LIMIT
      requires Genuine(model.chain, poll.notified) && Genuine(model.chain, poll.fetched)
      requires Ran(s0, es)
      modifies this
      ensures Valid() && Ran(s0, fs) && model.chain == old(model).chain && paused == old(paused)
      ensures proof == if poll.notified.Some? then poll.notified.value.account else old(proof)
      ensures exit == TurnExit(proof, submitted, numChecking, poll.fetched)
      ensures checked == if exit == Some(Updated) then numChecking else numChecking + 1
      ensures match exit
              case None => AttenderAt(id, Polling(checked), submitted)
              case Some(x) => EndedAs(x, id, submitted)
    {
      exit, checked, fs := CheckOnce(id, submitted, numChecking, poll, s0, es);
      if exit.None? {
        exit, fs := AskOnce(id, submitted, checked, poll.fetched, s0, fs);
      }
    }

    /** The attender has made `k` quiet polls since the shared proof was `start`. */
    ghost predicate PolledQuietly(id: nat, submitted: Challenge, polls: seq<Poll>, start: Account, k: nat)
      requires k <= |polls|
      reads this
    {
      && Valid() && AttenderAt(id, Polling(k), submitted)
      && proof == Shared(start, polls, k) && QuietBefore(start, submitted, polls, k)
    }

    /** The same turn, seen from the whole loop. */
    method PollNext(ghost id: nat, submitted: Challenge, polls: seq<Poll>, ghost start: Account, k: nat,
                    ghost s0: State, ghost es: seq<Event>)
      returns (exit: Option<PollExit>, checked: nat, ghost fs: seq<Event>)
      requires k < CHECK_LIMIT == |polls| && PolledQuietly(id, submitted, polls, start, k) && Ran(s0, es)
      requires Genuine(model.chain, polls[k].notified) && Genuine(model.chain, polls[k].fetched)
      modifies this
      ensures Valid() && Ran(s0, fs) && model.chain == old(model).chain && paused == old(paused)
      ensures proof == Shared(start, polls, k + 1) && checked == if exit == Some(Updated) then k else k + 1
      ensures match exit
              case None => k + 1 < CHECK_LIMIT && PolledQuietly(id, submitted, polls, start, k + 1)
              case Some(x) => OnlyExit(start, submitted, polls, x, k) && EndedAs(x, id, submitted)
    {
      exit, checked, fs := PollOnce(id, submitted, k, polls[k], s0, es);
      TurnExitsOrIsQuiet(start, submitted, polls, k);
    }

    /** The attender's polling loop. Each turn compares the challenge of the shared proof with the
        one submitted for; failing that it counts a check and asks the RPC node. The exit taken, and
        after how many checks, is the only one the polls allow. */
    method PollForChallenge(ghost id: nat, submitted: Challenge, polls: seq<Poll>)
      returns (exit: PollExit, numChecking: nat, ghost es: seq<Event>)
      requires Valid() && AttenderAt(id, Polling(0), submitted) && |polls| == CHECK_LIMIT
      requires forall p :: p in polls ==> Genuine(model.chain, p.notified) && Genuine(model.chain, p.fetched)
      modifies this
      ensures Valid() && Ran(old(model), es) && paused == old(paused) && EndedAs(exit, id, submitted)
      ensures if exit.Updated? then numChecking < CHECK_LIMIT else 0 < numChecking <= CHECK_LIMIT
      ensures OnlyExit(old(proof), submitted, polls, exit, if exit.Updated? then numChecking else numChecking - 1)
      ensures proof == Shared(old(proof), polls, if exit.Updated? then numChecking + 1 else numChecking)
    {
      numChecking := 0;
      es := [];
      assert PolledQuietly(id, submitted, polls, proof, 0) && Ran(model, []);
      while true
        invariant numChecking < CHECK_LIMIT && PolledQuietly(id, submitted, polls, old(proof), numChecking)
        invariant Ran(old(model), es) && model.chain == old(model).chain && paused == old(paused)
        decreases CHECK_LIMIT - numChecking
      {
        var ended;
        assert polls[numChecking] in polls;
        ended, numChecking, es := PollNext(id, submitted, polls, old(proof), numChecking, old(model), es);
        if ended.Some? {
          exit := ended.value;
          return;
        }
      }
    }

    /** Adds up the hashpower of the contributions, in the order the hash map yields them. */
    method SumHashpower(order: seq<Pubkey>, contributions: Contributions) returns (total: nat)
      requires Enumerates(order, contributions)
      ensures total == TotalHashpower(contributions)
    {
      total := 0;
      var k := 0;
      ghost var listing := Listing(order, contributions);
      while k < |order|
        invariant 0 <= k <= |order|
        invariant total == SumSeq(listing[..k], Power())
      {
        assert order[k] in contributions;
        assert listing[..k + 1][..k] == listing[..k];
        total := total + contributions[order[k]].hashpower;
        k := k + 1;
      }
      assert listing[..k] == listing;
      SumMapOrder(order, contributions, Power());
    }

    /** Since `s`, attender `id` has gone on to `stage`, and nothing observable has happened. */
    ghost predicate Became(s: State, id: nat, stage: Stage)
      requires id in s.attenders
      reads this
    {
      && id in model.attenders && model.attenders[id] == s.attenders[id].(stage := stage)
      && model.chain == s.chain && model.effects == s.effects && model.paused == s.paused
    }

    /** Looks up the row of the submitted challenge, inserting it if necessary. */
    method RecordChallenge(ghost id: nat, challengeId: int, ghost s0: State, ghost es: seq<Event>)
      returns (submissionChallengeId: int, ghost fs: seq<Event>)
      requires Valid() && id in model.attenders && model.attenders[id].stage.Recording?
      requires model.attenders[id].base < |model.chain| && Ran(s0, es)
      modifies this`model
      ensures Valid() && model == Apply(config, old(model), Attend(id, Found(challengeId)))
      ensures submissionChallengeId == challengeId
      ensures Became(old(model), id, Rereading(challengeId)) && model.proof == old(model).proof
      ensures fs == es + [Attend(id, Found(challengeId))] && Ran(s0, fs)
    {
      submissionChallengeId := challengeId;
      fs := AdvanceRun(Attend(id, Found(challengeId)), s0, es);
    }

    /** Reads the shared proof again, for the reward. */
    method RereadProof(ghost id: nat, ghost challengeId: int, ghost s0: State, ghost es: seq<Event>)
      returns (latest: Account, ghost fs: seq<Event>)
      requires Valid() && id in model.attenders && model.attenders[id].stage == Rereading(challengeId)
      requires model.attenders[id].base < |model.chain| && Ran(s0, es)
      modifies this`model
      ensures Valid() && model == Apply(config, old(model), Attend(id, Nothing)) && latest == proof
      ensures Became(old(model), id, Collecting(challengeId, old(model).proof)) && model.proof == old(model).proof
      ensures fs == es + [Attend(id, Nothing)] && Ran(s0, fs)
    {
      latest := proof;
      fs := AdvanceRun(Attend(id, Nothing), s0, es);
    }

    /** Clones the contributions of the epoch. */
    method CollectContributions(ghost id: nat, ghost challengeId: int, ghost latest: nat, epoch: EpochHashes.EpochStore,
                                ghost s0: State, ghost es: seq<Event>)
      returns (collected: Contributions, ghost fs: seq<Event>)
      requires Valid() && id in model.attenders && model.attenders[id].stage == Collecting(challengeId, latest)
      requires model.attenders[id].base < |model.chain| && latest < |model.chain| && Ran(s0, es)
      modifies this`model
      ensures Valid() && collected == epoch.contributions
      ensures model == Apply(config, old(model), Attend(id, Seen(View(epoch.solution, epoch.contributions))))
      ensures Became(old(model), id, Sending(challengeId, latest, collected)) && model.proof == old(model).proof
      ensures fs == es + [Attend(id, Seen(View(epoch.solution, epoch.contributions)))] && Ran(s0, fs)
    {
      collected := epoch.contributions;
      fs := AdvanceRun(Attend(id, Seen(View(epoch.solution, epoch.contributions))), s0, es);
    }

    /** Builds and sends the success message of a round from the re-read proof and contributions. */
    method SendSuccess(id: nat, attender: Attender, submitted: Account, latest: Account, order: seq<Pubkey>)
      returns (message: Message)
      requires Valid() && id in model.attenders && model.attenders[id] == attender && attender.stage.Sending?
      requires attender.base < |model.chain| && submitted == model.chain[attender.base]
      requires attender.stage.latest < |model.chain| && latest == model.chain[attender.stage.latest]
      requires Enumerates(order, attender.stage.collected)
      modifies this`model
      ensures Valid() && model == Apply(config, old(model), Attend(id, Nothing))
      ensures model.effects == old(model).effects + [Sent(message)] && message.round == id
      ensures message.contributions == attender.stage.collected && message.challenge == submitted.challenge
      ensures message.challengeId == attender.stage.challengeId && message.bestNonce == attender.best.nonce
      ensures message.base == attender.base && message.latest == attender.stage.latest
      ensures message.totalHashpower == TotalHashpower(attender.stage.collected)
      ensures message.rewards == RewardOf(latest, submitted)
      ensures submitted.balance <= latest.balance < I64_LIMIT ==> message.rewards == latest.balance - submitted.balance
    {
      var rewards := AsI64(WrapU64(latest.balance - submitted.balance));
      var total := SumHashpower(order, attender.stage.collected);
      message := Message(id, attender.base, attender.stage.latest, rewards, attender.stage.challengeId,
                         submitted.challenge, attender.best.nonce, total, attender.stage.collected);
      Advance(Attend(id, Nothing));
    }

    /** What the attender gathers for its message, once the challenge has changed: the row of the submitted
        challenge, then the shared proof, then the epoch's contributions, each in a section of its own. A
        proof may be delivered while the row is being looked up. */
    method Gather(ghost id: nat, ghost submitted: Challenge, challengeId: int, delivered: Option<Delivery>,
                  epoch: EpochHashes.EpochStore)
      returns (submissionChallengeId: int, latest: Account, collected: Contributions, ghost es: seq<Event>)
      requires Valid() && AttenderAt(id, Recording, submitted) && Genuine(model.chain, delivered)
      modifies this
      ensures Valid() && Ran(old(model), es) && model.chain == old(model).chain && paused == old(paused)
      ensures latest == proof == if delivered.Some? then delivered.value.account else old(proof)
      ensures submissionChallengeId == challengeId && collected == epoch.contributions
      ensures model.proof == if delivered.Some? then delivered.value.version else old(model).proof
      ensures Became(old(model), id, Sending(challengeId, model.proof, collected))
    {
      submissionChallengeId, es := RecordChallenge(id, challengeId, model, []);
      es := MaybeNotify(delivered, id, Rereading(challengeId), submitted, old(model), es);
      latest, es := RereadProof(id, challengeId, old(model), es);
      collected, es := CollectContributions(id, challengeId, model.proof, epoch, old(model), es);
    }

    /** The attender puts the proof it rewarded back, whatever was delivered meanwhile. */
    method WriteBack(ghost id: nat, latest: Account) returns (ghost es: seq<Event>)
      requires Valid() && id in model.attenders && model.attenders[id].stage.WritingBack?
      requires model.attenders[id].stage.latest < |model.chain|
      requires latest == model.chain[model.attenders[id].stage.latest]
      modifies this`model, this`proof
      ensures Valid() && model == Apply(config, old(model), Attend(id, Nothing)) && proof == latest
      ensures es == More([], id) && Ran(old(model), es)
    {
      assert AttenderOk(model, model.attenders[id]);
      es := AdvanceRun(Attend(id, Nothing), model, []);
      proof := latest;
    }

    /** A nonce reset, at any of the three reset sites. */
    method ClearNonceStep(ghost e: Event, dispatcher: Dispatcher.MissionDispatcher,
                          ghost s0: State, ghost es: seq<Event>)
      returns (ghost fs: seq<Event>)
      requires Valid() && Enabled(model, e) && Emitted(model, e) == Some(NonceCleared) && Ran(s0, es)
      requires dispatcher.Valid()
      modifies this`model, dispatcher
      ensures Valid() && model == Apply(config, old(model), e) && fs == es + [e] && Ran(s0, fs)
      ensures dispatcher.Valid() && dispatcher.model == D.Apply(old(dispatcher.model), D.NonceReset)
      ensures dispatcher.nonce == 0
    {
      dispatcher.ResetNonce();
      fs := AdvanceRun(e, s0, es);
    }

    /** An epoch reset, at any of the three reset sites. */
    method ClearEpochStep(ghost e: Event, epoch: EpochHashes.EpochStore, ghost o: I.Oracle,
                          ghost s0: State, ghost es: seq<Event>)
      returns (ghost fs: seq<Event>)
      requires Valid() && Enabled(model, e) && Emitted(model, e) == Some(EpochCleared) && Ran(s0, es)
      requires epoch.Valid() && o.minDifficulty >= MIN_DIFF
      modifies this`model, epoch
      ensures Valid() && model == Apply(config, old(model), e) && fs == es + [e] && Ran(s0, fs)
      ensures epoch.Valid() && epoch.model == I.Apply(o, old(epoch.model), I.Reset)
      ensures epoch.solution == None && epoch.difficulty == 0 && epoch.contributions == map[]
    {
      epoch.Clear(o);
      fs := AdvanceRun(e, s0, es);
    }

    /** Dispatch resumes, at any of the three reset sites. */
    method ResumeStep(ghost e: Event, ghost s0: State, ghost es: seq<Event>) returns (ghost fs: seq<Event>)
      requires Valid() && Enabled(model, e) && Emitted(model, e) == Some(Resumed) && Ran(s0, es)
      modifies this`model, this`paused
      ensures Valid() && model == Apply(config, old(model), e) && !paused && fs == es + [e] && Ran(s0, fs)
    {
      fs := AdvanceRun(e, s0, es);
      paused := false;
    }

    /** The attender is on the exit without a message, or on the one after it. */
    ghost predicate AttenderIs(id: nat, onRpcExit: bool, rpc: Stage, rewarded: Stage)
      reads this
    {
      && id in model.attenders && model.attenders[id].base < |model.chain|
      && model.attenders[id].stage == if onRpcExit then rpc else rewarded
    }

    method AttenderClearsNonce(ghost id: nat, ghost onRpcExit: bool, ghost latest: nat,
                               dispatcher: Dispatcher.MissionDispatcher, ghost s0: State, ghost es: seq<Event>)
      returns (ghost fs: seq<Event>)
      requires Valid() && Ran(s0, es) && AttenderIs(id, onRpcExit, RpcClearNonce, ClearingNonce(latest))
      requires dispatcher.Valid()
      modifies this`model, dispatcher
      ensures Valid() && Ran(s0, fs) && fs == More(es, id)
      ensures AttenderIs(id, onRpcExit, RpcClearEpoch, ClearingEpoch(latest))
      ensures dispatcher.Valid() && dispatcher.model == D.Apply(old(dispatcher.model), D.NonceReset)
      ensures dispatcher.nonce == 0 && model.effects == old(model).effects + [NonceCleared]
    {
      fs := ClearNonceStep(Attend(id, Nothing), dispatcher, s0, es);
    }

    method AttenderClearsEpoch(ghost id: nat, ghost onRpcExit: bool, ghost latest: nat, epoch: EpochHashes.EpochStore,
                               ghost o: I.Oracle, ghost s0: State, ghost es: seq<Event>)
      returns (ghost fs: seq<Event>)
      requires Valid() && Ran(s0, es) && AttenderIs(id, onRpcExit, RpcClearEpoch, ClearingEpoch(latest))
      requires epoch.Valid() && o.minDifficulty >= MIN_DIFF
      modifies this`model, epoch
      ensures Valid() && Ran(s0, fs) && fs == More(es, id)
      ensures AttenderIs(id, onRpcExit, RpcResume, Resuming)
      ensures epoch.Valid() && epoch.model == I.Apply(o, old(epoch.model), I.Reset)
      ensures epoch.solution == None && epoch.difficulty == 0 && epoch.contributions == map[]
      ensures model.effects == old(model).effects + [EpochCleared]
    {
      fs := ClearEpochStep(Attend(id, Nothing), epoch, o, s0, es);
    }

    method AttenderResumes(ghost id: nat, ghost onRpcExit: bool, ghost s0: State, ghost es: seq<Event>)
      returns (ghost fs: seq<Event>)
      requires Valid() && Ran(s0, es) && AttenderIs(id, onRpcExit, RpcResume, Resuming)
      modifies this`model, this`paused
      ensures Valid() && Ran(s0, fs) && fs == More(es, id) && !paused
      ensures AttenderIs(id, onRpcExit, RpcSignal, Signalling)
      ensures model.effects == old(model).effects + [Resumed]
    {
      fs := ResumeStep(Attend(id, Nothing), s0, es);
    }

    /** The resets of an attender and its resumption, on either of its exits. */
    method AttenderResets(ghost id: nat, ghost onRpcExit: bool, ghost latest: nat,
                          dispatcher: Dispatcher.MissionDispatcher, epoch: EpochHashes.EpochStore, ghost o: I.Oracle,
                          ghost s0: State, ghost es: seq<Event>)
      returns (ghost fs: seq<Event>)
      requires Valid() && Ran(s0, es) && AttenderIs(id, onRpcExit, RpcClearNonce, ClearingNonce(latest))
      requires dispatcher.Valid() && epoch.Valid() && o.minDifficulty >= MIN_DIFF
      modifies this`model, this`paused, dispatcher, epoch
      ensures Valid() && Ran(s0, fs) && fs == More(More(More(es, id), id), id)
      ensures ResetsDone(dispatcher, epoch, o, old(dispatcher.model), old(epoch.model)) && !paused
      ensures AttenderIs(id, onRpcExit, RpcSignal, Signalling)
      ensures model.effects == old(model).effects + [NonceCleared] + [EpochCleared] + [Resumed]
    {
      fs := AttenderClearsNonce(id, onRpcExit, latest, dispatcher, s0, es);
      fs := AttenderClearsEpoch(id, onRpcExit, latest, epoch, o, s0, fs);
      fs := AttenderResumes(id, onRpcExit, s0, fs);
    }

    /** The completion signal, the last step of either exit. */
    ghost method Signal(id: nat, s0: State, es: seq<Event>) returns (fs: seq<Event>)
      requires Valid() && id in model.attenders && model.attenders[id].base < |model.chain| && Ran(s0, es)
      requires model.attenders[id].stage.RpcSignal? || model.attenders[id].stage.Signalling?
      modifies this`model
      ensures Valid() && Ran(s0, fs) && fs == More(es, id)
      ensures id in model.attenders && model.attenders[id].stage == Finished(true)
      ensures model.effects == old(model).effects
    {
      fs := AdvanceRun(Attend(id, Nothing), s0, es);
    }

    /** Stores the found proof and reads it back for the log. */
    method StoreFound(ghost id: nat, found: Delivery) returns (ghost es: seq<Event>)
      requires Valid() && id in model.attenders && model.attenders[id].stage == RpcStore(found.version)
      requires found.version < |model.chain| && found.account == model.chain[found.version]
      modifies this`model, this`proof
      ensures Valid() && Ran(old(model), es) && es == More(More([], id), id)
      ensures id in model.attenders && model.attenders[id].stage == RpcClearNonce && proof == found.account
      ensures model.attenders[id].base < |model.chain| && model.effects == old(model).effects
    {
      ghost var s0 := model;
      assert AttenderOk(model, model.attenders[id]);
      proof := found.account;
      es := AdvanceRun(Attend(id, Nothing), s0, []);
      es := AdvanceRun(Attend(id, Nothing), s0, es);
    }

    /** The attender's exit without a success message: it stores the proof that the RPC call found,
        resets, resumes and signals. */
    method FinishByRpc(ghost id: nat, found: Delivery, dispatcher: Dispatcher.MissionDispatcher,
                       epoch: EpochHashes.EpochStore, ghost o: I.Oracle)
      returns (ghost es: seq<Event>)
      requires Valid() && id in model.attenders && model.attenders[id].stage == RpcStore(found.version)
      requires found.version < |model.chain| && found.account == model.chain[found.version]
      requires dispatcher.Valid() && epoch.Valid() && o.minDifficulty >= MIN_DIFF
      modifies this, dispatcher, epoch
      ensures Valid() && Ran(old(model), es) && es == AttendSteps(id, 6)
      ensures ResetsDone(dispatcher, epoch, o, old(dispatcher.model), old(epoch.model)) && !paused
      ensures id in model.attenders && model.attenders[id].stage == Finished(true) && proof == found.account
      ensures model.effects == old(model).effects + [NonceCleared] + [EpochCleared] + [Resumed]
    {
      ghost var s0 := model;
      es := StoreFound(id, found);
      es := AttenderResets(id, true, 0, dispatcher, epoch, o, s0, es);
      es := Signal(id, s0, es);
      SixAttends(id);
    }

    /** The attender's other exit, once its message is sent: it writes the rewarded proof back,
        resets, resumes and signals. */
    method FinishRewarded(ghost id: nat, latest: Account, dispatcher: Dispatcher.MissionDispatcher,
                          epoch: EpochHashes.EpochStore, ghost o: I.Oracle)
      returns (ghost es: seq<Event>)
      requires Valid() && id in model.attenders && model.attenders[id].stage.WritingBack?
      requires model.attenders[id].stage.latest < |model.chain|
      requires latest == model.chain[model.attenders[id].stage.latest]
      requires dispatcher.Valid() && epoch.Valid() && o.minDifficulty >= MIN_DIFF
      modifies this, dispatcher, epoch
      ensures Valid() && Ran(old(model), es) && es == AttendSteps(id, 5)
      ensures ResetsDone(dispatcher, epoch, o, old(dispatcher.model), old(epoch.model)) && !paused
      ensures id in model.attenders && model.attenders[id].stage == Finished(true) && proof == latest
      ensures model.effects == old(model).effects + [NonceCleared] + [EpochCleared] + [Resumed]
    {
      ghost var s0 := model;
      assert AttenderOk(model, model.attenders[id]);
      ghost var version := model.attenders[id].stage.latest;
      es := WriteBack(id, latest);
      es := AttenderResets(id, false, version, dispatcher, epoch, o, s0, es);
      es := Signal(id, s0, es);
      SixAttends(id);
    }

    /** Sends the message of what was gathered, with `version` the place of the re-read proof on the chain. */
    method SendGathered(id: nat, attender: Attender, submitted: Account, challengeId: int, version: nat,
                        latest: Account, collected: Contributions, order: seq<Pubkey>)
      returns (message: Message)
      requires Valid() && id in model.attenders && model.attenders[id] == attender
      requires attender.stage == Sending(challengeId, version, collected)
      requires attender.base < |model.chain| && submitted == model.chain[attender.base]
      requires version < |model.chain| && latest == model.chain[version]
      requires Enumerates(order, collected)
      modifies this`model
      ensures Valid() && message == Message(id, attender.base, version, RewardOf(latest, submitted), challengeId,
                                            submitted.challenge, attender.best.nonce, TotalHashpower(collected),
                                            collected)
      ensures id in model.attenders && model.attenders[id].stage == WritingBack(version)
      ensures model.chain == old(model).chain && model.effects == old(model).effects + [Sent(message)]
    {
      message := SendSuccess(id, attender, submitted, latest, order);
    }

    /** All that a landed round does once its challenge has changed: gather, send, write back, reset, resume.
        `version` is where the re-read proof stands on the chain. */
    method RewardRound(id: nat, attender: Attender, submitted: Account, challengeId: int, delivered: Option<Delivery>,
                       version: nat, order: seq<Pubkey>, dispatcher: Dispatcher.MissionDispatcher,
                       epoch: EpochHashes.EpochStore, ghost o: I.Oracle)
      returns (message: Message)
      requires Valid() && AttenderAt(id, Recording, submitted.challenge) && model.attenders[id] == attender
      requires submitted == model.chain[attender.base] && Genuine(model.chain, delivered)
      requires version == if delivered.Some? then delivered.value.version else model.proof
      requires dispatcher.Valid() && epoch.Valid() && o.minDifficulty >= MIN_DIFF
      requires Enumerates(order, epoch.contributions)
      modifies this, dispatcher, epoch
      ensures Valid() && proof == if delivered.Some? then delivered.value.account else old(proof)
      ensures message == Message(id, attender.base, version, RewardOf(proof, submitted), challengeId,
                                 submitted.challenge, attender.best.nonce, TotalHashpower(old(epoch.contributions)),
                                 old(epoch.contributions))
      ensures ResetsDone(dispatcher, epoch, o, old(dispatcher.model), old(epoch.model)) && !paused
      ensures model.effects == old(model).effects + [Sent(message)] + [NonceCleared] + [EpochCleared] + [Resumed]
    {
      var rowId, latest, collected, _ := Gather(id, submitted.challenge, challengeId, delivered, epoch);
      message := SendGathered(id, attender.(stage := Sending(rowId, version, collected)), submitted, rowId, version,
                              latest, collected, order);
      ghost var _ := FinishRewarded(id, latest, dispatcher, epoch, o);
    }

    /** Replaces the shared proof by a fetched one, if the fetch succeeded. */
    method RefreshProof(fetched: Option<Delivery>) returns (ghost es: seq<Event>)
      requires Valid() && model.main.AtRefresh? && Genuine(model.chain, fetched)
      modifies this`model, this`proof
      ensures Valid() && model == Apply(config, old(model), Refresh(VersionOf(fetched)))
      ensures es == [Refresh(VersionOf(fetched))] && Ran(old(model), es)
      ensures proof == if fetched.Some? then fetched.value.account else old(proof)
    {
      if fetched.Some? {
        proof := fetched.value.account;
      }
      es := AdvanceRun(Refresh(VersionOf(fetched)), model, []);
    }

    /** The end of a round whose transaction did not land: refresh the proof if it can be fetched,
        reset nonce and epoch, and resume. */
    method DiscardRound(fetched: Option<Delivery>, dispatcher: Dispatcher.MissionDispatcher,
                        epoch: EpochHashes.EpochStore, ghost o: I.Oracle)
      returns (ghost es: seq<Event>)
      requires Valid() && model.main.AtRefresh? && Genuine(model.chain, fetched)
      requires dispatcher.Valid() && epoch.Valid() && o.minDifficulty >= MIN_DIFF
      modifies this, dispatcher, epoch
      ensures Valid() && Ran(old(model), es)
      ensures es == [Refresh(VersionOf(fetched))] + [ClearNonce] + [ClearEpoch] + [Resume]
      ensures ResetsDone(dispatcher, epoch, o, old(dispatcher.model), old(epoch.model)) && !paused
      ensures model.main.Idle? && proof == if fetched.Some? then fetched.value.account else old(proof)
      ensures model.effects == old(model).effects + [NonceCleared] + [EpochCleared] + [Resumed]
    {
      ghost var s0 := model;
      es := RefreshProof(fetched);
      es := ClearNonceStep(ClearNonce, dispatcher, s0, es);
      es := ClearEpochStep(ClearEpoch, epoch, o, s0, es);
      es := ResumeStep(Resume, s0, es);
    }
  }
}
