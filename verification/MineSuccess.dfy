/** The success-message processor: splits a round's reward and writes the ledger. */
module MineSuccess {
  import opened Prelude
  import opened Sums
  import opened RewardSplit
  import opened Tables
  import opened Ledger
  import opened Database
  import opened LedgerLookup

  /** Which statements of one message fail: the three batches, how often the pool update and the lookup
      of the best nonce fail before they work, and the update of the challenge. */
  datatype Faults = Faults(
    earnings: bool, rewards: bool, contributions: bool, total: nat, lookups: nat, challenge: bool)

  /** What became of one message: handled, held at the lookup of its best nonce, or the processor's
      task panicked on a division by zero. */
  datatype Outcome = Done | Blocked | Panicked

  /** The rows of the message's challenge name the located contribution and the reward, unless the
      update failed; no other row changes. */
  ghost predicate Attributed(before: seq<ChallengeRow>, after: seq<ChallengeRow>, msg: Message, id: int, fault: bool) {
    && |after| == |before|
    && forall i :: 0 <= i < |before| ==>
         after[i] == if !fault && before[i].challenge == msg.challenge
                     then before[i].(contributionId := Some(id), rewardsEarned := Some(msg.rewards)) else before[i]
  }

  /** What becomes of the challenges: the best nonce located, they are attributed; else nothing happens. */
  ghost predicate Settled(rows: seq<ContributionRow>, before: seq<ChallengeRow>, after: seq<ChallengeRow>,
                          msg: Message, fault: bool)
  {
    if Missing(rows, msg.bestNonce) then after == before
    else exists id :: Locates(rows, msg.bestNonce, Some(id)) && Attributed(before, after, msg, id, fault)
  }

  /** What every table is after a message, for each of its statements that may fail. */
  ghost predicate Written(before: Db, after: Db, msg: Message, earnings: seq<InsertEarning>, rewards: seq<UpdateReward>,
                          contributions: seq<InsertContribution>, faults: Faults)
  {
    && after.miners == before.miners
    && after.earnings == (if faults.earnings then before.earnings else EarningsInserted(before.earnings, earnings))
    && after.rewards == (if faults.rewards then before.rewards else Credited(before.rewards, rewards))
    && after.contributions == (if faults.contributions then before.contributions
                               else ContributionsInserted(before.contributions, contributions))
    && after.poolTotal == before.poolTotal + msg.rewards
    && Settled(after.contributions, before.challenges, after.challenges, msg, faults.challenge)
  }

  /** Every balance grew by its miner's shares of the message, unless the batch failed. */
  ghost predicate SharesPaid(before: seq<RewardRow>, after: seq<RewardRow>, msg: Message, fault: bool) {
    && |after| == |before|
    && forall i :: 0 <= i < |before| ==>
         after[i] == if fault || msg.totalHashpower <= 0 || !IsI64(msg.rewards) then before[i]
                     else before[i].(balance := before[i].balance
                       + SumMap(msg.contributions, ToMiner(before[i].minerId, msg.totalHashpower, msg.rewards)))
  }

  lemma BatchPaysShares(rows: seq<RewardRow>, msg: Message, order: seq<Pubkey>)
    requires Enumerates(order, msg.contributions) && CanSplit(msg, Listing(order, msg.contributions))
    ensures var cs := Listing(order, msg.contributions);
            SharesPaid(rows, Credited(rows, RewardsBatch(cs, msg.totalHashpower, msg.rewards)), msg, false)
  {
    if msg.totalHashpower > 0 {
      forall i: nat | i < |rows|
        ensures Credited(rows, RewardsBatch(Listing(order, msg.contributions), msg.totalHashpower, msg.rewards))[i]
                == rows[i].(balance := rows[i].balance
                     + SumMap(msg.contributions, ToMiner(rows[i].minerId, msg.totalHashpower, msg.rewards)))
      {
        BalancesAreOrderFree(order, msg.contributions, rows, msg.totalHashpower, msg.rewards, i);
      }
    }
  }

  /** The update of the total, failing so many times in a row after `es`. */
  ghost function Retried(es: seq<Event>, failures: nat): seq<Event> {
    if failures == 0 then es else Retried(es, failures - 1) + [UpdateTotal(true)]
  }

  /** What the query has to answer. */
  ghost function AnswerOf(rows: seq<ContributionRow>, nonce: nat): (answer: Option<int>)
    requires IdsGrow(rows)
    ensures Locates(rows, nonce, answer)
  {
    if Missing(rows, nonce) then None
    else
      LookupAnswers(rows, nonce);
      var id :| Locates(rows, nonce, Some(id));
      Some(id)
  }

  lemma OneAnswer(rows: seq<ContributionRow>, nonce: nat, a: Option<int>, b: Option<int>)
    requires Locates(rows, nonce, a) && Locates(rows, nonce, b)
    ensures a == b
  {
    if a.Some? {
      var i :| LocatesAt(rows, nonce, a.value, i);
    }
    if b.Some? {
      var j :| LocatesAt(rows, nonce, b.value, j);
    }
  }

  /** The lookup, failing so many times in a row although `answer` is there to be found. */
  ghost function Relooked(es: seq<Event>, answer: Option<int>, failures: nat): seq<Event> {
    if failures == 0 then es else Relooked(es, answer, failures - 1) + [Locate(answer, true)]
  }

  class SuccessProcessor {
    const db: Connection
    const poolId: int
    var queue: seq<Message>
    ghost var model: State

    ghost predicate Valid()
      reads this, db
    {
      model.db == db.Contents() && model.queue == queue
    }

    constructor (db: Connection, poolId: int)
      ensures Valid() && model == Initial(db.Contents()) && this.db == db && this.poolId == poolId
    {
      this.db := db;
      this.poolId := poolId;
      queue := [];
      model := Initial(db.Contents());
    }

    method Enqueue(msg: Message)
      requires Valid()
      modifies this
      ensures Valid() && model == Apply(poolId, old(model), Event.Enqueue(msg)) && queue == old(queue) + [msg]
    {
      queue := queue + [msg];
      model := Apply(poolId, model, Event.Enqueue(msg));
    }

    /** The events lead from `s0` to the model. */
    ghost predicate Ran(s0: State, es: seq<Event>)
      reads this
    {
      Legal(poolId, s0, es) && model == Exec(poolId, s0, es)
    }

    /** Walks the contributions once and fills the three batches; a total of zero panics at the
        first of them. */
    method Split(msg: Message, cs: seq<Contribution>)
      returns (panicked: bool, earnings: seq<InsertEarning>, rewards: seq<UpdateReward>,
               contributions: seq<InsertContribution>)
      requires IsI64(msg.rewards) && msg.totalHashpower >= 0
      ensures panicked <==> !CanSplit(msg, cs)
      ensures !panicked ==> earnings == EarningsBatch(cs, poolId, msg.challengeId, msg.totalHashpower, msg.rewards)
      ensures !panicked ==> rewards == RewardsBatch(cs, msg.totalHashpower, msg.rewards)
      ensures !panicked ==> contributions == ContributionsBatch(cs, msg.challengeId)
    {
      panicked, earnings, rewards, contributions := false, [], [], [];
      for k := 0 to |cs|
        invariant k > 0 ==> msg.totalHashpower > 0
        invariant earnings == EarningsBatch(cs[..k], poolId, msg.challengeId, msg.totalHashpower, msg.rewards)
        invariant rewards == RewardsBatch(cs[..k], msg.totalHashpower, msg.rewards)
        invariant contributions == ContributionsBatch(cs[..k], msg.challengeId)
      {
        if msg.totalHashpower == 0 {
          panicked := true;
          return;
        }
        var c := cs[k];
        var hashpowerPercent := SaturatingMul(c.hashpower, SCALE) / msg.totalHashpower;
        var earned := AsI64(WrapU64(SaturatingMul(hashpowerPercent, AsU128(msg.rewards)) / SCALE));
        earnings := earnings + [InsertEarning(c.minerId, poolId, msg.challengeId, earned)];
        rewards := rewards + [UpdateReward(c.minerId, earned)];
        contributions := contributions + [InsertContribution(c.minerId, msg.challengeId, c.nonce, AsI16(c.diff))];
      }
      assert cs[..|cs|] == cs;
    }

    ghost method Advance(e: Event, s0: State, es: seq<Event>) returns (fs: seq<Event>)
      requires Enabled(model, e) && Ran(s0, es)
      modifies this`model
      ensures model == Apply(poolId, old(model), e) && fs == es + [e] && Ran(s0, fs)
    {
      ExecSnoc(poolId, s0, es, e);
      fs := es + [e];
      model := Apply(poolId, model, e);
    }

    /** The earnings batch, which is not retried. */
    method WriteEarnings(msg: Message, cs: seq<Contribution>, batch: seq<InsertEarning>, fault: bool,
                         ghost s0: State, ghost es: seq<Event>)
      returns (ghost fs: seq<Event>)
      requires Valid() && model.stage == Earning(msg, cs) && CanSplit(msg, cs) && Ran(s0, es)
      requires batch == EarningsBatch(cs, poolId, msg.challengeId, msg.totalHashpower, msg.rewards)
      modifies this`model, db`earnings
      ensures Valid() && model.stage == Crediting(msg, cs) && Ran(s0, fs) && fs == es + [InsertEarnings(fault)]
      ensures db.earnings == if fault then old(db.earnings) else EarningsInserted(old(db.earnings), batch)
    {
      if |batch| > 0 {
        var _ := db.AddEarningsBatch(batch, fault);
      } else {
        assert EarningsInserted(db.earnings, batch) == db.earnings;
      }
      fs := Advance(InsertEarnings(fault), s0, es);
    }

    /** The rewards batch, which is not retried either. */
    method WriteBalances(msg: Message, cs: seq<Contribution>, batch: seq<UpdateReward>, fault: bool,
                         ghost s0: State, ghost es: seq<Event>)
      returns (ghost fs: seq<Event>)
      requires Valid() && model.stage == Crediting(msg, cs) && CanSplit(msg, cs) && Ran(s0, es)
      requires batch == RewardsBatch(cs, msg.totalHashpower, msg.rewards)
      modifies this`model, db`rewards
      ensures Valid() && model.stage == Recording(msg, cs) && Ran(s0, fs) && fs == es + [UpdateBalances(fault)]
      ensures db.rewards == if fault then old(db.rewards) else Credited(old(db.rewards), batch)
    {
      if |batch| > 0 {
        var _ := db.UpdateRewards(batch, fault);
      } else {
        assert Credited(db.rewards, batch) == db.rewards;
      }
      fs := Advance(UpdateBalances(fault), s0, es);
    }

    /** The two money batches of a message: each may fail on its own, and neither is retried. */
    method WriteMoney(msg: Message, cs: seq<Contribution>, earnings: seq<InsertEarning>, rewards: seq<UpdateReward>,
                      faults: Faults, ghost s0: State, ghost es: seq<Event>)
      returns (ghost fs: seq<Event>)
      requires Valid() && model.stage == Earning(msg, cs) && CanSplit(msg, cs)
      requires earnings == EarningsBatch(cs, poolId, msg.challengeId, msg.totalHashpower, msg.rewards)
      requires rewards == RewardsBatch(cs, msg.totalHashpower, msg.rewards)
      requires Ran(s0, es)
      modifies this`model, db`earnings, db`rewards
      ensures Valid() && model.stage == Recording(msg, cs)
      ensures Ran(s0, fs) && fs == es + [InsertEarnings(faults.earnings)] + [UpdateBalances(faults.rewards)]
      ensures db.earnings == if faults.earnings then old(db.earnings) else EarningsInserted(old(db.earnings), earnings)
      ensures db.rewards == if faults.rewards then old(db.rewards) else Credited(old(db.rewards), rewards)
    {
      fs := WriteEarnings(msg, cs, earnings, faults.earnings, s0, es);
      fs := WriteBalances(msg, cs, rewards, faults.rewards, s0, fs);
    }

    /** The contributions batch, which is not retried either. */
    method WriteRecords(msg: Message, cs: seq<Contribution>, contributions: seq<InsertContribution>,
                        faults: Faults, ghost s0: State, ghost es: seq<Event>)
      returns (ghost fs: seq<Event>)
      requires Valid() && model.stage == Recording(msg, cs) && contributions == ContributionsBatch(cs, msg.challengeId)
      requires IdsGrow(db.contributions) && Ran(s0, es)
      modifies this`model, db`contributions
      ensures Valid() && model.stage.Totalling? && model.stage.msg == msg
      ensures Ran(s0, fs) && fs == es + [InsertContributions(faults.contributions)]
      ensures IdsGrow(db.contributions)
      ensures db.contributions == if faults.contributions then old(db.contributions)
                                  else ContributionsInserted(old(db.contributions), contributions)
    {
      ContributionIdsGrow(db.contributions, contributions);
      if |contributions| > 0 {
        var _ := db.AddContributionsBatch(contributions, faults.contributions);
      } else {
        assert ContributionsInserted(db.contributions, contributions) == db.contributions;
      }
      fs := Advance(InsertContributions(faults.contributions), s0, es);
    }

    /** One attempt at the pool's total. */
    method TryTotal(msg: Message, fault: bool, ghost s0: State, ghost es: seq<Event>)
      returns (ok: bool, ghost fs: seq<Event>)
      requires Valid() && model.stage.Totalling? && model.stage.msg == msg && Ran(s0, es)
      modifies this`model, db`poolTotal
      ensures Valid() && Ran(s0, fs) && fs == es + [UpdateTotal(fault)] && ok == !fault
      ensures (if ok then model.stage.Locating? else model.stage.Totalling?) && model.stage.msg == msg
      ensures db.poolTotal == old(db.poolTotal) + if ok then msg.rewards else 0
    {
      ok := db.UpdatePoolRewards(msg.rewards, fault);
      fs := Advance(UpdateTotal(fault), s0, es);
    }

    /** The pool's total, retried until it is written: however often it fails, the reward is added once. */
    method AddToTotal(msg: Message, faults: Faults, ghost s0: State, ghost es: seq<Event>)
      returns (ghost fs: seq<Event>)
      requires Valid() && model.stage.Totalling? && model.stage.msg == msg
      requires Ran(s0, es)
      modifies this`model, db`poolTotal
      ensures Valid() && model.stage.Locating? && model.stage.msg == msg
      ensures Ran(s0, fs) && fs == Retried(es, faults.total) + [UpdateTotal(false)]
      ensures db.poolTotal == old(db.poolTotal) + msg.rewards
    {
      fs := es;
      var ok := false;
      var failures: nat := 0;
      while !ok
        invariant Valid() && failures <= faults.total && if ok then model.stage.Locating? else model.stage.Totalling?
        invariant model.stage.msg == msg && Ran(s0, fs)
        invariant fs == if ok then Retried(es, faults.total) + [UpdateTotal(false)] else Retried(es, failures)
        invariant db.poolTotal == old(db.poolTotal) + if ok then msg.rewards else 0
        decreases faults.total - failures, if ok then 0 else 1
      {
        ok, fs := TryTotal(msg, failures < faults.total, s0, fs);
        if !ok {
          failures := failures + 1;
        }
      }
    }

    /** The lookup of the best nonce, repeated as often as it fails; a failure changes nothing. */
    method LocateBest(msg: Message, failing: nat, ghost s0: State, ghost es: seq<Event>)
      returns (found: Option<int>, ghost fs: seq<Event>)
      requires Valid() && model.stage.Locating? && model.stage.msg == msg && IdsGrow(db.contributions)
      requires Ran(s0, es)
      modifies this`model
      ensures Valid() && Ran(s0, fs) && fs == Relooked(es, found, failing) + [Locate(found, false)]
      ensures Locates(db.contributions, msg.bestNonce, found)
      ensures model == Apply(poolId, old(model), Locate(found, false))
    {
      fs := es;
      ghost var answer := AnswerOf(db.contributions, msg.bestNonce);
      for k := 0 to failing
        invariant Valid() && Ran(s0, fs) && model == old(model) && fs == Relooked(es, answer, k)
      {
        var _ := db.GetContributionId(msg.bestNonce, true);
        fs := Advance(Locate(answer, true), s0, fs);
      }
      found := db.GetContributionId(msg.bestNonce, false);
      OneAnswer(db.contributions, msg.bestNonce, answer, found);
      fs := Advance(Locate(found, false), s0, fs);
    }

    /** Looks the best nonce up and attributes the challenge to its row. `located` tells whether the
        lookup can succeed; if it cannot, the processor never gets past it. */
    method AttributeChallenge(msg: Message, faults: Faults, ghost s0: State, ghost es: seq<Event>)
      returns (located: bool, ghost fs: seq<Event>)
      requires Valid() && model.stage.Locating? && model.stage.msg == msg && IdsGrow(db.contributions)
      requires Ran(s0, es)
      modifies this`model, db`challenges
      ensures Valid() && Ran(s0, fs)
      ensures located <==> !Missing(db.contributions, msg.bestNonce)
      ensures located <==> model.stage.Waiting?
      ensures Settled(db.contributions, old(db.challenges), db.challenges, msg, faults.challenge)
      ensures if located
              then exists id :: Locates(db.contributions, msg.bestNonce, Some(id))
                                && fs == Relooked(es, Some(id), faults.lookups) + [Locate(Some(id), false)]
                                         + [Attribute(faults.challenge)]
              else fs == Relooked(es, None, faults.lookups) + [Locate(None, false)] && model == old(model)
    {
      var found;
      found, fs := LocateBest(msg, faults.lookups, s0, es);
      located := found.Some?;
      if located {
        ghost var i :| LocatesAt(db.contributions, msg.bestNonce, found.value, i);
        var _ := db.UpdateChallengeRewards(msg.challenge, found.value, msg.rewards, faults.challenge);
        fs := Advance(Attribute(faults.challenge), s0, fs);
        assert Locates(db.contributions, msg.bestNonce, Some(found.value));
      }
    }

    /** The three batches of a message. */
    method WriteBatches(msg: Message, cs: seq<Contribution>, earnings: seq<InsertEarning>, rewards: seq<UpdateReward>,
                        contributions: seq<InsertContribution>, faults: Faults, ghost s0: State, ghost es: seq<Event>)
      returns (ghost fs: seq<Event>)
      requires Valid() && Ran(s0, es) && model.stage == Earning(msg, cs) && CanSplit(msg, cs)
      requires earnings == EarningsBatch(cs, poolId, msg.challengeId, msg.totalHashpower, msg.rewards)
      requires rewards == RewardsBatch(cs, msg.totalHashpower, msg.rewards)
      requires contributions == ContributionsBatch(cs, msg.challengeId) && IdsGrow(db.contributions)
      modifies this`model, db`earnings, db`rewards, db`contributions
      ensures Valid() && Ran(s0, fs) && model.stage.Totalling? && model.stage.msg == msg && IdsGrow(db.contributions)
      ensures db.earnings == if faults.earnings then old(db.earnings) else EarningsInserted(old(db.earnings), earnings)
      ensures db.rewards == if faults.rewards then old(db.rewards) else Credited(old(db.rewards), rewards)
      ensures db.contributions == if faults.contributions then old(db.contributions)
                                  else ContributionsInserted(old(db.contributions), contributions)
    {
      fs := WriteMoney(msg, cs, earnings, rewards, faults, s0, es);
      fs := WriteRecords(msg, cs, contributions, faults, s0, fs);
    }

    /** Writes everything that one message brings, up to the attribution of its challenge. */
    method WriteAll(msg: Message, cs: seq<Contribution>, earnings: seq<InsertEarning>, rewards: seq<UpdateReward>,
                    contributions: seq<InsertContribution>, faults: Faults, ghost s0: State, ghost es: seq<Event>)
      returns (located: bool, ghost fs: seq<Event>)
      requires Valid() && Ran(s0, es) && model.stage == Earning(msg, cs) && CanSplit(msg, cs)
      requires earnings == EarningsBatch(cs, poolId, msg.challengeId, msg.totalHashpower, msg.rewards)
      requires rewards == RewardsBatch(cs, msg.totalHashpower, msg.rewards)
      requires contributions == ContributionsBatch(cs, msg.challengeId) && IdsGrow(db.contributions)
      modifies this`model, db`earnings, db`rewards, db`contributions, db`poolTotal, db`challenges
      ensures Valid() && Ran(s0, fs)
      ensures Written(old(db.Contents()), db.Contents(), msg, earnings, rewards, contributions, faults)
      ensures located <==> !Missing(db.contributions, msg.bestNonce)
      ensures located <==> model.stage.Waiting?
      ensures !located ==> model.stage.Locating? && model.stage.msg == msg
    {
      fs := WriteBatches(msg, cs, earnings, rewards, contributions, faults, s0, es);
      fs := AddToTotal(msg, faults, s0, fs);
      located, fs := AttributeChallenge(msg, faults, s0, fs);
    }

    /** Handles one message from the queue. Unless the split panics: every balance grows by its miner's
        share, and every table by the message's batch, exactly when its own statement does not fail. */
    method Handle(order: seq<Pubkey>, faults: Faults) returns (outcome: Outcome, ghost es: seq<Event>)
      requires Valid() && model.stage.Waiting? && queue != [] && Enumerates(order, queue[0].contributions)
      requires IsI64(queue[0].rewards) && queue[0].totalHashpower >= 0 && IdsGrow(db.contributions)
      modifies this, db`earnings, db`rewards, db`contributions, db`poolTotal, db`challenges
      ensures Valid() && queue == old(queue)[1..] && Ran(old(model), es)
      ensures outcome.Panicked? <==> old(queue)[0].contributions != map[] && old(queue)[0].totalHashpower == 0
      ensures outcome.Panicked? ==> model.stage == Halted(old(queue)[0]) && db.Contents() == old(db.Contents())
      ensures !outcome.Panicked? ==>
                var msg := old(queue)[0];
                var cs := Listing(order, msg.contributions);
                && CanSplit(msg, cs)
                && Written(old(db.Contents()), db.Contents(), msg,
                           EarningsBatch(cs, poolId, msg.challengeId, msg.totalHashpower, msg.rewards),
                           RewardsBatch(cs, msg.totalHashpower, msg.rewards),
                           ContributionsBatch(cs, msg.challengeId), faults)
      ensures !outcome.Panicked? ==> SharesPaid(old(db.rewards), db.rewards, old(queue)[0], faults.rewards)
      ensures !outcome.Panicked? ==> (outcome.Blocked? <==> Missing(db.contributions, old(queue)[0].bestNonce))
      ensures outcome.Done? <==> model.stage.Waiting?
      ensures outcome.Blocked? ==> model.stage.Locating?
    {
      ghost var s0 := model;
      var msg := queue[0];
      var cs := Listing(order, msg.contributions);
      queue := queue[1..];
      ListingEmptyIff(order, msg.contributions);
      es := Advance(Receive(order), s0, []);
      var panicked, earnings, rewards, contributions := Split(msg, cs);
      if panicked {
        outcome := Panicked;
      } else {
        BatchPaysShares(db.rewards, msg, order);
        var located;
        located, es := WriteAll(msg, cs, earnings, rewards, contributions, faults, s0, es);
        outcome := if located then Done else Blocked;
      }
    }
  }
}
