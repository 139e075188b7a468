/** Conservation in the ledger: balances, pool total and messages still in process. */
module LedgerConservation {
  import opened Prelude
  import opened Sums
  import opened Hashpower
  import opened RewardSplit
  import opened Tables
  import opened Ledger
  import opened Enrolment

  // ----- Sums over the rewards table

  ghost function Balance(): RewardRow -> int {
    (r: RewardRow) => r.balance
  }

  ghost function Amount(): UpdateReward -> int {
    (u: UpdateReward) => u.balance
  }

  ghost function BalanceSum(rows: seq<RewardRow>): int {
    SumSeq(rows, Balance())
  }

  ghost function Receives(updates: seq<UpdateReward>): RewardRow -> int {
    (r: RewardRow) => AmountFor(updates, r.minerId)
  }

  ghost function Matches(u: UpdateReward): RewardRow -> int {
    (r: RewardRow) => if u.minerId == r.minerId then u.balance else 0
  }

  lemma {:induction false} CreditedSum(rows: seq<RewardRow>, updates: seq<UpdateReward>)
    ensures BalanceSum(Credited(rows, updates)) == BalanceSum(rows) + SumSeq(rows, Receives(updates))
  {
    if rows != [] {
      var n := |rows| - 1;
      CreditedSum(rows[..n], updates);
      assert Credited(rows, updates)[..n] == Credited(rows[..n], updates);
    }
  }

  lemma {:induction false} NoMatch(rows: seq<RewardRow>, u: UpdateReward)
    requires forall i :: 0 <= i < |rows| ==> rows[i].minerId != u.minerId
    ensures SumSeq(rows, Matches(u)) == 0
  {
    if rows != [] {
      NoMatch(rows[..|rows| - 1], u);
    }
  }

  /** One row a miner: an update credits at most its own amount. */
  lemma {:induction false} MatchesOnce(rows: seq<RewardRow>, u: UpdateReward)
    requires OneRowEach(rows) && u.balance >= 0
    ensures SumSeq(rows, Matches(u)) <= u.balance
  {
    if rows != [] {
      var n := |rows| - 1;
      if rows[n].minerId == u.minerId {
        NoMatch(rows[..n], u);
      } else {
        MatchesOnce(rows[..n], u);
      }
    }
  }

  lemma {:induction false} ReceivesSnoc(rows: seq<RewardRow>, updates: seq<UpdateReward>, u: UpdateReward)
    ensures SumSeq(rows, Receives(updates + [u])) == SumSeq(rows, Receives(updates)) + SumSeq(rows, Matches(u))
  {
    if rows != [] {
      var n := |rows| - 1;
      ReceivesSnoc(rows[..n], updates, u);
      SumSeqSnoc(updates, u, AmountTo(rows[n].minerId));
    }
  }

  lemma {:induction false} ReceivesNothing(rows: seq<RewardRow>)
    ensures SumSeq(rows, Receives([])) == 0
  {
    if rows != [] {
      ReceivesNothing(rows[..|rows| - 1]);
    }
  }

  /** A batch credits no more than it carries, as no miner has two rows. */
  lemma {:induction false} ReceivesAtMost(rows: seq<RewardRow>, updates: seq<UpdateReward>)
    requires OneRowEach(rows)
    requires forall u :: u in updates ==> u.balance >= 0
    ensures SumSeq(rows, Receives(updates)) <= SumSeq(updates, Amount())
    decreases |updates|
  {
    if updates == [] {
      ReceivesNothing(rows);
    } else {
      var n := |updates| - 1;
      assert updates == updates[..n] + [updates[n]];
      ReceivesAtMost(rows, updates[..n]);
      ReceivesSnoc(rows, updates[..n], updates[n]);
      assert updates[n] in updates;
      MatchesOnce(rows, updates[n]);
    }
  }

  lemma {:induction false} BatchAmount(cs: seq<Contribution>, total: nat, rewards: int)
    requires total > 0 && IsI64(rewards)
    ensures SumSeq(RewardsBatch(cs, total, rewards), Amount()) == SumSeq(cs, EarnedBy(total, rewards))
  {
    if cs != [] {
      var n := |cs| - 1;
      BatchAmount(cs[..n], total, rewards);
      assert RewardsBatch(cs, total, rewards)[..n] == RewardsBatch(cs[..n], total, rewards);
    }
  }

  /** One message credits at most its reward, whatever rows exist. */
  lemma MessageCreditsAtMostItsReward(rows: seq<RewardRow>, cs: seq<Contribution>, total: nat, rewards: int)
    requires OneRowEach(rows) && Divisible(cs, total, rewards)
    ensures BalanceSum(Credited(rows, RewardsBatch(cs, total, rewards))) <= BalanceSum(rows) + rewards
  {
    var batch := RewardsBatch(cs, total, rewards);
    PowerOfPart(cs);
    forall i | 0 <= i < |batch| ensures batch[i].balance >= 0 {
      assert cs[i] in cs;
      EarnedIsDoubleFloor(cs[i].hashpower, total, rewards);
    }
    CreditedSum(rows, batch);
    ReceivesAtMost(rows, batch);
    BatchAmount(cs, total, rewards);
    SplitConserves(cs, total, rewards);
  }

  // ----- Runs

  /** A message as the submission round builds it. */
  ghost predicate MessageOk(m: Message) {
    && 0 <= m.rewards < I64_LIMIT
    && m.totalHashpower == TotalHashpower(m.contributions)
    && (forall p :: p in m.contributions ==> m.contributions[p].hashpower <= HASHPOWER_CAP)
  }

  ghost predicate Assumed(e: Event) {
    e.Enqueue? ==> MessageOk(e.msg)
  }

  ghost predicate AssumedRun(es: seq<Event>) {
    forall i :: 0 <= i < |es| ==> Assumed(es[i])
  }

  ghost predicate InHand(m: Message, cs: seq<Contribution>) {
    0 <= m.rewards < I64_LIMIT && (cs != [] ==> m.totalHashpower > 0 && Divisible(cs, m.totalHashpower, m.rewards))
  }

  ghost predicate StageOk(stage: Stage) {
    match stage
    case Waiting => true
    case Halted(m) => 0 <= m.rewards < I64_LIMIT
    case Earning(m, cs) => InHand(m, cs)
    case Crediting(m, cs) => InHand(m, cs)
    case Recording(m, cs) => InHand(m, cs)
    case Totalling(m, cs, _) => InHand(m, cs)
    case Locating(m, cs, _) => InHand(m, cs)
    case Attributing(m, cs, _, _) => InHand(m, cs)
  }

  ghost predicate MessagesOk(s: State) {
    StageOk(s.stage) && forall m :: m in s.queue ==> MessageOk(m)
  }

  ghost function Reward(): Message -> int {
    (m: Message) => m.rewards
  }

  /** The reward of the message in hand while it is not yet in the pool's total. */
  function Untotalled(stage: Stage): int {
    match stage
    case Halted(m) => m.rewards
    case Earning(m, _) => m.rewards
    case Crediting(m, _) => m.rewards
    case Recording(m, _) => m.rewards
    case Totalling(m, _, _) => m.rewards
    case _ => 0
  }

  /** ... of which the balances may already hold a share. */
  function Advanced(stage: Stage): int {
    match stage
    case Recording(m, _) => m.rewards
    case Totalling(m, _, _) => m.rewards
    case _ => 0
  }

  ghost function Pending(s: State): int {
    SumSeq(s.queue, Reward()) + Untotalled(s.stage)
  }

  ghost function Enqueued(es: seq<Event>): int {
    if es == [] then 0
    else Enqueued(es[..|es| - 1]) + if es[|es| - 1].Enqueue? then es[|es| - 1].msg.rewards else 0
  }

  lemma ReceivedIsInHand(m: Message, order: seq<Pubkey>)
    requires MessageOk(m) && Enumerates(order, m.contributions) && CanSplit(m, Listing(order, m.contributions))
    ensures InHand(m, Listing(order, m.contributions))
  {
    var cs := Listing(order, m.contributions);
    SumMapOrder(order, m.contributions, Power());
    if cs != [] {
      assert order[0] in m.contributions;
      forall c | c in cs ensures c.hashpower <= HASHPOWER_CAP {
        var i :| 0 <= i < |cs| && cs[i] == c;
        assert order[i] in m.contributions;
      }
    }
  }

  lemma StepKeepsMessages(poolId: int, s: State, e: Event)
    requires Enabled(s, e) && Assumed(e) && MessagesOk(s)
    ensures MessagesOk(Apply(poolId, s, e))
  {
    if e.Receive? {
      var m := s.queue[0];
      assert m in s.queue;
      if CanSplit(m, Listing(e.order, m.contributions)) {
        ReceivedIsInHand(m, e.order);
      }
    }
  }

  lemma QueueFront(queue: seq<Message>)
    requires queue != []
    ensures SumSeq(queue, Reward()) == queue[0].rewards + SumSeq(queue[1..], Reward())
  {
    assert queue == [queue[0]] + queue[1..];
    SumSeqConcat([queue[0]], queue[1..], Reward());
    assert SumSeq([queue[0]], Reward()) == SumSeq([], Reward()) + queue[0].rewards by {
      assert [queue[0]][..0] == [];
    }
  }

  /** Messages neither appear nor vanish: total plus pending grows by what is enqueued. */
  lemma StepKeepsTotal(poolId: int, s: State, e: Event)
    requires Enabled(s, e) && Assumed(e) && MessagesOk(s)
    ensures var s' := Apply(poolId, s, e);
            s'.db.poolTotal + Pending(s') == s.db.poolTotal + Pending(s) + if e.Enqueue? then e.msg.rewards else 0
  {
    StepKeepsMessages(poolId, s, e);
    if e.Receive? {
      QueueFront(s.queue);
    } else if e.Enqueue? {
      SumSeqSnoc(s.queue, e.msg, Reward());
    }
  }

  /** Balances only grow when a message is in hand, and then by at most its reward. */
  lemma StepKeepsBalances(poolId: int, s: State, e: Event)
    requires Enabled(s, e) && Assumed(e) && MessagesOk(s) && OneRowEach(s.db.rewards)
    ensures var s' := Apply(poolId, s, e);
            BalanceSum(s'.db.rewards) - s'.db.poolTotal - Advanced(s'.stage)
            <= BalanceSum(s.db.rewards) - s.db.poolTotal - Advanced(s.stage)
  {
    var s' := Apply(poolId, s, e);
    if e.UpdateBalances? && !e.fault && s.stage.cs != [] {
      MessageCreditsAtMostItsReward(s.db.rewards, s.stage.cs, s.stage.msg.totalHashpower, s.stage.msg.rewards);
    } else if e.AddReward? && !e.fault {
      var row := RewardRow(NextReward(s.db.rewards), s.handlers[e.handler].stage.minerId, 0);
      SumSeqSnoc(s.db.rewards, row, Balance());
    } else {
      assert s'.db.rewards == s.db.rewards;
    }
  }

  lemma {:induction false} QueueNonnegative(queue: seq<Message>)
    requires forall m :: m in queue ==> m.rewards >= 0
    ensures SumSeq(queue, Reward()) >= 0
  {
    if queue != [] {
      assert queue[|queue| - 1] in queue;
      QueueNonnegative(queue[..|queue| - 1]);
    }
  }

  lemma AdvancedIsPending(s: State)
    requires MessagesOk(s)
    ensures 0 <= Advanced(s.stage) <= Pending(s)
  {
    QueueNonnegative(s.queue);
  }

  /** On every run, failed batches included: the balances grow by no more than the pool's total
      plus the messages still pending, and that sum grows by exactly what was enqueued. */
  lemma {:induction false} LedgerConserves(poolId: int, db: Db, es: seq<Event>)
    requires MinersUnique(db.miners) && RewardsUnique(db)
    requires Legal(poolId, Initial(db), es) && AssumedRun(es)
    ensures var s := Exec(poolId, Initial(db), es);
            && MessagesOk(s)
            && BalanceSum(s.db.rewards) - BalanceSum(db.rewards) <= s.db.poolTotal - db.poolTotal + Advanced(s.stage)
            && s.db.poolTotal - db.poolTotal + Pending(s) == Enqueued(es)
            && 0 <= Advanced(s.stage) <= Pending(s)
    decreases |es|
  {
    if es != [] {
      var rest, e := es[..|es| - 1], es[|es| - 1];
      assert AssumedRun(rest) && Assumed(e);
      LedgerConserves(poolId, db, rest);
      EveryRunIsEnrolled(poolId, db, rest);
      var s := Exec(poolId, Initial(db), rest);
      StepKeepsMessages(poolId, s, e);
      StepKeepsTotal(poolId, s, e);
      StepKeepsBalances(poolId, s, e);
      AdvancedIsPending(Exec(poolId, Initial(db), es));
    }
  }

  // ----- Division by zero

  ghost predicate Splittable(m: Message) {
    IsI64(m.rewards) && (m.contributions != map[] ==> m.totalHashpower > 0)
  }

  /** A total of zero arises exactly when every contribution has no hashpower. */
  lemma {:induction false} ZeroTotalIff(m: Contributions)
    ensures TotalHashpower(m) >= 0
    ensures TotalHashpower(m) == 0 <==> forall p :: p in m ==> m[p].hashpower == 0
    decreases |m|
  {
    if m.Keys != {} {
      var p :| p in m;
      SumMapRemove(m, Power(), p);
      assert |(m - {p}).Keys| == |m.Keys| - 1;
      ZeroTotalIff(m - {p});
      assert forall q :: q in m <==> q == p || q in m - {p};
    }
  }

  /** The processor meets a division by zero exactly when a message with contributions adds up to
      no hashpower at all. */
  lemma HaltsIff(poolId: int, s: State, order: seq<Pubkey>)
    requires Enabled(s, Receive(order)) && MessageOk(s.queue[0])
    ensures Apply(poolId, s, Receive(order)).stage.Halted? <==>
            s.queue[0].contributions != map[]
            && forall p :: p in s.queue[0].contributions ==> s.queue[0].contributions[p].hashpower == 0
  {
    var m := s.queue[0];
    ZeroTotalIff(m.contributions);
    ListingEmptyIff(order, m.contributions);
  }

  /** It never does while every message it is sent can be split. */
  lemma {:induction false} NeverHalts(poolId: int, db: Db, es: seq<Event>)
    requires Legal(poolId, Initial(db), es)
    requires forall i :: 0 <= i < |es| && es[i].Enqueue? ==> Splittable(es[i].msg)
    ensures !Exec(poolId, Initial(db), es).stage.Halted?
    ensures forall m :: m in Exec(poolId, Initial(db), es).queue ==> Splittable(m)
    decreases |es|
  {
    if es != [] {
      var rest, e := es[..|es| - 1], es[|es| - 1];
      NeverHalts(poolId, db, rest);
      var s := Exec(poolId, Initial(db), rest);
      if e.Receive? {
        assert s.queue[0] in s.queue;
        ListingEmptyIff(e.order, s.queue[0].contributions);
      }
    }
  }
}
