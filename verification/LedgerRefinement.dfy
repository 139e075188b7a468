/** What the ledger's tables say about the messages that were processed: per-miner growth, and the
    contribution that a challenge is attributed to. */
module LedgerRefinement {
  import opened Prelude
  import opened Sums
  import opened Tables
  import opened Ledger

  // ----- Growth per miner

  /** A miner's share of a message, defined without an iteration order. */
  ghost function Share(msg: Message, m: int): int {
    if msg.totalHashpower > 0 && IsI64(msg.rewards)
    then SumMap(msg.contributions, ToMiner(m, msg.totalHashpower, msg.rewards)) else 0
  }

  ghost function ShareTo(m: int): Message -> int {
    (msg: Message) => Share(msg, m)
  }

  ghost function EarningTo(m: int): EarningRow -> int {
    (r: EarningRow) => if r.earning.minerId == m then r.earning.amount else 0
  }

  /** The sum of a miner's earnings rows. */
  ghost function EarningsOf(rows: seq<EarningRow>, m: int): int {
    SumSeq(rows, EarningTo(m))
  }

  /** `cs` is `msg`'s contributions in some order, and the split of it is defined. */
  ghost predicate Walks(msg: Message, cs: seq<Contribution>) {
    && (exists order :: Enumerates(order, msg.contributions) && cs == Listing(order, msg.contributions))
    && (cs != [] ==> CanSplit(msg, cs))
  }

  ghost predicate StageWalks(stage: Stage) {
    match stage
    case Earning(m, cs) => Walks(m, cs)
    case Crediting(m, cs) => Walks(m, cs)
    case _ => true
  }

  lemma WalkShare(msg: Message, cs: seq<Contribution>, m: int)
    requires Walks(msg, cs) && cs != []
    ensures AmountFor(RewardsBatch(cs, msg.totalHashpower, msg.rewards), m) == Share(msg, m)
  {
    var order :| Enumerates(order, msg.contributions) && cs == Listing(order, msg.contributions);
    ShareIsOrderFree(order, msg.contributions, msg.totalHashpower, msg.rewards, m);
  }

  lemma {:induction false} InsertedEarnings(rows: seq<EarningRow>, cs: seq<Contribution>, poolId: int, cid: int,
                                            total: nat, rewards: int, m: int)
    requires total > 0 && IsI64(rewards)
    ensures EarningsOf(EarningsInserted(rows, EarningsBatch(cs, poolId, cid, total, rewards)), m)
            == EarningsOf(rows, m) + AmountFor(RewardsBatch(cs, total, rewards), m)
  {
    var batch := EarningsBatch(cs, poolId, cid, total, rewards);
    var result := EarningsInserted(rows, batch);
    if cs == [] {
      assert result == rows;
      assert AmountFor(RewardsBatch(cs, total, rewards), m) == 0;
    } else {
      var n := |cs| - 1;
      InsertedEarnings(rows, cs[..n], poolId, cid, total, rewards, m);
      assert batch[..n] == EarningsBatch(cs[..n], poolId, cid, total, rewards);
      assert result[..|result| - 1] == EarningsInserted(rows, batch[..n]);
      assert RewardsBatch(cs, total, rewards)[..n] == RewardsBatch(cs[..n], total, rewards);
    }
  }

  /** Balance rows stay in place, and the committed lists only grow. */
  ghost predicate Extends(s: State, s': State) {
    && |s.db.rewards| <= |s'.db.rewards|
    && (forall i :: 0 <= i < |s.db.rewards| ==> s'.db.rewards[i].minerId == s.db.rewards[i].minerId)
    && s.credited <= s'.credited && s.earned <= s'.earned
  }

  /** Row `i` grew by its miner's shares of the messages credited in between. */
  ghost predicate BalanceRefines(s: State, s': State, i: nat)
    requires Extends(s, s') && i < |s.db.rewards|
  {
    s'.db.rewards[i].balance - s.db.rewards[i].balance
    == SumSeq(s'.credited[|s.credited|..], ShareTo(s.db.rewards[i].minerId))
  }

  ghost predicate EarningsRefine(s: State, s': State, m: int)
    requires Extends(s, s')
  {
    EarningsOf(s'.db.earnings, m) - EarningsOf(s.db.earnings, m) == SumSeq(s'.earned[|s.earned|..], ShareTo(m))
  }

  lemma StepExtends(poolId: int, s: State, e: Event)
    requires Enabled(s, e)
    ensures Extends(s, Apply(poolId, s, e))
  {
    assert e.UpdateBalances? || e.AddReward? || Apply(poolId, s, e).db.rewards == s.db.rewards;
  }

  lemma SumOfOne(xs: seq<Message>, x: Message, f: Message -> int)
    requires xs == [x]
    ensures SumSeq(xs, f) == f(x)
  {
    assert xs[..0] == [];
  }

  lemma StepRefines(poolId: int, s: State, e: Event, i: nat, m: int)
    requires Enabled(s, e) && StageWalks(s.stage)
    requires i < |s.db.rewards| && m == s.db.rewards[i].minerId
    ensures Extends(s, Apply(poolId, s, e)) && BalanceRefines(s, Apply(poolId, s, e), i)
  {
    StepExtends(poolId, s, e);
    var s' := Apply(poolId, s, e);
    if e.UpdateBalances? && !e.fault && s.stage.cs != [] {
      WalkShare(s.stage.msg, s.stage.cs, m);
      SumOfOne(s'.credited[|s.credited|..], s.stage.msg, ShareTo(m));
    } else {
      assert s'.credited[|s.credited|..] == [];
      assert s'.db.rewards[i] == s.db.rewards[i];
    }
  }

  lemma StepRefinesEarnings(poolId: int, s: State, e: Event, m: int)
    requires Enabled(s, e) && StageWalks(s.stage)
    ensures Extends(s, Apply(poolId, s, e)) && EarningsRefine(s, Apply(poolId, s, e), m)
  {
    StepExtends(poolId, s, e);
    var s' := Apply(poolId, s, e);
    if e.InsertEarnings? && !e.fault && s.stage.cs != [] {
      var msg := s.stage.msg;
      WalkShare(msg, s.stage.cs, m);
      InsertedEarnings(s.db.earnings, s.stage.cs, poolId, msg.challengeId, msg.totalHashpower, msg.rewards, m);
      SumOfOne(s'.earned[|s.earned|..], msg, ShareTo(m));
    } else {
      assert s'.earned[|s.earned|..] == [];
      assert s'.db.earnings == s.db.earnings;
    }
  }

  lemma StepWalks(poolId: int, s: State, e: Event)
    requires Enabled(s, e) && StageWalks(s.stage)
    ensures StageWalks(Apply(poolId, s, e).stage)
  {
    if e.Receive? {
      var msg := s.queue[0];
      var cs := Listing(e.order, msg.contributions);
      assert Enumerates(e.order, msg.contributions) && cs == Listing(e.order, msg.contributions);
    }
  }

  lemma Splice(a: seq<Message>, b: seq<Message>, c: seq<Message>, f: Message -> int)
    requires a <= b <= c
    ensures SumSeq(c[|a|..], f) == SumSeq(b[|a|..], f) + SumSeq(c[|b|..], f)
  {
    assert c[|a|..] == b[|a|..] + c[|b|..];
    SumSeqConcat(b[|a|..], c[|b|..], f);
  }

  /** From any state of a run to any later one: every tracked balance grows by exactly the shares
      of the messages whose rewards batch was committed, and every miner's earnings by the shares
      of those whose earnings batch was, whatever the iteration orders were. */
  lemma {:induction false} LedgerRefinesShares(poolId: int, s: State, es: seq<Event>, i: nat, m: int)
    requires StageWalks(s.stage) && Legal(poolId, s, es)
    requires i < |s.db.rewards| && m == s.db.rewards[i].minerId
    ensures var s' := Exec(poolId, s, es);
            StageWalks(s'.stage) && Extends(s, s') && BalanceRefines(s, s', i) && EarningsRefine(s, s', m)
    decreases |es|
  {
    if es == [] {
      assert s.credited[|s.credited|..] == [] && s.earned[|s.earned|..] == [];
    } else {
      var rest, e := es[..|es| - 1], es[|es| - 1];
      LedgerRefinesShares(poolId, s, rest, i, m);
      var t := Exec(poolId, s, rest);
      var s' := Apply(poolId, t, e);
      StepWalks(poolId, t, e);
      StepRefines(poolId, t, e, i, m);
      StepRefinesEarnings(poolId, t, e, m);
      Splice(s.credited, t.credited, s'.credited, ShareTo(m));
      Splice(s.earned, t.earned, s'.earned, ShareTo(m));
    }
  }

  /** No earnings and no rewards batch fails. */
  ghost predicate BothSucceed(es: seq<Event>) {
    forall i :: 0 <= i < |es| ==>
      (es[i].InsertEarnings? ==> !es[i].fault) && (es[i].UpdateBalances? ==> !es[i].fault)
  }

  /** The message whose earnings are committed while its balances are still to come. */
  ghost function HalfDone(stage: Stage): seq<Message> {
    if stage.Crediting? && stage.cs != [] then [stage.msg] else []
  }

  lemma CommitStep(poolId: int, s: State, t: State, e: Event)
    requires Enabled(t, e) && (e.InsertEarnings? || e.UpdateBalances? ==> !e.fault)
    requires s.credited <= t.credited && s.earned <= t.earned
    requires t.earned[|s.earned|..] == t.credited[|s.credited|..] + HalfDone(t.stage)
    ensures var u := Apply(poolId, t, e);
            && s.credited <= u.credited && s.earned <= u.earned
            && u.earned[|s.earned|..] == u.credited[|s.credited|..] + HalfDone(u.stage)
  {
    var u := Apply(poolId, t, e);
    if e.InsertEarnings? && t.stage.cs != [] {
      assert u.earned == t.earned + [t.stage.msg];
      assert u.earned[|s.earned|..] == t.earned[|s.earned|..] + [t.stage.msg];
    } else if e.UpdateBalances? && t.stage.cs != [] {
      assert u.credited[|s.credited|..] == t.credited[|s.credited|..] + [t.stage.msg];
    } else {
      assert u.earned == t.earned && u.credited == t.credited;
      assert HalfDone(u.stage) == HalfDone(t.stage);
    }
  }

  lemma {:induction false} CommitsAgree(poolId: int, s: State, es: seq<Event>)
    requires Legal(poolId, s, es) && BothSucceed(es) && !s.stage.Crediting?
    ensures var s' := Exec(poolId, s, es);
            && s.credited <= s'.credited && s.earned <= s'.earned
            && s'.earned[|s.earned|..] == s'.credited[|s.credited|..] + HalfDone(s'.stage)
    decreases |es|
  {
    if es != [] {
      var rest, e := es[..|es| - 1], es[|es| - 1];
      assert BothSucceed(rest);
      CommitsAgree(poolId, s, rest);
      var t := Exec(poolId, s, rest);
      CommitStep(poolId, s, t, e);
    }
  }

  /** If both batches of every message succeed, each tracked balance grows by exactly what the
      miner's earnings rows grow by. */
  lemma BalancesMatchEarnings(poolId: int, s: State, es: seq<Event>, i: nat)
    requires StageWalks(s.stage) && Legal(poolId, s, es) && i < |s.db.rewards|
    requires BothSucceed(es) && !s.stage.Crediting? && !Exec(poolId, s, es).stage.Crediting?
    ensures var s' := Exec(poolId, s, es);
            var m := s.db.rewards[i].minerId;
            && Extends(s, s')
            && s'.db.rewards[i].balance - s.db.rewards[i].balance
               == EarningsOf(s'.db.earnings, m) - EarningsOf(s.db.earnings, m)
  {
    var m, s' := s.db.rewards[i].minerId, Exec(poolId, s, es);
    LedgerRefinesShares(poolId, s, es, i, m);
    CommitsAgree(poolId, s, es);
    var credited := s'.credited[|s.credited|..];
    assert credited + [] == credited;
    assert s'.earned[|s.earned|..] == credited;
  }

  // ----- Challenge attribution

  /** The batch of `cs` is what the table ends with. */
  ghost predicate EndsWith(rows: seq<ContributionRow>, msg: Message, cs: seq<Contribution>) {
    && |cs| <= |rows|
    && forall j :: |rows| - |cs| <= j < |rows| ==>
         && rows[j].challengeId == msg.challengeId
         && rows[j].nonce == StoredNonce(cs[j - (|rows| - |cs|)].nonce)
  }

  ghost predicate RowOf(rows: seq<ContributionRow>, id: int, challengeId: int, nonce: nat) {
    exists i :: && 0 <= i < |rows| && rows[i].id == id
                && rows[i].challengeId == challengeId && rows[i].nonce == StoredNonce(nonce)
  }

  /** Some contribution walked carries the nonce. */
  ghost predicate Carries(cs: seq<Contribution>, nonce: nat) {
    exists i :: 0 <= i < |cs| && StoredNonce(cs[i].nonce) == StoredNonce(nonce)
  }

  ghost predicate Attributable(s: State) {
    && IdsGrow(s.db.contributions)
    && match s.stage
       case Totalling(msg, cs, inserted) => inserted ==> EndsWith(s.db.contributions, msg, cs)
       case Locating(msg, cs, inserted) => inserted ==> EndsWith(s.db.contributions, msg, cs)
       case Attributing(msg, cs, inserted, cid) =>
         inserted && Carries(cs, msg.bestNonce) ==> RowOf(s.db.contributions, cid, msg.challengeId, msg.bestNonce)
       case _ => true
  }

  /** The newest row with the nonce lies in the batch at the end of the table, if the batch has it. */
  lemma NewestIsInBatch(rows: seq<ContributionRow>, msg: Message, cs: seq<Contribution>, id: int)
    requires IdsGrow(rows) && EndsWith(rows, msg, cs) && Carries(cs, msg.bestNonce)
    requires Locates(rows, msg.bestNonce, Some(id))
    ensures RowOf(rows, id, msg.challengeId, msg.bestNonce)
  {
    var k :| 0 <= k < |cs| && StoredNonce(cs[k].nonce) == StoredNonce(msg.bestNonce);
    var i :| LocatesAt(rows, msg.bestNonce, id, i);
    var j := |rows| - |cs| + k;
    assert rows[j].nonce == StoredNonce(msg.bestNonce);
    assert i >= j;
  }

  lemma InsertEndsWith(rows: seq<ContributionRow>, msg: Message, cs: seq<Contribution>)
    ensures EndsWith(ContributionsInserted(rows, ContributionsBatch(cs, msg.challengeId)), msg, cs)
  {
  }

  lemma StepKeepsAttributable(poolId: int, s: State, e: Event)
    requires Enabled(s, e) && Attributable(s)
    ensures Attributable(Apply(poolId, s, e))
  {
    if e.InsertContributions? && !e.fault {
      ContributionIdsGrow(s.db.contributions, ContributionsBatch(s.stage.cs, s.stage.msg.challengeId));
      InsertEndsWith(s.db.contributions, s.stage.msg, s.stage.cs);
    } else if e.Locate? && e.found.Some? {
      if s.stage.inserted && Carries(s.stage.cs, s.stage.msg.bestNonce) {
        NewestIsInBatch(s.db.contributions, s.stage.msg, s.stage.cs, e.found.value);
      }
    }
  }

  lemma {:induction false} RunKeepsAttributable(poolId: int, db: Db, es: seq<Event>)
    requires IdsGrow(db.contributions) && Legal(poolId, Initial(db), es)
    ensures Attributable(Exec(poolId, Initial(db), es))
    decreases |es|
  {
    if es != [] {
      RunKeepsAttributable(poolId, db, es[..|es| - 1]);
      StepKeepsAttributable(poolId, Exec(poolId, Initial(db), es[..|es| - 1]), es[|es| - 1]);
    }
  }

  /** Although nonces restart every epoch: when a message's contributions were inserted and carry
      its best nonce, the contribution written to the challenge is one of that very challenge. */
  lemma AttributionIsOfTheChallenge(poolId: int, db: Db, es: seq<Event>, k: nat)
    requires IdsGrow(db.contributions) && Legal(poolId, Initial(db), es)
    requires Exec(poolId, Initial(db), es).stage.Attributing?
    requires var s := Exec(poolId, Initial(db), es); s.stage.inserted && Carries(s.stage.cs, s.stage.msg.bestNonce)
    requires var s := Exec(poolId, Initial(db), es);
             k < |s.db.challenges| && s.db.challenges[k].challenge == s.stage.msg.challenge
    ensures var s := Exec(poolId, Initial(db), es);
            var row := Apply(poolId, s, Attribute(false)).db.challenges[k];
            && row.rewardsEarned == Some(s.stage.msg.rewards) && row.contributionId.Some?
            && RowOf(s.db.contributions, row.contributionId.value, s.stage.msg.challengeId, s.stage.msg.bestNonce)
  {
    RunKeepsAttributable(poolId, db, es);
  }

  /** With a challenge id that no earlier row has, the lookup finds a row of the message's own
      challenge exactly when the batch was inserted and carries the best nonce. */
  lemma AttributionIffInserted(before: seq<ContributionRow>, msg: Message, cs: seq<Contribution>, inserted: bool,
                               id: int)
    requires IdsGrow(before) && forall i :: 0 <= i < |before| ==> before[i].challengeId != msg.challengeId
    requires var batch := ContributionsBatch(cs, msg.challengeId);
             var rows := if inserted then ContributionsInserted(before, batch) else before;
             Locates(rows, msg.bestNonce, Some(id))
    ensures var batch := ContributionsBatch(cs, msg.challengeId);
            var rows := if inserted then ContributionsInserted(before, batch) else before;
            RowOf(rows, id, msg.challengeId, msg.bestNonce) <==> inserted && Carries(cs, msg.bestNonce)
  {
    if inserted {
      var rows := ContributionsInserted(before, ContributionsBatch(cs, msg.challengeId));
      ContributionIdsGrow(before, ContributionsBatch(cs, msg.challengeId));
      InsertEndsWith(before, msg, cs);
      if Carries(cs, msg.bestNonce) {
        NewestIsInBatch(rows, msg, cs, id);
      } else {
        forall i | 0 <= i < |rows|
          ensures rows[i].challengeId != msg.challengeId || rows[i].nonce != StoredNonce(msg.bestNonce)
        {
          if i >= |before| {
            assert rows[i].nonce == StoredNonce(cs[i - |before|].nonce);
          } else {
            assert rows[i] == before[i];
          }
        }
      }
    }
  }
}
