/** The database, updated in place: every statement may fail, and a batch runs in a transaction. */
module Database {
  import opened Prelude
  import opened Sums
  import opened RewardSplit
  import opened Tables
  import L = Ledger

  ghost predicate Touches(rows: seq<RewardRow>, updates: seq<UpdateReward>) {
    exists i, j :: 0 <= i < |updates| && 0 <= j < |rows| && rows[j].minerId == updates[i].minerId
  }

  ghost function Matching(rows: seq<ChallengeRow>, challenge: Challenge): nat {
    if rows == [] then 0
    else Matching(rows[..|rows| - 1], challenge) + if rows[|rows| - 1].challenge == challenge then 1 else 0
  }

  lemma CreditedSnoc(rows: seq<RewardRow>, updates: seq<UpdateReward>, u: UpdateReward)
    ensures var before, result := Credited(rows, updates), Credited(rows, updates + [u]);
            forall j :: 0 <= j < |rows| ==>
              result[j] == if before[j].minerId == u.minerId
                           then before[j].(balance := before[j].balance + u.balance) else before[j]
  {
    forall j | 0 <= j < |rows|
      ensures AmountFor(updates + [u], rows[j].minerId)
              == AmountFor(updates, rows[j].minerId) + if u.minerId == rows[j].minerId then u.balance else 0
    {
      SumSeqSnoc(updates, u, AmountTo(rows[j].minerId));
    }
  }

  lemma TouchesSnoc(rows: seq<RewardRow>, updates: seq<UpdateReward>, u: UpdateReward)
    ensures Touches(rows, updates + [u]) <==>
            Touches(rows, updates) || exists j :: 0 <= j < |rows| && rows[j].minerId == u.minerId
  {
    var longer := updates + [u];
    if Touches(rows, updates) {
      var i, j :| 0 <= i < |updates| && 0 <= j < |rows| && rows[j].minerId == updates[i].minerId;
      assert longer[i] == updates[i];
    }
    if j :| 0 <= j < |rows| && rows[j].minerId == u.minerId {
      assert longer[|updates|] == u;
    }
  }

  class Connection {
    var miners: seq<MinerRow>
    var rewards: seq<RewardRow>
    var earnings: seq<EarningRow>
    var contributions: seq<ContributionRow>
    var challenges: seq<ChallengeRow>
    var poolTotal: int

    function Contents(): Db
      reads this
    {
      Db(miners, rewards, earnings, contributions, challenges, poolTotal)
    }

    constructor (db: Db)
      ensures Contents() == db
    {
      miners, rewards, earnings := db.miners, db.rewards, db.earnings;
      contributions, challenges, poolTotal := db.contributions, db.challenges, db.poolTotal;
    }

    /** Inserts the whole batch, or nothing. */
    method AddEarningsBatch(batch: seq<InsertEarning>, fault: bool) returns (ok: bool)
      modifies this`earnings
      ensures ok <==> !fault && batch != []
      ensures earnings == if fault then old(earnings) else EarningsInserted(old(earnings), batch)
    {
      if fault {
        return false;
      }
      var rowsAdded := 0;
      while rowsAdded < |batch|
        invariant 0 <= rowsAdded <= |batch|
        invariant earnings == EarningsInserted(old(earnings), batch[..rowsAdded])
      {
        earnings := earnings + [EarningRow(NextEarning(earnings), batch[rowsAdded])];
        rowsAdded := rowsAdded + 1;
      }
      assert batch[..rowsAdded] == batch;
      ok := rowsAdded > 0;
    }

    method AddContributionsBatch(batch: seq<InsertContribution>, fault: bool) returns (ok: bool)
      modifies this`contributions
      ensures ok <==> !fault && batch != []
      ensures contributions == if fault then old(contributions) else ContributionsInserted(old(contributions), batch)
    {
      if fault {
        return false;
      }
      var rowsAdded := 0;
      while rowsAdded < |batch|
        invariant 0 <= rowsAdded <= |batch|
        invariant contributions == ContributionsInserted(old(contributions), batch[..rowsAdded])
      {
        contributions := contributions + [StoredContribution(NextContribution(contributions), batch[rowsAdded])];
        rowsAdded := rowsAdded + 1;
      }
      assert batch[..rowsAdded] == batch;
      ok := rowsAdded > 0;
    }

    /** Adds one amount to every row of its miner. */
    method UpdateReward(u: UpdateReward) returns (rowsTouched: nat)
      modifies this`rewards
      ensures |rewards| == |old(rewards)|
      ensures forall j :: 0 <= j < |rewards| ==>
                rewards[j] == if old(rewards)[j].minerId == u.minerId
                              then old(rewards)[j].(balance := old(rewards)[j].balance + u.balance) else old(rewards)[j]
      ensures rowsTouched > 0 <==> exists j :: 0 <= j < |rewards| && old(rewards)[j].minerId == u.minerId
    {
      rowsTouched := 0;
      var k := 0;
      while k < |rewards|
        invariant 0 <= k <= |rewards| == |old(rewards)|
        invariant forall j :: 0 <= j < k ==>
                    rewards[j] == if old(rewards)[j].minerId == u.minerId
                                  then old(rewards)[j].(balance := old(rewards)[j].balance + u.balance)
                                  else old(rewards)[j]
        invariant forall j :: k <= j < |rewards| ==> rewards[j] == old(rewards)[j]
        invariant rowsTouched > 0 <==> exists j :: 0 <= j < k && old(rewards)[j].minerId == u.minerId
      {
        if rewards[k].minerId == u.minerId {
          rewards := rewards[k := rewards[k].(balance := rewards[k].balance + u.balance)];
          rowsTouched := rowsTouched + 1;
        }
        k := k + 1;
      }
    }

    /** Applies the updates one after the other; repeated miner ids accumulate. */
    method UpdateRewards(updates: seq<UpdateReward>, fault: bool) returns (ok: bool)
      modifies this`rewards
      ensures ok <==> !fault && Touches(old(rewards), updates)
      ensures rewards == if fault then old(rewards) else Credited(old(rewards), updates)
    {
      if fault {
        return false;
      }
      var rowsAdded := 0;
      var k := 0;
      while k < |updates|
        invariant 0 <= k <= |updates|
        invariant rewards == Credited(old(rewards), updates[..k])
        invariant rowsAdded > 0 <==> Touches(old(rewards), updates[..k])
      {
        assert updates[..k + 1] == updates[..k] + [updates[k]];
        CreditedSnoc(old(rewards), updates[..k], updates[k]);
        var touched := UpdateReward(updates[k]);
        TouchesSnoc(old(rewards), updates[..k], updates[k]);
        rowsAdded := rowsAdded + touched;
        k := k + 1;
      }
      assert updates[..k] == updates;
      ok := rowsAdded > 0;
    }

    method UpdatePoolRewards(amount: int, fault: bool) returns (ok: bool)
      modifies this`poolTotal
      ensures ok == !fault && poolTotal == old(poolTotal) + if ok then amount else 0
    {
      ok := !fault;
      if ok {
        poolTotal := poolTotal + amount;
      }
    }

    /** The newest contribution with the nonce: ids grow along the table, so the last one. */
    method GetContributionId(nonce: nat, fault: bool) returns (found: Option<int>)
      requires IdsGrow(contributions)
      ensures if fault then found == None else Locates(contributions, nonce, found)
    {
      found := None;
      if fault {
        return;
      }
      var k := |contributions|;
      while k > 0
        invariant 0 <= k <= |contributions|
        invariant forall j :: k <= j < |contributions| ==> contributions[j].nonce != StoredNonce(nonce)
      {
        k := k - 1;
        if contributions[k].nonce == StoredNonce(nonce) {
          assert LocatesAt(contributions, nonce, contributions[k].id, k);
          return Some(contributions[k].id);
        }
      }
    }

    /** Updates every row of the challenge; anything but exactly one such row is reported as an
        error although the rows are updated. */
    method UpdateChallengeRewards(challenge: Challenge, cid: int, amount: int, fault: bool) returns (ok: bool)
      modifies this`challenges
      ensures challenges == if fault then old(challenges) else ChallengeUpdated(old(challenges), challenge, cid, amount)
      ensures ok <==> !fault && Matching(old(challenges), challenge) == 1
    {
      if fault {
        return false;
      }
      var query := 0;
      var k := 0;
      while k < |challenges|
        invariant 0 <= k <= |challenges| == |old(challenges)|
        invariant forall j :: 0 <= j < k ==>
                    challenges[j] == ChallengeUpdated(old(challenges), challenge, cid, amount)[j]
        invariant forall j :: k <= j < |challenges| ==> challenges[j] == old(challenges)[j]
        invariant query == Matching(old(challenges)[..k], challenge)
      {
        assert old(challenges)[..k + 1][..k] == old(challenges)[..k];
        if challenges[k].challenge == challenge {
          challenges := challenges[k := challenges[k].(contributionId := Some(cid), rewardsEarned := Some(amount))];
          query := query + 1;
        }
        k := k + 1;
      }
      assert old(challenges)[..k] == old(challenges);
      ok := query == 1;
    }

    method GetMiner(pubkey: Pubkey) returns (found: Option<int>)
      ensures found.Some? <==> L.Registered(miners, pubkey)
      ensures found.Some? ==> exists i :: L.Finds(miners, pubkey, i) && miners[i].id == found.value
    {
      var k := 0;
      while k < |miners|
        invariant 0 <= k <= |miners|
        invariant forall j :: 0 <= j < k ==> miners[j].pubkey != pubkey
      {
        if miners[k].pubkey == pubkey {
          assert L.Finds(miners, pubkey, k);
          return Some(miners[k].id);
        }
        k := k + 1;
      }
      found := None;
    }

    /** The unique index on the pubkey refuses a second row. */
    method AddNewMiner(pubkey: Pubkey, fault: bool) returns (ok: bool)
      modifies this`miners
      ensures ok <==> !fault && !L.Registered(old(miners), pubkey)
      ensures miners == if ok then old(miners) + [MinerRow(NextMiner(old(miners)), pubkey)] else old(miners)
    {
      var existing := GetMiner(pubkey);
      ok := !fault && existing.None?;
      if ok {
        miners := miners + [MinerRow(NextMiner(miners), pubkey)];
      }
    }

    method AddNewReward(minerId: int, fault: bool) returns (ok: bool)
      modifies this`rewards
      ensures ok == !fault
      ensures rewards == if ok then old(rewards) + [RewardRow(NextReward(old(rewards)), minerId, 0)] else old(rewards)
    {
      ok := !fault;
      if ok {
        rewards := rewards + [RewardRow(NextReward(rewards), minerId, 0)];
      }
    }
  }
}
