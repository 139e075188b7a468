/** The tables of the embedded database and what its statements do to them. */
module Tables {
  import opened Prelude
  import opened Sums
  import opened RewardSplit

  datatype MinerRow = MinerRow(id: int, pubkey: Pubkey)
  datatype RewardRow = RewardRow(id: int, minerId: int, balance: int)
  datatype EarningRow = EarningRow(id: int, earning: InsertEarning)
  datatype ContributionRow = ContributionRow(id: int, minerId: int, challengeId: int, nonce: int, difficulty: int)
  datatype ChallengeRow = ChallengeRow(
    id: int, challenge: Challenge, contributionId: Option<int>, rewardsEarned: Option<int>)

  datatype Db = Db(
    miners: seq<MinerRow>, rewards: seq<RewardRow>, earnings: seq<EarningRow>,
    contributions: seq<ContributionRow>, challenges: seq<ChallengeRow>, poolTotal: int)

  // ----- Row ids: SQLite gives a new row one more than the largest id

  function NextMiner(rows: seq<MinerRow>): int {
    if rows == [] then 1 else rows[|rows| - 1].id + 1
  }

  function NextReward(rows: seq<RewardRow>): int {
    if rows == [] then 1 else rows[|rows| - 1].id + 1
  }

  function NextEarning(rows: seq<EarningRow>): int {
    if rows == [] then 1 else rows[|rows| - 1].id + 1
  }

  function NextContribution(rows: seq<ContributionRow>): int {
    if rows == [] then 1 else rows[|rows| - 1].id + 1
  }

  /** Ids grow along the table, so the last row holds the largest. */
  ghost predicate IdsGrow(rows: seq<ContributionRow>) {
    forall i, j :: 0 <= i < j < |rows| ==> rows[i].id < rows[j].id
  }

  // ----- Statements

  /** The cast `as i64` under which nonces are stored and looked up. */
  function StoredNonce(nonce: nat): int {
    AsI64(WrapU64(nonce))
  }

  lemma StoredNonceInjective(a: nat, b: nat)
    requires a < U64 && b < U64
    ensures StoredNonce(a) == StoredNonce(b) <==> a == b
  {
  }

  function EarningsInserted(rows: seq<EarningRow>, batch: seq<InsertEarning>): seq<EarningRow> {
    rows + seq(|batch|, i requires 0 <= i < |batch| => EarningRow(NextEarning(rows) + i, batch[i]))
  }

  function StoredContribution(id: int, c: InsertContribution): (row: ContributionRow)
    ensures row.id == id && row.minerId == c.minerId && row.challengeId == c.challengeId
    ensures row.difficulty == c.difficulty && IsI64(row.nonce) && (c.nonce < I64_LIMIT ==> row.nonce == c.nonce)
  {
    ContributionRow(id, c.minerId, c.challengeId, StoredNonce(c.nonce), c.difficulty)
  }

  function ContributionsInserted(rows: seq<ContributionRow>, batch: seq<InsertContribution>): seq<ContributionRow> {
    rows + seq(|batch|, i requires 0 <= i < |batch| => StoredContribution(NextContribution(rows) + i, batch[i]))
  }

  ghost function AmountTo(m: int): UpdateReward -> int {
    (u: UpdateReward) => if u.minerId == m then u.balance else 0
  }

  /** What a batch adds to the balance of one miner id, repeated ids included. */
  ghost function AmountFor(updates: seq<UpdateReward>, m: int): int {
    SumSeq(updates, AmountTo(m))
  }

  ghost function Credited(rows: seq<RewardRow>, updates: seq<UpdateReward>): (result: seq<RewardRow>)
    ensures |result| == |rows|
    ensures forall i :: 0 <= i < |rows| ==>
              result[i] == rows[i].(balance := rows[i].balance + AmountFor(updates, rows[i].minerId))
  {
    seq(|rows|, i requires 0 <= i < |rows| =>
      rows[i].(balance := rows[i].balance + AmountFor(updates, rows[i].minerId)))
  }

  /** No row carries the nonce. */
  ghost predicate Missing(rows: seq<ContributionRow>, nonce: nat) {
    forall i :: 0 <= i < |rows| ==> rows[i].nonce != StoredNonce(nonce)
  }

  ghost predicate LocatesAt(rows: seq<ContributionRow>, nonce: nat, id: int, i: int) {
    && 0 <= i < |rows| && rows[i].nonce == StoredNonce(nonce) && rows[i].id == id
    && (forall j :: 0 <= j < |rows| && rows[j].nonce == StoredNonce(nonce) ==> rows[j].id <= id)
  }

  /** The id of the newest row with the given nonce. */
  ghost predicate Locates(rows: seq<ContributionRow>, nonce: nat, found: Option<int>) {
    match found
    case None => Missing(rows, nonce)
    case Some(id) => exists i :: LocatesAt(rows, nonce, id, i)
  }

  function ChallengeUpdated(rows: seq<ChallengeRow>, challenge: Challenge, cid: int, amount: int)
    : (result: seq<ChallengeRow>)
    ensures |result| == |rows|
    ensures forall i :: 0 <= i < |rows| ==>
              result[i] == if rows[i].challenge == challenge
                           then rows[i].(contributionId := Some(cid), rewardsEarned := Some(amount)) else rows[i]
  {
    seq(|rows|, i requires 0 <= i < |rows| =>
      if rows[i].challenge == challenge
      then rows[i].(contributionId := Some(cid), rewardsEarned := Some(amount)) else rows[i])
  }

  // ----- The three batches of one message

  function EarningsBatch(cs: seq<Contribution>, poolId: int, challengeId: int, total: int, rewards: int)
    : (batch: seq<InsertEarning>)
    requires cs != [] ==> total > 0
    requires IsI64(rewards)
    ensures |batch| == |cs|
    ensures forall i :: 0 <= i < |cs| ==>
              batch[i] == InsertEarning(cs[i].minerId, poolId, challengeId, Earned(cs[i].hashpower, total, rewards))
  {
    seq(|cs|, i requires 0 <= i < |cs| =>
      InsertEarning(cs[i].minerId, poolId, challengeId, Earned(cs[i].hashpower, total, rewards)))
  }

  function RewardsBatch(cs: seq<Contribution>, total: int, rewards: int): (batch: seq<UpdateReward>)
    requires cs != [] ==> total > 0
    requires IsI64(rewards)
    ensures |batch| == |cs|
    ensures forall i :: 0 <= i < |cs| ==>
              batch[i] == UpdateReward(cs[i].minerId, Earned(cs[i].hashpower, total, rewards))
  {
    seq(|cs|, i requires 0 <= i < |cs| => UpdateReward(cs[i].minerId, Earned(cs[i].hashpower, total, rewards)))
  }

  /** The cast `as i16` of a difficulty. */
  function AsI16(x: nat): (r: int)
    ensures -0x8000 <= r < 0x8000 && (x - r) % 0x1_0000 == 0
    ensures x < 0x8000 ==> r == x
  {
    if x % 0x1_0000 < 0x8000 then x % 0x1_0000 else x % 0x1_0000 - 0x1_0000
  }

  function ContributionsBatch(cs: seq<Contribution>, challengeId: int): (batch: seq<InsertContribution>)
    ensures |batch| == |cs|
    ensures forall i :: 0 <= i < |cs| ==>
              batch[i] == InsertContribution(cs[i].minerId, challengeId, cs[i].nonce, AsI16(cs[i].diff))
  {
    seq(|cs|, i requires 0 <= i < |cs| =>
      InsertContribution(cs[i].minerId, challengeId, cs[i].nonce, AsI16(cs[i].diff)))
  }

  // ----- Lemmas

  lemma ContributionIdsGrow(rows: seq<ContributionRow>, batch: seq<InsertContribution>)
    requires IdsGrow(rows)
    ensures IdsGrow(ContributionsInserted(rows, batch))
    ensures rows == [] && batch != [] ==> ContributionsInserted(rows, batch)[0].id == 1
  {
    var result := ContributionsInserted(rows, batch);
    forall i, j | 0 <= i < j < |result| ensures result[i].id < result[j].id {
      if i < |rows| <= j {
        assert rows[i].id <= rows[|rows| - 1].id;
      }
    }
  }

  /** Inserted earnings get the ids after the largest, in the order of the batch. */
  lemma EarningIdsFollow(rows: seq<EarningRow>, batch: seq<InsertEarning>, i: nat)
    requires i < |batch| && forall j, k :: 0 <= j < k < |rows| ==> rows[j].id < rows[k].id
    ensures var row := EarningsInserted(rows, batch)[|rows| + i];
            && row.earning == batch[i] && (rows == [] ==> row.id == i + 1)
            && forall j :: 0 <= j < |rows| + i ==> EarningsInserted(rows, batch)[j].id < row.id
  {
    assert EarningsInserted(rows, batch)[|rows| + i] == EarningRow(NextEarning(rows) + i, batch[i]);
    forall j | 0 <= j < |rows| + i ensures EarningsInserted(rows, batch)[j].id < NextEarning(rows) + i {
      assert j < |rows| ==> rows[j].id <= rows[|rows| - 1].id;
    }
  }

  /** So do rewards rows. */
  lemma RewardIdFollows(rows: seq<RewardRow>)
    requires forall j, k :: 0 <= j < k < |rows| ==> rows[j].id < rows[k].id
    ensures rows == [] ==> NextReward(rows) == 1
    ensures forall j :: 0 <= j < |rows| ==> rows[j].id < NextReward(rows)
  {
    forall j | 0 <= j < |rows| ensures rows[j].id < NextReward(rows) {
      assert rows[j].id <= rows[|rows| - 1].id;
    }
  }

  ghost function ToMiner(m: int, total: nat, rewards: int): Contribution -> int
    requires total > 0 && IsI64(rewards)
  {
    (c: Contribution) => if c.minerId == m then Earned(c.hashpower, total, rewards) else 0
  }

  /** One miner's part of the rewards batch is its part of the split. */
  lemma {:induction false} AmountForIsShare(cs: seq<Contribution>, total: nat, rewards: int, m: int)
    requires total > 0 && IsI64(rewards)
    ensures AmountFor(RewardsBatch(cs, total, rewards), m) == SumSeq(cs, ToMiner(m, total, rewards))
  {
    if cs != [] {
      var n := |cs| - 1;
      AmountForIsShare(cs[..n], total, rewards, m);
      assert RewardsBatch(cs, total, rewards)[..n] == RewardsBatch(cs[..n], total, rewards);
    }
  }

  ghost function PoolAndChallenge(x: InsertEarning, poolId: int, challengeId: int, total: nat, rewards: int)
    : Contribution -> int
    requires total > 0 && IsI64(rewards)
  {
    (c: Contribution) =>
      if InsertEarning(c.minerId, poolId, challengeId, Earned(c.hashpower, total, rewards)) == x then 1 else 0
  }

  lemma {:induction false} MultiplicityIsASum(cs: seq<Contribution>, poolId: int, challengeId: int, total: nat,
                                              rewards: int, x: InsertEarning)
    requires total > 0 && IsI64(rewards)
    ensures multiset(EarningsBatch(cs, poolId, challengeId, total, rewards))[x]
            == SumSeq(cs, PoolAndChallenge(x, poolId, challengeId, total, rewards))
  {
    if cs != [] {
      var n := |cs| - 1;
      MultiplicityIsASum(cs[..n], poolId, challengeId, total, rewards, x);
      var batch := EarningsBatch(cs, poolId, challengeId, total, rewards);
      assert batch == EarningsBatch(cs[..n], poolId, challengeId, total, rewards) + [batch[n]];
    }
  }

  /** Whatever order a hash map is walked in, the earnings inserted form the same multiset. */
  lemma EarningsAreOrderFree(order: seq<Pubkey>, other: seq<Pubkey>, m: Contributions,
                             poolId: int, challengeId: int, total: nat, rewards: int)
    requires Enumerates(order, m) && Enumerates(other, m) && total > 0 && IsI64(rewards)
    ensures multiset(EarningsBatch(Listing(order, m), poolId, challengeId, total, rewards))
            == multiset(EarningsBatch(Listing(other, m), poolId, challengeId, total, rewards))
  {
    var a := multiset(EarningsBatch(Listing(order, m), poolId, challengeId, total, rewards));
    var b := multiset(EarningsBatch(Listing(other, m), poolId, challengeId, total, rewards));
    forall x ensures a[x] == b[x] {
      MultiplicityIsASum(Listing(order, m), poolId, challengeId, total, rewards, x);
      MultiplicityIsASum(Listing(other, m), poolId, challengeId, total, rewards, x);
      SumMapOrder(order, m, PoolAndChallenge(x, poolId, challengeId, total, rewards));
      SumMapOrder(other, m, PoolAndChallenge(x, poolId, challengeId, total, rewards));
    }
  }

  /** One miner's share of a message, whatever the iteration order. */
  lemma ShareIsOrderFree(order: seq<Pubkey>, m: Contributions, total: nat, rewards: int, k: int)
    requires Enumerates(order, m) && total > 0 && IsI64(rewards)
    ensures AmountFor(RewardsBatch(Listing(order, m), total, rewards), k) == SumMap(m, ToMiner(k, total, rewards))
  {
    AmountForIsShare(Listing(order, m), total, rewards, k);
    SumMapOrder(order, m, ToMiner(k, total, rewards));
  }

  /** Every balance rises by the sum of the miner's earned amounts, whatever the order. */
  lemma BalancesAreOrderFree(order: seq<Pubkey>, m: Contributions, rows: seq<RewardRow>, total: nat, rewards: int,
                             i: nat)
    requires Enumerates(order, m) && total > 0 && IsI64(rewards) && i < |rows|
    ensures Credited(rows, RewardsBatch(Listing(order, m), total, rewards))[i]
            == rows[i].(balance := rows[i].balance + SumMap(m, ToMiner(rows[i].minerId, total, rewards)))
  {
    ShareIsOrderFree(order, m, total, rewards, rows[i].minerId);
  }
}
