/** The success-message processor and the enrolment handlers, step by step over the same tables.
    Every statement may fail; a reported failure of a statement or batch leaves no effect. */
module Ledger {
  import opened Prelude
  import opened Sums
  import opened Tables

  /** Where the processor stands with the message it received, whose contributions it walks in
      the order `cs`. It halts on a division by zero. */
  datatype Stage =
    | Waiting
    | Halted(msg: Message)
    | Earning(msg: Message, cs: seq<Contribution>)
    | Crediting(msg: Message, cs: seq<Contribution>)
    | Recording(msg: Message, cs: seq<Contribution>)
    | Totalling(msg: Message, cs: seq<Contribution>, inserted: bool)
    | Locating(msg: Message, cs: seq<Contribution>, inserted: bool)
    | Attributing(msg: Message, cs: seq<Contribution>, inserted: bool, cid: int)

  /** How a lookup answers: with the query's result, with a transient error, or without a connection. */
  datatype Reply = Answer | Transient | NoConnection

  /** Where a connecting client's handler stands. `added` tells whether its own insert succeeded. */
  datatype Enrolling =
    | AtLookup
    | AtAdd
    | AtReload(added: bool)
    | AtPool(added: bool, minerId: int)
    | AtReward(minerId: int)
    | Admitted(minerId: int)
    | Rejected

  datatype Handler = Handler(pubkey: Pubkey, stage: Enrolling)

  /** `earned` and `credited` are history: the messages whose earnings batch, and whose rewards
      batch, was committed. */
  datatype State = State(
    db: Db, queue: seq<Message>, stage: Stage, handlers: map<nat, Handler>,
    earned: seq<Message>, credited: seq<Message>)

  function Initial(db: Db): State {
    State(db, [], Waiting, map[], [], [])
  }

  datatype Event =
    | Enqueue(msg: Message)
    | Receive(order: seq<Pubkey>)
    | InsertEarnings(fault: bool)
    | UpdateBalances(fault: bool)
    | InsertContributions(fault: bool)
    | UpdateTotal(fault: bool)
    | Locate(found: Option<int>, fault: bool)
    | Attribute(fault: bool)
    | Connect(handler: nat, pubkey: Pubkey)
    | LookUpMiner(handler: nat, reply: Reply)
    | AddMiner(handler: nat, fault: bool)
    | ReloadMiner(handler: nat, fault: bool)
    | FindPool(handler: nat, ok: bool)
    | AddReward(handler: nat, fault: bool)

  /** The split divides by the total, unless there is nothing to split. */
  predicate CanSplit(msg: Message, cs: seq<Contribution>) {
    IsI64(msg.rewards) && (cs != [] ==> msg.totalHashpower > 0)
  }

  ghost predicate AtStage(s: State, h: nat, stage: Enrolling) {
    h in s.handlers && s.handlers[h].stage == stage
  }

  ghost predicate Enabled(s: State, e: Event) {
    match e
    case Enqueue(_) => true
    case Receive(order) => s.stage.Waiting? && s.queue != [] && Enumerates(order, s.queue[0].contributions)
    case InsertEarnings(_) => s.stage.Earning? && CanSplit(s.stage.msg, s.stage.cs)
    case UpdateBalances(_) => s.stage.Crediting? && CanSplit(s.stage.msg, s.stage.cs)
    case InsertContributions(_) => s.stage.Recording?
    case UpdateTotal(_) => s.stage.Totalling?
    case Locate(found, _) => s.stage.Locating? && Locates(s.db.contributions, s.stage.msg.bestNonce, found)
    case Attribute(_) => s.stage.Attributing?
    case Connect(h, _) => h !in s.handlers
    case LookUpMiner(h, _) => AtStage(s, h, AtLookup)
    case AddMiner(h, _) => AtStage(s, h, AtAdd)
    case ReloadMiner(h, _) => h in s.handlers && s.handlers[h].stage.AtReload?
    case FindPool(h, _) => h in s.handlers && s.handlers[h].stage.AtPool?
    case AddReward(h, _) => h in s.handlers && s.handlers[h].stage.AtReward?
  }

  // ----- The message processor

  /** The processor's own steps; a batch counts as committed when it is not empty. */
  ghost function Process(poolId: int, s: State, e: Event): State
    requires Enabled(s, e)
  {
    match e
    case Receive(order) =>
      var msg := s.queue[0];
      var cs := Listing(order, msg.contributions);
      s.(queue := s.queue[1..], stage := if CanSplit(msg, cs) then Earning(msg, cs) else Halted(msg))
    case InsertEarnings(fault) =>
      var next := s.(stage := Crediting(s.stage.msg, s.stage.cs));
      if fault || s.stage.cs == [] then next
      else
        var msg := s.stage.msg;
        var batch := EarningsBatch(s.stage.cs, poolId, msg.challengeId, msg.totalHashpower, msg.rewards);
        next.(db := s.db.(earnings := EarningsInserted(s.db.earnings, batch)), earned := s.earned + [msg])
    case UpdateBalances(fault) =>
      var next := s.(stage := Recording(s.stage.msg, s.stage.cs));
      if fault || s.stage.cs == [] then next
      else
        var msg := s.stage.msg;
        var batch := RewardsBatch(s.stage.cs, msg.totalHashpower, msg.rewards);
        next.(db := s.db.(rewards := Credited(s.db.rewards, batch)), credited := s.credited + [msg])
    case InsertContributions(fault) =>
      var inserted := !fault && s.stage.cs != [];
      var next := s.(stage := Totalling(s.stage.msg, s.stage.cs, inserted));
      if !inserted then next
      else
        var batch := ContributionsBatch(s.stage.cs, s.stage.msg.challengeId);
        next.(db := s.db.(contributions := ContributionsInserted(s.db.contributions, batch)))
    case UpdateTotal(fault) =>
      if fault then s
      else s.(db := s.db.(poolTotal := s.db.poolTotal + s.stage.msg.rewards),
              stage := Locating(s.stage.msg, s.stage.cs, s.stage.inserted))
    case Locate(found, fault) =>
      if fault || found.None? then s
      else s.(stage := Attributing(s.stage.msg, s.stage.cs, s.stage.inserted, found.value))
    case Attribute(fault) =>
      if fault then s.(stage := Waiting)
      else
        var msg := s.stage.msg;
        var challenges := ChallengeUpdated(s.db.challenges, msg.challenge, s.stage.cid, msg.rewards);
        s.(db := s.db.(challenges := challenges), stage := Waiting)
    case _ => s
  }

  // ----- The enrolment handlers

  /** The miners row of a pubkey, if any. */
  ghost predicate Finds(rows: seq<MinerRow>, p: Pubkey, i: int) {
    0 <= i < |rows| && rows[i].pubkey == p
  }

  ghost predicate Registered(rows: seq<MinerRow>, p: Pubkey) {
    exists i :: Finds(rows, p, i)
  }

  ghost function MinerOf(rows: seq<MinerRow>, p: Pubkey): int
    requires Registered(rows, p)
  {
    var i :| Finds(rows, p, i);
    rows[i].id
  }

  ghost function Put(s: State, h: nat, stage: Enrolling): State
    requires h in s.handlers
  {
    s.(handlers := s.handlers[h := s.handlers[h].(stage := stage)])
  }

  ghost function Enrol(s: State, e: Event): State
    requires Enabled(s, e)
  {
    match e
    case Connect(h, p) => s.(handlers := s.handlers[h := Handler(p, AtLookup)])
    case LookUpMiner(h, reply) =>
      var p := s.handlers[h].pubkey;
      if reply.NoConnection? then Put(s, h, Rejected)
      else if reply.Answer? && Registered(s.db.miners, p) then Put(s, h, Admitted(MinerOf(s.db.miners, p)))
      else Put(s, h, AtAdd)
    case AddMiner(h, fault) =>
      // the unique index on the pubkey refuses a second row
      var p := s.handlers[h].pubkey;
      if fault || Registered(s.db.miners, p) then Put(s, h, AtReload(false))
      else Put(s, h, AtReload(true)).(db := s.db.(miners := s.db.miners + [MinerRow(NextMiner(s.db.miners), p)]))
    case ReloadMiner(h, fault) =>
      // an error here is unwrapped: the handler's task ends
      var p := s.handlers[h].pubkey;
      if fault || !Registered(s.db.miners, p) then Put(s, h, Rejected)
      else Put(s, h, AtPool(s.handlers[h].stage.added, MinerOf(s.db.miners, p)))
    case FindPool(h, ok) =>
      if ok && s.handlers[h].stage.added then Put(s, h, AtReward(s.handlers[h].stage.minerId)) else Put(s, h, Rejected)
    case AddReward(h, fault) =>
      var m := s.handlers[h].stage.minerId;
      if fault then Put(s, h, Rejected)
      else Put(s, h, Admitted(m)).(db := s.db.(rewards := s.db.rewards + [RewardRow(NextReward(s.db.rewards), m, 0)]))
    case _ => s
  }

  ghost function Apply(poolId: int, s: State, e: Event): State
    requires Enabled(s, e)
  {
    match e
    case Enqueue(msg) => s.(queue := s.queue + [msg])
    case Connect(_, _) => Enrol(s, e)
    case LookUpMiner(_, _) => Enrol(s, e)
    case AddMiner(_, _) => Enrol(s, e)
    case ReloadMiner(_, _) => Enrol(s, e)
    case FindPool(_, _) => Enrol(s, e)
    case AddReward(_, _) => Enrol(s, e)
    case _ => Process(poolId, s, e)
  }

  // ----- Runs

  ghost function Exec(poolId: int, s: State, es: seq<Event>): State
    requires Legal(poolId, s, es)
    decreases |es|, 1
  {
    if es == [] then s else Apply(poolId, Exec(poolId, s, es[..|es| - 1]), es[|es| - 1])
  }

  ghost predicate Legal(poolId: int, s: State, es: seq<Event>)
    decreases |es|, 0
  {
    es == [] || (Legal(poolId, s, es[..|es| - 1]) && Enabled(Exec(poolId, s, es[..|es| - 1]), es[|es| - 1]))
  }

  lemma ExecSnoc(poolId: int, s: State, es: seq<Event>, e: Event)
    requires Legal(poolId, s, es) && Enabled(Exec(poolId, s, es), e)
    ensures Legal(poolId, s, es + [e]) && Exec(poolId, s, es + [e]) == Apply(poolId, Exec(poolId, s, es), e)
  {
    assert (es + [e])[..|es|] == es;
  }
}
