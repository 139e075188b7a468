/** The websocket handlers' enrolment of a connecting client, over the in-place database. */
module Handlers {
  import opened Prelude
  import opened Tables
  import opened Ledger
  import opened Database
  import opened Enrolment

  /** Which statements of one enrolment fail. */
  datatype Faults = Faults(add: bool, reload: bool, pool: bool, reward: bool) {
    predicate Any() {
      add || reload || pool || reward
    }
  }

  /** The miners table after an insert that may fail, and that a known pubkey refuses. */
  ghost function MinersAfter(miners: seq<MinerRow>, p: Pubkey, fault: bool): seq<MinerRow> {
    if fault || Registered(miners, p) then miners else miners + [MinerRow(NextMiner(miners), p)]
  }

  lemma MinerOfIsUnique(miners: seq<MinerRow>, p: Pubkey, id: int)
    requires MinersUnique(miners) && IdOf(miners, p, id)
    ensures Registered(miners, p) && MinerOf(miners, p) == id
  {
    var i :| Finds(miners, p, i) && miners[i].id == id;
    var k :| Finds(miners, p, k) && MinerOf(miners, p) == miners[k].id;
    UniqueIndex(miners, p, i, k);
  }

  lemma NewMinerStaysUnique(miners: seq<MinerRow>, p: Pubkey)
    requires MinersUnique(miners) && !Registered(miners, p)
    ensures MinersUnique(miners + [MinerRow(NextMiner(miners), p)])
    ensures IdOf(miners + [MinerRow(NextMiner(miners), p)], p, NextMiner(miners))
  {
    var longer := miners + [MinerRow(NextMiner(miners), p)];
    assert Finds(longer, p, |miners|);
    forall i | 0 <= i < |miners| ensures miners[i].pubkey != p {
      assert !Finds(miners, p, i);
    }
  }

  class EnrolmentHandlers {
    const db: Connection
    const poolId: int
    ghost var model: State

    ghost predicate Valid()
      reads this, db
    {
      model.db == db.Contents() && MinersUnique(db.miners)
    }

    constructor (db: Connection, poolId: int)
      requires MinersUnique(db.miners)
      ensures Valid() && model == Initial(db.Contents()) && this.db == db && this.poolId == poolId
    {
      this.db := db;
      this.poolId := poolId;
      model := Initial(db.Contents());
    }

    ghost predicate Ran(s0: State, es: seq<Event>)
      reads this
    {
      Legal(poolId, s0, es) && model == Exec(poolId, s0, es)
    }

    ghost method Advance(e: Event, s0: State, es: seq<Event>) returns (fs: seq<Event>)
      requires Enabled(model, e) && Ran(s0, es)
      modifies this`model
      ensures model == Apply(poolId, old(model), e) && Ran(s0, fs)
    {
      ExecSnoc(poolId, s0, es, e);
      fs := es + [e];
      model := Apply(poolId, model, e);
    }

    /** Inserts the miner, which the unique index refuses for a known pubkey. */
    method Add(h: nat, pubkey: Pubkey, faults: Faults, ghost s0: State, ghost es: seq<Event>)
      returns (added: bool, ghost fs: seq<Event>)
      requires Valid() && Ran(s0, es) && h in model.handlers && model.handlers[h] == Handler(pubkey, AtAdd)
      modifies this`model, db`miners
      ensures Valid() && Ran(s0, fs) && h in model.handlers && model.handlers[h] == Handler(pubkey, AtReload(added))
      ensures added <==> !faults.add && !Registered(old(db.miners), pubkey)
      ensures db.miners == MinersAfter(old(db.miners), pubkey, faults.add)
      ensures added ==> IdOf(db.miners, pubkey, NextMiner(old(db.miners)))
    {
      if !Registered(db.miners, pubkey) {
        NewMinerStaysUnique(db.miners, pubkey);
      }
      added := db.AddNewMiner(pubkey, faults.add);
      fs := Advance(AddMiner(h, faults.add), s0, es);
    }

    /** Reads the row back, whether or not the insert succeeded. */
    method Reload(h: nat, pubkey: Pubkey, added: bool, faults: Faults, ghost s0: State, ghost es: seq<Event>)
      returns (reloaded: Option<int>, ghost fs: seq<Event>)
      requires Valid() && Ran(s0, es) && h in model.handlers && model.handlers[h] == Handler(pubkey, AtReload(added))
      modifies this`model
      ensures Valid() && Ran(s0, fs) && h in model.handlers
      ensures reloaded.Some? <==> !faults.reload && Registered(db.miners, pubkey)
      ensures reloaded.Some? ==> IdOf(db.miners, pubkey, reloaded.value)
      ensures model.handlers[h] == Handler(pubkey, if reloaded.Some? then AtPool(added, reloaded.value) else Rejected)
    {
      reloaded := None;
      if !faults.reload {
        reloaded := db.GetMiner(pubkey);
      }
      if reloaded.Some? {
        MinerOfIsUnique(db.miners, pubkey, reloaded.value);
      }
      fs := Advance(ReloadMiner(h, faults.reload), s0, es);
    }

    /** The pool's row, and the rewards row that tracks the new miner. */
    method TrackRewards(h: nat, pubkey: Pubkey, added: bool, minerId: int, faults: Faults,
                        ghost s0: State, ghost es: seq<Event>)
      returns (admitted: bool, ghost fs: seq<Event>)
      requires Valid() && Ran(s0, es) && h in model.handlers
      requires model.handlers[h] == Handler(pubkey, AtPool(added, minerId))
      modifies this`model, db`rewards
      ensures Valid() && Ran(s0, fs)
      ensures admitted <==> added && !faults.pool && !faults.reward
      ensures h in model.handlers
      ensures model.handlers[h] == Handler(pubkey, if admitted then Admitted(minerId) else Rejected)
      ensures db.rewards == if admitted then old(db.rewards) + [RewardRow(NextReward(old(db.rewards)), minerId, 0)]
                            else old(db.rewards)
    {
      fs := Advance(FindPool(h, !faults.pool), s0, es);
      admitted := added && !faults.pool;
      if admitted {
        admitted := db.AddNewReward(minerId, faults.reward);
        fs := Advance(AddReward(h, faults.reward), s0, fs);
      }
    }

    /** The lookup that opens every connection. */
    method LookUp(h: nat, pubkey: Pubkey, reply: Reply) returns (miner: Option<int>, ghost es: seq<Event>)
      requires Valid() && h !in model.handlers
      modifies this`model
      ensures Valid() && Ran(old(model), es) && h in model.handlers
      ensures miner.Some? <==> reply.Answer? && Registered(db.miners, pubkey)
      ensures miner.Some? ==> IdOf(db.miners, pubkey, miner.value)
      ensures model.handlers[h] == Handler(pubkey, if miner.Some? then Admitted(miner.value)
                                                   else if reply.NoConnection? then Rejected else AtAdd)
    {
      ghost var s0 := model;
      es := Advance(Event.Connect(h, pubkey), s0, []);
      miner := None;
      if reply.Answer? {
        miner := db.GetMiner(pubkey);
        if miner.Some? {
          MinerOfIsUnique(db.miners, pubkey, miner.value);
        }
      }
      es := Advance(LookUpMiner(h, reply), s0, es);
    }

    /** The branch behind a lookup that found no row, or failed: a new pubkey gets its miners row
        unless the insert fails, and its rewards row unless anything does. */
    method EnrolNew(h: nat, pubkey: Pubkey, faults: Faults, ghost s0: State, ghost es: seq<Event>)
      returns (miner: Option<int>, ghost fs: seq<Event>)
      requires Valid() && Ran(s0, es) && h in model.handlers && model.handlers[h] == Handler(pubkey, AtAdd)
      modifies this`model, db`miners, db`rewards
      ensures Valid() && Ran(s0, fs)
      ensures db.miners == MinersAfter(old(db.miners), pubkey, faults.add)
      ensures db.rewards == if miner.Some?
                            then old(db.rewards) + [RewardRow(NextReward(old(db.rewards)), miner.value, 0)]
                            else old(db.rewards)
      ensures miner == if !Registered(old(db.miners), pubkey) && !faults.Any()
                       then Some(NextMiner(old(db.miners))) else None
      ensures miner.Some? ==> IdOf(db.miners, pubkey, miner.value)
      ensures h in model.handlers
      ensures model.handlers[h] == Handler(pubkey, if miner.Some? then Admitted(miner.value) else Rejected)
    {
      miner := None;
      var added, reloaded, admitted;
      added, fs := Add(h, pubkey, faults, s0, es);
      reloaded, fs := Reload(h, pubkey, added, faults, s0, fs);
      if reloaded.Some? {
        if added {
          MinerOfIsUnique(db.miners, pubkey, reloaded.value);
          MinerOfIsUnique(db.miners, pubkey, NextMiner(old(db.miners)));
        }
        admitted, fs := TrackRewards(h, pubkey, added, reloaded.value, faults, s0, fs);
        if admitted {
          miner := reloaded;
        }
      }
    }

    /** One connection attempt whose statements no other handler interrupts. A pubkey that the
        lookup finds is admitted as it is, and turned away if the lookup fails. A new one is admitted
        exactly when nothing fails. Without a connection nothing is written; otherwise a new pubkey
        has its miners row from then on unless the insert fails, but its rewards row only if it is
        admitted: any later failure leaves a registered miner that no rewards row tracks. */
    method Connect(h: nat, pubkey: Pubkey, reply: Reply, faults: Faults)
      returns (miner: Option<int>, ghost es: seq<Event>)
      requires Valid() && h !in model.handlers
      modifies this`model, db`miners, db`rewards
      ensures Valid() && Ran(old(model), es)
      ensures miner.Some? ==> IdOf(db.miners, pubkey, miner.value)
      ensures miner.Some? <==>
              !reply.NoConnection? && if Registered(old(db.miners), pubkey) then reply.Answer? else !faults.Any()
      ensures db.miners == if reply.NoConnection? then old(db.miners)
                           else MinersAfter(old(db.miners), pubkey, faults.add)
      ensures db.rewards == if miner.Some? && !Registered(old(db.miners), pubkey)
                            then old(db.rewards) + [RewardRow(NextReward(old(db.rewards)), miner.value, 0)]
                            else old(db.rewards)
      ensures h in model.handlers
      ensures model.handlers[h] == Handler(pubkey, if miner.Some? then Admitted(miner.value) else Rejected)
    {
      ghost var s0 := model;
      miner, es := LookUp(h, pubkey, reply);
      if miner.None? && !reply.NoConnection? {
        miner, es := EnrolNew(h, pubkey, faults, s0, es);
      }
    }
  }
}
