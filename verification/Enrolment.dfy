/** Enrolment under concurrent handlers and failing lookups. */
module Enrolment {
  import opened Prelude
  import opened Tables
  import opened Ledger

  /** The handler whose own insert created its miner, and that still owes the rewards row. */
  ghost predicate Owner(h: Handler) {
    (h.stage.AtReload? && h.stage.added) || (h.stage.AtPool? && h.stage.added) || h.stage.AtReward?
  }

  ghost predicate TrackedAt(rewards: seq<RewardRow>, minerId: int, i: int) {
    0 <= i < |rewards| && rewards[i].minerId == minerId
  }

  ghost predicate Tracked(rewards: seq<RewardRow>, minerId: int) {
    exists i :: TrackedAt(rewards, minerId, i)
  }

  /** At most one row per pubkey, under an id of its own. */
  ghost predicate MinersUnique(miners: seq<MinerRow>) {
    && (forall i, j :: 0 <= i < j < |miners| ==> miners[i].pubkey != miners[j].pubkey)
    && (forall i, j :: 0 <= i < j < |miners| ==> miners[i].id < miners[j].id)
  }

  ghost predicate MinerExists(miners: seq<MinerRow>, minerId: int) {
    exists i :: 0 <= i < |miners| && miners[i].id == minerId
  }

  ghost predicate OneRowEach(rows: seq<RewardRow>) {
    forall i, j :: 0 <= i < j < |rows| ==> rows[i].minerId != rows[j].minerId
  }

  /** At most one rewards row per miner, and each for an existing miner. */
  ghost predicate RewardsUnique(db: Db) {
    && OneRowEach(db.rewards)
    && (forall i :: 0 <= i < |db.rewards| ==> MinerExists(db.miners, db.rewards[i].minerId))
  }

  ghost predicate IdOf(miners: seq<MinerRow>, p: Pubkey, id: int) {
    exists i :: Finds(miners, p, i) && miners[i].id == id
  }

  /** An owner's miner exists and has no rewards row yet; the ids it carries are that miner's. */
  ghost predicate OwnerOk(db: Db, h: Handler) {
    && (Owner(h) ==> forall i :: Finds(db.miners, h.pubkey, i) ==> !Tracked(db.rewards, db.miners[i].id))
    && (Owner(h) ==> Registered(db.miners, h.pubkey))
    && (Owner(h) && !h.stage.AtReload? ==> IdOf(db.miners, h.pubkey, h.stage.minerId))
  }

  ghost predicate Owners(s: State) {
    && (forall h :: h in s.handlers ==> OwnerOk(s.db, s.handlers[h]))
    && (forall g, h :: g in s.handlers && h in s.handlers && g != h && Owner(s.handlers[g]) && Owner(s.handlers[h]) ==>
          s.handlers[g].pubkey != s.handlers[h].pubkey)
  }

  ghost predicate Enrolled(s: State) {
    MinersUnique(s.db.miners) && RewardsUnique(s.db) && Owners(s)
  }

  lemma UniqueIndex(miners: seq<MinerRow>, p: Pubkey, i: int, j: int)
    requires MinersUnique(miners) && Finds(miners, p, i) && Finds(miners, p, j)
    ensures i == j
  {
  }

  lemma MinerOfIsId(miners: seq<MinerRow>, p: Pubkey)
    requires Registered(miners, p)
    ensures IdOf(miners, p, MinerOf(miners, p))
  {
    var i :| Finds(miners, p, i) && MinerOf(miners, p) == miners[i].id;
  }

  lemma AddedMinerKeepsTables(s: State, p: Pubkey)
    requires Enrolled(s) && !Registered(s.db.miners, p)
    ensures var miners := s.db.miners + [MinerRow(NextMiner(s.db.miners), p)];
            var db := s.db.(miners := miners);
            && MinersUnique(miners) && RewardsUnique(db)
            && Finds(miners, p, |s.db.miners|) && !Tracked(db.rewards, miners[|s.db.miners|].id)
  {
    var n := |s.db.miners|;
    var miners := s.db.miners + [MinerRow(NextMiner(s.db.miners), p)];
    forall i | 0 <= i < n ensures miners[i].pubkey != p && miners[i].id < miners[n].id {
      assert !Finds(s.db.miners, p, i);
    }
    forall i | 0 <= i < |s.db.rewards|
      ensures MinerExists(miners, s.db.rewards[i].minerId) && s.db.rewards[i].minerId != miners[n].id
    {
      assert MinerExists(s.db.miners, s.db.rewards[i].minerId);
      var k :| 0 <= k < n && s.db.miners[k].id == s.db.rewards[i].minerId;
      assert miners[k] == s.db.miners[k];
    }
  }

  lemma OwnerSurvivesNewMiner(db: Db, p: Pubkey, h: Handler)
    requires OwnerOk(db, h) && (Owner(h) ==> h.pubkey != p)
    ensures OwnerOk(db.(miners := db.miners + [MinerRow(NextMiner(db.miners), p)]), h)
  {
    var miners := db.miners + [MinerRow(NextMiner(db.miners), p)];
    if Owner(h) {
      var i :| Finds(db.miners, h.pubkey, i);
      assert Finds(miners, h.pubkey, i);
      forall k | Finds(miners, h.pubkey, k) ensures !Tracked(db.rewards, miners[k].id) {
        assert Finds(db.miners, h.pubkey, k);
      }
      if !h.stage.AtReload? {
        var j :| Finds(db.miners, h.pubkey, j) && db.miners[j].id == h.stage.minerId;
        assert Finds(miners, h.pubkey, j) && miners[j].id == h.stage.minerId;
      }
    }
  }

  lemma AddMinerKeepsEnrolled(poolId: int, s: State, e: Event)
    requires e.AddMiner? && Enabled(s, e) && Enrolled(s)
    ensures Enrolled(Apply(poolId, s, e))
  {
    var s' := Apply(poolId, s, e);
    var p := s.handlers[e.handler].pubkey;
    if !e.fault && !Registered(s.db.miners, p) {
      AddedMinerKeepsTables(s, p);
      forall h | h in s'.handlers ensures OwnerOk(s'.db, s'.handlers[h]) {
        if h == e.handler {
          forall i | Finds(s'.db.miners, p, i) ensures i == |s.db.miners| {
            UniqueIndex(s'.db.miners, p, i, |s.db.miners|);
          }
        } else {
          OwnerSurvivesNewMiner(s.db, p, s.handlers[h]);
        }
      }
    }
  }

  lemma AddRewardKeepsEnrolled(poolId: int, s: State, e: Event)
    requires e.AddReward? && Enabled(s, e) && Enrolled(s)
    ensures Enrolled(Apply(poolId, s, e))
  {
    var s' := Apply(poolId, s, e);
    if !e.fault {
      var own := s.handlers[e.handler];
      var m := own.stage.minerId;
      assert OwnerOk(s.db, own);
      var k :| Finds(s.db.miners, own.pubkey, k) && s.db.miners[k].id == m;
      forall i | 0 <= i < |s.db.rewards| ensures s.db.rewards[i].minerId != m {
        assert !TrackedAt(s.db.rewards, m, i);
      }
      forall h | h in s'.handlers ensures OwnerOk(s'.db, s'.handlers[h]) {
        if h != e.handler && Owner(s.handlers[h]) {
          assert OwnerOk(s.db, s.handlers[h]);
          forall i | Finds(s'.db.miners, s.handlers[h].pubkey, i) ensures !Tracked(s'.db.rewards, s'.db.miners[i].id) {
            assert s'.db.miners[i].id != m;
            forall r ensures !TrackedAt(s'.db.rewards, s'.db.miners[i].id, r) {
              assert !TrackedAt(s.db.rewards, s.db.miners[i].id, r);
            }
          }
        }
      }
    }
  }

  lemma ReloadKeepsEnrolled(poolId: int, s: State, e: Event)
    requires e.ReloadMiner? && Enabled(s, e) && Enrolled(s)
    ensures Enrolled(Apply(poolId, s, e))
  {
    var s' := Apply(poolId, s, e);
    var own := s.handlers[e.handler];
    assert OwnerOk(s.db, own);
    if Registered(s.db.miners, own.pubkey) {
      MinerOfIsId(s.db.miners, own.pubkey);
    }
    forall h | h in s'.handlers ensures OwnerOk(s'.db, s'.handlers[h]) {
      assert OwnerOk(s.db, s.handlers[h]);
    }
  }

  lemma CreditKeepsEnrolled(s: State, s': State)
    requires Enrolled(s) && s'.handlers == s.handlers && s'.db.miners == s.db.miners
    requires |s'.db.rewards| == |s.db.rewards|
    requires forall i :: 0 <= i < |s.db.rewards| ==> s'.db.rewards[i].minerId == s.db.rewards[i].minerId
    ensures Enrolled(s')
  {
    forall m ensures Tracked(s'.db.rewards, m) <==> Tracked(s.db.rewards, m) {
      forall i ensures TrackedAt(s'.db.rewards, m, i) <==> TrackedAt(s.db.rewards, m, i) {
      }
    }
    forall h | h in s'.handlers ensures OwnerOk(s'.db, s'.handlers[h]) {
      assert OwnerOk(s.db, s.handlers[h]);
    }
  }

  /** Moves that touch no table and make no handler an owner. */
  lemma NoNewOwner(s: State, s': State)
    requires Enrolled(s) && s'.db == s.db
    requires forall h :: h in s'.handlers && Owner(s'.handlers[h]) ==>
               && h in s.handlers && Owner(s.handlers[h]) && s'.handlers[h].pubkey == s.handlers[h].pubkey
               && s'.handlers[h].stage.AtReload? == s.handlers[h].stage.AtReload?
               && (!s.handlers[h].stage.AtReload? ==> s'.handlers[h].stage.minerId == s.handlers[h].stage.minerId)
    ensures Enrolled(s')
  {
    forall h | h in s'.handlers ensures OwnerOk(s'.db, s'.handlers[h]) {
      if h in s.handlers {
        assert OwnerOk(s.db, s.handlers[h]);
      }
    }
  }

  lemma MoveKeepsEnrolled(poolId: int, s: State, e: Event)
    requires (e.Connect? || e.LookUpMiner? || e.FindPool?) && Enabled(s, e) && Enrolled(s)
    ensures Enrolled(Apply(poolId, s, e))
  {
    NoNewOwner(s, Apply(poolId, s, e));
  }

  predicate Enrolls(e: Event) {
    e.Connect? || e.LookUpMiner? || e.AddMiner? || e.ReloadMiner? || e.FindPool? || e.AddReward?
  }

  lemma ProcessKeepsRows(poolId: int, s: State, e: Event)
    requires Enabled(s, e) && !Enrolls(e)
    ensures var s' := Apply(poolId, s, e);
            && s'.handlers == s.handlers && s'.db.miners == s.db.miners
            && |s'.db.rewards| == |s.db.rewards|
            && forall i :: 0 <= i < |s.db.rewards| ==> s'.db.rewards[i].minerId == s.db.rewards[i].minerId
  {
    assert e.UpdateBalances? || Apply(poolId, s, e).db.rewards == s.db.rewards;
  }

  lemma StepKeepsEnrolled(poolId: int, s: State, e: Event)
    requires Enabled(s, e) && Enrolled(s)
    ensures Enrolled(Apply(poolId, s, e))
  {
    if e.AddMiner? {
      AddMinerKeepsEnrolled(poolId, s, e);
    } else if e.AddReward? {
      AddRewardKeepsEnrolled(poolId, s, e);
    } else if e.ReloadMiner? {
      ReloadKeepsEnrolled(poolId, s, e);
    } else if Enrolls(e) {
      MoveKeepsEnrolled(poolId, s, e);
    } else {
      ProcessKeepsRows(poolId, s, e);
      CreditKeepsEnrolled(s, Apply(poolId, s, e));
    }
  }

  /** Under any interleaving of handlers, with any lookup or insert failing: at most one miners row
      per pubkey, at most one rewards row per miner, and every rewards row for an existing miner. */
  lemma {:induction false} EveryRunIsEnrolled(poolId: int, db: Db, es: seq<Event>)
    requires MinersUnique(db.miners) && RewardsUnique(db)
    requires Legal(poolId, Initial(db), es)
    ensures Enrolled(Exec(poolId, Initial(db), es))
    decreases |es|
  {
    if es != [] {
      var rest := es[..|es| - 1];
      EveryRunIsEnrolled(poolId, db, rest);
      StepKeepsEnrolled(poolId, Exec(poolId, Initial(db), rest), es[|es| - 1]);
    }
  }

  // ----- Which miners have a rewards row

  /** The pubkey's miner has a rewards row. */
  ghost predicate PubkeyTracked(db: Db, p: Pubkey) {
    exists i :: Finds(db.miners, p, i) && Tracked(db.rewards, db.miners[i].id)
  }

  /** The step that gives a handler's miner its rewards row. */
  ghost predicate Tracks(s: State, e: Event, p: Pubkey) {
    e.AddReward? && !e.fault && e.handler in s.handlers && s.handlers[e.handler].pubkey == p
  }

  lemma SameRowsSameTracking(db: Db, db': Db, p: Pubkey)
    requires db'.miners == db.miners && |db'.rewards| == |db.rewards|
    requires forall i :: 0 <= i < |db.rewards| ==> db'.rewards[i].minerId == db.rewards[i].minerId
    ensures PubkeyTracked(db', p) <==> PubkeyTracked(db, p)
  {
    forall m ensures Tracked(db'.rewards, m) <==> Tracked(db.rewards, m) {
      forall i ensures TrackedAt(db'.rewards, m, i) <==> TrackedAt(db.rewards, m, i) {
      }
    }
  }

  /** A new miner's row changes nothing for the pubkeys already there. */
  lemma NewMinerSameTracking(s: State, q: Pubkey, p: Pubkey)
    requires Enrolled(s) && !Registered(s.db.miners, q) && Registered(s.db.miners, p)
    ensures PubkeyTracked(s.db.(miners := s.db.miners + [MinerRow(NextMiner(s.db.miners), q)]), p)
            <==> PubkeyTracked(s.db, p)
  {
    var miners := s.db.miners + [MinerRow(NextMiner(s.db.miners), q)];
    assert p != q;
    forall i ensures Finds(miners, p, i) <==> Finds(s.db.miners, p, i) {
    }
  }

  /** A new rewards row tracks its owner's pubkey and no other. */
  lemma NewRowTracksOne(s: State, h: nat, p: Pubkey)
    requires Enrolled(s) && h in s.handlers && s.handlers[h].stage.AtReward?
    ensures var row := RewardRow(NextReward(s.db.rewards), s.handlers[h].stage.minerId, 0);
            PubkeyTracked(s.db.(rewards := s.db.rewards + [row]), p)
            <==> PubkeyTracked(s.db, p) || s.handlers[h].pubkey == p
  {
    var own := s.handlers[h];
    var row := RewardRow(NextReward(s.db.rewards), own.stage.minerId, 0);
    var rewards := s.db.rewards + [row];
    assert OwnerOk(s.db, own);
    var k :| Finds(s.db.miners, own.pubkey, k) && s.db.miners[k].id == own.stage.minerId;
    forall m ensures Tracked(rewards, m) <==> Tracked(s.db.rewards, m) || m == row.minerId {
      if Tracked(s.db.rewards, m) {
        var i :| TrackedAt(s.db.rewards, m, i);
        assert TrackedAt(rewards, m, i);
      }
      if m == row.minerId {
        assert TrackedAt(rewards, m, |s.db.rewards|);
      }
      if Tracked(rewards, m) {
        var i :| TrackedAt(rewards, m, i);
        assert i == |s.db.rewards| || TrackedAt(s.db.rewards, m, i);
      }
    }
    if own.pubkey != p {
      forall i | Finds(s.db.miners, p, i) ensures s.db.miners[i].id != row.minerId {
        assert i != k;
      }
    }
  }

  lemma RegisteredStays(poolId: int, s: State, e: Event, p: Pubkey)
    requires Enabled(s, e) && Registered(s.db.miners, p)
    ensures Registered(Apply(poolId, s, e).db.miners, p)
  {
    var i :| Finds(s.db.miners, p, i);
    assert Finds(Apply(poolId, s, e).db.miners, p, i);
  }

  /** A registered pubkey's miner comes by its rewards row in no other way. */
  lemma TrackingChangesIff(poolId: int, s: State, e: Event, p: Pubkey)
    requires Enabled(s, e) && Enrolled(s) && Registered(s.db.miners, p)
    ensures PubkeyTracked(Apply(poolId, s, e).db, p) <==> PubkeyTracked(s.db, p) || Tracks(s, e, p)
    ensures Registered(Apply(poolId, s, e).db.miners, p)
  {
    var s' := Apply(poolId, s, e);
    RegisteredStays(poolId, s, e, p);
    if e.AddMiner? && s'.db.miners != s.db.miners {
      NewMinerSameTracking(s, s.handlers[e.handler].pubkey, p);
    } else if e.AddReward? && !e.fault {
      NewRowTracksOne(s, e.handler, p);
    } else {
      if !Enrolls(e) {
        ProcessKeepsRows(poolId, s, e);
      }
      SameRowsSameTracking(s.db, s'.db, p);
    }
  }

  // ----- A miner without a rewards row stays without it

  /** No handler owes the pubkey's miner its rewards row. */
  ghost predicate Unowned(s: State, p: Pubkey) {
    forall h :: h in s.handlers && s.handlers[h].pubkey == p ==> !Owner(s.handlers[h])
  }

  lemma UnownedStays(poolId: int, s: State, e: Event, p: Pubkey)
    requires Enabled(s, e) && Registered(s.db.miners, p) && Unowned(s, p)
    ensures Unowned(Apply(poolId, s, e), p)
  {
  }

  /** Once a pubkey is registered, untracked and owned by no handler, it stays untracked on every run:
      its miner has earnings and never a balance. */
  lemma {:induction false} UntrackedForGood(poolId: int, s: State, es: seq<Event>, p: Pubkey)
    requires Enrolled(s) && Legal(poolId, s, es)
    requires Registered(s.db.miners, p) && Unowned(s, p) && !PubkeyTracked(s.db, p)
    ensures var t := Exec(poolId, s, es);
            Enrolled(t) && Registered(t.db.miners, p) && Unowned(t, p) && !PubkeyTracked(t.db, p)
    decreases |es|
  {
    if es != [] {
      var rest, e := es[..|es| - 1], es[|es| - 1];
      UntrackedForGood(poolId, s, rest, p);
      var t := Exec(poolId, s, rest);
      StepKeepsEnrolled(poolId, t, e);
      UnownedStays(poolId, t, e, p);
      TrackingChangesIff(poolId, t, e, p);
    }
  }

  // ----- A miner is tracked iff its own handler completes

  /** How far the handler that added the miner has come, and which of its steps have succeeded. */
  ghost predicate Progress(h: nat, stage: Enrolling, es: seq<Event>, tracked: bool) {
    var reload, pool, reward := ReloadMiner(h, false) in es, FindPool(h, true) in es, AddReward(h, false) in es;
    match stage
    case AtReload(added) => added && !reload && !pool && !reward && !tracked
    case AtPool(added, _) => added && reload && !pool && !reward && !tracked
    case AtReward(_) => reload && pool && !reward && !tracked
    case Admitted(_) => reload && pool && reward && tracked
    case Rejected => !reward && !tracked
    case _ => false
  }

  /** The handler's part of the state, and that no other handler owns its pubkey. */
  ghost predicate Following(s: State, h: nat, p: Pubkey, es: seq<Event>) {
    && Enrolled(s) && Registered(s.db.miners, p)
    && h in s.handlers && s.handlers[h].pubkey == p
    && Progress(h, s.handlers[h].stage, es, PubkeyTracked(s.db, p))
    && (forall g :: g in s.handlers && g != h && s.handlers[g].pubkey == p ==> !Owner(s.handlers[g]))
  }

  ghost predicate OwnStep(e: Event, h: nat) {
    (e.ReloadMiner? || e.FindPool? || e.AddReward?) && e.handler == h
  }

  lemma OthersStayOut(poolId: int, s: State, e: Event, h: nat, p: Pubkey)
    requires Enabled(s, e) && Registered(s.db.miners, p) && h in s.handlers
    requires forall g :: g in s.handlers && g != h && s.handlers[g].pubkey == p ==> !Owner(s.handlers[g])
    ensures var handlers := Apply(poolId, s, e).handlers;
            forall g :: g in handlers && g != h && handlers[g].pubkey == p ==> !Owner(handlers[g])
  {
  }

  /** A step of another handler, or of the processor. */
  lemma OtherStepFollows(poolId: int, s: State, e: Event, h: nat, p: Pubkey, es: seq<Event>)
    requires Enabled(s, e) && Following(s, h, p, es) && !OwnStep(e, h)
    ensures Following(Apply(poolId, s, e), h, p, es + [e])
  {
    var s' := Apply(poolId, s, e);
    StepKeepsEnrolled(poolId, s, e);
    OthersStayOut(poolId, s, e, h, p);
    TrackingChangesIff(poolId, s, e, p);
    assert s'.handlers[h] == s.handlers[h];
    assert forall x :: x in es + [e] <==> x in es || x == e;
  }

  lemma OwnStepFollows(poolId: int, s: State, e: Event, h: nat, p: Pubkey, es: seq<Event>)
    requires Enabled(s, e) && Following(s, h, p, es) && OwnStep(e, h)
    ensures Following(Apply(poolId, s, e), h, p, es + [e])
  {
    StepKeepsEnrolled(poolId, s, e);
    OthersStayOut(poolId, s, e, h, p);
    TrackingChangesIff(poolId, s, e, p);
    assert forall x :: x in es + [e] <==> x in es || x == e;
  }

  lemma {:induction false} RunFollows(poolId: int, s: State, h: nat, p: Pubkey, es: seq<Event>)
    requires Legal(poolId, s, es) && Following(s, h, p, [])
    ensures Following(Exec(poolId, s, es), h, p, es)
    decreases |es|
  {
    if es != [] {
      var rest, e := es[..|es| - 1], es[|es| - 1];
      RunFollows(poolId, s, h, p, rest);
      assert es == rest + [e];
      if OwnStep(e, h) {
        OwnStepFollows(poolId, Exec(poolId, s, rest), e, h, p, rest);
      } else {
        OtherStepFollows(poolId, Exec(poolId, s, rest), e, h, p, rest);
      }
    }
  }

  /** From the insert of a new miner, on every run and whatever other handlers of the same pubkey do:
      the miner has a rewards row exactly when its own handler's reload, pool lookup and insert of
      the rewards row have all succeeded. */
  lemma TrackedIffHandlerCompletes(poolId: int, s: State, h: nat, es: seq<Event>)
    requires Enrolled(s) && Enabled(s, AddMiner(h, false)) && !Registered(s.db.miners, s.handlers[h].pubkey)
    requires Legal(poolId, Apply(poolId, s, AddMiner(h, false)), es)
    ensures var t := Exec(poolId, Apply(poolId, s, AddMiner(h, false)), es);
            PubkeyTracked(t.db, s.handlers[h].pubkey) <==>
            ReloadMiner(h, false) in es && FindPool(h, true) in es && AddReward(h, false) in es
  {
    var p, t := s.handlers[h].pubkey, Apply(poolId, s, AddMiner(h, false));
    StepKeepsEnrolled(poolId, s, AddMiner(h, false));
    assert Finds(t.db.miners, p, |s.db.miners|);
    assert Registered(t.db.miners, p);
    assert Owner(t.handlers[h]) && OwnerOk(t.db, t.handlers[h]);
    assert !PubkeyTracked(t.db, p);
    RunFollows(poolId, t, h, p, es);
  }
}
