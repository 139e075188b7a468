/** When the lookup of a message's best nonce ends, and when it holds the queue up for good. */
module LedgerLookup {
  import opened Prelude
  import opened Sums
  import opened Tables
  import opened Ledger

  /** Some contribution of the message carries its best nonce. */
  ghost predicate CarriesBest(msg: Message) {
    exists p :: p in msg.contributions && StoredNonce(msg.contributions[p].nonce) == StoredNonce(msg.bestNonce)
  }

  /** What decides the lookup, given the rows that stood before the message: its contributions are
      committed and carry the best nonce, or an earlier row does. */
  ghost predicate MayLocate(before: seq<ContributionRow>, msg: Message, committed: bool) {
    (committed && CarriesBest(msg)) || !Missing(before, msg.bestNonce)
  }

  ghost predicate Lists(msg: Message, cs: seq<Contribution>) {
    exists order :: Enumerates(order, msg.contributions) && cs == Listing(order, msg.contributions)
  }

  ghost function RowsAfter(before: seq<ContributionRow>, msg: Message, cs: seq<Contribution>, inserted: bool)
    : seq<ContributionRow>
  {
    if inserted then ContributionsInserted(before, ContributionsBatch(cs, msg.challengeId)) else before
  }

  lemma ListCarriesIff(msg: Message, cs: seq<Contribution>)
    requires Lists(msg, cs)
    ensures CarriesBest(msg) <==> exists i :: 0 <= i < |cs| && StoredNonce(cs[i].nonce) == StoredNonce(msg.bestNonce)
    ensures cs == [] ==> !CarriesBest(msg)
  {
    var order :| Enumerates(order, msg.contributions) && cs == Listing(order, msg.contributions);
    if CarriesBest(msg) {
      var p :| p in msg.contributions && StoredNonce(msg.contributions[p].nonce) == StoredNonce(msg.bestNonce);
      assert p in order;
      var i :| 0 <= i < |order| && order[i] == p;
      assert cs[i] == msg.contributions[p];
    }
    if i :| 0 <= i < |cs| && StoredNonce(cs[i].nonce) == StoredNonce(msg.bestNonce) {
      assert order[i] in msg.contributions;
    }
  }

  /** The rows after the message's batch carry its best nonce exactly under that condition. */
  lemma RowsCarryIff(before: seq<ContributionRow>, msg: Message, cs: seq<Contribution>, committed: bool)
    requires Lists(msg, cs)
    ensures Missing(RowsAfter(before, msg, cs, committed && cs != []), msg.bestNonce)
            <==> !MayLocate(before, msg, committed)
  {
    var inserted := committed && cs != [];
    var rows := RowsAfter(before, msg, cs, inserted);
    ListCarriesIff(msg, cs);
    if inserted {
      forall i | 0 <= i < |cs| ensures rows[|before| + i].nonce == StoredNonce(cs[i].nonce) {
      }
      assert forall i :: 0 <= i < |before| ==> rows[i] == before[i];
      if !Missing(rows, msg.bestNonce) {
        var i :| 0 <= i < |rows| && rows[i].nonce == StoredNonce(msg.bestNonce);
        if i >= |before| {
          assert StoredNonce(cs[i - |before|].nonce) == StoredNonce(msg.bestNonce);
        }
      }
    }
  }

  /** Where the processor stands with the message it took from the queue. */
  ghost predicate Handling(before: seq<ContributionRow>, msg: Message, committed: bool, s: State) {
    match s.stage
    case Halted(_) => true
    case Earning(m, cs) => m == msg && Lists(msg, cs) && s.db.contributions == before && !committed
    case Crediting(m, cs) => m == msg && Lists(msg, cs) && s.db.contributions == before && !committed
    case Recording(m, cs) => m == msg && Lists(msg, cs) && s.db.contributions == before && !committed
    case Totalling(m, cs, _) =>
      m == msg && Lists(msg, cs) && s.db.contributions == RowsAfter(before, msg, cs, committed && cs != [])
    case Locating(m, cs, _) =>
      m == msg && Lists(msg, cs) && s.db.contributions == RowsAfter(before, msg, cs, committed && cs != [])
    case Attributing(_, _, _, _) => MayLocate(before, msg, committed)
    case Waiting => MayLocate(before, msg, committed)
  }

  ghost predicate NoReceive(es: seq<Event>) {
    forall i :: 0 <= i < |es| ==> !es[i].Receive?
  }

  /** The contributions batch of the message was committed along the run. */
  ghost predicate Committed(es: seq<Event>) {
    InsertContributions(false) in es
  }

  lemma LocateKeepsHandling(poolId: int, before: seq<ContributionRow>, msg: Message, committed: bool, s: State,
                            e: Event)
    requires Enabled(s, e) && e.Locate? && Handling(before, msg, committed, s)
    ensures Handling(before, msg, committed, Apply(poolId, s, e))
  {
    if e.found.Some? {
      var i :| LocatesAt(s.db.contributions, msg.bestNonce, e.found.value, i);
      RowsCarryIff(before, msg, s.stage.cs, committed);
    }
  }

  lemma StepKeepsHandling(poolId: int, before: seq<ContributionRow>, msg: Message, committed: bool, s: State, e: Event)
    requires Enabled(s, e) && !e.Receive? && Handling(before, msg, committed, s)
    ensures Handling(before, msg, committed || e == InsertContributions(false), Apply(poolId, s, e))
  {
    if e.Locate? {
      LocateKeepsHandling(poolId, before, msg, committed, s, e);
    }
  }

  lemma {:induction false} RunKeepsHandling(poolId: int, s: State, order: seq<Pubkey>, es: seq<Event>)
    requires Enabled(s, Receive(order)) && Legal(poolId, Apply(poolId, s, Receive(order)), es) && NoReceive(es)
    ensures Handling(s.db.contributions, s.queue[0], Committed(es), Exec(poolId, Apply(poolId, s, Receive(order)), es))
    decreases |es|
  {
    if es == [] {
      assert Lists(s.queue[0], Listing(order, s.queue[0].contributions));
    } else {
      var rest, e := es[..|es| - 1], es[|es| - 1];
      assert e in es && NoReceive(rest);
      RunKeepsHandling(poolId, s, order, rest);
      assert Committed(es) <==> Committed(rest) || e == InsertContributions(false) by {
        assert es == rest + [e];
      }
      StepKeepsHandling(poolId, s.db.contributions, s.queue[0], Committed(rest),
                        Exec(poolId, Apply(poolId, s, Receive(order)), rest), e);
    }
  }

  lemma {:induction false} LastWith(rows: seq<ContributionRow>, nonce: nat, n: nat) returns (i: nat)
    requires n <= |rows| && !Missing(rows[..n], nonce)
    requires forall j :: n <= j < |rows| ==> rows[j].nonce != StoredNonce(nonce)
    ensures i < |rows| && rows[i].nonce == StoredNonce(nonce)
    ensures forall j :: i < j < |rows| ==> rows[j].nonce != StoredNonce(nonce)
  {
    if rows[n - 1].nonce == StoredNonce(nonce) {
      i := n - 1;
    } else {
      var k :| 0 <= k < n && rows[..n][k].nonce == StoredNonce(nonce);
      assert rows[..n - 1][k] == rows[k];
      i := LastWith(rows, nonce, n - 1);
    }
  }

  /** A query for a nonce that some row carries has an answer. */
  lemma LookupAnswers(rows: seq<ContributionRow>, nonce: nat)
    requires IdsGrow(rows) && !Missing(rows, nonce)
    ensures exists id :: Locates(rows, nonce, Some(id))
  {
    assert rows[..|rows|] == rows;
    var i := LastWith(rows, nonce, |rows|);
    assert LocatesAt(rows, nonce, rows[i].id, i);
    assert Locates(rows, nonce, Some(rows[i].id));
  }

  /** A lookup without fault that leaves its stage. */
  ghost predicate Passes(poolId: int, s: State, found: Option<int>) {
    Enabled(s, Locate(found, false)) && !Apply(poolId, s, Locate(found, false)).stage.Locating?
  }

  /** From the state in which a message is taken, on every run: the processor is past the lookup of
      its best nonce only if the contributions batch was committed and carries that nonce, or an
      earlier row does; and at the lookup, it can go on exactly under that condition. */
  lemma PastLookupIff(poolId: int, s: State, order: seq<Pubkey>, es: seq<Event>)
    requires Enabled(s, Receive(order)) && Legal(poolId, Apply(poolId, s, Receive(order)), es) && NoReceive(es)
    requires IdsGrow(s.db.contributions)
    ensures var t := Exec(poolId, Apply(poolId, s, Receive(order)), es);
            var may := MayLocate(s.db.contributions, s.queue[0], Committed(es));
            && (t.stage.Attributing? || t.stage.Waiting? ==> may)
            && (t.stage.Locating? ==> (may <==> exists found :: Passes(poolId, t, found)))
  {
    RunKeepsHandling(poolId, s, order, es);
    var t := Exec(poolId, Apply(poolId, s, Receive(order)), es);
    var before, msg, committed := s.db.contributions, s.queue[0], Committed(es);
    if t.stage.Locating? {
      RowsCarryIff(before, msg, t.stage.cs, committed);
      ContributionIdsGrow(before, ContributionsBatch(t.stage.cs, msg.challengeId));
      if MayLocate(before, msg, committed) {
        LookupAnswers(t.db.contributions, msg.bestNonce);
        var id :| Locates(t.db.contributions, msg.bestNonce, Some(id));
        assert Passes(poolId, t, Some(id));
      }
      if found :| Passes(poolId, t, found) {
        assert found.Some?;
        var i :| LocatesAt(t.db.contributions, msg.bestNonce, found.value, i);
      }
    }
  }

  // ----- A queue that is held up for good

  ghost predicate Stuck(s: State, msg: Message) {
    s.stage.Locating? && s.stage.msg == msg && Missing(s.db.contributions, msg.bestNonce)
  }

  lemma StuckStays(poolId: int, s: State, e: Event)
    requires s.stage.Locating? && Stuck(s, s.stage.msg) && Enabled(s, e)
    ensures Stuck(Apply(poolId, s, e), s.stage.msg) && s.queue <= Apply(poolId, s, e).queue
    ensures Apply(poolId, s, e).db.poolTotal == s.db.poolTotal
  {
  }

  /** Once stuck, whatever happens next, no later message is taken from the queue. */
  lemma {:induction false} MissingNonceBlocksTheQueue(poolId: int, s: State, es: seq<Event>)
    requires s.stage.Locating? && Stuck(s, s.stage.msg) && Legal(poolId, s, es)
    ensures Stuck(Exec(poolId, s, es), s.stage.msg)
    ensures s.queue <= Exec(poolId, s, es).queue
    ensures Exec(poolId, s, es).db.poolTotal == s.db.poolTotal
    decreases |es|
  {
    if es != [] {
      MissingNonceBlocksTheQueue(poolId, s, es[..|es| - 1]);
      StuckStays(poolId, Exec(poolId, s, es[..|es| - 1]), es[|es| - 1]);
    }
  }

  ghost function TakeAndSplit(msg: Message, order: seq<Pubkey>): seq<Event> {
    [] + [Enqueue(msg)] + [Receive(order)] + [InsertEarnings(false)] + [UpdateBalances(false)]
  }

  /** A message received and written without any fault, up to its lookup. */
  ghost function FaultFree(msg: Message, order: seq<Pubkey>): seq<Event> {
    TakeAndSplit(msg, order) + [InsertContributions(false)] + [UpdateTotal(false)]
  }

  lemma ReachRecording(poolId: int, db: Db, msg: Message, order: seq<Pubkey>)
    requires Enumerates(order, msg.contributions) && CanSplit(msg, Listing(order, msg.contributions))
    ensures var s := Initial(db);
            && Legal(poolId, s, TakeAndSplit(msg, order))
            && var t := Exec(poolId, s, TakeAndSplit(msg, order));
               t.stage == Recording(msg, Listing(order, msg.contributions)) && t.db.contributions == db.contributions
  {
    var s, cs := Initial(db), Listing(order, msg.contributions);
    var e1 := [] + [Enqueue(msg)];
    ExecSnoc(poolId, s, [], Enqueue(msg));
    assert Exec(poolId, s, e1).queue == [msg] && Exec(poolId, s, e1).stage.Waiting?;
    var e2 := e1 + [Receive(order)];
    ExecSnoc(poolId, s, e1, Receive(order));
    assert Exec(poolId, s, e2).stage == Earning(msg, cs);
    var e3 := e2 + [InsertEarnings(false)];
    ExecSnoc(poolId, s, e2, InsertEarnings(false));
    assert Exec(poolId, s, e3).stage == Crediting(msg, cs);
    ExecSnoc(poolId, s, e3, UpdateBalances(false));
  }

  /** With no fault at all, a message is stuck exactly when neither it nor an earlier row carries its
      best nonce. */
  lemma FaultFreeIsStuckIff(poolId: int, db: Db, msg: Message, order: seq<Pubkey>)
    requires Enumerates(order, msg.contributions) && CanSplit(msg, Listing(order, msg.contributions))
    ensures Legal(poolId, Initial(db), FaultFree(msg, order))
    ensures Stuck(Exec(poolId, Initial(db), FaultFree(msg, order)), msg) <==> !MayLocate(db.contributions, msg, true)
  {
    var s, cs := Initial(db), Listing(order, msg.contributions);
    ReachRecording(poolId, db, msg, order);
    var e4 := TakeAndSplit(msg, order);
    var e5 := e4 + [InsertContributions(false)];
    ExecSnoc(poolId, s, e4, InsertContributions(false));
    var t := Exec(poolId, s, e5);
    assert t.stage.Totalling? && t.stage.msg == msg;
    assert t.db.contributions == RowsAfter(db.contributions, msg, cs, cs != []);
    ExecSnoc(poolId, s, e5, UpdateTotal(false));
    assert Lists(msg, cs);
    RowsCarryIff(db.contributions, msg, cs, true);
  }

  /** The smallest such message: one contribution, whose nonce is not the best nonce. */
  lemma OtherNonceIsStuck(poolId: int, db: Db, msg: Message, p: Pubkey, c: Contribution)
    requires db.contributions == [] && msg.contributions == map[p := c]
    requires c.nonce < U64 && msg.bestNonce < U64 && c.nonce != msg.bestNonce
    requires IsI64(msg.rewards) && msg.totalHashpower > 0
    ensures Legal(poolId, Initial(db), FaultFree(msg, [p]))
    ensures Stuck(Exec(poolId, Initial(db), FaultFree(msg, [p])), msg)
  {
    FaultFreeIsStuckIff(poolId, db, msg, [p]);
    StoredNonceInjective(c.nonce, msg.bestNonce);
  }
}
