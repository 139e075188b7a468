/** Mission dispatch: the nonce allocator, the ready set and the late inserts into the range map,
    interleaved with nonce resets. */
module Dispatch {
  import opened Prelude

  const MISSION_WIDTH: nat := 4_000_000

  type Addr = nat

  /** A nonce range handed out for a ready client; `generation` counts the resets before it. */
  datatype Mission = Mission(generation: nat, addr: Addr, range: Range)

  /** A mission that was sent, to the address it was allocated for and the pubkey of its socket. */
  datatype Assignment = Assignment(pubkey: Pubkey, addr: Addr, mission: nat)

  /** The dispatcher's loop: between rounds; holding a snapshot of the ready set, about to read the
      pause flag and then, unless it is set, the cutoff and the best solution; or working through
      the snapshot: the head of `clients` is next to get a range, a socket lookup, a removal. */
  datatype Loop =
    | Idle
    | Deciding(clients: seq<Addr>)
    | Timing(clients: seq<Addr>)
    | Allocating(clients: seq<Addr>)
    | LookingUp(clients: seq<Addr>)
    | Removing(clients: seq<Addr>)

  /** `missions`, `assignments`, `sources`, `received` and `generation` are history. `sources` tells
      for each entry of the range map the assignment that wrote it, `pending` holds the indices of
      the assignments whose spawned task has not yet written it, and `arriving` the ready messages
      whose spawned task has not yet entered the ready set. */
  datatype State = State(
    nonce: nat,
    ranges: map<Pubkey, Range>,
    sources: map<Pubkey, nat>,
    ready: set<Addr>,
    loop: Loop,
    pending: set<nat>,
    arriving: multiset<Addr>,
    generation: nat,
    missions: seq<Mission>,
    assignments: seq<Assignment>,
    received: multiset<Addr>)

  const INITIAL: State := State(0, map[], map[], {}, Idle, {}, multiset{}, 0, [], [], multiset{})

  datatype Event =
    | ReadyReceived(addr: Addr)
    | ReadyEntered(addr: Addr)
    | Snapshot(clients: seq<Addr>)
    | ReadFlag(paused: bool)
    | Decide(cutoff: int, solved: bool)
    | Allocate
    | LookUp(addr: Addr, pubkey: Option<Pubkey>)
    | Remove
    | RangeInserted(assignment: nat)
    | NonceReset

  ghost predicate Enabled(s: State, e: Event) {
    match e
    case ReadyReceived(_) => true
    case ReadyEntered(a) => a in s.arriving
    case Snapshot(clients) =>
      && s.loop.Idle?
      && (forall a :: a in clients <==> a in s.ready)
      && (forall i, j :: 0 <= i < j < |clients| ==> clients[i] != clients[j])
    case ReadFlag(_) => s.loop.Deciding?
    case Decide(_, _) => s.loop.Timing?
    case Allocate => s.loop.Allocating? && s.loop.clients != []
    case LookUp(a, _) => s.loop.LookingUp? && s.loop.clients != [] && s.loop.clients[0] == a && s.missions != []
    case Remove => s.loop.Removing? && s.loop.clients != []
    case RangeInserted(k) => k in s.pending && k < |s.assignments| && s.assignments[k].mission < |s.missions|
    case NonceReset => true
  }

  /** Working through the clients; an exhausted list ends the round. */
  function Continue(clients: seq<Addr>): Loop {
    if clients == [] then Idle else Allocating(clients)
  }

  function Apply(s: State, e: Event): State
    requires Enabled(s, e)
  {
    match e
    case ReadyReceived(a) =>
      s.(received := s.received + multiset{a}, arriving := s.arriving + multiset{a})
    case ReadyEntered(a) => s.(arriving := s.arriving - multiset{a}, ready := s.ready + {a})
    case Snapshot(clients) => s.(loop := if clients == [] then Idle else Deciding(clients))
    case ReadFlag(paused) => s.(loop := if paused then Idle else Timing(s.loop.clients))
    case Decide(cutoff, solved) => s.(loop := if cutoff <= 0 && solved then Idle else Continue(s.loop.clients))
    case Allocate =>
      var end := WrapU64(s.nonce + MISSION_WIDTH);
      s.(nonce := end,
         missions := s.missions + [Mission(s.generation, s.loop.clients[0], Range(s.nonce, end))],
         loop := LookingUp(s.loop.clients))
    case LookUp(a, pubkey) =>
      if pubkey.None? then s.(loop := Removing(s.loop.clients))
      else s.(loop := Removing(s.loop.clients),
              assignments := s.assignments + [Assignment(pubkey.value, a, |s.missions| - 1)],
              pending := s.pending + {|s.assignments|})
    case Remove => s.(ready := s.ready - {s.loop.clients[0]}, loop := Continue(s.loop.clients[1..]))
    case RangeInserted(k) =>
      var a := s.assignments[k];
      s.(pending := s.pending - {k}, sources := s.sources[a.pubkey := k],
         ranges := s.ranges[a.pubkey := s.missions[a.mission].range])
    case NonceReset => s.(nonce := 0, generation := s.generation + 1)
  }

  // ----- Runs

  ghost function Exec(s: State, es: seq<Event>): State
    requires Legal(s, es)
    decreases |es|, 1
  {
    if es == [] then s else Apply(Exec(s, es[..|es| - 1]), es[|es| - 1])
  }

  ghost predicate Legal(s: State, es: seq<Event>)
    decreases |es|, 0
  {
    es == [] || (Legal(s, es[..|es| - 1]) && Enabled(Exec(s, es[..|es| - 1]), es[|es| - 1]))
  }

  lemma ExecSnoc(s: State, es: seq<Event>, e: Event)
    requires Legal(s, es) && Enabled(Exec(s, es), e)
    ensures Legal(s, es + [e]) && Exec(s, es + [e]) == Apply(Exec(s, es), e)
  {
    assert (es + [e])[..|es|] == es;
  }

  /** No allocation wraps the counter: 2^64 nonces are not used up within one generation. */
  ghost predicate NoWrap(s: State, e: Event) {
    e.Allocate? ==> s.nonce + MISSION_WIDTH < U64
  }

  ghost predicate NoWrapRun(s: State, es: seq<Event>)
    requires Legal(s, es)
    decreases |es|
  {
    es == [] || (NoWrapRun(s, es[..|es| - 1]) && NoWrap(Exec(s, es[..|es| - 1]), es[|es| - 1]))
  }

  // ----- The allocator

  /** Generations never fall along the missions, and none lies in the future. */
  ghost predicate Ordered(s: State) {
    && (forall i, j :: 0 <= i <= j < |s.missions| ==> s.missions[i].generation <= s.missions[j].generation)
    && (forall i :: 0 <= i < |s.missions| ==> s.missions[i].generation <= s.generation)
  }

  /** Where a range of the generation starts when the first `n` missions precede it. */
  ghost function StartAfter(missions: seq<Mission>, n: nat, generation: nat): nat
    requires n <= |missions|
  {
    if n > 0 && missions[n - 1].generation == generation then missions[n - 1].range.end else 0
  }

  ghost predicate ChainedAt(missions: seq<Mission>, i: nat)
    requires i < |missions|
  {
    && missions[i].range.end == missions[i].range.start + MISSION_WIDTH
    && missions[i].range.start == StartAfter(missions, i, missions[i].generation)
  }

  /** Each range has the mission width and starts where its predecessor of the same generation
      ended, or at 0; the counter stands at the end of the current generation's last range. */
  ghost predicate Chained(s: State) {
    && (forall i :: 0 <= i < |s.missions| ==> ChainedAt(s.missions, i))
    && s.nonce == StartAfter(s.missions, |s.missions|, s.generation)
  }

  lemma AllocateKeepsChained(s: State, m: Mission)
    requires Chained(s) && m == Mission(s.generation, m.addr, Range(s.nonce, s.nonce + MISSION_WIDTH))
    ensures Chained(s.(missions := s.missions + [m], nonce := m.range.end))
  {
    var missions := s.missions + [m];
    forall i | 0 <= i < |missions| ensures ChainedAt(missions, i) {
      if i < |s.missions| {
        assert ChainedAt(s.missions, i) && missions[i] == s.missions[i];
      }
    }
  }

  lemma StepKeepsAllocator(s: State, e: Event)
    requires Enabled(s, e) && NoWrap(s, e) && Ordered(s) && Chained(s)
    ensures Ordered(Apply(s, e)) && Chained(Apply(s, e))
  {
    var s' := Apply(s, e);
    if e.Allocate? {
      var m := s'.missions[|s.missions|];
      AllocateKeepsChained(s, m);
      assert s'.missions == s.missions + [m] && s'.nonce == m.range.end;
    } else {
      assert s'.missions == s.missions;
    }
  }

  lemma {:induction false} RunKeepsAllocator(es: seq<Event>)
    requires Legal(INITIAL, es) && NoWrapRun(INITIAL, es)
    ensures Ordered(Exec(INITIAL, es)) && Chained(Exec(INITIAL, es))
    decreases |es|
  {
    if es != [] {
      RunKeepsAllocator(es[..|es| - 1]);
      StepKeepsAllocator(Exec(INITIAL, es[..|es| - 1]), es[|es| - 1]);
    }
  }

  /** Ranges of one generation follow one another. */
  lemma {:induction false} SameGenerationFollows(s: State, i: nat, j: nat)
    requires Ordered(s) && Chained(s) && i < j < |s.missions|
    requires s.missions[i].generation == s.missions[j].generation
    ensures s.missions[i].range.end <= s.missions[j].range.start
    decreases j - i
  {
    assert ChainedAt(s.missions, j) && ChainedAt(s.missions, j - 1);
    assert s.missions[j - 1].generation == s.missions[j].generation;
    if i + 1 < j {
      SameGenerationFollows(s, i, j - 1);
    }
  }

  ghost predicate CoveredBy(s: State, x: nat, i: int) {
    0 <= i < |s.missions| && s.missions[i].generation == s.generation && s.missions[i].range.Contains(x)
  }

  ghost predicate Covered(s: State, x: nat) {
    exists i :: CoveredBy(s, x, i)
  }

  /** Ranges of one generation end at or below the counter of that generation. */
  lemma EndsBelowNonce(s: State, i: nat)
    requires Ordered(s) && Chained(s) && i < |s.missions| && s.missions[i].generation == s.generation
    ensures s.missions[i].range.end <= s.nonce
  {
    var last := |s.missions| - 1;
    assert s.missions[i].generation <= s.missions[last].generation <= s.generation;
    assert s.nonce == s.missions[last].range.end;
    assert ChainedAt(s.missions, last);
    if i < last {
      SameGenerationFollows(s, i, last);
    }
  }

  /** Walking back from mission `j`, some mission of its generation covers any lower nonce. */
  lemma {:induction false} CoveredBelow(s: State, x: nat, j: nat)
    requires Ordered(s) && Chained(s) && j < |s.missions| && s.missions[j].generation == s.generation
    requires x < s.missions[j].range.end
    ensures Covered(s, x)
    decreases j
  {
    if x >= s.missions[j].range.start {
      assert CoveredBy(s, x, j);
    } else {
      assert ChainedAt(s.missions, j);
      CoveredBelow(s, x, j - 1);
    }
  }

  lemma CoveredIffBelow(s: State, x: nat)
    requires Ordered(s) && Chained(s)
    ensures x < s.nonce <==> Covered(s, x)
  {
    if x < s.nonce {
      CoveredBelow(s, x, |s.missions| - 1);
    }
    if Covered(s, x) {
      var i :| CoveredBy(s, x, i);
      EndsBelowNonce(s, i);
    }
  }

  lemma CoveredOnce(s: State, x: nat, i: nat, j: nat)
    requires Ordered(s) && Chained(s) && CoveredBy(s, x, i) && CoveredBy(s, x, j)
    ensures i == j
  {
    if i < j {
      SameGenerationFollows(s, i, j);
    } else if j < i {
      SameGenerationFollows(s, j, i);
    }
  }

  /** For every interleaving of allocations, resets and late inserts, the ranges issued since the
      last reset tile [0, nonce): each nonce below the counter lies in exactly one of them, none
      above it does, and each is 4,000,000 wide. */
  lemma RangesTile(es: seq<Event>)
    requires Legal(INITIAL, es) && NoWrapRun(INITIAL, es)
    ensures var s := Exec(INITIAL, es);
            && (forall x: nat :: x < s.nonce <==> Covered(s, x))
            && (forall x: nat, i, j :: CoveredBy(s, x, i) && CoveredBy(s, x, j) ==> i == j)
            && (forall i :: 0 <= i < |s.missions| ==>
                  s.missions[i].range.end - s.missions[i].range.start == 4_000_000)
  {
    RunKeepsAllocator(es);
    var s := Exec(INITIAL, es);
    forall x: nat ensures x < s.nonce <==> Covered(s, x) {
      CoveredIffBelow(s, x);
    }
    forall x: nat, i, j | CoveredBy(s, x, i) && CoveredBy(s, x, j) ensures i == j {
      CoveredOnce(s, x, i, j);
    }
    forall i | 0 <= i < |s.missions| ensures s.missions[i].range.end - s.missions[i].range.start == MISSION_WIDTH {
      assert ChainedAt(s.missions, i);
    }
  }

  /** Two different missions of any one generation share no nonce. */
  lemma MissionsOfOneGenerationAreDisjoint(es: seq<Event>, i: nat, j: nat, x: nat, y: nat)
    requires Legal(INITIAL, es) && NoWrapRun(INITIAL, es)
    requires i < |Exec(INITIAL, es).missions| && j < |Exec(INITIAL, es).missions| && i != j
    requires Exec(INITIAL, es).missions[i].generation == Exec(INITIAL, es).missions[j].generation
    requires Exec(INITIAL, es).missions[i].range.Contains(x) && Exec(INITIAL, es).missions[j].range.Contains(y)
    ensures x != y
  {
    RunKeepsAllocator(es);
    var s := Exec(INITIAL, es);
    if i < j {
      SameGenerationFollows(s, i, j);
    } else {
      SameGenerationFollows(s, j, i);
    }
  }

  /** One allocation issues a range of the full width exactly when the counter does not wrap. */
  lemma AllocationIsFullIff(s: State)
    requires Enabled(s, Allocate) && s.nonce < U64
    ensures var m := Apply(s, Allocate).missions[|s.missions|];
            m.range.end - m.range.start == MISSION_WIDTH <==> NoWrap(s, Allocate)
  {
  }

  // ----- Provenance of the range map

  /** Assignment `k` issued the range `r` to `p`. */
  ghost predicate IssuedTo(s: State, p: Pubkey, r: Range, k: int) {
    && 0 <= k < |s.assignments| && s.assignments[k].pubkey == p
    && s.assignments[k].mission < |s.missions| && s.missions[s.assignments[k].mission].range == r
  }

  /** Every entry of the range map is the range of the assignment recorded as its source. */
  ghost predicate RangesIssued(s: State) {
    && (s.loop.LookingUp? ==> s.missions != [])
    && (forall k :: 0 <= k < |s.assignments| ==> s.assignments[k].mission < |s.missions|)
    && (forall k :: k in s.pending ==> k < |s.assignments|)
    && (forall p :: p in s.ranges ==> p in s.sources && IssuedTo(s, p, s.ranges[p], s.sources[p]))
  }

  /** What was issued stays issued: resets clear the counter, not the past. */
  lemma IssuedPersists(s: State, e: Event, p: Pubkey, r: Range, k: int)
    requires Enabled(s, e) && IssuedTo(s, p, r, k)
    ensures IssuedTo(Apply(s, e), p, r, k)
  {
  }

  lemma StepKeepsRangesIssued(s: State, e: Event)
    requires Enabled(s, e) && RangesIssued(s)
    ensures RangesIssued(Apply(s, e))
  {
    var s' := Apply(s, e);
    forall p | p in s'.ranges ensures p in s'.sources && IssuedTo(s', p, s'.ranges[p], s'.sources[p]) {
      if p in s.ranges {
        IssuedPersists(s, e, p, s.ranges[p], s.sources[p]);
      }
    }
  }

  /** Under every interleaving a range in the map was issued to the pubkey it is filed under. */
  lemma {:induction false} RangeMapProvenance(es: seq<Event>)
    requires Legal(INITIAL, es)
    ensures RangesIssued(Exec(INITIAL, es))
    decreases |es|
  {
    if es != [] {
      RangeMapProvenance(es[..|es| - 1]);
      StepKeepsRangesIssued(Exec(INITIAL, es[..|es| - 1]), es[|es| - 1]);
    }
  }

  // ----- Mission accounting

  ghost function MissionsTo(missions: seq<Mission>, a: Addr): nat {
    if missions == [] then 0
    else MissionsTo(missions[..|missions| - 1], a) + if missions[|missions| - 1].addr == a then 1 else 0
  }

  /** The clients of the current snapshot whose range is still to be allocated. */
  function Unserved(loop: Loop): seq<Addr> {
    match loop
    case Idle => []
    case Deciding(cs) => cs
    case Timing(cs) => cs
    case Allocating(cs) => cs
    case LookingUp(cs) => if cs == [] then [] else cs[1..]
    case Removing(cs) => if cs == [] then [] else cs[1..]
  }

  /** The client whose mission is allocated but whose entry in the ready set still stands. */
  ghost predicate Served(loop: Loop, a: Addr) {
    (loop.LookingUp? || loop.Removing?) && loop.clients != [] && loop.clients[0] == a
  }

  function Token(b: bool): nat {
    if b then 1 else 0
  }

  ghost predicate Distinct(cs: seq<Addr>) {
    forall i, j :: 0 <= i < j < |cs| ==> cs[i] != cs[j]
  }

  /** Every mission spent a ready message, and a client still to be served holds an unspent one. */
  ghost predicate Balanced(s: State) {
    && (forall a ::
          MissionsTo(s.missions, a) + s.arriving[a] + Token(a in s.ready && !Served(s.loop, a)) <= s.received[a])
    && (forall a :: a in Unserved(s.loop) ==> a in s.ready && !Served(s.loop, a))
    && (!s.loop.Idle? ==> s.loop.clients != [] && Distinct(s.loop.clients))
  }

  lemma AllocateKeepsBalance(s: State)
    requires Enabled(s, Allocate) && Balanced(s)
    ensures Balanced(Apply(s, Allocate))
  {
    var s' := Apply(s, Allocate);
    var head := s.loop.clients[0];
    assert head in Unserved(s.loop);
    assert s'.missions[..|s.missions|] == s.missions;
    assert forall a :: MissionsTo(s'.missions, a) == MissionsTo(s.missions, a) + Token(a == head);
    assert forall a :: Served(s'.loop, a) <==> a == head;
  }

  lemma RemoveKeepsBalance(s: State)
    requires Enabled(s, Remove) && Balanced(s)
    ensures Balanced(Apply(s, Remove))
  {
    var s' := Apply(s, Remove);
    var head := s.loop.clients[0];
    assert Served(s.loop, head);
    forall a | a in Unserved(s'.loop) ensures a in s'.ready && !Served(s'.loop, a) {
      assert a in s.loop.clients[1..];
      assert a in Unserved(s.loop);
    }
  }

  lemma ArrivalKeepsBalance(s: State, e: Event)
    requires (e.ReadyReceived? || e.ReadyEntered?) && Enabled(s, e) && Balanced(s)
    ensures Balanced(Apply(s, e))
  {
    var s' := Apply(s, e);
    assert s'.missions == s.missions && s'.loop == s.loop;
    forall a
      ensures MissionsTo(s'.missions, a) + s'.arriving[a] + Token(a in s'.ready && !Served(s'.loop, a))
              <= s'.received[a]
    {
      assert MissionsTo(s.missions, a) + s.arriving[a] + Token(a in s.ready && !Served(s.loop, a)) <= s.received[a];
    }
  }

  /** Moves of the loop that serve nobody new and leave nobody behind unready. */
  lemma LoopKeepsBalance(s: State, loop: Loop, s': State)
    requires Balanced(s) && s'.loop == loop
    requires s'.missions == s.missions && s'.received == s.received
    requires s'.ready == s.ready && s'.arriving == s.arriving
    requires forall a :: Served(loop, a) <==> Served(s.loop, a)
    requires forall a :: a in Unserved(loop) ==> a in s.ready && !Served(loop, a)
    requires !loop.Idle? ==> loop.clients != [] && Distinct(loop.clients)
    ensures Balanced(s')
  {
  }

  lemma StepKeepsBalance(s: State, e: Event)
    requires Enabled(s, e) && Balanced(s)
    ensures Balanced(Apply(s, e))
  {
    if e.Allocate? {
      AllocateKeepsBalance(s);
    } else if e.Remove? {
      RemoveKeepsBalance(s);
    } else if e.Snapshot? || e.ReadFlag? || e.Decide? || e.LookUp? {
      LoopKeepsBalance(s, Apply(s, e).loop, Apply(s, e));
    } else if e.ReadyReceived? || e.ReadyEntered? {
      ArrivalKeepsBalance(s, e);
    }
  }

  /** One uninterrupted turn of the loop: allocate, look up, remove. */
  function Turn(s: State, socket: Option<Pubkey>): State
    requires Enabled(s, Allocate)
  {
    Apply(Apply(Apply(s, Allocate), LookUp(s.loop.clients[0], socket)), Remove)
  }

  lemma TurnRuns(s: State, es: seq<Event>, client: Addr, socket: Option<Pubkey>)
    requires Legal(s, es) && Enabled(Exec(s, es), Allocate) && Exec(s, es).loop.clients[0] == client
    ensures var fs := es + [Allocate] + [LookUp(client, socket)] + [Remove];
            Legal(s, fs) && Exec(s, fs) == Turn(Exec(s, es), socket)
  {
    var t := Exec(s, es);
    var e1 := es + [Allocate];
    ExecSnoc(s, es, Allocate);
    var t1 := Apply(t, Allocate);
    assert Exec(s, e1) == t1 && t1.loop == LookingUp(t.loop.clients) && t1.missions != [];
    var e2 := e1 + [LookUp(client, socket)];
    ExecSnoc(s, e1, LookUp(client, socket));
    var t2 := Apply(t1, LookUp(client, socket));
    assert Exec(s, e2) == t2 && t2.loop == Removing(t.loop.clients);
    ExecSnoc(s, e2, Remove);
  }

  lemma {:induction false} SegmentKeepsBalance(s: State, es: seq<Event>)
    requires Legal(s, es) && Balanced(s)
    ensures Balanced(Exec(s, es))
    decreases |es|
  {
    if es != [] {
      SegmentKeepsBalance(s, es[..|es| - 1]);
      StepKeepsBalance(Exec(s, es[..|es| - 1]), es[|es| - 1]);
    }
  }

  lemma RunKeepsBalance(es: seq<Event>)
    requires Legal(INITIAL, es)
    ensures Balanced(Exec(INITIAL, es))
  {
    SegmentKeepsBalance(INITIAL, es);
  }

  /** Missions dispatched to an address never exceed the ready messages received from it. */
  lemma NoMissionWithoutReady(es: seq<Event>, a: Addr)
    requires Legal(INITIAL, es)
    ensures MissionsTo(Exec(INITIAL, es).missions, a) <= Exec(INITIAL, es).received[a]
  {
    RunKeepsBalance(es);
  }
}
