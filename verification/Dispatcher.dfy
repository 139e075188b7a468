/** The nonce counter, the ready set and the range map, updated in place. */
module Dispatcher {
  import opened Codec
  import opened Prelude
  import opened Dispatch

  /** What a spawned task carries: where to send the mission, and the range to file afterwards. */
  datatype Spawned = Spawned(pubkey: Pubkey, message: StartMining, range: Range)

  /** The tasks' cargo is what the model's assignments say. */
  ghost predicate CargoFits(s: State, spawned: map<nat, Spawned>) {
    && spawned.Keys == s.pending
    && forall k :: k in spawned ==>
         && IssuedTo(s, spawned[k].pubkey, spawned[k].range, k)
         && spawned[k].message.nonceRangeStart == spawned[k].range.start
         && spawned[k].message.nonceRangeEnd == spawned[k].range.end
  }

  /** The assignments of an uninterrupted loop whose first mission has the given index. */
  ghost function AssignedBy(clients: seq<Addr>, sockets: seq<Option<Pubkey>>, first: nat): seq<Assignment>
    requires |clients| == |sockets|
  {
    if clients == [] then []
    else
      var n := |clients| - 1;
      AssignedBy(clients[..n], sockets[..n], first)
      + if sockets[n].Some? then [Assignment(sockets[n].value, clients[n], first + n)] else []
  }

  lemma AssignedSnoc(clients: seq<Addr>, sockets: seq<Option<Pubkey>>, first: nat, k: nat)
    requires |clients| == |sockets| && k < |clients|
    ensures AssignedBy(clients[..k + 1], sockets[..k + 1], first)
            == AssignedBy(clients[..k], sockets[..k], first)
               + if sockets[k].Some? then [Assignment(sockets[k].value, clients[k], first + k)] else []
  {
    assert clients[..k + 1][..k] == clients[..k] && sockets[..k + 1][..k] == sockets[..k];
  }

  /** One mission for each client, with the ranges issued. */
  ghost function MissionsFor(clients: seq<Addr>, issued: seq<Range>, generation: nat): seq<Mission>
    requires |clients| == |issued|
  {
    seq(|clients|, i requires 0 <= i < |clients| => Mission(generation, clients[i], issued[i]))
  }

  lemma MissionsSnoc(clients: seq<Addr>, issued: seq<Range>, range: Range, generation: nat)
    requires |issued| < |clients|
    ensures var k := |issued|;
            MissionsFor(clients[..k + 1], issued + [range], generation)
            == MissionsFor(clients[..k], issued, generation) + [Mission(generation, clients[k], range)]
  {
  }

  lemma CargoStays(s: State, e: Event, spawned: map<nat, Spawned>)
    requires Enabled(s, e) && CargoFits(s, spawned) && !e.LookUp? && !e.RangeInserted?
    ensures CargoFits(Apply(s, e), spawned)
  {
  }

  lemma CargoAdded(s: State, e: Event, spawned: map<nat, Spawned>, cargo: Spawned)
    requires Enabled(s, e) && CargoFits(s, spawned) && e.LookUp? && e.pubkey == Some(cargo.pubkey)
    requires cargo.range == s.missions[|s.missions| - 1].range
    requires cargo.message.nonceRangeStart == cargo.range.start && cargo.message.nonceRangeEnd == cargo.range.end
    ensures CargoFits(Apply(s, e), spawned[|s.assignments| := cargo])
  {
    var s', spawned' := Apply(s, e), spawned[|s.assignments| := cargo];
    forall k | k in spawned' ensures IssuedTo(s', spawned'[k].pubkey, spawned'[k].range, k) {
      if k != |s.assignments| {
        assert IssuedTo(s, spawned[k].pubkey, spawned[k].range, k);
      }
    }
  }

  lemma CargoTaken(s: State, k: nat, spawned: map<nat, Spawned>)
    requires CargoFits(s, spawned) && k in spawned
    ensures Enabled(s, RangeInserted(k)) && CargoFits(Apply(s, RangeInserted(k)), spawned - {k})
  {
    assert IssuedTo(s, spawned[k].pubkey, spawned[k].range, k);
  }

  class MissionDispatcher {
    var nonce: nat
    var ranges: map<Pubkey, Range>
    var ready: set<Addr>
    var spawned: map<nat, Spawned>
    var tasks: nat
    ghost var model: State

    ghost predicate Valid()
      reads this
    {
      && nonce == model.nonce && nonce < U64
      && ranges == model.ranges
      && ready == model.ready
      && tasks == |model.assignments| && CargoFits(model, spawned)
      && RangesIssued(model)
    }

    /** The events lead from `s0` to the model. */
    ghost predicate Ran(s0: State, es: seq<Event>)
      reads this
    {
      Legal(s0, es) && model == Exec(s0, es)
    }

    constructor ()
      ensures Valid() && model == INITIAL
    {
      nonce, ranges, ready, spawned, tasks := 0, map[], {}, map[], 0;
      model := INITIAL;
    }

    /** Takes a step of the model that leaves the pending assignments alone. */
    ghost method Advance(e: Event)
      requires Enabled(model, e) && RangesIssued(model) && CargoFits(model, spawned)
      requires !e.LookUp? && !e.RangeInserted?
      modifies this`model
      ensures model == Apply(old(model), e) && RangesIssued(model) && CargoFits(model, spawned)
    {
      StepKeepsRangesIssued(model, e);
      CargoStays(model, e, spawned);
      model := Apply(model, e);
    }

    /** The task spawned for a ready message enters the ready set. */
    method EnterReady(addr: Addr)
      requires Valid() && Enabled(model, ReadyEntered(addr))
      modifies this`ready, this`model
      ensures Valid() && model == Apply(old(model), ReadyEntered(addr)) && ready == old(ready) + {addr}
    {
      Advance(ReadyEntered(addr));
      ready := ready + {addr};
    }

    /** Copies the ready set under its lock. */
    method SnapshotReady() returns (clients: seq<Addr>)
      requires Valid() && model.loop.Idle?
      modifies this`model
      ensures Valid() && Enabled(old(model), Snapshot(clients))
      ensures model == Apply(old(model), Snapshot(clients))
    {
      clients := [];
      var left := ready;
      while left != {}
        invariant left <= ready
        invariant forall a :: a in clients <==> a in ready && a !in left
        invariant Distinct(clients)
        decreases |left|
      {
        var a :| a in left;
        clients := clients + [a];
        left := left - {a};
      }
      Advance(Snapshot(clients));
    }

    /** Reads the pause flag for a nonempty snapshot. */
    method MayDispatch(paused: bool) returns (go: bool)
      requires Valid() && model.loop.Deciding?
      modifies this`model
      ensures Valid() && model == Apply(old(model), ReadFlag(paused))
      ensures go <==> !paused
      ensures model.loop == if go then Timing(old(model).loop.clients) else Idle
    {
      go := !paused;
      Advance(ReadFlag(paused));
    }

    /** Reads the best solution once the cutoff has passed; `sentCutoff` goes out with the missions. */
    method ShouldMine(cutoff: int, solution: Option<Solution>) returns (shouldMine: bool, sentCutoff: int)
      requires Valid() && model.loop.Timing?
      modifies this`model
      ensures Valid() && model == Apply(old(model), Decide(cutoff, solution.Some?))
      ensures shouldMine <==> cutoff > 0 || solution.None?
      ensures model.loop == if shouldMine then Continue(old(model).loop.clients) else Idle
      ensures sentCutoff == if cutoff > 0 then cutoff else 0
    {
      shouldMine := true;
      if cutoff <= 0 {
        if solution.Some? {
          shouldMine := false;
        }
        sentCutoff := 0;
      } else {
        sentCutoff := cutoff;
      }
      Advance(Decide(cutoff, solution.Some?));
    }

    /** Takes the next range off the counter, under its lock. */
    method AllocateRange() returns (range: Range)
      requires Valid() && Enabled(model, Allocate)
      modifies this`nonce, this`model
      ensures Valid() && model == Apply(old(model), Allocate)
      ensures model.missions == old(model).missions
                                + [Mission(old(model).generation, old(model).loop.clients[0], range)]
      ensures NoWrap(old(model), Allocate) ==> range == Range(old(nonce), nonce) && nonce == old(nonce) + MISSION_WIDTH
    {
      var start := nonce;
      nonce := WrapU64(nonce + MISSION_WIDTH);
      var end := WrapU64(start + MISSION_WIDTH);
      range := Range(start, end);
      Advance(Allocate);
    }

    /** The lookup of the client's socket; if there is one, a task is spawned that will send the
        mission and file its range under the socket's pubkey. */
    method LookUpSocket(client: Addr, socket: Option<Pubkey>, challenge: Challenge, cutoff: int, range: Range)
      requires Valid() && Enabled(model, LookUp(client, socket))
      requires range == model.missions[|model.missions| - 1].range
      modifies this`model, this`spawned, this`tasks
      ensures Valid() && model == Apply(old(model), LookUp(client, socket))
      ensures spawned == if socket.Some?
                         then old(spawned)[old(tasks) :=
                           Spawned(socket.value, StartMining(challenge, cutoff, range.start, range.end), range)]
                         else old(spawned)
      ensures model.assignments == old(model).assignments
                                   + if socket.Some?
                                     then [Assignment(socket.value, client, |old(model).missions| - 1)] else []
    {
      StepKeepsRangesIssued(model, LookUp(client, socket));
      if socket.Some? {
        var message := StartMining(challenge, cutoff, range.start, range.end);
        var cargo := Spawned(socket.value, message, range);
        CargoAdded(model, LookUp(client, socket), spawned, cargo);
        spawned := spawned[tasks := cargo];
        tasks := tasks + 1;
      }
      model := Apply(model, LookUp(client, socket));
    }

    /** A spawned task, once its message is sent, writes the range map, possibly long after the range
        was taken. */
    method InsertRange(task: nat)
      requires Valid() && task in spawned
      modifies this`ranges, this`spawned, this`model
      ensures Enabled(old(model), RangeInserted(task))
      ensures Valid() && model == Apply(old(model), RangeInserted(task))
      ensures ranges == old(ranges)[old(spawned)[task].pubkey := old(spawned)[task].range]
      ensures spawned == old(spawned) - {task}
    {
      assert IssuedTo(model, spawned[task].pubkey, spawned[task].range, task);
      StepKeepsRangesIssued(model, RangeInserted(task));
      CargoTaken(model, task, spawned);
      ranges := ranges[spawned[task].pubkey := spawned[task].range];
      spawned := spawned - {task};
      model := Apply(model, RangeInserted(task));
    }

    method RemoveReady(client: Addr)
      requires Valid() && Enabled(model, Remove) && client == model.loop.clients[0]
      modifies this`ready, this`model
      ensures Valid() && model == Apply(old(model), Remove) && ready == old(ready) - {client}
    {
      ready := ready - {client};
      Advance(Remove);
    }

    /** The nonce reset shared by the three reset sites; the range map stays as it is. */
    method ResetNonce()
      requires Valid()
      modifies this`nonce, this`model
      ensures Valid() && model == Apply(old(model), NonceReset)
      ensures nonce == 0
    {
      nonce := 0;
      Advance(NonceReset);
    }

    /** One turn of the dispatch loop, with nothing interfering. */
    method DispatchOne(client: Addr, socket: Option<Pubkey>, challenge: Challenge, cutoff: int,
                       ghost s0: State, ghost es: seq<Event>)
      returns (range: Range, ghost fs: seq<Event>)
      requires Valid() && model.loop.Allocating? && model.loop.clients != [] && model.loop.clients[0] == client
      requires nonce + MISSION_WIDTH < U64 && Ran(s0, es)
      modifies this`nonce, this`ready, this`spawned, this`tasks, this`model
      ensures Valid() && model.loop == Continue(old(model).loop.clients[1..])
      ensures Ran(s0, fs) && fs == es + [Allocate] + [LookUp(client, socket)] + [Remove]
      ensures range == Range(old(nonce), old(nonce) + MISSION_WIDTH) && nonce == old(nonce) + MISSION_WIDTH
      ensures ready == old(ready) - {client}
      ensures model.missions == old(model).missions + [Mission(old(model).generation, client, range)]
      ensures model.generation == old(model).generation
      ensures model.assignments == old(model).assignments
                                   + if socket.Some?
                                     then [Assignment(socket.value, client, |old(model).missions|)] else []
      ensures spawned == if socket.Some?
                         then old(spawned)[old(tasks) :=
                           Spawned(socket.value, StartMining(challenge, cutoff, range.start, range.end), range)]
                         else old(spawned)
    {
      fs := es + [Allocate] + [LookUp(client, socket)] + [Remove];
      TurnRuns(s0, es, client, socket);
      range := AllocateRange();
      LookUpSocket(client, socket, challenge, cutoff, range);
      RemoveReady(client);
    }

    /** Works through the clients of a snapshot while nothing else interferes: each gets the next
        range, its socket is looked up, and it leaves the ready set. `sockets` is what the lookup
        answers for each client in turn. */
    method DispatchAll(clients: seq<Addr>, sockets: seq<Option<Pubkey>>, challenge: Challenge, cutoff: int)
      returns (issued: seq<Range>, ghost es: seq<Event>)
      requires Valid() && model.loop == Continue(clients) && |sockets| == |clients|
      requires Balanced(model)
      requires nonce + MISSION_WIDTH * |clients| < U64
      modifies this`nonce, this`ready, this`spawned, this`tasks, this`model
      ensures Valid() && model.loop == Idle && Balanced(model)
      ensures Ran(old(model), es)
      ensures |issued| == |clients| && nonce == old(nonce) + MISSION_WIDTH * |clients|
      ensures forall i :: 0 <= i < |issued| ==>
                issued[i] == Range(old(nonce) + MISSION_WIDTH * i, old(nonce) + MISSION_WIDTH * (i + 1))
      ensures forall a :: a in clients ==> a !in ready
      ensures forall k :: k in spawned && k !in old(spawned) ==>
                spawned[k].message.challenge == challenge && spawned[k].message.cutoff == cutoff
      ensures model.missions == old(model).missions + MissionsFor(clients, issued, old(model).generation)
      ensures model.assignments == old(model).assignments + AssignedBy(clients, sockets, |old(model).missions|)
    {
      issued, es := [], [];
      var k := 0;
      while k < |clients|
        invariant 0 <= k <= |clients| && |issued| == k
        invariant Valid() && model.loop == Continue(clients[k..])
        invariant nonce == old(nonce) + MISSION_WIDTH * k
        invariant Ran(old(model), es)
        invariant forall i :: 0 <= i < k ==>
                    issued[i] == Range(old(nonce) + MISSION_WIDTH * i, old(nonce) + MISSION_WIDTH * (i + 1))
        invariant forall i :: 0 <= i < k ==> clients[i] !in ready
        invariant forall k :: k in spawned && k !in old(spawned) ==>
                    spawned[k].message.challenge == challenge && spawned[k].message.cutoff == cutoff
        invariant model.generation == old(model).generation
        invariant model.missions == old(model).missions + MissionsFor(clients[..k], issued, model.generation)
        invariant model.assignments
                  == old(model).assignments + AssignedBy(clients[..k], sockets[..k], |old(model).missions|)
      {
        assert clients[k..][1..] == clients[k + 1..];
        AssignedSnoc(clients, sockets, |old(model).missions|, k);
        ghost var before := issued;
        var range;
        range, es := DispatchOne(clients[k], sockets[k], challenge, cutoff, old(model), es);
        issued := issued + [range];
        MissionsSnoc(clients, before, range, model.generation);
        k := k + 1;
      }
      assert clients[k..] == [] && clients[..k] == clients && sockets[..k] == sockets;
      SegmentKeepsBalance(old(model), es);
    }
  }
}
