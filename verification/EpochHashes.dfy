/** The shared record of an epoch, updated in place under its lock. */
module EpochHashes {
  import opened Prelude
  import opened Hashpower
  import opened Intake

  /** What a submission must pass before its miner's earlier submission is looked at. */
  predicate Admissible(o: Oracle, pubkey: Pubkey, addr: nat, found: Solution, ranges: map<Pubkey, Range>,
                       sockets: map<nat, int>, challenge: Challenge)
  {
    && pubkey in ranges && ranges[pubkey].Contains(found.nonce)
    && addr in sockets
    && o.valid(found, challenge) && o.difficulty(found) >= o.minDifficulty
  }

  /** The contribution says who is credited, for what, and with how much. */
  ghost predicate Credits(o: Oracle, c: Contribution, minerId: int, found: Solution) {
    && c.minerId == minerId && c.nonce == found.nonce && c.diff == o.difficulty(found) >= MIN_DIFF
    && c.hashpower == HashpowerOf(c.diff)
  }

  lemma TaskGone(s: State, t: nat, task: Task)
    requires t !in s.tasks
    ensures Ended(WithTask(s, t, task), t) == s
  {
    assert s.tasks[t := task] - {t} == s.tasks;
  }

  /** A new task up to its reading of the range map. */
  lemma ArriveAndRead(o: Oracle, s: State, t: nat, arrived: Task, range: Option<Range>, source: nat)
    requires o.minDifficulty >= MIN_DIFF && t !in s.tasks
    requires arrived == Task(arrived.addr, arrived.solution, arrived.pubkey, 0, AtRange)
    ensures var es := [Arrive(t, arrived.addr, arrived.solution, arrived.pubkey)] + [ReadRange(t, range, source)];
            && Legal(o, s, es)
            && Exec(o, s, es) == if range.Some? && range.value.Contains(arrived.solution.nonce)
                                 then WithTask(s, t, arrived.(source := source, stage := AtSocket(range.value)))
                                 else s
  {
    var e := Arrive(t, arrived.addr, arrived.solution, arrived.pubkey);
    assert [] + [e] == [e];
    ExecSnoc(o, s, [], e);
    assert Exec(o, s, [e]) == WithTask(s, t, arrived);
    ExecSnoc(o, s, [e], ReadRange(t, range, source));
    TaskGone(s, t, arrived);
  }

  class EpochStore {
    var solution: Option<Solution>
    var difficulty: nat
    var contributions: Contributions
    ghost var model: State

    ghost predicate Valid()
      reads this
    {
      model.epoch == Epoch(solution, difficulty, contributions)
    }

    constructor ()
      ensures Valid() && model == INITIAL
    {
      solution, difficulty, contributions := None, 0, map[];
      model := INITIAL;
    }

    /** The read-locked section: look up the miner's earlier submission and compare. */
    method Decide(ghost o: Oracle, ghost task: nat, pubkey: Pubkey, diff: nat) returns (insert: bool)
      requires Valid() && o.minDifficulty >= MIN_DIFF && Enabled(model, Check(task))
      requires pubkey == model.tasks[task].pubkey && diff == model.tasks[task].stage.contribution.diff
      modifies this`model
      ensures Valid() && model == Apply(o, old(model), Check(task))
      ensures insert <==> task in model.tasks
    {
      if pubkey in contributions {
        var earlier := contributions[pubkey];
        insert := diff > earlier.diff;
      } else {
        insert := true;
      }
      model := Apply(o, model, Check(task));
    }

    /** The write-locked section: it does not look at the earlier submission again. */
    method Write(ghost o: Oracle, ghost task: nat, pubkey: Pubkey, c: Contribution, found: Solution)
      requires Valid() && o.minDifficulty >= MIN_DIFF && Enabled(model, Commit(task))
      requires pubkey == model.tasks[task].pubkey && c == model.tasks[task].stage.contribution
      requires found == model.tasks[task].solution
      modifies this
      ensures Valid() && model == Apply(o, old(model), Commit(task))
      ensures pubkey in contributions && contributions[pubkey] == c && difficulty >= c.diff
    {
      contributions := contributions[pubkey := c];
      if c.diff > difficulty {
        difficulty := c.diff;
        solution := Some(found);
      }
      model := Apply(o, model, Commit(task));
    }

    /** The events lead from `s0` to the model. */
    ghost predicate Ran(o: Oracle, s0: State, es: seq<Event>)
      requires o.minDifficulty >= MIN_DIFF
      reads this
    {
      Legal(o, s0, es) && model == Exec(o, s0, es)
    }

    ghost method Advance(o: Oracle, e: Event, s0: State, es: seq<Event>) returns (fs: seq<Event>)
      requires o.minDifficulty >= MIN_DIFF && Enabled(model, e) && Ran(o, s0, es)
      modifies this`model
      ensures model == Apply(o, old(model), e) && Ran(o, s0, fs) && fs == es + [e]
    {
      ExecSnoc(o, s0, es, e);
      fs := es + [e];
      model := Apply(o, model, e);
    }

    /** The first section: the nonce must lie in the range filed under the submitting pubkey. */
    method CheckRange(o: Oracle, ghost task: nat, addr: nat, pubkey: Pubkey, found: Solution,
                      ranges: map<Pubkey, Range>, ghost source: nat)
      returns (inRange: bool, ghost es: seq<Event>)
      requires Valid() && o.minDifficulty >= MIN_DIFF && task !in model.tasks
      modifies this`model
      ensures Valid() && Ran(o, old(model), es)
      ensures es == [Arrive(task, addr, found, pubkey)]
                    + [ReadRange(task, if pubkey in ranges then Some(ranges[pubkey]) else None, source)]
      ensures inRange <==> pubkey in ranges && ranges[pubkey].start <= found.nonce < ranges[pubkey].end
      ensures model == if inRange
                       then WithTask(old(model), task, Task(addr, found, pubkey, source, AtSocket(ranges[pubkey])))
                       else old(model)
    {
      var range := None;
      if pubkey in ranges {
        range := Some(ranges[pubkey]);
      }
      inRange := range.Some? && range.value.Contains(found.nonce);
      es := [Arrive(task, addr, found, pubkey)] + [ReadRange(task, range, source)];
      ArriveAndRead(o, model, task, Task(addr, found, pubkey, 0, AtRange), range, source);
      model := Exec(o, model, es);
    }

    /** Validity, the pool's minimum and the hashpower of a solution against the current challenge. */
    method Credit(o: Oracle, minerId: int, found: Solution, challenge: Challenge)
      returns (c: Option<Contribution>)
      requires o.minDifficulty >= MIN_DIFF
      ensures c.Some? <==> o.valid(found, challenge) && o.difficulty(found) >= o.minDifficulty
      ensures c.Some? ==> c.value.minerId == minerId && Credits(o, c.value, minerId, found)
    {
      c := None;
      if o.valid(found, challenge) {
        var diff := o.difficulty(found);
        if diff >= o.minDifficulty {
          var hashpower := WrapU64(MIN_HASHPOWER * WrapU64(Pow2(diff - MIN_DIFF)));
          if hashpower > HASHPOWER_CAP {
            hashpower := HASHPOWER_CAP;
          }
          c := Some(Contribution(minerId, diff, found.nonce, hashpower));
        }
      }
    }

    /** The second and third sections: the submitter's socket, and the current challenge. */
    method CheckSolution(o: Oracle, ghost task: nat, addr: nat, found: Solution, sockets: map<nat, int>,
                         challenge: Challenge, ghost read: Task, ghost s1: State, ghost s0: State, ghost es: seq<Event>)
      returns (c: Option<Contribution>, ghost fs: seq<Event>)
      requires Valid() && o.minDifficulty >= MIN_DIFF && Ran(o, s0, es)
      requires task !in s1.tasks && model == WithTask(s1, task, read)
      requires read.stage.AtSocket? && read.solution == found
      modifies this`model
      ensures model.epoch == old(model).epoch && Ran(o, s0, fs)
      ensures fs == if addr in sockets then es + [ReadSocket(task, Some(sockets[addr]))] + [ReadProof(task, challenge)]
                    else es + [ReadSocket(task, None)]
      ensures c.Some? <==> addr in sockets && o.valid(found, challenge) && o.difficulty(found) >= o.minDifficulty
      ensures c.Some? ==> c.value.minerId == sockets[addr] && Credits(o, c.value, sockets[addr], found)
      ensures model == if c.Some? then WithTask(s1, task, read.(stage := AtCheck(read.stage.range, c.value))) else s1
    {
      c := None;
      if addr in sockets {
        fs := Advance(o, ReadSocket(task, Some(sockets[addr])), s0, es);
        ghost var last := read.(stage := AtProof(read.stage.range, sockets[addr]));
        assert model == WithTask(s1, task, last);
        c := Credit(o, sockets[addr], found, challenge);
        fs := Advance(o, ReadProof(task, challenge), s0, fs);
        TaskGone(s1, task, last);
      } else {
        fs := Advance(o, ReadSocket(task, None), s0, es);
        TaskGone(s1, task, read);
      }
    }

    /** The read-locked decision and, if it is taken, the write-locked commit. */
    method Store(o: Oracle, ghost task: nat, pubkey: Pubkey, c: Contribution, found: Solution,
                 ghost s0: State, ghost es: seq<Event>)
      returns (stored: bool, ghost fs: seq<Event>)
      requires Valid() && o.minDifficulty >= MIN_DIFF && Ran(o, s0, es) && Enabled(model, Check(task))
      requires pubkey == model.tasks[task].pubkey && c == model.tasks[task].stage.contribution
      requires found == model.tasks[task].solution
      modifies this
      ensures Valid() && Ran(o, s0, fs) && task !in model.tasks
      ensures fs == if stored then es + [Check(task)] + [Commit(task)] else es + [Check(task)]
      ensures stored <==> pubkey !in old(contributions) || c.diff > old(contributions)[pubkey].diff
      ensures contributions == if stored then old(contributions)[pubkey := c] else old(contributions)
      ensures if stored && c.diff > old(difficulty)
              then difficulty == c.diff && solution == Some(found)
              else difficulty == old(difficulty) && solution == old(solution)
    {
      ExecSnoc(o, s0, es, Check(task));
      fs := es + [Check(task)];
      stored := Decide(o, task, pubkey, c.diff);
      if stored {
        ExecSnoc(o, s0, fs, Commit(task));
        fs := fs + [Commit(task)];
        Write(o, task, pubkey, c, found);
      }
    }

    /** One submission whose sections no other task interrupts. */
    method HandleSolution(o: Oracle, ghost task: nat, addr: nat, pubkey: Pubkey, found: Solution,
                          ranges: map<Pubkey, Range>, ghost source: nat, sockets: map<nat, int>, challenge: Challenge)
      returns (stored: bool, ghost es: seq<Event>)
      requires Valid() && o.minDifficulty >= MIN_DIFF && task !in model.tasks
      modifies this
      ensures Valid() && Ran(o, old(model), es) && task !in model.tasks
      ensures stored <==> Admissible(o, pubkey, addr, found, ranges, sockets, challenge)
                          && (pubkey !in old(contributions) || o.difficulty(found) > old(contributions)[pubkey].diff)
      ensures stored ==> pubkey in contributions && contributions == old(contributions)[pubkey := contributions[pubkey]]
      ensures stored ==> contributions[pubkey].minerId == sockets[addr]
                         && Credits(o, contributions[pubkey], sockets[addr], found)
      ensures !stored ==> contributions == old(contributions)
      ensures if stored && o.difficulty(found) > old(difficulty)
              then difficulty == o.difficulty(found) && solution == Some(found)
              else difficulty == old(difficulty) && solution == old(solution)
    {
      ghost var s0 := model;
      stored := false;
      var inRange, c;
      inRange, es := CheckRange(o, task, addr, pubkey, found, ranges, source);
      if inRange {
        ghost var read := Task(addr, found, pubkey, source, AtSocket(ranges[pubkey]));
        c, es := CheckSolution(o, task, addr, found, sockets, challenge, read, s0, s0, es);
        if c.Some? {
          stored, es := Store(o, task, pubkey, c.value, found, s0, es);
        }
      }
    }

    /** The write-locked section shared by the three resets. */
    method Clear(ghost o: Oracle)
      requires Valid() && o.minDifficulty >= MIN_DIFF
      modifies this
      ensures Valid() && model == Apply(o, old(model), Reset)
      ensures solution == None && difficulty == 0 && contributions == map[] && model.tasks == old(model).tasks
    {
      solution := None;
      difficulty := 0;
      contributions := map[];
      model := Apply(o, model, Reset);
    }
  }
}
