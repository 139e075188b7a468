/** Contribution intake: every submitted solution is handled by its own task, whose lock
    sections interleave with those of all other tasks and with the epoch resets. */
module Intake {
  import opened Prelude
  import opened Hashpower

  /** The shared best hash and contributions (the challenge kept beside them is never read). */
  datatype Epoch = Epoch(solution: Option<Solution>, difficulty: nat, contributions: Contributions)

  const CLEARED: Epoch := Epoch(None, 0, map[])

  /** Validity and difficulty are the hash library's; the pool configures the minimum. */
  datatype Oracle = Oracle(valid: (Solution, Challenge) -> bool, difficulty: Solution -> nat, minDifficulty: nat)

  /** Where a task stands: each stage names the lock section it will enter next. */
  datatype Stage =
    | AtRange
    | AtSocket(range: Range)
    | AtProof(range: Range, minerId: int)
    | AtCheck(range: Range, contribution: Contribution)
    | AtCommit(range: Range, contribution: Contribution)

  /** `source` is history: it identifies the entry of the range map that the task has read. */
  datatype Task = Task(addr: nat, solution: Solution, pubkey: Pubkey, source: nat, stage: Stage)

  /** A submission whose fate was decided: committed, or discarded for being too low. */
  datatype Entry = Entry(pubkey: Pubkey, contribution: Contribution, solution: Solution, source: nat)

  /** `log` is history: the submissions decided since the last reset, in order. */
  datatype State = State(epoch: Epoch, tasks: map<nat, Task>, log: seq<Entry>)

  const INITIAL: State := State(CLEARED, map[], [])

  datatype Event =
    | Arrive(task: nat, addr: nat, solution: Solution, pubkey: Pubkey)
    | ReadRange(task: nat, range: Option<Range>, source: nat)
    | ReadSocket(task: nat, minerId: Option<int>)
    | ReadProof(task: nat, challenge: Challenge)
    | Check(task: nat)
    | Commit(task: nat)
    | Reset

  predicate Enabled(s: State, e: Event) {
    match e
    case Arrive(t, _, _, _) => t !in s.tasks
    case ReadRange(t, _, _) => t in s.tasks && s.tasks[t].stage.AtRange?
    case ReadSocket(t, _) => t in s.tasks && s.tasks[t].stage.AtSocket?
    case ReadProof(t, _) => t in s.tasks && s.tasks[t].stage.AtProof?
    case Check(t) => t in s.tasks && s.tasks[t].stage.AtCheck?
    case Commit(t) => t in s.tasks && s.tasks[t].stage.AtCommit?
    case Reset => true
  }

  /** The write-locked section: insert, and replace the best hash if it is beaten. */
  function Insert(epoch: Epoch, pubkey: Pubkey, c: Contribution, solution: Solution): Epoch {
    var contributions := epoch.contributions[pubkey := c];
    if c.diff > epoch.difficulty then Epoch(Some(solution), c.diff, contributions)
    else epoch.(contributions := contributions)
  }

  /** The read-locked decision: whether a submission is to be inserted. */
  predicate Improves(epoch: Epoch, pubkey: Pubkey, diff: nat) {
    pubkey !in epoch.contributions || diff > epoch.contributions[pubkey].diff
  }

  function Moved(s: State, t: nat, stage: Stage): State
    requires t in s.tasks
  {
    s.(tasks := s.tasks[t := s.tasks[t].(stage := stage)])
  }

  function Ended(s: State, t: nat): State {
    s.(tasks := s.tasks - {t})
  }

  /** What the log keeps of a task whose fate is decided. */
  function EntryOf(task: Task): Entry
    requires task.stage.AtCheck? || task.stage.AtCommit?
  {
    Entry(task.pubkey, task.stage.contribution, task.solution, task.source)
  }

  function Apply(o: Oracle, s: State, e: Event): State
    requires o.minDifficulty >= MIN_DIFF
    requires Enabled(s, e)
  {
    match e
    case Arrive(t, addr, solution, pubkey) =>
      s.(tasks := s.tasks[t := Task(addr, solution, pubkey, 0, AtRange)])
    case ReadRange(t, range, source) =>
      var task := s.tasks[t];
      if range.Some? && range.value.Contains(task.solution.nonce)
      then s.(tasks := s.tasks[t := task.(source := source, stage := AtSocket(range.value))])
      else Ended(s, t)
    case ReadSocket(t, minerId) =>
      if minerId.Some? then Moved(s, t, AtProof(s.tasks[t].stage.range, minerId.value)) else Ended(s, t)
    case ReadProof(t, challenge) =>
      var task := s.tasks[t];
      var diff := o.difficulty(task.solution);
      if o.valid(task.solution, challenge) && diff >= o.minDifficulty then
        var c := Contribution(task.stage.minerId, diff, task.solution.nonce, HashpowerOf(diff));
        Moved(s, t, AtCheck(task.stage.range, c))
      else Ended(s, t)
    case Check(t) =>
      var task := s.tasks[t];
      var c := task.stage.contribution;
      if Improves(s.epoch, task.pubkey, c.diff) then Moved(s, t, AtCommit(task.stage.range, c))
      else Ended(s, t).(log := s.log + [EntryOf(task)])
    case Commit(t) =>
      var task := s.tasks[t];
      var c := task.stage.contribution;
      Ended(s, t).(epoch := Insert(s.epoch, task.pubkey, c, task.solution),
                   log := s.log + [EntryOf(task)])
    case Reset => s.(epoch := CLEARED, log := [])
  }

  // ----- Runs

  ghost function Exec(o: Oracle, s: State, es: seq<Event>): State
    requires o.minDifficulty >= MIN_DIFF
    requires Legal(o, s, es)
    decreases |es|, 1
  {
    if es == [] then s else Apply(o, Exec(o, s, es[..|es| - 1]), es[|es| - 1])
  }

  /** Any interleaving in which each event finds its task at the right stage. */
  ghost predicate Legal(o: Oracle, s: State, es: seq<Event>)
    requires o.minDifficulty >= MIN_DIFF
    decreases |es|, 0
  {
    es == [] || (Legal(o, s, es[..|es| - 1]) && Enabled(Exec(o, s, es[..|es| - 1]), es[|es| - 1]))
  }

  lemma ExecSnoc(o: Oracle, s: State, es: seq<Event>, e: Event)
    requires o.minDifficulty >= MIN_DIFF && Legal(o, s, es) && Enabled(Exec(o, s, es), e)
    ensures Legal(o, s, es + [e]) && Exec(o, s, es + [e]) == Apply(o, Exec(o, s, es), e)
  {
    assert (es + [e])[..|es|] == es;
  }

  /** One miner's decision waits for that miner's pending commit; nothing else is ordered. */
  ghost predicate Serial(s: State, e: Event) {
    e.Check? && e.task in s.tasks ==>
      forall u :: u in s.tasks && s.tasks[u].stage.AtCommit? ==> s.tasks[u].pubkey != s.tasks[e.task].pubkey
  }

  ghost predicate SerialRun(o: Oracle, s: State, es: seq<Event>)
    requires o.minDifficulty >= MIN_DIFF && Legal(o, s, es)
    decreases |es|
  {
    es == [] || (SerialRun(o, s, es[..|es| - 1]) && Serial(Exec(o, s, es[..|es| - 1]), es[|es| - 1]))
  }

  // ----- What the log says

  /** Entry `i` is the first of the highest difficulty. */
  ghost predicate FirstBest(log: seq<Entry>, i: int) {
    && 0 <= i < |log|
    && (forall j :: 0 <= j < |log| ==> log[j].contribution.diff <= log[i].contribution.diff)
    && (forall j :: 0 <= j < i ==> log[j].contribution.diff < log[i].contribution.diff)
  }

  /** Entry `i` is the first of the highest difficulty among those of one miner. */
  ghost predicate FirstBestOf(log: seq<Entry>, p: Pubkey, i: int) {
    && 0 <= i < |log| && log[i].pubkey == p
    && (forall j :: 0 <= j < |log| && log[j].pubkey == p ==> log[j].contribution.diff <= log[i].contribution.diff)
    && (forall j :: 0 <= j < i && log[j].pubkey == p ==> log[j].contribution.diff < log[i].contribution.diff)
  }

  ghost predicate BestIs(epoch: Epoch, log: seq<Entry>, i: int) {
    && FirstBest(log, i)
    && epoch.solution == Some(log[i].solution)
    && epoch.difficulty == log[i].contribution.diff
  }

  /** The best hash is the first maximum of the log. */
  ghost predicate BestOfLog(epoch: Epoch, log: seq<Entry>) {
    if log == [] then epoch.solution == None && epoch.difficulty == 0
    else exists i :: BestIs(epoch, log, i)
  }

  /** The stored contribution of `p` is entry `i`. */
  ghost predicate StoredIs(epoch: Epoch, log: seq<Entry>, p: Pubkey, i: int) {
    && 0 <= i < |log| && log[i].pubkey == p
    && p in epoch.contributions && epoch.contributions[p] == log[i].contribution
  }

  /** Each contribution is an entry of its own miner, and every entry's miner has one. */
  ghost predicate FromLog(epoch: Epoch, log: seq<Entry>) {
    && (forall i :: 0 <= i < |log| ==> log[i].pubkey in epoch.contributions)
    && (forall p :: p in epoch.contributions ==> exists i :: StoredIs(epoch, log, p, i))
  }

  /** A contribution made of exactly what its solution says. */
  ghost predicate Genuine(o: Oracle, c: Contribution, solution: Solution) {
    && c.nonce == solution.nonce
    && c.diff == o.difficulty(solution) >= o.minDifficulty
    && o.minDifficulty >= MIN_DIFF
    && c.hashpower == HashpowerOf(c.diff)
  }

  ghost predicate LogOk(o: Oracle, log: seq<Entry>) {
    forall i :: 0 <= i < |log| ==> Genuine(o, log[i].contribution, log[i].solution)
  }

  ghost predicate TaskOk(o: Oracle, task: Task) {
    match task.stage
    case AtRange => true
    case AtSocket(r) => r.Contains(task.solution.nonce)
    case AtProof(r, _) => r.Contains(task.solution.nonce)
    case AtCheck(r, c) => r.Contains(task.solution.nonce) && Genuine(o, c, task.solution)
    case AtCommit(r, c) => r.Contains(task.solution.nonce) && Genuine(o, c, task.solution)
  }

  ghost predicate TasksOk(o: Oracle, tasks: map<nat, Task>) {
    forall t :: t in tasks ==> TaskOk(o, tasks[t])
  }

  /** What holds of the shared record after every interleaving. */
  ghost predicate Record(epoch: Epoch, log: seq<Entry>) {
    FromLog(epoch, log) && BestOfLog(epoch, log)
  }

  ghost predicate Sound(o: Oracle, s: State) {
    TasksOk(o, s.tasks) && LogOk(o, s.log) && Record(s.epoch, s.log)
  }

  /** What an observer of the shared record can rely on. */
  ghost predicate Observed(epoch: Epoch) {
    && (forall p :: p in epoch.contributions ==> epoch.contributions[p].diff <= epoch.difficulty)
    && (epoch.solution.Some? <==> epoch.contributions != map[])
    && (epoch.solution == None ==> epoch.difficulty == 0)
  }

  lemma RecordIsObserved(epoch: Epoch, log: seq<Entry>)
    requires Record(epoch, log)
    ensures Observed(epoch)
    ensures log == [] <==> epoch.contributions == map[]
  {
    forall p | p in epoch.contributions ensures epoch.contributions[p].diff <= epoch.difficulty && log != [] {
      var i :| StoredIs(epoch, log, p, i);
    }
    if log != [] {
      assert log[0].pubkey in epoch.contributions;
    }
  }

  lemma BestSurvives(log: seq<Entry>, x: Entry, i: int)
    requires FirstBest(log, i) && x.contribution.diff <= log[i].contribution.diff
    ensures FirstBest(log + [x], i) && (log + [x])[i] == log[i]
  {
  }

  lemma StoredSurvives(epoch: Epoch, epoch': Epoch, log: seq<Entry>, x: Entry, p: Pubkey)
    requires FromLog(epoch, log) && p in epoch.contributions
    requires p in epoch'.contributions && epoch'.contributions[p] == epoch.contributions[p]
    ensures exists i :: StoredIs(epoch', log + [x], p, i)
  {
    var i :| StoredIs(epoch, log, p, i);
    assert StoredIs(epoch', log + [x], p, i);
  }

  /** Discarding a submission that does not improve keeps the record. */
  lemma DiscardKeepsRecord(epoch: Epoch, log: seq<Entry>, x: Entry)
    requires Record(epoch, log) && !Improves(epoch, x.pubkey, x.contribution.diff)
    ensures Record(epoch, log + [x])
  {
    RecordIsObserved(epoch, log);
    forall p | p in epoch.contributions ensures exists i :: StoredIs(epoch, log + [x], p, i) {
      StoredSurvives(epoch, epoch, log, x, p);
    }
    var i :| BestIs(epoch, log, i);
    BestSurvives(log, x, i);
    assert BestIs(epoch, log + [x], i);
  }

  /** Inserting keeps the record, even when the insert lowers its miner's contribution. */
  lemma InsertKeepsRecord(epoch: Epoch, log: seq<Entry>, x: Entry)
    requires Record(epoch, log) && x.contribution.diff > 0
    ensures Record(Insert(epoch, x.pubkey, x.contribution, x.solution), log + [x])
  {
    var epoch' := Insert(epoch, x.pubkey, x.contribution, x.solution);
    var log' := log + [x];
    forall p | p in epoch'.contributions ensures exists i :: StoredIs(epoch', log', p, i) {
      if p == x.pubkey {
        assert StoredIs(epoch', log', p, |log|);
      } else {
        StoredSurvives(epoch, epoch', log, x, p);
      }
    }
    if x.contribution.diff > epoch.difficulty {
      if log != [] {
        var i :| BestIs(epoch, log, i);
      }
      assert BestIs(epoch', log', |log|);
    } else {
      var i :| BestIs(epoch, log, i);
      BestSurvives(log, x, i);
      assert BestIs(epoch', log', i);
    }
  }

  lemma StepKeepsTasks(o: Oracle, s: State, e: Event)
    requires o.minDifficulty >= MIN_DIFF
    requires TasksOk(o, s.tasks) && Enabled(s, e)
    ensures TasksOk(o, Apply(o, s, e).tasks)
  {
    var s' := Apply(o, s, e);
    forall u | u in s'.tasks ensures TaskOk(o, s'.tasks[u]) {
      if u in s.tasks {
        assert TaskOk(o, s.tasks[u]);
      }
    }
  }

  /** A decision adds a genuine entry to the log and keeps the record. */
  lemma DecisionKeepsRecord(o: Oracle, s: State, e: Event)
    requires o.minDifficulty >= MIN_DIFF
    requires Sound(o, s) && Enabled(s, e) && (e.Check? || e.Commit?)
    ensures LogOk(o, Apply(o, s, e).log) && Record(Apply(o, s, e).epoch, Apply(o, s, e).log)
  {
    var task := s.tasks[e.task];
    assert TaskOk(o, task);
    var x := EntryOf(task);
    if e.Commit? {
      InsertKeepsRecord(s.epoch, s.log, x);
    } else if !Improves(s.epoch, x.pubkey, x.contribution.diff) {
      DiscardKeepsRecord(s.epoch, s.log, x);
    }
  }

  lemma StepKeepsSound(o: Oracle, s: State, e: Event)
    requires o.minDifficulty >= MIN_DIFF
    requires Sound(o, s) && Enabled(s, e)
    ensures Sound(o, Apply(o, s, e))
  {
    StepKeepsTasks(o, s, e);
    if e.Check? || e.Commit? {
      DecisionKeepsRecord(o, s, e);
    }
  }

  /** Under every interleaving of checks, commits and resets: the best difficulty bounds every
      contribution, a best solution exists exactly when a contribution does, and the best hash is
      the first maximum of the decisions since the last reset. */
  lemma {:induction false} EveryInterleaving(o: Oracle, es: seq<Event>)
    requires o.minDifficulty >= MIN_DIFF && Legal(o, INITIAL, es)
    ensures var s := Exec(o, INITIAL, es); Sound(o, s) && Observed(s.epoch)
    decreases |es|
  {
    if es != [] {
      var rest := es[..|es| - 1];
      EveryInterleaving(o, rest);
      StepKeepsSound(o, Exec(o, INITIAL, rest), es[|es| - 1]);
    }
    var s := Exec(o, INITIAL, es);
    RecordIsObserved(s.epoch, s.log);
  }

  /** Between resets the best difficulty never falls and no miner's entry disappears. */
  lemma {:induction false} MonotoneBetweenResets(o: Oracle, s: State, es: seq<Event>)
    requires o.minDifficulty >= MIN_DIFF && Legal(o, s, es)
    requires Reset !in es
    ensures s.epoch.difficulty <= Exec(o, s, es).epoch.difficulty
    ensures s.epoch.contributions.Keys <= Exec(o, s, es).epoch.contributions.Keys
    decreases |es|
  {
    if es != [] {
      assert es[|es| - 1] in es;
      MonotoneBetweenResets(o, s, es[..|es| - 1]);
    }
  }

  /** A reset stops no task: one that has passed its check before may commit after, and then the new
      epoch opens with its submission alone, whichever challenge that was valid for. */
  lemma CommitCrossesReset(o: Oracle, es: seq<Event>, t: nat)
    requires o.minDifficulty >= MIN_DIFF && Legal(o, INITIAL, es)
    requires var tasks := Exec(o, INITIAL, es).tasks; t in tasks && tasks[t].stage.AtCommit?
    ensures var task := Exec(o, INITIAL, es).tasks[t];
            var c := task.stage.contribution;
            && Legal(o, INITIAL, es + [Reset] + [Commit(t)])
            && Exec(o, INITIAL, es + [Reset] + [Commit(t)]).epoch
               == Epoch(Some(task.solution), c.diff, map[task.pubkey := c])
  {
    EveryInterleaving(o, es);
    assert TaskOk(o, Exec(o, INITIAL, es).tasks[t]);
    ExecSnoc(o, INITIAL, es, Reset);
    ExecSnoc(o, INITIAL, es + [Reset], Commit(t));
  }

  // ----- Serialised submissions

  ghost predicate MinerIs(epoch: Epoch, log: seq<Entry>, p: Pubkey, i: int) {
    FirstBestOf(log, p, i) && StoredIs(epoch, log, p, i)
  }

  /** Each contribution is its miner's first maximum of the log. */
  ghost predicate MinersOfLog(epoch: Epoch, log: seq<Entry>) {
    forall p :: p in epoch.contributions ==> exists i :: MinerIs(epoch, log, p, i)
  }

  /** A pending commit still improves on what is stored, and is its miner's only one. */
  ghost predicate PendingImprove(s: State) {
    && (forall t :: t in s.tasks && s.tasks[t].stage.AtCommit? ==>
          Improves(s.epoch, s.tasks[t].pubkey, s.tasks[t].stage.contribution.diff))
    && (forall t, u ::
          t in s.tasks && u in s.tasks && t != u && s.tasks[t].stage.AtCommit? && s.tasks[u].stage.AtCommit?
          ==> s.tasks[t].pubkey != s.tasks[u].pubkey)
  }

  lemma MinerSurvives(epoch: Epoch, epoch': Epoch, log: seq<Entry>, x: Entry, p: Pubkey)
    requires MinersOfLog(epoch, log) && p in epoch.contributions
    requires p in epoch'.contributions && epoch'.contributions[p] == epoch.contributions[p]
    requires x.pubkey == p ==> x.contribution.diff <= epoch.contributions[p].diff
    ensures exists i :: MinerIs(epoch', log + [x], p, i)
  {
    var i :| MinerIs(epoch, log, p, i);
    assert MinerIs(epoch', log + [x], p, i);
  }

  lemma RaisingInsert(epoch: Epoch, log: seq<Entry>, x: Entry)
    requires FromLog(epoch, log) && MinersOfLog(epoch, log)
    requires Improves(epoch, x.pubkey, x.contribution.diff)
    ensures MinersOfLog(Insert(epoch, x.pubkey, x.contribution, x.solution), log + [x])
  {
    var epoch' := Insert(epoch, x.pubkey, x.contribution, x.solution);
    forall p | p in epoch'.contributions ensures exists i :: MinerIs(epoch', log + [x], p, i) {
      if p == x.pubkey {
        forall j | 0 <= j < |log| && log[j].pubkey == p ensures log[j].contribution.diff < x.contribution.diff {
          assert p in epoch.contributions;
          var i :| MinerIs(epoch, log, p, i);
        }
        assert MinerIs(epoch', log + [x], p, |log|);
      } else {
        MinerSurvives(epoch, epoch', log, x, p);
      }
    }
  }

  lemma NeutralDecision(epoch: Epoch, epoch': Epoch, log: seq<Entry>, x: Entry)
    requires MinersOfLog(epoch, log) && !Improves(epoch, x.pubkey, x.contribution.diff)
    requires epoch'.contributions == epoch.contributions
    ensures MinersOfLog(epoch', log + [x])
  {
    forall p | p in epoch'.contributions ensures exists i :: MinerIs(epoch', log + [x], p, i) {
      MinerSurvives(epoch, epoch', log, x, p);
    }
  }

  lemma StepKeepsMiners(o: Oracle, s: State, e: Event)
    requires o.minDifficulty >= MIN_DIFF
    requires Sound(o, s) && Enabled(s, e)
    requires MinersOfLog(s.epoch, s.log) && PendingImprove(s)
    ensures var s' := Apply(o, s, e); MinersOfLog(s'.epoch, s'.log)
  {
    if e.Check? || e.Commit? {
      var task := s.tasks[e.task];
      var x := EntryOf(task);
      if e.Commit? {
        RaisingInsert(s.epoch, s.log, x);
      } else if !Improves(s.epoch, x.pubkey, x.contribution.diff) {
        NeutralDecision(s.epoch, s.epoch, s.log, x);
      }
    }
  }

  lemma StepKeepsPending(o: Oracle, s: State, e: Event)
    requires o.minDifficulty >= MIN_DIFF
    requires Enabled(s, e) && Serial(s, e) && PendingImprove(s)
    ensures PendingImprove(Apply(o, s, e))
  {
    var s' := Apply(o, s, e);
    forall t | t in s'.tasks && s'.tasks[t].stage.AtCommit?
      ensures Improves(s'.epoch, s'.tasks[t].pubkey, s'.tasks[t].stage.contribution.diff)
    {
      assert t in s.tasks;
      if e.Commit? {
        assert t != e.task && s.tasks[t].pubkey != s.tasks[e.task].pubkey;
      }
    }
  }

  lemma {:induction false} SerialRunSteps(o: Oracle, es: seq<Event>)
    requires o.minDifficulty >= MIN_DIFF && Legal(o, INITIAL, es) && SerialRun(o, INITIAL, es)
    ensures var s := Exec(o, INITIAL, es); Sound(o, s) && MinersOfLog(s.epoch, s.log) && PendingImprove(s)
    decreases |es|
  {
    if es != [] {
      var rest := es[..|es| - 1];
      SerialRunSteps(o, rest);
      var s, e := Exec(o, INITIAL, rest), es[|es| - 1];
      StepKeepsSound(o, s, e);
      StepKeepsMiners(o, s, e);
      StepKeepsPending(o, s, e);
    }
  }

  /** With one miner's submissions serialised, and everything else interleaving freely, intake is a
      fold over the decisions since the last reset: each miner keeps its first maximum, the best hash
      is the first maximum of all, and the best solution is some miner's stored contribution. */
  lemma SerialisedIntakeIsAFold(o: Oracle, es: seq<Event>)
    requires o.minDifficulty >= MIN_DIFF && Legal(o, INITIAL, es) && SerialRun(o, INITIAL, es)
    ensures var s := Exec(o, INITIAL, es);
            && FromLog(s.epoch, s.log) && MinersOfLog(s.epoch, s.log) && BestOfLog(s.epoch, s.log)
            && (s.epoch.solution.Some? ==>
                  exists p :: p in s.epoch.contributions
                              && s.epoch.contributions[p].nonce == s.epoch.solution.value.nonce
                              && s.epoch.contributions[p].diff == s.epoch.difficulty)
  {
    SerialRunSteps(o, es);
    var s := Exec(o, INITIAL, es);
    if s.epoch.solution.Some? {
      var i :| BestIs(s.epoch, s.log, i);
      var p := s.log[i].pubkey;
      var j :| MinerIs(s.epoch, s.log, p, j);
      assert i == j;
      assert Genuine(o, s.log[i].contribution, s.log[i].solution);
    }
  }

  // ----- Unserialised submissions

  lemma FirstBestOfUnique(log: seq<Entry>, p: Pubkey, i: int, k: int)
    requires FirstBestOf(log, p, i) && FirstBestOf(log, p, k)
    ensures i == k
  {
  }

  lemma LoweringInsertLoses(epoch: Epoch, epoch': Epoch, log: seq<Entry>, x: Entry)
    requires MinersOfLog(epoch, log) && !Improves(epoch, x.pubkey, x.contribution.diff)
    requires epoch.contributions[x.pubkey] != x.contribution
    requires x.pubkey in epoch'.contributions && epoch'.contributions[x.pubkey] == x.contribution
    ensures forall k :: !MinerIs(epoch', log + [x], x.pubkey, k)
  {
    var p, log' := x.pubkey, log + [x];
    var i :| MinerIs(epoch, log, p, i);
    assert FirstBestOf(log', p, i) && log'[i] == log[i];
    forall k ensures !MinerIs(epoch', log', p, k) {
      if FirstBestOf(log', p, k) {
        FirstBestOfUnique(log', p, i, k);
      }
    }
  }

  lemma InsertKeepsMinersIff(epoch: Epoch, log: seq<Entry>, x: Entry)
    requires FromLog(epoch, log) && MinersOfLog(epoch, log)
    ensures MinersOfLog(Insert(epoch, x.pubkey, x.contribution, x.solution), log + [x]) <==>
            Improves(epoch, x.pubkey, x.contribution.diff) || epoch.contributions[x.pubkey] == x.contribution
  {
    var epoch' := Insert(epoch, x.pubkey, x.contribution, x.solution);
    if Improves(epoch, x.pubkey, x.contribution.diff) {
      RaisingInsert(epoch, log, x);
    } else if epoch.contributions[x.pubkey] == x.contribution {
      assert epoch'.contributions == epoch.contributions;
      NeutralDecision(epoch, epoch', log, x);
    } else {
      LoweringInsertLoses(epoch, epoch', log, x);
      assert x.pubkey in epoch'.contributions;
    }
  }

  /** A commit keeps its miner's first maximum exactly when the read-locked decision would still
      be taken at the time of the write (or the very same contribution is written again). */
  lemma CommitKeepsMinerIff(o: Oracle, s: State, e: Event)
    requires o.minDifficulty >= MIN_DIFF
    requires Enabled(s, e) && e.Commit? && FromLog(s.epoch, s.log) && MinersOfLog(s.epoch, s.log)
    ensures var task := s.tasks[e.task];
            var c := task.stage.contribution;
            MinersOfLog(Apply(o, s, e).epoch, Apply(o, s, e).log) <==>
            Improves(s.epoch, task.pubkey, c.diff) || s.epoch.contributions[task.pubkey] == c
  {
    var task := s.tasks[e.task];
    InsertKeepsMinersIff(s.epoch, s.log, EntryOf(task));
  }

  // ----- The best solution and the stored contributions

  /** The miner's stored contribution is the best solution. */
  ghost predicate Holds(epoch: Epoch, p: Pubkey) {
    && p in epoch.contributions && epoch.solution.Some?
    && epoch.contributions[p].nonce == epoch.solution.value.nonce
    && epoch.contributions[p].diff == epoch.difficulty
  }

  ghost predicate BestIsStored(epoch: Epoch) {
    exists p :: Holds(epoch, p)
  }

  /** A commit leaves the best solution among the stored contributions exactly when it raises the
      best difficulty, or another miner holds the best solution too, or it writes the very nonce
      and difficulty of the best solution. */
  lemma CommitKeepsBestStoredIff(o: Oracle, s: State, e: Event)
    requires o.minDifficulty >= MIN_DIFF && Enabled(s, e) && e.Commit?
    requires TaskOk(o, s.tasks[e.task]) && BestIsStored(s.epoch)
    ensures var task := s.tasks[e.task];
            var c := task.stage.contribution;
            BestIsStored(Apply(o, s, e).epoch) <==>
            || c.diff > s.epoch.difficulty
            || (exists q :: q != task.pubkey && Holds(s.epoch, q))
            || (c.nonce == s.epoch.solution.value.nonce && c.diff == s.epoch.difficulty)
  {
    var task, epoch' := s.tasks[e.task], Apply(o, s, e).epoch;
    var c := task.stage.contribution;
    if c.diff > s.epoch.difficulty || (c.nonce == s.epoch.solution.value.nonce && c.diff == s.epoch.difficulty) {
      assert Holds(epoch', task.pubkey);
    } else {
      forall q | q != task.pubkey ensures Holds(epoch', q) <==> Holds(s.epoch, q) {
      }
      assert !Holds(epoch', task.pubkey);
    }
  }

  // ----- Two overlapping submissions of one miner

  /** The lock sections that take a new task to its check. */
  ghost function Approach(t: nat, solution: Solution, p: Pubkey, miner: int, range: Range, ch: Challenge): seq<Event> {
    [Arrive(t, 0, solution, p)] + [ReadRange(t, Some(range), 0)] + [ReadSocket(t, Some(miner))] + [ReadProof(t, ch)]
  }

  ghost function WithTask(s: State, t: nat, task: Task): State {
    s.(tasks := s.tasks[t := task])
  }

  /** The first two of them. */
  lemma ReachSocket(o: Oracle, s: State, es: seq<Event>, t: nat, solution: Solution, p: Pubkey, range: Range)
    requires o.minDifficulty >= MIN_DIFF && Legal(o, s, es) && t !in Exec(o, s, es).tasks
    requires range.Contains(solution.nonce)
    ensures var fs := es + [Arrive(t, 0, solution, p)] + [ReadRange(t, Some(range), 0)];
            && Legal(o, s, fs)
            && Exec(o, s, fs) == WithTask(Exec(o, s, es), t, Task(0, solution, p, 0, AtSocket(range)))
  {
    var s0, arrived := Exec(o, s, es), Task(0, solution, p, 0, AtRange);
    var fs := es + [Arrive(t, 0, solution, p)];
    ExecSnoc(o, s, es, Arrive(t, 0, solution, p));
    assert Exec(o, s, fs) == WithTask(s0, t, arrived);
    ExecSnoc(o, s, fs, ReadRange(t, Some(range), 0));
  }

  /** The third. */
  lemma ReachProof(o: Oracle, s: State, es: seq<Event>, t: nat, solution: Solution, p: Pubkey, miner: int, range: Range)
    requires o.minDifficulty >= MIN_DIFF && Legal(o, s, es) && t !in Exec(o, s, es).tasks
    requires range.Contains(solution.nonce)
    ensures var fs := es + [Arrive(t, 0, solution, p)] + [ReadRange(t, Some(range), 0)] + [ReadSocket(t, Some(miner))];
            && Legal(o, s, fs)
            && Exec(o, s, fs) == WithTask(Exec(o, s, es), t, Task(0, solution, p, 0, AtProof(range, miner)))
  {
    var fs := es + [Arrive(t, 0, solution, p)] + [ReadRange(t, Some(range), 0)];
    ReachSocket(o, s, es, t, solution, p, range);
    ExecSnoc(o, s, fs, ReadSocket(t, Some(miner)));
  }

  lemma ReachCheck(o: Oracle, s: State, es: seq<Event>, t: nat, solution: Solution, p: Pubkey, miner: int,
                   range: Range, ch: Challenge)
    requires o.minDifficulty >= MIN_DIFF && Legal(o, s, es) && t !in Exec(o, s, es).tasks
    requires o.valid(solution, ch) && range.Contains(solution.nonce) && o.difficulty(solution) >= o.minDifficulty
    ensures var fs := es + Approach(t, solution, p, miner, range, ch);
            var d := o.difficulty(solution);
            var c := Contribution(miner, d, solution.nonce, HashpowerOf(d));
            && Legal(o, s, fs)
            && Exec(o, s, fs) == WithTask(Exec(o, s, es), t, Task(0, solution, p, 0, AtCheck(range, c)))
  {
    var gs := es + [Arrive(t, 0, solution, p)] + [ReadRange(t, Some(range), 0)] + [ReadSocket(t, Some(miner))];
    ReachProof(o, s, es, t, solution, p, miner, range);
    ExecSnoc(o, s, gs, ReadProof(t, ch));
    assert es + Approach(t, solution, p, miner, range, ch) == gs + [ReadProof(t, ch)];
  }

  /** The overlapping part of the interleaving. */
  lemma BothChecksBeforeBothCommits(o: Oracle, es: seq<Event>, p: Pubkey, high: Solution, low: Solution,
                                    t0: Task, t1: Task)
    requires o.minDifficulty >= MIN_DIFF && Legal(o, INITIAL, es)
    requires Exec(o, INITIAL, es) == INITIAL.(tasks := map[0 := t0, 1 := t1])
    requires t0.stage.AtCheck? && t1.stage.AtCheck? && t0.pubkey == t1.pubkey == p
    requires t0.solution == high && t1.solution == low
    requires t1.stage.contribution.diff < t0.stage.contribution.diff && t1.stage.contribution.diff > 0
    ensures var fs := es + [Check(0)] + [Check(1)] + [Commit(0)] + [Commit(1)];
            && Legal(o, INITIAL, fs)
            && var s := Exec(o, INITIAL, fs);
               && s.epoch.solution == Some(high) && s.epoch.difficulty == t0.stage.contribution.diff
               && s.epoch.contributions == map[p := t1.stage.contribution]
  {
    var e1 := es + [Check(0)];
    var e2 := e1 + [Check(1)];
    var e3 := e2 + [Commit(0)];
    ExecSnoc(o, INITIAL, es, Check(0));
    ExecSnoc(o, INITIAL, e1, Check(1));
    ExecSnoc(o, INITIAL, e2, Commit(0));
    ExecSnoc(o, INITIAL, e3, Commit(1));
  }

  /** The interleaving of one miner's two submissions that loses the better one: both are checked
      before either is written, and the lower is written last. */
  ghost function Overlapping(p: Pubkey, miner: int, high: Solution, low: Solution, range: Range, ch: Challenge)
    : seq<Event>
  {
    Approach(0, high, p, miner, range, ch) + Approach(1, low, p, miner, range, ch)
    + [Check(0)] + [Check(1)] + [Commit(0)] + [Commit(1)]
  }

  /** Without serialisation the fold fails: any two valid submissions of one miner can leave the
      lower one stored, and the best solution matching no stored contribution. */
  lemma OverlappingLosesTheBest(o: Oracle, p: Pubkey, miner: int, high: Solution, low: Solution, range: Range,
                                ch: Challenge)
    requires o.minDifficulty >= MIN_DIFF
    requires o.valid(high, ch) && o.valid(low, ch)
    requires range.Contains(high.nonce) && range.Contains(low.nonce)
    requires o.minDifficulty <= o.difficulty(low) < o.difficulty(high)
    ensures Legal(o, INITIAL, Overlapping(p, miner, high, low, range, ch))
    ensures var s := Exec(o, INITIAL, Overlapping(p, miner, high, low, range, ch));
            && s.epoch.solution == Some(high) && s.epoch.difficulty == o.difficulty(high)
            && s.epoch.contributions.Keys == {p} && s.epoch.contributions[p].diff == o.difficulty(low)
            && !BestIsStored(s.epoch)
  {
    var hc := Contribution(miner, o.difficulty(high), high.nonce, HashpowerOf(o.difficulty(high)));
    var lc := Contribution(miner, o.difficulty(low), low.nonce, HashpowerOf(o.difficulty(low)));
    var t0, t1 := Task(0, high, p, 0, AtCheck(range, hc)), Task(0, low, p, 0, AtCheck(range, lc));
    var e0 := Approach(0, high, p, miner, range, ch);
    ReachCheck(o, INITIAL, [], 0, high, p, miner, range, ch);
    assert [] + e0 == e0;
    assert Exec(o, INITIAL, e0) == INITIAL.(tasks := map[0 := t0]);
    ReachCheck(o, INITIAL, e0, 1, low, p, miner, range, ch);
    var es := e0 + Approach(1, low, p, miner, range, ch);
    assert Exec(o, INITIAL, es) == INITIAL.(tasks := map[0 := t0, 1 := t1]);
    BothChecksBeforeBothCommits(o, es, p, high, low, t0, t1);
  }
}
