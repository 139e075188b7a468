/** Where a contribution's parts come from: on every run, each decided submission is made of what its
    own task was given and what its own reads answered. */
module IntakeProvenance {
  import opened Prelude
  import opened Hashpower
  import opened Intake

  // ----- What a task was given and read last

  ghost function Arrived(es: seq<Event>, t: nat): Option<Event> {
    if es == [] then None
    else
      var rest, e := es[..|es| - 1], es[|es| - 1];
      if e.Arrive? && e.task == t then Some(e) else Arrived(rest, t)
  }

  ghost function RangeAnswer(es: seq<Event>, t: nat): Option<Range> {
    if es == [] then None
    else
      var rest, e := es[..|es| - 1], es[|es| - 1];
      if e.ReadRange? && e.task == t then e.range else RangeAnswer(rest, t)
  }

  ghost function SocketAnswer(es: seq<Event>, t: nat): Option<int> {
    if es == [] then None
    else
      var rest, e := es[..|es| - 1], es[|es| - 1];
      if e.ReadSocket? && e.task == t then e.minerId else SocketAnswer(rest, t)
  }

  ghost function ProofAnswer(es: seq<Event>, t: nat): Option<Challenge> {
    if es == [] then None
    else
      var rest, e := es[..|es| - 1], es[|es| - 1];
      if e.ReadProof? && e.task == t then Some(e.challenge) else ProofAnswer(rest, t)
  }

  /** The contribution that the answers make of the solution. */
  ghost predicate MadeOf(o: Oracle, es: seq<Event>, t: nat, solution: Solution, c: Contribution) {
    && SocketAnswer(es, t) == Some(c.minerId)
    && c.nonce == solution.nonce && c.diff == o.difficulty(solution) >= o.minDifficulty
    && ProofAnswer(es, t).Some? && o.valid(solution, ProofAnswer(es, t).value)
  }

  /** The task holds what it was given and has read so far. */
  ghost predicate TaskFrom(o: Oracle, es: seq<Event>, t: nat, task: Task) {
    && Arrived(es, t) == Some(Arrive(t, task.addr, task.solution, task.pubkey))
    && match task.stage
       case AtRange => true
       case AtSocket(r) => RangeAnswer(es, t) == Some(r) && r.Contains(task.solution.nonce)
       case AtProof(r, m) => RangeAnswer(es, t) == Some(r) && r.Contains(task.solution.nonce)
                             && SocketAnswer(es, t) == Some(m)
       case AtCheck(r, c) => RangeAnswer(es, t) == Some(r) && r.Contains(task.solution.nonce)
                             && MadeOf(o, es, t, task.solution, c)
       case AtCommit(r, c) => RangeAnswer(es, t) == Some(r) && r.Contains(task.solution.nonce)
                              && MadeOf(o, es, t, task.solution, c)
  }

  ghost predicate TasksFrom(o: Oracle, es: seq<Event>, tasks: map<nat, Task>) {
    forall t :: t in tasks ==> TaskFrom(o, es, t, tasks[t])
  }

  /** Event `j` decided the entry: it belongs to a task that was given this solution under this pubkey,
      found its nonce in the range it read, and made this contribution of what it read. */
  ghost predicate DecidedAt(o: Oracle, es: seq<Event>, x: Entry, j: int, t: nat) {
    && 0 <= j < |es| && (es[j] == Check(t) || es[j] == Commit(t))
    && var before := es[..j];
       && Arrived(before, t).Some? && Arrived(before, t).value.Arrive?
       && Arrived(before, t).value.solution == x.solution && Arrived(before, t).value.pubkey == x.pubkey
       && RangeAnswer(before, t).Some? && RangeAnswer(before, t).value.Contains(x.contribution.nonce)
       && MadeOf(o, before, t, x.solution, x.contribution)
  }

  ghost predicate Decided(o: Oracle, es: seq<Event>, x: Entry) {
    exists j, t :: DecidedAt(o, es, x, j, t)
  }

  ghost predicate LogFrom(o: Oracle, es: seq<Event>, log: seq<Entry>) {
    forall i :: 0 <= i < |log| ==> Decided(o, es, log[i])
  }

  lemma StepKeepsTasksFrom(o: Oracle, s: State, es: seq<Event>, e: Event)
    requires o.minDifficulty >= MIN_DIFF && Enabled(s, e) && TasksFrom(o, es, s.tasks)
    ensures TasksFrom(o, es + [e], Apply(o, s, e).tasks)
  {
    assert (es + [e])[..|es|] == es;
    var tasks := Apply(o, s, e).tasks;
    forall t | t in tasks ensures TaskFrom(o, es + [e], t, tasks[t]) {
      if t in s.tasks {
        assert TaskFrom(o, es, t, s.tasks[t]);
      }
    }
  }

  lemma DecidedStays(o: Oracle, es: seq<Event>, e: Event, x: Entry)
    requires Decided(o, es, x)
    ensures Decided(o, es + [e], x)
  {
    var j, t :| DecidedAt(o, es, x, j, t);
    assert (es + [e])[..j] == es[..j];
    assert DecidedAt(o, es + [e], x, j, t);
  }

  lemma DecidedNow(o: Oracle, es: seq<Event>, e: Event, t: nat, task: Task)
    requires (task.stage.AtCheck? && e == Check(t)) || (task.stage.AtCommit? && e == Commit(t))
    requires TaskFrom(o, es, t, task)
    ensures Decided(o, es + [e], EntryOf(task))
  {
    assert (es + [e])[..|es|] == es;
    assert DecidedAt(o, es + [e], EntryOf(task), |es|, t);
  }

  lemma StepKeepsLogFrom(o: Oracle, s: State, es: seq<Event>, e: Event)
    requires o.minDifficulty >= MIN_DIFF && Enabled(s, e) && TasksFrom(o, es, s.tasks) && LogFrom(o, es, s.log)
    ensures LogFrom(o, es + [e], Apply(o, s, e).log)
  {
    var log := Apply(o, s, e).log;
    forall i | 0 <= i < |log| ensures Decided(o, es + [e], log[i]) {
      if i < |s.log| {
        DecidedStays(o, es, e, s.log[i]);
      } else {
        DecidedNow(o, es, e, e.task, s.tasks[e.task]);
      }
    }
  }

  lemma {:induction false} RunKeepsFrom(o: Oracle, es: seq<Event>)
    requires o.minDifficulty >= MIN_DIFF && Legal(o, INITIAL, es)
    ensures TasksFrom(o, es, Exec(o, INITIAL, es).tasks) && LogFrom(o, es, Exec(o, INITIAL, es).log)
    decreases |es|
  {
    if es != [] {
      var rest, e := es[..|es| - 1], es[|es| - 1];
      RunKeepsFrom(o, rest);
      assert es == rest + [e];
      StepKeepsTasksFrom(o, Exec(o, INITIAL, rest), rest, e);
      StepKeepsLogFrom(o, Exec(o, INITIAL, rest), rest, e);
    }
  }

  /** On every run: each decided submission, and each stored contribution, credits the miner whom its
      own task's socket lookup answered, for the solution and under the pubkey that task was given; the
      nonce lay in the range the task read and the solution was valid for the challenge it read. */
  lemma EveryCreditIsItsTasks(o: Oracle, es: seq<Event>)
    requires o.minDifficulty >= MIN_DIFF && Legal(o, INITIAL, es)
    ensures var s := Exec(o, INITIAL, es);
            && LogFrom(o, es, s.log)
            && forall p :: p in s.epoch.contributions ==>
                 exists x :: Decided(o, es, x) && x.pubkey == p && x.contribution == s.epoch.contributions[p]
  {
    RunKeepsFrom(o, es);
    EveryInterleaving(o, es);
    var s := Exec(o, INITIAL, es);
    forall p | p in s.epoch.contributions
      ensures exists x :: Decided(o, es, x) && x.pubkey == p && x.contribution == s.epoch.contributions[p]
    {
      var i :| StoredIs(s.epoch, s.log, p, i);
      assert Decided(o, es, s.log[i]);
    }
  }
}
