/** Why deliveries must not be older than what the processor has read: a run in which every
    delivery is at least as new as its round's own snapshot still credits one gain twice. */
module RoundStale {
  import opened Prelude
  import opened Round
  import opened RoundIntervals

  /** The weaker assumption: no delivery is older than the proof its round started from. */
  ghost predicate NotOlderThanRound(s: State, e: Event) {
    match e
    case Notified(v) => v >= s.base
    case Refresh(v) => v.Some? ==> v.value >= s.base
    case Attend(_, input) => input.Fetched? && input.version.Some? ==> input.version.value >= s.base
    case _ => true
  }

  ghost predicate NotOlderRun(config: Config, s: State, es: seq<Event>)
    requires Legal(config, s, es)
    decreases |es|
  {
    es == [] || (&& NotOlderRun(config, s, es[..|es| - 1])
                 && NotOlderThanRound(Exec(config, s, es[..|es| - 1]), es[|es| - 1]))
  }

  ghost predicate ReachesBy(config: Config, s: State, es: seq<Event>, t: State) {
    Legal(config, s, es) && NotOlderRun(config, s, es) && Exec(config, s, es) == t
  }

  /** Some run under the weaker assumption leads from `s` to `t`. */
  ghost predicate Reaches(config: Config, s: State, t: State) {
    exists es :: ReachesBy(config, s, es, t)
  }

  lemma Extend(config: Config, s: State, t: State, e: Event)
    requires Reaches(config, s, t) && Enabled(t, e) && NotOlderThanRound(t, e)
    ensures Reaches(config, s, Apply(config, t, e))
  {
    var es :| ReachesBy(config, s, es, t);
    assert (es + [e])[..|es|] == es;
    assert ReachesBy(config, s, es + [e], Apply(config, t, e));
  }

  /** Where a round stands once its transaction has landed. */
  ghost function LandedState(t: State, solution: Solution): State {
    t.(base := t.proof, floor := Newer(t.floor, t.proof), waiting := 0, paused := true,
       rounds := t.rounds + 1, main := Awaiting, effects := t.effects + [Paused],
       attenders := t.attenders[t.rounds + 1 := Attender(t.proof, solution, Polling(0))])
  }

  /** The proof is snapshotted, and its interval has elapsed. */
  lemma Open(config: Config, s: State, t: State)
    requires Reaches(config, s, t) && t.main.Idle? && t.proof < |t.chain|
    ensures Reaches(config, s, t.(base := t.proof, floor := Newer(t.floor, t.proof), main := AtPeek))
  {
    var clock := t.chain[t.proof].lastHashAt + BASE_INTERVAL + config.riskTime;
    var t1 := t.(base := t.proof, floor := Newer(t.floor, t.proof), main := AtCutoff);
    Extend(config, s, t, TakeSnapshot);
    assert Apply(config, t, TakeSnapshot) == t1;
    Extend(config, s, t1, CheckCutoff(clock));
    assert Apply(config, t1, CheckCutoff(clock)) == t1.(main := AtPeek);
  }

  /** There is a solution, and no active miner is waited for. */
  lemma Ready(config: Config, s: State, t: State, solution: Solution)
    requires Reaches(config, s, t) && t.main.AtPeek?
    ensures Reaches(config, s, t.(waiting := 0, main := AtPause(Some(solution))))
  {
    var view, t1 := View(Some(solution), map[]), t.(main := AtRecheck);
    Extend(config, s, t, Peek(view));
    assert Apply(config, t, Peek(view)) == t1;
    Extend(config, s, t1, Recheck(view, 0));
    assert Apply(config, t1, Recheck(view, 0)) == t1.(waiting := 0, main := AtPause(Some(solution)));
  }

  ghost function PausedAndLanded(t: State, solution: Solution): State {
    t.(paused := true, rounds := t.rounds + 1, main := Awaiting, effects := t.effects + [Paused],
       attenders := t.attenders[t.rounds + 1 := Attender(t.base, solution, Polling(0))])
  }

  lemma LandedIs(t: State, solution: Solution)
    ensures PausedAndLanded(t.(base := t.proof, floor := Newer(t.floor, t.proof), main := AtPause(Some(solution)),
                               waiting := 0), solution) == LandedState(t, solution)
  {
  }

  /** The round is paused for, and its transaction lands. */
  lemma PauseAndLand(config: Config, s: State, t: State, solution: Solution)
    requires Reaches(config, s, t) && t.main == AtPause(Some(solution))
    ensures Reaches(config, s, PausedAndLanded(t, solution))
  {
    var t1 := t.(paused := true, rounds := t.rounds + 1, main := AtAttempt(Some(solution), 0),
                 effects := t.effects + [Paused]);
    Extend(config, s, t, Pause);
    assert Apply(config, t, Pause) == t1;
    Extend(config, s, t1, Attempt(Landed));
    assert Apply(config, t1, Attempt(Landed))
        == PausedAndLanded(t, solution);
  }

  /** From the top of the main loop to a landed transaction. */
  lemma Land(config: Config, s: State, t: State, solution: Solution)
    requires Reaches(config, s, t) && t.main.Idle? && t.proof < |t.chain|
    ensures Reaches(config, s, LandedState(t, solution))
  {
    var t1 := t.(base := t.proof, floor := Newer(t.floor, t.proof), main := AtPeek);
    Open(config, s, t);
    Ready(config, s, t1, solution);
    var t2 := t.(base := t.proof, floor := Newer(t.floor, t.proof), main := AtPause(Some(solution)), waiting := 0);
    assert t2 == t1.(waiting := 0, main := AtPause(Some(solution)));
    PauseAndLand(config, s, t2, solution);
    LandedIs(t, solution);
  }

  /** `t` with its attender and the fields an attender may change replaced. */
  ghost function Put(t: State, m: Move, effects: seq<Effect>): State
    requires t.rounds in t.attenders
  {
    t.(attenders := WithStage(t, t.rounds, m.stage), proof := m.proof, paused := m.paused, floor := m.floor,
       effects := effects)
  }

  /** One lock section of the attender, in those terms. */
  lemma AttendOnce(config: Config, s: State, t: State, m: Move, effects: seq<Effect>, input: Input) returns (next: Move)
    requires t.rounds in t.attenders && Reaches(config, s, Put(t, m, effects))
    requires m.effect.None? && !input.Fetched?
    requires AttendEnabled(t.chain, m.proof, t.attenders[t.rounds].(stage := m.stage), input)
    ensures var n := MoveOf(t.chain, t.rounds, t.attenders[t.rounds].(stage := m.stage), m, input);
            && next == n.(effect := None)
            && Reaches(config, s, Put(t, next, Appended(effects, n.effect)))
  {
    var u := Put(t, m, effects);
    var n := AttenderMove(u, t.rounds, input);
    next := n.(effect := None);
    Extend(config, s, u, Attend(t.rounds, input));
    assert WithStage(u, t.rounds, next.stage) == WithStage(t, t.rounds, next.stage);
    assert Apply(config, u, Attend(t.rounds, input)) == Put(t, next, Appended(effects, n.effect));
  }

  /** An attender that has just polled a new challenge re-reads the shared proof and the contributions. */
  lemma Collect(config: Config, s: State, t: State) returns (m: Move)
    requires Reaches(config, s, t) && t.rounds in t.attenders
    requires t.attenders[t.rounds].stage == Polling(0) && t.attenders[t.rounds].base == t.base
    requires t.base < |t.chain| && t.proof < |t.chain| && t.floor <= t.proof
    requires t.chain[t.base].challenge != t.chain[t.proof].challenge
    ensures m == Move(Sending(0, t.proof, map[]), t.proof, t.paused, t.proof, None)
    ensures Reaches(config, s, Put(t, m, t.effects))
  {
    m := Move(Polling(0), t.proof, t.paused, t.floor, None);
    assert Put(t, m, t.effects) == t by {
      assert WithStage(t, t.rounds, Polling(0)) == t.attenders;
    }
    m := AttendOnce(config, s, t, m, t.effects, Nothing);
    m := AttendOnce(config, s, t, m, t.effects, Found(0));
    m := AttendOnce(config, s, t, m, t.effects, Nothing);
    m := AttendOnce(config, s, t, m, t.effects, Seen(View(None, map[])));
  }

  /** ... and sends its message about them. */
  lemma SendMessage(config: Config, s: State, t: State) returns (message: Message)
    requires Reaches(config, s, t) && t.main.Awaiting? && t.rounds in t.attenders
    requires t.attenders[t.rounds].stage == Polling(0) && t.attenders[t.rounds].base == t.base
    requires t.base < |t.chain| && t.proof < |t.chain| && t.floor <= t.proof
    requires t.chain[t.base].challenge != t.chain[t.proof].challenge
    ensures message.base == t.base && message.latest == t.proof
    ensures message.rewards == RewardOf(t.chain[t.proof], t.chain[t.base])
    ensures Reaches(config, s, Put(t, Move(WritingBack(t.proof), t.proof, t.paused, t.proof, None),
                                   t.effects + [Sent(message)]))
  {
    var m := Collect(config, s, t);
    message := NewMessage(t.chain, t.rounds, t.attenders[t.rounds].(stage := m.stage));
    m := AttendOnce(config, s, t, m, t.effects, Nothing);
  }

  /** The rest of a successful round: write-back, resets, signal, and back to the top. */
  lemma Complete(config: Config, s: State, t: State, m0: Move, effects: seq<Effect>)
    requires t.rounds in t.attenders && t.attenders[t.rounds].base < |t.chain| && t.main.Awaiting?
    requires m0.effect.None? && m0.stage.WritingBack? && m0.stage.latest < |t.chain| && m0.proof < |t.chain|
    requires Reaches(config, s, Put(t, m0, effects))
    ensures Reaches(config, s, Put(t, Move(Finished(true), m0.stage.latest, false, m0.floor, None),
                                   effects + [NonceCleared] + [EpochCleared] + [Resumed]).(main := Idle))
  {
    var m := AttendOnce(config, s, t, m0, effects, Nothing);
    m := AttendOnce(config, s, t, m, effects, Nothing);
    m := AttendOnce(config, s, t, m, effects + [NonceCleared], Nothing);
    m := AttendOnce(config, s, t, m, effects + [NonceCleared] + [EpochCleared], Nothing);
    m := AttendOnce(config, s, t, m, effects + [NonceCleared] + [EpochCleared] + [Resumed], Nothing);
    Extend(config, s, Put(t, m, effects + [NonceCleared] + [EpochCleared] + [Resumed]), AwaitAttender);
  }

  lemma RewardsOfSnoc(effects: seq<Effect>, x: Effect)
    ensures SentRewards(effects + [x]) == SentRewards(effects) + if x.Sent? then x.message.rewards else 0
  {
    assert (effects + [x])[..|effects|] == effects;
  }

  ghost function TwoRounds(start: seq<Effect>, m: Message, n: Message): seq<Effect> {
    start + [Paused] + [Sent(m)] + [NonceCleared] + [EpochCleared] + [Resumed] + [Paused] + [Sent(n)]
  }

  lemma TwoRoundsOverlap(start: seq<Effect>, m: Message, n: Message)
    requires m.latest > n.base
    ensures !Disjoint(TwoRounds(start, m, n))
  {
    var es := TwoRounds(start, m, n);
    var k := |start|;
    assert es[k + 1] == Sent(m) && es[k + 6] == Sent(n);
    assert es[k + 1].message.latest > es[k + 6].message.base;
  }

  lemma RewardsOfTwoRounds(start: seq<Effect>, m: Message, n: Message)
    ensures SentRewards(TwoRounds(start, m, n)) == SentRewards(start) + m.rewards + n.rewards
  {
    var e1 := start + [Paused];
    var e2 := e1 + [Sent(m)];
    var e5 := e2 + [NonceCleared] + [EpochCleared] + [Resumed];
    RewardsOfSnoc(start, Paused);
    RewardsOfSnoc(e1, Sent(m));
    RewardsOfSnoc(e2, NonceCleared);
    RewardsOfSnoc(e2 + [NonceCleared], EpochCleared);
    RewardsOfSnoc(e2 + [NonceCleared] + [EpochCleared], Resumed);
    RewardsOfSnoc(e5, Paused);
    RewardsOfSnoc(e5 + [Paused], Sent(n));
  }

  /** A round in which version `v` is announced, up to its success message. */
  ghost function SentState(t: State, solution: Solution, v: nat, m: Message): State {
    t.(base := t.proof, floor := v, waiting := 0, paused := true, rounds := t.rounds + 1, main := Awaiting, proof := v,
       attenders := t.attenders[t.rounds + 1 := Attender(t.proof, solution, WritingBack(v))],
       effects := t.effects + [Paused] + [Sent(m)])
  }

  lemma LandThenNotice(config: Config, s: State, t: State, solution: Solution, v: nat)
    requires Reaches(config, s, t) && t.main.Idle? && t.proof <= v < |t.chain|
    ensures Reaches(config, s, LandedState(t, solution).(proof := v))
  {
    Land(config, s, t, solution);
    var u := LandedState(t, solution);
    Extend(config, s, u, Notified(v));
    assert u.(proof := v) == Apply(config, u, Notified(v));
  }

  lemma SentStateIs(t: State, w: State, solution: Solution, v: nat, m: Message)
    requires w == LandedState(t, solution).(proof := v)
    ensures Put(w, Move(WritingBack(v), v, true, v, None), w.effects + [Sent(m)]) == SentState(t, solution, v, m)
  {
    assert WithStage(w, w.rounds, WritingBack(v)) == SentState(t, solution, v, m).attenders;
  }

  lemma RoundToMessage(config: Config, s: State, t: State, solution: Solution, v: nat) returns (m: Message)
    requires Reaches(config, s, t) && t.main.Idle? && t.floor <= v && t.proof <= v < |t.chain|
    requires t.chain[t.proof].challenge != t.chain[v].challenge
    ensures m.base == t.proof && m.latest == v && m.rewards == RewardOf(t.chain[v], t.chain[t.proof])
    ensures Reaches(config, s, SentState(t, solution, v, m))
  {
    LandThenNotice(config, s, t, solution, v);
    var w := LandedState(t, solution).(proof := v);
    m := SendMessage(config, s, w);
    SentStateIs(t, w, solution, v, m);
  }

  /** The same round completed: the websocket may then deliver a version of its own round. */
  lemma RoundThenNotice(config: Config, s: State, t: State, solution: Solution, v: nat, late: nat)
    returns (m: Message, u: State)
    requires Reaches(config, s, t) && t.main.Idle? && t.floor <= v && t.proof <= v < |t.chain|
    requires t.chain[t.proof].challenge != t.chain[v].challenge && t.proof <= late < |t.chain|
    ensures m.base == t.proof && m.latest == v && m.rewards == RewardOf(t.chain[v], t.chain[t.proof])
    ensures Reaches(config, s, u) && u.main.Idle? && u.proof == late && u.floor == v && u.chain == t.chain
    ensures u.effects == t.effects + [Paused] + [Sent(m)] + [NonceCleared] + [EpochCleared] + [Resumed]
  {
    m := RoundToMessage(config, s, t, solution, v);
    var w := SentState(t, solution, v, m);
    var move := Move(WritingBack(v), v, true, v, None);
    assert WithStage(w, w.rounds, WritingBack(v)) == w.attenders;
    assert Put(w, move, w.effects) == w;
    Complete(config, s, w, move, w.effects);
    var x := Put(w, Move(Finished(true), v, false, v, None),
                 w.effects + [NonceCleared] + [EpochCleared] + [Resumed]).(main := Idle);
    Extend(config, s, x, Notified(late));
    u := x.(proof := late);
  }

  lemma TwoGrowths(config: Config, a: Account, b: Account, c: Account)
    ensures Reaches(config, Initial(a), Initial(a).(chain := [a, b, c]))
  {
    var s0 := Initial(a);
    assert ReachesBy(config, s0, [], s0);
    Extend(config, s0, s0, ChainGrows(b));
    var s1 := s0.(chain := [a, b]);
    assert s1 == Apply(config, s0, ChainGrows(b));
    Extend(config, s0, s1, ChainGrows(c));
    assert s0.(chain := [a, b, c]) == Apply(config, s1, ChainGrows(c));
  }

  /** On any chain of three versions with different challenges, one late notification between
      two rounds credits the last gain twice. */
  lemma LateNoticeCreditsTwice(config: Config, solution: Solution, a: Account, b: Account, c: Account)
    returns (s: State)
    requires a.challenge != c.challenge && b.challenge != c.challenge
    requires a.balance <= b.balance <= c.balance < I64_LIMIT
    ensures Reaches(config, Initial(a), s) && s.chain == [a, b, c] && !Disjoint(s.effects)
    ensures SentRewards(s.effects) == (c.balance - a.balance) + (c.balance - b.balance)
  {
    TwoGrowths(config, a, b, c);
    var s0 := Initial(a).(chain := [a, b, c]);
    var m, t := RoundThenNotice(config, Initial(a), s0, solution, 2, 1);
    var n := RoundToMessage(config, Initial(a), t, solution, 2);
    s := SentState(t, solution, 2, n);
    RewardIsTheDifference(c, a);
    RewardIsTheDifference(c, b);
    assert s.effects == TwoRounds(s0.effects, m, n);
    RewardsOfTwoRounds(s0.effects, m, n);
    TwoRoundsOverlap(s0.effects, m, n);
  }
}
