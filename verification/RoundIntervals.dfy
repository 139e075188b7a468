/** The proof intervals of success messages: no on-chain gain is credited twice. */
module RoundIntervals {
  import opened Prelude
  import opened Round
  import opened RoundProtocol

  /** The on-chain balance is nondecreasing and fits a signed 64-bit integer. */
  ghost predicate ChainOk(chain: seq<Account>) {
    && chain != []
    && (forall i :: 0 <= i < |chain| ==> chain[i].balance < I64_LIMIT)
    && (forall i, j :: 0 <= i <= j < |chain| ==> chain[i].balance <= chain[j].balance)
  }

  /** The environment: balances never fall, and no delivered proof is older than the newest one
      the submission processor has itself read. */
  ghost predicate Assumed(s: State, e: Event) {
    match e
    case ChainGrows(a) => s.chain != [] && s.chain[|s.chain| - 1].balance <= a.balance < I64_LIMIT
    case Notified(v) => v >= s.floor
    case Refresh(v) => v.Some? ==> v.value >= s.floor
    case Attend(_, input) => input.Fetched? && input.version.Some? ==> input.version.value >= s.floor
    case _ => true
  }

  ghost predicate AssumedRun(config: Config, s: State, es: seq<Event>)
    requires Legal(config, s, es)
    decreases |es|
  {
    es == [] || (AssumedRun(config, s, es[..|es| - 1]) && Assumed(Exec(config, s, es[..|es| - 1]), es[|es| - 1]))
  }

  /** A message credits exactly the balance growth over its interval. */
  ghost predicate Exact(chain: seq<Account>, m: Message) {
    && m.base <= m.latest < |chain|
    && m.rewards == chain[m.latest].balance - chain[m.base].balance
    && 0 <= m.rewards < I64_LIMIT
  }

  ghost predicate AllExact(chain: seq<Account>, effects: seq<Effect>) {
    forall i :: 0 <= i < |effects| && effects[i].Sent? ==> Exact(chain, effects[i].message)
  }

  /** Each interval starts at or after the end of every earlier one. */
  ghost predicate Disjoint(effects: seq<Effect>) {
    forall i, j :: 0 <= i < j < |effects| && effects[i].Sent? && effects[j].Sent? ==>
      effects[i].message.latest <= effects[j].message.base
  }

  ghost predicate SentUpTo(effects: seq<Effect>, bound: nat) {
    forall i :: 0 <= i < |effects| && effects[i].Sent? ==> effects[i].message.latest <= bound
  }

  /** The part of a round in which nothing was sent yet. */
  ghost predicate BeforeSend(s: State) {
    || s.main.AtCutoff? || s.main.AtPeek? || s.main.AtRecheck? || s.main.AtPause? || s.main.AtAttempt?
    || (s.main.Awaiting? && !AfterSend(CurrentStage(s)))
  }

  ghost predicate StageFresh(s: State, a: Attender) {
    match a.stage
    case RpcStore(found) => found >= s.floor
    case Collecting(_, latest) => latest == s.floor
    case Sending(_, latest, _) => latest == s.floor
    case WritingBack(latest) => latest == s.floor
    case _ => true
  }

  /** The shared proof and all proofs in flight are as new as what the processor has read. */
  ghost predicate FreshOk(s: State) {
    && s.base <= s.floor <= s.proof < |s.chain|
    && (forall id :: id in s.attenders ==> StageFresh(s, s.attenders[id]))
  }

  ghost predicate CreditedOk(s: State) {
    && AllExact(s.chain, s.effects)
    && Disjoint(s.effects)
    && SentUpTo(s.effects, s.floor)
    && (BeforeSend(s) ==> SentUpTo(s.effects, s.base))
  }

  ghost predicate Intervals(s: State) {
    ChainOk(s.chain) && FreshOk(s) && CreditedOk(s)
  }

  lemma RewardIsTheDifference(latest: Account, base: Account)
    requires latest.balance < I64_LIMIT && base.balance < I64_LIMIT
    ensures RewardOf(latest, base) == latest.balance - base.balance
    ensures RewardOf(latest, base) >= 0 <==> latest.balance >= base.balance
  {
  }

  lemma SendKeepsIntervals(s: State, effects: seq<Effect>, m: Message)
    requires ChainOk(s.chain) && AllExact(s.chain, effects) && Disjoint(effects) && SentUpTo(effects, s.base)
    requires m.base == s.base <= m.latest < |s.chain|
    requires m.rewards == RewardOf(s.chain[m.latest], s.chain[m.base])
    ensures AllExact(s.chain, effects + [Sent(m)]) && Disjoint(effects + [Sent(m)])
    ensures SentUpTo(effects + [Sent(m)], m.latest)
  {
    RewardIsTheDifference(s.chain[m.latest], s.chain[m.base]);
  }

  lemma StepKeepsChain(config: Config, s: State, e: Event)
    requires Enabled(s, e) && Assumed(s, e) && ChainOk(s.chain)
    ensures ChainOk(Apply(config, s, e).chain) && s.chain <= Apply(config, s, e).chain
  {
    var s' := Apply(config, s, e);
    assert e.ChainGrows? || s'.chain == s.chain;
  }

  lemma AttenderKeepsFresh(config: Config, s: State, e: Event)
    requires Enabled(s, e) && (e.Attend? || e.Crash?)
    requires Assumed(s, e) && OneAttender(s) && Bounded(s) && FreshOk(s)
    ensures FreshOk(Apply(config, s, e)) && s.floor <= Apply(config, s, e).floor
  {
    var s' := Apply(config, s, e);
    assert Active(s, e.id) && AttenderOk(s, s.attenders[e.id]);
    assert StageFresh(s, s.attenders[e.id]);
    forall id | id in s'.attenders ensures StageFresh(s', s'.attenders[id]) {
      assert StageFresh(s, s.attenders[id]);
      assert Active(s, id) || s.attenders[id].stage.Finished?;
    }
  }

  lemma StepKeepsFresh(config: Config, s: State, e: Event)
    requires Enabled(s, e) && Assumed(s, e) && OneAttender(s) && Bounded(s) && FreshOk(s)
    ensures FreshOk(Apply(config, s, e)) && s.floor <= Apply(config, s, e).floor
  {
    if e.Attend? || e.Crash? {
      AttenderKeepsFresh(config, s, e);
    } else {
      var s' := Apply(config, s, e);
      forall id | id in s'.attenders ensures StageFresh(s', s'.attenders[id]) {
        if id in s.attenders {
          assert StageFresh(s, s.attenders[id]);
          assert Active(s, id) || s.attenders[id].stage.Finished?;
        }
      }
    }
  }

  lemma StaysDisjoint(chain: seq<Account>, chain': seq<Account>, effects: seq<Effect>, effect: Option<Effect>)
    requires AllExact(chain, effects) && chain <= chain'
    requires Disjoint(effects) && (effect.Some? ==> !effect.value.Sent?)
    ensures AllExact(chain', Appended(effects, effect)) && Disjoint(Appended(effects, effect))
    ensures forall b: nat :: SentUpTo(effects, b) ==> SentUpTo(Appended(effects, effect), b)
  {
    forall i | 0 <= i < |effects| && effects[i].Sent? ensures Exact(chain', effects[i].message) {
      assert Exact(chain, effects[i].message);
    }
  }

  /** Outside the send itself the credited intervals only have to survive. */
  lemma QuietStepKeepsCredited(config: Config, s: State, e: Event)
    requires Enabled(s, e) && OneAttender(s) && CreditedOk(s)
    requires s.chain <= Apply(config, s, e).chain && FreshOk(s)
    requires s.floor <= Apply(config, s, e).floor
    requires Emitted(s, e).Some? ==> !Emitted(s, e).value.Sent?
    ensures CreditedOk(Apply(config, s, e))
  {
    var s' := Apply(config, s, e);
    StaysDisjoint(s.chain, s'.chain, s.effects, Emitted(s, e));
    assert SentUpTo(s'.effects, s.floor);
    if e.Attend? || e.Crash? {
      assert Active(s, e.id);
    }
    if BeforeSend(s') {
      assert e.TakeSnapshot? || (BeforeSend(s) && s'.base == s.base);
    }
  }

  lemma SendKeepsCredited(config: Config, s: State, id: nat, input: Input)
    requires Enabled(s, Attend(id, input)) && OneAttender(s) && Bounded(s) && Intervals(s)
    requires s.attenders[id].stage.Sending?
    ensures CreditedOk(Apply(config, s, Attend(id, input)))
  {
    assert Active(s, id);
    assert StageFresh(s, s.attenders[id]);
    SendKeepsIntervals(s, s.effects, NewMessage(s.chain, id, s.attenders[id]));
  }

  lemma StepKeepsIntervals(config: Config, s: State, e: Event)
    requires Enabled(s, e) && Assumed(s, e) && OneAttender(s) && Bounded(s) && Intervals(s)
    ensures Intervals(Apply(config, s, e))
  {
    StepKeepsChain(config, s, e);
    StepKeepsFresh(config, s, e);
    if e.Attend? && s.attenders[e.id].stage.Sending? {
      SendKeepsCredited(config, s, e.id, e.input);
    } else {
      QuietStepKeepsCredited(config, s, e);
    }
  }

  lemma {:induction false} RunKeepsIntervals(config: Config, account: Account, es: seq<Event>)
    requires account.balance < I64_LIMIT
    requires Legal(config, Initial(account), es) && AssumedRun(config, Initial(account), es)
    ensures Intervals(Exec(config, Initial(account), es))
    decreases |es|
  {
    if es != [] {
      var rest := es[..|es| - 1];
      RunKeepsIntervals(config, account, rest);
      RunKeepsProtocol(config, account, rest);
      StepKeepsIntervals(config, Exec(config, Initial(account), rest), es[|es| - 1]);
    }
  }

  /** The rewards of all messages sent. */
  ghost function SentRewards(effects: seq<Effect>): int {
    if effects == [] then 0
    else SentRewards(effects[..|effects| - 1])
         + if effects[|effects| - 1].Sent? then effects[|effects| - 1].message.rewards else 0
  }

  lemma {:induction false} DisjointIntervalsTelescope(chain: seq<Account>, effects: seq<Effect>, bound: nat)
    requires ChainOk(chain) && AllExact(chain, effects) && Disjoint(effects)
    requires SentUpTo(effects, bound) && bound < |chain|
    ensures 0 <= SentRewards(effects) <= chain[bound].balance - chain[0].balance
  {
    if effects != [] {
      var n := |effects| - 1;
      var rest := effects[..n];
      if effects[n].Sent? {
        var m := effects[n].message;
        assert Exact(chain, m);
        forall i | 0 <= i < n && rest[i].Sent? ensures rest[i].message.latest <= m.base {
          assert effects[i].message.latest <= m.base;
        }
        DisjointIntervalsTelescope(chain, rest, m.base);
      } else {
        DisjointIntervalsTelescope(chain, rest, bound);
      }
    }
  }

  /** Under every interleaving, the write-back of an older proof included: the intervals of
      success messages do not overlap, each message credits exactly the growth over its interval,
      and all messages together credit no more than the balance gained since the start. */
  lemma NoGainCreditedTwice(config: Config, account: Account, es: seq<Event>)
    requires account.balance < I64_LIMIT
    requires Legal(config, Initial(account), es) && AssumedRun(config, Initial(account), es)
    ensures var s := Exec(config, Initial(account), es);
            && s.chain != []
            && AllExact(s.chain, s.effects) && Disjoint(s.effects)
            && 0 <= SentRewards(s.effects) <= s.chain[|s.chain| - 1].balance - s.chain[0].balance
  {
    RunKeepsIntervals(config, account, es);
    var s := Exec(config, Initial(account), es);
    DisjointIntervalsTelescope(s.chain, s.effects, |s.chain| - 1);
  }

  // ----- Exactly when a round's credit overlaps an earlier one

  lemma AppendOverlapsIff(effects: seq<Effect>, m: Message)
    requires Disjoint(effects)
    ensures Disjoint(effects + [Sent(m)]) <==> SentUpTo(effects, m.base)
  {
    var longer := effects + [Sent(m)];
    if Disjoint(longer) {
      forall i | 0 <= i < |effects| && effects[i].Sent? ensures effects[i].message.latest <= m.base {
        assert longer[i] == effects[i] && longer[|effects|] == Sent(m);
      }
    }
  }

  lemma StepSendsNothing(config: Config, s: State, e: Event, bound: nat)
    requires Enabled(s, e) && OneAttender(s) && e != TakeSnapshot
    requires BeforeSend(Apply(config, s, e))
    ensures BeforeSend(s) && Apply(config, s, e).base == s.base
    ensures SentUpTo(Apply(config, s, e).effects, bound) <==> SentUpTo(s.effects, bound)
  {
    if e.Attend? || e.Crash? {
      assert Active(s, e.id);
    }
    var s' := Apply(config, s, e);
    assert Emitted(s, e).None? || !Emitted(s, e).value.Sent?;
    assert forall i :: 0 <= i < |s.effects| ==> s'.effects[i] == s.effects[i];
  }

  /** From a snapshot to the send of its round nothing else is credited. */
  lemma {:induction false} NothingSentSince(config: Config, s: State, es: seq<Event>, bound: nat)
    requires Legal(config, s, es) && Bounded(s) && OneAttender(s) && TakeSnapshot !in es
    requires BeforeSend(Exec(config, s, es))
    ensures Exec(config, s, es).base == s.base
    ensures SentUpTo(Exec(config, s, es).effects, bound) <==> SentUpTo(s.effects, bound)
    decreases |es|
  {
    if es != [] {
      var rest, e := es[..|es| - 1], es[|es| - 1];
      assert e in es;
      SegmentKeepsProtocol(config, s, rest);
      StepSendsNothing(config, Exec(config, s, rest), e, bound);
      NothingSentSince(config, s, rest, bound);
    }
  }

  /** With nothing assumed of the deliveries: a round's message overlaps an earlier one exactly when
      the snapshot that opened the round found a shared proof older than what was already credited. */
  lemma OverlapIffStaleSnapshot(config: Config, account: Account, before: seq<Event>, after: seq<Event>, id: nat)
    requires Legal(config, Initial(account), before) && TakeSnapshot !in after
    requires var s := Exec(config, Initial(account), before);
             Enabled(s, TakeSnapshot) && Legal(config, Apply(config, s, TakeSnapshot), after)
    requires var t := Exec(config, Apply(config, Exec(config, Initial(account), before), TakeSnapshot), after);
             && Enabled(t, Attend(id, Nothing)) && t.attenders[id].stage.Sending? && Disjoint(t.effects)
    ensures var s := Exec(config, Initial(account), before);
            var t := Exec(config, Apply(config, s, TakeSnapshot), after);
            Disjoint(Apply(config, t, Attend(id, Nothing)).effects) <==> SentUpTo(s.effects, s.proof)
  {
    var s := Exec(config, Initial(account), before);
    var s1 := Apply(config, s, TakeSnapshot);
    var t := Exec(config, s1, after);
    RunKeepsProtocol(config, account, before);
    StepKeepsBounded(config, s, TakeSnapshot);
    StepKeepsOneAttender(config, s, TakeSnapshot);
    SegmentKeepsProtocol(config, s1, after);
    assert Active(t, id);
    NothingSentSince(config, s1, after, s.proof);
    AppendOverlapsIff(t.effects, NewMessage(t.chain, id, t.attenders[id]));
  }
}
