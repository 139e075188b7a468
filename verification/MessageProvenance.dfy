/** Where a success message's parts come from: on every run, each is what its own round read, at the
    step of the round that reads it. */
module MessageProvenance {
  import opened Prelude
  import opened RewardSplit
  import opened Round
  import opened RoundProtocol

  // ----- What the main loop read

  ghost function Pauses(es: seq<Event>): nat {
    if es == [] then 0 else Pauses(es[..|es| - 1]) + if es[|es| - 1].Pause? then 1 else 0
  }

  /** What the second look at the epoch showed last. */
  ghost function LastRecheck(es: seq<Event>): Option<View> {
    if es == [] then None
    else if es[|es| - 1].Recheck? then Some(es[|es| - 1].view)
    else LastRecheck(es[..|es| - 1])
  }

  /** The version of the shared proof that the last snapshot copied. */
  ghost function LastSnapshot(config: Config, account: Account, es: seq<Event>): nat
    requires Legal(config, Initial(account), es)
  {
    if es == [] then 0
    else
      var rest := es[..|es| - 1];
      if es[|es| - 1].TakeSnapshot? then Exec(config, Initial(account), rest).proof
      else LastSnapshot(config, account, rest)
  }

  /** What a round starts from: the snapshot and the view of the epoch that were read last. */
  datatype Opening = Opening(base: nat, view: Option<View>)

  /** The opening of round `id`, the one of the `id`-th pause. */
  ghost function OpeningOf(config: Config, account: Account, es: seq<Event>, id: nat): Option<Opening>
    requires Legal(config, Initial(account), es)
  {
    if es == [] then None
    else
      var rest := es[..|es| - 1];
      if es[|es| - 1].Pause? && Pauses(es) == id
      then Some(Opening(LastSnapshot(config, account, rest), LastRecheck(rest)))
      else OpeningOf(config, account, rest, id)
  }

  ghost predicate OpenedBy(opening: Option<Opening>, base: nat, best: Option<Solution>) {
    && opening.Some? && opening.value.base == base
    && opening.value.view.Some? && opening.value.view.value.solution == best
  }

  // ----- What an attender read

  /** The only challenge row found by attender `id`. */
  ghost predicate FoundOnly(es: seq<Event>, id: nat, challengeId: int) {
    forall c :: Attend(id, Found(c)) in es <==> c == challengeId
  }

  ghost predicate FoundNone(es: seq<Event>, id: nat) {
    forall c :: Attend(id, Found(c)) !in es
  }

  /** The only contributions seen by attender `id`. */
  ghost predicate SeenOnly(es: seq<Event>, id: nat, contributions: Contributions) {
    && (exists view :: Attend(id, Seen(view)) in es)
    && forall view :: Attend(id, Seen(view)) in es ==> view.contributions == contributions
  }

  ghost predicate SeenNone(es: seq<Event>, id: nat) {
    forall view :: Attend(id, Seen(view)) !in es
  }

  /** Event `l` is the re-read of attender `id`, and finds version `latest` shared. */
  ghost predicate RereadAt(config: Config, account: Account, es: seq<Event>, id: nat, latest: nat, l: int) {
    && 0 <= l < |es| && es[l] == Attend(id, Nothing) && Legal(config, Initial(account), es[..l])
    && var s := Exec(config, Initial(account), es[..l]);
       id in s.attenders && s.attenders[id].stage.Rereading? && s.proof == latest
  }

  ghost predicate Reread(config: Config, account: Account, es: seq<Event>, id: nat, latest: nat) {
    exists l :: RereadAt(config, account, es, id, latest, l)
  }

  /** The stage holds what the attender has read so far. */
  ghost predicate StageFrom(config: Config, account: Account, es: seq<Event>, id: nat, stage: Stage) {
    match stage
    case Polling(_) => FoundNone(es, id) && SeenNone(es, id)
    case Asking(_) => FoundNone(es, id) && SeenNone(es, id)
    case Recording => FoundNone(es, id) && SeenNone(es, id)
    case Rereading(c) => FoundOnly(es, id, c) && SeenNone(es, id)
    case Collecting(c, latest) =>
      FoundOnly(es, id, c) && SeenNone(es, id) && Reread(config, account, es, id, latest)
    case Sending(c, latest, collected) =>
      FoundOnly(es, id, c) && SeenOnly(es, id, collected) && Reread(config, account, es, id, latest)
    case _ => true
  }

  ghost predicate AttenderFrom(config: Config, account: Account, es: seq<Event>, id: nat, a: Attender)
    requires Legal(config, Initial(account), es)
  {
    && OpenedBy(OpeningOf(config, account, es, id), a.base, Some(a.best))
    && StageFrom(config, account, es, id, a.stage)
  }

  ghost predicate AttendersFrom(config: Config, account: Account, es: seq<Event>, attenders: map<nat, Attender>)
    requires Legal(config, Initial(account), es)
  {
    && (forall id, input :: Attend(id, input) in es ==> id in attenders)
    && (forall id :: id in attenders ==> AttenderFrom(config, account, es, id, attenders[id]))
  }

  ghost predicate MainFrom(config: Config, account: Account, es: seq<Event>, s: State)
    requires Legal(config, Initial(account), es)
  {
    && Pauses(es) == s.rounds && LastSnapshot(config, account, es) == s.base
    && (s.main.AtPause? ==> LastRecheck(es).Some? && LastRecheck(es).value.solution == s.main.best)
    && (s.main.AtAttempt? ==> OpenedBy(OpeningOf(config, account, es, s.rounds), s.base, s.main.best))
  }

  /** What a success message owes its round: the challenge row its attender found, the contributions it
      saw, the proof it re-read; the snapshot and the best solution the round opened with; and of these
      the challenge, the reward and the total. */
  ghost predicate FromItsRound(config: Config, account: Account, es: seq<Event>, chain: seq<Account>, m: Message)
    requires Legal(config, Initial(account), es)
  {
    && FoundOnly(es, m.round, m.challengeId)
    && SeenOnly(es, m.round, m.contributions)
    && Reread(config, account, es, m.round, m.latest)
    && (exists best :: OpenedBy(OpeningOf(config, account, es, m.round), m.base, Some(best))
                       && best.nonce == m.bestNonce)
    && m.base < |chain| && m.latest < |chain| && m.challenge == chain[m.base].challenge
    && m.rewards == RewardOf(chain[m.latest], chain[m.base])
    && m.totalHashpower == TotalHashpower(m.contributions)
  }

  ghost predicate MessagesFrom(config: Config, account: Account, es: seq<Event>, s: State)
    requires Legal(config, Initial(account), es)
  {
    forall i :: 0 <= i < |s.effects| && s.effects[i].Sent? ==>
      FromItsRound(config, account, es, s.chain, s.effects[i].message)
  }

  // ----- One more event

  lemma RereadStays(config: Config, account: Account, es: seq<Event>, e: Event, id: nat, latest: nat)
    requires Reread(config, account, es, id, latest)
    ensures Reread(config, account, es + [e], id, latest)
  {
    var l :| RereadAt(config, account, es, id, latest, l);
    assert (es + [e])[..l] == es[..l];
    assert RereadAt(config, account, es + [e], id, latest, l);
  }

  /** Only a pause opens a round, and only the next one. */
  lemma OpeningSnoc(config: Config, account: Account, es: seq<Event>, e: Event, id: nat)
    requires Legal(config, Initial(account), es) && Legal(config, Initial(account), es + [e])
    ensures OpeningOf(config, account, es + [e], id) ==
            if e.Pause? && Pauses(es) + 1 == id
            then Some(Opening(LastSnapshot(config, account, es), LastRecheck(es)))
            else OpeningOf(config, account, es, id)
  {
    assert (es + [e])[..|es|] == es;
  }

  lemma StepKeepsMainFrom(config: Config, account: Account, es: seq<Event>, s: State, e: Event)
    requires Legal(config, Initial(account), es) && s == Exec(config, Initial(account), es) && Enabled(s, e)
    requires Legal(config, Initial(account), es + [e]) && MainFrom(config, account, es, s)
    ensures MainFrom(config, account, es + [e], Apply(config, s, e))
  {
    assert (es + [e])[..|es|] == es;
    OpeningSnoc(config, account, es, e, s.rounds);
    OpeningSnoc(config, account, es, e, s.rounds + 1);
  }

  /** An event of nobody else changes what attender `id` has read. */
  lemma OthersKeepStage(config: Config, account: Account, es: seq<Event>, e: Event, id: nat, stage: Stage)
    requires StageFrom(config, account, es, id, stage) && (e.Attend? ==> e.id != id || e.input.Nothing?)
    ensures StageFrom(config, account, es + [e], id, stage)
  {
    assert forall c :: Attend(id, Found(c)) in es + [e] <==> Attend(id, Found(c)) in es;
    assert forall view :: Attend(id, Seen(view)) in es + [e] <==> Attend(id, Seen(view)) in es;
    if stage.Collecting? || stage.Sending? {
      RereadStays(config, account, es, e, id, stage.latest);
    }
    if stage.Sending? {
      var view :| Attend(id, Seen(view)) in es;
      assert Attend(id, Seen(view)) in es + [e];
    }
  }

  /** An attender's own event leaves its stage holding what it read. */
  lemma OwnStepKeepsStage(config: Config, account: Account, es: seq<Event>, s: State, id: nat, input: Input)
    requires Legal(config, Initial(account), es) && s == Exec(config, Initial(account), es)
    requires Enabled(s, Attend(id, input)) && StageFrom(config, account, es, id, s.attenders[id].stage)
    ensures StageFrom(config, account, es + [Attend(id, input)], id, AttenderMove(s, id, input).stage)
  {
    var e, stage := Attend(id, input), s.attenders[id].stage;
    var longer := es + [e];
    assert forall c :: Attend(id, Found(c)) in longer <==> Attend(id, Found(c)) in es || input == Found(c);
    assert forall view :: Attend(id, Seen(view)) in longer <==> Attend(id, Seen(view)) in es || input == Seen(view);
    if stage.Rereading? {
      assert longer[..|es|] == es;
      assert RereadAt(config, account, longer, id, s.proof, |es|);
    } else if stage.Collecting? {
      RereadStays(config, account, es, e, id, stage.latest);
      assert Attend(id, Seen(input.view)) in longer;
    }
  }

  /** The attender of a landed attempt starts with nothing read. */
  lemma LandedStartsFrom(config: Config, account: Account, es: seq<Event>, s: State)
    requires Legal(config, Initial(account), es) && s == Exec(config, Initial(account), es)
    requires Enabled(s, Attempt(Landed)) && OneAttender(s)
    requires MainFrom(config, account, es, s) && AttendersFrom(config, account, es, s.attenders)
    requires Legal(config, Initial(account), es + [Attempt(Landed)])
    ensures AttenderFrom(config, account, es + [Attempt(Landed)], s.rounds,
                         Attender(s.base, s.main.best.value, Polling(0)))
  {
    OpeningSnoc(config, account, es, Attempt(Landed), s.rounds);
  }

  lemma AttenderStaysFrom(config: Config, account: Account, es: seq<Event>, s: State, e: Event, id: nat)
    requires Legal(config, Initial(account), es) && s == Exec(config, Initial(account), es) && Enabled(s, e)
    requires Legal(config, Initial(account), es + [e]) && id in s.attenders && id <= s.rounds == Pauses(es)
    requires AttenderFrom(config, account, es, id, s.attenders[id])
    requires e == Attempt(Landed) ==> id != s.rounds
    ensures id in Apply(config, s, e).attenders
    ensures AttenderFrom(config, account, es + [e], id, Apply(config, s, e).attenders[id])
  {
    OpeningSnoc(config, account, es, e, id);
    if e.Attend? && e.id == id {
      OwnStepKeepsStage(config, account, es, s, id, e.input);
    } else {
      OthersKeepStage(config, account, es, e, id, s.attenders[id].stage);
    }
  }

  lemma OwnersStay(config: Config, es: seq<Event>, s: State, e: Event)
    requires Enabled(s, e) && forall id, input :: Attend(id, input) in es ==> id in s.attenders
    ensures forall id, input :: Attend(id, input) in es + [e] ==> id in Apply(config, s, e).attenders
  {
    forall id, input | Attend(id, input) in es + [e] ensures id in Apply(config, s, e).attenders {
      assert Attend(id, input) in es || e == Attend(id, input);
    }
  }

  lemma StepKeepsAttendersFrom(config: Config, account: Account, es: seq<Event>, s: State, e: Event)
    requires Legal(config, Initial(account), es) && s == Exec(config, Initial(account), es) && Enabled(s, e)
    requires Legal(config, Initial(account), es + [e]) && OneAttender(s)
    requires MainFrom(config, account, es, s) && AttendersFrom(config, account, es, s.attenders)
    ensures AttendersFrom(config, account, es + [e], Apply(config, s, e).attenders)
  {
    var attenders := Apply(config, s, e).attenders;
    OwnersStay(config, es, s, e);
    forall id | id in attenders ensures AttenderFrom(config, account, es + [e], id, attenders[id]) {
      if id in s.attenders {
        AttenderStaysFrom(config, account, es, s, e, id);
      } else {
        LandedStartsFrom(config, account, es, s);
      }
    }
  }

  /** A message's sender has nothing more to read. */
  lemma MessageStays(config: Config, account: Account, es: seq<Event>, s: State, e: Event, m: Message)
    requires Legal(config, Initial(account), es) && s == Exec(config, Initial(account), es) && Enabled(s, e)
    requires Legal(config, Initial(account), es + [e]) && MainFrom(config, account, es, s)
    requires m.round in s.attenders && m.round <= s.rounds && AfterSend(s.attenders[m.round].stage)
    requires FromItsRound(config, account, es, s.chain, m)
    ensures FromItsRound(config, account, es + [e], Apply(config, s, e).chain, m)
  {
    var sending := Sending(m.challengeId, m.latest, m.contributions);
    OthersKeepStage(config, account, es, e, m.round, sending);
    OpeningSnoc(config, account, es, e, m.round);
    assert s.chain <= Apply(config, s, e).chain;
  }

  lemma SentNowFrom(config: Config, account: Account, es: seq<Event>, s: State, e: Event)
    requires Legal(config, Initial(account), es) && s == Exec(config, Initial(account), es) && Enabled(s, e)
    requires Legal(config, Initial(account), es + [e])
    requires Emitted(s, e).Some? && Emitted(s, e).value.Sent?
    requires AttenderFrom(config, account, es, e.id, s.attenders[e.id])
    ensures FromItsRound(config, account, es + [e], Apply(config, s, e).chain, Emitted(s, e).value.message)
  {
    OthersKeepStage(config, account, es, e, e.id, s.attenders[e.id].stage);
    OpeningSnoc(config, account, es, e, e.id);
  }

  lemma StepKeepsMessagesFrom(config: Config, account: Account, es: seq<Event>, s: State, e: Event)
    requires Legal(config, Initial(account), es) && s == Exec(config, Initial(account), es) && Enabled(s, e)
    requires Legal(config, Initial(account), es + [e]) && OneAttender(s) && SentOk(s)
    requires MainFrom(config, account, es, s) && AttendersFrom(config, account, es, s.attenders)
    requires MessagesFrom(config, account, es, s)
    ensures MessagesFrom(config, account, es + [e], Apply(config, s, e))
  {
    var effects, chain, effect := Apply(config, s, e).effects, Apply(config, s, e).chain, Emitted(s, e);
    assert effects == Appended(s.effects, effect);
    forall i | 0 <= i < |s.effects| && s.effects[i].Sent?
      ensures FromItsRound(config, account, es + [e], chain, s.effects[i].message)
    {
      var r := s.effects[i].message.round;
      assert r in s.attenders && AfterSend(s.attenders[r].stage);
      MessageStays(config, account, es, s, e, s.effects[i].message);
    }
    if effect.Some? && effect.value.Sent? {
      SentNowFrom(config, account, es, s, e);
    }
  }

  lemma {:induction false} RunKeepsFrom(config: Config, account: Account, es: seq<Event>)
    requires Legal(config, Initial(account), es)
    ensures var s := Exec(config, Initial(account), es);
            && MainFrom(config, account, es, s) && AttendersFrom(config, account, es, s.attenders)
            && MessagesFrom(config, account, es, s)
    decreases |es|
  {
    if es != [] {
      var rest, e := es[..|es| - 1], es[|es| - 1];
      var s := Exec(config, Initial(account), rest);
      RunKeepsFrom(config, account, rest);
      RunKeepsProtocol(config, account, rest);
      OneMessagePerRound(config, account, rest);
      assert es == rest + [e];
      StepKeepsMainFrom(config, account, rest, s, e);
      StepKeepsAttendersFrom(config, account, rest, s, e);
      StepKeepsMessagesFrom(config, account, rest, s, e);
    }
  }

  /** On every run, whatever interleaves: each success message carries the id of the one challenge row its
      round's attender found and the contributions that attender saw; its reward is the difference of the
      proof it re-read and of the snapshot the round opened with, and its nonce that of the solution found
      at the second look before the round's pause. */
  lemma MessagesComeFromTheirRounds(config: Config, account: Account, es: seq<Event>, i: nat)
    requires Legal(config, Initial(account), es)
    requires i < |Exec(config, Initial(account), es).effects| && Exec(config, Initial(account), es).effects[i].Sent?
    ensures var s := Exec(config, Initial(account), es);
            && FromItsRound(config, account, es, s.chain, s.effects[i].message)
            && Attend(s.effects[i].message.round, Found(s.effects[i].message.challengeId)) in es
  {
    RunKeepsFrom(config, account, es);
  }
}
