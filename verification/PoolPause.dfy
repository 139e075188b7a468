/** When no missions are dispatched: while the flag is set, and once a solution stands past the cutoff. */
module PoolPause {
  import opened Prelude
  import opened Hashpower
  import opened Pool
  import R = Round
  import I = Intake
  import D = Dispatch

  /** The loop has not read the flag yet. */
  ghost predicate BeforeFlag(loop: D.Loop) {
    loop.Idle? || loop.Deciding?
  }

  /** The loop has not read the cutoff and the best solution yet. */
  ghost predicate BeforeCutoff(loop: D.Loop) {
    BeforeFlag(loop) || loop.Timing?
  }

  /** The steps of the segment that other components observe. */
  ghost function EffectsAlong(setup: Setup, s: State, es: seq<Event>): seq<R.Effect>
    requires setup.oracle.minDifficulty >= MIN_DIFF && Legal(setup, s, es)
  {
    if es == [] then []
    else
      var effect := EffectOf(Exec(setup, s, es[..|es| - 1]), es[|es| - 1]);
      R.Appended(EffectsAlong(setup, s, es[..|es| - 1]), effect)
  }

  lemma FlagStays(setup: Setup, s: State, e: Event)
    requires setup.oracle.minDifficulty >= MIN_DIFF && Enabled(setup, s, e)
    requires EffectOf(s, e) != Some(R.Resumed)
    ensures s.round.paused ==> Apply(setup, s, e).round.paused
  {
  }

  lemma PausedStep(setup: Setup, s: State, e: Event)
    requires setup.oracle.minDifficulty >= MIN_DIFF && Enabled(setup, s, e)
    requires s.round.paused && BeforeFlag(s.dispatch.loop)
    ensures var d := Apply(setup, s, e).dispatch; BeforeFlag(d.loop) && d.missions == s.dispatch.missions
  {
    DispatchPart(setup, s, e);
  }

  /** While the flag is set no loop that had not read it before allocates a mission, whatever else
      happens: allocations can only finish a snapshot whose flag was read before the pause. */
  lemma {:induction false} NoMissionsWhilePaused(setup: Setup, s: State, es: seq<Event>)
    requires setup.oracle.minDifficulty >= MIN_DIFF && Legal(setup, s, es)
    requires s.round.paused && BeforeFlag(s.dispatch.loop) && R.Resumed !in EffectsAlong(setup, s, es)
    ensures var t := Exec(setup, s, es);
            t.round.paused && BeforeFlag(t.dispatch.loop) && t.dispatch.missions == s.dispatch.missions
    decreases |es|
  {
    if es != [] {
      var rest, e := es[..|es| - 1], es[|es| - 1];
      var t := Exec(setup, s, rest);
      assert forall x :: x in EffectsAlong(setup, s, rest) ==> x in EffectsAlong(setup, s, es);
      assert EffectOf(t, e).Some? ==> EffectOf(t, e).value in EffectsAlong(setup, s, es);
      NoMissionsWhilePaused(setup, s, rest);
      FlagStays(setup, t, e);
      PausedStep(setup, t, e);
    }
  }

  lemma SolutionStays(setup: Setup, s: State, e: Event)
    requires setup.oracle.minDifficulty >= MIN_DIFF && Enabled(setup, s, e)
    requires s.intake.epoch.solution.Some? && EffectOf(s, e) != Some(R.EpochCleared)
    ensures Apply(setup, s, e).intake.epoch.solution.Some?
  {
    IntakePart(setup, s, e);
  }

  lemma SolvedStep(setup: Setup, s: State, e: Event)
    requires setup.oracle.minDifficulty >= MIN_DIFF && Enabled(setup, s, e)
    requires s.intake.epoch.solution.Some? && BeforeCutoff(s.dispatch.loop)
    requires e.OfDispatch? && e.dispatch.Decide? ==> e.dispatch.cutoff <= 0
    ensures var d := Apply(setup, s, e).dispatch; BeforeCutoff(d.loop) && d.missions == s.dispatch.missions
  {
    DispatchPart(setup, s, e);
  }

  /** The cutoff has passed at every reading of the segment. */
  ghost predicate CutoffPassed(es: seq<Event>) {
    forall i :: 0 <= i < |es| && es[i].OfDispatch? && es[i].dispatch.Decide? ==> es[i].dispatch.cutoff <= 0
  }

  /** Once the epoch has a solution and the cutoff has passed, no mission is allocated until the epoch
      is cleared, even if dispatch is not paused. */
  lemma {:induction false} NoMissionsOnceSolved(setup: Setup, s: State, es: seq<Event>)
    requires setup.oracle.minDifficulty >= MIN_DIFF && Legal(setup, s, es) && CutoffPassed(es)
    requires s.intake.epoch.solution.Some? && BeforeCutoff(s.dispatch.loop)
    requires R.EpochCleared !in EffectsAlong(setup, s, es)
    ensures var t := Exec(setup, s, es);
            && t.intake.epoch.solution.Some? && BeforeCutoff(t.dispatch.loop)
            && t.dispatch.missions == s.dispatch.missions
    decreases |es|
  {
    if es != [] {
      var rest, e := es[..|es| - 1], es[|es| - 1];
      var t := Exec(setup, s, rest);
      assert forall x :: x in EffectsAlong(setup, s, rest) ==> x in EffectsAlong(setup, s, es);
      assert EffectOf(t, e).Some? ==> EffectOf(t, e).value in EffectsAlong(setup, s, es);
      NoMissionsOnceSolved(setup, s, rest);
      SolutionStays(setup, t, e);
      SolvedStep(setup, t, e);
    }
  }
}
