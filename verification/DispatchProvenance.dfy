/** Which mission goes to whom: on every run, assignments follow the lookups, each names the mission
    allocated for the very address that was looked up, and no mission is assigned twice. */
module DispatchProvenance {
  import opened Prelude
  import opened Dispatch

  /** The missions allocated along a run. */
  ghost function Allocations(es: seq<Event>): nat {
    if es == [] then 0
    else Allocations(es[..|es| - 1]) + if es[|es| - 1].Allocate? then 1 else 0
  }

  /** One assignment for each lookup that found a socket, of the mission allocated last before it. */
  ghost function AssignmentsOf(es: seq<Event>): seq<Assignment>
    requires Legal(INITIAL, es)
  {
    if es == [] then []
    else
      var rest, e := es[..|es| - 1], es[|es| - 1];
      if e.LookUp? && e.pubkey.Some? && Allocations(rest) > 0
      then AssignmentsOf(rest) + [Assignment(e.pubkey.value, e.addr, Allocations(rest) - 1)]
      else AssignmentsOf(rest)
  }

  /** Each assignment is of a mission of its own address, and later assignments are of later missions;
      while a client is being looked up, the last mission is its own and not yet assigned. */
  ghost predicate OwnMissions(s: State) {
    && (forall k :: 0 <= k < |s.assignments| ==>
          s.assignments[k].mission < |s.missions|
          && s.missions[s.assignments[k].mission].addr == s.assignments[k].addr)
    && (forall k, l :: 0 <= k < l < |s.assignments| ==> s.assignments[k].mission < s.assignments[l].mission)
    && (s.loop.LookingUp? ==>
          && s.loop.clients != [] && s.missions != []
          && s.missions[|s.missions| - 1].addr == s.loop.clients[0]
          && forall k :: 0 <= k < |s.assignments| ==> s.assignments[k].mission < |s.missions| - 1)
  }

  lemma StepKeepsOwnMissions(s: State, e: Event)
    requires Enabled(s, e) && OwnMissions(s)
    ensures OwnMissions(Apply(s, e))
  {
  }

  /** How one event extends the lists. */
  lemma AssignmentsSnoc(es: seq<Event>, e: Event, s: State)
    requires Legal(INITIAL, es) && Enabled(s, e) && Legal(INITIAL, es + [e])
    requires s.assignments == AssignmentsOf(es) && |s.missions| == Allocations(es)
    ensures Apply(s, e).assignments == AssignmentsOf(es + [e]) && |Apply(s, e).missions| == Allocations(es + [e])
  {
    assert (es + [e])[..|es|] == es;
  }

  /** On every run, whatever interleaves: the assignments are exactly those of the run's successful
      lookups, in order; each names the mission allocated last before its lookup, which is one of the
      address looked up; and no mission is assigned twice. */
  lemma {:induction false} AssignmentsFollowLookups(es: seq<Event>)
    requires Legal(INITIAL, es)
    ensures var s := Exec(INITIAL, es);
            && s.assignments == AssignmentsOf(es) && |s.missions| == Allocations(es)
            && OwnMissions(s)
    decreases |es|
  {
    if es != [] {
      var rest, e := es[..|es| - 1], es[|es| - 1];
      AssignmentsFollowLookups(rest);
      assert es == rest + [e];
      AssignmentsSnoc(rest, e, Exec(INITIAL, rest));
      StepKeepsOwnMissions(Exec(INITIAL, rest), e);
    }
  }

  /** Every range in the map is that of the mission allocated for the address whose lookup gave the
      pubkey it is filed under. */
  lemma FiledRangeIsTheClients(es: seq<Event>, p: Pubkey)
    requires Legal(INITIAL, es) && p in Exec(INITIAL, es).ranges
    ensures var s := Exec(INITIAL, es);
            && p in s.sources && s.sources[p] < |AssignmentsOf(es)|
            && var a := AssignmentsOf(es)[s.sources[p]];
               && a.pubkey == p && a.mission < |s.missions|
               && s.missions[a.mission].addr == a.addr && s.missions[a.mission].range == s.ranges[p]
  {
    AssignmentsFollowLookups(es);
    RangeMapProvenance(es);
    var s := Exec(INITIAL, es);
    assert IssuedTo(s, p, s.ranges[p], s.sources[p]);
  }
}
