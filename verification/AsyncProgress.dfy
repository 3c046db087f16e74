/**
 The barrier opens: in every endless run in which each unit keeps getting events that find the
 outside world cooperating, the demoted application ends up initialised again, with every unit
 following the promoted cluster.
 */
module AsyncProgress {
  import opened Common
  import opened AsyncBarrier
  import opened AsyncEvents

  ghost predicate Settled(s: Standby) {
    AllFollowing(s) && s.initialised
  }

  ghost function NotOut(s: Standby): set<Unit> {
    set u | u in s.units && !Out(s, u)
  }

  ghost function NotFollowing(s: Standby): set<Unit> {
    set u | u in s.units && !Following(s, u)
  }

  predicate LeaderStarted(s: Standby) {
    s.leader in s.units && s.units[s.leader].started
  }

  ghost function Distance(s: Standby): nat {
    |NotOut(s)| + |NotFollowing(s)| + (if LeaderStarted(s) then 0 else 1) + (if Settled(s) then 0 else 1)
  }

  // The units whose event the application is waiting for.
  ghost function Awaited(s: Standby): set<Unit> {
    if NotOut(s) != {} then NotOut(s)
    else if !LeaderStarted(s) || s.leader in NotFollowing(s) || NotFollowing(s) == {} then {s.leader}
    else NotFollowing(s)
  }

  lemma AwaitedAreUnits(s: Standby)
    requires s.leader in s.units
    ensures Awaited(s) <= s.units.Keys
  {
  }

  // An event that finds everything it needs: the old database stops, the secret is there, a
  // standby leader that was started is seen, and the database starts.
  predicate Cooperates(s: Standby, env: Env) {
    env.dataExists && env.stops && env.configures && (LeaderStarted(s) ==> env.leaderSeen) &&
    env.start.Started? && env.memberStarted && env.raises.None?
  }

  ghost predicate Advances(s: Standby, t: Standby) {
    && t.leader == s.leader && t.epoch == s.epoch && t.units.Keys == s.units.Keys
    && NotOut(t) <= NotOut(s) && NotFollowing(t) <= NotFollowing(s)
    && (LeaderStarted(s) ==> LeaderStarted(t)) && (Settled(s) ==> Settled(t))
  }

  lemma OnlyUnitAdvances(s: Standby, t: Standby, u: Unit)
    requires s.leader in s.units && u in s.units && OnlyUnit(s, t, u)
    ensures Advances(s, t)
  {
  }

  lemma NextAdvances(s: Standby, step: Step)
    requires s.leader in s.units && Possible(s, step)
    ensures Advances(s, Next(s, step))
  {
  }

  lemma AdvancingIsNotFarther(s: Standby, t: Standby)
    requires Advances(s, t)
    ensures Distance(t) <= Distance(s)
    ensures Distance(t) == Distance(s) ==> Awaited(t) == Awaited(s)
  {
    Subset(NotOut(t), NotOut(s));
    Subset(NotFollowing(t), NotFollowing(s));
  }

  // A cooperating event stops its unit.
  lemma EventStops(s: Standby, u: Unit, env: Env)
    requires s.leader in s.units && u in s.units && !Out(s, u) && Cooperates(s, env)
    ensures Out(RelationChanged(s, u, env), u)
  {
  }

  // Once every unit is out, a cooperating event of the leader, or of any unit after the leader
  // has started, starts the database and reports it.
  lemma EventStarts(s: Standby, u: Unit, env: Env)
    requires s.leader in s.units && u in s.units && AllOut(s) && Cooperates(s, env)
    requires u == s.leader || (LeaderStarted(s) && !Following(s, u))
    ensures var t := RelationChanged(s, u, env);
      Following(t, u) && t.units[u].started
  {
    var s3 := PublishStopMarker(s, u);
    assert AllOut(s3);
    var s4 := WaitForStandbyLeader(s3, u, env).0;
    assert Climb(s, u, env) == (s4, Starting);
    var w := With(s4, u, s4.units[u].(started := true));
  }

  lemma AwaitedEventHelps(s: Standby, u: Unit, env: Env)
    requires s.leader in s.units && Possible(s, Changed(u, env)) && u in Awaited(s) && Cooperates(s, env)
    ensures var t := RelationChanged(s, u, env); Settled(t) || Distance(t) < Distance(s)
  {
    var t := RelationChanged(s, u, env);
    OnlyUnitAdvances(s, t, u);
    Subset(NotOut(t), NotOut(s));
    Subset(NotFollowing(t), NotFollowing(s));
    if NotOut(s) != {} {
      EventStops(s, u, env);
      assert u !in NotOut(t);
    } else {
      assert forall v :: v in s.units ==> v !in NotOut(s);
      EventStarts(s, u, env);
      assert u !in NotFollowing(t);
    }
  }

  // ---- Endless runs -----------------------------------------------------------------------

  ghost predicate Follows(trace: nat -> Standby, steps: nat -> Step, i: nat) {
    Possible(trace(i), steps(i)) && trace(i + 1) == Next(trace(i), steps(i))
  }

  ghost predicate IsRun(trace: nat -> Standby, steps: nat -> Step) {
    forall i: nat :: Follows(trace, steps, i)
  }

  ghost predicate CooperatesAt(trace: nat -> Standby, steps: nat -> Step, u: Unit, i: nat) {
    steps(i).Changed? && steps(i).u == u && Cooperates(trace(i), steps(i).env)
  }

  ghost predicate GetsEvent(trace: nat -> Standby, steps: nat -> Step, u: Unit, i: nat) {
    exists j: nat :: j >= i && CooperatesAt(trace, steps, u, j)
  }

  ghost predicate Fair(trace: nat -> Standby, steps: nat -> Step) {
    forall u, i: nat :: u in trace(0).units ==> GetsEvent(trace, steps, u, i)
  }

  lemma {:induction false} Onwards(trace: nat -> Standby, steps: nat -> Step, i: nat, j: nat)
    requires IsRun(trace, steps) && trace(i).leader in trace(i).units && i <= j
    ensures Advances(trace(i), trace(j)) && Distance(trace(j)) <= Distance(trace(i))
    ensures Distance(trace(j)) == Distance(trace(i)) ==> Awaited(trace(j)) == Awaited(trace(i))
    decreases j - i
  {
    if i == j {
    } else {
      Onwards(trace, steps, i, j - 1);
      assert Follows(trace, steps, j - 1);
      NextAdvances(trace(j - 1), steps(j - 1));
      AdvancingIsNotFarther(trace(j - 1), trace(j));
    }
  }

  lemma {:induction false} Settles(trace: nat -> Standby, steps: nat -> Step, i: nat)
    returns (k: nat)
    requires IsRun(trace, steps) && Fair(trace, steps) && trace(i).leader in trace(i).units
    requires trace(i).units.Keys == trace(0).units.Keys
    ensures k >= i && Settled(trace(k))
    decreases Distance(trace(i))
  {
    var u :| u in Awaited(trace(i));
    AwaitedAreUnits(trace(i));
    assert GetsEvent(trace, steps, u, i);
    var j: nat :| j >= i && CooperatesAt(trace, steps, u, j);
    Onwards(trace, steps, i, j);
    Onwards(trace, steps, i, j + 1);
    Onwards(trace, steps, j, j + 1);
    if Settled(trace(j + 1)) {
      k := j + 1;
    } else {
      if Distance(trace(j)) == Distance(trace(i)) {
        assert Follows(trace, steps, j);
        AwaitedEventHelps(trace(j), u, steps(j).env);
      }
      k := Settles(trace, steps, j + 1);
    }
  }

  ghost predicate SettledFrom(trace: nat -> Standby, k: nat) {
    forall i: nat :: i >= k ==> Settled(trace(i))
  }

  /**
   From the beginning of an epoch every fair run comes to a point from which on every unit
   follows the promoted cluster and the application is initialised.
   */
  lemma TheBarrierOpens(trace: nat -> Standby, steps: nat -> Step)
    requires IsRun(trace, steps) && Fair(trace, steps) && Begins(trace(0))
    ensures exists k: nat :: SettledFrom(trace, k)
  {
    var k := Settles(trace, steps, 0);
    forall i: nat | i >= k ensures Settled(trace(i)) {
      Onwards(trace, steps, 0, k);
      Onwards(trace, steps, k, i);
    }
    assert SettledFrom(trace, k);
  }

  // ---- The gate to the promoted cluster ---------------------------------------------------

  predicate Marked(s: Standby, u: Unit) {
    u in s.units && s.units[u].marker == s.epoch
  }

  // A new replica that follows without ever having stopped. On VM it counts as a late joiner from
  // its first event on, and says nothing.
  predicate FollowsUnmarked(s: Standby, u: Unit) {
    u in s.units && u != s.leader && Following(s, u) && !Marked(s, u)
  }

  // The unit joined, not as the leader, without a marker.
  ghost predicate JoinsUnmarkedAt(trace: nat -> Standby, steps: nat -> Step, u: Unit, i: nat) {
    steps(i) == Joined(u) && u != trace(i).leader && !Marked(trace(i), u)
  }

  ghost predicate JoinsUnmarked(trace: nat -> Standby, steps: nat -> Step, u: Unit) {
    exists i: nat :: JoinsUnmarkedAt(trace, steps, u, i)
  }

  // What the markers do in one step on VM.
  lemma MarkersMove(s: Standby, step: Step, u: Unit)
    requires Possible(s, step) && u in s.units && !s.k8s
    ensures var t := Next(s, step);
      && u in t.units && !t.k8s && t.leader == s.leader && t.epoch == s.epoch
      && (Marked(s, u) ==> Marked(t, u))
      && (FollowsUnmarked(s, u) ==> FollowsUnmarked(t, u))
      && (FollowsUnmarked(t, u) ==>
            FollowsUnmarked(s, u) || (step == Joined(u) && u != s.leader && !Marked(s, u)))
  {
    if step.Changed? && step.u == u {
      MarkersExactly(s, u, step.env);
      CountersExactly(s, u, step.env);
    }
  }

  lemma CountersExactly(s: Standby, u: Unit, env: Env)
    requires u in s.units
    ensures RelationChanged(s, u, env).units[u].counter ==
      if !Fails(s, u, env) && Reports(s, u, env) then s.epoch else s.units[u].counter
  {
    FailuresExactly(s, u, env);
    if !Fails(s, u, env) { EventsExactly(s, u, env); }
  }

  // A cooperating event has its unit say that it stopped, unless it only follows.
  lemma EventMarks(s: Standby, u: Unit, env: Env)
    requires u in s.units && !s.k8s && Cooperates(s, env) && !FollowsUnmarked(s, u)
    ensures Marked(RelationChanged(s, u, env), u)
  {
    MarkersExactly(s, u, env);
    FailuresExactly(s, u, env);
  }

  lemma {:induction false} MarkersStay(trace: nat -> Standby, steps: nat -> Step, u: Unit, i: nat, j: nat)
    requires IsRun(trace, steps) && i <= j && u in trace(i).units && !trace(i).k8s
    ensures u in trace(j).units && !trace(j).k8s
    ensures trace(j).epoch == trace(i).epoch && trace(j).leader == trace(i).leader
    ensures Marked(trace(i), u) ==> Marked(trace(j), u)
    ensures FollowsUnmarked(trace(i), u) ==> FollowsUnmarked(trace(j), u)
    decreases j - i
  {
    if i == j {
    } else {
      MarkersStay(trace, steps, u, i, j - 1);
      assert Follows(trace, steps, j - 1);
      MarkersMove(trace(j - 1), steps(j - 1), u);
    }
  }

  lemma {:induction false} OnlyNewcomersFollowUnmarked(trace: nat -> Standby, steps: nat -> Step, u: Unit, i: nat)
    requires IsRun(trace, steps) && Begins(trace(0)) && u in trace(0).units && !trace(0).k8s
    requires FollowsUnmarked(trace(i), u)
    ensures JoinsUnmarked(trace, steps, u)
    decreases i
  {
    if i == 0 {
    } else {
      MarkersStay(trace, steps, u, 0, i - 1);
      assert Follows(trace, steps, i - 1);
      MarkersMove(trace(i - 1), steps(i - 1), u);
      if FollowsUnmarked(trace(i - 1), u) {
        OnlyNewcomersFollowUnmarked(trace, steps, u, i - 1);
      } else {
        assert JoinsUnmarkedAt(trace, steps, u, i - 1);
      }
    }
  }

  ghost predicate MarkedFrom(trace: nat -> Standby, related: set<Unit>, k: nat) {
    forall i: nat, u :: i >= k && u in related ==> Marked(trace(i), u)
  }

  ghost predicate OpenAt(trace: nat -> Standby, related: set<Unit>, i: nat) {
    related <= trace(i).units.Keys && OtherClusterDown(trace(i), related, trace(0).epoch)
  }

  // From here on every check of the promoted cluster's units finds these units down.
  ghost predicate OpenFrom(trace: nat -> Standby, related: set<Unit>, k: nat) {
    forall i: nat :: i >= k ==> OpenAt(trace, related, i)
  }

  lemma {:induction false} MarkedAtLast(trace: nat -> Standby, steps: nat -> Step, related: set<Unit>) returns (k: nat)
    requires IsRun(trace, steps) && Fair(trace, steps) && Begins(trace(0)) && !trace(0).k8s
    requires related <= trace(0).units.Keys
    requires forall u :: u in related ==> !JoinsUnmarked(trace, steps, u)
    ensures MarkedFrom(trace, related, k)
    decreases |related|
  {
    if related == {} {
      k := 0;
    } else {
      var u :| u in related;
      var earlier := MarkedAtLast(trace, steps, related - {u});
      assert GetsEvent(trace, steps, u, earlier);
      var j: nat :| j >= earlier && CooperatesAt(trace, steps, u, j);
      k := j + 1;
      EventMarksFrom(trace, steps, u, j);
      forall i: nat, v | i >= k && v in related ensures Marked(trace(i), v) {
        if v == u { MarkersStay(trace, steps, u, k, i); } else { assert v in related - {u}; }
      }
    }
  }

  lemma EventMarksFrom(trace: nat -> Standby, steps: nat -> Step, u: Unit, j: nat)
    requires IsRun(trace, steps) && Begins(trace(0)) && !trace(0).k8s && u in trace(0).units
    requires CooperatesAt(trace, steps, u, j) && !JoinsUnmarked(trace, steps, u)
    ensures Marked(trace(j + 1), u)
    ensures u in trace(j + 1).units && !trace(j + 1).k8s
  {
    MarkersStay(trace, steps, u, 0, j);
    MarkersStay(trace, steps, u, 0, j + 1);
    assert Follows(trace, steps, j);
    if FollowsUnmarked(trace(j), u) {
      OnlyNewcomersFollowUnmarked(trace, steps, u, j);
    }
    EventMarks(trace(j), u, steps(j).env);
  }

  /**
   In every fair run of a VM application the gate opens for good, that is the promoted cluster's
   units come to see the epoch's marker on all the units they are related to, exactly if none of
   these joined as a replica without a marker: a unit that joins while the application is being
   demoted follows at once, never publishes a marker, and keeps the gate shut for ever.
   */
  lemma TheGateOpensExactly(trace: nat -> Standby, steps: nat -> Step, related: set<Unit>)
    requires IsRun(trace, steps) && Fair(trace, steps) && Begins(trace(0)) && !trace(0).k8s
    requires related <= trace(0).units.Keys
    ensures (exists k: nat :: OpenFrom(trace, related, k)) <==>
      (forall u :: u in related ==> !JoinsUnmarked(trace, steps, u))
  {
    forall k: nat, u | u in related && JoinsUnmarked(trace, steps, u) ensures !OpenFrom(trace, related, k) {
      var i: nat :| JoinsUnmarkedAt(trace, steps, u, i);
      JoiningShutsTheGate(trace, steps, u, i, i + 1 + k);
      MarkersStay(trace, steps, u, 0, i + 1 + k);
      assert !OpenAt(trace, related, i + 1 + k);
    }
    if forall u :: u in related ==> !JoinsUnmarked(trace, steps, u) {
      var k := MarkedAtLast(trace, steps, related);
      forall i: nat | i >= k ensures OpenAt(trace, related, i) {
        forall u | u in related { MarkersStay(trace, steps, u, 0, i); }
      }
      assert OpenFrom(trace, related, k);
    }
  }

  lemma JoiningShutsTheGate(trace: nat -> Standby, steps: nat -> Step, u: Unit, i: nat, j: nat)
    requires IsRun(trace, steps) && JoinsUnmarkedAt(trace, steps, u, i) && i < j
    requires u in trace(0).units && !trace(0).k8s
    ensures !Marked(trace(j), u)
  {
    MarkersStay(trace, steps, u, 0, i);
    assert Follows(trace, steps, i);
    MarkersStay(trace, steps, u, i + 1, j);
  }
}
