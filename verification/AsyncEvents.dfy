/**
 What one relation-changed event of the demoted application does, key by key: when the old database
 goes down, when each databag key is written, and what is left of an event that fails. The rungs
 of the ladder do not show here, only what was found and what comes of it.
 */
module AsyncEvents {
  import opened AsyncBarrier

  // A non-leader that already follows has nothing more to do; on K8s it may still have to start.
  predicate EndsLate(s: Standby, u: Unit, env: Env)
    requires u in s.units
  {
    u != s.leader && Following(s, u) && (!s.k8s || env.memberStarted)
  }

  // The old database goes down in this event.
  predicate Stops(s: Standby, u: Unit, env: Env)
    requires u in s.units
  {
    !Out(s, u) && (u == s.leader || env.dataExists) && (s.k8s || env.stops)
  }

  // So that the unit can say that it has stopped.
  predicate SaysSo(s: Standby, u: Unit, env: Env)
    requires u in s.units
  {
    Stops(s, u, env) && (u == s.leader ==> env.configures)
  }

  predicate IsDown(s: Standby, u: Unit, env: Env)
    requires u in s.units
  {
    !EndsLate(s, u, env) && (Out(s, u) || SaysSo(s, u, env))
  }

  // The event finds every unit stopped or following.
  predicate FindsAllOut(s: Standby, u: Unit, env: Env)
    requires u in s.units
  {
    IsDown(s, u, env) && forall v :: v in s.units && v != u ==> Out(s, v)
  }

  predicate MayStart(s: Standby, u: Unit, env: Env)
    requires u in s.units
  {
    FindsAllOut(s, u, env) && (u == s.leader || env.leaderSeen)
  }

  predicate Starts(s: Standby, u: Unit, env: Env)
    requires u in s.units
  {
    MayStart(s, u, env) && env.start.Started?
  }

  predicate Reports(s: Standby, u: Unit, env: Env)
    requires u in s.units
  {
    Starts(s, u, env) && env.memberStarted
  }

  // A K8s replica's data goes before its first start: when it joined late, or once it may start.
  predicate ClearsLate(s: Standby, u: Unit, env: Env)
    requires u in s.units
  {
    s.k8s && u != s.leader && Following(s, u) && !env.memberStarted && !s.units[u].cleared
  }

  predicate Clears(s: Standby, u: Unit, env: Env)
    requires u in s.units
  {
    ClearsLate(s, u, env) || (s.k8s && u != s.leader && !s.units[u].cleared && MayStart(s, u, env))
  }

  predicate WipesAtTheStop(s: Standby, u: Unit, env: Env)
    requires u in s.units
  {
    SaysSo(s, u, env) && (!s.k8s || u == s.leader)
  }

  // A replica that finds no standby leader, cut off from its cluster.
  predicate Restarts(s: Standby, u: Unit, env: Env)
    requires u in s.units
  {
    FindsAllOut(s, u, env) && u != s.leader && !env.leaderSeen && !s.k8s && env.isolated
  }

  // ---- What the climb leaves --------------------------------------------------------------

  // The unit after _stop_database.
  function AtTheStop(s: Standby, u: Unit, env: Env): UnitState
    requires u in s.units
  {
    var x := s.units[u];
    x.(oldUp := x.oldUp && !Stops(s, u, env), stopped := x.stopped || SaysSo(s, u, env),
       oldData := x.oldData && !WipesAtTheStop(s, u, env))
  }

  // The application's flag, and whether it has been dropped in this epoch.
  predicate Unmarks(s: Standby, u: Unit, env: Env, t: Standby)
    requires u in s.units
  {
    && t.k8s == s.k8s && t.epoch == s.epoch && t.leader == s.leader
    && (t.initialised <==> s.initialised && !(u == s.leader && Stops(s, u, env)))
    && (t.unmarked <==> s.unmarked || (u == s.leader && Stops(s, u, env)))
  }

  lemma StopExactly(s: Standby, u: Unit, env: Env)
    requires u in s.units
    ensures var (t, down) := StopDatabase(s, u, env);
      && (down <==> Out(s, u) || SaysSo(s, u, env))
      && t.units[u] == AtTheStop(s, u, env) && Unmarks(s, u, env, t)
  {
  }

  // The unit after the climb, read off from what the event found.
  function Climbed(s: Standby, u: Unit, env: Env): UnitState
    requires u in s.units
  {
    var x := s.units[u];
    UnitState(
      x.stopped || SaysSo(s, u, env), x.counter, x.cleared || Clears(s, u, env),
      if !s.k8s && IsDown(s, u, env) then s.epoch else x.marker,
      x.oldUp && !Stops(s, u, env), x.oldData && !WipesAtTheStop(s, u, env) && !Clears(s, u, env),
      x.started, x.restarted || Restarts(s, u, env))
  }

  lemma WaitExactly(s: Standby, u: Unit, env: Env)
    requires u in s.units
    ensures var seen, x := u == s.leader || env.leaderSeen, s.units[u];
      var clears := seen && s.k8s && u != s.leader && !x.cleared;
      WaitForStandbyLeader(s, u, env).0 == s.(units := s.units[u := x.(
        oldData := x.oldData && !clears, cleared := x.cleared || clears,
        restarted := x.restarted || (!seen && !s.k8s && env.isolated))])
  {
    assert s.units == s.units[u := s.units[u]];
  }

  // Where the climb ends, when the late joiner's branch does nothing.
  lemma PlainClimb(s: Standby, u: Unit, env: Env)
    requires u in s.units && !EndsLate(s, u, env) && !ClearsLate(s, u, env)
    ensures var (s2, down) := StopDatabase(s, u, env);
      Climb(s, u, env).0 ==
        if !down then s2
        else if !FindsAllOut(s, u, env) then PublishStopMarker(s2, u)
        else WaitForStandbyLeader(PublishStopMarker(s2, u), u, env).0
  {
    StopExactly(s, u, env);
    var (s2, down) := StopDatabase(s, u, env);
    assert u != s.leader && Following(s, u) ==> HandleLateJoiner(s, u, env) == (s, false);
    if down {
      assert AllOut(PublishStopMarker(s2, u)) <==> FindsAllOut(s, u, env);
    }
  }

  lemma MarkerExactly(s: Standby, u: Unit)
    requires u in s.units
    ensures PublishStopMarker(s, u) ==
      s.(units := s.units[u := s.units[u].(marker := if s.k8s then s.units[u].marker else s.epoch)])
  {
    assert s.units == s.units[u := s.units[u]];
  }

  ghost predicate IsClimbed(s: Standby, u: Unit, env: Env, t: Standby)
    requires u in s.units
  {
    u in t.units && t.units[u] == Climbed(s, u, env) && Unmarks(s, u, env, t)
  }

  lemma ClimbedToTheStop(s: Standby, u: Unit, env: Env, s2: Standby)
    requires u in s.units && !EndsLate(s, u, env) && !ClearsLate(s, u, env)
    requires u in s2.units && s2.units[u] == AtTheStop(s, u, env) && Unmarks(s, u, env, s2)
    ensures !IsDown(s, u, env) ==> IsClimbed(s, u, env, s2)
    ensures IsDown(s, u, env) ==>
      var s3 := PublishStopMarker(s2, u);
      IsClimbed(s, u, env, if FindsAllOut(s, u, env) then WaitForStandbyLeader(s3, u, env).0 else s3)
  {
    MarkerExactly(s2, u);
    WaitExactly(PublishStopMarker(s2, u), u, env);
  }

  lemma PlainClimbExactly(s: Standby, u: Unit, env: Env)
    requires u in s.units && !EndsLate(s, u, env) && !ClearsLate(s, u, env)
    ensures IsClimbed(s, u, env, Climb(s, u, env).0)
  {
    PlainClimb(s, u, env);
    StopExactly(s, u, env);
    ClimbedToTheStop(s, u, env, StopDatabase(s, u, env).0);
  }

  function Cleared(s: Standby, u: Unit): Standby
    requires u in s.units
  {
    With(s, u, s.units[u].(oldData := false, cleared := true))
  }

  // A replica that clears its data late goes on as one that had cleared them.
  lemma LateClearing(s: Standby, u: Unit, env: Env)
    requires u in s.units && ClearsLate(s, u, env)
    ensures Climb(s, u, env) == Climb(Cleared(s, u), u, env)
  {
    assert HandleLateJoiner(s, u, env) == HandleLateJoiner(Cleared(s, u), u, env) == (Cleared(s, u), false);
  }

  lemma ClearedIsClimbed(s: Standby, u: Unit, env: Env, t: Standby)
    requires u in s.units && ClearsLate(s, u, env) && IsClimbed(Cleared(s, u), u, env, t)
    ensures IsClimbed(s, u, env, t)
  {
    var c := Cleared(s, u);
    assert forall v :: v in s.units ==> (Out(c, v) <==> Out(s, v));
    assert Clears(s, u, env) && Out(s, u);
  }

  lemma ClimbExactly(s: Standby, u: Unit, env: Env)
    requires u in s.units
    ensures IsClimbed(s, u, env, Climb(s, u, env).0)
  {
    if EndsLate(s, u, env) {
      LateIsUntouched(s, u, env);
    } else if ClearsLate(s, u, env) {
      LateClearing(s, u, env);
      PlainClimbExactly(Cleared(s, u), u, env);
      ClearedIsClimbed(s, u, env, Climb(s, u, env).0);
    } else {
      PlainClimbExactly(s, u, env);
    }
  }

  lemma LateIsUntouched(s: Standby, u: Unit, env: Env)
    requires u in s.units && EndsLate(s, u, env)
    ensures Climb(s, u, env).0 == s && IsClimbed(s, u, env, s)
  {
  }

  // ---- The ladder's ends ------------------------------------------------------------------

  lemma EarlyRungs(s: Standby, u: Unit, env: Env)
    requires u in s.units
    ensures Climb(s, u, env).1.Late? <==> EndsLate(s, u, env)
    ensures Climb(s, u, env).1.NotStopped? <==> !EndsLate(s, u, env) && !IsDown(s, u, env)
  {
  }

  lemma WaitingRung(s: Standby, u: Unit, env: Env)
    requires u in s.units && IsDown(s, u, env)
    ensures Climb(s, u, env).1.NotAllStopped? <==> !FindsAllOut(s, u, env)
  {
  }

  ghost predicate IsLaterRung(s: Standby, u: Unit, env: Env, rung: Rung)
    requires u in s.units
  {
    if !MayStart(s, u, env) then rung.NoLeader? else if Starts(s, u, env) then rung.Starting? else rung.NotStarted?
  }

  lemma PlainRungs(s: Standby, u: Unit, env: Env)
    requires u in s.units && FindsAllOut(s, u, env) && !ClearsLate(s, u, env)
    ensures IsLaterRung(s, u, env, Climb(s, u, env).1)
  {
    StopExactly(s, u, env);
    assert u != s.leader && Following(s, u) ==> HandleLateJoiner(s, u, env) == (s, false);
    var s3 := PublishStopMarker(StopDatabase(s, u, env).0, u);
    assert AllOut(s3);
  }

  lemma LaterRungs(s: Standby, u: Unit, env: Env)
    requires u in s.units && FindsAllOut(s, u, env)
    ensures IsLaterRung(s, u, env, Climb(s, u, env).1)
  {
    if ClearsLate(s, u, env) {
      var c := Cleared(s, u);
      LateClearing(s, u, env);
      assert forall v :: v in s.units ==> (Out(c, v) <==> Out(s, v));
      PlainRungs(c, u, env);
    } else {
      PlainRungs(s, u, env);
    }
  }

  /** Which rung an event ends on. */
  lemma RungsExactly(s: Standby, u: Unit, env: Env)
    requires u in s.units
    ensures var rung := Climb(s, u, env).1;
      && (rung.Late? <==> EndsLate(s, u, env))
      && (rung.NotStopped? <==> !EndsLate(s, u, env) && !IsDown(s, u, env))
      && (rung.NotAllStopped? <==> IsDown(s, u, env) && !FindsAllOut(s, u, env))
      && (rung.NoLeader? <==> FindsAllOut(s, u, env) && !MayStart(s, u, env))
      && (rung.Starting? <==> Starts(s, u, env))
      && (rung.NotStarted? <==> MayStart(s, u, env) && !env.start.Started?)
  {
    EarlyRungs(s, u, env);
    if IsDown(s, u, env) {
      WaitingRung(s, u, env);
      if FindsAllOut(s, u, env) { LaterRungs(s, u, env); }
    }
  }

  // ---- Events -----------------------------------------------------------------------------

  // Reporting: `stopped` and, on K8s, standby-pgdata-cleared are dropped, the counter is written.
  function Reported(s: Standby, u: Unit, env: Env): UnitState
    requires u in s.units
  {
    var y := Climbed(s, u, env).(started := s.units[u].started || Starts(s, u, env));
    if Reports(s, u, env) then y.(stopped := false, counter := s.epoch, cleared := y.cleared && !s.k8s) else y
  }

  /** What an event that does not fail leaves of its unit, and of cluster_initialised. */
  ghost predicate IsEvent(s: Standby, u: Unit, env: Env, t: Standby)
    requires u in s.units
  {
    && u in t.units && t.units[u] == Reported(s, u, env)
    && (t.initialised <==>
          (s.initialised && !(u == s.leader && Stops(s, u, env))) ||
          (u == s.leader && Reports(s, u, env) && forall v :: v in s.units && v != u ==> Following(s, v)))
    && (t.unmarked <==> s.unmarked || (u == s.leader && Stops(s, u, env)))
  }

  lemma DatabaseStartExactly(s: Standby, u: Unit, env: Env)
    requires u in s.units
    ensures var t, x := HandleDatabaseStart(s, u, env), s.units[u];
      && t.units[u] == (if env.memberStarted
          then x.(stopped := false, counter := s.epoch, cleared := x.cleared && !s.k8s) else x)
      && t.unmarked == s.unmarked
      && (t.initialised <==>
            s.initialised ||
            (env.memberStarted && u == s.leader && forall v :: v in s.units && v != u ==> Following(s, v)))
  {
    if env.memberStarted {
      var x := s.units[u].(stopped := false, counter := s.epoch);
      var t := With(s, u, if s.k8s then x.(cleared := false) else x);
      assert Following(t, u);
      assert forall v :: v in s.units && v != u ==> (Following(t, v) <==> Following(s, v));
    }
  }

  lemma StartExactly(s: Standby, u: Unit, env: Env, t: Standby)
    requires u in s.units && u in t.units && IsClimbed(s, u, env, t) && OnlyUnit(s, t, u)
    ensures !Starts(s, u, env) ==> IsEvent(s, u, env, t)
    ensures Starts(s, u, env) ==>
      IsEvent(s, u, env, HandleDatabaseStart(With(t, u, t.units[u].(started := true)), u, env))
  {
    var begun := With(t, u, t.units[u].(started := true));
    DatabaseStartExactly(begun, u, env);
    assert forall v :: v in s.units && v != u ==> (Following(begun, v) <==> Following(s, v));
  }

  /**
   An event that does not fail: what it leaves of its unit, key by key, and when it drops
   cluster_initialised and brings it back.
   */
  lemma EventsExactly(s: Standby, u: Unit, env: Env)
    requires u in s.units && env.raises.None? && !(MayStart(s, u, env) && env.start.Refused?)
    ensures IsEvent(s, u, env, RelationChanged(s, u, env))
  {
    ClimbExactly(s, u, env);
    RungsExactly(s, u, env);
    StartExactly(s, u, env, Climb(s, u, env).0);
  }

  // ---- Events that fail -------------------------------------------------------------------

  // How far an event that fails got; a refused start fails past the waits.
  function Stage(env: Env): nat {
    if env.raises.Some? then env.raises.value else 4
  }

  // What it had done to the machine by then.
  function Left(s: Standby, u: Unit, env: Env, n: nat): UnitState
    requires u in s.units
  {
    var x := s.units[u];
    x.(oldUp := x.oldUp && !(n >= 2 && Stops(s, u, env)),
       oldData := x.oldData && !(n >= 1 && ClearsLate(s, u, env)) &&
         !(n >= 3 && WipesAtTheStop(s, u, env)) && !(n >= 4 && Clears(s, u, env)),
       started := x.started || (n >= 5 && Starts(s, u, env)),
       restarted := x.restarted || (n >= 4 && Restarts(s, u, env)))
  }

  ghost predicate SameMachine(x: UnitState, y: UnitState) {
    x.oldUp == y.oldUp && x.oldData == y.oldData && x.started == y.started && x.restarted == y.restarted
  }

  lemma LateBranch(s: Standby, u: Unit, env: Env)
    requires u in s.units && u != s.leader && Following(s, u)
    ensures HandleLateJoiner(s, u, env) ==
      (if ClearsLate(s, u, env) then Cleared(s, u) else s, EndsLate(s, u, env))
  {
  }

  lemma HalfExactly(s: Standby, u: Unit, env: Env)
    requires u in s.units
    ensures HalfStopped(s, u, env).units[u] == s.units[u].(oldUp := s.units[u].oldUp && !Stops(s, u, env))
  {
  }

  lemma LateFailures(s: Standby, u: Unit, env: Env, n: nat)
    requires u in s.units && n <= 3 && u != s.leader && Following(s, u)
    ensures SameMachine(ReachedEarly(s, u, env, n).units[u], Left(s, u, env, n))
  {
    LateBranch(s, u, env);
  }

  lemma PlainFailures(s: Standby, u: Unit, env: Env, n: nat)
    requires u in s.units && n <= 3 && (u == s.leader || !Following(s, u))
    ensures SameMachine(ReachedEarly(s, u, env, n).units[u], Left(s, u, env, n))
  {
    if n == 2 {
      HalfExactly(s, u, env);
    } else if n == 3 {
      StopExactly(s, u, env);
      assert ReachedEarly(s, u, env, n) == StopDatabase(s, u, env).0;
    }
  }

  lemma WholeExactly(s: Standby, u: Unit, env: Env)
    requires u in s.units
    ensures SameMachine(Whole(s, u, env).units[u], Left(s, u, env, 6))
  {
    ClimbExactly(s, u, env);
    RungsExactly(s, u, env);
    StartExactly(s, u, env, Climb(s, u, env).0);
  }

  lemma BegunExactly(s: Standby, u: Unit, env: Env)
    requires u in s.units
    ensures SameMachine(Begun(s, u, env).units[u], Left(s, u, env, 5))
  {
    ClimbExactly(s, u, env);
    RungsExactly(s, u, env);
  }

  lemma ClimbedMachine(s: Standby, u: Unit, env: Env)
    requires u in s.units
    ensures SameMachine(Climb(s, u, env).0.units[u], Left(s, u, env, 4))
  {
    ClimbExactly(s, u, env);
  }

  lemma LaterFailures(s: Standby, u: Unit, env: Env, n: nat)
    requires u in s.units && n >= 4
    ensures SameMachine(Reached(s, u, env, n).units[u], Left(s, u, env, n))
  {
    if n == 4 {
      ClimbedMachine(s, u, env);
    } else if n == 5 {
      BegunExactly(s, u, env);
    } else {
      WholeExactly(s, u, env);
      assert Left(s, u, env, n) == Left(s, u, env, 6);
    }
  }

  /**
   An event that fails, wherever it does, writes no databag key and leaves every other unit alone:
   what is left is what it had done to its own machine. It fails exactly if something raises on its
   way, or if the standby database may be started and refuses to.
   */
  lemma FailuresExactly(s: Standby, u: Unit, env: Env)
    requires u in s.units
    ensures Fails(s, u, env) <==> env.raises.Some? || (MayStart(s, u, env) && env.start.Refused?)
    ensures Fails(s, u, env) ==>
      RelationChanged(s, u, env) == s.(units := s.units[u := Left(s, u, env, Stage(env))])
  {
    RungsExactly(s, u, env);
    var n := Stage(env);
    if n >= 4 {
      LaterFailures(s, u, env, n);
    } else if u != s.leader && Following(s, u) {
      LateFailures(s, u, env, n);
    } else {
      PlainFailures(s, u, env, n);
    }
  }

  // ---- Stop markers -----------------------------------------------------------------------

  // Every unit that has stopped has said so in the relation databag (VM).
  ghost predicate StoppedSaidSo(s: Standby) {
    !s.k8s ==> forall u :: u in s.units && s.units[u].stopped ==> s.units[u].marker == s.epoch
  }

  lemma MarkersExactly(s: Standby, u: Unit, env: Env)
    requires u in s.units
    ensures RelationChanged(s, u, env).units[u].marker ==
      if !Fails(s, u, env) && !s.k8s && IsDown(s, u, env) then s.epoch else s.units[u].marker
  {
    FailuresExactly(s, u, env);
    if !Fails(s, u, env) { EventsExactly(s, u, env); }
  }

  lemma StoppedExactly(s: Standby, u: Unit, env: Env)
    requires u in s.units
    ensures RelationChanged(s, u, env).units[u].stopped <==>
      if Fails(s, u, env) then s.units[u].stopped
      else (s.units[u].stopped || SaysSo(s, u, env)) && !Reports(s, u, env)
  {
    FailuresExactly(s, u, env);
    if !Fails(s, u, env) { EventsExactly(s, u, env); }
  }

  lemma NextKeepsSaidSo(s: Standby, step: Step)
    requires StoppedSaidSo(s) && Possible(s, step)
    ensures StoppedSaidSo(Next(s, step))
  {
    if step.Changed? {
      MarkersExactly(s, step.u, step.env);
      StoppedExactly(s, step.u, step.env);
    }
  }

  lemma {:induction false} RunKeepsSaidSo(s: Standby, steps: seq<Step>)
    requires StoppedSaidSo(s) && PossibleRun(s, steps)
    ensures StoppedSaidSo(After(s, steps))
    decreases |steps|
  {
    if steps == [] {
    } else {
      NextKeepsSaidSo(s, steps[0]);
      RunKeepsSaidSo(Next(s, steps[0]), steps[1..]);
    }
  }

  /** In every reachable state of a VM application each stopped unit's marker is the epoch's. */
  lemma StoppedUnitsSaySo(begin: Standby, steps: seq<Step>, u: Unit)
    requires Begins(begin) && PossibleRun(begin, steps) && !begin.k8s
    requires u in After(begin, steps).units && After(begin, steps).units[u].stopped
    ensures After(begin, steps).units[u].marker == begin.epoch
  {
    RunKeepsSaidSo(begin, steps);
    RunKeepsTerms(begin, steps);
  }
}
