/**
 Asynchronous replication: how a demoted cluster becomes a standby cluster, within one promotion.

 Every unit of the demoted application handles relation-changed events in any order and any
 number of times. Each event walks the same ladder: stop the old database, say so, wait until
 every unit has stopped, wait for the standby leader, start the database, report it started.

 The promotion's counter (`epoch`) is the highest one anyone has seen, and the leader is fixed.
 */
module AsyncBarrier {
  import opened Common

  type Unit = string

  // `stopped`, `counter` and `cleared` are in the unit's peer databag (unit-promoted-cluster-counter
  // and standby-pgdata-cleared), `marker` is what it published in the relation databag (0 when
  // nothing). The rest is true of the machine: whether the old database is up, whether its data
  // is still there, whether the standby database has been started, or Patroni restarted.
  datatype UnitState = UnitState(
    stopped: bool, counter: nat, cleared: bool, marker: nat,
    oldUp: bool, oldData: bool, started: bool, restarted: bool)

  // `unmarked` remembers that the leader has dropped cluster_initialised in this epoch.
  datatype Standby = Standby(
    k8s: bool, epoch: nat, leader: Unit, units: map<Unit, UnitState>,
    initialised: bool, unmarked: bool)

  datatype Start = Started | Postponed | Refused

  // What one relation-changed event finds outside the databags.
  datatype Env = Env(
    dataExists: bool,      // the data directory is there
    stops: bool,           // the old database could be stopped
    configures: bool,      // the leader could fetch the secret and prepare the standby cluster
    leaderSeen: bool,      // Patroni reports a running standby leader
    isolated: bool,        // this member is cut off from its cluster
    start: Start,          // how starting the database goes
    memberStarted: bool,   // the database of this unit runs
    raises: Option<nat>)   // the hook fails after this stage of the event, and commits nothing

  // How far up the ladder an event got.
  datatype Rung = Late | NotStopped | NotAllStopped | NoLeader | NotStarted | Starting

  predicate Following(s: Standby, u: Unit)
    requires u in s.units
  {
    s.units[u].counter == s.epoch
  }

  predicate Out(s: Standby, u: Unit)
    requires u in s.units
  {
    s.units[u].stopped || Following(s, u)
  }

  predicate AllOut(s: Standby) {
    forall u :: u in s.units ==> Out(s, u)
  }

  predicate AllFollowing(s: Standby) {
    forall u :: u in s.units ==> Following(s, u)
  }

  // What hooks do to machines, and do not undo: databases stop, data goes, starts happen.
  predicate Further(x: UnitState, y: UnitState) {
    (y.oldUp ==> x.oldUp) && (y.oldData ==> x.oldData) && (x.started ==> y.started)
  }

  // t is s further on in u's hook: the other units are as they were.
  predicate OnlyUnit(s: Standby, t: Standby, u: Unit) {
    && t.k8s == s.k8s && t.epoch == s.epoch && t.leader == s.leader
    && t.units.Keys == s.units.Keys
    && (forall v :: v in s.units && v != u ==> t.units[v] == s.units[v])
    && (u in s.units ==>
          && Further(s.units[u], t.units[u])
          && (Out(s, u) ==> Out(t, u))
          && (Following(s, u) ==> Following(t, u)))
    && (s.leader in s.units && Following(s, s.leader) && s.initialised ==> t.initialised)
  }

  function With(s: Standby, u: Unit, x: UnitState): Standby {
    s.(units := s.units[u := x])
  }

  // _handle_late_joiner, for a non-leader that already follows; the flag says whether to stop.
  function HandleLateJoiner(s: Standby, u: Unit, env: Env): (r: (Standby, bool))
    requires u in s.units
    ensures OnlyUnit(s, r.0, u)
  {
    if !s.k8s || env.memberStarted then (s, true)
    else if !s.units[u].cleared then
      (With(s, u, s.units[u].(oldData := false, cleared := true)), false)
    else (s, false)
  }

  // _stop_database; the flag says whether to go on.
  function StopDatabase(s: Standby, u: Unit, env: Env): (r: (Standby, bool))
    requires u in s.units
    ensures OnlyUnit(s, r.0, u)
  {
    var x := s.units[u];
    if Out(s, u) then (s, true)
    else if u != s.leader && !env.dataExists then (s, false)
    else if !s.k8s && !env.stops then (s, false)
    else
      var t := if u == s.leader then s.(initialised := false, unmarked := true) else s;
      var y := x.(oldUp := false);
      if u == s.leader && !env.configures then (With(t, u, y), false)
      else
        (With(t, u, y.(stopped := true, oldData := s.k8s && u != s.leader && x.oldData)), true)
  }

  function PublishStopMarker(s: Standby, u: Unit): (r: Standby)
    requires u in s.units
    ensures OnlyUnit(s, r, u)
  {
    if s.k8s then s else With(s, u, s.units[u].(marker := s.epoch))
  }

  // _wait_for_standby_leader; the flag says whether to stop.
  function WaitForStandbyLeader(s: Standby, u: Unit, env: Env): (r: (Standby, bool))
    requires u in s.units
    ensures OnlyUnit(s, r.0, u)
  {
    var x := s.units[u];
    if u != s.leader && !env.leaderSeen then
      (if !s.k8s && env.isolated then With(s, u, x.(restarted := true)) else s, true)
    else if s.k8s && u != s.leader && !x.cleared then
      (With(s, u, x.(oldData := false, cleared := true)), false)
    else (s, false)
  }

  function HandleDatabaseStart(s: Standby, u: Unit, env: Env): (r: Standby)
    requires u in s.units
    ensures OnlyUnit(s, r, u)
  {
    if !env.memberStarted then s else
    var x := s.units[u].(stopped := false, counter := s.epoch);
    var t := With(s, u, if s.k8s then x.(cleared := false) else x);
    if u == s.leader && AllFollowing(t) then t.(initialised := true) else t
  }

  // _on_async_relation_changed on a unit of the demoted application, up to the waits.
  function Climb(s: Standby, u: Unit, env: Env): (r: (Standby, Rung))
    requires u in s.units
    ensures OnlyUnit(s, r.0, u)
  {
    var (s1, late) :=
      if u != s.leader && Following(s, u) then HandleLateJoiner(s, u, env) else (s, false);
    if late then (s1, Late) else
    var (s2, down) := StopDatabase(s1, u, env);
    if !down then (s2, NotStopped) else
    var s3 := PublishStopMarker(s2, u);
    if !AllOut(s3) then (s3, NotAllStopped) else
    var (s4, waits) := WaitForStandbyLeader(s3, u, env);
    (s4, if waits then NoLeader else if env.start.Started? then Starting else NotStarted)
  }

  // A hook that fails keeps what it did to the machine only.
  function RollBack(before: Standby, after: Standby, u: Unit): Standby
    requires u in before.units && u in after.units
  {
    var x, y := before.units[u], after.units[u];
    With(before, u, x.(
      oldUp := y.oldUp, oldData := y.oldData, started := y.started, restarted := y.restarted))
  }

  // The event up to its end, before it is known whether the hook fails.
  function Whole(s: Standby, u: Unit, env: Env): (r: Standby)
    requires u in s.units
    ensures OnlyUnit(s, r, u)
  {
    var (t, rung) := Climb(s, u, env);
    if rung.Starting? then
      var w := With(t, u, t.units[u].(started := true));
      assert OnlyUnit(s, w, u);
      HandleDatabaseStart(w, u, env)
    else t
  }

  // The old database is stopped, its data not yet removed.
  function HalfStopped(s: Standby, u: Unit, env: Env): (r: Standby)
    requires u in s.units
    ensures OnlyUnit(s, r, u)
  {
    if Out(s, u) || (u != s.leader && !env.dataExists) || (!s.k8s && !env.stops) then s
    else With(s, u, s.units[u].(oldUp := false))
  }

  // The first stages of an event: past the late joiner's branch, with the old database stopped, and
  // with its data removed.
  function ReachedEarly(s: Standby, u: Unit, env: Env, stage: nat): (r: Standby)
    requires u in s.units
    ensures OnlyUnit(s, r, u)
  {
    if stage == 0 then s else
    var (s1, late) :=
      if u != s.leader && Following(s, u) then HandleLateJoiner(s, u, env) else (s, false);
    if stage == 1 || late then s1
    else if stage == 2 then HalfStopped(s1, u, env)
    else StopDatabase(s1, u, env).0
  }

  // The later ones: past the waits, with the database started, and at the end.
  function Reached(s: Standby, u: Unit, env: Env, stage: nat): (r: Standby)
    requires u in s.units
    ensures OnlyUnit(s, r, u)
  {
    if stage <= 3 then ReachedEarly(s, u, env, stage)
    else if stage == 4 then Climb(s, u, env).0
    else if stage == 5 then Begun(s, u, env)
    else Whole(s, u, env)
  }

  function Begun(s: Standby, u: Unit, env: Env): (r: Standby)
    requires u in s.units
    ensures OnlyUnit(s, r, u)
  {
    var (t, rung) := Climb(s, u, env);
    if rung.Starting? then With(t, u, t.units[u].(started := true)) else t
  }

  // A start that is refused raises, like anything else that goes wrong outside the databags.
  predicate Fails(s: Standby, u: Unit, env: Env)
    requires u in s.units
  {
    env.raises.Some? || (Climb(s, u, env).1.NotStarted? && env.start.Refused?)
  }

  // The event as far as it gets.
  function Run(s: Standby, u: Unit, env: Env): (r: Standby)
    requires u in s.units
    ensures OnlyUnit(s, r, u)
  {
    if env.raises.Some? then Reached(s, u, env, env.raises.value) else Whole(s, u, env)
  }

  function RelationChanged(s: Standby, u: Unit, env: Env): (r: Standby)
    requires u in s.units
    ensures OnlyUnit(s, r, u)
  {
    if Fails(s, u, env) then RollBack(s, Run(s, u, env), u) else Run(s, u, env)
  }

  datatype Step = Changed(u: Unit, env: Env) | Joined(u: Unit)

  // A standby leader is only seen once the leader has started one; only a new unit, which has
  // never run the old database, joins during the epoch.
  predicate Possible(s: Standby, step: Step) {
    step.u in s.units &&
    match step
    case Changed(_, env) => env.leaderSeen ==> s.leader in s.units && s.units[s.leader].started
    case Joined(u) => !s.units[u].oldUp && !s.units[u].oldData
  }

  function Next(s: Standby, step: Step): Standby
    requires Possible(s, step)
  {
    match step
    case Changed(u, env) => RelationChanged(s, u, env)
    case Joined(u) => With(s, u, s.units[u].(counter := s.epoch))
  }

  predicate PossibleRun(s: Standby, steps: seq<Step>)
    decreases |steps|
  {
    steps == [] || (Possible(s, steps[0]) && PossibleRun(Next(s, steps[0]), steps[1..]))
  }

  function After(s: Standby, steps: seq<Step>): Standby
    requires PossibleRun(s, steps)
    decreases |steps|
  {
    if steps == [] then s else After(Next(s, steps[0]), steps[1..])
  }

  // The epoch begins: nobody has stopped, followed, cleared or started anything under it.
  predicate Begins(s: Standby) {
    && s.epoch > 0 && s.leader in s.units && !s.unmarked
    && forall u :: u in s.units ==>
      var x := s.units[u];
      !x.stopped && x.counter != s.epoch && !x.cleared && x.marker != s.epoch &&
      !x.started && !x.restarted
  }

  // ---- The invariant ----------------------------------------------------------------------

  // What one unit's flags promise about its machine.
  ghost predicate Honest(s: Standby, u: Unit)
    requires u in s.units
  {
    var x := s.units[u];
    && (Out(s, u) ==> !x.oldUp)
    && (x.marker == s.epoch ==> Out(s, u))
    && (Out(s, u) && (!s.k8s || u == s.leader) ==> !x.oldData)
    && (x.cleared || Following(s, u) ==> !x.oldData)
    && (x.cleared ==> Out(s, u))
    && (x.started || x.restarted ==> !x.oldUp)
    && (x.started ==> !x.oldData)
  }

  ghost predicate NoOldDatabase(s: Standby) {
    forall u :: u in s.units ==> !s.units[u].oldUp
  }

  ghost predicate Inv(s: Standby) {
    && s.leader in s.units
    && (forall u :: u in s.units ==> Honest(s, u))
    && (forall u :: u in s.units && (s.units[u].started || s.units[u].restarted) ==> NoOldDatabase(s))
    && (forall u :: u in s.units && s.units[u].started ==> s.units[s.leader].started)
    && (s.unmarked && s.initialised ==> AllFollowing(s))
  }

  lemma LateJoinerKeepsInv(s: Standby, u: Unit, env: Env)
    requires Inv(s) && u in s.units && Following(s, u)
    ensures Inv(HandleLateJoiner(s, u, env).0)
  {
  }

  lemma StopKeepsInv(s: Standby, u: Unit, env: Env)
    requires Inv(s) && u in s.units
    ensures var (t, down) := StopDatabase(s, u, env); Inv(t) && (down ==> Out(t, u))
  {
    assert Honest(StopDatabase(s, u, env).0, u);
  }

  lemma MarkerKeepsInv(s: Standby, u: Unit)
    requires Inv(s) && u in s.units && Out(s, u)
    ensures Inv(PublishStopMarker(s, u))
  {
  }

  lemma OutMeansDown(s: Standby)
    requires Inv(s) && AllOut(s)
    ensures NoOldDatabase(s)
  {
  }

  lemma WaitKeepsInv(s: Standby, u: Unit, env: Env)
    requires Inv(s) && u in s.units && AllOut(s)
    ensures Inv(WaitForStandbyLeader(s, u, env).0) && AllOut(WaitForStandbyLeader(s, u, env).0)
  {
  }

  lemma ClimbKeepsInv(s: Standby, u: Unit, env: Env)
    requires Inv(s) && u in s.units
    ensures var (t, rung) := Climb(s, u, env);
      Inv(t) && (rung.Starting? || rung.NotStarted? ==>
        AllOut(t) && (s.k8s && u != s.leader ==> t.units[u].cleared) && (u != s.leader ==> env.leaderSeen))
  {
    var (s1, late) :=
      if u != s.leader && Following(s, u) then HandleLateJoiner(s, u, env) else (s, false);
    if u != s.leader && Following(s, u) { LateJoinerKeepsInv(s, u, env); }
    if !late {
      StopKeepsInv(s1, u, env);
      var (s2, down) := StopDatabase(s1, u, env);
      if down {
        MarkerKeepsInv(s2, u);
        var s3 := PublishStopMarker(s2, u);
        if AllOut(s3) { WaitKeepsInv(s3, u, env); }
      }
    }
  }

  lemma StartKeepsInv(s: Standby, u: Unit)
    requires Inv(s) && u in s.units && AllOut(s) && (u != s.leader ==> s.units[s.leader].started)
    requires s.k8s && u != s.leader ==> s.units[u].cleared
    ensures Inv(With(s, u, s.units[u].(started := true)))
  {
  }

  lemma DatabaseStartKeepsInv(s: Standby, u: Unit, env: Env)
    requires Inv(s) && u in s.units && AllOut(s) && s.units[u].started
    ensures Inv(HandleDatabaseStart(s, u, env))
  {
  }

  lemma RollBackKeepsInv(before: Standby, after: Standby, u: Unit)
    requires Inv(before) && Inv(after) && u in before.units && OnlyUnit(before, after, u)
    ensures Inv(RollBack(before, after, u))
  {
  }

  lemma WholeKeepsInv(s: Standby, u: Unit, env: Env)
    requires Inv(s) && Possible(s, Changed(u, env))
    ensures Inv(Whole(s, u, env))
  {
    ClimbKeepsInv(s, u, env);
    var (t, rung) := Climb(s, u, env);
    if rung.Starting? {
      StartKeepsInv(t, u);
      DatabaseStartKeepsInv(With(t, u, t.units[u].(started := true)), u, env);
    }
  }

  lemma HalfStopKeepsInv(s: Standby, u: Unit, env: Env)
    requires Inv(s) && u in s.units
    ensures Inv(HalfStopped(s, u, env))
  {
    assert Honest(HalfStopped(s, u, env), u);
  }

  lemma RunKeepsInvSoFar(s: Standby, u: Unit, env: Env)
    requires Inv(s) && Possible(s, Changed(u, env))
    ensures Inv(Run(s, u, env))
  {
    if env.raises.None? || env.raises.value > 5 {
      WholeKeepsInv(s, u, env);
    } else if env.raises.value <= 3 {
      EarlyStagesKeepInv(s, u, env, env.raises.value);
    } else if env.raises.value == 4 {
      ClimbLeavesInv(s, u, env);
    } else {
      BegunKeepsInv(s, u, env);
    }
  }

  lemma ClimbLeavesInv(s: Standby, u: Unit, env: Env)
    requires Inv(s) && u in s.units
    ensures Inv(Climb(s, u, env).0)
  {
    ClimbKeepsInv(s, u, env);
  }

  lemma EarlyStagesKeepInv(s: Standby, u: Unit, env: Env, stage: nat)
    requires Inv(s) && u in s.units
    ensures Inv(ReachedEarly(s, u, env, stage))
  {
    if stage > 0 {
      var (s1, late) :=
        if u != s.leader && Following(s, u) then HandleLateJoiner(s, u, env) else (s, false);
      if u != s.leader && Following(s, u) { LateJoinerKeepsInv(s, u, env); }
      HalfStopKeepsInv(s1, u, env);
      StopKeepsInv(s1, u, env);
    }
  }

  lemma BegunKeepsInv(s: Standby, u: Unit, env: Env)
    requires Inv(s) && Possible(s, Changed(u, env))
    ensures Inv(Begun(s, u, env))
  {
    ClimbKeepsInv(s, u, env);
    var (t, rung) := Climb(s, u, env);
    if rung.Starting? { StartKeepsInv(t, u); }
  }

  lemma NextKeepsInv(s: Standby, step: Step)
    requires Inv(s) && Possible(s, step)
    ensures Inv(Next(s, step))
  {
    match step
    case Joined(u) => assert Honest(s, u) && Honest(Next(s, step), u);
    case Changed(u, env) =>
      RunKeepsInvSoFar(s, u, env);
      RollBackKeepsInv(s, Run(s, u, env), u);
  }

  lemma {:induction false} RunKeepsInv(s: Standby, steps: seq<Step>)
    requires Inv(s) && PossibleRun(s, steps)
    ensures Inv(After(s, steps)) && After(s, steps).units.Keys == s.units.Keys
    decreases |steps|
  {
    if steps == [] {
    } else {
      NextKeepsInv(s, steps[0]);
      RunKeepsInv(Next(s, steps[0]), steps[1..]);
    }
  }

  lemma BeginsHonest(s: Standby)
    requires Begins(s)
    ensures Inv(s)
  {
  }

  // ---- Theorems ---------------------------------------------------------------------------

  /**
   Whatever events have run, a unit that gets to start its standby database, whether the start
   then succeeds, is postponed or is refused, sees every unit stopped or already following, no unit
   of the application has its old database up, its own old data is gone, and, unless it leads, the
   leader's standby database was started before.
   */
  lemma StartsOnlyOverAStoppedApplication(begin: Standby, steps: seq<Step>, u: Unit, env: Env)
    requires Begins(begin) && PossibleRun(begin, steps)
    requires Possible(After(begin, steps), Changed(u, env))
    requires Climb(After(begin, steps), u, env).1.Starting? || Climb(After(begin, steps), u, env).1.NotStarted?
    ensures var s := Climb(After(begin, steps), u, env).0;
      AllOut(s) && NoOldDatabase(s) && !s.units[u].oldData &&
      (u != s.leader ==> s.leader in s.units && s.units[s.leader].started)
  {
    BeginsHonest(begin);
    RunKeepsInv(begin, steps);
    var s := After(begin, steps);
    ClimbKeepsInv(s, u, env);
    var t := Climb(s, u, env).0;
    OutMeansDown(t);
    assert Honest(t, u);
  }

  /** Once the leader has dropped cluster_initialised, it is back only when every unit follows. */
  lemma InitialisedAgainOnlyWhenAllFollow(begin: Standby, steps: seq<Step>)
    requires Begins(begin) && PossibleRun(begin, steps)
    ensures var s := After(begin, steps); s.unmarked && s.initialised ==> AllFollowing(s)
  {
    BeginsHonest(begin);
    RunKeepsInv(begin, steps);
  }

  // The check a unit of the promoted cluster makes in _configure_primary_cluster on VM, over the
  // units of the other cluster it is related to.
  predicate OtherClusterDown(s: Standby, related: set<Unit>, counter: nat)
    requires related <= s.units.Keys
  {
    forall v :: v in related ==> s.units[v].marker == counter
  }

  /**
   A unit of the promoted cluster that gets past its check under this epoch's counter, and so may
   turn its standby cluster into a primary, does so over related units that have all stopped
   their old database and removed its data, or follow already.
   */
  lemma PromotesOnlyOverAStoppedCluster(begin: Standby, steps: seq<Step>, related: set<Unit>)
    requires Begins(begin) && PossibleRun(begin, steps) && !begin.k8s
    requires related <= After(begin, steps).units.Keys
    requires OtherClusterDown(After(begin, steps), related, begin.epoch)
    ensures var s := After(begin, steps);
      forall v :: v in related ==> Out(s, v) && !s.units[v].oldUp && !s.units[v].oldData
  {
    BeginsHonest(begin);
    RunKeepsInv(begin, steps);
    RunKeepsTerms(begin, steps);
    var s := After(begin, steps);
    forall v | v in related ensures Out(s, v) && !s.units[v].oldUp && !s.units[v].oldData {
      assert Honest(s, v);
    }
  }

  lemma {:induction false} RunKeepsTerms(s: Standby, steps: seq<Step>)
    requires PossibleRun(s, steps)
    ensures var t := After(s, steps); t.k8s == s.k8s && t.epoch == s.epoch && t.leader == s.leader
    decreases |steps|
  {
    if steps == [] {
    } else {
      RunKeepsTerms(Next(s, steps[0]), steps[1..]);
    }
  }
}
