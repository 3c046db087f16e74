/**
 The relation-changed event of asynchronous replication as a unit of the demoted application
 handles it, updating the databags in place. Each method computes the function of
 AsyncBarrier.dfy that the theorems are about.
 */
module AsyncManager {
  import opened Common
  import opened AsyncBarrier

  class AsyncReplicationManager {
    const me: Unit
    const k8s: bool
    const epoch: nat
    const leader: Unit
    var units: map<Unit, UnitState>
    var initialised: bool
    var unmarked: bool

    constructor (me: Unit, s: Standby)
      requires me in s.units
      ensures this.me == me && Snapshot() == s
    {
      this.me, k8s, epoch, leader := me, s.k8s, s.epoch, s.leader;
      units, initialised, unmarked := s.units, s.initialised, s.unmarked;
    }

    ghost function Snapshot(): Standby
      reads this
    {
      Standby(k8s, epoch, leader, units, initialised, unmarked)
    }

    method IsFollowingPromotedCluster() returns (r: bool)
      requires me in units
      ensures r == Following(Snapshot(), me)
    {
      r := units[me].counter == epoch;
    }

    method ClearPgdata()
      requires me in units
      modifies this`units
      ensures units == old(units)[me := old(units)[me].(oldData := false)]
    {
      units := units[me := units[me].(oldData := false)];
    }

    // Whether the handling must stop.
    method HandleLateJoiner(env: Env) returns (stop: bool)
      requires me in units
      modifies this`units
      ensures (Snapshot(), stop) == AsyncBarrier.HandleLateJoiner(old(Snapshot()), me, env)
    {
      if !k8s || env.memberStarted {
        return true;
      }
      if !units[me].cleared {
        ClearPgdata();
        units := units[me := units[me].(cleared := true)];
        assert units == old(units)[me := units[me]];
      }
      stop := false;
    }

    // Whether to go on.
    method StopDatabase(env: Env) returns (down: bool)
      requires me in units
      modifies this`units, this`initialised, this`unmarked
      ensures (Snapshot(), down) == AsyncBarrier.StopDatabase(old(Snapshot()), me, env)
    {
      var following := IsFollowingPromotedCluster();
      if units[me].stopped || following {
        return true;
      }
      if me != leader && !env.dataExists {
        return false;
      }
      if !k8s && !env.stops {
        return false;
      }
      var x := units[me].(oldUp := false);
      if me == leader {
        initialised, unmarked := false, true;
        if !env.configures {
          units := units[me := x];
          return false;
        }
        if k8s {
          x := x.(oldData := false);
        }
      }
      if !k8s {
        x := x.(oldData := false);
      }
      units := units[me := x.(stopped := true)];
      down := true;
    }

    method PublishStopMarker()
      requires me in units
      modifies this`units
      ensures Snapshot() == AsyncBarrier.PublishStopMarker(old(Snapshot()), me)
    {
      if !k8s {
        units := units[me := units[me].(marker := epoch)];
      }
    }

    // Whether some unit still has to stop.
    method WaitForAllUnitsStopped() returns (wait: bool)
      requires me in units
      ensures wait == !AllOut(Snapshot())
    {
      var following := IsFollowingPromotedCluster();
      if !units[me].stopped && !following {
        return true;
      }
      var peers := units.Keys - {me};
      while peers != {}
        invariant peers <= units.Keys && Out(Snapshot(), me)
        invariant forall u :: u in units && u !in peers ==> Out(Snapshot(), u)
        decreases |peers|
      {
        var peer :| peer in peers;
        if !units[peer].stopped && units[peer].counter != epoch {
          assert !Out(Snapshot(), peer);
          return true;
        }
        peers := peers - {peer};
      }
      return false;
    }

    method WaitForStandbyLeader(env: Env) returns (wait: bool)
      requires me in units
      modifies this`units
      ensures (Snapshot(), wait) == AsyncBarrier.WaitForStandbyLeader(old(Snapshot()), me, env)
    {
      if me != leader && !env.leaderSeen {
        if !k8s && env.isolated {
          units := units[me := units[me].(restarted := true)];
        }
        return true;
      }
      if k8s && me != leader && !units[me].cleared {
        ClearPgdata();
        units := units[me := units[me].(cleared := true)];
        assert units == old(units)[me := units[me]];
      }
      wait := false;
    }

    method HandleDatabaseStart(env: Env)
      requires me in units
      modifies this`units, this`initialised
      ensures Snapshot() == AsyncBarrier.HandleDatabaseStart(old(Snapshot()), me, env)
    {
      if !env.memberStarted {
        return;
      }
      units := units[me := units[me].(stopped := false, counter := epoch)];
      if k8s {
        units := units[me := units[me].(cleared := false)];
        assert units == old(units)[me := units[me]];
      }
      if me == leader {
        var all := EveryUnitFollows();
        if all {
          initialised := true;
        }
      }
    }

    method EveryUnitFollows() returns (all: bool)
      ensures all == AllFollowing(Snapshot())
    {
      var todo := units.Keys;
      while todo != {}
        invariant todo <= units.Keys
        invariant forall u :: u in units && u !in todo ==> Following(Snapshot(), u)
        decreases |todo|
      {
        var unit :| unit in todo;
        if units[unit].counter != epoch {
          assert !Following(Snapshot(), unit);
          return false;
        }
        todo := todo - {unit};
      }
      return true;
    }

    // The first half of StopDatabase, where a hook may raise before the data is removed.
    method HalfStop(env: Env)
      requires me in units
      modifies this`units
      ensures Snapshot() == HalfStopped(old(Snapshot()), me, env)
    {
      var following := IsFollowingPromotedCluster();
      if !units[me].stopped && !following && (me == leader || env.dataExists) && (k8s || env.stops) {
        units := units[me := units[me].(oldUp := false)];
      }
    }

    // _on_async_relation_changed up to the start of the database.
    method Climb(env: Env) returns (rung: Rung)
      requires me in units
      modifies this`units, this`initialised, this`unmarked
      ensures (Snapshot(), rung) == AsyncBarrier.Climb(old(Snapshot()), me, env)
    {
      var following := IsFollowingPromotedCluster();
      if me != leader && following {
        var stop := HandleLateJoiner(env);
        if stop {
          return Late;
        }
      }
      var down := StopDatabase(env);
      if !down {
        return NotStopped;
      }
      PublishStopMarker();
      var wait := WaitForAllUnitsStopped();
      if wait {
        return NotAllStopped;
      }
      wait := WaitForStandbyLeader(env);
      if wait {
        return NoLeader;
      }
      rung := if env.start.Started? then Starting else NotStarted;
    }

    // An event that raises within its first three stages.
    method HandleInPart(env: Env, stage: nat)
      requires me in units && stage <= 3
      modifies this`units, this`initialised, this`unmarked
      ensures Snapshot() == ReachedEarly(old(Snapshot()), me, env, stage)
    {
      if stage == 0 {
        return;
      }
      var following := IsFollowingPromotedCluster();
      if me != leader && following {
        var stop := HandleLateJoiner(env);
        if stop {
          return;
        }
      }
      if stage == 2 {
        HalfStop(env);
      } else if stage == 3 {
        var down := StopDatabase(env);
      }
    }

    // The event as far as it gets, and whether it raised.
    method Handle(env: Env) returns (failed: bool)
      requires me in units
      modifies this`units, this`initialised, this`unmarked
      ensures Snapshot() == Run(old(Snapshot()), me, env)
      ensures failed == Fails(old(Snapshot()), me, env)
    {
      if env.raises.Some? && env.raises.value <= 3 {
        HandleInPart(env, env.raises.value);
        return true;
      }
      var rung := Climb(env);
      if env.raises == Some(4) {
        return true;
      }
      if rung == Starting {
        units := units[me := units[me].(started := true)];
        if env.raises == Some(5) {
          return true;
        }
        HandleDatabaseStart(env);
      }
      failed := env.raises.Some? || (rung == NotStarted && env.start == Refused);
    }

    // The event, and what the framework keeps of it.
    method OnAsyncRelationChanged(env: Env)
      requires me in units
      modifies this`units, this`initialised, this`unmarked
      ensures Snapshot() == RelationChanged(old(Snapshot()), me, env)
    {
      var wasUnits, wasInitialised, wasUnmarked := units, initialised, unmarked;
      var failed := Handle(env);
      if failed {
        var x, y := wasUnits[me], units[me];
        units := wasUnits[me := x.(
          oldUp := y.oldUp, oldData := y.oldData, started := y.started, restarted := y.restarted)];
        initialised, unmarked := wasInitialised, wasUnmarked;
      }
    }
  }
}
