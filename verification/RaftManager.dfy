/**
 The recovery as the charm runs it: one manager object per hook, on one unit, updating the
 databags in place. Every method is proved to compute the function of RaftModel.dfy that
 RaftSafety.dfy and RaftProgress.dfy reason about.
 */
module RaftManager {
  import opened Common
  import opened RaftModel

  lemma {:induction false} FirstCandidateOfPrefix(order: seq<Unit>, i: nat, bags: map<Unit, UnitBag>)
    requires i < |order| && forall u :: u in order ==> u in bags
    ensures FirstCandidate(order[..i + 1], bags) ==
      var r := FirstCandidate(order[..i], bags);
      if r.None? && bags[order[i]].candidate then Some(order[i]) else r
    decreases |order|
  {
    if i == 0 {
      assert order[..1] == [order[0]];
    } else {
      FirstCandidateOfPrefix(order[1..], i - 1, bags);
      assert order[..i + 1][1..] == order[1..][..i];
      assert order[..i][1..] == order[1..][..i - 1];
    }
  }

  lemma {:induction false} AddAddressesOfPrefix(
    members: seq<string>, order: seq<Unit>, i: nat, bags: map<Unit, UnitBag>)
    requires i < |order| && forall u :: u in order ==> u in bags
    ensures AddAddresses(members, order[..i + 1], bags) ==
      var r := AddAddresses(members, order[..i], bags);
      var ip := bags[order[i]].address;
      if ip != "" then AddOnce(r, ip) else r
    decreases |order|
  {
    var ip := bags[order[0]].address;
    var first := if ip != "" then AddOnce(members, ip) else members;
    assert order[..i + 1][1..] == order[1..][..i];
    if i == 0 {
      assert order[..1][1..] == [];
    } else {
      AddAddressesOfPrefix(first, order[1..], i - 1, bags);
      assert order[..i][1..] == order[1..][..i - 1];
    }
  }

  class ClusterMembershipManager {
    const me: Unit
    var bags: map<Unit, UnitBag>
    var app: AppBag
    var hosts: map<Unit, Host>
    var leader: Unit
    var attempts: nat

    constructor (me: Unit, c: Cluster)
      requires me in c.bags
      ensures this.me == me && Snapshot() == c
    {
      this.me := me;
      bags, app, hosts, leader, attempts := c.bags, c.app, c.hosts, c.leader, c.attempts;
    }

    ghost function Snapshot(): Cluster
      reads this
    {
      Cluster(bags, app, hosts, leader, attempts)
    }

    method HasRaftKeys() returns (r: bool)
      requires me in bags
      ensures r == RaftModel.HasRaftKeys(Snapshot(), me)
    {
      r := HasAppKeys(app) || HasUnitKeys(bags[me]);
    }

    method StuckClusterCheck(order: seq<Unit>)
      requires Enumerates(order, Snapshot())
      modifies this`app
      ensures Snapshot() == RaftModel.StuckClusterCheck(old(Snapshot()), order)
    {
      var raftStuck, allUnitsStuck, candidateUnit := false, true, None;
      for i := 0 to |order|
        invariant raftStuck <==> exists k :: 0 <= k < i && bags[order[k]].stuck
        invariant allUnitsStuck <==> forall k :: 0 <= k < i ==> bags[order[k]].stuck
        invariant candidateUnit ==
          if app.selected.None? then FirstCandidate(order[..i], bags) else None
        invariant app == old(app)
      {
        var peer := bags[order[i]];
        if peer.stuck {
          raftStuck := true;
        } else {
          allUnitsStuck := false;
        }
        FirstCandidateOfPrefix(order, i, bags);
        if app.selected.None? && candidateUnit.None? && peer.candidate {
          candidateUnit := Some(order[i]);
        }
      }
      assert order[..|order|] == order;
      assert allUnitsStuck <==> AllStuck(Snapshot()) by {
        assert forall u :: u in bags ==> exists k :: 0 <= k < |order| && order[k] == u;
      }
      if !raftStuck {
        assert order != [] ==> !bags[order[0]].stuck && order[0] in order;
        return;
      }
      if !allUnitsStuck || (app.selected.None? && candidateUnit.None?) {
        return;
      }
      if app.selected.None? && candidateUnit.Some? {
        app := app.(selected := candidateUnit);
      }
    }

    method FindPrimary(order: seq<Unit>) returns (found: bool)
      requires Enumerates(order, Snapshot())
      ensures found == SomePrimary(Snapshot())
    {
      found := false;
      for i := 0 to |order|
        invariant forall k :: 0 <= k < i ==> !bags[order[k]].primary
        invariant !found
      {
        if bags[order[i]].primary {
          return true;
        }
      }
      assert forall u :: u in bags ==> exists k :: 0 <= k < |order| && order[k] == u;
    }

    method ResetMembers(env: Env)
      requires Enumerates(env.order, Snapshot())
      modifies this`app
      ensures app == old(app).(members := RebuiltMembers(old(Snapshot()), env.order, env.unitIp))
    {
      var members: seq<string> := [];
      for i := 0 to |env.order|
        invariant members == AddAddresses([], env.order[..i], bags)
        invariant app == old(app)
      {
        AddAddressesOfPrefix([], env.order, i, bags);
        var ip := bags[env.order[i]].address;
        if ip != "" {
          members := AddOnce(members, ip);
        }
      }
      assert env.order[..|env.order|] == env.order;
      if env.unitIp != "" {
        members := AddOnce(members, env.unitIp);
      }
      app := app.(members := members);
    }

    method StuckClusterRejoin(env: Env) returns (ending: Ending)
      requires Enumerates(env.order, Snapshot())
      modifies this`app
      ensures (Snapshot(), ending) == RaftModel.StuckClusterRejoin(old(Snapshot()), env)
    {
      var primary := FindPrimary(env.order);
      if primary && !app.resetPrimary {
        ResetMembers(env);
        app := app.(resetPrimary := true);
        if !env.endpointsUpdated {
          return Fails;
        }
      }
      if !app.rejoin && app.followersStopped && app.resetPrimary {
        app := app.(rejoin := true);
      }
      ending := Continues;
    }

    method StuckClusterStoppedCheck(order: seq<Unit>)
      requires Enumerates(order, Snapshot())
      modifies this`app
      ensures Snapshot() == RaftModel.StuckClusterStoppedCheck(old(Snapshot()))
    {
      if app.followersStopped {
        return;
      }
      for i := 0 to |order|
        invariant forall k :: 0 <= k < i ==> bags[order[k]].stopped
      {
        if !bags[order[i]].stopped {
          return;
        }
      }
      assert AllStopped(Snapshot()) by {
        assert forall u :: u in bags ==> exists k :: 0 <= k < |order| && order[k] == u;
      }
      app := app.(followersStopped := true);
    }

    method StuckClusterCleanup(order: seq<Unit>)
      requires Enumerates(order, Snapshot())
      modifies this`app, this`attempts
      ensures Snapshot() == RaftModel.StuckClusterCleanup(old(Snapshot()))
    {
      for i := 0 to |order|
        invariant forall k :: 0 <= k < i ==> !HasUnitKeys(bags[order[k]])
      {
        if HasUnitKeys(bags[order[i]]) {
          return;
        }
      }
      assert NoUnitKeys(Snapshot()) by {
        assert forall u :: u in bags ==> exists k :: 0 <= k < |order| && order[k] == u;
      }
      app := app.(
        rejoin := false, resetPrimary := false, selected := None, followersStopped := false);
      attempts := 0;
    }

    method ReinitSelectedCandidate(env: Env) returns (ending: Ending)
      requires me in bags
      modifies this`bags, this`hosts
      ensures (Snapshot(), ending) == SelectedCandidate(old(Snapshot()), me, env)
      ensures bags.Keys == old(bags.Keys)
    {
      if app.selected.None? || bags[me].stopped {
        return Continues;
      }
      bags := bags[me := bags[me].(stuck := false, candidate := false)];
      match env.wipe
      case TimedOut(host) =>
        hosts := hosts[me := host];
        return Defers;
      case Raised(host) =>
        hosts := hosts[me := host];
        return Fails;
      case Done =>
        hosts := hosts[me := Host(false, false)];
        bags := bags[me := bags[me].(stopped := true)];
        assert bags == old(bags)[me := bags[me]];
        ending := if env.watcherActive then Returns else Continues;
    }

    method ReinitPromoteCandidate(env: Env) returns (ending: Ending)
      requires me in bags
      modifies this`bags, this`hosts, this`attempts
      ensures (Snapshot(), ending) == PromoteCandidate(old(Snapshot()), me, env)
      ensures bags.Keys == old(bags.Keys)
    {
      if app.selected != Some(me) || bags[me].primary || !app.followersStopped {
        return Continues;
      }
      attempts := attempts + 1;
      match env.reinit
      case TimedOut(host) =>
        hosts := hosts[me := host];
        return Defers;
      case Raised(host) =>
        hosts := hosts[me := host];
        return Fails;
      case Done =>
        hosts := hosts[me := Host(true, true)];
        bags := bags[me := bags[me].(primary := true)];
        ending := Continues;
    }

    method ReinitRejoinCleanup(env: Env) returns (ending: Ending)
      requires me in bags && Enumerates(env.order, Snapshot())
      modifies this`bags, this`app, this`hosts, this`attempts
      ensures (Snapshot(), ending) == RejoinCleanup(old(Snapshot()), me, env)
    {
      bags := bags[me := bags[me].(primary := false)];
      bags := bags[me := bags[me].(stopped := false)];
      assert bags == old(bags)[me := bags[me]];
      if !env.restart.Done? {
        hosts := hosts[me := env.restart.host];
        return Fails;
      }
      hosts := hosts[me := Host(true, true)];
      if leader == me {
        StuckClusterCleanup(env.order);
      }
      ending := Continues;
    }

    method ReinitialiseUntilRejoin(env: Env) returns (ending: Ending)
      requires me in bags && Enumerates(env.order, Snapshot())
      modifies this`bags, this`app, this`hosts, this`attempts
      ensures (Snapshot(), ending) == BeforeRejoin(old(Snapshot()), me, env)
      ensures bags.Keys == old(bags.Keys)
    {
      if leader == me {
        StuckClusterCheck(env.order);
      }
      ending := ReinitSelectedCandidate(env);
      if ending != Continues {
        return;
      }
      if leader == me {
        StuckClusterStoppedCheck(env.order);
      }
      ending := ReinitPromoteCandidate(env);
      if ending != Continues {
        return;
      }
      if leader == me {
        ending := StuckClusterRejoin(env);
      }
    }

    method RaftReinitialisation(env: Env) returns (ending: Ending)
      requires me in bags && Enumerates(env.order, Snapshot())
      modifies this`bags, this`app, this`hosts, this`attempts
      ensures (Snapshot(), ending) == Reinitialisation(old(Snapshot()), me, env)
    {
      ending := Continues;
      if !app.rejoin {
        ending := ReinitialiseUntilRejoin(env);
      }
      if ending == Continues && app.rejoin {
        ending := ReinitRejoinCleanup(env);
      }
    }

    // The peer-relation-changed and leader-elected hooks: a timeout is deferred, any other
    // failure throws the databag writes away.
    method RecoveryHook(env: Env)
      requires me in bags && Enumerates(env.order, Snapshot())
      modifies this`bags, this`app, this`hosts, this`attempts
      ensures Snapshot() == HookRun(old(Snapshot()), me, env)
    {
      var recovering := HasRaftKeys();
      if recovering {
        var savedBags, savedApp := bags, app;
        var ending := RaftReinitialisation(env);
        if ending == Fails {
          bags, app := savedBags, savedApp;
        }
      }
    }

    // promote-to-primary with scope=unit and force=true.
    method ForcePromotion(env: Env) returns (accepted: bool)
      requires me in bags && Enumerates(env.order, Snapshot())
      modifies this`bags, this`app, this`hosts, this`attempts
      ensures accepted == RaftModel.HasRaftKeys(old(Snapshot()), me)
      ensures Snapshot() == RaftModel.ForcePromotion(old(Snapshot()), me, env)
    {
      accepted := HasRaftKeys();
      if accepted {
        var savedBags, savedApp := bags, app;
        bags := bags[me := bags[me].(candidate := true)];
        if leader == me {
          var ending := RaftReinitialisation(env);
          if ending == Fails || ending == Defers {
            bags, app := savedBags, savedApp;
          }
        }
      }
    }

    // remove_raft_member once it has found that the quorum is lost.
    method SetStuckRaftFlag()
      requires me in bags
      modifies this`bags
      ensures Snapshot() == DetectStuck(old(Snapshot()), me)
    {
      var recovering := HasRaftKeys();
      if !recovering {
        bags := bags[me := bags[me].(stuck := true)];
      }
    }

    method UnwedgeStaleRecovery(quorum: bool) returns (cleared: bool)
      requires me in bags
      modifies this`bags, this`app
      ensures Snapshot() == RaftModel.UnwedgeStaleRecovery(old(Snapshot()), me, quorum)
      ensures cleared <==>
        RaftModel.HasRaftKeys(old(Snapshot()), me) && quorum && !MachineCommitted(old(Snapshot()))
    {
      var recovering := HasRaftKeys();
      if !recovering || !quorum {
        return false;
      }
      if (exists u :: u in bags && bags[u].stopped) || HasAppKeys(app) {
        return false;
      }
      bags := bags[me := bags[me].(stuck := false, candidate := false, stopped := false, primary := false)];
      if leader == me {
        app := app.(
          rejoin := false, resetPrimary := false, selected := None, followersStopped := false);
      }
      cleared := true;
    }
  }
}
