/**
 What one hook of the recovery does, databag key by databag key: what it publishes, what it does to
 its machine and how it ends, read off from what it finds. None of the predicates below follows the
 order in which the hook works.
 */
module RaftHooks {
  import opened Common
  import opened RaftModel
  import opened RaftSafety

  // The hook selects a candidate, or one is selected already.
  ghost predicate Chosen(c: Cluster, u: Unit) {
    c.app.selected.Some? || (c.leader == u && AllStuck(c) && exists v :: v in c.bags && c.bags[v].candidate)
  }

  // The unit has to stop Patroni and drop its journal.
  ghost predicate MustStop(c: Cluster, u: Unit)
    requires u in c.bags
  {
    !c.app.rejoin && Chosen(c, u) && !c.bags[u].stopped
  }

  // The hook gets past the stop: a watcher that is still active ends it there.
  ghost predicate PastTheStop(c: Cluster, u: Unit, env: Env)
    requires u in c.bags
  {
    !c.app.rejoin && (MustStop(c, u) ==> env.wipe.Done? && !env.watcherActive)
  }

  // raft_followers_stopped is there, or the leader publishes it now.
  ghost predicate FollowersDown(c: Cluster, u: Unit, env: Env)
    requires u in c.bags
  {
    c.app.followersStopped ||
    (PastTheStop(c, u, env) && c.leader == u && (c.bags[u].stopped || Chosen(c, u)) &&
     forall v :: v in c.bags && v != u ==> c.bags[v].stopped)
  }

  ghost function Selection(c: Cluster, u: Unit, env: Env): Option<Unit>
    requires Enumerates(env.order, c)
  {
    if c.app.selected.None? && !c.app.rejoin && Chosen(c, u) then FirstCandidate(env.order, c.bags)
    else c.app.selected
  }

  // The unit reinitialises raft.
  ghost predicate Reinitialises(c: Cluster, u: Unit, env: Env)
    requires u in c.bags && Enumerates(env.order, c)
  {
    PastTheStop(c, u, env) && Selection(c, u, env) == Some(u) && !c.bags[u].primary && FollowersDown(c, u, env)
  }

  // The leader gets to look at raft_primary and raft_rejoin.
  ghost predicate LooksOn(c: Cluster, u: Unit, env: Env)
    requires u in c.bags && Enumerates(env.order, c)
  {
    PastTheStop(c, u, env) && c.leader == u && (Reinitialises(c, u, env) ==> env.reinit.Done?)
  }

  ghost predicate Resets(c: Cluster, u: Unit, env: Env)
    requires u in c.bags && Enumerates(env.order, c)
  {
    LooksOn(c, u, env) && (SomePrimary(c) || Reinitialises(c, u, env)) && !c.app.resetPrimary
  }

  ghost predicate Rejoins(c: Cluster, u: Unit, env: Env)
    requires u in c.bags && Enumerates(env.order, c)
  {
    LooksOn(c, u, env) && FollowersDown(c, u, env) && (c.app.resetPrimary || Resets(c, u, env)) &&
    (Resets(c, u, env) ==> env.endpointsUpdated)
  }

  // The unit drops its flags and starts Patroni.
  ghost predicate Restarts(c: Cluster, u: Unit, env: Env)
    requires u in c.bags && Enumerates(env.order, c)
  {
    c.app.rejoin || Rejoins(c, u, env)
  }

  ghost function HostOf(effect: Effect, done: Host): Host {
    if effect.Done? then done else effect.host
  }

  // The cluster before any restart.
  ghost function Halfway(c: Cluster, u: Unit, env: Env): Cluster
    requires u in c.bags && u in c.hosts && Enumerates(env.order, c)
  {
    var b, stops, reinits := c.bags[u], MustStop(c, u), Reinitialises(c, u, env);
    Cluster(
      c.bags[u := UnitBag(b.stuck && !stops, b.candidate && !stops, b.stopped || (stops && env.wipe.Done?),
        b.primary || (reinits && env.reinit.Done?), b.address)],
      AppBag(Selection(c, u, env), FollowersDown(c, u, env), c.app.resetPrimary || Resets(c, u, env),
        c.app.rejoin || Rejoins(c, u, env),
        if Resets(c, u, env) then RebuiltMembers(c, env.order, env.unitIp) else c.app.members),
      c.hosts[u :=
        if reinits then HostOf(env.reinit, Host(true, true))
        else if stops then HostOf(env.wipe, Host(false, false)) else c.hosts[u]],
      c.leader, c.attempts + if reinits then 1 else 0)
  }

  ghost function HalfwayEnding(c: Cluster, u: Unit, env: Env): Ending
    requires u in c.bags && Enumerates(env.order, c)
  {
    if MustStop(c, u) && env.wipe.Raised? then Fails
    else if MustStop(c, u) && env.wipe.TimedOut? then Defers
    else if MustStop(c, u) && env.watcherActive then Returns
    else if Reinitialises(c, u, env) && env.reinit.Raised? then Fails
    else if Reinitialises(c, u, env) && env.reinit.TimedOut? then Defers
    else if Resets(c, u, env) && !env.endpointsUpdated then Fails
    else Continues
  }

  // ---- The pieces -------------------------------------------------------------------------

  lemma SelectingExactly(c: Cluster, u: Unit, env: Env)
    requires u in c.bags && Enumerates(env.order, c) && !c.app.rejoin
    ensures (if c.leader == u then StuckClusterCheck(c, env.order) else c) ==
      c.(app := c.app.(selected := Selection(c, u, env)))
    ensures Selection(c, u, env).Some? <==> Chosen(c, u)
  {
  }

  lemma StoppingExactly(c: Cluster, u: Unit, env: Env)
    requires u in c.bags && u in c.hosts && !c.app.rejoin && c.app.selected.Some?
    ensures var b, stops := c.bags[u], MustStop(c, u);
      SelectedCandidate(c, u, env) == (
        c.(bags := c.bags[u := b.(stuck := b.stuck && !stops, candidate := b.candidate && !stops,
             stopped := b.stopped || (stops && env.wipe.Done?))],
           hosts := c.hosts[u := if stops then HostOf(env.wipe, Host(false, false)) else c.hosts[u]]),
        if PastTheStop(c, u, env) then Continues else if env.wipe.Done? then Returns
        else if env.wipe.TimedOut? then Defers else Fails)
  {
    assert c.bags == c.bags[u := c.bags[u]] && c.hosts == c.hosts[u := c.hosts[u]];
  }

  // The cluster when the hook is about to consider promoting its unit.
  ghost function AtThePromotion(c: Cluster, u: Unit, env: Env): Cluster
    requires u in c.bags && u in c.hosts && Enumerates(env.order, c)
  {
    var b, stops := c.bags[u], MustStop(c, u);
    Cluster(
      c.bags[u := b.(stuck := b.stuck && !stops, candidate := b.candidate && !stops,
        stopped := b.stopped || (stops && env.wipe.Done?))],
      c.app.(selected := Selection(c, u, env), followersStopped := FollowersDown(c, u, env)),
      c.hosts[u := if stops then HostOf(env.wipe, Host(false, false)) else c.hosts[u]],
      c.leader, c.attempts)
  }

  lemma BeforePromotionExactly(c: Cluster, u: Unit, env: Env)
    requires u in c.bags && u in c.hosts && Enumerates(env.order, c) && !c.app.rejoin
    ensures BeforePromotion(c, u, env) == (AtThePromotion(c, u, env),
      if PastTheStop(c, u, env) then Continues else if env.wipe.Done? then Returns
      else if env.wipe.TimedOut? then Defers else Fails)
  {
    SelectingExactly(c, u, env);
    var c1 := c.(app := c.app.(selected := Selection(c, u, env)));
    var (c2, ending) := SelectedCandidate(c1, u, env);
    if Chosen(c, u) {
      StoppingExactly(c1, u, env);
      StoppedExactly(c, u, env, c2);
    } else {
      assert c2 == c1 && c.bags == c.bags[u := c.bags[u]] && c.hosts == c.hosts[u := c.hosts[u]];
      StoppedExactly(c, u, env, c2);
    }
  }

  // The leader's look at raft_stopped once the unit itself has stopped.
  lemma StoppedExactly(c: Cluster, u: Unit, env: Env, d: Cluster)
    requires u in c.bags && u in c.hosts && Enumerates(env.order, c) && !c.app.rejoin
    requires d == AtThePromotion(c, u, env).(app := c.app.(selected := Selection(c, u, env)))
    ensures PastTheStop(c, u, env) && c.leader == u ==> StuckClusterStoppedCheck(d) == AtThePromotion(c, u, env)
    ensures !(PastTheStop(c, u, env) && c.leader == u) ==> d == AtThePromotion(c, u, env)
  {
    if PastTheStop(c, u, env) && c.leader == u {
      assert forall v :: v in c.bags && v != u ==> d.bags[v] == c.bags[v];
      assert AllStopped(d) <==> d.bags[u].stopped && forall v :: v in c.bags && v != u ==> c.bags[v].stopped;
    }
  }

  lemma PromotingExactly(c: Cluster, u: Unit, env: Env)
    requires u in c.bags && u in c.hosts && Enumerates(env.order, c) && PastTheStop(c, u, env)
    ensures PromoteCandidate(AtThePromotion(c, u, env), u, env) == (
      Halfway(c, u, env).(app := AtThePromotion(c, u, env).app),
      if !Reinitialises(c, u, env) || env.reinit.Done? then Continues
      else if env.reinit.TimedOut? then Defers else Fails)
  {
    var d, h := AtThePromotion(c, u, env), Halfway(c, u, env);
    assert MayPromote(d, u) <==> Reinitialises(c, u, env);
    assert h.bags == d.bags[u := d.bags[u].(primary := h.bags[u].primary)];
    assert h.hosts == d.hosts[u := h.hosts[u]];
  }

  // The list is rebuilt from the addresses alone.
  lemma {:induction false} SameAddressesSameMembers(
    members: seq<string>, order: seq<Unit>, a: map<Unit, UnitBag>, b: map<Unit, UnitBag>)
    requires forall v :: v in order ==> v in a && v in b && a[v].address == b[v].address
    ensures AddAddresses(members, order, a) == AddAddresses(members, order, b)
    decreases |order|
  {
    if order == [] {
    } else {
      var ip := a[order[0]].address;
      SameAddressesSameMembers(if ip != "" then AddOnce(members, ip) else members, order[1..], a, b);
    }
  }

  // The databags as the leader looks at raft_primary: the same addresses, and one primary more if the
  // unit has reinitialised raft.
  lemma PrimariesThen(c: Cluster, u: Unit, env: Env)
    requires u in c.bags && u in c.hosts && Enumerates(env.order, c) && LooksOn(c, u, env)
    ensures var d := Halfway(c, u, env).(app := AtThePromotion(c, u, env).app);
      Enumerates(env.order, d) &&
      RebuiltMembers(d, env.order, env.unitIp) == RebuiltMembers(c, env.order, env.unitIp) &&
      (SomePrimary(d) <==> SomePrimary(c) || Reinitialises(c, u, env))
  {
    var d := Halfway(c, u, env).(app := AtThePromotion(c, u, env).app);
    assert forall v :: v in c.bags && v != u ==> d.bags[v] == c.bags[v];
    SameAddressesSameMembers([], env.order, c.bags, d.bags);
    if p :| p in c.bags && c.bags[p].primary { assert d.bags[p].primary; }
    if p :| p in d.bags && d.bags[p].primary { assert c.bags[p].primary || Reinitialises(c, u, env); }
  }

  lemma RejoiningExactly(c: Cluster, u: Unit, env: Env)
    requires u in c.bags && u in c.hosts && Enumerates(env.order, c) && LooksOn(c, u, env)
    ensures var d := Halfway(c, u, env).(app := AtThePromotion(c, u, env).app);
      Enumerates(env.order, d) &&
      StuckClusterRejoin(d, env).0 == Halfway(c, u, env) &&
      StuckClusterRejoin(d, env).1 == if Resets(c, u, env) && !env.endpointsUpdated then Fails else Continues
  {
    PrimariesThen(c, u, env);
  }

  /**
   The first half of a hook, while raft_rejoin is not published: what it leaves of the cluster
   and how it ends.
   */
  lemma FirstHalfExactly(c: Cluster, u: Unit, env: Env)
    requires u in c.bags && u in c.hosts && Enumerates(env.order, c) && !c.app.rejoin
    ensures BeforeRejoin(c, u, env).0 == Halfway(c, u, env)
    ensures BeforeRejoin(c, u, env).1 == HalfwayEnding(c, u, env)
  {
    BeforePromotionExactly(c, u, env);
    if PastTheStop(c, u, env) {
      PromotingExactly(c, u, env);
      if LooksOn(c, u, env) { RejoiningExactly(c, u, env); }
    }
  }

  // ---- The whole hook ---------------------------------------------------------------------

  // The unit's databag is clean, and so is every other: the leader may end the recovery.
  ghost predicate EndsRecovery(c: Cluster, u: Unit, env: Env)
    requires u in c.bags && u in c.hosts && Enumerates(env.order, c)
  {
    var b := Halfway(c, u, env).bags[u];
    Restarts(c, u, env) && c.leader == u && !b.stuck && !b.candidate &&
    forall v :: v in c.bags && v != u ==> !HasUnitKeys(c.bags[v])
  }

  ghost predicate FailsExactly(c: Cluster, u: Unit, env: Env)
    requires u in c.bags && u in c.hosts && Enumerates(env.order, c)
  {
    (!c.app.rejoin && HalfwayEnding(c, u, env).Fails?) || (Restarts(c, u, env) && !env.restart.Done?)
  }

  // The cluster after the hook.
  ghost function AfterHook(c: Cluster, u: Unit, env: Env): Cluster
    requires u in c.bags && u in c.hosts && Enumerates(env.order, c)
  {
    var h := Halfway(c, u, env);
    var host := if Restarts(c, u, env) then HostOf(env.restart, Host(true, true)) else h.hosts[u];
    var app := AppBag(None, false, false, false, h.app.members);
    if FailsExactly(c, u, env) then c.(hosts := c.hosts[u := host], attempts := h.attempts)
    else if Restarts(c, u, env) then h.(
      bags := h.bags[u := h.bags[u].(stopped := false, primary := false)],
      hosts := h.hosts[u := host],
      app := if EndsRecovery(c, u, env) then app else h.app,
      attempts := if EndsRecovery(c, u, env) then 0 else h.attempts)
    else h
  }

  // The leader sees no key on any unit once its own restart has dropped two of them.
  lemma CleanExactly(bags: map<Unit, UnitBag>, u: Unit, b: UnitBag, e: Cluster)
    requires e.bags == bags[u := b] && u in bags
    ensures NoUnitKeys(e) <==> !HasUnitKeys(b) && forall v :: v in bags && v != u ==> !HasUnitKeys(bags[v])
  {
    assert e.bags[u] == b;
    assert forall v :: v in bags && v != u ==> e.bags[v] == bags[v];
  }

  lemma RestartingExactly(c: Cluster, d: Cluster, u: Unit, env: Env)
    requires u in c.bags && u in c.hosts && Enumerates(env.order, c)
    requires Restarts(c, u, env) && d == Halfway(c, u, env)
    ensures Commit(c, RejoinCleanup(d, u, env)) == AfterHook(c, u, env)
  {
    if env.restart.Done? {
      var b := d.bags[u].(primary := false, stopped := false);
      CleanExactly(c.bags, u, b, WithHost(WithBag(d, u, b), u, Host(true, true)));
    }
  }

  /**
   What a hook leaves of the cluster, and how the recovery ends in it. A failed hook leaves what it
   did to its machine and the number of attempts, nothing else; without recovery keys it does nothing.
   */
  lemma HooksExactly(c: Cluster, u: Unit, env: Env)
    requires u in c.bags && u in c.hosts && Enumerates(env.order, c)
    ensures HookRun(c, u, env) == if HasRaftKeys(c, u) then AfterHook(c, u, env) else c
    ensures Reinitialisation(c, u, env).1 ==
      if FailsExactly(c, u, env) then Fails
      else if Restarts(c, u, env) then Continues else HalfwayEnding(c, u, env)
  {
    if c.app.rejoin {
      NothingBeforeTheRestart(c, u, env);
      RestartingExactly(c, c, u, env);
    } else {
      FirstHalfExactly(c, u, env);
      var (d, ending) := BeforeRejoin(c, u, env);
      if Rejoins(c, u, env) { RestartingExactly(c, d, u, env); }
    }
  }

  lemma NothingBeforeTheRestart(c: Cluster, u: Unit, env: Env)
    requires u in c.bags && u in c.hosts && Enumerates(env.order, c) && c.app.rejoin
    ensures Halfway(c, u, env) == c
  {
    assert c.bags == c.bags[u := c.bags[u]] && c.hosts == c.hosts[u := c.hosts[u]];
  }

  /**
   A watcher that is still active ends the hook of a unit that stops: the unit says that it has
   stopped, and beside a selection made in this hook nothing else is published, no raft data is
   reinitialised and no Patroni started.
   */
  lemma AnActiveWatcherEndsTheHook(c: Cluster, u: Unit, env: Env)
    requires u in c.bags && u in c.hosts && Enumerates(env.order, c)
    requires MustStop(c, u) && env.wipe.Done? && env.watcherActive
    ensures var d := HookRun(c, u, env);
      && d.bags == c.bags[u := c.bags[u].(stuck := false, candidate := false, stopped := true)]
      && d.hosts == c.hosts[u := Host(false, false)] && d.attempts == c.attempts
      && d.app.selected.Some? && (c.app.selected.Some? ==> d.app.selected == c.app.selected)
      && d.app == c.app.(selected := d.app.selected)
  {
    assert Chosen(c, u);
    BeforePromotionExactly(c, u, env);
    SelectingExactly(c, u, env);
  }

  /**
   Without one the selected leader whose peers have all stopped goes on, in the same hook, to
   reinitialise raft over them and to publish that the units may rejoin.
   */
  lemma WithoutAWatcherTheHookGoesOn(c: Cluster, u: Unit, env: Env)
    requires u in c.bags && u in c.hosts && Enumerates(env.order, c)
    requires c.leader == u && c.app.selected == Some(u) && MustStop(c, u) && !c.bags[u].primary
    requires forall v :: v in c.bags && v != u ==> c.bags[v].stopped
    requires exists v :: v in c.bags && v != u
    requires env.wipe.Done? && !env.watcherActive && env.reinit.Done? && env.endpointsUpdated && env.restart.Done?
    requires !c.app.resetPrimary
    ensures var d := HookRun(c, u, env);
      && d.app.followersStopped && d.app.resetPrimary && d.app.rejoin && d.attempts == c.attempts + 1
      && d.hosts[u] == Host(true, true) && !HasUnitKeys(d.bags[u])
  {
    HooksExactly(c, u, env);
    assert Rejoins(c, u, env);
  }

  /**
   Whoever is elected takes over the leader's part: its next hook selects a candidate if all units are
   stuck and one asked to take over. An address published meanwhile is in the list that is rebuilt.
   */
  lemma OutsideStepsAreSeen(c: Cluster, u: Unit, v: Unit, ip: string, env: Env)
    requires u in c.bags && u in c.hosts && v in c.bags && Enumerates(env.order, c)
    ensures (c.app.selected.None? && !c.app.rejoin && AllStuck(c) && !c.bags[u].stopped &&
      (exists w :: w in c.bags && c.bags[w].candidate) && env.wipe.Done? && env.watcherActive) ==>
      HookRun(Next(c, Elect(u)), u, env).app.selected.Some?
    ensures ip != "" ==> ip in RebuiltMembers(Next(c, Readdress(v, ip)), env.order, env.unitIp)
  {
    var d := Next(c, Elect(u));
    if MustStop(d, u) && env.wipe.Done? && env.watcherActive { AnActiveWatcherEndsTheHook(d, u, env); }
    var e := Next(c, Readdress(v, ip));
    assert v in e.bags && e.bags[v].address == ip;
    assert ip != "" ==> IsUnitAddress(e, env, ip);
    RebuiltMembersAreTheAddresses(e, env);
  }

  // ---- Detection and its undoing ----------------------------------------------------------

  /**
   Unwedging clears the keys of its own unit only, and exactly when there are any, the quorum is back
   and no machine has been committed to the recovery. It takes back what a detection did.
   */
  lemma UnwedgingExactly(c: Cluster, u: Unit, quorum: bool)
    requires u in c.bags
    ensures var d := UnwedgeStaleRecovery(c, u, quorum);
      if HasRaftKeys(c, u) && quorum && !MachineCommitted(c)
      then !HasRaftKeys(d, u) && d == WithBag(c, u, d.bags[u]) && d.bags[u].address == c.bags[u].address
      else d == c
    ensures quorum && !HasRaftKeys(c, u) && !MachineCommitted(c) ==>
      DetectStuck(c, u).bags[u].stuck && UnwedgeStaleRecovery(DetectStuck(c, u), u, quorum) == c
  {
    var d := DetectStuck(c, u);
    assert c.bags == c.bags[u := c.bags[u]];
    if quorum && !HasRaftKeys(c, u) && !MachineCommitted(c) {
      assert forall v :: v in c.bags ==> d.bags[v].stopped == c.bags[v].stopped;
      assert UnwedgeStaleRecovery(d, u, quorum).bags == c.bags;
    }
  }
}
