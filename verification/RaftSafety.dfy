/** What every run of the recovery keeps: one new raft leader, and nobody else up beside it. */
module RaftSafety {
  import opened Common
  import opened RaftModel

  predicate Wiped(h: Host) {
    !h.running && !h.journal
  }

  ghost predicate FlagsAgree(c: Cluster) {
    && WellFormed(c)
    && (c.app.rejoin <==> c.app.resetPrimary)
    && (c.app.resetPrimary ==> c.app.followersStopped)
    && (c.app.followersStopped ==> c.app.selected.Some?)
    && (c.app.selected.Some? ==> c.app.selected.value in c.bags)
    && (c.app.followersStopped && !c.app.rejoin ==> AllStopped(c))
    && (forall u :: u in c.bags && c.bags[u].stopped ==> c.app.selected.Some?)
    && (forall u :: u in c.bags && c.bags[u].primary ==>
          c.app.selected == Some(u) && c.app.followersStopped)
    && (forall u :: u in c.bags && c.bags[u].stuck ==>
          !c.bags[u].stopped && !c.app.followersStopped)
  }

  ghost predicate HostsAgree(c: Cluster)
    requires WellFormed(c)
  {
    && (c.app.rejoin || SomePrimary(c) ==> c.attempts > 0)
    && (c.attempts == 0 ==> forall u :: u in c.bags && c.bags[u].stopped ==> Wiped(c.hosts[u]))
    && (!c.app.rejoin && !SomePrimary(c) ==>
          forall u :: u in c.bags && c.bags[u].stopped && c.app.selected != Some(u) ==>
            Wiped(c.hosts[u]))
  }

  // The invariant of the recovery, true between hooks.
  ghost predicate Inv(c: Cluster) {
    FlagsAgree(c) && HostsAgree(c)
  }

  ghost predicate Initial(c: Cluster) {
    WellFormed(c) && Clean(c) && c.attempts == 0
  }

  // The machines of d are those of c except possibly u's.
  ghost predicate OnlyHost(c: Cluster, d: Cluster, u: Unit) {
    SameUnits(c, d) && forall v :: v in c.hosts && v != u ==> d.hosts[v] == c.hosts[v]
  }

  // The invariant promises nothing about u's machine, so a failed hook may leave it in any state.
  ghost predicate Excused(c: Cluster, u: Unit, attempts: nat)
    requires u in c.bags
  {
    !c.bags[u].stopped ||
    (attempts > 0 && (c.app.selected == Some(u) || c.app.rejoin || SomePrimary(c)))
  }

  lemma CheckKeepsInv(c: Cluster, order: seq<Unit>)
    requires Inv(c) && Enumerates(order, c)
    ensures Inv(StuckClusterCheck(c, order))
  {
  }

  // Only the primary flags decide whether some unit is primary.
  lemma SamePrimaries(c: Cluster, d: Cluster)
    requires d.bags.Keys == c.bags.Keys
    requires forall u :: u in c.bags ==> d.bags[u].primary == c.bags[u].primary
    ensures SomePrimary(d) <==> SomePrimary(c)
  {
  }

  // A unit that is not stopped drops its stuck flag, or stops with a wiped machine.
  lemma PoppedKeepsInv(c: Cluster, u: Unit, stopped: bool, h: Host)
    requires Inv(c) && u in c.bags && c.app.selected.Some? && !c.bags[u].stopped
    requires stopped ==> Wiped(h)
    ensures Inv(WithHost(
      WithBag(c, u, c.bags[u].(stuck := false, candidate := false, stopped := stopped)), u, h))
  {
  }

  lemma SelectedCandidateKeepsInv(c: Cluster, u: Unit, env: Env)
    requires Inv(c) && u in c.bags
    ensures var (d, ending) := SelectedCandidate(c, u, env);
      OnlyHost(c, d, u) && d.attempts == c.attempts && d.app == c.app &&
      (ending.Fails? ==> !c.bags[u].stopped) && (!ending.Fails? ==> Inv(d)) &&
      (d.hosts[u] == c.hosts[u] || !c.bags[u].stopped)
  {
    if c.app.selected.Some? && !c.bags[u].stopped {
      match env.wipe
      case Done => PoppedKeepsInv(c, u, true, Host(false, false));
      case TimedOut(h) => PoppedKeepsInv(c, u, false, h);
      case Raised(_) =>
    }
  }

  // The primary flags and the addresses are out of reach until the promotion.
  ghost predicate SamePrimariesAndAddresses(c: Cluster, d: Cluster) {
    d.bags.Keys == c.bags.Keys && forall v :: v in c.bags ==>
      d.bags[v].primary == c.bags[v].primary && d.bags[v].address == c.bags[v].address
  }

  lemma SelectedCandidateKeepsBags(c: Cluster, u: Unit, env: Env)
    requires u in c.bags
    ensures var d := SelectedCandidate(c, u, env).0;
      d.app == c.app && SamePrimariesAndAddresses(c, d)
  {
  }

  lemma BeforePromotionKeepsBags(c: Cluster, u: Unit, env: Env)
    requires u in c.bags && Enumerates(env.order, c)
    ensures var d := BeforePromotion(c, u, env).0;
      && (c.app.selected.Some? ==> d.app.selected == c.app.selected)
      && d.app.rejoin == c.app.rejoin
      && d.app.resetPrimary == c.app.resetPrimary
      && SamePrimariesAndAddresses(c, d)
  {
    var c1 := if c.leader == u then StuckClusterCheck(c, env.order) else c;
    assert c1.bags == c.bags;
    SelectedCandidateKeepsBags(c1, u, env);
    var (c2, ending) := SelectedCandidate(c1, u, env);
    assert StuckClusterStoppedCheck(c2).bags == c2.bags;
  }

  lemma BeforePromotionKeepsInv(c: Cluster, u: Unit, env: Env)
    requires Inv(c) && u in c.bags && Enumerates(env.order, c)
    ensures var (d, ending) := BeforePromotion(c, u, env);
      OnlyHost(c, d, u) && d.attempts == c.attempts &&
      (ending.Fails? ==> !c.bags[u].stopped) && (!ending.Fails? ==> Inv(d)) &&
      (d.hosts[u] == c.hosts[u] || !c.bags[u].stopped)
  {
    var c1 := if c.leader == u then StuckClusterCheck(c, env.order) else c;
    CheckKeepsInv(c, env.order);
    SelectedCandidateKeepsInv(c1, u, env);
    var (c2, ending) := SelectedCandidate(c1, u, env);
    if ending.Continues? && c.leader == u {
      StoppedCheckKeepsInv(c2);
    }
  }

  lemma StoppedCheckKeepsInv(c: Cluster)
    requires Inv(c)
    ensures Inv(StuckClusterStoppedCheck(c))
  {
  }

  lemma PromoteKeepsInv(c: Cluster, u: Unit, env: Env)
    requires Inv(c) && u in c.bags
    ensures var (d, ending) := PromoteCandidate(c, u, env);
      OnlyHost(c, d, u) && d.attempts >= c.attempts && d.app == c.app &&
      (d.hosts[u] != c.hosts[u] || d.bags != c.bags || ending.Fails? ==>
        c.app.selected == Some(u) && d.attempts > 0) &&
      (!ending.Fails? ==> Inv(d))
  {
    var (d, ending) := PromoteCandidate(c, u, env);
    if MayPromote(c, u) {
      assert !SomePrimary(c);
      if ending.Continues? {
        assert d.bags[u].primary;
      } else {
        assert d.bags == c.bags;
        assert !SomePrimary(d);
      }
    }
  }

  lemma RejoinKeepsInv(c: Cluster, env: Env)
    requires Inv(c) && Enumerates(env.order, c)
    ensures var (d, ending) := StuckClusterRejoin(c, env);
      SameUnits(c, d) && d.hosts == c.hosts && d.bags == c.bags && d.attempts == c.attempts &&
      d.app.selected == c.app.selected &&
      (ending.Fails? || d.app.rejoin ==> SomePrimary(c) || c.app.rejoin) &&
      (!ending.Fails? ==> Inv(d))
  {
  }

  lemma CleanupKeepsInv(c: Cluster, u: Unit, env: Env)
    requires Inv(c) && u in c.bags && c.app.rejoin
    ensures var (d, ending) := RejoinCleanup(c, u, env);
      OnlyHost(c, d, u) && (ending.Fails? ==> d.attempts == c.attempts) &&
      (!ending.Fails? ==> Inv(d))
  {
    var d := WithBag(c, u, c.bags[u].(primary := false, stopped := false));
    if env.restart.Done? {
      var e := WithHost(d, u, Host(true, true));
      assert Inv(e) by {
        assert forall v :: v in c.bags && v != u ==> e.bags[v] == c.bags[v];
      }
      if c.leader == u && NoUnitKeys(e) {
        var f := StuckClusterCleanup(e);
        assert forall v :: v in f.bags ==> !HasUnitKeys(f.bags[v]);
        assert !SomePrimary(f);
      }
    }
  }

  lemma BeforeRejoinKeepsInv(c: Cluster, u: Unit, env: Env)
    requires Inv(c) && u in c.bags && Enumerates(env.order, c)
    ensures var (d, ending) := BeforeRejoin(c, u, env);
      OnlyHost(c, d, u) && d.attempts >= c.attempts &&
      (ending.Fails? ==> Excused(c, u, d.attempts)) && (!ending.Fails? ==> Inv(d)) &&
      (d.app.rejoin ==> Excused(c, u, d.attempts))
  {
    BeforePromotionKeepsInv(c, u, env);
    BeforePromotionKeepsBags(c, u, env);
    var (c3, e3) := BeforePromotion(c, u, env);
    if e3.Continues? {
      PromoteKeepsInv(c3, u, env);
      var (c4, e4) := PromoteCandidate(c3, u, env);
      if e4.Continues? && c.leader == u {
        RejoinKeepsInv(c4, env);
        if SomePrimary(c4) && !SomePrimary(c) {
          var p :| p in c4.bags && c4.bags[p].primary;
          assert !c.bags[p].primary;
          assert c4.bags != c3.bags;
        }
      }
    }
  }

  lemma ReinitialisationKeepsInv(c: Cluster, u: Unit, env: Env)
    requires Inv(c) && u in c.bags && Enumerates(env.order, c)
    ensures var (d, ending) := Reinitialisation(c, u, env);
      OnlyHost(c, d, u) &&
      (ending.Fails? ==> d.attempts >= c.attempts && Excused(c, u, d.attempts)) &&
      (!ending.Fails? ==> Inv(d))
  {
    if !c.app.rejoin {
      BeforeRejoinKeepsInv(c, u, env);
    }
    var (d, ending) := if c.app.rejoin then (c, Continues) else BeforeRejoin(c, u, env);
    if ending.Continues? && d.app.rejoin {
      CleanupKeepsInv(d, u, env);
    }
  }

  // A failed hook leaves the databags alone; what it did to its machine breaks no promise.
  lemma FailureKeepsInv(c: Cluster, d: Cluster, u: Unit)
    requires Inv(c) && u in c.bags && OnlyHost(c, d, u)
    requires d.attempts >= c.attempts && Excused(c, u, d.attempts)
    ensures Inv(c.(hosts := d.hosts, attempts := d.attempts))
  {
  }

  lemma CommitKeepsInv(before: Cluster, c: Cluster, u: Unit, env: Env)
    requires Inv(before) && Inv(c) && u in before.bags && u in c.bags && Enumerates(env.order, c)
    requires c == before || c == WithBag(before, u, before.bags[u].(candidate := true))
    ensures Inv(Commit(before, Reinitialisation(c, u, env)))
  {
    ReinitialisationKeepsInv(c, u, env);
    var (d, ending) := Reinitialisation(c, u, env);
    if ending.Fails? {
      assert SomePrimary(c) <==> SomePrimary(before) by {
        assert forall v :: v in c.bags ==> c.bags[v].primary == before.bags[v].primary;
      }
      FailureKeepsInv(before, d, u);
    }
  }

  function Urgent(effect: Effect): Effect {
    if effect.TimedOut? then Raised(effect.host) else effect
  }

  function UrgentEnv(env: Env): Env {
    env.(wipe := Urgent(env.wipe), reinit := Urgent(env.reinit))
  }

  lemma UrgentSelectedCandidate(c: Cluster, u: Unit, env: Env)
    requires u in c.bags
    ensures SelectedCandidate(c, u, UrgentEnv(env)) == Undeferred(SelectedCandidate(c, u, env))
  {
  }

  lemma UrgentPromoteCandidate(c: Cluster, u: Unit, env: Env)
    requires u in c.bags
    ensures PromoteCandidate(c, u, UrgentEnv(env)) == Undeferred(PromoteCandidate(c, u, env))
  {
  }

  lemma UrgentBeforePromotion(c: Cluster, u: Unit, env: Env)
    requires u in c.bags && Enumerates(env.order, c)
    ensures BeforePromotion(c, u, UrgentEnv(env)) == Undeferred(BeforePromotion(c, u, env))
  {
    UrgentSelectedCandidate(if c.leader == u then StuckClusterCheck(c, env.order) else c, u, env);
  }

  lemma UrgentBeforeRejoin(c: Cluster, u: Unit, env: Env)
    requires u in c.bags && Enumerates(env.order, c)
    ensures BeforeRejoin(c, u, UrgentEnv(env)) == Undeferred(BeforeRejoin(c, u, env))
  {
    UrgentBeforePromotion(c, u, env);
    var (c3, e3) := BeforePromotion(c, u, env);
    BeforePromotionKeepsBags(c, u, env);
    UrgentPromoteCandidate(c3, u, env);
  }

  // A run that times out leaves what one that raises at the same place would leave.
  lemma ActionsFailOnTimeouts(c: Cluster, u: Unit, env: Env)
    requires u in c.bags && Enumerates(env.order, c)
    ensures Reinitialisation(c, u, UrgentEnv(env)) == Undeferred(Reinitialisation(c, u, env))
  {
    if !c.app.rejoin { UrgentBeforeRejoin(c, u, env); }
  }

  lemma DetectingKeepsInv(c: Cluster, u: Unit)
    requires Inv(c) && u in c.bags
    ensures Inv(DetectStuck(c, u))
  {
  }

  lemma UnwedgingKeepsInv(c: Cluster, u: Unit, quorum: bool)
    requires Inv(c) && u in c.bags
    ensures Inv(UnwedgeStaleRecovery(c, u, quorum))
  {
  }

  lemma NextKeepsInv(c: Cluster, step: Step)
    requires Inv(c) && Possible(c, step)
    ensures Inv(Next(c, step))
  {
    var u := step.u;
    match step
    case Elect(_) =>
      assert SomePrimary(Next(c, step)) <==> SomePrimary(c);
    case Readdress(_, ip) =>
      SameFlagsKeepInv(c, Next(c, step));
    case Detect(_) => DetectingKeepsInv(c, u);
    case Force(_, env) =>
      if HasRaftKeys(c, u) {
        var d := WithBag(c, u, c.bags[u].(candidate := true));
        SameFlagsKeepInv(c, d);
        ActionsFailOnTimeouts(d, u, env);
        CommitKeepsInv(c, d, u, UrgentEnv(env));
      }
    case Hook(_, env) =>
      if HasRaftKeys(c, u) {
        CommitKeepsInv(c, c, u, env);
      }
    case Unwedge(_, quorum) => UnwedgingKeepsInv(c, u, quorum);
  }

  // The invariant does not look at raft_candidate or at the addresses.
  lemma SameFlagsKeepInv(c: Cluster, d: Cluster)
    requires Inv(c) && SameUnits(c, d) && d.app == c.app && d.hosts == c.hosts
    requires d.attempts == c.attempts
    requires forall u :: u in c.bags ==>
      d.bags[u] == c.bags[u].(candidate := d.bags[u].candidate, address := d.bags[u].address)
    ensures Inv(d)
  {
  }

  lemma {:induction false} RunKeepsInv(c: Cluster, steps: seq<Step>)
    requires Inv(c) && PossibleRun(c, steps)
    ensures Inv(After(c, steps))
    decreases |steps|
  {
    if steps == [] {
    } else {
      NextKeepsInv(c, steps[0]);
      RunKeepsInv(Next(c, steps[0]), steps[1..]);
    }
  }

  lemma InitialHolds(c: Cluster)
    requires Initial(c)
    ensures Inv(c)
  {
  }

  // ---- Theorems ---------------------------------------------------------------------------

  // What the sequence starts from: the databags as they are, or, on a leader that is forced to
  // promote, with its raft_candidate set.
  function SequenceStart(c: Cluster, u: Unit, forced: bool): Cluster
    requires u in c.bags
  {
    if forced && c.leader == u && HasRaftKeys(c, u) then WithBag(c, u, c.bags[u].(candidate := true)) else c
  }

  /**
   Whatever hooks have run and wherever leadership went, a unit that gets to reinitialise raft, in
   a hook or in a forced promotion, is the selected candidate, every unit has reported itself
   stopped, every other unit is down with its journal gone, and on the first attempt so is the
   candidate itself.
   */
  lemma ReinitialisesOnlyOverAStoppedCluster(start: Cluster, steps: seq<Step>, u: Unit, env: Env, forced: bool)
    requires Initial(start) && PossibleRun(start, steps)
    requires u in After(start, steps).bags && Enumerates(env.order, After(start, steps))
    requires !After(start, steps).app.rejoin
    requires var (d, ending) := BeforePromotion(SequenceStart(After(start, steps), u, forced), u, env);
      ending.Continues? && u in d.bags && MayPromote(d, u)
    ensures var (d, _) := BeforePromotion(SequenceStart(After(start, steps), u, forced), u, env);
      && d.app.selected == Some(u)
      && d.bags.Keys == d.hosts.Keys
      && AllStopped(d)
      && (forall v :: v in d.bags && v != u ==> Wiped(d.hosts[v]))
      && (d.attempts == 0 ==> Wiped(d.hosts[u]))
  {
    InitialHolds(start);
    RunKeepsInv(start, steps);
    var c := SequenceStart(After(start, steps), u, forced);
    if c != After(start, steps) { SameFlagsKeepInv(After(start, steps), c); }
    BeforePromotionKeepsInv(c, u, env);
    BeforePromotionKeepsBags(c, u, env);
    ReadyMeansStopped(BeforePromotion(c, u, env).0, u);
  }

  lemma ReadyMeansStopped(d: Cluster, u: Unit)
    requires Inv(d) && u in d.bags && !d.app.rejoin && MayPromote(d, u)
    ensures AllStopped(d)
    ensures forall v :: v in d.bags && v != u ==> Wiped(d.hosts[v])
    ensures d.attempts == 0 ==> Wiped(d.hosts[u])
  {
  }

  /**
   A hook selects a candidate exactly when it runs on the leader, every unit reports a lost
   quorum and some unit has been asked to take over; the selected unit is one of those.
   */
  lemma SelectsExactlyWhenEveryUnitIsStuck(c: Cluster, u: Unit, env: Env)
    requires WellFormed(c) && c.app.selected.None? && u in c.bags && Enumerates(env.order, c)
    ensures var selected := BeforePromotion(c, u, env).0.app.selected;
      && (selected.Some? <==>
            c.leader == u && AllStuck(c) && exists v :: v in c.bags && c.bags[v].candidate)
      && (selected.Some? ==> selected.value in c.bags && c.bags[selected.value].candidate)
  {
  }

  /** In every reachable state at most one unit holds raft_primary, and it is the candidate. */
  lemma AtMostOnePrimary(start: Cluster, steps: seq<Step>, u: Unit, v: Unit)
    requires Initial(start) && PossibleRun(start, steps)
    requires var c := After(start, steps);
      u in c.bags && v in c.bags && c.bags[u].primary && c.bags[v].primary
    ensures u == v && After(start, steps).app.selected == Some(u)
  {
    InitialHolds(start);
    RunKeepsInv(start, steps);
  }

  /** The phases are published in order, and a wiped unit always has a recovery to wait for. */
  lemma PhaseLadder(start: Cluster, steps: seq<Step>)
    requires Initial(start) && PossibleRun(start, steps)
    ensures var c := After(start, steps);
      && (c.app.rejoin ==> c.app.resetPrimary)
      && (c.app.resetPrimary ==> c.app.followersStopped)
      && (c.app.followersStopped ==> c.app.selected.Some? && c.app.selected.value in c.bags)
      && (forall u :: u in c.bags && c.bags[u].stopped ==> c.app.selected.Some?)
  {
    InitialHolds(start);
    RunKeepsInv(start, steps);
  }

  // The addresses the hook's units publish, with the address of the unit it runs on.
  ghost predicate IsUnitAddress(c: Cluster, env: Env, ip: string) {
    ip != "" && (ip == env.unitIp || exists u :: u in c.bags && c.bags[u].address == ip)
  }

  lemma RebuiltMembersAreTheAddresses(c: Cluster, env: Env)
    requires Enumerates(env.order, c)
    ensures var members := RebuiltMembers(c, env.order, env.unitIp);
      Distinct(members) && forall ip :: ip in members <==> IsUnitAddress(c, env, ip)
  {
  }

  // Two clusters whose units publish the same addresses.
  ghost predicate SameAddresses(c: Cluster, d: Cluster) {
    d.bags.Keys == c.bags.Keys && forall u :: u in c.bags ==> d.bags[u].address == c.bags[u].address
  }

  lemma SameAddressesAgree(c: Cluster, d: Cluster, env: Env, ip: string)
    requires SameAddresses(c, d)
    ensures IsUnitAddress(c, env, ip) <==> IsUnitAddress(d, env, ip)
  {
  }

  lemma PromotionKeepsAddresses(c: Cluster, u: Unit, env: Env)
    requires u in c.bags && Enumerates(env.order, c)
    ensures u in BeforePromotion(c, u, env).0.bags
    ensures SameAddresses(c, PromoteCandidate(BeforePromotion(c, u, env).0, u, env).0)
    ensures PromoteCandidate(BeforePromotion(c, u, env).0, u, env).0.app.rejoin == c.app.rejoin
    ensures PromoteCandidate(BeforePromotion(c, u, env).0, u, env).0.app.resetPrimary == c.app.resetPrimary
  {
    BeforePromotionKeepsBags(c, u, env);
    PromotingKeepsAddresses(BeforePromotion(c, u, env).0, u, env);
  }

  lemma PromotingKeepsAddresses(c: Cluster, u: Unit, env: Env)
    requires u in c.bags
    ensures var d := PromoteCandidate(c, u, env).0;
      SameAddresses(c, d) && d.app.rejoin == c.app.rejoin && d.app.resetPrimary == c.app.resetPrimary
  {
  }

  lemma RejoinRebuilds(c: Cluster, u: Unit, env: Env, c3: Cluster, c4: Cluster)
    requires u in c.bags && Enumerates(env.order, c) && c3 == BeforePromotion(c, u, env).0
    requires u in c3.bags && c4 == PromoteCandidate(c3, u, env).0 && Enumerates(env.order, c4)
    requires !c3.app.rejoin && !c4.app.rejoin && !c4.app.resetPrimary
    requires BeforeRejoin(c, u, env).0.app.rejoin
    ensures BeforeRejoin(c, u, env).0.app.members == RebuiltMembers(c4, env.order, env.unitIp)
  {
    assert BeforeRejoin(c, u, env).0 == StuckClusterRejoin(c4, env).0;
  }

  /**
   A hook that publishes raft_rejoin has rebuilt members_ips, without duplicates, to exactly the
   addresses of the current units (as published, plus the leader's own).
   */
  lemma RejoinComesWithTheCurrentMembers(c: Cluster, u: Unit, env: Env)
    requires Inv(c) && u in c.bags && Enumerates(env.order, c)
    requires !c.app.rejoin && BeforeRejoin(c, u, env).0.app.rejoin
    ensures var members := BeforeRejoin(c, u, env).0.app.members;
      Distinct(members) && forall ip :: ip in members <==> IsUnitAddress(c, env, ip)
  {
    var c3 := BeforePromotion(c, u, env).0;
    BeforePromotionKeepsBags(c, u, env);
    var c4 := PromoteCandidate(c3, u, env).0;
    PromotionKeepsAddresses(c, u, env);
    RejoinRebuilds(c, u, env, c3, c4);
    RebuiltMembersAreTheAddresses(c4, env);
    forall ip { SameAddressesAgree(c, c4, env, ip); }
  }
}
