/**
 Whether a recovery ends. Once a candidate is selected every step moves it forward or leaves it
 where it was, and a fair run of hooks brings every databag back to no raft_* key at all, unless
 promote-to-primary was forced on a unit that had already stopped, or after raft_rejoin was
 published: then raft_candidate stays on that unit and the recovery never ends.
 */
module RaftProgress {
  import opened Common
  import opened RaftModel
  import opened RaftSafety

  ghost predicate Committed(c: Cluster) {
    c.app.selected.Some?
  }

  ghost predicate WedgedAt(c: Cluster, u: Unit) {
    u in c.bags && c.bags[u].candidate && (c.bags[u].stopped || c.app.rejoin)
  }

  // Some unit carries a raft_candidate that nothing will ever drop.
  ghost predicate Wedged(c: Cluster) {
    exists u :: WedgedAt(c, u)
  }

  ghost function Unstopped(c: Cluster): set<Unit> {
    set u | u in c.bags && !c.bags[u].stopped
  }

  ghost function Flagged(c: Cluster): set<Unit> {
    set u | u in c.bags && HasUnitKeys(c.bags[u])
  }

  // The steps left before raft_rejoin can be published, one short.
  ghost function Remaining(c: Cluster): nat {
    |Unstopped(c)| + (if c.app.followersStopped then 0 else 1) + (if SomePrimary(c) then 0 else 1)
  }

  // How far a committed recovery still is from its end.
  ghost function Distance(c: Cluster): nat {
    if c.app.rejoin then 1 + |Flagged(c)| else 2 + |c.bags.Keys| + Remaining(c)
  }

  // The units whose own hook the recovery is waiting for; the leader's hook when there is none.
  ghost function Awaited(c: Cluster): set<Unit> {
    if c.app.rejoin then Flagged(c)
    else if Unstopped(c) != {} then Unstopped(c)
    else if c.app.followersStopped && !SomePrimary(c) && c.app.selected.Some? then {c.app.selected.value}
    else {}
  }

  // d is c, further on in the same recovery or past its end.
  ghost predicate Advances(c: Cluster, d: Cluster) {
    Clean(d) || (
      && d.bags.Keys == c.bags.Keys
      && Committed(d) && d.app.selected == c.app.selected
      && (c.app.rejoin ==> d.app.rejoin && Flagged(d) <= Flagged(c))
      && (!d.app.rejoin ==>
            && Unstopped(d) <= Unstopped(c)
            && (c.app.followersStopped ==> d.app.followersStopped)
            && (SomePrimary(c) ==> SomePrimary(d))))
  }

  predicate Succeeds(env: Env) {
    env.wipe.Done? && env.reinit.Done? && env.endpointsUpdated && env.restart.Done?
  }

  // ---- The pieces of a hook ---------------------------------------------------------------

  // The databags of every unit but u are untouched.
  ghost predicate OnlyBag(c: Cluster, d: Cluster, u: Unit) {
    d.bags.Keys == c.bags.Keys && forall v :: v in c.bags && v != u ==> d.bags[v] == c.bags[v]
  }

  // What BeforePromotion does to u's flags and to followersStopped in a committed recovery.
  lemma BeforePromotionMoves(c: Cluster, u: Unit, env: Env)
    requires Inv(c) && Committed(c) && !c.app.rejoin && u in c.bags && Enumerates(env.order, c)
    ensures var (d, ending) := BeforePromotion(c, u, env);
      && OnlyBag(c, d, u) && d.app.selected == c.app.selected && !d.app.rejoin
      && d.bags[u].primary == c.bags[u].primary
      && (c.bags[u].stopped ==> d.bags[u] == c.bags[u] && ending.Continues?)
      && (!c.bags[u].stopped ==> !d.bags[u].candidate && !d.bags[u].stuck)
      && (env.wipe.Done? ==> d.bags[u].stopped)
      && (ending.Continues? ==> d.bags[u].stopped)
      && d.app.followersStopped ==
        (c.app.followersStopped || (ending.Continues? && c.leader == u && AllStopped(d)))
  {
    var c1 := if c.leader == u then StuckClusterCheck(c, env.order) else c;
    assert c1 == c;
    var (c2, ending) := SelectedCandidate(c1, u, env);
    var d := BeforePromotion(c, u, env).0;
    assert d.bags == c2.bags;
    assert AllStopped(c2) <==> AllStopped(d);
  }

  lemma PromoteMoves(c: Cluster, u: Unit, env: Env)
    requires u in c.bags
    ensures var (d, ending) := PromoteCandidate(c, u, env);
      && OnlyBag(c, d, u) && d.app == c.app
      && d.bags[u] == c.bags[u].(primary := d.bags[u].primary)
      && (c.bags[u].primary ==> d.bags[u].primary)
      && (env.reinit.Done? && MayPromote(c, u) ==> d.bags[u].primary)
      && (env.reinit.Done? ==> ending.Continues?)
  {
  }

  lemma RejoinMoves(c: Cluster, env: Env)
    requires Enumerates(env.order, c)
    ensures var (d, ending) := StuckClusterRejoin(c, env);
      && d.bags == c.bags && d.app.selected == c.app.selected
      && d.app.followersStopped == c.app.followersStopped
      && (c.app.rejoin ==> d.app.rejoin)
      && (d.app.rejoin ==> c.app.rejoin || c.app.followersStopped)
      && (env.endpointsUpdated && SomePrimary(c) && c.app.followersStopped ==> d.app.rejoin)
      && (env.endpointsUpdated ==> ending.Continues?)
  {
  }

  // raft_rejoin is published over a stopped cluster only.
  lemma RejoinFollowsTheStop(c: Cluster, u: Unit, env: Env)
    requires Inv(c) && !c.app.rejoin && u in c.bags && Enumerates(env.order, c)
    requires BeforeRejoin(c, u, env).0.app.rejoin
    ensures AllStopped(BeforeRejoin(c, u, env).0)
  {
    BeforePromotionKeepsInv(c, u, env);
    BeforePromotionKeepsBags(c, u, env);
    var (c3, e3) := BeforePromotion(c, u, env);
    PromoteKeepsInv(c3, u, env);
    var (c4, e4) := PromoteCandidate(c3, u, env);
    RejoinMoves(c4, env);
    assert AllStopped(c4);
  }

  // The rest of the first half, once u has stopped.
  lemma BeforeRejoinMoves(c: Cluster, u: Unit, env: Env)
    requires Inv(c) && Committed(c) && !c.app.rejoin && u in c.bags && Enumerates(env.order, c)
    ensures var (d, ending) := BeforeRejoin(c, u, env);
      && OnlyBag(c, d, u) && d.app.selected == c.app.selected
      && (c.bags[u].stopped ==> d.bags[u] == c.bags[u].(primary := d.bags[u].primary))
      && (!c.bags[u].stopped ==> !d.bags[u].candidate)
      && (c.bags[u].primary ==> d.bags[u].primary)
      && (c.app.followersStopped ==> d.app.followersStopped)
      && (env.wipe.Done? ==> d.bags[u].stopped)
  {
    BeforePromotionMoves(c, u, env);
    var (c3, e3) := BeforePromotion(c, u, env);
    PromoteMoves(c3, u, env);
    var (c4, e4) := PromoteCandidate(c3, u, env);
    RejoinMoves(c4, env);
  }

  lemma CleanupMoves(c: Cluster, u: Unit, env: Env)
    requires Inv(c) && c.app.rejoin && u in c.bags
    ensures var (d, ending) := RejoinCleanup(c, u, env);
      && OnlyBag(c, d, u)
      && d.bags[u] == c.bags[u].(primary := false, stopped := false)
      && (d.app == c.app || Clean(d))
      && (c.leader == u && env.restart.Done? && NoUnitKeys(d) ==> Clean(d))
      && (Clean(d) ==> NoUnitKeys(d))
  {
  }

  // ---- A hook advances --------------------------------------------------------------------

  lemma FlagsOnlyDrop(c: Cluster, d: Cluster, u: Unit)
    requires OnlyBag(c, d, u) && u in c.bags
    ensures (HasUnitKeys(d.bags[u]) ==> HasUnitKeys(c.bags[u])) ==> Flagged(d) <= Flagged(c)
    ensures (c.bags[u].stopped ==> d.bags[u].stopped) ==> Unstopped(d) <= Unstopped(c)
    ensures (c.bags[u].primary ==> d.bags[u].primary) ==> (SomePrimary(c) ==> SomePrimary(d))
  {
  }

  lemma BeforeRejoinAdvances(c: Cluster, u: Unit, env: Env)
    requires Inv(c) && Committed(c) && !c.app.rejoin && u in c.bags && Enumerates(env.order, c)
    ensures Advances(c, BeforeRejoin(c, u, env).0)
  {
    BeforeRejoinMoves(c, u, env);
    var d := BeforeRejoin(c, u, env).0;
    FlagsOnlyDrop(c, d, u);
  }

  lemma CleanupAdvances(c: Cluster, u: Unit, env: Env)
    requires Inv(c) && c.app.rejoin && u in c.bags
    ensures Advances(c, RejoinCleanup(c, u, env).0)
  {
  }

  // A failed hook keeps the databags, and the databags are all that progress looks at.
  lemma SameBagsAdvance(c: Cluster, d: Cluster)
    requires Committed(c) && d.bags == c.bags && d.app == c.app
    ensures Advances(c, d)
  {
  }

  lemma ReinitialisationAdvances(c: Cluster, u: Unit, env: Env)
    requires Inv(c) && Committed(c) && u in c.bags && Enumerates(env.order, c)
    ensures Advances(c, Commit(c, Reinitialisation(c, u, env)))
  {
    var r := Reinitialisation(c, u, env);
    if r.1.Fails? {
      SameBagsAdvance(c, Commit(c, r));
    } else if c.app.rejoin {
      CleanupAdvances(c, u, env);
    } else {
      BeforeRejoinAdvances(c, u, env);
      BeforeRejoinKeepsInv(c, u, env);
      var (b, ending) := BeforeRejoin(c, u, env);
      if ending.Continues? && b.app.rejoin {
        CleanupMoves(b, u, env);
      }
    }
  }

  // A forced promotion that comes too late for the recovery to notice it.
  predicate ForcedLate(c: Cluster, step: Step)
    requires Possible(c, step)
  {
    step.Force? && HasRaftKeys(c, step.u) && (c.bags[step.u].stopped || c.app.rejoin)
  }

  lemma SameFlagsAdvance(c: Cluster, d: Cluster)
    requires Committed(c) && d.app == c.app && d.bags.Keys == c.bags.Keys
    requires forall u :: u in c.bags ==>
      d.bags[u].stopped == c.bags[u].stopped && d.bags[u].primary == c.bags[u].primary
    requires c.app.rejoin ==> Flagged(d) <= Flagged(c)
    ensures Advances(c, d)
    ensures !c.app.rejoin ==> forall e :: Advances(d, e) ==> Advances(c, e)
  {
  }

  /** No step of a committed recovery takes it back, unless a promotion is forced late. */
  lemma NextAdvances(c: Cluster, step: Step)
    requires Inv(c) && Committed(c) && Possible(c, step) && !ForcedLate(c, step)
    ensures Advances(c, Next(c, step))
  {
    var u := step.u;
    match step
    case Elect(_) => SameFlagsAdvance(c, Next(c, step));
    case Readdress(_, ip) =>
      var d := Next(c, step);
      assert forall v :: v in c.bags ==> HasUnitKeys(d.bags[v]) == HasUnitKeys(c.bags[v]);
      SameFlagsAdvance(c, d);
    case Detect(_) => SameFlagsAdvance(c, c);
    case Unwedge(_, _) => SameFlagsAdvance(c, c);
    case Hook(_, env) => ReinitialisationAdvances(c, u, env);
    case Force(_, env) =>
      var d := WithBag(c, u, c.bags[u].(candidate := true));
      SameFlagsAdvance(c, d);
      if c.leader == u {
        SameFlagsKeepInv(c, d);
        ReinitialisationAdvances(d, u, env);
        var r := Reinitialisation(d, u, env);
        if r.1.Fails? || r.1.Defers? {
          SameBagsAdvance(c, CommitAction(c, r));
        }
      }
  }

  // ---- The distance to the end ------------------------------------------------------------

  lemma AdvancingIsNotFarther(c: Cluster, d: Cluster)
    requires Committed(c) && Advances(c, d) && !Clean(d)
    ensures Distance(d) <= Distance(c)
    ensures Distance(d) == Distance(c) ==> Awaited(d) == Awaited(c)
  {
    assert Flagged(d) <= d.bags.Keys;
    Subset(Flagged(d), d.bags.Keys);
    if c.app.rejoin {
      Subset(Flagged(d), Flagged(c));
    } else if !d.app.rejoin {
      Subset(Unstopped(d), Unstopped(c));
    }
  }

  // The hooks that move a committed recovery forward.
  ghost predicate Helps(c: Cluster, step: Step) {
    step.Hook? && Succeeds(step.env) &&
    (step.u in Awaited(c) || (Awaited(c) == {} && step.u == c.leader))
  }

  lemma HelpInTheFirstHalf(c: Cluster, u: Unit, env: Env)
    requires Inv(c) && Committed(c) && !c.app.rejoin && u in c.bags && Enumerates(env.order, c)
    requires Helps(c, Hook(u, env))
    ensures var (d, ending) := BeforeRejoin(c, u, env);
      !ending.Fails? && (d.app.rejoin || Remaining(d) < Remaining(c))
  {
    BeforeRejoinAdvances(c, u, env);
    BeforeRejoinMoves(c, u, env);
    BeforePromotionMoves(c, u, env);
    BeforePromotionKeepsBags(c, u, env);
    var (c3, e3) := BeforePromotion(c, u, env);
    PromoteMoves(c3, u, env);
    var (c4, e4) := PromoteCandidate(c3, u, env);
    RejoinMoves(c4, env);
    var d := BeforeRejoin(c, u, env).0;
    if !d.app.rejoin {
      Subset(Unstopped(d), Unstopped(c));
      if u in Unstopped(c) {
        assert u !in Unstopped(d);
      } else {
        assert Unstopped(c) == {};
        assert forall v :: v in c.bags ==> v !in Unstopped(c);
        assert AllStopped(c3);
        SamePrimaries(c, c3);
      }
    }
  }

  lemma HelpAfterRejoin(c: Cluster, u: Unit, env: Env)
    requires Inv(c) && c.app.rejoin && !WedgedAt(c, u) && u in c.bags && env.restart.Done?
    requires u in Flagged(c) || (Flagged(c) == {} && u == c.leader)
    ensures var (d, ending) := RejoinCleanup(c, u, env);
      !ending.Fails? && (Clean(d) || (d.app.rejoin && |Flagged(d)| < |Flagged(c)|))
  {
    CleanupMoves(c, u, env);
    CleanupAdvances(c, u, env);
    var d := RejoinCleanup(c, u, env).0;
    if u in Flagged(c) {
      assert u !in Flagged(d);
      if !Clean(d) { Subset(Flagged(d), Flagged(c) - {u}); }
    } else {
      assert forall v :: v in c.bags ==> v !in Flagged(c);
      assert NoUnitKeys(d);
    }
  }

  lemma RejoinIsNear(c: Cluster)
    requires c.app.rejoin
    ensures Distance(c) < 2 + |c.bags.Keys|
  {
    Subset(Flagged(c), c.bags.Keys);
  }

  lemma NearerAfterTheFirstHalf(c: Cluster, b: Cluster, u: Unit, env: Env)
    requires Inv(b) && b.app.rejoin && !c.app.rejoin && u in b.bags && b.bags.Keys == c.bags.Keys
    ensures var d := RejoinCleanup(b, u, env).0; Clean(d) || Distance(d) < Distance(c)
  {
    CleanupMoves(b, u, env);
    var d := RejoinCleanup(b, u, env).0;
    if !Clean(d) { RejoinIsNear(d); }
  }

  // A hook whose calls succeed commits, with or without its second half.
  lemma HookCommits(c: Cluster, u: Unit, env: Env, b: Cluster, ending: Ending)
    requires HasAppKeys(c.app) && !c.app.rejoin && u in c.bags && Enumerates(env.order, c)
    requires (b, ending) == BeforeRejoin(c, u, env) && u in b.bags
    requires env.restart.Done? && !ending.Fails?
    ensures HookRun(c, u, env) == if ending.Continues? && b.app.rejoin then RejoinCleanup(b, u, env).0 else b
  {
  }

  lemma HelpBeforeRejoin(c: Cluster, u: Unit, env: Env)
    requires Inv(c) && Committed(c) && !c.app.rejoin && u in c.bags && Enumerates(env.order, c)
    requires Helps(c, Hook(u, env))
    ensures var d := HookRun(c, u, env); Clean(d) || Distance(d) < Distance(c)
  {
    HelpInTheFirstHalf(c, u, env);
    BeforeRejoinKeepsInv(c, u, env);
    BeforeRejoinMoves(c, u, env);
    var (b, ending) := BeforeRejoin(c, u, env);
    HookCommits(c, u, env, b, ending);
    if b.app.rejoin {
      RejoinIsNear(b);
      NearerAfterTheFirstHalf(c, b, u, env);
    }
  }

  /** A hook that helps ends the recovery or brings its end nearer. */
  lemma HelpingBringsTheEndNearer(c: Cluster, u: Unit, env: Env)
    requires Inv(c) && Committed(c) && !Wedged(c) && u in c.bags && Enumerates(env.order, c)
    requires Helps(c, Hook(u, env))
    ensures var d := HookRun(c, u, env); Clean(d) || Distance(d) < Distance(c)
  {
    if c.app.rejoin {
      assert !WedgedAt(c, u);
      HelpAfterRejoin(c, u, env);
      assert HookRun(c, u, env) == RejoinCleanup(c, u, env).0;
    } else {
      HelpBeforeRejoin(c, u, env);
    }
  }

  // ---- Wedging ----------------------------------------------------------------------------

  lemma BeforeRejoinKeepsTheWedge(c: Cluster, u: Unit, env: Env, v: Unit)
    requires Inv(c) && Committed(c) && !c.app.rejoin && u in c.bags && Enumerates(env.order, c)
    ensures var b := BeforeRejoin(c, u, env).0; v in c.bags ==> (WedgedAt(c, v) <==> WedgedAt(b, v))
  {
    BeforeRejoinMoves(c, u, env);
    var b := BeforeRejoin(c, u, env).0;
    if b.app.rejoin {
      RejoinFollowsTheStop(c, u, env);
    }
  }

  lemma CleanupKeepsTheWedge(c: Cluster, u: Unit, env: Env, v: Unit)
    requires Inv(c) && c.app.rejoin && u in c.bags && v in c.bags
    ensures WedgedAt(c, v) ==> WedgedAt(RejoinCleanup(c, u, env).0, v)
    ensures WedgedAt(RejoinCleanup(c, u, env).0, v) ==> WedgedAt(c, v)
  {
  }

  // In a committed recovery a hook neither wedges a unit nor frees one.
  lemma CommittedHookKeepsTheWedge(c: Cluster, u: Unit, env: Env)
    requires Inv(c) && Committed(c) && u in c.bags && Enumerates(env.order, c)
    requires !Reinitialisation(c, u, env).1.Fails?
    ensures Wedged(Reinitialisation(c, u, env).0) <==> Wedged(c)
  {
    if !c.app.rejoin {
      BeforeRejoinMoves(c, u, env);
      BeforeRejoinKeepsInv(c, u, env);
      forall v { BeforeRejoinKeepsTheWedge(c, u, env, v); }
    }
    var (b, ending) := if c.app.rejoin then (c, Continues) else BeforeRejoin(c, u, env);
    assert b.bags.Keys == c.bags.Keys;
    assert Wedged(b) <==> Wedged(c);
    if ending.Continues? && b.app.rejoin {
      CleanupMoves(b, u, env);
      forall v | v in b.bags { CleanupKeepsTheWedge(b, u, env, v); }
    }
  }

  // Selecting the candidate first and then running the hook is the same as running the hook.
  lemma SelectionComesFirst(c: Cluster, u: Unit, env: Env)
    requires Inv(c) && !Committed(c) && u in c.bags && Enumerates(env.order, c)
    ensures var c1 := if c.leader == u then StuckClusterCheck(c, env.order) else c;
      Reinitialisation(c, u, env) == if Committed(c1) then Reinitialisation(c1, u, env) else (c, Continues)
  {
  }

  lemma HookKeepsTheWedge(c: Cluster, u: Unit, env: Env)
    requires Inv(c) && u in c.bags && Enumerates(env.order, c)
    requires !Reinitialisation(c, u, env).1.Fails?
    ensures Wedged(Reinitialisation(c, u, env).0) <==> Wedged(c)
  {
    if Committed(c) {
      CommittedHookKeepsTheWedge(c, u, env);
    } else {
      SelectionComesFirst(c, u, env);
      var c1 := if c.leader == u then StuckClusterCheck(c, env.order) else c;
      CheckKeepsInv(c, env.order);
      assert forall v :: WedgedAt(c1, v) <==> WedgedAt(c, v);
      if Committed(c1) {
        CommittedHookKeepsTheWedge(c1, u, env);
      }
    }
  }

  // Whether the forced promotion's own hook commits.
  predicate ForceCommits(c: Cluster, u: Unit, env: Env)
    requires u in c.bags && Enumerates(env.order, c)
  {
    var d := WithBag(c, u, c.bags[u].(candidate := true));
    c.leader == u ==> !Reinitialisation(d, u, env).1.Fails? && !Reinitialisation(d, u, env).1.Defers?
  }

  lemma ForceWedgesExactlyLate(c: Cluster, u: Unit, env: Env)
    requires Inv(c) && u in c.bags && Enumerates(env.order, c)
    ensures Wedged(Next(c, Force(u, env))) <==>
      Wedged(c) || (ForcedLate(c, Force(u, env)) && ForceCommits(c, u, env))
  {
    if HasRaftKeys(c, u) {
      var d := WithBag(c, u, c.bags[u].(candidate := true));
      SameFlagsKeepInv(c, d);
      assert forall v :: v != u ==> (WedgedAt(d, v) <==> WedgedAt(c, v));
      assert WedgedAt(d, u) <==> ForcedLate(c, Force(u, env));
      if c.leader == u {
        var r := Reinitialisation(d, u, env);
        if r.1.Fails? || r.1.Defers? {
          assert forall v :: WedgedAt(CommitAction(c, r), v) <==> WedgedAt(c, v);
        } else {
          HookKeepsTheWedge(d, u, env);
        }
      }
    }
  }

  /**
   A step wedges the recovery exactly when it forces a promotion on a unit that has already
   stopped, or after raft_rejoin was published, and commits; and no step frees a wedged one.
   */
  lemma OnlyLateForcingWedges(c: Cluster, step: Step)
    requires Inv(c) && Possible(c, step)
    ensures Wedged(Next(c, step)) <==>
      Wedged(c) || (ForcedLate(c, step) && ForceCommits(c, step.u, step.env))
  {
    var u, d := step.u, Next(c, step);
    match step
    case Force(_, env) => ForceWedgesExactlyLate(c, u, env);
    case Hook(_, env) =>
      if HasRaftKeys(c, u) {
        var r := Reinitialisation(c, u, env);
        if r.1.Fails? {
          assert forall v :: WedgedAt(Commit(c, r), v) <==> WedgedAt(c, v);
        } else {
          HookKeepsTheWedge(c, u, env);
        }
      }
    case Unwedge(_, _) =>
      assert d != c ==> forall v :: !WedgedAt(c, v) && !WedgedAt(d, v);
    case Elect(_) => assert forall v :: WedgedAt(d, v) <==> WedgedAt(c, v);
    case Readdress(_, _) => assert forall v :: WedgedAt(d, v) <==> WedgedAt(c, v);
    case Detect(_) => assert forall v :: WedgedAt(d, v) <==> WedgedAt(c, v);
  }

  // ---- A wedged run -----------------------------------------------------------------------

  // Both units lose the quorum, v is asked to take over, the leader u selects it and stops, v stops
  // as well, and v is asked once more.
  function AskedTwice(u: Unit, v: Unit, env: Env): seq<Step> {
    [Detect(u), Detect(v), Force(v, env), Hook(u, env), Hook(v, env), Force(v, env)]
  }

  lemma AskingTwiceWedges(start: Cluster, u: Unit, v: Unit, env: Env)
    requires Initial(start) && u != v && start.bags.Keys == {u, v} && start.leader == u
    requires env.order == [u, v] && env.wipe.Done? && !env.watcherActive
    ensures PossibleRun(start, AskedTwice(u, v, env)) && Wedged(After(start, AskedTwice(u, v, env)))
  {
    var steps := AskedTwice(u, v, env);
    var c3 := Next(Next(Next(start, steps[0]), steps[1]), steps[2]);
    AskedOnce(start, u, v, env);
    LastThree(c3, u, v, env);
    OneStep(Next(Next(start, steps[0]), steps[1]), steps, 2);
    OneStep(Next(start, steps[0]), steps, 1);
    OneStep(start, steps, 0);
    assert steps[0..] == steps;
  }

  lemma AskedOnce(start: Cluster, u: Unit, v: Unit, env: Env)
    requires Initial(start) && Pair(start, u, v) && env.order == [u, v]
    ensures var c := Next(Next(Next(start, Detect(u)), Detect(v)), Force(v, env));
      Pair(c, u, v) && !HasAppKeys(c.app) && c.bags[u] == UnitBag(true, false, false, false, c.bags[u].address) &&
      c.bags[v] == UnitBag(true, true, false, false, c.bags[v].address)
  {
  }

  lemma LastThree(c: Cluster, u: Unit, v: Unit, env: Env)
    requires Pair(c, u, v) && env.order == [u, v] && env.wipe.Done? && !env.watcherActive
    requires !HasAppKeys(c.app) && c.bags[u] == UnitBag(true, false, false, false, c.bags[u].address)
    requires c.bags[v] == UnitBag(true, true, false, false, c.bags[v].address)
    ensures var steps := AskedTwice(u, v, env);
      PossibleRun(c, steps[3..]) && Wedged(After(c, steps[3..]))
  {
    var steps := AskedTwice(u, v, env);
    LeaderSelects(c, u, v, env);
    var c4 := Next(c, steps[3]);
    CandidateStops(c4, u, v, env);
    var c5 := Next(c4, steps[4]);
    assert WedgedAt(Next(c5, steps[5]), v);
    assert steps[6..] == [];
    OneStep(c5, steps, 5);
    OneStep(c4, steps, 4);
    OneStep(c, steps, 3);
  }

  lemma OneStep(c: Cluster, steps: seq<Step>, k: nat)
    requires k < |steps| && Possible(c, steps[k]) && PossibleRun(Next(c, steps[k]), steps[k + 1..])
    ensures PossibleRun(c, steps[k..]) && After(c, steps[k..]) == After(Next(c, steps[k]), steps[k + 1..])
  {
    assert steps[k..][1..] == steps[k + 1..];
  }

  ghost predicate Pair(c: Cluster, u: Unit, v: Unit) {
    u != v && c.bags.Keys == {u, v} && c.leader == u
  }

  lemma LeaderSelects(c: Cluster, u: Unit, v: Unit, env: Env)
    requires Pair(c, u, v) && env.order == [u, v] && env.wipe.Done? && !env.watcherActive
    requires !HasAppKeys(c.app) && c.bags[u] == UnitBag(true, false, false, false, c.bags[u].address)
    requires c.bags[v] == UnitBag(true, true, false, false, c.bags[v].address)
    ensures var d := Next(c, Hook(u, env));
      Pair(d, u, v) && d.app == c.app.(selected := Some(v)) && d.bags[v] == c.bags[v] && d.bags[u].stopped &&
      !d.bags[u].primary
  {
    var c1 := StuckClusterCheck(c, env.order);
    assert FirstCandidate(env.order, c.bags) == FirstCandidate(env.order[1..], c.bags) == Some(v);
    assert c1.app.selected == Some(v);
    var c2 := SelectedCandidate(c1, u, env).0;
    assert !c2.bags[v].stopped && !SomePrimary(c2);
  }

  lemma CandidateStops(c: Cluster, u: Unit, v: Unit, env: Env)
    requires Pair(c, u, v) && env.order == [u, v] && env.wipe.Done? && !env.watcherActive
    requires c.app.selected == Some(v) && !c.app.followersStopped && !c.app.rejoin && !c.bags[v].stopped
    ensures var d := Next(c, Hook(v, env)); Pair(d, u, v) && d.app == c.app && d.bags[v].stopped
  {
  }

  // ---- Endless runs -----------------------------------------------------------------------

  ghost predicate Follows(trace: nat -> Cluster, steps: nat -> Step, i: nat) {
    Possible(trace(i), steps(i)) && trace(i + 1) == Next(trace(i), steps(i))
  }

  ghost predicate IsRun(trace: nat -> Cluster, steps: nat -> Step) {
    forall i: nat :: Follows(trace, steps, i)
  }

  ghost predicate SucceedsAt(steps: nat -> Step, u: Unit, i: nat) {
    steps(i).Hook? && steps(i).u == u && Succeeds(steps(i).env)
  }

  // From i on, u gets a hook whose calls succeed.
  ghost predicate GetsHook(steps: nat -> Step, u: Unit, i: nat) {
    exists j: nat :: j >= i && SucceedsAt(steps, u, j)
  }

  // From i on, a unit that leads gets a hook whose calls succeed.
  ghost predicate LeaderGetsHook(trace: nat -> Cluster, steps: nat -> Step, i: nat) {
    exists j: nat :: j >= i && SucceedsAt(steps, trace(j).leader, j)
  }

  // Every unit, and whoever leads, keeps getting hooks whose calls succeed.
  ghost predicate Fair(trace: nat -> Cluster, steps: nat -> Step) {
    && (forall u, i: nat :: u in trace(0).bags ==> GetsHook(steps, u, i))
    && (forall i: nat :: LeaderGetsHook(trace, steps, i))
  }

  lemma {:induction false} InvAt(trace: nat -> Cluster, steps: nat -> Step, i: nat, j: nat)
    requires IsRun(trace, steps) && Inv(trace(i)) && i <= j
    ensures Inv(trace(j)) && trace(j).bags.Keys == trace(i).bags.Keys
    ensures Wedged(trace(i)) ==> Wedged(trace(j))
    decreases j - i
  {
    if i == j {
    } else {
      InvAt(trace, steps, i, j - 1);
      assert Follows(trace, steps, j - 1);
      var step := steps(j - 1);
      NextKeepsInv(trace(j - 1), step);
      NextKeepsUnits(trace(j - 1), step);
      OnlyLateForcingWedges(trace(j - 1), step);
    }
  }

  lemma CommitKeepsUnits(before: Cluster, c: Cluster, u: Unit, env: Env)
    requires Inv(c) && u in c.bags && Enumerates(env.order, c) && c.bags.Keys == before.bags.Keys
    ensures Commit(before, Reinitialisation(c, u, env)).bags.Keys == before.bags.Keys
  {
    ReinitialisationKeepsInv(c, u, env);
  }

  lemma ForcingKeepsUnits(c: Cluster, u: Unit, env: Env)
    requires Inv(c) && u in c.bags && Enumerates(env.order, c)
    ensures ForcePromotion(c, u, env).bags.Keys == c.bags.Keys
  {
    var d := WithBag(c, u, c.bags[u].(candidate := true));
    SameFlagsKeepInv(c, d);
    ReinitialisationKeepsInv(d, u, env);
  }

  lemma NextKeepsUnits(c: Cluster, step: Step)
    requires Inv(c) && Possible(c, step)
    ensures Next(c, step).bags.Keys == c.bags.Keys
  {
    match step
    case Hook(u, env) => CommitKeepsUnits(c, c, u, env);
    case Force(u, env) => ForcingKeepsUnits(c, u, env);
    case Elect(_) =>
    case Readdress(_, _) =>
    case Detect(_) =>
    case Unwedge(_, _) =>
  }

  // Up to j nothing has ended the recovery or wedged it.
  ghost predicate Pending(trace: nat -> Cluster, i: nat, j: nat) {
    forall k: nat :: i <= k <= j ==> !Clean(trace(k)) && !Wedged(trace(k))
  }

  lemma UnwedgedStepAdvances(c: Cluster, step: Step)
    requires Inv(c) && Committed(c) && Possible(c, step) && !Wedged(Next(c, step))
    ensures Advances(c, Next(c, step))
  {
    OnlyLateForcingWedges(c, step);
    if ForcedLate(c, step) {
      SameBagsAdvance(c, Next(c, step));
    } else {
      NextAdvances(c, step);
    }
  }

  lemma WaitingStep(c: Cluster, step: Step, d: Cluster)
    requires Inv(c) && Committed(c) && Possible(c, step) && d == Next(c, step) && !Wedged(d) && !Clean(d)
    ensures Committed(d) && Distance(d) <= Distance(c)
    ensures Distance(d) == Distance(c) ==> Awaited(d) == Awaited(c)
  {
    UnwedgedStepAdvances(c, step);
    AdvancingIsNotFarther(c, d);
  }

  lemma {:induction false} PendingKeepsWaiting(
    trace: nat -> Cluster, steps: nat -> Step, i: nat, j: nat)
    requires IsRun(trace, steps) && Inv(trace(i)) && Committed(trace(i)) && i <= j
    requires Pending(trace, i, j)
    ensures Committed(trace(j)) && Distance(trace(j)) <= Distance(trace(i))
    ensures Distance(trace(j)) == Distance(trace(i)) ==> Awaited(trace(j)) == Awaited(trace(i))
    decreases j - i
  {
    if i == j {
    } else {
      PendingKeepsWaiting(trace, steps, i, j - 1);
      InvAt(trace, steps, i, j - 1);
      assert Follows(trace, steps, j - 1);
      WaitingStep(trace(j - 1), steps(j - 1), trace(j));
    }
  }

  lemma HelpingStep(c: Cluster, step: Step, d: Cluster)
    requires Inv(c) && Committed(c) && !Wedged(c) && Possible(c, step) && d == Next(c, step)
    requires Helps(c, step) && !Clean(d)
    ensures Distance(d) < Distance(c)
  {
    HelpingBringsTheEndNearer(c, step.u, step.env);
  }

  // When the awaited hook comes, at k, the recovery ends, wedges or gets nearer its end.
  lemma AwaitedHookHelps(trace: nat -> Cluster, steps: nat -> Step, i: nat, k: nat)
    requires IsRun(trace, steps) && Inv(trace(i)) && Committed(trace(i)) && i <= k
    requires SucceedsAt(steps, steps(k).u, k) && (steps(k).u in Awaited(trace(i)) ||
      (Awaited(trace(i)) == {} && steps(k).u == trace(k).leader))
    requires Pending(trace, i, k + 1)
    ensures Inv(trace(k + 1)) && Committed(trace(k + 1))
    ensures Distance(trace(k + 1)) < Distance(trace(i))
  {
    assert Pending(trace, i, k);
    PendingKeepsWaiting(trace, steps, i, k);
    PendingKeepsWaiting(trace, steps, i, k + 1);
    InvAt(trace, steps, i, k);
    InvAt(trace, steps, i, k + 1);
    assert !Wedged(trace(k)) && !Clean(trace(k + 1));
    assert Pending(trace, k, k + 1);
    PendingKeepsWaiting(trace, steps, k, k + 1);
    if Awaited(trace(k)) == Awaited(trace(i)) {
      assert Follows(trace, steps, k);
      HelpingStep(trace(k), steps(k), trace(k + 1));
    }
  }

  lemma AwaitedHookComes(trace: nat -> Cluster, steps: nat -> Step, i: nat) returns (k: nat)
    requires Fair(trace, steps) && trace(i).bags.Keys == trace(0).bags.Keys && Inv(trace(i))
    ensures k >= i && SucceedsAt(steps, steps(k).u, k)
    ensures steps(k).u in Awaited(trace(i)) ||
      (Awaited(trace(i)) == {} && steps(k).u == trace(k).leader)
  {
    if u :| u in Awaited(trace(i)) {
      assert GetsHook(steps, u, i);
      k :| k >= i && SucceedsAt(steps, u, k);
    } else {
      assert LeaderGetsHook(trace, steps, i);
      k :| k >= i && SucceedsAt(steps, trace(k).leader, k);
    }
  }

  lemma {:induction false} EndsOrWedges(trace: nat -> Cluster, steps: nat -> Step, i: nat)
    returns (k: nat)
    requires IsRun(trace, steps) && Fair(trace, steps) && Inv(trace(i)) && Committed(trace(i))
    requires trace(i).bags.Keys == trace(0).bags.Keys
    ensures k >= i && (Clean(trace(k)) || Wedged(trace(k)))
    decreases Distance(trace(i))
  {
    var j := AwaitedHookComes(trace, steps, i);
    if Pending(trace, i, j + 1) {
      AwaitedHookHelps(trace, steps, i, j);
      InvAt(trace, steps, i, j + 1);
      k := EndsOrWedges(trace, steps, j + 1);
    } else {
      k :| i <= k <= j + 1 && (Clean(trace(k)) || Wedged(trace(k)));
    }
  }

  ghost predicate CleanFrom(trace: nat -> Cluster, n: nat) {
    exists k: nat :: k >= n && Clean(trace(k))
  }

  // Counting from n, the run wedges at k and was not clean before.
  ghost predicate WedgesFirst(trace: nat -> Cluster, n: nat, k: nat) {
    n <= k && Wedged(trace(k)) && forall i: nat :: n <= i <= k ==> !Clean(trace(i))
  }

  lemma WedgedIsNotClean(c: Cluster)
    requires Wedged(c)
    ensures !Clean(c)
  {
  }

  // Counting from n, step k is the first to wedge the recovery: a promotion forced late that
  // commits, before the cluster was clean.
  ghost predicate ForcedLateAt(trace: nat -> Cluster, steps: nat -> Step, n: nat, k: nat) {
    n <= k && Possible(trace(k), steps(k)) && ForcedLate(trace(k), steps(k)) &&
    ForceCommits(trace(k), steps(k).u, steps(k).env) && forall i: nat :: n <= i <= k ==> !Clean(trace(i))
  }

  lemma {:induction false} WedgesByForcingLate(trace: nat -> Cluster, steps: nat -> Step, n: nat, k: nat)
    returns (i: nat)
    requires IsRun(trace, steps) && Inv(trace(n)) && !Wedged(trace(n)) && WedgesFirst(trace, n, k)
    ensures ForcedLateAt(trace, steps, n, i)
    decreases k
  {
    assert k > n;
    if Wedged(trace(k - 1)) {
      i := WedgesByForcingLate(trace, steps, n, k - 1);
    } else {
      i := k - 1;
      assert Follows(trace, steps, i);
      InvAt(trace, steps, n, i);
      OnlyLateForcingWedges(trace(i), steps(i));
    }
  }

  lemma ForcingLateWedges(trace: nat -> Cluster, steps: nat -> Step, n: nat, k: nat)
    requires IsRun(trace, steps) && Inv(trace(n)) && ForcedLateAt(trace, steps, n, k)
    ensures WedgesFirst(trace, n, k + 1)
  {
    assert Follows(trace, steps, k);
    InvAt(trace, steps, n, k);
    OnlyLateForcingWedges(trace(k), steps(k));
    WedgedIsNotClean(trace(k + 1));
  }

  /**
   In every endless fair run from a clean cluster, and from any moment at which a candidate is
   selected, the recovery ends with no raft_* key left in any databag if and only if it is never
   wedged before that.
   */
  lemma RecoversUnlessWedged(trace: nat -> Cluster, steps: nat -> Step, n: nat)
    requires IsRun(trace, steps) && Fair(trace, steps) && Initial(trace(0))
    requires Committed(trace(n))
    ensures CleanFrom(trace, n) <==> !(exists k: nat :: WedgesFirst(trace, n, k))
  {
    InitialHolds(trace(0));
    InvAt(trace, steps, 0, n);
    var end := EndsOrWedges(trace, steps, n);
    if k: nat :| WedgesFirst(trace, n, k) {
      forall i: nat | i >= n ensures !Clean(trace(i)) {
        if i > k {
          InvAt(trace, steps, n, k);
          InvAt(trace, steps, k, i);
          WedgedIsNotClean(trace(i));
        }
      }
    } else {
      assert Clean(trace(end)) || !WedgesFirst(trace, n, end);
    }
  }

  /**
   The same by what can be checked before a step: from a moment at which a candidate is selected and
   nothing is wedged, the recovery ends if and only if no promotion is forced late and commits before
   that.
   */
  lemma RecoversUnlessForcedLate(trace: nat -> Cluster, steps: nat -> Step, n: nat)
    requires IsRun(trace, steps) && Fair(trace, steps) && Initial(trace(0))
    requires Committed(trace(n)) && !Wedged(trace(n))
    ensures CleanFrom(trace, n) <==> !(exists k: nat :: ForcedLateAt(trace, steps, n, k))
  {
    InitialHolds(trace(0));
    InvAt(trace, steps, 0, n);
    RecoversUnlessWedged(trace, steps, n);
    if k: nat :| WedgesFirst(trace, n, k) {
      var i := WedgesByForcingLate(trace, steps, n, k);
    }
    if k: nat :| ForcedLateAt(trace, steps, n, k) {
      ForcingLateWedges(trace, steps, n, k);
    }
  }
}
