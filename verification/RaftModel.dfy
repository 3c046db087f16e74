/**
 Majority-loss recovery of the RAFT cluster, as a state machine over a fixed set of units.

 Every unit runs its hooks one at a time and sees the unit databags and the application
 databag. The functions below give the databags after each piece of the recovery; the class
 in RaftManager.dfy updates them in place and is proved to compute exactly these functions.

 The flags of a databag are booleans: a key is present or it is not.
 */
module RaftModel {
  import opened Common

  type Unit = string

  // The raft_* keys of one unit's databag, and the address it publishes ("" when absent).
  datatype UnitBag = UnitBag(
    stuck: bool, candidate: bool, stopped: bool, primary: bool, address: string)

  // The raft_* keys of the application databag, and the member list.
  datatype AppBag = AppBag(
    selected: Option<Unit>, followersStopped: bool, resetPrimary: bool, rejoin: bool,
    members: seq<string>)

  // What is true of a unit's machine, whatever the databags say.
  datatype Host = Host(running: bool, journal: bool)

  /** `attempts` counts the calls to reinitialise_raft_data since the cluster was last clean. */
  datatype Cluster = Cluster(
    bags: map<Unit, UnitBag>, app: AppBag, hosts: map<Unit, Host>, leader: Unit, attempts: nat)

  // How a call outside the databags ends. A recovery timeout is caught by the event handlers,
  // so the databag writes made before it are kept; any other exception fails the hook, which
  // then commits nothing. Either way the machine is left in some state.
  datatype Effect = Done | TimedOut(host: Host) | Raised(host: Host)

  // Everything a hook learns from outside the databags. `order` is the order in which this
  // hook enumerates the units, `unitIp` the address of the unit it runs on ("" when unknown).
  datatype Env = Env(
    order: seq<Unit>, unitIp: string, watcherActive: bool,
    wipe: Effect, reinit: Effect, endpointsUpdated: bool, restart: Effect)

  // How a piece of a hook ends: it falls through, it returns early, it defers or it fails.
  datatype Ending = Continues | Returns | Defers | Fails

  predicate HasUnitKeys(b: UnitBag) {
    b.stuck || b.candidate || b.stopped || b.primary
  }

  predicate HasAppKeys(a: AppBag) {
    a.selected.Some? || a.followersStopped || a.resetPrimary || a.rejoin
  }

  // CharmState.has_raft_keys as unit u computes it.
  predicate HasRaftKeys(c: Cluster, u: Unit)
    requires u in c.bags
  {
    HasAppKeys(c.app) || HasUnitKeys(c.bags[u])
  }

  ghost predicate WellFormed(c: Cluster) {
    c.bags.Keys == c.hosts.Keys && c.leader in c.bags
  }

  predicate Enumerates(order: seq<Unit>, c: Cluster) {
    (forall u :: u in order ==> u in c.bags) && (forall u :: u in c.bags ==> u in order)
  }

  // The clusters with the same units that are also well formed.
  ghost predicate SameUnits(c: Cluster, d: Cluster) {
    d.bags.Keys == c.bags.Keys && d.hosts.Keys == c.hosts.Keys && d.leader == c.leader
  }

  function WithBag(c: Cluster, u: Unit, b: UnitBag): Cluster {
    c.(bags := c.bags[u := b])
  }

  function WithHost(c: Cluster, u: Unit, h: Host): Cluster {
    c.(hosts := c.hosts[u := h])
  }

  // ---- Leader-side pieces -----------------------------------------------------------------

  function FirstCandidate(order: seq<Unit>, bags: map<Unit, UnitBag>): (r: Option<Unit>)
    requires forall u :: u in order ==> u in bags
    ensures r.Some? ==> r.value in order && bags[r.value].candidate
    ensures r.None? ==> forall u :: u in order ==> !bags[u].candidate
  {
    if order == [] then None
    else if bags[order[0]].candidate then Some(order[0])
    else FirstCandidate(order[1..], bags)
  }

  predicate AllStuck(c: Cluster) {
    forall u :: u in c.bags ==> c.bags[u].stuck
  }

  predicate AllStopped(c: Cluster) {
    forall u :: u in c.bags ==> c.bags[u].stopped
  }

  predicate NoUnitKeys(c: Cluster) {
    forall u :: u in c.bags ==> !HasUnitKeys(c.bags[u])
  }

  predicate SomePrimary(c: Cluster) {
    exists u :: u in c.bags && c.bags[u].primary
  }

  function StuckClusterCheck(c: Cluster, order: seq<Unit>): Cluster
    requires Enumerates(order, c)
  {
    if order != [] && AllStuck(c) && c.app.selected.None? then
      c.(app := c.app.(selected := FirstCandidate(order, c.bags)))
    else c
  }

  function StuckClusterStoppedCheck(c: Cluster): Cluster {
    if AllStopped(c) then c.(app := c.app.(followersStopped := true)) else c
  }

  // The addresses of the units of `order`, added once each to `members`.
  function AddAddresses(members: seq<string>, order: seq<Unit>, bags: map<Unit, UnitBag>)
    : (r: seq<string>)
    requires forall u :: u in order ==> u in bags
    ensures forall ip :: ip in r <==>
      ip in members || exists u :: u in order && bags[u].address == ip && ip != ""
    ensures Distinct(members) ==> Distinct(r)
    decreases |order|
  {
    if order == [] then members
    else
      var ip := bags[order[0]].address;
      AddAddresses(if ip != "" then AddOnce(members, ip) else members, order[1..], bags)
  }

  function RebuiltMembers(c: Cluster, order: seq<Unit>, unitIp: string): seq<string>
    requires Enumerates(order, c)
  {
    var peers := AddAddresses([], order, c.bags);
    if unitIp != "" then AddOnce(peers, unitIp) else peers
  }

  function StuckClusterRejoin(c: Cluster, env: Env): (Cluster, Ending)
    requires Enumerates(env.order, c)
  {
    var resets := SomePrimary(c) && !c.app.resetPrimary;
    var d := if resets
      then c.(app := c.app.(resetPrimary := true, members := RebuiltMembers(c, env.order, env.unitIp)))
      else c;
    if resets && !env.endpointsUpdated then (d, Fails)
    else if !d.app.rejoin && d.app.followersStopped && d.app.resetPrimary then
      (d.(app := d.app.(rejoin := true)), Continues)
    else (d, Continues)
  }

  function StuckClusterCleanup(c: Cluster): Cluster {
    if NoUnitKeys(c)
    then c.(attempts := 0, app := c.app.(
      rejoin := false, resetPrimary := false, selected := None, followersStopped := false))
    else c
  }

  // ---- Unit-side pieces -------------------------------------------------------------------

  // _reinit_selected_candidate: stop Patroni and drop the journal, once a candidate is known.
  function SelectedCandidate(c: Cluster, u: Unit, env: Env): (Cluster, Ending)
    requires u in c.bags
  {
    if c.app.selected.Some? && !c.bags[u].stopped then
      var popped := c.bags[u].(stuck := false, candidate := false);
      match env.wipe
      case Done =>
        var d := WithHost(WithBag(c, u, popped.(stopped := true)), u, Host(false, false));
        (d, if env.watcherActive then Returns else Continues)
      case TimedOut(h) => (WithHost(WithBag(c, u, popped), u, h), Defers)
      case Raised(h) => (WithHost(WithBag(c, u, popped), u, h), Fails)
    else (c, Continues)
  }

  predicate MayPromote(c: Cluster, u: Unit)
    requires u in c.bags
  {
    c.app.selected == Some(u) && !c.bags[u].primary && c.app.followersStopped
  }

  // _reinit_promote_candidate: reinitialise raft on the selected unit.
  function PromoteCandidate(c: Cluster, u: Unit, env: Env): (Cluster, Ending)
    requires u in c.bags
  {
    if MayPromote(c, u) then
      var d := c.(attempts := c.attempts + 1);
      match env.reinit
      case Done =>
        (WithHost(WithBag(d, u, c.bags[u].(primary := true)), u, Host(true, true)), Continues)
      case TimedOut(h) => (WithHost(d, u, h), Defers)
      case Raised(h) => (WithHost(d, u, h), Fails)
    else (c, Continues)
  }

  // _reinit_rejoin_cleanup: drop the unit's flags, start Patroni, and clean up on the leader.
  function RejoinCleanup(c: Cluster, u: Unit, env: Env): (Cluster, Ending)
    requires u in c.bags
  {
    var d := WithBag(c, u, c.bags[u].(primary := false, stopped := false));
    if env.restart.Done? then
      var e := WithHost(d, u, Host(true, true));
      (if c.leader == u then StuckClusterCleanup(e) else e, Continues)
    else (WithHost(d, u, env.restart.host), Fails)
  }

  // ---- raft_reinitialisation --------------------------------------------------------------

  // The databags when raft_reinitialisation is about to consider promoting this unit, or when
  // it stopped before that.
  function BeforePromotion(c: Cluster, u: Unit, env: Env): (Cluster, Ending)
    requires u in c.bags && Enumerates(env.order, c)
  {
    var leads := c.leader == u;
    var c1 := if leads then StuckClusterCheck(c, env.order) else c;
    var (c2, ending) := SelectedCandidate(c1, u, env);
    (if ending.Continues? && leads then StuckClusterStoppedCheck(c2) else c2, ending)
  }

  // The first half of raft_reinitialisation, run while raft_rejoin is not published.
  function BeforeRejoin(c: Cluster, u: Unit, env: Env): (Cluster, Ending)
    requires u in c.bags && Enumerates(env.order, c)
  {
    var (c3, e3) := BeforePromotion(c, u, env);
    if !e3.Continues? then (c3, e3) else
    var (c4, e4) := PromoteCandidate(c3, u, env);
    if !e4.Continues? || c.leader != u then (c4, e4) else
    StuckClusterRejoin(c4, env)
  }

  function Reinitialisation(c: Cluster, u: Unit, env: Env): (Cluster, Ending)
    requires u in c.bags && Enumerates(env.order, c)
  {
    var (d, ending) := if c.app.rejoin then (c, Continues) else BeforeRejoin(c, u, env);
    if ending.Continues? && d.app.rejoin then RejoinCleanup(d, u, env) else (d, ending)
  }

  // What the framework keeps of a hook that took `before` to `after`: a failed hook commits no
  // databag write, but what it did to the machine stays done.
  function Commit(before: Cluster, after: (Cluster, Ending)): Cluster {
    if after.1.Fails? then before.(hosts := after.0.hosts, attempts := after.0.attempts) else after.0
  }

  // An action cannot be deferred: where a hook would be, it fails.
  function Undeferred(after: (Cluster, Ending)): (Cluster, Ending) {
    (after.0, if after.1.Defers? then Fails else after.1)
  }

  function CommitAction(before: Cluster, after: (Cluster, Ending)): Cluster {
    Commit(before, Undeferred(after))
  }

  // ---- Steps ------------------------------------------------------------------------------

  datatype Step =
    | Elect(u: Unit)                    // leadership moves
    | Readdress(u: Unit, ip: string)    // a unit publishes another address
    | Detect(u: Unit)                   // remove_raft_member finds the quorum lost
    | Force(u: Unit, env: Env)          // promote-to-primary scope=unit force=true
    | Hook(u: Unit, env: Env)           // peer-relation-changed or leader-elected
    | Unwedge(u: Unit, quorum: bool)    // unwedge_stale_recovery

  predicate Possible(c: Cluster, step: Step) {
    step.u in c.bags &&
    (step.Force? || step.Hook? ==> Enumerates(step.env.order, c))
  }

  function DetectStuck(c: Cluster, u: Unit): Cluster
    requires u in c.bags
  {
    if HasRaftKeys(c, u) then c else WithBag(c, u, c.bags[u].(stuck := true))
  }

  function HookRun(c: Cluster, u: Unit, env: Env): Cluster
    requires u in c.bags && Enumerates(env.order, c)
  {
    if HasRaftKeys(c, u) then Commit(c, Reinitialisation(c, u, env)) else c
  }

  function ForcePromotion(c: Cluster, u: Unit, env: Env): Cluster
    requires u in c.bags && Enumerates(env.order, c)
  {
    if !HasRaftKeys(c, u) then c else
    var d := WithBag(c, u, c.bags[u].(candidate := true));
    if c.leader == u then CommitAction(c, Reinitialisation(d, u, env)) else d
  }

  predicate MachineCommitted(c: Cluster) {
    (exists u :: u in c.bags && c.bags[u].stopped) || HasAppKeys(c.app)
  }

  function UnwedgeStaleRecovery(c: Cluster, u: Unit, quorum: bool): Cluster
    requires u in c.bags
  {
    if !HasRaftKeys(c, u) || !quorum || MachineCommitted(c) then c else
    var b := c.bags[u].(stuck := false, candidate := false, stopped := false, primary := false);
    WithBag(c, u, b)
  }

  function Next(c: Cluster, step: Step): Cluster
    requires Possible(c, step)
  {
    match step
    case Elect(u) => c.(leader := u)
    case Readdress(u, ip) => WithBag(c, u, c.bags[u].(address := ip))
    case Detect(u) => DetectStuck(c, u)
    case Force(u, env) => ForcePromotion(c, u, env)
    case Hook(u, env) => HookRun(c, u, env)
    case Unwedge(u, quorum) => UnwedgeStaleRecovery(c, u, quorum)
  }

  // ---- Runs -------------------------------------------------------------------------------

  // No recovery key anywhere: the state a recovery starts from and must come back to.
  predicate Clean(c: Cluster) {
    NoUnitKeys(c) && !HasAppKeys(c.app)
  }

  predicate PossibleRun(c: Cluster, steps: seq<Step>)
    decreases |steps|
  {
    steps == [] || (Possible(c, steps[0]) && PossibleRun(Next(c, steps[0]), steps[1..]))
  }

  function After(c: Cluster, steps: seq<Step>): Cluster
    requires PossibleRun(c, steps)
    decreases |steps|
  {
    if steps == [] then c else After(Next(c, steps[0]), steps[1..])
  }
}
