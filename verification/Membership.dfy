/**
 The members list of a VM cluster: the addresses the leader keeps in the application databag, and
 their reconciliation with the units Juju reports and the partners raft reports.
 */
module Membership {
  import opened Common

  type Ip = string
  type Host = string

  // A raft partner as the local status names it, and whether it is connected.
  datatype Partner = Partner(ip: Ip, watcher: bool, connected: bool, removable: bool)

  // What one hook sees. `bags` are the addresses in the unit databags, this unit's own included;
  // `own` is the address of this unit's network binding.
  datatype View = View(
    self: Host, own: Option<Ip>, bags: map<Host, Option<Ip>>,
    leader: bool, initialised: bool, pitrFailed: bool)

  function BagIps(view: View): set<Ip> {
    set h | h in view.bags && view.bags[h].Some? :: view.bags[h].value
  }

  function OwnIp(view: View): set<Ip> {
    if view.own.Some? then {view.own.value} else {}
  }

  // The state's addresses: this unit's binding and the other units' databags.
  function StateIps(view: View): set<Ip> {
    OwnIp(view) + set h | h in view.bags && h != view.self && view.bags[h].Some? :: view.bags[h].value
  }

  // The manager's addresses also count this unit's own databag.
  function ManagerIps(view: View): set<Ip> {
    OwnIp(view) + BagIps(view)
  }

  // Both are this unit's binding and databags; the two differ only while this unit's databag lags
  // behind its binding.
  lemma IpsAgreeExactlyWhenTheBagIsCurrent(view: View)
    ensures forall ip :: ip in ManagerIps(view) <==>
      view.own == Some(ip) || exists h :: h in view.bags && view.bags[h] == Some(ip)
    ensures forall ip :: ip in StateIps(view) <==>
      view.own == Some(ip) || exists h :: h in view.bags && h != view.self && view.bags[h] == Some(ip)
    ensures StateIps(view) <= ManagerIps(view)
    ensures StateIps(view) == ManagerIps(view) <==>
      (view.self in view.bags && view.bags[view.self].Some? ==> view.bags[view.self].value in StateIps(view))
  {
  }

  // What no outcome of a reconfiguration does: drop a current unit's address, add an address of no
  // unit, or repeat an address.
  ghost predicate Preserves(view: View, before: seq<Ip>, after: seq<Ip>) {
    (forall ip :: ip in before && ip in StateIps(view) ==> ip in after) &&
    (forall ip :: ip in after ==> ip in before || ip in ManagerIps(view)) &&
    (Distinct(before) ==> Distinct(after)) &&
    (!view.leader ==> after == before)
  }

  lemma PreservesComposes(view: View, a: seq<Ip>, b: seq<Ip>, c: seq<Ip>)
    requires Preserves(view, a, b) && Preserves(view, b, c)
    ensures Preserves(view, a, c)
  {
  }

  // How Patroni and the configuration answer while members are added.
  datatype Answer = AllReady | NotReady | ConfigFails

  // `known` and `knownThen` are the Patroni members as read for the comparison and for the loop.
  datatype Patroni = Patroni(
    known: set<Host>, knownThen: set<Host>, answers: map<Host, Answer>, configFails: bool, syncFails: bool)

  predicate Stale(view: View, p: Partner) {
    !p.connected && p.ip !in StateIps(view) && !p.watcher
  }

  // What a pass over the partners leaves of the list.
  function CleanedUp(view: View, ips: seq<Ip>, partners: seq<Partner>): seq<Ip>
    decreases |partners|
  {
    if partners == [] then ips
    else
      CleanedUp(view,
        if Stale(view, partners[0]) && view.leader then RemoveFirst(ips, partners[0].ip) else ips, partners[1..])
  }

  predicate CleanupSucceeds(view: View, running: bool, partners: Option<seq<Partner>>) {
    running ==> partners.Some? && forall p :: p in partners.value && Stale(view, p) ==> p.removable
  }

  // The list as the clean-up of a reconfiguration leaves it.
  function Cleaned(view: View, ips: seq<Ip>, running: bool, partners: Option<seq<Partner>>): seq<Ip> {
    if view.initialised && running && partners.Some? then CleanedUp(view, ips, partners.value) else ips
  }

  function AnswerOf(patroni: Patroni, host: Host): Answer {
    if host in patroni.answers then patroni.answers[host] else AllReady
  }

  // The hosts Patroni does not know, and the addresses they publish.
  function Unknown(view: View, patroni: Patroni): set<Host> {
    view.bags.Keys - patroni.knownThen
  }

  function IpsOf(view: View, hosts: set<Host>): set<Ip> {
    set h | h in hosts && h in view.bags && view.bags[h].Some? :: view.bags[h].value
  }

  // Patroni's members are the hosts and every address of the state is listed.
  predicate InOrder(view: View, patroni: Patroni, ips: seq<Ip>) {
    patroni.known == view.bags.Keys && StateIps(view) <= Elements(ips)
  }

  // The addresses listed once these hosts were added.
  function Added(view: View, ips: seq<Ip>, hosts: set<Host>): set<Ip> {
    Elements(ips) + if view.leader then IpsOf(view, hosts) else {}
  }

  // When adding members does not raise: it stops early after a failed point-in-time recovery and in
  // a cluster in order; otherwise no unknown host with an address is held up, no address still
  // missing meets a failing configuration, and the synchronous node count can be updated.
  predicate AddingSucceeds(view: View, patroni: Patroni, ips: seq<Ip>) {
    view.pitrFailed || InOrder(view, patroni, ips) ||
    ((forall h :: h in Unknown(view, patroni) && view.bags[h].Some? ==> AnswerOf(patroni, h).AllReady?) &&
     (StateIps(view) <= Added(view, ips, Unknown(view, patroni)) || !patroni.configFails) && !patroni.syncFails)
  }

  predicate RemovingSucceeds(view: View, ips: seq<Ip>, unremovable: set<Ip>) {
    forall ip :: ip in ips && ip !in ManagerIps(view) ==> ip !in unremovable
  }

  // An unknown host that Patroni finds not ready, or whose configuration fails, before it is listed.
  ghost predicate HeldUp(view: View, patroni: Patroni, host: Host) {
    host in view.bags && host !in patroni.knownThen && view.bags[host].Some? &&
    host in patroni.answers && !patroni.answers[host].AllReady?
  }

  // An address of the state that neither the list nor the leader's new members account for.
  ghost predicate Forgotten(view: View, patroni: Patroni, ips: seq<Ip>, ip: Ip) {
    ip in StateIps(view) && ip !in ips &&
    !(view.leader && exists h :: h in view.bags && h !in patroni.knownThen && view.bags[h] == Some(ip))
  }

  /** What makes adding members fail, and what removing the departed. */
  lemma FailsExactly(view: View, patroni: Patroni, ips: seq<Ip>, unremovable: set<Ip>)
    ensures !AddingSucceeds(view, patroni, ips) <==>
      !view.pitrFailed &&
      ((exists h :: h in view.bags && h !in patroni.known) || (exists h :: h in patroni.known && h !in view.bags) ||
       (exists ip :: ip in StateIps(view) && ip !in ips)) &&
      ((exists h :: HeldUp(view, patroni, h)) || patroni.syncFails ||
       (patroni.configFails && exists ip :: Forgotten(view, patroni, ips, ip)))
    ensures !RemovingSucceeds(view, ips, unremovable) <==>
      exists ip :: ip in ips && ip in unremovable && ip !in ManagerIps(view)
  {
    assert (exists h :: HeldUp(view, patroni, h)) <==>
      exists h :: h in Unknown(view, patroni) && view.bags[h].Some? && !AnswerOf(patroni, h).AllReady? by {
      forall h ensures HeldUp(view, patroni, h) <==>
        h in Unknown(view, patroni) && view.bags[h].Some? && !AnswerOf(patroni, h).AllReady?
      {
      }
    }
    forall ip ensures Forgotten(view, patroni, ips, ip) <==>
      ip in StateIps(view) && ip !in Added(view, ips, Unknown(view, patroni))
    {
    }
    assert StateIps(view) <= Elements(ips) <==> forall ip :: ip in StateIps(view) ==> ip in ips;
  }

  lemma Removed(view: View, ips: seq<Ip>, ip: Ip)
    requires ip !in StateIps(view)
    ensures view.leader ==> Preserves(view, ips, RemoveFirst(ips, ip))
    ensures Distinct(ips) ==> ip !in RemoveFirst(ips, ip)
  {
    if Distinct(ips) { RemoveFirstOfDistinct(ips, ip); }
  }

  class ClusterMembershipManager {
    // The application databag's members_ips.
    var membersIps: seq<Ip>

    method AddMemberIp(view: View, ip: Ip)
      modifies this
      ensures membersIps == if view.leader then AddOnce(old(membersIps), ip) else old(membersIps)
    {
      if !view.leader {
        return;
      }
      if ip !in membersIps {
        membersIps := membersIps + [ip];
      }
    }

    method RemoveMemberIp(view: View, ip: Ip)
      modifies this
      ensures membersIps == if view.leader then RemoveFirst(old(membersIps), ip) else old(membersIps)
    {
      if view.leader {
        membersIps := RemoveFirst(membersIps, ip);
      }
    }

    // Removes from raft, and from the list, every unconnected partner that is neither a unit of the
    // state nor the watcher. An error on the way is a failure; what was removed stays removed.
    method CleanupRaftCluster(view: View, running: bool, partners: Option<seq<Partner>>) returns (ok: bool)
      modifies this
      ensures ok == CleanupSucceeds(view, running, partners)
      ensures Preserves(view, old(membersIps), membersIps)
      ensures forall ip :: ip in membersIps ==> ip in old(membersIps)
      ensures ok ==>
        membersIps == if running then CleanedUp(view, old(membersIps), partners.value) else old(membersIps)
      ensures running && ok && view.leader && Distinct(old(membersIps)) ==>
        forall p :: p in partners.value && Stale(view, p) ==> p.ip !in membersIps
    {
      if !running {
        return true;
      }
      if partners.None? {
        return false;
      }
      for i := 0 to |partners.value|
        invariant Preserves(view, old(membersIps), membersIps)
        invariant forall ip :: ip in membersIps ==> ip in old(membersIps)
        invariant CleanedUp(view, old(membersIps), partners.value) == CleanedUp(view, membersIps, partners.value[i..])
        invariant forall j :: 0 <= j < i && Stale(view, partners.value[j]) ==> partners.value[j].removable
        invariant view.leader && Distinct(old(membersIps)) ==>
          forall j :: 0 <= j < i && Stale(view, partners.value[j]) ==> partners.value[j].ip !in membersIps
      {
        var p := partners.value[i];
        assert partners.value[i..][1..] == partners.value[i + 1..];
        if Stale(view, p) {
          if !p.removable {
            return false;
          }
          RemoveOne(view, p.ip);
        }
      }
      return true;
    }

    // Returns false where the source raises.
    method AddClusterMember(view: View, patroni: Patroni, host: Host) returns (ok: bool)
      requires host in view.bags
      modifies this
      ensures ok == (view.bags[host].None? || AnswerOf(patroni, host).AllReady?)
      ensures membersIps ==
        if view.leader && view.bags[host].Some? && !AnswerOf(patroni, host).NotReady?
        then AddOnce(old(membersIps), view.bags[host].value) else old(membersIps)
    {
      if view.bags[host].None? {
        return true;
      }
      if AnswerOf(patroni, host).NotReady? {
        return false;
      }
      AddMemberIp(view, view.bags[host].value);
      return !AnswerOf(patroni, host).ConfigFails?;
    }

    method AddUnknown(view: View, patroni: Patroni) returns (ok: bool)
      modifies this
      ensures ok <==> forall h :: h in Unknown(view, patroni) && view.bags[h].Some? ==> AnswerOf(patroni, h).AllReady?
      ensures Preserves(view, old(membersIps), membersIps)
      ensures Elements(old(membersIps)) <= Elements(membersIps)
      ensures ok ==> Elements(membersIps) == Added(view, old(membersIps), Unknown(view, patroni))
    {
      var hosts := Unknown(view, patroni);
      while hosts != {}
        invariant hosts <= Unknown(view, patroni)
        invariant Preserves(view, old(membersIps), membersIps)
        invariant Elements(membersIps) == Added(view, old(membersIps), Unknown(view, patroni) - hosts)
        invariant forall h :: h in Unknown(view, patroni) && h !in hosts && view.bags[h].Some? ==>
          AnswerOf(patroni, h).AllReady?
        decreases |hosts|
      {
        var host :| host in hosts;
        ghost var before := membersIps;
        ok := AddClusterMember(view, patroni, host);
        OneHostMore(view, old(membersIps), before, membersIps, Unknown(view, patroni), hosts, host);
        PreservesComposes(view, old(membersIps), before, membersIps);
        hosts := hosts - {host};
        if !ok {
          return;
        }
      }
      assert Unknown(view, patroni) - {} == Unknown(view, patroni);
      return true;
    }

    method AddMembers(view: View, patroni: Patroni) returns (ok: bool)
      modifies this
      ensures ok == AddingSucceeds(view, patroni, old(membersIps))
      ensures Preserves(view, old(membersIps), membersIps)
      ensures Elements(old(membersIps)) <= Elements(membersIps)
      ensures view.pitrFailed || InOrder(view, patroni, old(membersIps)) ==> membersIps == old(membersIps)
      ensures ok && view.leader && !view.pitrFailed && !InOrder(view, patroni, old(membersIps)) ==>
        Elements(membersIps) == Added(view, old(membersIps), Unknown(view, patroni)) + StateIps(view)
    {
      if view.pitrFailed {
        return true;
      }
      if patroni.known == view.bags.Keys && StateIps(view) <= Elements(membersIps) {
        return true;
      }
      ok := AddUnknown(view, patroni);
      if !ok {
        return;
      }
      ghost var added := Elements(membersIps);
      var missing := StateIps(view) - Elements(membersIps);
      assert added + missing == added + StateIps(view);
      if missing != {} {
        AddMissing(view, missing);
        if patroni.configFails {
          return false;
        }
      }
      return !patroni.syncFails;
    }

    method AddMissing(view: View, missing: set<Ip>)
      requires missing <= StateIps(view)
      modifies this
      ensures Preserves(view, old(membersIps), membersIps)
      ensures Elements(membersIps) == Elements(old(membersIps)) + if view.leader then missing else {}
    {
      var todo := missing;
      while todo != {}
        invariant todo <= missing
        invariant Preserves(view, old(membersIps), membersIps)
        invariant Elements(membersIps) == Elements(old(membersIps)) + if view.leader then missing - todo else {}
        decreases |todo|
      {
        var ip :| ip in todo;
        if view.leader { OneAddressMore(view, old(membersIps), membersIps, missing, todo, ip); }
        AddMemberIp(view, ip);
        todo := todo - {ip};
      }
    }

    method RemoveDeparted(view: View, unremovable: set<Ip>) returns (ok: bool)
      modifies this
      ensures ok == RemovingSucceeds(view, old(membersIps), unremovable)
      ensures Preserves(view, old(membersIps), membersIps)
      ensures forall ip :: ip in membersIps ==> ip in old(membersIps)
      ensures forall ip :: ip in old(membersIps) && ip in ManagerIps(view) ==> ip in membersIps
      ensures (forall ip :: ip in old(membersIps) ==> ip in ManagerIps(view)) ==> membersIps == old(membersIps)
      ensures ok && view.leader && Distinct(old(membersIps)) ==> Elements(membersIps) <= ManagerIps(view)
    {
      IpsAgreeExactlyWhenTheBagIsCurrent(view);
      var departed := Elements(membersIps) - ManagerIps(view);
      var todo := departed;
      while todo != {}
        invariant todo <= departed && forall ip :: ip in departed && ip !in todo ==> ip !in unremovable
        invariant Preserves(view, old(membersIps), membersIps)
        invariant forall ip :: ip in membersIps ==> ip in old(membersIps)
        invariant forall ip :: ip in old(membersIps) && ip in ManagerIps(view) ==> ip in membersIps
        invariant departed == {} ==> membersIps == old(membersIps)
        invariant view.leader && Distinct(old(membersIps)) ==>
          forall ip :: ip in departed && ip !in todo ==> ip !in membersIps
        decreases |todo|
      {
        var ip :| ip in todo;
        if ip in unremovable {
          return false;
        }
        todo := todo - {ip};
        RemoveOne(view, ip);
      }
      return true;
    }

    method RemoveOne(view: View, ip: Ip)
      requires ip !in StateIps(view)
      modifies this
      ensures membersIps == if view.leader then RemoveFirst(old(membersIps), ip) else old(membersIps)
      ensures Preserves(view, old(membersIps), membersIps)
      ensures view.leader && Distinct(old(membersIps)) ==> ip !in membersIps
    {
      Removed(view, membersIps, ip);
      RemoveMemberIp(view, ip);
    }

    // It succeeds exactly if its three parts do. On the leader a success outside a failed
    // point-in-time recovery leaves every address of the state on the list and nothing but addresses
    // of units; where the unit's databag is current the list holds exactly the units' addresses. In
    // a cluster in order with nothing to clean up it succeeds and changes nothing.
    method ReconfigureCluster(
      view: View, running: bool, partners: Option<seq<Partner>>, patroni: Patroni, unremovable: set<Ip>)
      returns (ok: bool)
      modifies this
      ensures var cleaned := Cleaned(view, old(membersIps), running, partners);
        ok == ((view.initialised ==> CleanupSucceeds(view, running, partners)) &&
               AddingSucceeds(view, patroni, cleaned) && RemovingSucceeds(view, cleaned, unremovable))
      ensures Preserves(view, old(membersIps), membersIps)
      ensures ok && view.leader && !view.pitrFailed ==> StateIps(view) <= Elements(membersIps)
      ensures ok && view.leader && Distinct(old(membersIps)) ==> Elements(membersIps) <= ManagerIps(view)
      ensures (ok && view.leader && !view.pitrFailed && Distinct(old(membersIps)) &&
        StateIps(view) == ManagerIps(view)) ==>
        Elements(membersIps) == StateIps(view) && |membersIps| == |StateIps(view)|
      ensures Idle(view, running, partners, patroni, old(membersIps)) ==> ok && membersIps == old(membersIps)
    {
      ghost var before := membersIps;
      if Idle(view, running, partners, patroni, before) {
        IdleGoesThrough(view, before, running, partners, patroni, unremovable);
      }
      if view.initialised {
        ok := CleanupRaftCluster(view, running, partners);
        if !ok {
          return;
        }
      }
      ghost var cleaned := membersIps;
      ok := AddMembers(view, patroni);
      PreservesComposes(view, before, cleaned, membersIps);
      if !ok {
        return;
      }
      ghost var added := membersIps;
      assert !view.pitrFailed && view.leader ==> StateIps(view) <= Elements(added);
      SameDepartures(view, cleaned, added, unremovable);
      ok := RemoveDeparted(view, unremovable);
      Reconfigured(view, before, added, membersIps);
    }
  }

  // The ordinary hook: the cluster is in order, lists no departed address, and has no stale partner.
  predicate Idle(view: View, running: bool, partners: Option<seq<Partner>>, patroni: Patroni, ips: seq<Ip>) {
    InOrder(view, patroni, ips) && Elements(ips) <= ManagerIps(view) &&
    (running ==> partners.Some? && forall p :: p in partners.value ==> !Stale(view, p))
  }

  lemma {:induction false} NoPartnerIsStale(view: View, ips: seq<Ip>, partners: seq<Partner>)
    requires forall p :: p in partners ==> !Stale(view, p)
    ensures CleanedUp(view, ips, partners) == ips
  {
    if partners == [] {
    } else {
      NoPartnerIsStale(view, ips, partners[1..]);
    }
  }

  /**
   On the leader a clean-up drops exactly the addresses of no unit under which raft reports a partner
   that is neither connected nor the watcher.
   */
  lemma {:induction false} CleaningExactly(view: View, ips: seq<Ip>, partners: seq<Partner>)
    requires view.leader && Distinct(ips)
    ensures forall ip :: ip in CleanedUp(view, ips, partners) <==>
      ip in ips && (ip in StateIps(view) || forall p :: p in partners && p.ip == ip ==> p.connected || p.watcher)
    decreases |partners|
  {
    if partners == [] {
    } else {
      var p := partners[0];
      RemoveFirstOfDistinct(ips, p.ip);
      CleaningExactly(view, if Stale(view, p) then RemoveFirst(ips, p.ip) else ips, partners[1..]);
      assert forall q :: q in partners <==> q == p || q in partners[1..];
    }
  }

  lemma NothingToCleanUp(view: View, ips: seq<Ip>, running: bool, partners: Option<seq<Partner>>)
    requires running ==> partners.Some? && forall p :: p in partners.value ==> !Stale(view, p)
    ensures CleanupSucceeds(view, running, partners) && Cleaned(view, ips, running, partners) == ips
    ensures running ==> CleanedUp(view, ips, partners.value) == ips
  {
    if running { NoPartnerIsStale(view, ips, partners.value); }
  }

  lemma IdleGoesThrough(
    view: View, ips: seq<Ip>, running: bool, partners: Option<seq<Partner>>, patroni: Patroni, unremovable: set<Ip>)
    requires Idle(view, running, partners, patroni, ips)
    ensures CleanupSucceeds(view, running, partners) && Cleaned(view, ips, running, partners) == ips
    ensures running ==> CleanedUp(view, ips, partners.value) == ips
    ensures AddingSucceeds(view, patroni, ips) && RemovingSucceeds(view, ips, unremovable)
    ensures forall ip :: ip in ips ==> ip in ManagerIps(view)
  {
    NothingToCleanUp(view, ips, running, partners);
    assert forall ip :: ip in ips ==> ip in Elements(ips);
  }

  // The list before, once the missing were added, and once the departed were removed.
  lemma Reconfigured(view: View, before: seq<Ip>, added: seq<Ip>, after: seq<Ip>)
    requires Preserves(view, before, added) && Preserves(view, added, after)
    ensures Preserves(view, before, after) && (Distinct(before) ==> |Elements(after)| == |after|)
    ensures StateIps(view) <= Elements(added) ==> StateIps(view) <= Elements(after)
  {
    PreservesComposes(view, before, added, after);
    DistinctCounts(after);
    assert forall ip :: ip in Elements(added) && ip in StateIps(view) ==> ip in after;
  }

  // Adding members adds nothing that would have to be removed.
  lemma SameDepartures(view: View, before: seq<Ip>, after: seq<Ip>, unremovable: set<Ip>)
    requires Preserves(view, before, after) && Elements(before) <= Elements(after)
    ensures RemovingSucceeds(view, before, unremovable) <==> RemovingSucceeds(view, after, unremovable)
  {
    assert forall ip :: ip in before ==> ip in Elements(after);
  }

  lemma OneAddressMore(view: View, first: seq<Ip>, ips: seq<Ip>, missing: set<Ip>, todo: set<Ip>, ip: Ip)
    requires view.leader && ip in todo && todo <= missing <= StateIps(view)
    requires Elements(ips) == Elements(first) + (missing - todo) && Preserves(view, first, ips)
    ensures Preserves(view, first, AddOnce(ips, ip))
    ensures Elements(AddOnce(ips, ip)) == Elements(first) + (missing - (todo - {ip}))
  {
    IpsAgreeExactlyWhenTheBagIsCurrent(view);
    assert Elements(AddOnce(ips, ip)) == Elements(ips) + {ip};
  }

  // One unknown host's turn: its address, if it publishes one, joins the list on the leader.
  lemma OneHostMore(
    view: View, first: seq<Ip>, before: seq<Ip>, after: seq<Ip>, hosts: set<Host>, todo: set<Host>, host: Host)
    requires todo <= hosts && host in todo && host in view.bags
    requires Elements(before) == Added(view, first, hosts - todo)
    requires after == before ||
      (view.leader && view.bags[host].Some? && after == AddOnce(before, view.bags[host].value))
    ensures Preserves(view, before, after) && Elements(before) <= Elements(after)
    ensures (view.leader && view.bags[host].Some? ==> view.bags[host].value in after) ==>
      Elements(after) == Added(view, first, hosts - (todo - {host}))
  {
    var ip := view.bags[host];
    assert hosts - (todo - {host}) == hosts - todo + {host};
    assert IpsOf(view, hosts - todo + {host}) ==
      IpsOf(view, hosts - todo) + if ip.Some? then {ip.value} else {};
    assert Elements(after) == Elements(before) || Elements(after) == Elements(before) + {ip.value};
  }

  lemma {:induction false} DistinctCounts(s: seq<Ip>)
    ensures Distinct(s) ==> |Elements(s)| == |s|
  {
    if s == [] {
    } else {
      DistinctCounts(s[1..]);
      assert Elements(s) == {s[0]} + Elements(s[1..]);
      assert Distinct(s) ==> s[0] !in s[1..];
    }
  }
}
