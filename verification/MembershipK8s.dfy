/**
 The members list of a Kubernetes cluster: endpoints are names generated from pod names, and a
 pod name is recovered from the front of an endpoint.
 */
module MembershipK8s {
  import opened Common

  // ---- Names ------------------------------------------------------------------------------

  // s.split(c)[-1]
  function AfterLast(s: string, c: char): (r: string)
    ensures c !in r
  {
    if c !in s then s
    else
      assert |s| > 0;
      if c in s[1..] then AfterLast(s[1..], c) else s[1..]
  }

  // s.split(c)[0]
  function BeforeFirst(s: string, c: char): (r: string)
    ensures c !in r
  {
    if s == "" || s[0] == c then "" else [s[0]] + BeforeFirst(s[1..], c)
  }

  lemma {:induction false} TextAfterTheLast(a: string, b: string, c: char)
    requires c !in b
    ensures AfterLast(a + [c] + b, c) == b
  {
    var s := a + [c] + b;
    assert s[|a|] == c;
    if a == "" {
      assert s[1..] == b;
    } else {
      assert s[1..] == a[1..] + [c] + b;
      assert s[1..][|a| - 1] == c;
      TextAfterTheLast(a[1..], b, c);
    }
  }

  lemma {:induction false} TextBeforeTheFirst(a: string, b: string, c: char)
    requires c !in a
    ensures BeforeFirst(a + [c] + b, c) == a
  {
    var s := a + [c] + b;
    if a == "" {
    } else {
      assert s[0] == a[0] && s[1..] == a[1..] + [c] + b;
      assert a == [a[0]] + a[1..];
      TextBeforeTheFirst(a[1..], b, c);
    }
  }

  function PodName(app: string, id: string): string {
    app + "-" + id
  }

  // get_hostname_from_member
  function Endpoint(app: string, member: string): string {
    PodName(app, AfterLast(member, '-')) + "." + (app + "-endpoints")
  }

  // An endpoint's front part names a member with that same endpoint.
  lemma EndpointsNameTheirMembers(app: string, member: string)
    requires '.' !in app && '.' !in AfterLast(member, '-')
    ensures BeforeFirst(Endpoint(app, member), '.') == PodName(app, AfterLast(member, '-'))
    ensures Endpoint(app, BeforeFirst(Endpoint(app, member), '.')) == Endpoint(app, member)
  {
    var id := AfterLast(member, '-');
    assert '.' !in PodName(app, id);
    TextBeforeTheFirst(PodName(app, id), app + "-endpoints", '.');
    TextAfterTheLast(app, id, '-');
  }

  // Different pods of one application have different endpoints.
  lemma EndpointsAreInjective(app: string, i: string, j: string)
    requires '.' !in app && '-' !in i && '-' !in j && '.' !in i && '.' !in j
    requires Endpoint(app, PodName(app, i)) == Endpoint(app, PodName(app, j))
    ensures i == j
  {
    TextAfterTheLast(app, i, '-');
    TextAfterTheLast(app, j, '-');
    EndpointsNameTheirMembers(app, PodName(app, i));
    EndpointsNameTheirMembers(app, PodName(app, j));
  }

  // ---- The endpoints list -----------------------------------------------------------------

  // What one hook sees: the application's name, the pods Juju reports, whether this unit leads,
  // and which members Patroni knows (None when it cannot be reached).
  datatype View = View(app: string, hosts: set<string>, leader: bool, initialised: bool)

  // Pod names are the application's name with a unit number.
  ghost predicate ProperHosts(view: View) {
    '.' !in view.app && forall h :: h in view.hosts ==> '.' !in AfterLast(h, '-')
  }

  function HostEndpoints(view: View): set<string> {
    set h | h in view.hosts :: Endpoint(view.app, h)
  }

  // Patroni's members are the pods and exactly their endpoints are listed.
  predicate InOrder(view: View, known: set<string>, endpoints: seq<string>) {
    known == view.hosts && Elements(endpoints) == HostEndpoints(view)
  }

  // Everybody to add is ready: the pods Patroni does not know, and those not listed yet.
  predicate NewOnesAreReady(view: View, knownThen: set<string>, notReady: set<string>, endpoints: seq<string>) {
    (forall h :: h in view.hosts && h !in knownThen ==> h !in notReady) &&
    forall e :: e in HostEndpoints(view) && e !in endpoints ==> BeforeFirst(e, '.') !in notReady
  }

  // A member to add that is not ready: of a pod Patroni does not know, or of one not listed yet.
  ghost predicate HoldsUp(view: View, knownThen: set<string>, notReady: set<string>, endpoints: seq<string>, m: string)
  {
    m in notReady &&
    ((m in view.hosts && m !in knownThen) ||
     exists h :: h in view.hosts && Endpoint(view.app, h) !in endpoints && BeforeFirst(Endpoint(view.app, h), '.') == m)
  }

  lemma WaitingExactly(
    view: View, known: set<string>, knownThen: set<string>, notReady: set<string>, endpoints: seq<string>)
    ensures !NewOnesAreReady(view, knownThen, notReady, endpoints) <==>
      exists m :: HoldsUp(view, knownThen, notReady, endpoints, m)
    ensures !InOrder(view, known, endpoints) <==>
      (exists h :: h in known && h !in view.hosts) || (exists h :: h in view.hosts && h !in known) ||
      (exists h :: h in view.hosts && Endpoint(view.app, h) !in endpoints) ||
      (exists e :: e in endpoints && forall h :: h in view.hosts ==> Endpoint(view.app, h) != e)
  {
    if m :| HoldsUp(view, knownThen, notReady, endpoints, m) && !(m in view.hosts && m !in knownThen) {
      var h :| h in view.hosts && Endpoint(view.app, h) !in endpoints && BeforeFirst(Endpoint(view.app, h), '.') == m;
      assert Endpoint(view.app, h) in HostEndpoints(view);
    }
    if e :| e in HostEndpoints(view) && e !in endpoints && BeforeFirst(e, '.') in notReady {
      assert HoldsUp(view, knownThen, notReady, endpoints, BeforeFirst(e, '.'));
    }
    if h :| h in view.hosts && h !in knownThen && h in notReady {
      assert HoldsUp(view, knownThen, notReady, endpoints, h);
    }
    assert forall e :: e in Elements(endpoints) <==> e in endpoints;
    assert forall h :: h in view.hosts ==> Endpoint(view.app, h) in HostEndpoints(view);
  }

  datatype Result = Completed | Deferred | Skipped

  class K8sMembershipManager {
    // The application databag's endpoints.
    var endpoints: seq<string>

    method AddEndpoint(view: View, endpoint: string)
      modifies this
      ensures endpoints == if view.leader then AddOnce(old(endpoints), endpoint) else old(endpoints)
    {
      if !view.leader {
        return;
      }
      if endpoint !in endpoints {
        endpoints := endpoints + [endpoint];
      }
    }

    method RemoveEndpoint(view: View, endpoint: string)
      modifies this
      ensures endpoints == if view.leader then RemoveFirst(old(endpoints), endpoint) else old(endpoints)
    {
      if view.leader {
        endpoints := RemoveFirst(endpoints, endpoint);
      }
    }

    // `known` and `knownThen` are Patroni's members as read for the comparison and for the loop;
    // `notReady` the members at which some member is found not ready; `syncFails` the last call.
    method AddMembers(view: View, known: set<string>, knownThen: set<string>, notReady: set<string>, syncFails: bool)
      returns (result: Result)
      requires ProperHosts(view)
      modifies this
      ensures forall e :: e in old(endpoints) ==> e in endpoints
      ensures forall e :: e in endpoints ==> e in old(endpoints) || e in HostEndpoints(view)
      ensures Distinct(old(endpoints)) ==> Distinct(endpoints)
      ensures result.Skipped? <==> !view.leader || !view.initialised
      ensures result.Completed? <==> (view.leader && view.initialised &&
        (InOrder(view, known, old(endpoints)) ||
         (NewOnesAreReady(view, knownThen, notReady, old(endpoints)) && !syncFails)))
      ensures result.Skipped? || InOrder(view, known, old(endpoints)) ==> endpoints == old(endpoints)
      ensures result.Completed? ==> HostEndpoints(view) <= Elements(endpoints)
    {
      if !view.leader || !view.initialised {
        return Skipped;
      }
      var wanted := HostEndpoints(view);
      if known == view.hosts && Elements(endpoints) == wanted {
        return Completed;
      }
      ghost var before := endpoints;
      var missing := wanted - Elements(endpoints);
      var members := (view.hosts - knownThen) + set e | e in missing :: BeforeFirst(e, '.');
      assert forall e :: e in wanted ==> e in endpoints || e in missing;
      forall m | m in members ensures Endpoint(view.app, m) in wanted {
        if m !in view.hosts {
          var h :| h in view.hosts && BeforeFirst(Endpoint(view.app, h), '.') == m;
          EndpointsNameTheirMembers(view.app, h);
        }
      }
      forall e | e in missing ensures BeforeFirst(e, '.') in members && Endpoint(view.app, BeforeFirst(e, '.')) == e {
        var h :| h in view.hosts && Endpoint(view.app, h) == e;
        EndpointsNameTheirMembers(view.app, h);
      }
      assert members !! notReady <==> NewOnesAreReady(view, knownThen, notReady, before);
      var ok := AddAll(view, members, notReady);
      return if ok && !syncFails then Completed else Deferred;
    }

    method AddAll(view: View, members: set<string>, notReady: set<string>) returns (ok: bool)
      requires view.leader && forall m :: m in members ==> Endpoint(view.app, m) in HostEndpoints(view)
      modifies this
      ensures forall e :: e in old(endpoints) ==> e in endpoints
      ensures forall e :: e in endpoints ==> e in old(endpoints) || e in HostEndpoints(view)
      ensures Distinct(old(endpoints)) ==> Distinct(endpoints)
      ensures ok <==> members !! notReady
      ensures ok ==> forall m :: m in members ==> Endpoint(view.app, m) in endpoints
    {
      var todo := members;
      while todo != {}
        invariant todo <= members
        invariant forall e :: e in old(endpoints) ==> e in endpoints
        invariant forall e :: e in endpoints ==> e in old(endpoints) || e in HostEndpoints(view)
        invariant Distinct(old(endpoints)) ==> Distinct(endpoints)
        invariant forall m :: m in members && m !in todo ==> m !in notReady && Endpoint(view.app, m) in endpoints
        decreases |todo|
      {
        var member :| member in todo;
        if member in notReady {
          return false;
        }
        todo := todo - {member};
        AddEndpoint(view, Endpoint(view.app, member));
      }
      return true;
    }

    method RemoveDepartedEndpoints(view: View) returns (removed: set<string>)
      modifies this
      ensures removed == Elements(old(endpoints)) - HostEndpoints(view)
      ensures Distinct(old(endpoints)) ==> Distinct(endpoints)
      ensures view.leader && Distinct(old(endpoints)) ==>
        forall e :: e in endpoints <==> e in old(endpoints) && e in HostEndpoints(view)
      ensures !view.leader ==> endpoints == old(endpoints)
    {
      removed := Elements(endpoints) - HostEndpoints(view);
      var todo := removed;
      while todo != {}
        invariant todo <= removed && (!view.leader ==> endpoints == old(endpoints))
        invariant forall e :: e in removed <==> e in old(endpoints) && e !in HostEndpoints(view)
        invariant Distinct(old(endpoints)) ==> Distinct(endpoints)
        invariant forall e :: e in endpoints ==> e in old(endpoints)
        invariant forall e :: e in old(endpoints) && (e in todo || e !in removed) ==> e in endpoints
        invariant view.leader && Distinct(old(endpoints)) ==> forall e :: e in removed && e !in todo ==> e !in endpoints
        decreases |todo|
      {
        var endpoint :| endpoint in todo;
        todo := todo - {endpoint};
        if Distinct(endpoints) { RemoveFirstOfDistinct(endpoints, endpoint); }
        RemoveEndpoint(view, endpoint);
      }
    }

    // The two in a row, on the leader: exactly the endpoints of the units.
    method Reconcile(view: View, known: set<string>, knownThen: set<string>, notReady: set<string>, syncFails: bool)
      returns (result: Result)
      requires ProperHosts(view)
      modifies this
      ensures result.Completed? && Distinct(old(endpoints)) ==>
        Elements(endpoints) == HostEndpoints(view) && Distinct(endpoints)
      ensures result.Completed? <==> (view.leader && view.initialised &&
        (InOrder(view, known, old(endpoints)) ||
         (NewOnesAreReady(view, knownThen, notReady, old(endpoints)) && !syncFails)))
    {
      result := AddMembers(view, known, knownThen, notReady, syncFails);
      if result.Completed? {
        var removed := RemoveDepartedEndpoints(view);
      }
    }
  }
}
