/**
 The network of applications related for logical replication. For one database and table the
 publications form a graph in which every application has at most one publisher; the chains
 published with them are meant to be the paths of that graph.
 */
module LogicalGraph {
  import opened Common
  import opened LogicalChains

  // ---- Paths and cycles of a graph with one upstream per node -----------------------------

  type Graph = map<Identity, Identity>

  // The path from the origin of the data to `p`.
  ghost predicate UpPath(g: Graph, p: Identity, path: seq<Identity>) {
    |path| > 0 && path[|path| - 1] == p && path[0] !in g &&
    forall i :: 1 <= i < |path| ==> path[i] in g && g[path[i]] == path[i - 1]
  }

  ghost predicate Rooted(g: Graph) {
    forall x :: x in g ==> exists path :: UpPath(g, x, path)
  }

  ghost predicate IsCycle(g: Graph, walk: seq<Identity>) {
    |walk| >= 2 && walk[0] == walk[|walk| - 1] &&
    forall i :: 0 <= i < |walk| - 1 ==> walk[i] in g && g[walk[i]] == walk[i + 1]
  }

  ghost predicate Acyclic(g: Graph) {
    forall walk :: !IsCycle(g, walk)
  }

  lemma {:induction false} PathsAreUnique(g: Graph, p: Identity, a: seq<Identity>, b: seq<Identity>)
    requires UpPath(g, p, a) && UpPath(g, p, b)
    ensures a == b
    decreases |a|
  {
    var m, n := |a| - 1, |b| - 1;
    assert a == a[..m] + [p] && b == b[..n] + [p];
    if m == 0 || n == 0 {
    } else {
      PathsAreUnique(g, g[p], a[..m], b[..n]);
    }
  }

  lemma {:induction false} WalkingUp(g: Graph, walk: seq<Identity>, path: seq<Identity>, k: nat)
    requires |walk| > k && UpPath(g, walk[0], path)
    requires forall i :: 0 <= i < k ==> walk[i] in g && g[walk[i]] == walk[i + 1]
    ensures k < |path| && UpPath(g, walk[k], path[..|path| - k])
    decreases k
  {
    if k > 0 {
      WalkingUp(g, walk, path, k - 1);
      var rest := path[..|path| - k + 1];
      assert |rest| > 1;
      assert path[..|path| - k] == rest[..|rest| - 1];
    } else {
      assert path[..|path|] == path;
    }
  }

  lemma RootedMeansAcyclic(g: Graph)
    requires Rooted(g)
    ensures Acyclic(g)
  {
    forall walk ensures !IsCycle(g, walk) {
      if IsCycle(g, walk) {
        var path :| UpPath(g, walk[0], path);
        WalkingUp(g, walk, path, |walk| - 1);
        PathsAreUnique(g, walk[0], path, path[..|path| - (|walk| - 1)]);
        assert false;
      }
    }
  }

  lemma {:induction false} PathsHaveNoRepeats(g: Graph, p: Identity, path: seq<Identity>, i: nat, j: nat)
    requires UpPath(g, p, path) && i < j < |path|
    ensures path[i] != path[j]
    decreases i
  {
    if i == 0 {
    } else {
      PathsHaveNoRepeats(g, p, path, i - 1, j - 1);
    }
  }

  lemma PathsAreDistinct(g: Graph, p: Identity, path: seq<Identity>)
    requires UpPath(g, p, path)
    ensures Distinct(path)
  {
    forall i, j | 0 <= i < j < |path| ensures path[i] != path[j] {
      PathsHaveNoRepeats(g, p, path, i, j);
    }
  }

  // A new edge s -> p closes a cycle exactly when s is on the path down to p.
  lemma ClosesACycleExactlyUpstream(g: Graph, s: Identity, p: Identity, path: seq<Identity>)
    requires Rooted(g) && UpPath(g, p, path)
    ensures Acyclic(g[s := p]) <==> s !in path
    ensures s !in path ==> Rooted(g[s := p]) && UpPath(g[s := p], s, path + [s])
  {
    if s in path {
      ClosingWalk(g, s, p, path);
    } else {
      ExtendedIsRooted(g, s, p, path);
      RootedMeansAcyclic(g[s := p]);
    }
  }

  lemma ClosingWalk(g: Graph, s: Identity, p: Identity, path: seq<Identity>)
    requires UpPath(g, p, path) && s in path
    ensures !Acyclic(g[s := p])
  {
    PathsAreDistinct(g, p, path);
    var k :| 0 <= k < |path| && path[k] == s;
    var n := |path|;
    var walk := [s] + seq(n - k, i requires 0 <= i < n - k => path[n - 1 - i]);
    forall i | 0 <= i < |walk| - 1 ensures walk[i] in g[s := p] && g[s := p][walk[i]] == walk[i + 1] {
      if i > 0 {
        assert walk[i] == path[n - i] && walk[i + 1] == path[n - i - 1];
      }
    }
    assert IsCycle(g[s := p], walk);
  }

  lemma ReroutedPath(g: Graph, s: Identity, p: Identity, path: seq<Identity>, x: Identity, q: seq<Identity>)
    requires UpPath(g, p, path) && s !in path && UpPath(g, x, q)
    ensures var h := g[s := p]; exists q' :: UpPath(h, x, q')
  {
    var h := g[s := p];
    PathsAreDistinct(g, x, q);
    if s in q {
      var k :| 0 <= k < |q| && q[k] == s;
      assert UpPath(h, x, path + q[k..]);
    } else {
      assert UpPath(h, x, q);
    }
  }

  lemma ExtendedIsRooted(g: Graph, s: Identity, p: Identity, path: seq<Identity>)
    requires Rooted(g) && UpPath(g, p, path) && s !in path
    ensures Rooted(g[s := p]) && UpPath(g[s := p], s, path + [s])
  {
    var h := g[s := p];
    assert UpPath(h, s, path + [s]);
    forall x | x in h ensures exists q :: UpPath(h, x, q) {
      if x != s {
        var q :| UpPath(g, x, q);
        ReroutedPath(g, s, p, path, x, q);
      }
    }
  }

  // ---- The network ------------------------------------------------------------------------

  // A relation, kept under its subscriber: an application subscribes to one publisher at most.
  datatype Relation = Relation(
    publisher: Identity, publications: map<Db, Publication>,
    request: map<Db, seq<Table>>, subscribed: set<Db>)

  type Network = map<Identity, Relation>

  predicate Offered(r: Relation, db: Db, t: Table) {
    db in r.publications && t in r.publications[db].chains
  }

  function Edges(net: Network, db: Db, t: Table): Graph {
    map s | s in net && Offered(net[s], db, t) :: net[s].publisher
  }

  // What an application can read of the network: its own relations.
  function LocalOf(net: Network, app: Identity): Local {
    Local(app,
      if app !in net then None
      else
        var r := net[app];
        Some(Subscription(Remote(r.publisher.appName, Some(r.publisher)), r.publications, r.request, r.subscribed)))
  }

  function Tokens(path: seq<Identity>): (r: seq<Token>)
    ensures |r| == |path|
  {
    seq(|path|, i requires 0 <= i < |path| => IdentityToken(path[i]))
  }

  lemma TokensTell(a: seq<Identity>, x: Identity)
    ensures IdentityToken(x) in Tokens(a) <==> x in a
  {
    if IdentityToken(x) in Tokens(a) {
      var i :| 0 <= i < |a| && Tokens(a)[i] == IdentityToken(x);
      TokensAreInjective(a[i], x);
    }
    if x in a {
      var i :| 0 <= i < |a| && a[i] == x;
      assert Tokens(a)[i] == IdentityToken(x);
    }
  }

  // The chain offered on `r` for a table is the path down to the publisher.
  ghost predicate ExactChain(g: Graph, r: Relation, db: Db, t: Table)
    requires Offered(r, db, t)
  {
    exists path :: UpPath(g, r.publisher, path) && r.publications[db].chains[t] == Tokens(path)
  }

  ghost predicate Sane(net: Network) {
    forall s :: s in net ==>
      net[s].publisher != s &&
      forall db :: db in net[s].publications ==>
        forall t :: t in net[s].publications[db].tables <==> t in net[s].publications[db].chains
  }

  // Every published chain is the real upstream path.
  ghost predicate Exact(net: Network) {
    Sane(net) &&
    forall s, db, t :: s in net && Offered(net[s], db, t) ==> ExactChain(Edges(net, db, t), net[s], db, t)
  }

  lemma ExactChainsRoot(net: Network, db: Db, t: Table, s: Identity)
    requires Exact(net) && s in net && Offered(net[s], db, t)
    ensures exists path :: UpPath(Edges(net, db, t), s, path)
  {
    var g := Edges(net, db, t);
    assert ExactChain(g, net[s], db, t);
    var path :| UpPath(g, net[s].publisher, path);
    PathsExtend(g, s, path);
  }

  lemma PathsExtend(g: Graph, p: Identity, up: seq<Identity>)
    requires p in g && UpPath(g, g[p], up)
    ensures UpPath(g, p, up + [p])
  {
  }

  lemma ExactMeansRooted(net: Network, db: Db, t: Table)
    requires Exact(net)
    ensures Rooted(Edges(net, db, t))
    ensures Acyclic(Edges(net, db, t))
  {
    var g := Edges(net, db, t);
    forall s | s in g ensures exists path :: UpPath(g, s, path) {
      assert Offered(net[s], db, t);
      ExactChainsRoot(net, db, t, s);
    }
    RootedMeansAcyclic(g);
  }

  lemma ChainForIsExtended(net: Network, p: Identity, db: Db, t: Table, up: seq<Identity>)
    requires p in net && Offered(net[p], db, t) && net[p].publications[db].chains[t] == Tokens(up)
    ensures ChainFor(LocalOf(net, p), db, t) == Tokens(up + [p])
  {
  }

  // In an exact network the chain an application builds is the path down to itself.
  lemma ChainBuiltIsThePath(net: Network, p: Identity, db: Db, t: Table) returns (path: seq<Identity>)
    requires Exact(net)
    ensures UpPath(Edges(net, db, t), p, path) && Distinct(path)
    ensures ChainFor(LocalOf(net, p), db, t) == Tokens(path)
  {
    var g := Edges(net, db, t);
    if p in net && Offered(net[p], db, t) {
      assert ExactChain(g, net[p], db, t);
      var up :| UpPath(g, net[p].publisher, up) && net[p].publications[db].chains[t] == Tokens(up);
      path := up + [p];
      PathsExtend(g, p, up);
      ChainForIsExtended(net, p, db, t, up);
    } else {
      path := [p];
    }
    PathsAreDistinct(g, p, path);
  }

  // ---- The two checks in an exact network -------------------------------------------------

  ghost predicate WouldCloseACycle(net: Network, s: Identity, p: Identity, db: Db, t: Table) {
    !Acyclic(Edges(net, db, t)[s := p])
  }

  // The publisher's check of a requester it does not itself subscribe to.
  lemma PublisherCheckIsExact(
    net: Network, s: Identity, alias: string, p: Identity, db: Db, tables: seq<Table>, t: Table)
    requires Exact(net) && s != p && '/' !in alias && t in tables
    requires p in net ==> net[p].publisher != s
    ensures t in CircularTables(LocalOf(net, p), Remote(alias, Some(s)), db, tables) <==>
      WouldCloseACycle(net, s, p, db, t)
  {
    var path := ChainBuiltIsThePath(net, p, db, t);
    ExactMeansRooted(net, db, t);
    ClosesACycleExactlyUpstream(Edges(net, db, t), s, p, path);
    RefusedExactlyUpstream(net, s, alias, p, db, tables, t, path);
  }

  lemma RefusedExactlyUpstream(
    net: Network, s: Identity, alias: string, p: Identity, db: Db, tables: seq<Table>, t: Table, path: seq<Identity>)
    requires Sane(net) && s != p && '/' !in alias && t in tables
    requires p in net ==> net[p].publisher != s
    requires UpPath(Edges(net, db, t), p, path) && ChainFor(LocalOf(net, p), db, t) == Tokens(path)
    ensures t in CircularTables(LocalOf(net, p), Remote(alias, Some(s)), db, tables) <==> s in path
  {
    TokensTell(path, s);
    if p in Edges(net, db, t) {
      var chain := net[p].publications[db].chains[t];
      assert Tokens(path) == chain + [IdentityToken(p)];
      TokensHoldSlashes(path, alias);
      assert IdentityToken(s) != IdentityToken(p) by {
        if IdentityToken(s) == IdentityToken(p) { TokensAreInjective(s, p); }
      }
      assert ChainContainsApp(chain, Some(s), alias) <==> IdentityToken(s) in chain;
    } else {
      assert path[|path| - 1] == p;
      assert |path| == 1;
    }
  }

  // A relation that offers one table of its publisher's own.
  function Sole(p: Identity, db: Db, t: Table): Relation {
    Relation(p, map[db := Publication([t], map[t := [IdentityToken(p)]])], map[], {})
  }

  // The check of a requester the publisher subscribes to. Where the publisher's own subscription
  // is recorded and published it is exact; before that it goes by the publisher's own request.
  predicate Recorded(net: Network, p: Identity, db: Db) {
    p in net && db in net[p].subscribed && db in net[p].publications
  }

  predicate Requested(net: Network, p: Identity, db: Db, t: Table) {
    p in net && db in net[p].request && t in net[p].request[db]
  }

  lemma DirectCheckIsExactOnceRecorded(
    net: Network, s: Identity, alias: string, p: Identity, db: Db, tables: seq<Table>, t: Table)
    requires Exact(net) && t in tables && p in net && net[p].publisher == s
    ensures WouldCloseACycle(net, s, p, db, t) <==> Offered(net[p], db, t)
    ensures t in CircularTables(LocalOf(net, p), Remote(alias, Some(s)), db, tables) <==>
      if Recorded(net, p, db) then WouldCloseACycle(net, s, p, db, t) else Requested(net, p, db, t)
  {
    var g := Edges(net, db, t);
    var path := ChainBuiltIsThePath(net, p, db, t);
    ExactMeansRooted(net, db, t);
    ClosesACycleExactlyUpstream(g, s, p, path);
    if p in g {
      assert |path| > 1;
      assert path[|path| - 2] == s;
    } else {
      assert |path| == 1;
    }
  }

  // Two applications subscribe to each other. The first subscription is published but not recorded,
  // and was not requested in so many words: the publisher's check lets the second one pass, though
  // it closes the cycle.
  lemma UnrecordedMutualSubscriptionsPass(s: Identity, p: Identity, db: Db, t: Table)
    requires s != p
    ensures var net: Network := map[p := Sole(s, db, t)];
      Exact(net) && CircularTables(LocalOf(net, p), Remote("", Some(s)), db, [t]) == {} &&
      WouldCloseACycle(net, s, p, db, t)
  {
    var net: Network := map[p := Sole(s, db, t)];
    assert Edges(net, db, t) == map[p := s];
    assert Tokens([s]) == [IdentityToken(s)];
    forall r, db', t' | r in net && Offered(net[r], db', t') ensures ExactChain(Edges(net, db', t'), net[r], db', t') {
      assert UpPath(Edges(net, db, t), s, [s]);
    }
    DirectCheckIsExactOnceRecorded(net, s, "", p, db, [t], t);
  }

  // ---- Steps ------------------------------------------------------------------------------

  datatype Step =
    | Relate(s: Identity, p: Identity)
    | Publish(s: Identity, db: Db, tables: seq<Table>)
    | Withdraw(s: Identity, db: Db)
    | Record(s: Identity, request: map<Db, seq<Table>>, subscribed: set<Db>)
    | Break(s: Identity)

  function Next(net: Network, step: Step): Network {
    match step
    case Relate(s, p) =>
      if s in net || s == p then net else net[s := Relation(p, map[], map[], {})]
    case Publish(s, db, tables) =>
      if s !in net then net else
      var r := net[s];
      net[s := r.(publications := r.publications[db := PublicationFor(LocalOf(net, r.publisher), db, tables)])]
    case Withdraw(s, db) =>
      if s !in net then net else net[s := net[s].(publications := net[s].publications - {db})]
    case Record(s, request, subscribed) =>
      if s !in net then net else net[s := net[s].(request := request, subscribed := subscribed)]
    case Break(s) => net - {s}
  }

  ghost predicate PublisherAccepts(net: Network, s: Identity, db: Db, tables: seq<Table>)
    requires s in net
  {
    exists alias: string :: '/' !in alias &&
      CircularTables(LocalOf(net, net[s].publisher), Remote(alias, Some(s)), db, tables) == {}
  }

  predicate SubscriberAccepts(r: Relation, s: Identity, db: Db, tables: seq<Table>) {
    forall t :: t in tables ==> !WouldCreateCircular(s, r.publications, db, t)
  }

  // The publisher's check, then the subscriber's against what was published.
  ghost predicate Accepted(net: Network, step: Step) {
    step.Publish? && step.s in net ==>
      PublisherAccepts(net, step.s, step.db, step.tables) &&
      SubscriberAccepts(Next(net, step)[step.s], step.s, step.db, step.tables)
  }

  // No table whose upstream changes is offered onwards by the subscriber.
  ghost predicate Settled(net: Network, step: Step) {
    forall db, t :: Edges(Next(net, step), db, t) != Edges(net, db, t) ==> step.s !in Edges(net, db, t).Values
  }

  lemma PublishedEdge(net: Network, s: Identity, db: Db, tables: seq<Table>, t: Table)
    requires s in net && t in tables
    ensures var net' := Next(net, Publish(s, db, tables));
      s in net' && Offered(net'[s], db, t) &&
      net'[s].publications[db].chains[t] == ChainFor(LocalOf(net, net[s].publisher), db, t) &&
      Edges(net', db, t) == Edges(net, db, t)[s := net[s].publisher]
  {
  }

  // The subscriber's check of a table newly built for it, whatever the publisher's check said.
  lemma SubscriberCheckIsExact(net: Network, s: Identity, db: Db, tables: seq<Table>, t: Table)
    requires Exact(net) && s in net && t in tables
    ensures var net' := Next(net, Publish(s, db, tables));
      s in net' && (WouldCreateCircular(s, net'[s].publications, db, t) <==> !Acyclic(Edges(net', db, t)))
  {
    var p := net[s].publisher;
    PublishedEdge(net, s, db, tables, t);
    var path := ChainBuiltIsThePath(net, p, db, t);
    ExactMeansRooted(net, db, t);
    ClosesACycleExactlyUpstream(Edges(net, db, t), s, p, path);
    RefusedExactlyInThePath(s, Next(net, Publish(s, db, tables))[s].publications, db, t, path);
  }

  lemma RefusedExactlyInThePath(s: Identity, publications: map<Db, Publication>, db: Db, t: Table, path: seq<Identity>)
    requires db in publications && t in publications[db].chains && publications[db].chains[t] == Tokens(path)
    ensures WouldCreateCircular(s, publications, db, t) <==> s in path
  {
    TokensTell(path, s);
    TokensHoldSlashes(path, s.appName);
  }

  lemma TokensHoldSlashes(path: seq<Identity>, name: string)
    requires '/' !in name
    ensures name !in Tokens(path)
  {
  }

  // A table the subscriber already publishes to its publisher is refused by the chain as well.
  lemma DirectSubscriberCheckIsSubsumed(net: Network, s: Identity, db: Db, tables: seq<Table>, t: Table)
    requires Exact(net) && s in net && t in tables
    requires var p := net[s].publisher; p in net && net[p].publisher == s && Offered(net[p], db, t)
    ensures WouldCreateCircular(s, Next(net, Publish(s, db, tables))[s].publications, db, t)
  {
    var p := net[s].publisher;
    var path := ChainBuiltIsThePath(net, p, db, t);
    assert p in Edges(net, db, t) && |path| > 1;
    assert path[|path| - 2] == s;
    PublishedEdge(net, s, db, tables, t);
    RefusedExactlyInThePath(s, Next(net, Publish(s, db, tables))[s].publications, db, t, path);
  }

  // The chain on the relation of `s` is the path to its publisher, and `s` is not on it.
  ghost predicate ChainIsPath(g: Graph, r: Relation, s: Identity, db: Db, t: Table, path: seq<Identity>)
    requires Offered(r, db, t)
  {
    UpPath(g, r.publisher, path) && Distinct(path + [s]) && r.publications[db].chains[t] == Tokens(path)
  }

  // An accepted publication closes no cycle, and its chain is the path without repetitions.
  lemma AcceptedPublicationsCloseNoCycle(net: Network, s: Identity, db: Db, tables: seq<Table>, t: Table)
    requires Exact(net) && s in net && t in tables && Accepted(net, Publish(s, db, tables))
    ensures var net' := Next(net, Publish(s, db, tables));
      Acyclic(Edges(net', db, t)) && s in net' && Offered(net'[s], db, t) &&
      exists path :: ChainIsPath(Edges(net, db, t), net'[s], s, db, t, path)
  {
    var r' := Next(net, Publish(s, db, tables))[s];
    PublishedEdge(net, s, db, tables, t);
    SubscriberCheckIsExact(net, s, db, tables, t);
    var path := ChainBuiltIsThePath(net, net[s].publisher, db, t);
    RefusedExactlyInThePath(s, r'.publications, db, t, path);
    assert SubscriberAccepts(r', s, db, tables);
    assert ChainIsPath(Edges(net, db, t), r', s, db, t, path);
  }

  // ---- Exactness over steps and runs ------------------------------------------------------

  ghost predicate OnlyRelation(net: Network, net': Network, s: Identity) {
    forall r :: r != s ==> (r in net <==> r in net') && (r in net ==> net[r] == net'[r])
  }

  ghost predicate SameButFor(g: Graph, h: Graph, s: Identity) {
    forall r :: r != s ==> (r in g <==> r in h) && (r in g ==> g[r] == h[r])
  }

  lemma NextChangesOneRelation(net: Network, step: Step)
    ensures OnlyRelation(net, Next(net, step), step.s)
  {
  }

  lemma EdgesChangeWithRelations(net: Network, net': Network, s: Identity, db: Db, t: Table)
    requires OnlyRelation(net, net', s)
    ensures SameButFor(Edges(net, db, t), Edges(net', db, t), s)
  {
  }

  lemma StepsChangeOneRelation(net: Network, step: Step)
    ensures OnlyRelation(net, Next(net, step), step.s)
    ensures forall db, t :: SameButFor(Edges(net, db, t), Edges(Next(net, step), db, t), step.s)
  {
    NextChangesOneRelation(net, step);
    forall db, t { EdgesChangeWithRelations(net, Next(net, step), step.s, db, t); }
  }

  lemma PathsAvoiding(g: Graph, h: Graph, s: Identity, p: Identity, path: seq<Identity>)
    requires SameButFor(g, h, s) && UpPath(g, p, path) && s !in path
    ensures UpPath(h, p, path)
  {
  }

  // Nobody is on a path above an application without being some application's publisher.
  lemma PathsHoldPublishers(g: Graph, p: Identity, path: seq<Identity>, s: Identity)
    requires UpPath(g, p, path) && s in path && s != p
    ensures s in g.Values
  {
    var i :| 0 <= i < |path| && path[i] == s;
    assert g[path[i + 1]] == s;
  }

  lemma PublishedChainIsExact(net: Network, s: Identity, db: Db, tables: seq<Table>, t: Table)
    requires Exact(net) && s in net && t in tables && Accepted(net, Publish(s, db, tables))
    ensures var net' := Next(net, Publish(s, db, tables));
      s in net' && Offered(net'[s], db, t) && ExactChain(Edges(net', db, t), net'[s], db, t)
  {
    var net', g := Next(net, Publish(s, db, tables)), Edges(net, db, t);
    AcceptedPublicationsCloseNoCycle(net, s, db, tables, t);
    PublishedEdge(net, s, db, tables, t);
    var path :| ChainIsPath(g, net'[s], s, db, t, path);
    forall i | 0 <= i < |path| ensures path[i] != s {
      assert (path + [s])[i] != (path + [s])[|path|];
    }
    PathsAvoiding(g, g[s := net[s].publisher], s, net[s].publisher, path);
  }

  // What a step does not publish anew was offered before it, with the same chain.
  lemma KeptOffer(net: Network, step: Step, db: Db, t: Table)
    requires step.s in Next(net, step) && Offered(Next(net, step)[step.s], db, t)
    requires !(step.Publish? && db == step.db && t in step.tables)
    ensures step.s in net && Offered(net[step.s], db, t)
    ensures Next(net, step)[step.s].publisher == net[step.s].publisher
    ensures Next(net, step)[step.s].publications[db].chains[t] == net[step.s].publications[db].chains[t]
    ensures Edges(Next(net, step), db, t) == Edges(net, db, t)
  {
  }

  lemma OwnChainStaysExact(net: Network, step: Step, db: Db, t: Table)
    requires Exact(net) && Accepted(net, step)
    requires step.s in Next(net, step) && Offered(Next(net, step)[step.s], db, t)
    ensures ExactChain(Edges(Next(net, step), db, t), Next(net, step)[step.s], db, t)
  {
    var net', s := Next(net, step), step.s;
    if step.Publish? && db == step.db && t in step.tables {
      PublishedChainIsExact(net, s, db, step.tables, t);
    } else {
      KeptOffer(net, step, db, t);
      assert ExactChain(Edges(net, db, t), net[s], db, t);
    }
  }

  lemma OtherChainStaysExact(net: Network, step: Step, r: Identity, db: Db, t: Table)
    requires Exact(net) && Settled(net, step)
    requires r != step.s && r in net && r in Next(net, step) && Offered(net[r], db, t)
    ensures Next(net, step)[r] == net[r] && ExactChain(Edges(Next(net, step), db, t), net[r], db, t)
  {
    var g, h, s := Edges(net, db, t), Edges(Next(net, step), db, t), step.s;
    StepsChangeOneRelation(net, step);
    assert ExactChain(g, net[r], db, t);
    if g != h {
      var path :| UpPath(g, net[r].publisher, path) && net[r].publications[db].chains[t] == Tokens(path);
      assert r in g && net[r].publisher == g[r];
      if s in path {
        PathsHoldPublishers(g, net[r].publisher, path, s);
        assert false;
      }
      PathsAvoiding(g, h, s, net[r].publisher, path);
    }
  }

  lemma StaysSane(net: Network, step: Step)
    requires Sane(net)
    ensures Sane(Next(net, step))
  {
  }

  lemma SettledStepsKeepExact(net: Network, step: Step)
    requires Exact(net) && Accepted(net, step) && Settled(net, step)
    ensures Exact(Next(net, step))
  {
    var net' := Next(net, step);
    StaysSane(net, step);
    StepsChangeOneRelation(net, step);
    forall r, db, t | r in net' && Offered(net'[r], db, t)
      ensures ExactChain(Edges(net', db, t), net'[r], db, t)
    {
      if r == step.s {
        OwnChainStaysExact(net, step, db, t);
      } else {
        OtherChainStaysExact(net, step, r, db, t);
      }
    }
  }

  lemma TokensDetermine(a: seq<Identity>, b: seq<Identity>)
    requires Tokens(a) == Tokens(b)
    ensures a == b
  {
    forall i | 0 <= i < |a| ensures a[i] == b[i] {
      assert Tokens(a)[i] == Tokens(b)[i];
      TokensAreInjective(a[i], b[i]);
    }
  }

  // A chain exact in two graphs makes them agree on the publisher's own upstream.
  lemma ChainTellsTheUpstream(g: Graph, h: Graph, r: Relation, db: Db, t: Table)
    requires Offered(r, db, t) && ExactChain(g, r, db, t) && ExactChain(h, r, db, t)
    ensures r.publisher in g <==> r.publisher in h
    ensures r.publisher in g ==> g[r.publisher] == h[r.publisher]
  {
    var a :| UpPath(g, r.publisher, a) && r.publications[db].chains[t] == Tokens(a);
    var b :| UpPath(h, r.publisher, b) && r.publications[db].chains[t] == Tokens(b);
    TokensDetermine(a, b);
    assert r.publisher in g ==> g[r.publisher] == a[|a| - 2];
    assert r.publisher in h ==> h[r.publisher] == b[|b| - 2];
  }

  lemma UnsettledStepsLoseExactness(net: Network, step: Step, db: Db, t: Table, r: Identity)
    requires Exact(net)
    requires r in net && Offered(net[r], db, t) && net[r].publisher == step.s
    requires Edges(Next(net, step), db, t) != Edges(net, db, t)
    ensures !Exact(Next(net, step))
  {
    var net' := Next(net, step);
    var g, h := Edges(net, db, t), Edges(net', db, t);
    StepsChangeOneRelation(net, step);
    assert ExactChain(g, net[r], db, t);
    if ExactChain(h, net[r], db, t) {
      ChainTellsTheUpstream(g, h, net[r], db, t);
      assert false;
    }
    assert net'[r] == net[r];
  }

  // Chains go stale exactly when the upstream of a table changes above somebody it is offered to.
  lemma ExactnessSurvivesExactlySettledSteps(net: Network, step: Step)
    requires Exact(net) && Accepted(net, step)
    ensures Exact(Next(net, step)) <==> Settled(net, step)
  {
    if Settled(net, step) {
      SettledStepsKeepExact(net, step);
    } else {
      var db, t :| Edges(Next(net, step), db, t) != Edges(net, db, t) && step.s in Edges(net, db, t).Values;
      var r :| r in Edges(net, db, t) && Edges(net, db, t)[r] == step.s;
      UnsettledStepsLoseExactness(net, step, db, t, r);
    }
  }

  // The network after the first k steps.
  function At(net: Network, steps: seq<Step>, k: nat): Network
    requires k <= |steps|
  {
    if k == 0 then net else Next(At(net, steps, k - 1), steps[k - 1])
  }

  ghost predicate AcceptedRun(net: Network, steps: seq<Step>) {
    forall k :: 0 <= k < |steps| ==> Accepted(At(net, steps, k), steps[k])
  }

  ghost predicate SettledRun(net: Network, steps: seq<Step>) {
    forall k :: 0 <= k < |steps| ==> Settled(At(net, steps, k), steps[k])
  }

  lemma SettledStepTo(net: Network, step: Step, net': Network)
    requires Accepted(net, step) && Settled(net, step) && net' == Next(net, step)
    ensures Exact(net) ==> Exact(net')
  {
    if Exact(net) { SettledStepsKeepExact(net, step); }
  }

  lemma SettledStepAt(net: Network, steps: seq<Step>, k: nat)
    requires AcceptedRun(net, steps) && SettledRun(net, steps) && k < |steps|
    ensures Exact(At(net, steps, k)) ==> Exact(At(net, steps, k + 1))
  {
    SettledStepTo(At(net, steps, k), steps[k], At(net, steps, k + 1));
  }

  ghost predicate ExactAt(net: Network, steps: seq<Step>, k: nat)
    requires k <= |steps|
  {
    Exact(At(net, steps, k))
  }

  lemma {:induction false} ExactAllAlong(net: Network, steps: seq<Step>, k: nat)
    requires k <= |steps| && ExactAt(net, steps, 0)
    requires forall i :: 0 <= i < |steps| && ExactAt(net, steps, i) ==> ExactAt(net, steps, i + 1)
    ensures ExactAt(net, steps, k)
    decreases k
  {
    if k == 0 {
    } else {
      ExactAllAlong(net, steps, k - 1);
    }
  }

  lemma SettledRunsStayExact(net: Network, steps: seq<Step>, k: nat)
    requires Exact(net) && AcceptedRun(net, steps) && SettledRun(net, steps) && k <= |steps|
    ensures Exact(At(net, steps, k))
  {
    forall i | 0 <= i < |steps| && ExactAt(net, steps, i) ensures ExactAt(net, steps, i + 1) {
      SettledStepAt(net, steps, i);
    }
    ExactAllAlong(net, steps, k);
  }

  // No database and table ever replicates in a circle.
  lemma SettledRunsStayAcyclic(net: Network, steps: seq<Step>, k: nat, db: Db, t: Table)
    requires Exact(net) && AcceptedRun(net, steps) && SettledRun(net, steps) && k <= |steps|
    ensures Acyclic(Edges(At(net, steps, k), db, t))
  {
    SettledRunsStayExact(net, steps, k);
    ExactMeansRooted(At(net, steps, k), db, t);
  }

  // ---- Stale chains -----------------------------------------------------------------------

  // c subscribes to b, then b to a, then a to c. The chain b published to c is not rebuilt when
  // b subscribes, so c does not know of a, and both checks accept the publication that closes
  // the cycle.
  function AroundTheBack(a: Identity, b: Identity, c: Identity, db: Db, t: Table): seq<Step> {
    [Relate(c, b), Publish(c, db, [t]), Relate(b, a), Publish(b, db, [t]), Relate(a, c), Publish(a, db, [t])]
  }

  lemma OriginsMayAlwaysPublish(net: Network, s: Identity, db: Db, t: Table)
    requires s in net && net[s].publisher != s && net[s].publisher !in net
    ensures Accepted(net, Publish(s, db, [t]))
    ensures Next(net, Publish(s, db, [t])) ==
      net[s := net[s].(publications :=
        net[s].publications[db := Publication([t], map[t := [IdentityToken(net[s].publisher)]])])]
  {
    var p := net[s].publisher;
    PublishedEdge(net, s, db, [t], t);
    var r := Next(net, Publish(s, db, [t]))[s];
    assert r.publications[db].chains[t] == [IdentityToken(p)] == Tokens([p]);
    assert PublicationFor(LocalOf(net, p), db, [t]).chains == map[t := [IdentityToken(p)]];
    RefusedExactlyInThePath(s, r.publications, db, t, [p]);
    assert CircularTables(LocalOf(net, p), Remote("", Some(s)), db, [t]) == {};
  }

  lemma RelayedOnceMayPublish(net: Network, s: Identity, p: Identity, q: Identity, db: Db, t: Table)
    requires s in net && net[s].publisher == p && p in net && net[p].publisher == q
    requires s != p && s != q && Offered(net[p], db, t)
    requires net[p].publications[db].chains[t] == [IdentityToken(q)]
    ensures Accepted(net, Publish(s, db, [t]))
  {
    PublishedEdge(net, s, db, [t], t);
    var r := Next(net, Publish(s, db, [t]))[s];
    assert r.publications[db].chains[t] == Tokens([q, p]);
    RefusedExactlyInThePath(s, r.publications, db, t, [q, p]);
    assert Tokens([q]) == [IdentityToken(q)];
    TokensTell([q], s);
    TokensHoldSlashes([q], s.appName);
    assert CircularTables(LocalOf(net, p), Remote(s.appName, Some(s)), db, [t]) == {};
  }

  // The network before a subscribes.
  lemma BeforeClosing(a: Identity, b: Identity, c: Identity, db: Db, t: Table)
    requires a != b && b != c && a != c
    ensures var steps := AroundTheBack(a, b, c, db, t);
      Accepted(At(map[], steps, 1), steps[1]) && Accepted(At(map[], steps, 3), steps[3]) &&
      At(map[], steps, 4) == map[c := Sole(b, db, t), b := Sole(a, db, t)]
  {
    var steps := AroundTheBack(a, b, c, db, t);
    var n1, n3 := At(map[], steps, 1), At(map[], steps, 3);
    assert At(map[], steps, 0) == map[];
    OriginsMayAlwaysPublish(n1, c, db, t);
    assert At(map[], steps, 2) == map[c := Sole(b, db, t)];
    OriginsMayAlwaysPublish(n3, b, db, t);
  }

  lemma ClosingStep(net: Network, a: Identity, b: Identity, c: Identity, db: Db, t: Table)
    requires a != b && b != c && a != c
    requires net == map[c := Sole(b, db, t), b := Sole(a, db, t), a := Relation(c, map[], map[], {})]
    ensures Accepted(net, Publish(a, db, [t]))
    ensures !Acyclic(Edges(Next(net, Publish(a, db, [t])), db, t))
  {
    RelayedOnceMayPublish(net, a, c, b, db, t);
    PublishedEdge(net, a, db, [t], t);
    assert IsCycle(Edges(net, db, t)[a := c], [a, c, b, a]);
  }

  lemma AroundTheBackIsAccepted(a: Identity, b: Identity, c: Identity, db: Db, t: Table)
    requires a != b && b != c && a != c
    requires var steps := AroundTheBack(a, b, c, db, t);
      Accepted(At(map[], steps, 1), steps[1]) && Accepted(At(map[], steps, 3), steps[3]) &&
      Accepted(At(map[], steps, 5), steps[5])
    ensures AcceptedRun(map[], AroundTheBack(a, b, c, db, t))
  {
    var steps := AroundTheBack(a, b, c, db, t);
    forall k | 0 <= k < |steps| ensures Accepted(At(map[], steps, k), steps[k]) {
      assert k in {1, 3, 5} || steps[k].Relate?;
    }
  }

  // Whatever the chains say: over a graph with no cycle, a publication both checks accept closes one
  // exactly if the subscriber is on the real path to its publisher, on which the published chain
  // then does not show it.
  lemma AcceptedStepsCloseCyclesExactlyOffTheChain(
    net: Network, s: Identity, db: Db, tables: seq<Table>, t: Table, path: seq<Identity>)
    requires s in net && t in tables && Accepted(net, Publish(s, db, tables))
    requires Rooted(Edges(net, db, t)) && UpPath(Edges(net, db, t), net[s].publisher, path)
    ensures var net' := Next(net, Publish(s, db, tables));
      s in net' && Offered(net'[s], db, t) &&
      IdentityToken(s) !in net'[s].publications[db].chains[t] &&
      (Acyclic(Edges(net', db, t)) <==> s !in path)
  {
    PublishedEdge(net, s, db, tables, t);
    ClosesACycleExactlyUpstream(Edges(net, db, t), s, net[s].publisher, path);
    var r' := Next(net, Publish(s, db, tables))[s];
    assert SubscriberAccepts(r', s, db, tables);
    assert !WouldCreateCircular(s, r'.publications, db, t);
  }

  lemma StaleChainsCloseACycle(a: Identity, b: Identity, c: Identity, db: Db, t: Table)
    requires a != b && b != c && a != c
    ensures var steps := AroundTheBack(a, b, c, db, t);
      AcceptedRun(map[], steps) && !Acyclic(Edges(At(map[], steps, |steps|), db, t))
  {
    var steps := AroundTheBack(a, b, c, db, t);
    BeforeClosing(a, b, c, db, t);
    var n5 := Next(At(map[], steps, 4), steps[4]);
    assert n5 == At(map[], steps, 5);
    ClosingStep(n5, a, b, c, db, t);
    AroundTheBackIsAccepted(a, b, c, db, t);
  }
}
