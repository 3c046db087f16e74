/**
 Logical replication: the chains published with every table, and the two circularity checks.

 An application replicates at most from one other (its subscription relation) and publishes to
 any number. With each published table comes its chain: the identity tokens of the applications
 the data has gone through, from the origin to the publisher.
 */
module LogicalChains {
  import opened Common

  type Db = string
  type Table = string
  type Token = string

  // ---- Identities -------------------------------------------------------------------------

  // The pair every side stamps into the relation. Neither part holds a slash.
  datatype Stamp = Stamp(modelUuid: string, appName: string)
  type Identity = s: Stamp | '/' !in s.modelUuid && '/' !in s.appName witness Stamp("", "")

  function IdentityToken(id: Identity): Token {
    id.modelUuid + "/" + id.appName
  }

  // The remote application of a relation: its name as this side sees it, and its stamp.
  datatype Remote = Remote(appName: string, identity: Option<Identity>)

  predicate SameRemoteApp(a: Remote, b: Remote) {
    if a.identity.Some? && b.identity.Some? then a.identity == b.identity else a.appName == b.appName
  }

  predicate ChainContainsApp(chain: seq<Token>, identity: Option<Identity>, appName: string) {
    (identity.Some? && IdentityToken(identity.value) in chain) || appName in chain
  }

  lemma TokensAreInjective(a: Identity, b: Identity)
    requires IdentityToken(a) == IdentityToken(b)
    ensures a == b
  {
    Separated(a.modelUuid, a.appName, b.modelUuid, b.appName, '/');
  }

  // In a chain of tokens a bare application name matches nothing, so only the stamp decides.
  lemma StampsDecide(chain: seq<Token>, identity: Identity, appName: string)
    requires '/' !in appName
    requires forall t :: t in chain ==> '/' in t
    ensures ChainContainsApp(chain, Some(identity), appName) <==> IdentityToken(identity) in chain
  {
  }

  // ---- What one application reads ---------------------------------------------------------

  datatype Publication = Publication(tables: seq<Table>, chains: map<Table, seq<Token>>)

  // The subscription relation: the publications in the remote application's databag, the request
  // in this application's own, and the databases it has recorded a subscription for.
  datatype Subscription = Subscription(
    remote: Remote, publications: map<Db, Publication>,
    request: map<Db, seq<Table>>, subscribed: set<Db>)

  datatype Local = Local(self: Identity, subscription: Option<Subscription>)

  // _check_publisher_circular_replication: the requested tables that must be refused.
  function CircularTables(local: Local, requester: Remote, db: Db, tables: seq<Table>): set<Table> {
    if local.subscription.None? then {} else
    var sub := local.subscription.value;
    if SameRemoteApp(sub.remote, requester) then
      var known :=
        if db in sub.subscribed && db in sub.publications then sub.publications[db].tables
        else if db in sub.request then sub.request[db] else [];
      set t | t in tables && t in known
    else if db !in sub.publications then {}
    else
      var chains := sub.publications[db].chains;
      set t | t in tables && t in chains &&
        ChainContainsApp(chains[t], requester.identity, requester.appName)
  }

  // _build_replication_chains: extend the upstream chain, or start one.
  function ChainFor(local: Local, db: Db, table: Table): seq<Token> {
    var self := [IdentityToken(local.self)];
    if local.subscription.Some? && db in local.subscription.value.publications &&
       table in local.subscription.value.publications[db].chains
    then local.subscription.value.publications[db].chains[table] + self
    else self
  }

  function PublicationFor(local: Local, db: Db, tables: seq<Table>): Publication {
    Publication(tables, map t | t in tables :: ChainFor(local, db, t))
  }

  // _would_create_circular_replication, against the publication offered to this application.
  predicate WouldCreateCircular(self: Identity, publications: map<Db, Publication>, db: Db, table: Table) {
    db in publications && table in publications[db].chains &&
    ChainContainsApp(publications[db].chains[table], Some(self), self.appName)
  }

  method CheckPublisherCircularReplication(local: Local, requester: Remote, db: Db, tables: seq<Table>)
    returns (circular: set<Table>)
    ensures circular == CircularTables(local, requester, db, tables)
  {
    circular := {};
    if local.subscription.None? {
      return;
    }
    var sub := local.subscription.value;
    if SameRemoteApp(sub.remote, requester) {
      if db !in sub.subscribed || db !in sub.publications {
        var outgoing := if db in sub.request then sub.request[db] else [];
        return set t | t in tables && t in outgoing;
      }
      return set t | t in tables && t in sub.publications[db].tables;
    }
    if db !in sub.publications {
      return;
    }
    var chains := sub.publications[db].chains;
    for i := 0 to |tables|
      invariant circular == set t | t in tables[..i] && t in chains &&
        ChainContainsApp(chains[t], requester.identity, requester.appName)
    {
      assert tables[..i + 1] == tables[..i] + [tables[i]];
      if tables[i] !in chains {
        continue;
      }
      if ChainContainsApp(chains[tables[i]], requester.identity, requester.appName) {
        circular := circular + {tables[i]};
      }
    }
    assert tables[..|tables|] == tables;
  }

  method BuildReplicationChains(local: Local, db: Db, tables: seq<Table>)
    returns (chains: map<Table, seq<Token>>)
    ensures Publication(tables, chains) == PublicationFor(local, db, tables)
  {
    chains := map[];
    var self := IdentityToken(local.self);
    var remoteChains: map<Table, seq<Token>> :=
      if local.subscription.Some? && db in local.subscription.value.publications
      then local.subscription.value.publications[db].chains else map[];
    for i := 0 to |tables|
      invariant chains == map t | t in tables[..i] :: ChainFor(local, db, t)
    {
      var t := tables[i];
      assert tables[..i + 1] == tables[..i] + [t];
      chains := chains[t := if t in remoteChains then remoteChains[t] + [self] else [self]];
    }
    assert tables[..|tables|] == tables;
  }
}
