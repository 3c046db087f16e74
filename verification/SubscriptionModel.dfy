/**
 The subscriber's reconcile: local subscriptions are brought in line with what the publisher
 publishes, without replicating into a table that already holds rows.
 */
module SubscriptionModel {
  import opened Common
  import opened LogicalChains
  import opened LogicalRequests
  import Slots

  type SchemaTable = (string, string)

  // What one validation finds in PostgreSQL. `publications` are the server's own, by database and
  // name (a database lists those made in it); `subscribed` is the publication each subscription
  // names (the server lists the subscriptions of all its databases).
  datatype View = View(
    databases: set<Db>, tables: set<(Db, SchemaTable)>, empty: set<(Db, SchemaTable)>,
    publications: map<(Db, string), set<SchemaTable>>, subscribed: map<string, string>)

  // An error in the publisher's databag: a refusal it reports in the agreed form, or anything else.
  datatype Report = CircularReport(db: Db, tables: set<Table>) | UnreadableCircular | OtherReport

  // The subscription relation: the publisher's side, and this application's pushed request.
  datatype Side = Side(
    remote: Remote, publications: map<Db, Publication>, reports: seq<Report>, pushed: map<Db, seq<Table>>)

  // The configured request is None when its JSON is malformed.
  datatype Ctx = Ctx(
    relationId: nat, self: Identity, config: Option<seq<Request>>,
    side: Option<Side>, offer: Option<(Remote, map<Db, Publication>)>)

  // Recorded subscriptions and applied baseline (peer databag), and PostgreSQL's subscriptions.
  datatype State = State(
    recorded: map<Db, string>, baseline: map<Db, seq<Table>>, failed: bool, live: set<(Db, string)>)

  datatype Mode = Enforce | Auto

  function SubscriptionName(ctx: Ctx, db: Db): string {
    Slots.ResourceName(ctx.relationId, db)
  }

  // ---- Validation -------------------------------------------------------------------------

  // An error counts when it is about this request; a readable refusal names what it is about.
  predicate Relevant(report: Report, requests: seq<Request>) {
    match report
    case OtherReport => true
    case UnreadableCircular => true
    case CircularReport(db, tables) =>
      Requests(requests, db) && exists i, t :: 0 <= i < |requests| && t in requests[i].tables && t in tables
  }

  // Errors about a request other than the configured one are stale.
  predicate PublisherRefuses(ctx: Ctx, requests: seq<Request>) {
    ctx.side.Some? && ctx.side.value.pushed == AsMap(requests) &&
    exists i :: 0 <= i < |ctx.side.value.reports| && Relevant(ctx.side.value.reports[i], requests)
  }

  // _check_subscriber_circular_replication: this application publishes the table to its publisher.
  predicate PublishesBack(ctx: Ctx, db: Db, t: Table) {
    ctx.side.Some? && ctx.offer.Some? && SameRemoteApp(ctx.offer.value.0, ctx.side.value.remote) &&
    db in ctx.offer.value.1 && t in ctx.offer.value.1[db].tables
  }

  predicate OfferedInACircle(ctx: Ctx, db: Db, t: Table) {
    ctx.side.Some? && WouldCreateCircular(ctx.self, ctx.side.value.publications, db, t)
  }

  // subscription_table_set: the tables of the asked database's publication of the name the
  // subscription subscribes to.
  function Reported(view: View, asked: Db, subscription: string): set<SchemaTable> {
    if subscription in view.subscribed && (asked, view.subscribed[subscription]) in view.publications
    then view.publications[(asked, view.subscribed[subscription])] else {}
  }

  // What the database reports of all recorded subscriptions, its own and the others'.
  function LiveTables(view: View, recorded: map<Db, string>, asked: Db): set<SchemaTable> {
    set d, p | d in recorded && p in Reported(view, asked, recorded[d]) :: p
  }

  predicate AlreadySubscribed(
    view: View, recorded: map<Db, string>, previous: map<Db, seq<Table>>, db: Db, t: Table, pair: SchemaTable)
  {
    pair in LiveTables(view, recorded, db) ||
    (LiveTables(view, recorded, db) == {} && db in previous && t in previous[db])
  }

  // _enforce_empty_table_guard
  predicate GuardFires(
    view: View, recorded: map<Db, string>, previous: map<Db, seq<Table>>, mode: Mode,
    db: Db, t: Table, pair: SchemaTable)
  {
    !AlreadySubscribed(view, recorded, previous, db, t, pair) && (db, pair) !in view.empty &&
    (mode.Enforce? || db in recorded)
  }

  predicate TableAccepted(
    ctx: Ctx, view: View, recorded: map<Db, string>, previous: map<Db, seq<Table>>, mode: Mode, db: Db, t: Table)
  {
    match SchemaAndTable(t)
    case None => false
    case Some(pair) =>
      (db, pair) in view.tables && !PublishesBack(ctx, db, t) && !OfferedInACircle(ctx, db, t) &&
      !GuardFires(view, recorded, previous, mode, db, t, pair)
  }

  predicate DatabaseAccepted(
    ctx: Ctx, view: View, recorded: map<Db, string>, previous: map<Db, seq<Table>>, mode: Mode, request: Request)
  {
    request.db in view.databases &&
    forall t :: t in request.tables ==> TableAccepted(ctx, view, recorded, previous, mode, request.db, t)
  }

  // validate_subscription_request: the whole configured request passes, or nothing does.
  predicate RequestAccepted(
    ctx: Ctx, view: View, recorded: map<Db, string>, previous: map<Db, seq<Table>>, mode: Mode)
  {
    ctx.config.Some? && !PublisherRefuses(ctx, ctx.config.value) &&
    forall r :: r in ctx.config.value ==> DatabaseAccepted(ctx, view, recorded, previous, mode, r)
  }

  // ---- The reconcile ----------------------------------------------------------------------

  // str.partition("."): everything after the first dot is the table.
  function Partition(name: string): SchemaTable {
    if name == "" then ("", "")
    else if name[0] == '.' then ("", name[1..])
    else var (schema, table) := Partition(name[1..]); ([name[0]] + schema, table)
  }

  function Wanted(ctx: Ctx, db: Db): set<SchemaTable> {
    if ctx.config.Some? && Requests(ctx.config.value, db)
    then set t | t in Lookup(ctx.config.value, db).value :: Partition(t)
    else {}
  }

  // _guard_subscription_refresh
  predicate RefreshAllowed(ctx: Ctx, view: View, db: Db) {
    forall p :: p in Wanted(ctx, db) - Reported(view, db, SubscriptionName(ctx, db)) ==>
      (db, p) in view.tables && (db, p) in view.empty
  }

  // `subscriptions` is the working copy of the recorded map; validation reads the recorded one.
  datatype Work = Work(subscriptions: map<Db, string>, failed: bool, live: set<(Db, string)>)

  datatype Progress = Going(work: Work) | Blocked(work: Work) | Raising(work: Work)

  function OnePublication(ctx: Ctx, view: View, st: State, work: Work, db: Db): Progress {
    var name := SubscriptionName(ctx, db);
    if db in work.subscriptions then
      if RefreshAllowed(ctx, view, db) then Going(work) else Blocked(work.(failed := true))
    else if !RequestAccepted(ctx, view, st.recorded, st.baseline, Enforce) then Going(work.(failed := true))
    else if (db, name) in work.live then Raising(work)
    else Going(Work(work.subscriptions[db := name], false, work.live + {(db, name)}))
  }

  // After the first k publications. Each meets PostgreSQL as it is by then: `views[i]`.
  function Subscribed(ctx: Ctx, views: seq<View>, st: State, published: seq<Db>, k: nat): Progress
    requires k <= |published| == |views|
  {
    if k == 0 then Going(Work(st.recorded, st.failed, st.live))
    else match Subscribed(ctx, views, st, published, k - 1)
      case Going(work) => OnePublication(ctx, views[k - 1], st, work, published[k - 1])
      case stop => stop
  }

  // What stops the loop is its result.
  lemma {:induction false} Stays(ctx: Ctx, views: seq<View>, st: State, published: seq<Db>, k: nat, n: nat)
    requires k <= n <= |published| == |views| && !Subscribed(ctx, views, st, published, k).Going?
    ensures Subscribed(ctx, views, st, published, n) == Subscribed(ctx, views, st, published, k)
    decreases n
  {
    if k == n {
    } else {
      Stays(ctx, views, st, published, k, n - 1);
    }
  }

  function Baseline(requests: seq<Request>, recorded: map<Db, string>): map<Db, seq<Table>> {
    AsMap(requests) - (Databases(requests) - recorded.Keys)
  }

  // The subscriptions of some databases.
  function Of(subscriptions: map<Db, string>, dbs: set<Db>): set<(Db, string)> {
    set d | d in dbs && d in subscriptions :: (d, subscriptions[d])
  }

  lemma OneMore(subscriptions: map<Db, string>, dbs: set<Db>, db: Db)
    requires db in subscriptions
    ensures Of(subscriptions, dbs + {db}) == Of(subscriptions, dbs) + {(db, subscriptions[db])}
  {
  }

  function DropUnpublished(work: Work, published: seq<Db>): Work {
    var dropped := set d | d in work.subscriptions && d !in published;
    work.(subscriptions := work.subscriptions - dropped, live := work.live - Of(work.subscriptions, dropped))
  }

  // A run ends; or a blocked refresh returns early, recording nothing; or it raises, and keeps only
  // what it did to PostgreSQL.
  datatype Outcome = Done(state: State) | Stopped(state: State) | Raised(live: set<(Db, string)>)

  function Reconcile(ctx: Ctx, views: seq<View>, st: State, published: seq<Db>): Outcome
    requires |published| == |views|
  {
    match Subscribed(ctx, views, st, published, |published|)
    case Raising(work) => Raised(work.live)
    case Blocked(work) => Stopped(st.(failed := work.failed, live := work.live))
    case Going(work) =>
      var after := DropUnpublished(work, published);
      if ctx.config.None? then Raised(after.live) else
      Done(State(after.subscriptions, Baseline(ctx.config.value, after.subscriptions), after.failed, after.live))
  }

  // ---- The other operations on the same state ---------------------------------------------

  // apply_updated_subscription_request
  function ApplyRequest(ctx: Ctx, st: State): State
    requires ctx.config.Some?
  {
    if ctx.side.None? then st else
    var dropped := set d | d in st.recorded && !Requests(ctx.config.value, d);
    st.(recorded := st.recorded - dropped, live := st.live - Of(st.recorded, dropped))
  }

  // apply_changed_config, by the leader with a primary available.
  function ConfigChanged(ctx: Ctx, view: View, st: State): State {
    if !RequestAccepted(ctx, view, st.recorded, st.baseline, Auto) then st.(failed := true)
    else
      var applied := ApplyRequest(ctx, st);
      applied.(failed := false, baseline := Baseline(ctx.config.value, applied.recorded))
  }

  // retry_validations: the configured request itself stands in for the baseline.
  function RetryValidations(ctx: Ctx, view: View, st: State): State {
    if !st.failed then st
    else if ctx.config.None? || !RequestAccepted(ctx, view, st.recorded, AsMap(ctx.config.value), Enforce) then
      st.(failed := true)
    else ApplyRequest(ctx, st).(failed := false)
  }

  // drop_subscriptions, when the relation is gone.
  function RelationBroken(st: State): State {
    State(map[], map[], st.failed, st.live - Of(st.recorded, st.recorded.Keys))
  }
}
