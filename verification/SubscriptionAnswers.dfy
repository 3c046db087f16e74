/**
 When a subscription request is accepted, in terms of what it names, of what PostgreSQL holds and of
 what the two sides of the relation say; and what the operations on the record make of the answer.
 */
module SubscriptionAnswers {
  import opened Common
  import opened LogicalChains
  import opened LogicalRequests
  import opened SubscriptionModel
  import opened SubscriptionProperties

  // ---- The publisher's reports ------------------------------------------------------------

  // The report is about this configuration: it is not readable as a refusal of named tables, or it
  // names a configured database and a configured table, of whichever database.
  ghost predicate Concerns(report: Report, config: seq<Request>) {
    report.CircularReport? ==>
      (exists r :: r in config && r.db == report.db) &&
      (exists r, t :: r in config && t in r.tables && t in report.tables)
  }

  // The publisher has answered the configured request itself, and refused it.
  ghost predicate ReportStands(ctx: Ctx) {
    ctx.side.Some? && ctx.config.Some? && ctx.side.value.pushed == AsMap(ctx.config.value) &&
    exists report :: report in ctx.side.value.reports && Concerns(report, ctx.config.value)
  }

  function WithReports(ctx: Ctx, reports: seq<Report>): Ctx {
    if ctx.side.None? then ctx else ctx.(side := Some(ctx.side.value.(reports := reports)))
  }

  lemma ConcernsExactly(report: Report, config: seq<Request>)
    ensures Relevant(report, config) <==> Concerns(report, config)
  {
  }

  lemma RefusesExactly(ctx: Ctx)
    requires ctx.config.Some?
    ensures PublisherRefuses(ctx, ctx.config.value) <==> ReportStands(ctx)
  {
    forall report { ConcernsExactly(report, ctx.config.value); }
  }

  /**
   What the reports decide: a request is accepted exactly if it would be without any, and none of
   them is about it and about the request the publisher was given.
   */
  lemma ReportsDecideExactly(
    ctx: Ctx, view: View, recorded: map<Db, string>, baseline: map<Db, seq<Table>>, mode: Mode)
    ensures RequestAccepted(ctx, view, recorded, baseline, mode) <==>
      RequestAccepted(WithReports(ctx, []), view, recorded, baseline, mode) && !ReportStands(ctx)
  {
    var without := WithReports(ctx, []);
    if ctx.config.Some? {
      RefusesExactly(ctx);
      RefusesExactly(without);
      forall r ensures DatabaseAccepted(ctx, view, recorded, baseline, mode, r) <==>
        DatabaseAccepted(without, view, recorded, baseline, mode, r)
      {
        SameButReports(ctx, view, recorded, baseline, mode, r);
      }
    }
  }

  lemma SameButReports(
    ctx: Ctx, view: View, recorded: map<Db, string>, baseline: map<Db, seq<Table>>, mode: Mode, r: Request)
    ensures DatabaseAccepted(ctx, view, recorded, baseline, mode, r) <==>
      DatabaseAccepted(WithReports(ctx, []), view, recorded, baseline, mode, r)
  {
    forall t ensures TableAccepted(ctx, view, recorded, baseline, mode, r.db, t) <==>
      TableAccepted(WithReports(ctx, []), view, recorded, baseline, mode, r.db, t)
    {
    }
  }

  // Until the publisher is given the configured request its reports are stale: any others would do.
  lemma StaleReportsDecideNothing(
    ctx: Ctx, reports: seq<Report>,
    view: View, recorded: map<Db, string>, baseline: map<Db, seq<Table>>, mode: Mode)
    requires ctx.side.Some? && ctx.config.Some? && ctx.side.value.pushed != AsMap(ctx.config.value)
    ensures RequestAccepted(ctx, view, recorded, baseline, mode) <==>
      RequestAccepted(WithReports(ctx, reports), view, recorded, baseline, mode)
  {
    ReportsDecideExactly(ctx, view, recorded, baseline, mode);
    ReportsDecideExactly(WithReports(ctx, reports), view, recorded, baseline, mode);
  }

  /**
   While a report stands nothing is newly recorded or subscribed to, however the reconcile ends, a
   configuration change fails and a retry goes on failing; all three leave record and baseline alone
   but for what is no longer published.
   */
  lemma StandingReportsStopEverything(ctx: Ctx, views: seq<View>, st: State, published: seq<Db>, view: View)
    requires Distinct(published) && |published| == |views| && ReportStands(ctx)
    ensures match Reconcile(ctx, views, st, published)
      case Done(after) => after.recorded.Keys <= st.recorded.Keys && after.live <= st.live
      case Stopped(after) => after.recorded == st.recorded && after.live == st.live
      case Raised(live) => live <= st.live
    ensures ConfigChanged(ctx, view, st) == st.(failed := true)
    ensures RetryValidations(ctx, view, st) == st
  {
    forall w, baseline, mode ensures !RequestAccepted(ctx, w, st.recorded, baseline, mode) {
      ReportsDecideExactly(ctx, w, st.recorded, baseline, mode);
    }
    NothingNew(ctx, views, st, published, |published|);
  }

  lemma {:induction false} NothingNew(ctx: Ctx, views: seq<View>, st: State, published: seq<Db>, k: nat)
    requires k <= |published| == |views|
    requires forall w :: !RequestAccepted(ctx, w, st.recorded, st.baseline, Enforce)
    ensures var work := Subscribed(ctx, views, st, published, k).work;
      work.subscriptions == st.recorded && work.live == st.live
    decreases k
  {
    if k == 0 {
    } else {
      NothingNew(ctx, views, st, published, k - 1);
    }
  }

  // ---- The empty-table guard --------------------------------------------------------------

  // The asked database holds a publication that names the table, of the name that the recorded
  // subscription of database `d` subscribes to.
  ghost predicate ReportedFor(view: View, recorded: map<Db, string>, asked: Db, d: Db, pair: SchemaTable) {
    d in recorded && recorded[d] in view.subscribed &&
    (asked, view.subscribed[recorded[d]]) in view.publications &&
    pair in view.publications[(asked, view.subscribed[recorded[d]])]
  }

  ghost predicate Replicated(view: View, recorded: map<Db, string>, asked: Db, pair: SchemaTable) {
    exists d :: ReportedFor(view, recorded, asked, d, pair)
  }

  // The applied request asked for the table, and nothing at all is reported to be replicated.
  ghost predicate AskedBefore(
    view: View, recorded: map<Db, string>, previous: map<Db, seq<Table>>, db: Db, t: Table)
  {
    (forall pair :: !Replicated(view, recorded, db, pair)) && db in previous && t in previous[db]
  }

  // The guard blocks a table that holds rows, is not replicated and was not asked for before. When a
  // configuration is changed it looks at the databases already recorded only: for a new one it
  // lets everything pass, for a recorded one it asks as much as at any other time.
  lemma GuardExactly(
    view: View, recorded: map<Db, string>, previous: map<Db, seq<Table>>, db: Db, t: Table, pair: SchemaTable)
    ensures GuardFires(view, recorded, previous, Enforce, db, t, pair) <==>
      (db, pair) !in view.empty && !Replicated(view, recorded, db, pair) &&
      !AskedBefore(view, recorded, previous, db, t)
    ensures db !in recorded ==> !GuardFires(view, recorded, previous, Auto, db, t, pair)
    ensures db in recorded ==>
      (GuardFires(view, recorded, previous, Auto, db, t, pair) <==>
        GuardFires(view, recorded, previous, Enforce, db, t, pair))
  {
    var live := LiveTables(view, recorded, db);
    forall p ensures p in live <==> Replicated(view, recorded, db, p) {
      if p in live {
        var d :| d in recorded && p in Reported(view, db, recorded[d]);
        assert ReportedFor(view, recorded, db, d, p);
      }
      if d :| ReportedFor(view, recorded, db, d, p) { assert p in Reported(view, db, recorded[d]); }
    }
    assert live == {} <==> forall p :: !Replicated(view, recorded, db, p);
  }

  // A subscription may be refreshed exactly if every configured table of its database is in the
  // publication it subscribes to, as this server knows it, or exists and holds no rows.
  lemma RefreshExactly(ctx: Ctx, view: View, db: Db)
    ensures RefreshAllowed(ctx, view, db) <==>
      forall p :: p in Wanted(ctx, db) ==>
        ReportedFor(view, map[db := SubscriptionName(ctx, db)], db, db, p) ||
        ((db, p) in view.tables && (db, p) in view.empty)
  {
  }

  // ---- The answer -------------------------------------------------------------------------

  // This application publishes the table to the publisher it subscribes to: the same stamp, or, where
  // a side has none yet, the same application name.
  ghost predicate GivenBack(ctx: Ctx, db: Db, t: Table) {
    ctx.side.Some? && ctx.offer.Some? &&
    var ours, theirs, publications := ctx.offer.value.0, ctx.side.value.remote, ctx.offer.value.1;
    db in publications && t in publications[db].tables &&
    (ours.identity.None? || theirs.identity.None? ==> ours.appName == theirs.appName) &&
    (ours.identity.Some? && theirs.identity.Some? ==> ours.identity == theirs.identity)
  }

  // The publisher offers the table with a chain that this application is on.
  ghost predicate OnItsChain(ctx: Ctx, db: Db, t: Table) {
    ctx.side.Some? && db in ctx.side.value.publications && t in ctx.side.value.publications[db].chains &&
    exists token :: token in ctx.side.value.publications[db].chains[t] &&
      (token == ctx.self.modelUuid + "/" + ctx.self.appName || token == ctx.self.appName)
  }

  ghost predicate Acceptable(
    ctx: Ctx, view: View, recorded: map<Db, string>, previous: map<Db, seq<Table>>, mode: Mode, db: Db, t: Table)
  {
    !GivenBack(ctx, db, t) && !OnItsChain(ctx, db, t) &&
    exists schema, table :: Spells(t, schema, table) && (db, (schema, table)) in view.tables &&
      ((db, (schema, table)) in view.empty || (mode.Auto? && db !in recorded) ||
       Replicated(view, recorded, db, (schema, table)) || AskedBefore(view, recorded, previous, db, t))
  }

  lemma TablesExactly(
    ctx: Ctx, view: View, recorded: map<Db, string>, previous: map<Db, seq<Table>>, mode: Mode, db: Db, t: Table)
    ensures TableAccepted(ctx, view, recorded, previous, mode, db, t) <==>
      Acceptable(ctx, view, recorded, previous, mode, db, t)
  {
    SplitsItsNames(t);
    assert PublishesBack(ctx, db, t) <==> GivenBack(ctx, db, t);
    assert OfferedInACircle(ctx, db, t) <==> OnItsChain(ctx, db, t);
    if SchemaAndTable(t).Some? {
      var (schema, table) := SchemaAndTable(t).value;
      GuardExactly(view, recorded, previous, db, t, (schema, table));
      assert Spells(t, schema, table);
    }
  }

  /**
   The configured request is accepted exactly if no report stands against it, its databases exist, and
   each of its tables is spelled and exists, is not replicated in a circle, and holds no rows of its
   own.
   */
  lemma AcceptedExactly(
    ctx: Ctx, view: View, recorded: map<Db, string>, previous: map<Db, seq<Table>>, mode: Mode)
    ensures RequestAccepted(ctx, view, recorded, previous, mode) <==>
      ctx.config.Some? && !ReportStands(ctx) &&
      (forall r :: r in ctx.config.value ==> r.db in view.databases) &&
      forall db, t :: Configures(ctx, db, t) ==> Acceptable(ctx, view, recorded, previous, mode, db, t)
  {
    if ctx.config.Some? {
      RefusesExactly(ctx);
      forall db, t { TablesExactly(ctx, view, recorded, previous, mode, db, t); }
      forall r | r in ctx.config.value
        ensures DatabaseAccepted(ctx, view, recorded, previous, mode, r) <==>
          r.db in view.databases &&
          forall t :: t in r.tables ==> Acceptable(ctx, view, recorded, previous, mode, r.db, t)
      {
      }
      forall r, t | r in ctx.config.value && t in r.tables ensures Configures(ctx, r.db, t) {
        assert r == Request(r.db, r.tables);
      }
    }
  }

  // ---- What the operations make of it -----------------------------------------------------

  // Recorded databases that are no longer configured go, with their subscriptions; while there is a
  // relation.
  ghost predicate Applied(ctx: Ctx, before: State, after: State)
    requires ctx.config.Some?
  {
    (forall d :: d in after.recorded <==>
      d in before.recorded && (ctx.side.Some? ==> Requests(ctx.config.value, d))) &&
    (forall d :: d in after.recorded ==> after.recorded[d] == before.recorded[d]) &&
    forall s :: s in after.live <==>
      s in before.live && !(s.0 in before.recorded && s.1 == before.recorded[s.0] && s.0 !in after.recorded)
  }

  lemma ApplyingExactly(ctx: Ctx, st: State)
    requires ctx.config.Some?
    ensures var after := ApplyRequest(ctx, st);
      Applied(ctx, st, after) && after.baseline == st.baseline && after.failed == st.failed
  {
  }

  /**
   A changed configuration and a retry: what is accepted is applied and clears the failure. Only the
   change moves the baseline, to what is now configured of the recorded databases.
   */
  lemma OperationsExactly(ctx: Ctx, view: View, st: State)
    ensures var after := ConfigChanged(ctx, view, st);
      if RequestAccepted(ctx, view, st.recorded, st.baseline, Auto) then
        Applied(ctx, st, after) && !after.failed && forall d ::
          (d in after.baseline <==> d in after.recorded && Requests(ctx.config.value, d)) &&
          (d in after.baseline ==> Some(after.baseline[d]) == Lookup(ctx.config.value, d))
      else after == st.(failed := true)
    ensures var after := RetryValidations(ctx, view, st);
      if st.failed && ctx.config.Some? && RequestAccepted(ctx, view, st.recorded, AsMap(ctx.config.value), Enforce)
      then Applied(ctx, st, after) && !after.failed && after.baseline == st.baseline
      else after == st
    ensures var after := RelationBroken(st);
      after.recorded == map[] && after.baseline == map[] && after.failed == st.failed &&
      forall s :: s in after.live <==> s in st.live && !(s.0 in st.recorded && s.1 == st.recorded[s.0])
  {
    if ctx.config.Some? { ApplyingExactly(ctx, st); }
  }

  // The last new database that was published.
  ghost predicate LastNew(st: State, published: seq<Db>, k: nat, j: nat)
    requires k <= |published|
  {
    j < k && published[j] !in st.recorded && forall i :: j < i < k ==> published[i] in st.recorded
  }

  // The failure marker is what the last new database left: set if it was not accepted, cleared if it
  // was. A run that comes to none leaves it as it was.
  lemma {:induction false} FailedExactly(ctx: Ctx, views: seq<View>, st: State, published: seq<Db>, k: nat)
    requires Distinct(published) && k <= |published| == |views|
    requires Subscribed(ctx, views, st, published, k).Going?
    ensures var failed := Subscribed(ctx, views, st, published, k).work.failed;
      (forall j: nat :: LastNew(st, published, k, j) ==> (failed <==> !Passes(ctx, views[j], st))) &&
      ((forall j :: 0 <= j < k ==> published[j] in st.recorded) ==> failed == st.failed)
    decreases k
  {
    if k == 0 {
    } else {
      FailedExactly(ctx, views, st, published, k - 1);
      CollectedUpTo(ctx, views, st, published, k - 1);
      assert published[k - 1] !in published[..k - 1];
      forall j: nat | LastNew(st, published, k, j) ensures j == k - 1 || LastNew(st, published, k - 1, j) {
      }
    }
  }

  // So for a whole run; one that a refresh stops sets the marker.
  lemma RunsFlagExactly(ctx: Ctx, views: seq<View>, st: State, published: seq<Db>)
    requires Distinct(published) && |published| == |views|
    ensures match Reconcile(ctx, views, st, published)
      case Done(after) =>
        ((forall j: nat :: LastNew(st, published, |published|, j) ==> (after.failed <==> !Passes(ctx, views[j], st))) &&
         ((forall d :: d in published ==> d in st.recorded) ==> after.failed == st.failed))
      case Stopped(after) => after.failed
      case Raised(_) => true
  {
    var end := Subscribed(ctx, views, st, published, |published|);
    if end.Going? { FailedExactly(ctx, views, st, published, |published|); }
    BlockedIsFlagged(ctx, views, st, published, |published|);
  }

  lemma {:induction false} BlockedIsFlagged(ctx: Ctx, views: seq<View>, st: State, published: seq<Db>, k: nat)
    requires k <= |published| == |views|
    ensures Subscribed(ctx, views, st, published, k).Blocked? ==> Subscribed(ctx, views, st, published, k).work.failed
    decreases k
  {
    if k == 0 {
    } else {
      BlockedIsFlagged(ctx, views, st, published, k - 1);
    }
  }
}
