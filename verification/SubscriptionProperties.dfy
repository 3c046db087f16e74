/** What the subscriber's reconcile keeps and guards, alone and over whole runs. */
module SubscriptionProperties {
  import opened Common
  import opened LogicalChains
  import opened LogicalRequests
  import opened SubscriptionModel

  ghost predicate Passes(ctx: Ctx, view: View, st: State) {
    RequestAccepted(ctx, view, st.recorded, st.baseline, Enforce)
  }

  // ---- One run ----------------------------------------------------------------------------

  // The working copy after k publications: what was recorded, and each new database that passed.
  ghost predicate Collected(ctx: Ctx, views: seq<View>, st: State, published: seq<Db>, k: nat, work: Work)
    requires k <= |published| == |views|
  {
    (forall d :: d in st.recorded ==> d in work.subscriptions && work.subscriptions[d] == st.recorded[d]) &&
    (forall d :: d in work.subscriptions && d !in st.recorded ==>
      d in published[..k] && work.subscriptions[d] == SubscriptionName(ctx, d)) &&
    (forall j :: 0 <= j < k && published[j] !in st.recorded ==>
      (published[j] in work.subscriptions <==> Passes(ctx, views[j], st))) &&
    (forall s :: s in work.live <==>
      s in st.live || (s.0 in work.subscriptions && s.0 !in st.recorded && s.1 == SubscriptionName(ctx, s.0))) &&
    (forall d :: d in work.subscriptions && d !in st.recorded ==> (d, SubscriptionName(ctx, d)) !in st.live)
  }

  lemma OneMoreCollected(ctx: Ctx, views: seq<View>, st: State, published: seq<Db>, k: nat, work: Work)
    requires Distinct(published) && k < |published| == |views| && Collected(ctx, views, st, published, k, work)
    requires OnePublication(ctx, views[k], st, work, published[k]).Going?
    ensures Collected(ctx, views, st, published, k + 1, OnePublication(ctx, views[k], st, work, published[k]).work)
  {
  }

  lemma {:induction false} CollectedUpTo(ctx: Ctx, views: seq<View>, st: State, published: seq<Db>, k: nat)
    requires Distinct(published) && k <= |published| == |views|
    requires Subscribed(ctx, views, st, published, k).Going?
    ensures Collected(ctx, views, st, published, k, Subscribed(ctx, views, st, published, k).work)
    decreases k
  {
    if k == 0 {
    } else {
      CollectedUpTo(ctx, views, st, published, k - 1);
      OneMoreCollected(ctx, views, st, published, k - 1, Subscribed(ctx, views, st, published, k - 1).work);
    }
  }

  // Recorded afterwards: the recorded databases still published and the new ones that passed.
  lemma RecordedIsExact(ctx: Ctx, views: seq<View>, st: State, published: seq<Db>)
    requires Distinct(published) && |published| == |views| && Reconcile(ctx, views, st, published).Done?
    ensures var after := Reconcile(ctx, views, st, published).state;
      (forall d :: d in after.recorded ==> d in published) &&
      (forall j :: 0 <= j < |published| ==>
        (published[j] in after.recorded <==> published[j] in st.recorded || Passes(ctx, views[j], st))) &&
      (forall d :: d in after.recorded ==>
        after.recorded[d] == if d in st.recorded then st.recorded[d] else SubscriptionName(ctx, d))
  {
    CollectedUpTo(ctx, views, st, published, |published|);
  }

  // ---- Recorded and live ------------------------------------------------------------------

  // The subscriptions PostgreSQL has under this relation's names are the recorded ones.
  ghost predicate Matches(ctx: Ctx, st: State) {
    (forall d :: d in st.recorded ==> st.recorded[d] == SubscriptionName(ctx, d)) &&
    (forall d :: d in st.recorded <==> (d, SubscriptionName(ctx, d)) in st.live)
  }

  lemma ReconcileKeepsMatches(ctx: Ctx, views: seq<View>, st: State, published: seq<Db>)
    requires Distinct(published) && |published| == |views| && Matches(ctx, st)
    requires Reconcile(ctx, views, st, published).Done?
    ensures Matches(ctx, Reconcile(ctx, views, st, published).state)
  {
    CollectedUpTo(ctx, views, st, published, |published|);
  }

  // ---- Blocked refreshes ------------------------------------------------------------------

  // A recorded database whose refresh the guard blocks.
  ghost predicate BlockedAt(ctx: Ctx, views: seq<View>, st: State, published: seq<Db>, k: nat)
    requires |published| == |views|
  {
    k < |published| && published[k] in st.recorded && !RefreshAllowed(ctx, views[k], published[k])
  }

  ghost predicate BlockedBefore(ctx: Ctx, views: seq<View>, st: State, published: seq<Db>, n: nat)
    requires |published| == |views|
  {
    exists k: nat :: k < n && BlockedAt(ctx, views, st, published, k)
  }

  // With matching records the loop goes on until it meets a blocked refresh, and never raises: the
  // subscription a new database needs is not in the way.
  lemma {:induction false} MatchingRunsGoOn(ctx: Ctx, views: seq<View>, st: State, published: seq<Db>, k: nat)
    requires Distinct(published) && k <= |published| == |views| && Matches(ctx, st)
    ensures !Subscribed(ctx, views, st, published, k).Raising?
    ensures Subscribed(ctx, views, st, published, k).Going? <==> !BlockedBefore(ctx, views, st, published, k)
    decreases k
  {
    if k == 0 {
    } else {
      MatchingRunsGoOn(ctx, views, st, published, k - 1);
      if Subscribed(ctx, views, st, published, k - 1).Going? {
        CollectedUpTo(ctx, views, st, published, k - 1);
        OneMoreGoesOn(ctx, views, st, published, k - 1, Subscribed(ctx, views, st, published, k - 1).work);
      }
      OneMoreBlocked(ctx, views, st, published, k - 1);
    }
  }

  lemma OneMoreBlocked(ctx: Ctx, views: seq<View>, st: State, published: seq<Db>, k: nat)
    requires |published| == |views|
    ensures BlockedBefore(ctx, views, st, published, k + 1) <==>
      BlockedBefore(ctx, views, st, published, k) || BlockedAt(ctx, views, st, published, k)
  {
  }

  lemma OneMoreGoesOn(ctx: Ctx, views: seq<View>, st: State, published: seq<Db>, k: nat, work: Work)
    requires Distinct(published) && k < |published| == |views| && Matches(ctx, st)
    requires Collected(ctx, views, st, published, k, work)
    ensures var progress := OnePublication(ctx, views[k], st, work, published[k]);
      !progress.Raising? && (progress.Going? <==> !BlockedAt(ctx, views, st, published, k))
  {
    assert published[k] !in published[..k];
    assert published[k] in work.subscriptions <==> published[k] in st.recorded;
  }

  // How a run over matching records ends: stopped by a blocked refresh, raised by a malformed
  // configuration, or done.
  lemma RunsEndExactly(ctx: Ctx, views: seq<View>, st: State, published: seq<Db>)
    requires Distinct(published) && |published| == |views| && Matches(ctx, st)
    ensures var outcome := Reconcile(ctx, views, st, published);
      (outcome.Stopped? <==> exists k: nat :: BlockedAt(ctx, views, st, published, k)) &&
      (outcome.Done? <==> !outcome.Stopped? && ctx.config.Some?) &&
      (outcome.Raised? <==> !outcome.Stopped? && ctx.config.None?)
  {
    MatchingRunsGoOn(ctx, views, st, published, |published|);
    if k: nat :| BlockedAt(ctx, views, st, published, k) {
      assert BlockedBefore(ctx, views, st, published, |published|);
    }
  }

  ghost predicate FirstBlock(ctx: Ctx, views: seq<View>, st: State, published: seq<Db>, k: nat)
    requires |published| == |views|
  {
    BlockedAt(ctx, views, st, published, k) && !BlockedBefore(ctx, views, st, published, k)
  }

  // A run stopped by a blocked refresh records nothing. The record still matches PostgreSQL exactly
  // if no database published before the blocked one was new and passed.
  lemma BlockedRefreshesKeepMatchesExactly(ctx: Ctx, views: seq<View>, st: State, published: seq<Db>, k: nat)
    requires Distinct(published) && |published| == |views| && Matches(ctx, st)
    requires FirstBlock(ctx, views, st, published, k)
    ensures var outcome := Reconcile(ctx, views, st, published);
      outcome.Stopped? && outcome.state.recorded == st.recorded && outcome.state.baseline == st.baseline &&
      (Matches(ctx, outcome.state) <==>
        forall j :: 0 <= j < k ==> published[j] in st.recorded || !Passes(ctx, views[j], st))
  {
    MatchingRunsGoOn(ctx, views, st, published, k);
    CollectedUpTo(ctx, views, st, published, k);
    var work := Subscribed(ctx, views, st, published, k).work;
    BlocksThere(ctx, views, st, published, k);
    MatchesExactlyIfNothingNew(ctx, views, st, published, k, work, st.(failed := true, live := work.live));
  }

  lemma MatchesExactlyIfNothingNew(
    ctx: Ctx, views: seq<View>, st: State, published: seq<Db>, k: nat, work: Work, after: State)
    requires k <= |published| == |views| && Matches(ctx, st) && Collected(ctx, views, st, published, k, work)
    requires after.recorded == st.recorded && after.live == work.live
    ensures Matches(ctx, after) <==>
      forall j :: 0 <= j < k ==> published[j] in st.recorded || !Passes(ctx, views[j], st)
  {
    if j :| 0 <= j < k && published[j] !in st.recorded && Passes(ctx, views[j], st) {
      assert (published[j], SubscriptionName(ctx, published[j])) in after.live;
    }
    if d :| d in work.subscriptions && d !in st.recorded {
      var j :| 0 <= j < k && published[..k][j] == d;
      assert Passes(ctx, views[j], st);
    }
  }

  lemma BlocksThere(ctx: Ctx, views: seq<View>, st: State, published: seq<Db>, k: nat)
    requires k < |published| == |views| && Subscribed(ctx, views, st, published, k).Going?
    requires published[k] in Subscribed(ctx, views, st, published, k).work.subscriptions
    requires !RefreshAllowed(ctx, views[k], published[k])
    ensures Reconcile(ctx, views, st, published) ==
      Stopped(st.(failed := true, live := Subscribed(ctx, views, st, published, k).work.live))
  {
    var work := Subscribed(ctx, views, st, published, k).work;
    assert Subscribed(ctx, views, st, published, k + 1) == Blocked(work.(failed := true));
    Stays(ctx, views, st, published, k + 1, |published|);
  }

  // A run raises wherever it comes to a new database that passes and whose subscription is live.
  lemma UnrecordedSubscriptionsRaise(ctx: Ctx, views: seq<View>, st: State, published: seq<Db>, j: nat)
    requires Distinct(published) && j < |published| == |views|
    requires Subscribed(ctx, views, st, published, j).Going?
    requires published[j] !in st.recorded && Passes(ctx, views[j], st)
    requires (published[j], SubscriptionName(ctx, published[j])) in st.live
    ensures Reconcile(ctx, views, st, published).Raised?
  {
    CollectedUpTo(ctx, views, st, published, j);
    assert published[j] !in published[..j];
    assert Subscribed(ctx, views, st, published, j + 1).Raising?;
    Stays(ctx, views, st, published, j + 1, |published|);
  }

  // A malformed configuration lets no new database pass, drops what is no longer published and then
  // raises: the record still matches exactly if there was nothing to drop.
  lemma MalformedConfigurationsKeepMatchesExactly(ctx: Ctx, views: seq<View>, st: State, published: seq<Db>)
    requires Distinct(published) && |published| == |views| && Matches(ctx, st)
    requires ctx.config.None? && !(exists k: nat :: BlockedAt(ctx, views, st, published, k))
    ensures var outcome := Reconcile(ctx, views, st, published);
      outcome.Raised? &&
      (Matches(ctx, st.(live := outcome.live)) <==> forall d :: d in st.recorded ==> d in published)
  {
    RunsEndExactly(ctx, views, st, published);
    MatchingRunsGoOn(ctx, views, st, published, |published|);
    CollectedUpTo(ctx, views, st, published, |published|);
    var work := Subscribed(ctx, views, st, published, |published|).work;
    assert published[..|published|] == published;
    forall d | d in published && d !in st.recorded ensures d !in work.subscriptions {
      var j :| 0 <= j < |published| && published[j] == d;
      assert !Passes(ctx, views[j], st);
    }
    assert work.live == st.live;
    if d :| d in st.recorded && d !in published {
      assert (d, SubscriptionName(ctx, d)) !in DropUnpublished(work, published).live;
    }
  }

  // ---- The baseline and the empty-table guard ---------------------------------------------

  ghost predicate Covered(st: State) {
    forall d :: d in st.baseline ==> d in st.recorded
  }

  lemma ReconcileSetsTheBaseline(ctx: Ctx, views: seq<View>, st: State, published: seq<Db>)
    requires |published| == |views| && Reconcile(ctx, views, st, published).Done?
    ensures var after := Reconcile(ctx, views, st, published).state;
      Covered(after) && forall d ::
        (d in after.baseline <==> d in after.recorded && Requests(ctx.config.value, d)) &&
        (d in after.baseline ==> Some(after.baseline[d]) == Lookup(ctx.config.value, d))
  {
  }

  // The asked database holds a publication that names the table and is called like the one another
  // database's recorded subscription subscribes to.
  ghost predicate ReportedForOthers(view: View, st: State, db: Db, pair: SchemaTable) {
    exists d :: d in st.recorded && d != db && pair in Reported(view, db, st.recorded[d])
  }

  // The baseline vouches for a table where no live table is reported at all.
  predicate VouchedFor(view: View, st: State, db: Db, t: Table) {
    LiveTables(view, st.recorded, db) == {} && db in st.baseline && t in st.baseline[db]
  }

  // For a database not yet recorded the guard lets a table pass exactly when it is locally empty,
  // reported for another database's subscription, or vouched for by the baseline.
  lemma GuardIsExact(view: View, st: State, db: Db, t: Table, pair: SchemaTable)
    requires db !in st.recorded
    ensures !GuardFires(view, st.recorded, st.baseline, Enforce, db, t, pair) <==>
      (db, pair) in view.empty || ReportedForOthers(view, st, db, pair) || VouchedFor(view, st, db, t)
  {
  }

  // The server's publications are the charm's own (see OfferProperties.Agrees), and every
  // subscription subscribes to the publication the publisher made for its database.
  ghost predicate CharmNames(ctx: Ctx, view: View) {
    (forall a, n :: (a, n) in view.publications ==> exists i :: n == Slots.ResourceName(i, a)) &&
    (forall d :: SubscriptionName(ctx, d) in view.subscribed ==>
      exists k :: view.subscribed[SubscriptionName(ctx, d)] == Slots.ResourceName(k, d))
  }

  // Then a database reports nothing of another database's subscription.
  lemma DatabasesReportTheirOwn(ctx: Ctx, view: View, asked: Db, d: Db)
    requires CharmNames(ctx, view) && asked != d
    ensures Reported(view, asked, SubscriptionName(ctx, d)) == {}
  {
    var subscription := SubscriptionName(ctx, d);
    if subscription in view.subscribed && (asked, view.subscribed[subscription]) in view.publications {
      var i :| view.subscribed[subscription] == Slots.ResourceName(i, asked);
      var k :| view.subscribed[subscription] == Slots.ResourceName(k, d);
      Slots.NamesAreInjective(i, asked, k, d);
    }
  }

  lemma NothingIsReportedForOthers(ctx: Ctx, view: View, st: State, db: Db, pair: SchemaTable)
    requires CharmNames(ctx, view) && Matches(ctx, st)
    ensures !ReportedForOthers(view, st, db, pair)
  {
    forall d | d in st.recorded && d != db ensures pair !in Reported(view, db, st.recorded[d]) {
      DatabasesReportTheirOwn(ctx, view, db, d);
    }
  }

  // A publication made by hand under the name another database's subscription subscribes to
  // silences the guard for a full table.
  lemma BorrowedNamesSilenceTheGuard(ctx: Ctx, one: Db, two: Db, t: Table, pair: SchemaTable, name: string)
    requires one != two
    ensures
      var st := State(map[one := SubscriptionName(ctx, one)], map[], false, {});
      var view := View({two}, {(two, pair)}, {}, map[(two, name) := {pair}], map[SubscriptionName(ctx, one) := name]);
      !GuardFires(view, st.recorded, st.baseline, Enforce, two, t, pair)
  {
    var st := State(map[one := SubscriptionName(ctx, one)], map[], false, {});
    var view := View({two}, {(two, pair)}, {}, map[(two, name) := {pair}], map[SubscriptionName(ctx, one) := name]);
    assert one in st.recorded && pair in Reported(view, two, st.recorded[one]);
  }

  // A configured table of a newly recorded database: it existed, the guard let it pass, it is not
  // published back, and it is offered with a chain free of this application.
  ghost predicate SafelyNew(ctx: Ctx, view: View, st: State, db: Db, t: Table) {
    var pair := SchemaAndTable(t);
    pair.Some? && (db, pair.value) in view.tables &&
    ((db, pair.value) in view.empty || ReportedForOthers(view, st, db, pair.value) || VouchedFor(view, st, db, t)) &&
    !PublishesBack(ctx, db, t) &&
    (ctx.side.Some? ==> !WouldCreateCircular(ctx.self, ctx.side.value.publications, db, t))
  }

  ghost predicate Configures(ctx: Ctx, db: Db, t: Table) {
    ctx.config.Some? && exists tables :: Request(db, tables) in ctx.config.value && t in tables
  }

  lemma NewSubscriptionsAreGuarded(ctx: Ctx, views: seq<View>, st: State, published: seq<Db>, j: nat, t: Table)
    requires Distinct(published) && j < |published| == |views|
    requires Reconcile(ctx, views, st, published).Done?
    requires published[j] !in st.recorded && published[j] in Reconcile(ctx, views, st, published).state.recorded
    requires Configures(ctx, published[j], t)
    ensures SafelyNew(ctx, views[j], st, published[j], t)
  {
    RecordedIsExact(ctx, views, st, published);
    var db := published[j];
    var tables :| Request(db, tables) in ctx.config.value && t in tables;
    assert DatabaseAccepted(ctx, views[j], st.recorded, st.baseline, Enforce, Request(db, tables));
    assert TableAccepted(ctx, views[j], st.recorded, st.baseline, Enforce, db, t);
    GuardIsExact(views[j], st, db, t, SchemaAndTable(t).value);
  }

  // With the charm's own publications, matching records and a covered baseline, every configured
  // table of a newly recorded database was locally empty when it was subscribed.
  lemma NewTablesWereEmpty(ctx: Ctx, views: seq<View>, st: State, published: seq<Db>, j: nat, t: Table)
    requires Distinct(published) && j < |published| == |views| && Matches(ctx, st) && Covered(st)
    requires Reconcile(ctx, views, st, published).Done? && CharmNames(ctx, views[j])
    requires published[j] !in st.recorded && published[j] in Reconcile(ctx, views, st, published).state.recorded
    requires Configures(ctx, published[j], t)
    ensures SchemaAndTable(t).Some? && (published[j], SchemaAndTable(t).value) in views[j].empty
  {
    NewSubscriptionsAreGuarded(ctx, views, st, published, j, t);
    NothingIsReportedForOthers(ctx, views[j], st, published[j], SchemaAndTable(t).value);
  }

  // In a run to the end every subscription refreshed was refreshed over tables that are replicated
  // already, or exist and are empty.
  lemma RefreshesAreGuarded(ctx: Ctx, views: seq<View>, st: State, published: seq<Db>, j: nat, p: SchemaTable)
    requires Distinct(published) && j < |published| == |views| && Reconcile(ctx, views, st, published).Done?
    requires published[j] in st.recorded && p in Wanted(ctx, published[j])
    ensures p in Reported(views[j], published[j], SubscriptionName(ctx, published[j])) ||
      ((published[j], p) in views[j].tables && (published[j], p) in views[j].empty)
  {
    GoingSoFar(ctx, views, st, published, j + 1, |published|);
    GoingSoFar(ctx, views, st, published, j, |published|);
    CollectedUpTo(ctx, views, st, published, j);
    assert RefreshAllowed(ctx, views[j], published[j]);
  }

  // Where this server publishes nothing under the publisher's name for the database, nothing counts
  // as replicated: a refresh is then allowed exactly if every configured table exists and is empty.
  lemma RefreshesAskForEmptyTables(ctx: Ctx, view: View, db: Db)
    requires NothingUnderItsName(ctx, view, db)
    ensures RefreshAllowed(ctx, view, db) <==>
      forall p :: p in Wanted(ctx, db) ==> (db, p) in view.tables && (db, p) in view.empty
  {
    assert Wanted(ctx, db) - {} == Wanted(ctx, db);
  }

  ghost predicate NothingUnderItsName(ctx: Ctx, view: View, db: Db) {
    SubscriptionName(ctx, db) in view.subscribed ==>
      (db, view.subscribed[SubscriptionName(ctx, db)]) !in view.publications
  }

  // A recorded database with a configured table that is missing or holds rows.
  ghost predicate FullAt(ctx: Ctx, views: seq<View>, st: State, published: seq<Db>, k: nat)
    requires |published| == |views|
  {
    k < |published| && published[k] in st.recorded &&
    exists p :: p in Wanted(ctx, published[k]) &&
      !((published[k], p) in views[k].tables && (published[k], p) in views[k].empty)
  }

  // So a run over a matching record is stopped exactly if some recorded database still published
  // has a configured table that is missing or not empty -- as any replicated table soon is.
  lemma RunsStopExactlyOnFullTables(ctx: Ctx, views: seq<View>, st: State, published: seq<Db>)
    requires Distinct(published) && |published| == |views| && Matches(ctx, st)
    requires forall k :: 0 <= k < |published| ==> NothingUnderItsName(ctx, views[k], published[k])
    ensures Reconcile(ctx, views, st, published).Stopped? <==> exists k: nat :: FullAt(ctx, views, st, published, k)
  {
    RunsEndExactly(ctx, views, st, published);
    forall k: nat ensures BlockedAt(ctx, views, st, published, k) <==> FullAt(ctx, views, st, published, k) {
      if k < |published| { RefreshesAskForEmptyTables(ctx, views[k], published[k]); }
    }
  }

  lemma GoingSoFar(ctx: Ctx, views: seq<View>, st: State, published: seq<Db>, k: nat, n: nat)
    requires k <= n <= |published| == |views| && Subscribed(ctx, views, st, published, n).Going?
    ensures Subscribed(ctx, views, st, published, k).Going?
  {
    if !Subscribed(ctx, views, st, published, k).Going? {
      Stays(ctx, views, st, published, k, n);
      assert false;
    }
  }

  // ---- Runs -------------------------------------------------------------------------------

  datatype Step =
    | Reconciled(ctx: Ctx, views: seq<View>, published: seq<Db>)
    | Configured(ctx: Ctx, view: View)
    | Retried(ctx: Ctx, view: View)
    | Broken(ctx: Ctx)

  // A JSON object of publications, each meeting PostgreSQL once.
  ghost predicate Possible(step: Step) {
    step.Reconciled? ==> Distinct(step.published) && |step.published| == |step.views|
  }

  ghost function Next(st: State, step: Step): State
    requires Possible(step)
  {
    match step
    case Reconciled(ctx, views, published) =>
      var outcome := Reconcile(ctx, views, st, published);
      if outcome.Raised? then st.(live := outcome.live) else outcome.state
    case Configured(ctx, view) => ConfigChanged(ctx, view, st)
    case Retried(ctx, view) => RetryValidations(ctx, view, st)
    case Broken(_) => RelationBroken(st)
  }

  // A retry applies the configured request, but leaves the baseline as it was.
  predicate RetryApplies(ctx: Ctx, view: View, st: State) {
    st.failed && ctx.config.Some? && ctx.side.Some? &&
    RequestAccepted(ctx, view, st.recorded, AsMap(ctx.config.value), Enforce)
  }

  lemma RetryKeepsCoverageExactly(ctx: Ctx, view: View, st: State)
    requires Covered(st)
    ensures Covered(RetryValidations(ctx, view, st)) <==>
      (RetryApplies(ctx, view, st) ==> forall d :: d in st.baseline ==> Requests(ctx.config.value, d))
  {
  }

  // The step is no reconcile that is stopped by a blocked refresh after a new database passed, or
  // that drops a database under a malformed configuration.
  ghost predicate KeepsMatches(st: State, step: Step)
    requires Possible(step)
  {
    step.Reconciled? ==>
      var Reconciled(ctx, views, published) := step;
      if exists k: nat :: FirstBlock(ctx, views, st, published, k) then
        forall j, k: nat :: 0 <= j < k && FirstBlock(ctx, views, st, published, k) ==>
          published[j] in st.recorded || !Passes(ctx, views[j], st)
      else ctx.config.None? ==> forall d :: d in st.recorded ==> d in published
  }

  lemma {:induction false} SomeBlockIsFirst(ctx: Ctx, views: seq<View>, st: State, published: seq<Db>, n: nat)
    returns (k: nat)
    requires |published| == |views| && BlockedBefore(ctx, views, st, published, n)
    ensures FirstBlock(ctx, views, st, published, k)
    decreases n
  {
    if BlockedBefore(ctx, views, st, published, n - 1) {
      k := SomeBlockIsFirst(ctx, views, st, published, n - 1);
    } else {
      k := n - 1;
    }
  }

  lemma ReconcileKeepsMatchesExactly(st: State, step: Step)
    requires Possible(step) && step.Reconciled? && Matches(step.ctx, st)
    ensures Matches(step.ctx, Next(st, step)) <==> KeepsMatches(st, step)
  {
    var Reconciled(ctx, views, published) := step;
    RunsEndExactly(ctx, views, st, published);
    if i: nat :| BlockedAt(ctx, views, st, published, i) {
      assert BlockedBefore(ctx, views, st, published, i + 1);
      var k := SomeBlockIsFirst(ctx, views, st, published, i + 1);
      BlockedRefreshesKeepMatchesExactly(ctx, views, st, published, k);
      forall n: nat | FirstBlock(ctx, views, st, published, n) ensures n == k {
      }
    } else if ctx.config.None? {
      MalformedConfigurationsKeepMatchesExactly(ctx, views, st, published);
    } else {
      ReconcileKeepsMatches(ctx, views, st, published);
    }
  }

  lemma StepsKeepMatchesExactly(st: State, step: Step)
    requires Possible(step) && Matches(step.ctx, st)
    ensures Matches(step.ctx, Next(st, step)) <==> KeepsMatches(st, step)
  {
    if step.Reconciled? {
      ReconcileKeepsMatchesExactly(st, step);
    }
  }

  ghost predicate KeepsCoverage(st: State, step: Step) {
    step.Retried? && RetryApplies(step.ctx, step.view, st) ==>
      forall d :: d in st.baseline ==> Requests(step.ctx.config.value, d)
  }

  lemma StepsKeepCoverageExactly(st: State, step: Step)
    requires Possible(step) && Covered(st)
    ensures Covered(Next(st, step)) <==> KeepsCoverage(st, step)
  {
    if step.Reconciled? && Reconcile(step.ctx, step.views, st, step.published).Done? {
      ReconcileSetsTheBaseline(step.ctx, step.views, st, step.published);
    }
  }

  // A run of the operations on one relation.
  ghost predicate IsRun(relationId: nat, steps: seq<Step>) {
    forall i :: 0 <= i < |steps| ==> steps[i].ctx.relationId == relationId && Possible(steps[i])
  }

  ghost function At(relationId: nat, st: State, steps: seq<Step>, k: nat): State
    requires IsRun(relationId, steps) && k <= |steps|
  {
    if k == 0 then st else Next(At(relationId, st, steps, k - 1), steps[k - 1])
  }

  ghost predicate MatchesAt(ctx: Ctx, st: State, steps: seq<Step>, k: nat)
    requires IsRun(ctx.relationId, steps) && k <= |steps|
  {
    Matches(ctx, At(ctx.relationId, st, steps, k))
  }

  lemma {:induction false} MatchesAllAlong(ctx: Ctx, st: State, steps: seq<Step>, k: nat)
    requires IsRun(ctx.relationId, steps) && k <= |steps| && MatchesAt(ctx, st, steps, 0)
    requires forall i :: 0 <= i < |steps| && MatchesAt(ctx, st, steps, i) ==> MatchesAt(ctx, st, steps, i + 1)
    ensures MatchesAt(ctx, st, steps, k)
    decreases k
  {
    if k == 0 {
    } else {
      MatchesAllAlong(ctx, st, steps, k - 1);
    }
  }

  lemma MatchesNext(ctx: Ctx, st: State, steps: seq<Step>, k: nat)
    requires IsRun(ctx.relationId, steps) && k < |steps| && MatchesAt(ctx, st, steps, k)
    requires KeepsMatches(At(ctx.relationId, st, steps, k), steps[k])
    ensures MatchesAt(ctx, st, steps, k + 1)
  {
    MatchesFollow(ctx, At(ctx.relationId, st, steps, k), steps[k], At(ctx.relationId, st, steps, k + 1));
  }

  // Record and PostgreSQL match along every run without a step that is known to part them.
  lemma RunsKeepMatches(ctx: Ctx, st: State, steps: seq<Step>, k: nat)
    requires IsRun(ctx.relationId, steps) && k <= |steps| && Matches(ctx, st)
    requires forall i :: 0 <= i < |steps| ==> KeepsMatches(At(ctx.relationId, st, steps, i), steps[i])
    ensures Matches(ctx, At(ctx.relationId, st, steps, k))
  {
    forall i | 0 <= i < |steps| && MatchesAt(ctx, st, steps, i) ensures MatchesAt(ctx, st, steps, i + 1) {
      MatchesNext(ctx, st, steps, i);
    }
    MatchesAllAlong(ctx, st, steps, k);
  }

  lemma MatchesFollow(ctx: Ctx, before: State, step: Step, after: State)
    requires Possible(step) && step.ctx.relationId == ctx.relationId && Matches(ctx, before)
    requires KeepsMatches(before, step) && after == Next(before, step)
    ensures Matches(ctx, after)
  {
    SameNames(ctx, step.ctx, before);
    StepsKeepMatchesExactly(before, step);
    SameNames(step.ctx, ctx, after);
  }

  ghost predicate CoveredAt(relationId: nat, st: State, steps: seq<Step>, k: nat)
    requires IsRun(relationId, steps) && k <= |steps|
  {
    Covered(At(relationId, st, steps, k))
  }

  lemma {:induction false} CoveredAllAlong(relationId: nat, st: State, steps: seq<Step>, k: nat)
    requires IsRun(relationId, steps) && k <= |steps| && CoveredAt(relationId, st, steps, 0)
    requires forall i :: 0 <= i < |steps| && CoveredAt(relationId, st, steps, i) ==>
      CoveredAt(relationId, st, steps, i + 1)
    ensures CoveredAt(relationId, st, steps, k)
    decreases k
  {
    if k == 0 {
    } else {
      CoveredAllAlong(relationId, st, steps, k - 1);
    }
  }

  lemma CoveredNext(relationId: nat, st: State, steps: seq<Step>, k: nat)
    requires IsRun(relationId, steps) && k < |steps| && CoveredAt(relationId, st, steps, k)
    requires KeepsCoverage(At(relationId, st, steps, k), steps[k])
    ensures CoveredAt(relationId, st, steps, k + 1)
  {
    CoverageFollows(At(relationId, st, steps, k), steps[k], At(relationId, st, steps, k + 1));
  }

  // The baseline stays within the record along every run without a retry known to leave it behind.
  lemma RunsKeepCoverage(relationId: nat, st: State, steps: seq<Step>, k: nat)
    requires IsRun(relationId, steps) && k <= |steps| && Covered(st)
    requires forall i :: 0 <= i < |steps| ==> KeepsCoverage(At(relationId, st, steps, i), steps[i])
    ensures Covered(At(relationId, st, steps, k))
  {
    forall i | 0 <= i < |steps| && CoveredAt(relationId, st, steps, i) ensures CoveredAt(relationId, st, steps, i + 1) {
      CoveredNext(relationId, st, steps, i);
    }
    CoveredAllAlong(relationId, st, steps, k);
  }

  lemma CoverageFollows(before: State, step: Step, after: State)
    requires Possible(step) && Covered(before) && KeepsCoverage(before, step) && after == Next(before, step)
    ensures Covered(after)
  {
    StepsKeepCoverageExactly(before, step);
  }

  lemma SameNames(a: Ctx, b: Ctx, st: State)
    requires a.relationId == b.relationId && Matches(a, st)
    ensures Matches(b, st)
  {
  }
}
