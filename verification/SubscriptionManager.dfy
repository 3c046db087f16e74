/** The subscriber's operations as they run, over the peer databag and the server they write. */
module SubscriptionManager {
  import opened LogicalChains
  import opened LogicalRequests
  import opened SubscriptionModel

  class LogicalReplicationSubscriber {
    // The application's peer databag.
    var recorded: map<Db, string>
    var baseline: map<Db, seq<Table>>
    var failed: bool
    // PostgreSQL.
    var live: set<(Db, string)>

    function Snapshot(): State
      reads this
    {
      State(recorded, baseline, failed, live)
    }

    method CheckPublisherErrors(ctx: Ctx, requests: seq<Request>) returns (refused: bool)
      ensures refused == PublisherRefuses(ctx, requests)
    {
      if ctx.side.None? || ctx.side.value.pushed != AsMap(requests) {
        return false;
      }
      var reports := ctx.side.value.reports;
      for i := 0 to |reports|
        invariant forall j :: 0 <= j < i ==> !Relevant(reports[j], requests)
      {
        if Relevant(reports[i], requests) {
          return true;
        }
      }
      return false;
    }

    method CollectLiveTables(view: View, asked: Db) returns (tables: set<SchemaTable>)
      ensures tables == LiveTables(view, recorded, asked)
    {
      tables := {};
      var todo := recorded.Keys;
      while todo != {}
        invariant todo <= recorded.Keys
        invariant tables == set d, p | d in recorded && d !in todo && p in Reported(view, asked, recorded[d]) :: p
        decreases |todo|
      {
        var db :| db in todo;
        todo := todo - {db};
        tables := tables + Reported(view, asked, recorded[db]);
      }
    }

    method EnforceEmptyTableGuard(
      view: View, db: Db, t: Table, pair: SchemaTable, previous: map<Db, seq<Table>>, mode: Mode)
      returns (fired: bool)
      ensures fired == GuardFires(view, recorded, previous, mode, db, t, pair)
    {
      var tables := CollectLiveTables(view, db);
      if pair in tables || (tables == {} && db in previous && t in previous[db]) {
        return false;
      }
      if (db, pair) in view.empty {
        return false;
      }
      return mode.Enforce? || db in recorded;
    }

    method ValidateTable(ctx: Ctx, view: View, db: Db, t: Table, previous: map<Db, seq<Table>>, mode: Mode)
      returns (ok: bool)
      ensures ok == TableAccepted(ctx, view, recorded, previous, mode, db, t)
    {
      var split := SchemaAndTable(t);
      if split.None? || (db, split.value) !in view.tables {
        return false;
      }
      if PublishesBack(ctx, db, t) || OfferedInACircle(ctx, db, t) {
        return false;
      }
      var fired := EnforceEmptyTableGuard(view, db, t, split.value, previous, mode);
      return !fired;
    }

    method ValidateDatabase(ctx: Ctx, view: View, request: Request, previous: map<Db, seq<Table>>, mode: Mode)
      returns (ok: bool)
      ensures ok == DatabaseAccepted(ctx, view, recorded, previous, mode, request)
    {
      if request.db !in view.databases {
        return false;
      }
      for i := 0 to |request.tables|
        invariant forall j :: 0 <= j < i ==>
          TableAccepted(ctx, view, recorded, previous, mode, request.db, request.tables[j])
      {
        ok := ValidateTable(ctx, view, request.db, request.tables[i], previous, mode);
        if !ok {
          return false;
        }
      }
      return true;
    }

    // The failure marker is all that changes: set where validation fails, cleared where it passes.
    method ValidateSubscriptionRequest(ctx: Ctx, view: View, previous: map<Db, seq<Table>>, mode: Mode)
      returns (ok: bool)
      modifies this`failed
      ensures ok == RequestAccepted(ctx, view, recorded, previous, mode) && failed == !ok
    {
      failed := true;
      if ctx.config.None? {
        return false;
      }
      var requests := ctx.config.value;
      var refused := CheckPublisherErrors(ctx, requests);
      if refused {
        return false;
      }
      for i := 0 to |requests|
        invariant failed
        invariant forall j :: 0 <= j < i ==> DatabaseAccepted(ctx, view, recorded, previous, mode, requests[j])
      {
        ok := ValidateDatabase(ctx, view, requests[i], previous, mode);
        if !ok {
          return false;
        }
      }
      failed := false;
      return true;
    }

    method GuardSubscriptionRefresh(ctx: Ctx, view: View, db: Db) returns (ok: bool)
      modifies this`failed
      ensures ok == RefreshAllowed(ctx, view, db) && failed == (old(failed) || !ok)
    {
      var wanted := Wanted(ctx, db) - Reported(view, db, SubscriptionName(ctx, db));
      var todo := wanted;
      while todo != {}
        invariant failed == old(failed)
        invariant todo <= wanted
        invariant forall p :: p in wanted && p !in todo ==>
          (db, p) in view.tables && (db, p) in view.empty
        decreases |todo|
      {
        var pair :| pair in todo;
        if (db, pair) !in view.tables || (db, pair) !in view.empty {
          failed := true;
          return false;
        }
        todo := todo - {pair};
      }
      return true;
    }

    method PersistAppliedRequestBaseline(requests: seq<Request>)
      modifies this`baseline
      ensures baseline == Baseline(requests, recorded)
    {
      baseline := AsMap(requests) - (Databases(requests) - recorded.Keys);
    }

    method SubscribeTo(ctx: Ctx, view: View, db: Db, subscriptions: map<Db, string>) returns (progress: Progress)
      modifies this`failed, this`live
      ensures progress == OnePublication(ctx, view, old(Snapshot()), Work(subscriptions, old(failed), old(live)), db)
      ensures live == progress.work.live && (!progress.Raising? ==> failed == progress.work.failed)
    {
      if db in subscriptions {
        var allowed := GuardSubscriptionRefresh(ctx, view, db);
        var work := Work(subscriptions, failed, live);
        return if allowed then Going(work) else Blocked(work);
      }
      var before := Work(subscriptions, failed, live);
      var ok := ValidateSubscriptionRequest(ctx, view, baseline, Enforce);
      if !ok {
        return Going(Work(subscriptions, failed, live));
      }
      var name := SubscriptionName(ctx, db);
      if (db, name) in live {
        return Raising(before);
      }
      live := live + {(db, name)};
      return Going(Work(subscriptions[db := name], failed, live));
    }

    method SubscribeToAll(ctx: Ctx, views: seq<View>, published: seq<Db>) returns (progress: Progress)
      requires |published| == |views|
      modifies this`failed, this`live
      ensures progress == Subscribed(ctx, views, old(Snapshot()), published, |published|)
      ensures live == progress.work.live && (!progress.Raising? ==> failed == progress.work.failed)
    {
      progress := Going(Work(recorded, failed, live));
      for i := 0 to |published|
        invariant progress.Going? && progress == Subscribed(ctx, views, old(Snapshot()), published, i)
        invariant failed == progress.work.failed && live == progress.work.live
      {
        progress := SubscribeTo(ctx, views[i], published[i], progress.work.subscriptions);
        if !progress.Going? {
          Stays(ctx, views, old(Snapshot()), published, i + 1, |published|);
          return;
        }
      }
    }

    method DropUnpublishedSubscriptions(published: seq<Db>, work: Work) returns (after: Work)
      requires live == work.live
      modifies this`live
      ensures after == DropUnpublished(work, published) && live == after.live
    {
      var subscriptions := work.subscriptions;
      var todo := work.subscriptions.Keys;
      ghost var dropped := {};
      while todo != {}
        invariant todo <= work.subscriptions.Keys
        invariant dropped == set d | d in work.subscriptions && d !in todo && d !in published
        invariant subscriptions == work.subscriptions - dropped
        invariant live == work.live - Of(work.subscriptions, dropped)
        decreases |todo|
      {
        var db :| db in todo;
        todo := todo - {db};
        if db in published {
          continue;
        }
        OneMore(work.subscriptions, dropped, db);
        dropped := dropped + {db};
        live := live - {(db, subscriptions[db])};
        subscriptions := subscriptions - {db};
      }
      return work.(subscriptions := subscriptions, live := live);
    }

    // The outcome, and the peer databag with it: a hook that raises leaves the databag as it was.
    method ReconcileSubscriptions(ctx: Ctx, views: seq<View>, published: seq<Db>) returns (outcome: Outcome)
      requires |published| == |views|
      modifies this
      ensures outcome == Reconcile(ctx, views, old(Snapshot()), published)
      ensures Snapshot() == if outcome.Raised? then old(Snapshot()).(live := outcome.live) else outcome.state
    {
      var before := (recorded, failed);
      var progress := SubscribeToAll(ctx, views, published);
      if progress.Raising? {
        failed := before.1;
        return Raised(live);
      }
      if progress.Blocked? {
        return Stopped(Snapshot());
      }
      var after := DropUnpublishedSubscriptions(published, progress.work);
      recorded := after.subscriptions;
      if ctx.config.None? {
        recorded, failed := before.0, before.1;
        return Raised(live);
      }
      PersistAppliedRequestBaseline(ctx.config.value);
      return Done(Snapshot());
    }

    method DropUnrequestedSubscriptions(requests: seq<Request>) returns (subscriptions: map<Db, string>)
      modifies this`live
      ensures var dropped := set d | d in recorded && !Requests(requests, d);
        subscriptions == recorded - dropped && live == old(live) - Of(recorded, dropped)
    {
      subscriptions := recorded;
      var todo := recorded.Keys;
      ghost var dropped := {};
      while todo != {}
        invariant todo <= recorded.Keys
        invariant dropped == set d | d in recorded && d !in todo && !Requests(requests, d)
        invariant subscriptions == recorded - dropped && live == old(live) - Of(recorded, dropped)
        decreases |todo|
      {
        var db :| db in todo;
        todo := todo - {db};
        if Requests(requests, db) {
          continue;
        }
        OneMore(recorded, dropped, db);
        dropped := dropped + {db};
        live := live - {(db, subscriptions[db])};
        subscriptions := subscriptions - {db};
      }
    }

    method ApplyUpdatedSubscriptionRequest(ctx: Ctx)
      requires ctx.config.Some?
      modifies this`recorded, this`live
      ensures Snapshot() == ApplyRequest(ctx, old(Snapshot()))
    {
      if ctx.side.None? {
        return;
      }
      recorded := DropUnrequestedSubscriptions(ctx.config.value);
    }

    method ApplyChangedConfig(ctx: Ctx, view: View)
      modifies this
      ensures Snapshot() == ConfigChanged(ctx, view, old(Snapshot()))
    {
      var ok := ValidateSubscriptionRequest(ctx, view, baseline, Auto);
      if ok {
        ApplyUpdatedSubscriptionRequest(ctx);
        PersistAppliedRequestBaseline(ctx.config.value);
      }
    }

    method RetryValidation(ctx: Ctx, view: View)
      modifies this
      ensures Snapshot() == RetryValidations(ctx, view, old(Snapshot()))
    {
      if failed {
        var previous := if ctx.config.Some? then AsMap(ctx.config.value) else map[];
        var ok := ValidateSubscriptionRequest(ctx, view, previous, Enforce);
        if ok {
          ApplyUpdatedSubscriptionRequest(ctx);
        }
      }
    }

    method DropSubscriptions()
      modifies this
      ensures Snapshot() == RelationBroken(old(Snapshot()))
    {
      var todo := recorded.Keys;
      while todo != {}
        invariant todo <= recorded.Keys && recorded == old(recorded) && failed == old(failed)
        invariant live == old(live) - Of(recorded, recorded.Keys - todo)
        decreases |todo|
      {
        var db :| db in todo;
        todo := todo - {db};
        live := live - {(db, recorded[db])};
      }
      recorded := map[];
      baseline := map[];
    }
  }
}
