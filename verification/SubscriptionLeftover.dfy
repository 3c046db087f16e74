/**
 How a retry comes to silence the empty-table guard: six hooks of a subscriber's leader, from a
 relation that has replicated nothing, to a subscription over a table that holds rows.

 A database is subscribed. The request is changed to another database, which does not exist yet, so
 the change is refused; once it exists a retry applies the request and drops the first subscription,
 but not its baseline. The first database is asked for again together with a table that does not
 exist yet, so this change is refused as well and does not renew the baseline; once the table exists
 and the publisher has published, the baseline vouches for the table that has been full ever since.
 */
module SubscriptionLeftover {
  import opened Common
  import opened LogicalChains
  import opened LogicalRequests
  import opened SubscriptionModel
  import opened SubscriptionProperties

  // The relation, a database with two tables, another with one, and the publisher's chain.
  datatype Story = Story(
    relationId: nat, self: Identity, remote: Remote, db: Db, other: Db, t: Table, s: Table, u: Table, chain: seq<Token>)

  ghost predicate Proper(y: Story) {
    y.db != y.other && y.t != y.s &&
    SchemaAndTable(y.t).Some? && SchemaAndTable(y.s).Some? && SchemaAndTable(y.u).Some? &&
    SchemaAndTable(y.t) != SchemaAndTable(y.s) && !ChainContainsApp(y.chain, Some(y.self), y.self.appName)
  }

  function Context(y: Story, config: seq<Request>, publications: map<Db, Publication>): Ctx {
    Ctx(y.relationId, y.self, Some(config), Some(Side(y.remote, publications, [], AsMap(config))), None)
  }

  function Pair(t: Table): SchemaTable
    requires SchemaAndTable(t).Some?
  {
    SchemaAndTable(t).value
  }

  // What PostgreSQL holds: tables that exist and tables that are empty. This application offers
  // nothing, so the server has no publication of its own.
  function Holding(databases: set<Db>, tables: set<(Db, SchemaTable)>, empty: set<(Db, SchemaTable)>): View {
    View(databases, tables, empty, map[], map[])
  }

  function Offering(y: Story, tables: seq<Table>): map<Db, Publication> {
    map[y.db := Publication(tables, map t | t in tables :: y.chain)]
  }

  function Row(db: Db, t: Table): (Db, SchemaTable)
    requires SchemaAndTable(t).Some?
  {
    (db, Pair(t))
  }

  function First(y: Story): seq<Request> { [Request(y.db, [y.t])] }
  function Away(y: Story): seq<Request> { [Request(y.other, [y.u])] }
  function Back(y: Story): seq<Request> { [Request(y.db, [y.t, y.s])] }

  // The first database alone; then the other one beside it; then the second table as well.
  function Early(y: Story, empty: set<(Db, SchemaTable)>): View
    requires SchemaAndTable(y.t).Some?
  {
    Holding({y.db}, {Row(y.db, y.t)}, empty)
  }

  function Later(y: Story): View
    requires SchemaAndTable(y.t).Some? && SchemaAndTable(y.u).Some?
  {
    Holding({y.db, y.other}, {Row(y.db, y.t), Row(y.other, y.u)}, {Row(y.other, y.u)})
  }

  function Last(y: Story): View
    requires SchemaAndTable(y.t).Some? && SchemaAndTable(y.s).Some?
  {
    Holding({y.db}, {Row(y.db, y.t), Row(y.db, y.s)}, {Row(y.db, y.s)})
  }

  ghost function Hooks(y: Story): seq<Step>
    requires Proper(y)
  {
    [ Configured(Context(y, First(y), map[]), Early(y, {Row(y.db, y.t)})),
      Reconciled(Context(y, First(y), Offering(y, [y.t])), [Early(y, {Row(y.db, y.t)})], [y.db]),
      Configured(Context(y, Away(y), Offering(y, [y.t])), Early(y, {})),
      Retried(Context(y, Away(y), Offering(y, [y.t])), Later(y)),
      Configured(Context(y, Back(y), Offering(y, [y.t])), Later(y)),
      Reconciled(Context(y, Back(y), Offering(y, [y.t, y.s])), [Last(y)], [y.db]) ]
  }

  const NOTHING := State(map[], map[], false, {})

  function Subscribing(y: Story, tables: seq<Table>): State {
    var name := Slots.ResourceName(y.relationId, y.db);
    State(map[y.db := name], map[y.db := tables], false, {(y.db, name)})
  }

  function LeftBehind(y: Story): State {
    State(map[], map[y.db := [y.t]], false, {})
  }

  lemma NothingIsLive(view: View, recorded: map<Db, string>, db: Db)
    requires view.publications == map[]
    ensures LiveTables(view, recorded, db) == {}
  {
  }

  lemma FirstConfigured(y: Story)
    requires Proper(y)
    ensures Next(NOTHING, Hooks(y)[0]) == NOTHING
  {
    var ctx, view := Hooks(y)[0].ctx, Hooks(y)[0].view;
    NothingIsLive(view, map[], y.db);
    assert TableAccepted(ctx, view, map[], map[], Auto, y.db, y.t);
    assert RequestAccepted(ctx, view, map[], map[], Auto);
  }

  // One new database that passes is the only one published.
  lemma OneNewSubscription(ctx: Ctx, view: View, st: State, db: Db)
    requires st.recorded == map[] && st.live == {} && ctx.config.Some?
    requires RequestAccepted(ctx, view, st.recorded, st.baseline, Enforce)
    ensures var name := SubscriptionName(ctx, db);
      Reconcile(ctx, [view], st, [db]) ==
        Done(State(map[db := name], Baseline(ctx.config.value, map[db := name]), false, {(db, name)}))
  {
    assert Subscribed(ctx, [view], st, [db], 0) == Going(Work(st.recorded, st.failed, st.live));
    var name := SubscriptionName(ctx, db);
    var work := Work(map[db := name], false, {(db, name)});
    assert OnePublication(ctx, view, st, Work(st.recorded, st.failed, st.live), db) == Going(work);
    assert Subscribed(ctx, [view], st, [db], 1) == Going(work);
    assert (set d | d in work.subscriptions && d !in [db]) == {};
    assert Of(work.subscriptions, {}) == {};
    assert DropUnpublished(work, [db]) == work;
  }

  lemma FirstReconciled(y: Story)
    requires Proper(y)
    ensures Next(NOTHING, Hooks(y)[1]) == Subscribing(y, [y.t])
  {
    var ctx, view := Hooks(y)[1].ctx, Hooks(y)[1].views[0];
    NothingIsLive(view, map[], y.db);
    assert TableAccepted(ctx, view, map[], map[], Enforce, y.db, y.t);
    assert RequestAccepted(ctx, view, map[], map[], Enforce);
    OneNewSubscription(ctx, view, NOTHING, y.db);
    FirstBaseline(y);
  }

  lemma FirstBaseline(y: Story)
    ensures Baseline(First(y), map[y.db := Slots.ResourceName(y.relationId, y.db)]) == map[y.db := [y.t]]
  {
    assert Lookup(First(y), y.db) == Some([y.t]);
  }

  lemma SecondConfigured(y: Story)
    requires Proper(y)
    ensures Next(Subscribing(y, [y.t]), Hooks(y)[2]) == Subscribing(y, [y.t]).(failed := true)
  {
    var ctx, view := Hooks(y)[2].ctx, Hooks(y)[2].view;
    assert ctx.config.value[0] in ctx.config.value && y.other !in view.databases;
  }

  lemma RetriedAway(y: Story)
    requires Proper(y)
    ensures Next(Subscribing(y, [y.t]).(failed := true), Hooks(y)[3]) == LeftBehind(y)
  {
    var ctx, view := Hooks(y)[3].ctx, Hooks(y)[3].view;
    var st := Subscribing(y, [y.t]).(failed := true);
    NothingIsLive(view, st.recorded, y.other);
    assert TableAccepted(ctx, view, st.recorded, AsMap(ctx.config.value), Enforce, y.other, y.u);
    assert RequestAccepted(ctx, view, st.recorded, AsMap(ctx.config.value), Enforce);
    DroppedAway(y, ctx, st);
  }

  lemma DroppedAway(y: Story, ctx: Ctx, st: State)
    requires ctx.config == Some(Away(y)) && ctx.side.Some? && y.db != y.other
    requires st == Subscribing(y, [y.t]).(failed := true)
    ensures ApplyRequest(ctx, st) == LeftBehind(y).(failed := true)
  {
    assert !Requests(Away(y), y.db);
    assert (set d | d in st.recorded && !Requests(Away(y), d)) == {y.db};
    assert Of(st.recorded, {y.db}) == {(y.db, st.recorded[y.db])};
  }

  lemma ThirdConfigured(y: Story)
    requires Proper(y)
    ensures Next(LeftBehind(y), Hooks(y)[4]) == LeftBehind(y).(failed := true)
  {
    var ctx, view := Hooks(y)[4].ctx, Hooks(y)[4].view;
    var request := ctx.config.value[0];
    assert request in ctx.config.value && request.tables[1] == y.s;
    assert y.s in request.tables && (y.db, Pair(y.s)) !in view.tables;
  }

  lemma SecondReconciled(y: Story)
    requires Proper(y)
    ensures Next(LeftBehind(y).(failed := true), Hooks(y)[5]) == Subscribing(y, [y.t, y.s])
  {
    var ctx, view := Hooks(y)[5].ctx, Hooks(y)[5].views[0];
    var st := LeftBehind(y).(failed := true);
    NothingIsLive(view, map[], y.db);
    assert TableAccepted(ctx, view, map[], st.baseline, Enforce, y.db, y.t);
    assert TableAccepted(ctx, view, map[], st.baseline, Enforce, y.db, y.s);
    assert RequestAccepted(ctx, view, map[], st.baseline, Enforce);
    OneNewSubscription(ctx, view, st, y.db);
    BackBaseline(y);
  }

  lemma BackBaseline(y: Story)
    ensures Baseline(Back(y), map[y.db := Slots.ResourceName(y.relationId, y.db)]) == map[y.db := [y.t, y.s]]
  {
    assert Lookup(Back(y), y.db) == Some([y.t, y.s]);
  }

  lemma Retraced(y: Story)
    requires Proper(y)
    ensures At(y.relationId, NOTHING, Hooks(y), 2) == Subscribing(y, [y.t])
  {
    FirstConfigured(y);
    FirstReconciled(y);
    assert At(y.relationId, NOTHING, Hooks(y), 0) == NOTHING;
    assert At(y.relationId, NOTHING, Hooks(y), 1) == NOTHING;
  }

  lemma HooksAreARun(y: Story)
    requires Proper(y)
    ensures IsRun(y.relationId, Hooks(y))
  {
  }

  // The fourth hook, the retry, leaves its baseline behind.
  lemma RetriesLeaveBaselinesBehind(y: Story)
    requires Proper(y)
    ensures At(y.relationId, NOTHING, Hooks(y), 4) == LeftBehind(y) && !Covered(LeftBehind(y))
  {
    Retraced(y);
    AfterFour(y);
    LeftBehindIsUncovered(y);
  }

  lemma LeftBehindIsUncovered(y: Story)
    ensures !Covered(LeftBehind(y))
  {
    assert y.db in LeftBehind(y).baseline;
  }

  // The reconcile after the first two hooks is stopped: the table replicated by then is not empty,
  // and nothing the server is asked for tells that it is replicated.
  lemma RefreshesOfFullTablesAreBlocked(y: Story)
    requires Proper(y)
    ensures At(y.relationId, NOTHING, Hooks(y), 2) == Subscribing(y, [y.t])
    ensures Reconcile(Context(y, First(y), Offering(y, [y.t])), [Early(y, {})], Subscribing(y, [y.t]), [y.db]).Stopped?
  {
    Retraced(y);
    BlockedByItsRows(y);
  }

  lemma BlockedByItsRows(y: Story)
    requires Proper(y)
    ensures Reconcile(Context(y, First(y), Offering(y, [y.t])), [Early(y, {})], Subscribing(y, [y.t]), [y.db]).Stopped?
  {
    var ctx, st := Context(y, First(y), Offering(y, [y.t])), Subscribing(y, [y.t]);
    assert Lookup(First(y), y.db) == Some([y.t]);
    SameSplit(y.t);
    assert Pair(y.t) in Wanted(ctx, y.db);
    assert Subscribed(ctx, [Early(y, {})], st, [y.db], 0) == Going(Work(st.recorded, st.failed, st.live));
    assert Subscribed(ctx, [Early(y, {})], st, [y.db], 1).Blocked?;
  }

  // Where there is one dot, splitting and partitioning are the same.
  lemma {:induction false} SameSplit(t: Table)
    requires SchemaAndTable(t).Some?
    ensures Partition(t) == SchemaAndTable(t).value
  {
    if t[0] == '.' {
    } else {
      SameSplit(t[1..]);
    }
  }

  // The last one subscribes the first database again, over its full table.
  lemma RetriesSilenceTheGuard(y: Story)
    requires Proper(y)
    ensures At(y.relationId, NOTHING, Hooks(y), 5) == LeftBehind(y).(failed := true)
    ensures At(y.relationId, NOTHING, Hooks(y), 6) == Subscribing(y, [y.t, y.s])
    ensures Hooks(y)[5].Reconciled? && Hooks(y)[5].views == [Last(y)]
    ensures Row(y.db, y.t) in Last(y).tables && Row(y.db, y.t) !in Last(y).empty
  {
    Retraced(y);
    AfterFive(y);
    AfterSix(y);
  }

  lemma AfterSix(y: Story)
    requires Proper(y) && At(y.relationId, NOTHING, Hooks(y), 5) == LeftBehind(y).(failed := true)
    ensures At(y.relationId, NOTHING, Hooks(y), 6) == Subscribing(y, [y.t, y.s])
  {
    SecondReconciled(y);
  }

  lemma AfterFive(y: Story)
    requires Proper(y) && At(y.relationId, NOTHING, Hooks(y), 2) == Subscribing(y, [y.t])
    ensures At(y.relationId, NOTHING, Hooks(y), 5) == LeftBehind(y).(failed := true)
  {
    AfterFour(y);
    ThirdConfigured(y);
  }

  lemma AfterFour(y: Story)
    requires Proper(y) && At(y.relationId, NOTHING, Hooks(y), 2) == Subscribing(y, [y.t])
    ensures At(y.relationId, NOTHING, Hooks(y), 4) == LeftBehind(y)
  {
    SecondConfigured(y);
    RetriedAway(y);
    assert At(y.relationId, NOTHING, Hooks(y), 3) == Subscribing(y, [y.t]).(failed := true);
  }
}
