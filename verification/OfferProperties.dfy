/** What the publisher's reconcile achieves, for any request and any state it starts from. */
module OfferProperties {
  import opened Common
  import opened LogicalChains
  import opened LogicalRequests
  import opened OfferModel
  import LogicalGraph

  // The databases errors are about.
  ghost predicate Blamed(errors: seq<Error>, db: Db) {
    exists i :: 0 <= i < |errors| && errors[i].db == db
  }

  ghost predicate OneErrorEach(errors: seq<Error>) {
    forall i, j :: 0 <= i < j < |errors| ==> errors[i].db != errors[j].db
  }

  ghost predicate UnchangedAt(before: State, after: State, db: Db) {
    (db in before.entries <==> db in after.entries) &&
    (db in before.entries ==> after.entries[db] == before.entries[db]) &&
    (forall n :: (db, n) in before.server <==> (db, n) in after.server) &&
    (forall n :: (db, n) in before.server && (db, n) in after.server ==>
      after.server[(db, n)] == before.server[(db, n)])
  }

  ghost predicate OnlyDatabase(before: State, after: State, db: Db) {
    forall d :: d != db ==> UnchangedAt(before, after, d)
  }

  // ---- One request ------------------------------------------------------------------------

  ghost predicate Refused(before: State, after: State, db: Db) {
    after.entries == before.entries && after.server == before.server &&
    |after.errors| == |before.errors| + 1 && after.errors[..|before.errors|] == before.errors &&
    after.errors[|before.errors|].db == db
  }

  // The tables are those requested, by a publication that was there or is built now.
  ghost predicate Served(env: Env, before: State, after: State, request: Request) {
    var Request(db, tables) := request;
    CircularTables(env.local, env.requester, db, tables) == {} && after.errors == before.errors &&
    db in after.entries && multiset(after.entries[db].publication.tables) == multiset(tables) &&
    (after == before || after.entries[db].publication == PublicationFor(env.local, db, tables))
  }

  // A request is refused with one error, its publication and the server left alone, or served.
  ghost predicate Settles(env: Env, before: State, after: State, request: Request) {
    OnlyDatabase(before, after, request.db) &&
    if |after.errors| > |before.errors| then Refused(before, after, request.db) else Served(env, before, after, request)
  }

  lemma CreatingSettles(env: Env, st: State, request: Request)
    requires CircularTables(env.local, env.requester, request.db, request.tables) == {}
    requires request.db !in st.entries && CreatePublication(env, st, request.db, request.tables).Done?
    ensures Settles(env, st, CreatePublication(env, st, request.db, request.tables).state, request)
  {
  }

  lemma OneRequestSettles(env: Env, st: State, request: Request)
    requires OneRequest(env, st, request).Done?
    ensures Settles(env, st, OneRequest(env, st, request).state, request)
  {
    if CircularTables(env.local, env.requester, request.db, request.tables) == {} {
      if request.db !in st.entries {
        CreatingSettles(env, st, request);
      } else {
        AlteringOrKeeping(env, st, request);
      }
    }
  }

  lemma AlteringOrKeeping(env: Env, st: State, request: Request)
    requires CircularTables(env.local, env.requester, request.db, request.tables) == {}
    requires request.db in st.entries && OneRequest(env, st, request).Done?
    ensures Settles(env, st, OneRequest(env, st, request).state, request)
  {
  }

  // ---- All requests -----------------------------------------------------------------------

  ghost predicate ServedAt(env: Env, before: State, after: State, request: Request) {
    var Request(db, tables) := request;
    CircularTables(env.local, env.requester, db, tables) == {} &&
    db in after.entries && multiset(after.entries[db].publication.tables) == multiset(tables) &&
    (UnchangedAt(before, after, db) || after.entries[db].publication == PublicationFor(env.local, db, tables))
  }

  ghost predicate HandledAt(env: Env, before: State, after: State, request: Request) {
    if Blamed(after.errors, request.db) then UnchangedAt(before, after, request.db)
    else ServedAt(env, before, after, request)
  }

  ghost predicate Handled(env: Env, before: State, after: State, requests: seq<Request>, k: nat)
    requires k <= |requests|
  {
    OneErrorEach(after.errors) &&
    (forall d :: Blamed(after.errors, d) ==> Requests(requests[..k], d)) &&
    (forall j :: 0 <= j < k ==> HandledAt(env, before, after, requests[j])) &&
    (forall d :: !Requests(requests[..k], d) ==> UnchangedAt(before, after, d))
  }

  lemma BlameGrows(before: State, after: State, request: Request, d: Db)
    requires |after.errors| > |before.errors| ==> Refused(before, after, request.db)
    requires |after.errors| <= |before.errors| ==> after.errors == before.errors
    ensures Blamed(after.errors, d) <==>
      Blamed(before.errors, d) || (|after.errors| > |before.errors| && d == request.db)
  {
  }

  lemma RequestsGrow(requests: seq<Request>, k: nat, d: Db)
    requires k < |requests|
    ensures Requests(requests[..k + 1], d) <==> Requests(requests[..k], d) || requests[k].db == d
  {
  }

  lemma HandledStays(env: Env, start: State, before: State, after: State, request: Request)
    requires HandledAt(env, start, before, request) && UnchangedAt(before, after, request.db)
    requires Blamed(after.errors, request.db) <==> Blamed(before.errors, request.db)
    ensures HandledAt(env, start, after, request)
  {
  }

  lemma HandledNow(env: Env, start: State, before: State, after: State, request: Request)
    requires UnchangedAt(start, before, request.db) && !Blamed(before.errors, request.db)
    requires Settles(env, before, after, request)
    ensures HandledAt(env, start, after, request)
  {
  }

  lemma OneErrorMore(before: State, after: State, request: Request)
    requires OneErrorEach(before.errors) && !Blamed(before.errors, request.db)
    requires |after.errors| > |before.errors| ==> Refused(before, after, request.db)
    requires |after.errors| <= |before.errors| ==> after.errors == before.errors
    ensures OneErrorEach(after.errors)
  {
  }

  lemma OneMoreHandled(env: Env, start: State, before: State, after: State, requests: seq<Request>, k: nat)
    requires Distinctly(requests) && k < |requests| && Handled(env, start, before, requests, k)
    requires Settles(env, before, after, requests[k])
    ensures Handled(env, start, after, requests, k + 1)
  {
    var request := requests[k];
    assert !Requests(requests[..k], request.db);
    OneErrorMore(before, after, request);
    forall d ensures Blamed(after.errors, d) ==> Requests(requests[..k + 1], d) {
      BlameGrows(before, after, request, d);
      RequestsGrow(requests, k, d);
    }
    forall d | !Requests(requests[..k + 1], d) ensures UnchangedAt(start, after, d) {
      RequestsGrow(requests, k, d);
      assert UnchangedAt(start, before, d) && UnchangedAt(before, after, d);
    }
    forall j | 0 <= j < k + 1 ensures HandledAt(env, start, after, requests[j]) {
      if j < k {
        BlameGrows(before, after, request, requests[j].db);
        HandledStays(env, start, before, after, requests[j]);
      } else {
        HandledNow(env, start, before, after, request);
      }
    }
  }

  lemma SettledBy(env: Env, before: State, after: State, request: Request)
    requires OneRequest(env, before, request) == Done(after)
    ensures Settles(env, before, after, request)
  {
    OneRequestSettles(env, before, request);
  }

  // The states a run goes through.
  ghost predicate IsTrace(env: Env, trace: seq<State>, requests: seq<Request>, k: nat) {
    |trace| == k + 1 && k <= |requests| &&
    forall j {:trigger requests[j]} :: 0 <= j < k ==> OneRequest(env, trace[j], requests[j]) == Done(trace[j + 1])
  }

  lemma {:induction false} TraceOf(env: Env, start: State, requests: seq<Request>, k: nat) returns (trace: seq<State>)
    requires k <= |requests| && Requested(env, start, requests, k).Done?
    ensures IsTrace(env, trace, requests, k)
    ensures forall j :: 0 <= j <= k ==> Requested(env, start, requests, j) == Done(trace[j])
    decreases k
  {
    if k == 0 {
      trace := [start];
    } else {
      var last := Requested(env, start, requests, k).state;
      var before := OneRequestEarlier(env, start, requests, k - 1, last);
      var earlier := TraceOf(env, start, requests, k - 1);
      trace := earlier + [last];
    }
  }

  lemma {:induction false} TracesAreRuns(env: Env, trace: seq<State>, requests: seq<Request>, k: nat)
    requires IsTrace(env, trace, requests, k)
    ensures Requested(env, trace[0], requests, k) == Done(trace[k])
    decreases k
  {
    if k == 0 {
    } else {
      TracesAreRuns(env, trace[..k], requests, k - 1);
      assert OneRequest(env, trace[k - 1], requests[k - 1]) == Done(trace[k]);
    }
  }

  lemma {:induction false} SettledAlong(env: Env, trace: seq<State>, requests: seq<Request>, k: nat)
    requires Distinctly(requests) && |trace| == k + 1 && k <= |requests| && trace[0].errors == []
    requires forall j :: 0 <= j < k ==> Settles(env, trace[j], trace[j + 1], requests[j])
    ensures Handled(env, trace[0], trace[k], requests, k)
    decreases k
  {
    if k == 0 {
    } else {
      SettledAlong(env, trace[..k], requests, k - 1);
      OneMoreHandled(env, trace[0], trace[k - 1], trace[k], requests, k - 1);
    }
  }

  lemma RequestsAreHandled(env: Env, start: State, requests: seq<Request>, k: nat)
    requires Distinctly(requests) && start.errors == [] && k <= |requests|
    requires Requested(env, start, requests, k).Done?
    ensures Handled(env, start, Requested(env, start, requests, k).state, requests, k)
  {
    var trace := TraceOf(env, start, requests, k);
    TracesSettle(env, trace, requests, k);
    SettledAlong(env, trace, requests, k);
  }

  lemma TracesSettle(env: Env, trace: seq<State>, requests: seq<Request>, k: nat)
    requires IsTrace(env, trace, requests, k)
    ensures forall j :: 0 <= j < k ==> Settles(env, trace[j], trace[j + 1], requests[j])
  {
    forall j | 0 <= j < k ensures Settles(env, trace[j], trace[j + 1], requests[j]) {
      SettledBy(env, trace[j], trace[j + 1], requests[j]);
    }
  }

  // Nothing outside the request stays published, and every requested database is either served or
  // has exactly one error and keeps what it had.
  lemma OfferIsReconciled(env: Env, entries: Entries, server: Server, requests: seq<Request>)
    requires Distinctly(requests) && ProcessOffer(env, entries, server, requests).Done?
    ensures var start, after := State(entries, server, []), ProcessOffer(env, entries, server, requests).state;
      (forall d :: d in after.entries ==> Requests(requests, d)) &&
      OneErrorEach(after.errors) && (forall d :: Blamed(after.errors, d) ==> Requests(requests, d)) &&
      forall j :: 0 <= j < |requests| ==> HandledAt(env, start, after, requests[j])
  {
    var first := State(entries, server, []);
    var start := DropRedundant(first, requests);
    var after := Requested(env, start, requests, |requests|).state;
    RequestsAreHandled(env, start, requests, |requests|);
    assert requests[..|requests|] == requests;
    forall d | d in after.entries ensures Requests(requests, d) {
      assert !Requests(requests, d) ==> UnchangedAt(start, after, d);
    }
    forall j | 0 <= j < |requests| ensures HandledAt(env, first, after, requests[j]) {
      assert Requests(requests, requests[j].db);
      assert UnchangedAt(first, start, requests[j].db);
      assert HandledAt(env, start, after, requests[j]);
      HandledSince(env, first, start, after, requests[j]);
    }
  }

  lemma HandledSince(env: Env, first: State, start: State, after: State, request: Request)
    requires HandledAt(env, start, after, request) && UnchangedAt(first, start, request.db)
    ensures HandledAt(env, first, after, request)
  {
  }

  // ---- Databag, record and server ---------------------------------------------------------

  ghost predicate AgreesAt(id: nat, st: State, d: Db) {
    var name := Slots.ResourceName(id, d);
    ((d, name) in st.server <==> d in st.entries) &&
    (d in st.entries ==>
      var entry := st.entries[d];
      entry.name == entry.slot == name &&
      st.server[(d, name)] == entry.publication.tables &&
      forall t :: t in entry.publication.chains <==> t in entry.publication.tables)
  }

  // What is recorded is what this relation has on the server, table for table.
  ghost predicate Agrees(id: nat, st: State) {
    forall d :: AgreesAt(id, st, d)
  }

  // Publications of other names.
  ghost predicate ForeignUntouched(env: Env, before: Server, after: Server) {
    forall d, n :: n != Name(env, d) ==>
      ((d, n) in before <==> (d, n) in after) && ((d, n) in before ==> after[(d, n)] == before[(d, n)])
  }

  lemma AgreementAtOthers(env: Env, before: State, after: State, db: Db, d: Db)
    requires AgreesAt(env.relationId, before, d) && OnlyDatabase(before, after, db) && d != db
    ensures AgreesAt(env.relationId, after, d)
  {
    assert UnchangedAt(before, after, d);
  }

  lemma OneRequestKeepsAgreement(env: Env, st: State, request: Request)
    requires AgreesAt(env.relationId, st, request.db) && OneRequest(env, st, request).Done?
    ensures AgreesAt(env.relationId, OneRequest(env, st, request).state, request.db)
    ensures ForeignUntouched(env, st.server, OneRequest(env, st, request).state.server)
  {
  }

  lemma DroppingKeepsAgreement(env: Env, st: State, requests: seq<Request>)
    requires Agrees(env.relationId, st)
    ensures Agrees(env.relationId, DropRedundant(st, requests))
    ensures ForeignUntouched(env, st.server, DropRedundant(st, requests).server)
  {
    var after := DropRedundant(st, requests);
    forall d ensures AgreesAt(env.relationId, after, d) {
      assert AgreesAt(env.relationId, st, d);
    }
    forall d, n | n != Name(env, d)
      ensures (d, n) in st.server <==> (d, n) in after.server
      ensures (d, n) in st.server ==> after.server[(d, n)] == st.server[(d, n)]
    {
      assert AgreesAt(env.relationId, st, d);
    }
  }

  lemma {:induction false} RequestsKeepAgreement(env: Env, start: State, requests: seq<Request>, k: nat)
    requires Agrees(env.relationId, start) && k <= |requests| && Requested(env, start, requests, k).Done?
    ensures Agrees(env.relationId, Requested(env, start, requests, k).state)
    ensures ForeignUntouched(env, start.server, Requested(env, start, requests, k).state.server)
    decreases k
  {
    if k == 0 {
    } else {
      RequestsKeepAgreement(env, start, requests, k - 1);
      var before, request := Requested(env, start, requests, k - 1).state, requests[k - 1];
      var after := OneRequest(env, before, request).state;
      OneRequestSettles(env, before, request);
      assert AgreesAt(env.relationId, before, request.db);
      OneRequestKeepsAgreement(env, before, request);
      forall d ensures AgreesAt(env.relationId, after, d) {
        assert AgreesAt(env.relationId, before, d);
        if d != request.db { AgreementAtOthers(env, before, after, request.db, d); }
      }
    }
  }

  lemma OfferKeepsAgreement(env: Env, entries: Entries, server: Server, requests: seq<Request>)
    requires Agrees(env.relationId, State(entries, server, [])) && ProcessOffer(env, entries, server, requests).Done?
    ensures var after := ProcessOffer(env, entries, server, requests).state;
      Agrees(env.relationId, after) && ForeignUntouched(env, server, after.server)
  {
    var first := State(entries, server, []);
    DroppingKeepsAgreement(env, first, requests);
    RequestsKeepAgreement(env, DropRedundant(first, requests), requests, |requests|);
  }

  // ---- Running it again -------------------------------------------------------------------

  // What one request comes to depends on its own database only.
  lemma RequestsAreLocal(env: Env, a: State, b: State, request: Request)
    requires UnchangedAt(a, b, request.db) && OneRequest(env, a, request).Done?
    requires |OneRequest(env, a, request).state.errors| > |a.errors|
    ensures OneRequest(env, b, request) ==
      Refuse(b, OneRequest(env, a, request).state.errors[|a.errors|])
  {
  }

  lemma ServedRequestsRest(env: Env, st: State, request: Request)
    requires CircularTables(env.local, env.requester, request.db, request.tables) == {}
    requires request.db in st.entries
    requires multiset(st.entries[request.db].publication.tables) == multiset(request.tables)
    ensures OneRequest(env, st, request) == Done(st)
  {
  }

  lemma {:induction false} DoneSoFar(env: Env, start: State, requests: seq<Request>, k: nat, n: nat)
    requires k <= n <= |requests| && Requested(env, start, requests, n).Done?
    ensures Requested(env, start, requests, k).Done?
    decreases n
  {
    if k == n {
    } else {
      DoneSoFar(env, start, requests, k, n - 1);
    }
  }

  lemma {:induction false} LaterRequestsLeaveIt(env: Env, start: State, requests: seq<Request>, k: nat, n: nat, d: Db)
    requires k <= n <= |requests| && Requested(env, start, requests, n).Done?
    requires forall j :: k <= j < n ==> requests[j].db != d
    ensures Requested(env, start, requests, k).Done?
    ensures UnchangedAt(Requested(env, start, requests, k).state, Requested(env, start, requests, n).state, d)
    decreases n
  {
    if k == n {
    } else {
      LaterRequestsLeaveIt(env, start, requests, k, n - 1, d);
      var before := Requested(env, start, requests, n - 1).state;
      OneRequestSettles(env, before, requests[n - 1]);
      assert UnchangedAt(before, Requested(env, start, requests, n).state, d);
    }
  }

  lemma RunningAgain(env: Env, start: State, last: State, requests: seq<Request>)
    requires Distinctly(requests) && start.errors == []
    requires Requested(env, start, requests, |requests|) == Done(last)
    ensures Requested(env, last.(errors := []), requests, |requests|) == Done(last)
  {
    var trace := TraceOf(env, start, requests, |requests|);
    assert trace[0] == start && trace[|requests|] == last;
    forall j | 0 <= j < |requests| ensures UnchangedAt(trace[j + 1], last, requests[j].db) {
      LaterRequestsLeaveIt(env, start, requests, j + 1, |requests|, requests[j].db);
    }
    AgainAlong(env, trace, last, requests);
  }

  lemma AgainAlong(env: Env, trace: seq<State>, last: State, requests: seq<Request>)
    requires IsTrace(env, trace, requests, |requests|) && trace[0].errors == [] && trace[|requests|] == last
    requires forall j :: 0 <= j < |requests| ==> UnchangedAt(trace[j + 1], last, requests[j].db)
    ensures Requested(env, last.(errors := []), requests, |requests|) == Done(last)
  {
    var again := seq(|trace|, j requires 0 <= j < |trace| => last.(errors := trace[j].errors));
    forall j | 0 <= j < |requests| ensures OneRequest(env, again[j], requests[j]) == Done(again[j + 1]) {
      SameButErrors(trace[j + 1], last, again[j], requests[j].db);
      AgainAtOnce(env, trace[j], trace[j + 1], again[j], requests[j]);
    }
    TracesAreRuns(env, again, requests, |requests|);
  }

  lemma SameButErrors(a: State, b: State, c: State, d: Db)
    requires UnchangedAt(a, b, d) && c.entries == b.entries && c.server == b.server
    ensures UnchangedAt(a, c, d)
  {
  }

  // A request that meets what its own database came to in the end does the same again.
  lemma AgainAtOnce(env: Env, before: State, after: State, again: State, request: Request)
    requires OneRequest(env, before, request) == Done(after) && UnchangedAt(after, again, request.db)
    requires again.errors == before.errors
    ensures OneRequest(env, again, request) == Done(again.(errors := after.errors))
  {
    SettledBy(env, before, after, request);
    if |after.errors| > |before.errors| {
      assert UnchangedAt(before, again, request.db);
      RequestsAreLocal(env, before, again, request);
      assert after.errors == before.errors + [after.errors[|before.errors|]];
    } else {
      ServedRequestsRest(env, again, request);
    }
  }

  // With nothing else changed, a second run reports the same errors and changes nothing.
  lemma OfferSettlesInOneRun(env: Env, entries: Entries, server: Server, requests: seq<Request>)
    requires Distinctly(requests) && ProcessOffer(env, entries, server, requests).Done?
    ensures var after := ProcessOffer(env, entries, server, requests).state;
      ProcessOffer(env, after.entries, after.server, requests) == Done(after)
  {
    var start := DropRedundant(State(entries, server, []), requests);
    var after := ProcessOffer(env, entries, server, requests).state;
    OfferIsReconciled(env, entries, server, requests);
    var again := State(after.entries, after.server, []);
    assert DropRedundant(again, requests) == again;
    RunningAgain(env, start, after, requests);
  }

  // ---- In the network ---------------------------------------------------------------------

  // What a publisher creates or alters for its subscriber is a publication its check accepts,
  // with the chains of that step of the network.
  lemma OfferPublishesAcceptedChains(
    env: Env, entries: Entries, server: Server, requests: seq<Request>, j: nat,
    net: LogicalGraph.Network, s: Identity)
    requires Distinctly(requests) && j < |requests| && ProcessOffer(env, entries, server, requests).Done?
    requires s in net && env.local == LogicalGraph.LocalOf(net, net[s].publisher)
    requires env.requester.identity == Some(s) && '/' !in env.requester.appName
    ensures var after, Request(db, tables) := ProcessOffer(env, entries, server, requests).state, requests[j];
      Blamed(after.errors, db) || UnchangedAt(State(entries, server, []), after, db) ||
      (LogicalGraph.PublisherAccepts(net, s, db, tables) && db in after.entries &&
       after.entries[db].publication == PublicationFor(LogicalGraph.LocalOf(net, net[s].publisher), db, tables))
  {
    OfferIsReconciled(env, entries, server, requests);
    assert env.requester == Remote(env.requester.appName, Some(s));
  }

  // ---- A run that raises ------------------------------------------------------------------

  // The request reaches a table name it cannot split: it is not circular, its publication is
  // missing or differs, and validation meets that name first.
  predicate RaisesOn(env: Env, entries: Entries, request: Request) {
    var Request(db, tables) := request;
    CircularTables(env.local, env.requester, db, tables) == {} &&
    if db in entries then
      multiset(entries[db].publication.tables) != multiset(tables) &&
      Validated(env, db, tables, set t | t in entries[db].publication.tables).Malformed?
    else Validated(env, db, tables, {}).Malformed?
  }

  // The first table to validate that does not pass has no single dot.
  ghost predicate MalformedAt(env: Env, db: Db, tables: seq<Table>, published: set<Table>, i: nat) {
    i < |tables| && tables[i] !in published && Nameless(tables[i]) &&
    forall j :: 0 <= j < i ==> tables[j] in published || Exists(env, db, tables[j])
  }

  lemma {:induction false} MalformedExactly(env: Env, db: Db, tables: seq<Table>, published: set<Table>)
    ensures TablesVerdict(env, db, tables, published).Malformed? <==>
      exists i: nat :: MalformedAt(env, db, tables, published, i)
  {
    if tables == [] {
    } else {
      MalformedExactly(env, db, tables[1..], published);
      if tables[0] in published || Exists(env, db, tables[0]) {
        if i: nat :| MalformedAt(env, db, tables[1..], published, i) {
          assert tables[i + 1] == tables[1..][i];
          forall j | 0 <= j < i + 1 ensures tables[j] in published || Exists(env, db, tables[j]) {
            if j > 0 { assert tables[j] == tables[1..][j - 1]; }
          }
          assert MalformedAt(env, db, tables, published, i + 1);
        }
        if i: nat :| MalformedAt(env, db, tables, published, i) {
          assert MalformedAt(env, db, tables[1..], published, i - 1);
        }
      } else if Nameless(tables[0]) {
        assert MalformedAt(env, db, tables, published, 0);
      }
    }
  }

  lemma OneRequestRaises(env: Env, st: State, request: Request)
    ensures OneRequest(env, st, request).Raised? <==> RaisesOn(env, st.entries, request)
    ensures OneRequest(env, st, request).Raised? ==> OneRequest(env, st, request).server == st.server
  {
  }

  ghost predicate SomeRaises(env: Env, entries: Entries, requests: seq<Request>, k: nat)
    requires k <= |requests|
  {
    exists j :: 0 <= j < k && RaisesOn(env, entries, requests[j])
  }

  lemma {:induction false} RaisesSoFar(env: Env, start: State, requests: seq<Request>, k: nat)
    requires Distinctly(requests) && k <= |requests|
    ensures Requested(env, start, requests, k).Raised? <==> SomeRaises(env, start.entries, requests, k)
    decreases k
  {
    if k == 0 {
    } else {
      RaisesSoFar(env, start, requests, k - 1);
      if Requested(env, start, requests, k - 1).Done? {
        var before := Requested(env, start, requests, k - 1).state;
        LaterRequestsLeaveIt(env, start, requests, 0, k - 1, requests[k - 1].db);
        LocalConditions(env, start, before, requests[k - 1]);
        OneRequestRaises(env, before, requests[k - 1]);
      }
      OneMoreRaises(env, start.entries, requests, k - 1);
    }
  }

  lemma OneMoreRaises(env: Env, entries: Entries, requests: seq<Request>, k: nat)
    requires k < |requests|
    ensures SomeRaises(env, entries, requests, k + 1) <==>
      SomeRaises(env, entries, requests, k) || RaisesOn(env, entries, requests[k])
  {
  }

  // Whether a request raises, or alters something, depends on its own database only.
  lemma LocalConditions(env: Env, a: State, b: State, request: Request)
    requires UnchangedAt(a, b, request.db)
    ensures RaisesOn(env, a.entries, request) <==> RaisesOn(env, b.entries, request)
    ensures Alters(env, a.entries, a.server, request) <==> Alters(env, b.entries, b.server, request)
  {
  }

  // Dropping redundant publications changes nothing for the databases that are requested.
  lemma DroppingKeepsRaises(env: Env, st: State, requests: seq<Request>)
    ensures forall j :: 0 <= j < |requests| ==>
      (RaisesOn(env, DropRedundant(st, requests).entries, requests[j]) <==> RaisesOn(env, st.entries, requests[j]))
  {
    forall j | 0 <= j < |requests|
      ensures RaisesOn(env, DropRedundant(st, requests).entries, requests[j]) <==>
        RaisesOn(env, st.entries, requests[j])
    {
      assert Requests(requests, requests[j].db);
    }
  }

  // A run raises exactly when it reaches such a name in some request.
  lemma RaisesExactly(env: Env, entries: Entries, server: Server, requests: seq<Request>)
    requires Distinctly(requests)
    ensures ProcessOffer(env, entries, server, requests).Raised? <==>
      exists j :: 0 <= j < |requests| && RaisesOn(env, entries, requests[j])
  {
    var start := DropRedundant(State(entries, server, []), requests);
    RaisesSoFar(env, start, requests, |requests|);
    DroppingKeepsRaises(env, State(entries, server, []), requests);
  }

  // The request creates or alters a publication.
  predicate Alters(env: Env, entries: Entries, server: Server, request: Request) {
    var Request(db, tables) := request;
    CircularTables(env.local, env.requester, db, tables) == {} &&
    if db in entries then
      multiset(entries[db].publication.tables) != multiset(tables) &&
      Validated(env, db, tables, set t | t in entries[db].publication.tables).Fine? &&
      (db, entries[db].name) in server
    else Validated(env, db, tables, {}).Fine? && (db, Name(env, db)) !in server
  }

  lemma OneRequestAlters(env: Env, st: State, request: Request)
    requires AgreesAt(env.relationId, st, request.db) && OneRequest(env, st, request).Done?
    ensures var left := OneRequest(env, st, request).state.server;
      AgreesAt(env.relationId, State(st.entries, left, []), request.db) <==>
        !Alters(env, st.entries, st.server, request)
  {
  }

  lemma MixedUnchanged(start: State, before: State, after: State, last: State, d: Db)
    requires UnchangedAt(start, before, d) && UnchangedAt(after, last, d)
    ensures UnchangedAt(State(before.entries, after.server, []), State(start.entries, last.server, []), d)
  {
  }

  lemma SameAgreement(id: nat, a: State, b: State, d: Db)
    requires UnchangedAt(a, b, d)
    ensures AgreesAt(id, a, d) <==> AgreesAt(id, b, d)
  {
  }

  // Where the first k requests leave the entries of `start` and the server at odds.
  lemma AgreementAfterRequests(env: Env, start: State, requests: seq<Request>, k: nat, j: nat)
    requires Distinctly(requests) && j < k <= |requests| && Requested(env, start, requests, k).Done?
    requires AgreesAt(env.relationId, start, requests[j].db)
    ensures var last := Requested(env, start, requests, k).state;
      AgreesAt(env.relationId, State(start.entries, last.server, []), requests[j].db) <==>
        !Alters(env, start.entries, start.server, requests[j])
  {
    var before, after, last := StatesAround(env, start, requests, k, j);
    AgreementAcross(env, start, before, after, last, requests[j]);
  }

  // The states just before and after request j, and the last one.
  lemma StatesAround(env: Env, start: State, requests: seq<Request>, k: nat, j: nat)
    returns (before: State, after: State, last: State)
    requires Distinctly(requests) && j < k <= |requests| && Requested(env, start, requests, k).Done?
    ensures UnchangedAt(start, before, requests[j].db) && UnchangedAt(after, last, requests[j].db)
    ensures OneRequest(env, before, requests[j]) == Done(after) && Requested(env, start, requests, k) == Done(last)
    ensures Requested(env, start, requests, j) == Done(before)
    ensures Requested(env, start, requests, j + 1) == Done(after)
  {
    after, last := StatesAfter(env, start, requests, k, j);
    before := OneRequestEarlier(env, start, requests, j, after);
    UntouchedBefore(env, start, requests, j, before);
  }

  lemma StatesAfter(env: Env, start: State, requests: seq<Request>, k: nat, j: nat)
    returns (after: State, last: State)
    requires Distinctly(requests) && j < k <= |requests| && Requested(env, start, requests, k).Done?
    ensures Requested(env, start, requests, j + 1) == Done(after) && Requested(env, start, requests, k) == Done(last)
    ensures UnchangedAt(after, last, requests[j].db)
  {
    LaterRequestsLeaveIt(env, start, requests, j + 1, k, requests[j].db);
    after, last := Requested(env, start, requests, j + 1).state, Requested(env, start, requests, k).state;
  }

  lemma UntouchedBefore(env: Env, start: State, requests: seq<Request>, j: nat, before: State)
    requires Distinctly(requests) && j < |requests| && Requested(env, start, requests, j) == Done(before)
    ensures UnchangedAt(start, before, requests[j].db)
  {
    LaterRequestsLeaveIt(env, start, requests, 0, j, requests[j].db);
  }

  lemma OneRequestEarlier(env: Env, start: State, requests: seq<Request>, j: nat, after: State) returns (before: State)
    requires j < |requests| && Requested(env, start, requests, j + 1) == Done(after)
    ensures Requested(env, start, requests, j) == Done(before)
    ensures OneRequest(env, before, requests[j]) == Done(after)
  {
    before := Requested(env, start, requests, j).state;
  }

  lemma AgreementAcross(env: Env, start: State, before: State, after: State, last: State, request: Request)
    requires AgreesAt(env.relationId, start, request.db)
    requires UnchangedAt(start, before, request.db) && UnchangedAt(after, last, request.db)
    requires OneRequest(env, before, request) == Done(after)
    ensures AgreesAt(env.relationId, State(start.entries, last.server, []), request.db) <==>
      !Alters(env, start.entries, start.server, request)
  {
    var id, d := env.relationId, request.db;
    SameAgreement(id, start, before, d);
    LocalConditions(env, start, before, request);
    OneRequestAlters(env, before, request);
    MixedUnchanged(start, before, after, last, d);
    SameAgreement(id, State(before.entries, after.server, []), State(start.entries, last.server, []), d);
  }

  // The first request that raises.
  ghost predicate FirstRaise(env: Env, entries: Entries, requests: seq<Request>, k: nat) {
    k < |requests| && RaisesOn(env, entries, requests[k]) && !SomeRaises(env, entries, requests, k)
  }

  // Nothing was dropped, created or altered before request k.
  ghost predicate NothingDoneBefore(env: Env, entries: Entries, server: Server, requests: seq<Request>, k: nat)
    requires k <= |requests|
  {
    (forall d :: d in entries ==> Requests(requests, d)) &&
    (forall j :: 0 <= j < k ==> !Alters(env, entries, server, requests[j]))
  }

  // What is left of the server when request k raises: the state the requests before it led to.
  lemma RaisingLeaves(env: Env, entries: Entries, server: Server, requests: seq<Request>, k: nat)
    requires Distinctly(requests) && FirstRaise(env, entries, requests, k)
    ensures var start := DropRedundant(State(entries, server, []), requests);
      Requested(env, start, requests, k).Done? &&
      ProcessOffer(env, entries, server, requests) == Raised(Requested(env, start, requests, k).state.server)
  {
    var start := DropRedundant(State(entries, server, []), requests);
    DroppingKeepsRaises(env, State(entries, server, []), requests);
    RaisesThere(env, start, requests, k);
    StaysRaised(env, start, requests, k + 1, |requests|);
  }

  lemma RaisesThere(env: Env, start: State, requests: seq<Request>, k: nat)
    requires Distinctly(requests) && FirstRaise(env, start.entries, requests, k)
    ensures Requested(env, start, requests, k).Done?
    ensures Requested(env, start, requests, k + 1) == Raised(Requested(env, start, requests, k).state.server)
  {
    RaisesSoFar(env, start, requests, k);
    OneMoreRaises(env, start.entries, requests, k);
    RaisesSoFar(env, start, requests, k + 1);
    OneRequestRaises(env, Requested(env, start, requests, k).state, requests[k]);
  }

  // A raising run takes back the databag writes but not what it did to the server. Its relation's
  // record and server still agree exactly if it had nothing to drop and no earlier request created
  // or altered a publication.
  lemma RaisingKeepsAgreementExactly(env: Env, entries: Entries, server: Server, requests: seq<Request>, k: nat)
    requires Distinctly(requests) && FirstRaise(env, entries, requests, k)
    requires Agrees(env.relationId, State(entries, server, []))
    ensures var outcome := ProcessOffer(env, entries, server, requests);
      outcome.Raised? && ForeignUntouched(env, server, outcome.server) &&
      (Agrees(env.relationId, State(entries, outcome.server, [])) <==>
        NothingDoneBefore(env, entries, server, requests, k))
  {
    var first := State(entries, server, []);
    var start := DropRedundant(first, requests);
    RaisingLeaves(env, entries, server, requests, k);
    DroppingKeepsAgreement(env, first, requests);
    RequestsKeepAgreement(env, start, requests, k);
    var after := State(entries, Requested(env, start, requests, k).state.server, []);
    if NothingDoneBefore(env, entries, server, requests, k) {
      forall d ensures AgreesAt(env.relationId, after, d) {
        AgreementWhereNothingWasDone(env, first, requests, k, d);
      }
    } else if d :| d in entries && !Requests(requests, d) {
      DroppedIsAtOdds(env, first, requests, k, d);
      assert !AgreesAt(env.relationId, after, d);
    } else {
      var j :| 0 <= j < k && Alters(env, entries, server, requests[j]);
      AlteredExactly(env, first, requests, k, j);
      assert !AgreesAt(env.relationId, after, requests[j].db);
    }
  }

  // At the database of an earlier request only an alteration is at odds with the record.
  lemma AlteredExactly(env: Env, first: State, requests: seq<Request>, k: nat, j: nat)
    requires Distinctly(requests) && j < k <= |requests| && AgreesAt(env.relationId, first, requests[j].db)
    requires Requested(env, DropRedundant(first, requests), requests, k).Done?
    ensures var last := Requested(env, DropRedundant(first, requests), requests, k).state;
      AgreesAt(env.relationId, State(first.entries, last.server, []), requests[j].db) <==>
        !Alters(env, first.entries, first.server, requests[j])
  {
    var start, d := DropRedundant(first, requests), requests[j].db;
    assert Requests(requests, d);
    assert UnchangedAt(first, start, d);
    SameAgreement(env.relationId, first, start, d);
    LocalConditions(env, first, start, requests[j]);
    AgreementAfterRequests(env, start, requests, k, j);
    var last := Requested(env, start, requests, k).state;
    SameAgreement(env.relationId, State(first.entries, last.server, []), State(start.entries, last.server, []), d);
  }

  lemma DroppedIsAtOdds(env: Env, first: State, requests: seq<Request>, k: nat, d: Db)
    requires k <= |requests| && AgreesAt(env.relationId, first, d) && d in first.entries && !Requests(requests, d)
    requires Requested(env, DropRedundant(first, requests), requests, k).Done?
    ensures var last := Requested(env, DropRedundant(first, requests), requests, k).state;
      !AgreesAt(env.relationId, State(first.entries, last.server, []), d)
  {
    LaterRequestsLeaveIt(env, DropRedundant(first, requests), requests, 0, k, d);
  }

  lemma AgreementWhereNothingWasDone(env: Env, first: State, requests: seq<Request>, k: nat, d: Db)
    requires Distinctly(requests) && k <= |requests| && AgreesAt(env.relationId, first, d)
    requires NothingDoneBefore(env, first.entries, first.server, requests, k)
    requires Requested(env, DropRedundant(first, requests), requests, k).Done?
    ensures var last := Requested(env, DropRedundant(first, requests), requests, k).state;
      AgreesAt(env.relationId, State(first.entries, last.server, []), d)
  {
    var start := DropRedundant(first, requests);
    if j :| 0 <= j < k && requests[j].db == d {
      AlteredExactly(env, first, requests, k, j);
    } else {
      LaterRequestsLeaveIt(env, start, requests, 0, k, d);
      var last := Requested(env, start, requests, k).state;
      assert UnchangedAt(first, start, d);
      SameAgreement(env.relationId, first, State(first.entries, last.server, []), d);
    }
  }

  // The run raises and leaves record and server at odds.
  ghost predicate Strands(env: Env, entries: Entries, server: Server, requests: seq<Request>) {
    exists k: nat :: FirstRaise(env, entries, requests, k) && !NothingDoneBefore(env, entries, server, requests, k)
  }

  lemma {:induction false} SomeRaiseIsFirst(env: Env, entries: Entries, requests: seq<Request>, n: nat) returns (k: nat)
    requires n <= |requests| && SomeRaises(env, entries, requests, n)
    ensures FirstRaise(env, entries, requests, k)
    decreases n
  {
    if SomeRaises(env, entries, requests, n - 1) {
      k := SomeRaiseIsFirst(env, entries, requests, n - 1);
    } else {
      k := n - 1;
      OneMoreRaises(env, entries, requests, k);
    }
  }

  // A publication on the server that is not recorded is refused as a conflict, whatever else is
  // requested: this is what becomes of the publications a raising run has created.
  lemma UnrecordedPublicationsConflict(env: Env, entries: Entries, server: Server, requests: seq<Request>, j: nat)
    requires Distinctly(requests) && j < |requests| && ProcessOffer(env, entries, server, requests).Done?
    requires requests[j].db !in entries && (requests[j].db, Name(env, requests[j].db)) in server
    requires CircularTables(env.local, env.requester, requests[j].db, requests[j].tables) == {}
    requires Validated(env, requests[j].db, requests[j].tables, {}).Fine?
    ensures var after, d := ProcessOffer(env, entries, server, requests).state, requests[j].db;
      Conflict(d, Name(env, d)) in after.errors && d !in after.entries
  {
    var first := State(entries, server, []);
    var start, d := DropRedundant(first, requests), requests[j].db;
    assert Requests(requests, d) && UnchangedAt(first, start, d);
    RequestsAreHandled(env, start, requests, |requests|);
    var before, after, last := StatesAround(env, start, requests, |requests|, j);
    assert OneRequest(env, before, requests[j]) == Refuse(before, Conflict(d, Name(env, d)));
    DoneSoFar(env, start, requests, j + 1, |requests|);
    assert after.errors[|before.errors|] == Conflict(d, Name(env, d));
    ErrorsAreKept(env, start, requests, j + 1, |requests|);
    assert d !in after.entries;
  }

  lemma {:induction false} ErrorsAreKept(env: Env, start: State, requests: seq<Request>, k: nat, n: nat)
    requires k <= n <= |requests| && Requested(env, start, requests, n).Done?
    ensures Requested(env, start, requests, k).Done?
    ensures forall e :: e in Requested(env, start, requests, k).state.errors ==>
      e in Requested(env, start, requests, n).state.errors
    decreases n
  {
    if k == n {
    } else {
      ErrorsAreKept(env, start, requests, k, n - 1);
      var before := Requested(env, start, requests, n - 1).state;
      OneRequestSettles(env, before, requests[n - 1]);
      var after := Requested(env, start, requests, n).state;
      forall e | e in before.errors ensures e in after.errors {
        assert |after.errors| > |before.errors| ==> e in after.errors[..|before.errors|];
      }
    }
  }

  lemma {:induction false} WellFormedRequestsDoNotRaise(env: Env, start: State, requests: seq<Request>, k: nat)
    requires k <= |requests|
    requires forall i, t :: 0 <= i < |requests| && t in requests[i].tables ==> SchemaAndTable(t).Some?
    ensures Requested(env, start, requests, k).Done?
    decreases k
  {
    if k == 0 {
    } else {
      WellFormedRequestsDoNotRaise(env, start, requests, k - 1);
      var Request(db, tables) := requests[k - 1];
      forall published ensures !TablesVerdict(env, db, tables, published).Malformed? {
        WellFormedTablesPass(env, db, tables, published);
      }
    }
  }

  lemma {:induction false} WellFormedTablesPass(env: Env, db: Db, tables: seq<Table>, published: set<Table>)
    requires forall t :: t in tables ==> SchemaAndTable(t).Some?
    ensures !TablesVerdict(env, db, tables, published).Malformed?
  {
    if tables == [] {
    } else {
      WellFormedTablesPass(env, db, tables[1..], published);
    }
  }

  // A table name without its dot raises after the databases before it were published, and the
  // raise takes back the databags only: once the request is corrected they are conflicts.
  lemma RaisingStrandsPublications(env: Env, one: Db, other: Db, table: Table, malformed: Table)
    requires one != other && one in env.databases && other in env.databases
    requires Exists(env, one, table) && Nameless(malformed)
    requires env.local.subscription.None?
    ensures var name := Name(env, one);
      ProcessOffer(env, map[], map[], [Request(one, [table]), Request(other, [malformed])]) ==
        Raised(map[(one, name) := [table]]) &&
      ProcessOffer(env, map[], map[(one, name) := [table]], [Request(one, [table])]) ==
        Done(State(map[], map[(one, name) := [table]], [Conflict(one, name)]))
  {
    var name := Name(env, one);
    var requests := [Request(one, [table]), Request(other, [malformed])];
    var empty := State(map[], map[], []);
    assert DropRedundant(empty, requests) == empty;
    assert TablesVerdict(env, one, [table], {}).Fine?;
    assert TablesVerdict(env, other, [malformed], {}).Malformed?;
    assert Requested(env, empty, requests, 0) == Done(empty);
    var first := Requested(env, empty, requests, 1);
    assert first == OneRequest(env, empty, requests[0]) == CreatePublication(env, empty, one, [table]);
    assert Requested(env, empty, requests, 2) == OneRequest(env, first.state, requests[1]);
    var again := State(map[], map[(one, name) := [table]], []);
    assert DropRedundant(again, [Request(one, [table])]) == again;
    assert Requested(env, again, [Request(one, [table])], 0) == Done(again);
  }
}
