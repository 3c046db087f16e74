/**
 How the publisher answers each request: what it is refused for, in terms of the databases and
 tables the server holds, and that it is served exactly when nothing of that kind stands in its way.
 */
module OfferAnswers {
  import opened LogicalChains
  import opened LogicalRequests
  import opened OfferModel
  import opened OfferProperties

  // The tables that are published already, and so are not looked up again.
  function Published(st: State, db: Db): set<Table> {
    if db in st.entries then set t | t in st.entries[db].publication.tables else {}
  }

  // The request closes no circle and asks for something that is not published yet.
  ghost predicate Asks(env: Env, st: State, request: Request) {
    CircularTables(env.local, env.requester, request.db, request.tables) == {} &&
    (request.db in st.entries ==>
      multiset(st.entries[request.db].publication.tables) != multiset(request.tables))
  }

  ghost predicate AllExist(env: Env, st: State, request: Request) {
    request.db in env.databases &&
    forall t :: t in request.tables && t !in Published(st, request.db) ==> Exists(env, request.db, t)
  }

  // A new table of the request that the database does not hold.
  ghost predicate Lacks(env: Env, st: State, request: Request, i: nat) {
    i < |request.tables| && request.tables[i] !in Published(st, request.db) &&
    !Exists(env, request.db, request.tables[i])
  }

  ghost predicate FirstMissing(env: Env, st: State, request: Request, i: nat) {
    Lacks(env, st, request, i) && forall j: nat :: j < i ==> !Lacks(env, st, request, j)
  }

  // What the request's publication is called on the server, or would be.
  function ServerName(env: Env, st: State, db: Db): string {
    if db in st.entries then st.entries[db].name else Name(env, db)
  }

  // The error stands in the way of the request.
  ghost predicate Refuses(env: Env, st: State, request: Request, e: Error) {
    var Request(db, tables) := request;
    var circular := CircularTables(env.local, env.requester, db, tables);
    e.db == db &&
    match e
    case Circular(_, refused) => circular != {} && refused == circular
    case NoDatabase(_) => Asks(env, st, request) && db !in env.databases
    case NoTable(_, t) => (Asks(env, st, request) && db in env.databases && !Nameless(t) &&
      exists i: nat :: FirstMissing(env, st, request, i) && tables[i] == t)
    case Conflict(_, name) => (Asks(env, st, request) && AllExist(env, st, request) &&
      db !in st.entries && name == Name(env, db) && (db, name) in st.server)
    case Missing(_, name) => (Asks(env, st, request) && AllExist(env, st, request) &&
      db in st.entries && name == st.entries[db].name && (db, name) !in st.server)
  }

  lemma {:induction false} FirstMissingDecides(env: Env, db: Db, tables: seq<Table>, published: set<Table>, i: nat)
    requires i < |tables| && tables[i] !in published && !Exists(env, db, tables[i])
    requires forall j :: 0 <= j < i ==> tables[j] in published || Exists(env, db, tables[j])
    ensures TablesVerdict(env, db, tables, published) == TableVerdict(env, db, tables[i])
  {
    if i == 0 {
    } else {
      assert tables[1..][i - 1] == tables[i];
      assert forall j :: 0 <= j < i - 1 ==> tables[1..][j] == tables[j + 1];
      FirstMissingDecides(env, db, tables[1..], published, i - 1);
    }
  }

  lemma {:induction false} SomeFirstMissing(env: Env, st: State, request: Request, n: nat) returns (i: nat)
    requires Lacks(env, st, request, n)
    ensures FirstMissing(env, st, request, i)
    decreases n
  {
    if j: nat :| j < n && Lacks(env, st, request, j) {
      i := SomeFirstMissing(env, st, request, j);
    } else {
      i := n;
    }
  }

  // Validation in terms of the server alone.
  lemma ValidatedExactly(env: Env, st: State, request: Request)
    ensures var Request(db, tables) := request;
      var verdict := Validated(env, db, tables, Published(st, db));
      && (verdict.Fine? <==> AllExist(env, st, request))
      && (db !in env.databases ==> verdict == Invalid(NoDatabase(db)))
      && (db in env.databases ==> forall i: nat :: FirstMissing(env, st, request, i) ==>
            verdict == if Nameless(tables[i]) then Malformed else Invalid(NoTable(db, tables[i])))
  {
    var Request(db, tables) := request;
    forall i: nat | FirstMissing(env, st, request, i)
      ensures TablesVerdict(env, db, tables, Published(st, db)) ==
        if Nameless(tables[i]) then Malformed else Invalid(NoTable(db, tables[i]))
    {
      forall j | 0 <= j < i ensures tables[j] in Published(st, db) || Exists(env, db, tables[j]) {
        assert !Lacks(env, st, request, j);
      }
      FirstMissingDecides(env, db, tables, Published(st, db), i);
    }
  }

  lemma RefusalsDiffer(st: State, a: Error, b: Error)
    ensures Refuse(st, a) == Refuse(st, b) <==> a == b
    ensures forall after: State :: after.errors == st.errors ==> Refuse(st, a) != Done(after)
  {
    assert (st.errors + [a])[|st.errors|] == a && (st.errors + [b])[|st.errors|] == b;
  }

  lemma CircularAnswer(env: Env, st: State, request: Request, e: Error)
    requires CircularTables(env.local, env.requester, request.db, request.tables) != {} && e.db == request.db
    ensures Refuses(env, st, request, e) <==> OneRequest(env, st, request) == Refuse(st, e)
  {
    var circular := CircularTables(env.local, env.requester, request.db, request.tables);
    RefusalsDiffer(st, Circular(request.db, circular), e);
  }

  lemma ValidAnswer(env: Env, st: State, request: Request, e: Error)
    requires Asks(env, st, request) && AllExist(env, st, request) && e.db == request.db
    ensures Refuses(env, st, request, e) <==> OneRequest(env, st, request) == Refuse(st, e)
  {
    ValidatedExactly(env, st, request);
    var Request(db, tables) := request;
    RefusalsDiffer(st, Conflict(db, Name(env, db)), e);
    if db in st.entries { RefusalsDiffer(st, Missing(db, st.entries[db].name), e); }
    RefusalsDiffer(st, e, e);
  }

  lemma InvalidAnswer(env: Env, st: State, request: Request, e: Error)
    requires Asks(env, st, request) && !AllExist(env, st, request) && e.db == request.db
    ensures Refuses(env, st, request, e) <==> OneRequest(env, st, request) == Refuse(st, e)
  {
    ValidatedExactly(env, st, request);
    var Request(db, tables) := request;
    if db !in env.databases {
      RefusalsDiffer(st, NoDatabase(db), e);
    } else {
      var n: nat :| Lacks(env, st, request, n);
      var i := SomeFirstMissing(env, st, request, n);
      RefusalsDiffer(st, NoTable(db, tables[i]), e);
    }
  }

  // One request is refused for the one error that stands in its way, if any does.
  lemma OneAnswer(env: Env, st: State, request: Request, e: Error)
    requires e.db == request.db
    ensures Refuses(env, st, request, e) <==> OneRequest(env, st, request) == Refuse(st, e)
  {
    if CircularTables(env.local, env.requester, request.db, request.tables) != {} {
      CircularAnswer(env, st, request, e);
    } else if !Asks(env, st, request) {
      RefusalsDiffer(st, e, e);
    } else if AllExist(env, st, request) {
      ValidAnswer(env, st, request, e);
    } else {
      InvalidAnswer(env, st, request, e);
    }
  }

  // ---- All requests -----------------------------------------------------------------------

  // What stands in the way of a request depends on its own database only.
  lemma RefusalsAreLocal(env: Env, a: State, b: State, request: Request, e: Error)
    requires UnchangedAt(a, b, request.db)
    ensures Refuses(env, a, request, e) <==> Refuses(env, b, request, e)
  {
    var db := request.db;
    assert Published(a, db) == Published(b, db);
    assert forall i: nat :: FirstMissing(env, a, request, i) <==> FirstMissing(env, b, request, i) by {
      assert forall i: nat :: Lacks(env, a, request, i) <==> Lacks(env, b, request, i);
    }
    assert ServerName(env, a, db) == ServerName(env, b, db);
  }

  lemma {:induction false} OthersLeaveTheBlame(env: Env, start: State, requests: seq<Request>, k: nat, n: nat, d: Db)
    requires k <= n <= |requests| && Requested(env, start, requests, n).Done?
    requires forall j :: k <= j < n ==> requests[j].db != d
    ensures Requested(env, start, requests, k).Done?
    ensures Blamed(Requested(env, start, requests, n).state.errors, d) <==>
      Blamed(Requested(env, start, requests, k).state.errors, d)
    decreases n
  {
    if k == n {
    } else {
      OthersLeaveTheBlame(env, start, requests, k, n - 1, d);
      var before, after := Requested(env, start, requests, n - 1).state, Requested(env, start, requests, n).state;
      OneRequestSettles(env, before, requests[n - 1]);
      BlameGrows(before, after, requests[n - 1], d);
    }
  }

  // The first k requests: nothing is said of a database before its own request comes.
  lemma NotBlamedBefore(env: Env, start: State, requests: seq<Request>, j: nat)
    requires Distinctly(requests) && j < |requests| && start.errors == []
    requires Requested(env, start, requests, j).Done?
    ensures !Blamed(Requested(env, start, requests, j).state.errors, requests[j].db)
  {
    OthersLeaveTheBlame(env, start, requests, 0, j, requests[j].db);
  }

  lemma AnswerAround(env: Env, before: State, after: State, last: State, request: Request, e: Error)
    requires OneRequest(env, before, request) == Done(after) && e.db == request.db
    requires !Blamed(before.errors, e.db) && (Blamed(last.errors, e.db) <==> Blamed(after.errors, e.db))
    requires (forall x :: x in after.errors ==> x in last.errors) && OneErrorEach(last.errors)
    ensures e in last.errors <==> Refuses(env, before, request, e)
    ensures Blamed(last.errors, e.db) ==> exists x: Error :: x.db == e.db && Refuses(env, before, request, x)
  {
    OneAnswer(env, before, request, e);
    SettledBy(env, before, after, request);
    BlameGrows(before, after, request, e.db);
    if |after.errors| > |before.errors| {
      var x := after.errors[|before.errors|];
      assert after.errors == before.errors + [x];
      OneAnswer(env, before, request, x);
      OneErrorIsTheError(last.errors, x, e);
    }
  }

  lemma OneErrorEachInTheEnd(env: Env, start: State, requests: seq<Request>, last: State)
    requires Distinctly(requests) && start.errors == [] && Requested(env, start, requests, |requests|) == Done(last)
    ensures OneErrorEach(last.errors)
  {
    RequestsAreHandled(env, start, requests, |requests|);
  }

  lemma SaidIsSaid(env: Env, start: State, requests: seq<Request>, k: nat, after: State, last: State)
    requires k <= |requests| && Requested(env, start, requests, k) == Done(after)
    requires Requested(env, start, requests, |requests|) == Done(last)
    ensures forall x :: x in after.errors ==> x in last.errors
  {
    ErrorsAreKept(env, start, requests, k, |requests|);
  }

  lemma BlameIsFinal(env: Env, start: State, requests: seq<Request>, j: nat, after: State, last: State)
    requires Distinctly(requests) && j < |requests|
    requires Requested(env, start, requests, j + 1) == Done(after)
    requires Requested(env, start, requests, |requests|) == Done(last)
    ensures Blamed(last.errors, requests[j].db) <==> Blamed(after.errors, requests[j].db)
  {
    OthersLeaveTheBlame(env, start, requests, j + 1, |requests|, requests[j].db);
  }

  // What the requests after j leave of what was said up to it.
  lemma LaterErrors(env: Env, start: State, requests: seq<Request>, j: nat, after: State, last: State)
    requires Distinctly(requests) && j < |requests| && start.errors == []
    requires Requested(env, start, requests, j + 1) == Done(after)
    requires Requested(env, start, requests, |requests|) == Done(last)
    ensures Blamed(last.errors, requests[j].db) <==> Blamed(after.errors, requests[j].db)
    ensures (forall x :: x in after.errors ==> x in last.errors) && OneErrorEach(last.errors)
  {
    BlameIsFinal(env, start, requests, j, after, last);
    SaidIsSaid(env, start, requests, j + 1, after, last);
    OneErrorEachInTheEnd(env, start, requests, last);
  }

  lemma AnswerFrom(env: Env, start: State, requests: seq<Request>, j: nat, e: Error)
    returns (before: State, last: State)
    requires Distinctly(requests) && j < |requests| && start.errors == [] && e.db == requests[j].db
    requires Requested(env, start, requests, |requests|).Done?
    ensures UnchangedAt(start, before, e.db) && Requested(env, start, requests, |requests|) == Done(last)
    ensures e in last.errors <==> Refuses(env, before, requests[j], e)
    ensures Blamed(last.errors, e.db) ==> exists x: Error :: x.db == e.db && Refuses(env, before, requests[j], x)
  {
    var after;
    before, after, last := StatesAround(env, start, requests, |requests|, j);
    NotBlamedBefore(env, start, requests, j);
    LaterErrors(env, start, requests, j, after, last);
    AnswerAround(env, before, after, last, requests[j], e);
  }

  lemma OneErrorIsTheError(errors: seq<Error>, x: Error, e: Error)
    requires OneErrorEach(errors) && x in errors && e.db == x.db
    ensures e in errors <==> e == x
  {
  }

  /**
   What a run says of each request: an error is reported exactly if it stands in the way of that
   request as the run found record and server.
   */
  lemma AnswersExactly(env: Env, entries: Entries, server: Server, requests: seq<Request>, j: nat, e: Error)
    requires Distinctly(requests) && j < |requests| && e.db == requests[j].db
    requires ProcessOffer(env, entries, server, requests).Done?
    ensures e in ProcessOffer(env, entries, server, requests).state.errors <==>
      Refuses(env, State(entries, server, []), requests[j], e)
    ensures Blamed(ProcessOffer(env, entries, server, requests).state.errors, e.db) ==>
      exists x: Error :: x.db == e.db && Refuses(env, State(entries, server, []), requests[j], x)
  {
    var first := State(entries, server, []);
    var start := DropRedundant(first, requests);
    assert Requests(requests, requests[j].db);
    assert UnchangedAt(first, start, requests[j].db);
    var before, last := AnswerFrom(env, start, requests, j, e);
    forall x: Error { RefusalsAreLocal(env, first, before, requests[j], x); }
  }

  lemma AnsweredExactly(env: Env, entries: Entries, server: Server, requests: seq<Request>, j: nat)
    requires Distinctly(requests) && j < |requests| && ProcessOffer(env, entries, server, requests).Done?
    ensures var first, after := State(entries, server, []), ProcessOffer(env, entries, server, requests).state;
      if exists e: Error :: e.db == requests[j].db && Refuses(env, first, requests[j], e)
      then UnchangedAt(first, after, requests[j].db) else ServedAt(env, first, after, requests[j])
  {
    var first, request := State(entries, server, []), requests[j];
    var after := ProcessOffer(env, entries, server, requests).state;
    OfferIsReconciled(env, entries, server, requests);
    assert HandledAt(env, first, after, request);
    AnswersExactly(env, entries, server, requests, j, NoDatabase(request.db));
    if e: Error :| e.db == request.db && Refuses(env, first, request, e) {
      AnswersExactly(env, entries, server, requests, j, e);
      assert Blamed(after.errors, request.db);
    }
  }

  // Where nothing is malformed a request that asks for something is refused exactly if something it
  // asks for does not exist, or its name is taken, or its publication gone.
  lemma SomethingRefuses(env: Env, st: State, request: Request)
    requires Asks(env, st, request) && !RaisesOn(env, st.entries, request)
    ensures (exists e: Error :: e.db == request.db && Refuses(env, st, request, e)) <==>
      !(AllExist(env, st, request) &&
        ((request.db, ServerName(env, st, request.db)) in st.server <==> request.db in st.entries))
  {
    var Request(db, tables) := request;
    ValidatedExactly(env, st, request);
    if db !in env.databases {
      assert Refuses(env, st, request, NoDatabase(db));
    } else if !AllExist(env, st, request) {
      var n: nat :| Lacks(env, st, request, n);
      var i := SomeFirstMissing(env, st, request, n);
      assert Refuses(env, st, request, NoTable(db, tables[i]));
    } else if db in st.entries {
      assert (db, st.entries[db].name) !in st.server ==> Refuses(env, st, request, Missing(db, st.entries[db].name));
    } else {
      assert (db, Name(env, db)) in st.server ==> Refuses(env, st, request, Conflict(db, Name(env, db)));
    }
  }

  /**
   A request that closes no circle, for a database with no record and no publication of that name
   on the server, is served exactly if the database and all its tables exist.
   */
  lemma NewRequestsAreServedExactly(env: Env, entries: Entries, server: Server, requests: seq<Request>, j: nat)
    requires Distinctly(requests) && j < |requests| && ProcessOffer(env, entries, server, requests).Done?
    requires CircularTables(env.local, env.requester, requests[j].db, requests[j].tables) == {}
    requires requests[j].db !in entries && (requests[j].db, Name(env, requests[j].db)) !in server
    ensures var after, Request(db, tables) := ProcessOffer(env, entries, server, requests).state, requests[j];
      db in after.entries <==> db in env.databases && forall t :: t in tables ==> Exists(env, db, t)
  {
    AnsweredExactly(env, entries, server, requests, j);
    RaisesExactly(env, entries, server, requests);
    SomethingRefuses(env, State(entries, server, []), requests[j]);
  }

  /**
   Altering one: it ends with the requested tables exactly if the database and the tables that are
   not published yet exist, provided the server still holds the publication.
   */
  lemma AlteredRequestsAreServedExactly(env: Env, entries: Entries, server: Server, requests: seq<Request>, j: nat)
    requires Distinctly(requests) && j < |requests| && ProcessOffer(env, entries, server, requests).Done?
    requires CircularTables(env.local, env.requester, requests[j].db, requests[j].tables) == {}
    requires requests[j].db in entries && (requests[j].db, entries[requests[j].db].name) in server
    requires multiset(entries[requests[j].db].publication.tables) != multiset(requests[j].tables)
    ensures var after, Request(db, tables) := ProcessOffer(env, entries, server, requests).state, requests[j];
      (db in after.entries && multiset(after.entries[db].publication.tables) == multiset(tables)) <==>
        db in env.databases &&
        forall t :: t in tables && t !in entries[db].publication.tables ==> Exists(env, db, t)
  {
    AnsweredExactly(env, entries, server, requests, j);
    RaisesExactly(env, entries, server, requests);
    SomethingRefuses(env, State(entries, server, []), requests[j]);
  }
}
