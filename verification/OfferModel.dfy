/**
 The publisher's reconcile: what one offer relation publishes is brought in line with what its
 subscriber requests.
 */
module OfferModel {
  import opened LogicalChains
  import opened LogicalRequests
  import Slots

  // A publication as recorded in the relation's databag and in the application's record.
  datatype Entry = Entry(name: string, slot: string, publication: Publication)

  type Entries = map<Db, Entry>

  // The publications the server holds, by database and name.
  type Server = map<(Db, string), seq<Table>>

  datatype Error =
    | Circular(db: Db, tables: set<Table>)
    | NoDatabase(db: Db)
    | NoTable(db: Db, table: Table)
    | Conflict(db: Db, name: string)
    | Missing(db: Db, name: string)

  // What one run of the reconcile reads and does not change.
  datatype Env = Env(
    relationId: nat, databases: set<Db>, tables: set<(Db, string, string)>,
    local: Local, requester: Remote)

  datatype State = State(entries: Entries, server: Server, errors: seq<Error>)

  // A run that raises leaves what it has done to the server, but no databag change.
  datatype Outcome = Done(state: State) | Raised(server: Server)

  // ---- Validation -------------------------------------------------------------------------

  datatype Verdict = Fine | Invalid(error: Error) | Malformed

  // The database holds a table of this name.
  ghost predicate Exists(env: Env, db: Db, t: Table) {
    exists schema, table :: Spells(t, schema, table) && (db, schema, table) in env.tables
  }

  // Names nothing: it has no dot, or several.
  ghost predicate Nameless(t: Table) {
    forall schema, table :: !Spells(t, schema, table)
  }

  function TableVerdict(env: Env, db: Db, t: Table): (r: Verdict)
    ensures r.Fine? <==> Exists(env, db, t)
    ensures r.Malformed? <==> Nameless(t)
    ensures r.Invalid? ==> r.error == NoTable(db, t)
  {
    SplitsItsNames(t);
    match SchemaAndTable(t)
    case None => Malformed
    case Some((schema, table)) => if (db, schema, table) in env.tables then Fine else Invalid(NoTable(db, t))
  }

  // The first table that is not published yet and does not pass.
  function TablesVerdict(env: Env, db: Db, tables: seq<Table>, published: set<Table>): (r: Verdict)
    ensures r.Invalid? ==> r.error.db == db
    ensures r.Fine? <==> forall t :: t in tables && t !in published ==> Exists(env, db, t)
  {
    if tables == [] then Fine
    else if tables[0] in published || TableVerdict(env, db, tables[0]).Fine? then
      TablesVerdict(env, db, tables[1..], published)
    else TableVerdict(env, db, tables[0])
  }

  function Validated(env: Env, db: Db, tables: seq<Table>, published: set<Table>): (r: Verdict)
    ensures r.Invalid? ==> r.error.db == db
    ensures r.Fine? <==> db in env.databases && forall t :: t in tables && t !in published ==> Exists(env, db, t)
  {
    if db !in env.databases then Invalid(NoDatabase(db)) else TablesVerdict(env, db, tables, published)
  }

  // ---- The reconcile ----------------------------------------------------------------------

  function Name(env: Env, db: Db): string {
    Slots.ResourceName(env.relationId, db)
  }

  // Some databases' publications, as the server knows them.
  function Names(entries: Entries, dbs: set<Db>): set<(Db, string)> {
    set d | d in dbs && d in entries :: (d, entries[d].name)
  }

  lemma OneNameMore(entries: Entries, dbs: set<Db>, db: Db)
    requires db in entries
    ensures Names(entries, dbs + {db}) == Names(entries, dbs) + {(db, entries[db].name)}
  {
  }

  function Redundant(entries: Entries, requests: seq<Request>): set<Db> {
    set d | d in entries && !Requests(requests, d)
  }

  // Dropping one publication more.
  lemma OneFewer(entries: Entries, server: Server, dropped: set<Db>, db: Db)
    requires db in entries
    ensures entries - dropped - {db} == entries - (dropped + {db})
    ensures server - Names(entries, dropped) - {(db, entries[db].name)} == server - Names(entries, dropped + {db})
  {
    OneNameMore(entries, dropped, db);
  }

  // Coming to one database more.
  lemma OneSeen(redundant: set<Db>, todo: set<Db>, db: Db)
    requires db in todo
    ensures redundant - (todo - {db}) == if db in redundant then redundant - todo + {db} else redundant - todo
  {
  }

  function DropRedundant(st: State, requests: seq<Request>): State {
    var redundant := Redundant(st.entries, requests);
    st.(entries := st.entries - redundant,
        server := st.server - Names(st.entries, redundant))
  }

  function Refuse(st: State, error: Error): Outcome {
    Done(st.(errors := st.errors + [error]))
  }

  function CreatePublication(env: Env, st: State, db: Db, tables: seq<Table>): Outcome {
    var name := Name(env, db);
    match Validated(env, db, tables, {})
    case Malformed => Raised(st.server)
    case Invalid(error) => Refuse(st, error)
    case Fine =>
      if (db, name) in st.server then Refuse(st, Conflict(db, name))
      else Done(st.(
        server := st.server[(db, name) := tables],
        entries := st.entries[db := Entry(name, name, PublicationFor(env.local, db, tables))]))
  }

  function AlterPublication(env: Env, st: State, db: Db, tables: seq<Table>): Outcome
    requires db in st.entries
  {
    var entry := st.entries[db];
    match Validated(env, db, tables, set t | t in entry.publication.tables)
    case Malformed => Raised(st.server)
    case Invalid(error) => Refuse(st, error)
    case Fine =>
      if (db, entry.name) !in st.server then Refuse(st, Missing(db, entry.name))
      else Done(st.(
        server := st.server[(db, entry.name) := tables],
        entries := st.entries[db := entry.(publication := PublicationFor(env.local, db, tables))]))
  }

  function OneRequest(env: Env, st: State, request: Request): Outcome {
    var Request(db, tables) := request;
    var circular := CircularTables(env.local, env.requester, db, tables);
    if circular != {} then Refuse(st, Circular(db, circular))
    else if db !in st.entries then CreatePublication(env, st, db, tables)
    else if multiset(st.entries[db].publication.tables) != multiset(tables) then AlterPublication(env, st, db, tables)
    else Done(st)
  }

  // The outcome after the first k requests.
  function Requested(env: Env, st: State, requests: seq<Request>, k: nat): Outcome
    requires k <= |requests|
  {
    if k == 0 then Done(st)
    else match Requested(env, st, requests, k - 1)
      case Raised(server) => Raised(server)
      case Done(before) => OneRequest(env, before, requests[k - 1])
  }

  // What raises is its result.
  lemma {:induction false} StaysRaised(env: Env, start: State, requests: seq<Request>, k: nat, n: nat)
    requires k <= n <= |requests| && Requested(env, start, requests, k).Raised?
    ensures Requested(env, start, requests, n) == Requested(env, start, requests, k)
    decreases n
  {
    if k == n {
    } else {
      StaysRaised(env, start, requests, k, n - 1);
    }
  }

  function ProcessOffer(env: Env, entries: Entries, server: Server, requests: seq<Request>): Outcome {
    Requested(env, DropRedundant(State(entries, server, []), requests), requests, |requests|)
  }
}
