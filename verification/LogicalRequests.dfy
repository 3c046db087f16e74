/** Subscription requests: which tables of which databases a subscriber asks its publisher for. */
module LogicalRequests {
  import opened Common
  import opened LogicalChains

  datatype Request = Request(db: Db, tables: seq<Table>)

  // A JSON object: no database is requested twice.
  ghost predicate Distinctly(requests: seq<Request>) {
    forall i, j :: 0 <= i < j < |requests| ==> requests[i].db != requests[j].db
  }

  predicate Requests(requests: seq<Request>, db: Db) {
    exists i :: 0 <= i < |requests| && requests[i].db == db
  }

  function Lookup(requests: seq<Request>, db: Db): (r: Option<seq<Table>>)
    ensures r.Some? <==> Requests(requests, db)
    ensures r.Some? ==> Request(db, r.value) in requests
  {
    if requests == [] then None
    else if requests[0].db == db then
      assert requests[0] == Request(db, requests[0].tables);
      Some(requests[0].tables)
    else
      assert requests == [requests[0]] + requests[1..];
      assert forall i :: 1 <= i < |requests| ==> requests[i] == requests[1..][i - 1];
      Lookup(requests[1..], db)
  }

  function Databases(requests: seq<Request>): set<Db> {
    set r | r in requests :: r.db
  }

  function AsMap(requests: seq<Request>): map<Db, seq<Table>> {
    map d | d in Databases(requests) :: Lookup(requests, d).value
  }

  // Python's `schema, table = name.split(".")`, which raises unless there is exactly one dot.
  function SchemaAndTable(name: string): (r: Option<(string, string)>)
    ensures r.Some? ==> name == r.value.0 + "." + r.value.1 && '.' !in r.value.0 && '.' !in r.value.1
  {
    if name == "" then None
    else if name[0] == '.' then
      assert name == "." + name[1..];
      (if '.' in name[1..] then None else Some(("", name[1..])))
    else match SchemaAndTable(name[1..])
      case None => None
      case Some((schema, table)) =>
        assert name == [name[0]] + (schema + "." + table);
        Some(([name[0]] + schema, table))
  }

  // The name of this table of this schema; a name with more dots is nobody's.
  ghost predicate Spells(name: string, schema: string, table: string) {
    name == schema + "." + table && '.' !in schema && '.' !in table
  }

  lemma SplitsItsNames(name: string)
    ensures forall schema, table :: Spells(name, schema, table) <==> SchemaAndTable(name) == Some((schema, table))
  {
    forall schema, table | Spells(name, schema, table) ensures SchemaAndTable(name) == Some((schema, table)) {
      SplitsAtTheOnlyDot(schema, table);
    }
  }

  lemma {:induction false} SplitsAtTheOnlyDot(schema: string, table: string)
    requires '.' !in schema && '.' !in table
    ensures SchemaAndTable(schema + "." + table) == Some((schema, table))
  {
    var name := schema + "." + table;
    if schema == "" {
      assert name[1..] == table;
    } else {
      SplitsAtTheOnlyDot(schema[1..], table);
      assert name[1..] == schema[1..] + "." + table;
      assert name[0] == schema[0] && schema[0] in schema;
      assert schema == [schema[0]] + schema[1..];
    }
  }
}
