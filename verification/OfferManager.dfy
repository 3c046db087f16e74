/** The publisher's reconcile as it runs, over the databags and the server it writes. */
module OfferManager {
  import opened LogicalChains
  import opened LogicalRequests
  import opened OfferModel

  class LogicalReplicationOffer {
    // This application's side of the relation databag.
    var publications: Entries
    var errors: seq<Error>
    // The published resources in the application's peer databag, by relation.
    var record: map<nat, Entries>
    // PostgreSQL.
    var server: Server

    method ValidateNewPublication(env: Env, db: Db, tables: seq<Table>, published: seq<Table>)
      returns (verdict: Verdict)
      ensures verdict == Validated(env, db, tables, set t | t in published)
    {
      if db !in env.databases {
        return Invalid(NoDatabase(db));
      }
      for i := 0 to |tables|
        invariant Validated(env, db, tables, set t | t in published) ==
          TablesVerdict(env, db, tables[i..], set t | t in published)
      {
        if tables[i] in published {
          continue;
        }
        match SchemaAndTable(tables[i]) {
          case None => return Malformed;
          case Some((schema, table)) =>
            if (db, schema, table) !in env.tables {
              return Invalid(NoTable(db, tables[i]));
            }
        }
      }
      return Fine;
    }

    method CreateNewPublication(env: Env, st: State, db: Db, tables: seq<Table>) returns (outcome: Outcome)
      requires server == st.server
      modifies this`server
      ensures outcome == CreatePublication(env, st, db, tables)
      ensures server == if outcome.Done? then outcome.state.server else outcome.server
    {
      var none: seq<Table> := [];
      var verdict := ValidateNewPublication(env, db, tables, none);
      assert (set t | t in none) == {};
      if verdict.Malformed? {
        return Raised(server);
      }
      if verdict.Invalid? {
        return Refuse(st, verdict.error);
      }
      var name := Name(env, db);
      if (db, name) in server {
        return Refuse(st, Conflict(db, name));
      }
      server := server[(db, name) := tables];
      var chains := BuildReplicationChains(env.local, db, tables);
      return Done(st.(server := server,
        entries := st.entries[db := Entry(name, name, Publication(tables, chains))]));
    }

    method AlterExistingPublication(env: Env, st: State, db: Db, tables: seq<Table>) returns (outcome: Outcome)
      requires server == st.server && db in st.entries
      modifies this`server
      ensures outcome == AlterPublication(env, st, db, tables)
      ensures server == if outcome.Done? then outcome.state.server else outcome.server
    {
      var entry := st.entries[db];
      var verdict := ValidateNewPublication(env, db, tables, entry.publication.tables);
      if verdict.Malformed? {
        return Raised(server);
      }
      if verdict.Invalid? {
        return Refuse(st, verdict.error);
      }
      if (db, entry.name) !in server {
        return Refuse(st, Missing(db, entry.name));
      }
      server := server[(db, entry.name) := tables];
      var chains := BuildReplicationChains(env.local, db, tables);
      return Done(st.(server := server,
        entries := st.entries[db := entry.(publication := Publication(tables, chains))]));
    }

    method DropRedundantPublications(requests: seq<Request>) returns (entries: Entries)
      modifies this`server
      ensures State(entries, server, []) == DropRedundant(State(publications, old(server), []), requests)
    {
      var stored := publications;
      entries := stored;
      var todo := stored.Keys;
      ghost var before, redundant := server, {};
      while todo != {}
        invariant todo <= stored.Keys && redundant == Redundant(stored, requests) - todo
        invariant entries == stored - redundant && server == before - Names(stored, redundant)
        decreases |todo|
      {
        var db :| db in todo;
        OneSeen(Redundant(stored, requests), todo, db);
        todo := todo - {db};
        if Requests(requests, db) {
          continue;
        }
        OneFewer(stored, before, redundant, db);
        redundant := redundant + {db};
        server := server - {(db, entries[db].name)};
        entries := entries - {db};
      }
      assert redundant == Redundant(stored, requests);
    }

    // Both writes that follow every served request.
    method Save(env: Env, entries: Entries)
      modifies this`publications, this`record
      ensures publications == entries && record == old(record)[env.relationId := entries]
    {
      record := record[env.relationId := entries];
      publications := entries;
    }

    method ReconcileOne(env: Env, st: State, request: Request) returns (outcome: Outcome)
      requires server == st.server
      modifies this`server
      ensures outcome == OneRequest(env, st, request)
      ensures server == if outcome.Done? then outcome.state.server else outcome.server
    {
      var Request(db, tables) := request;
      var circular := CheckPublisherCircularReplication(env.local, env.requester, db, tables);
      if circular != {} {
        return Refuse(st, Circular(db, circular));
      }
      if db !in st.entries {
        outcome := CreateNewPublication(env, st, db, tables);
      } else if multiset(st.entries[db].publication.tables) != multiset(tables) {
        outcome := AlterExistingPublication(env, st, db, tables);
      } else {
        outcome := Done(st);
      }
    }

    method Reconcile(env: Env, requests: seq<Request>) returns (outcome: Outcome)
      modifies this`publications, this`record, this`server
      ensures outcome == ProcessOffer(env, old(publications), old(server), requests)
      ensures server == if outcome.Done? then outcome.state.server else outcome.server
      ensures record - {env.relationId} == old(record) - {env.relationId}
    {
      var entries := DropRedundantPublications(requests);
      var st := State(entries, server, []);
      ghost var start := st;
      for i := 0 to |requests|
        invariant Requested(env, start, requests, i) == Done(st) && server == st.server
        invariant record - {env.relationId} == old(record) - {env.relationId}
      {
        outcome := ReconcileOne(env, st, requests[i]);
        if outcome.Raised? {
          StaysRaised(env, start, requests, i + 1, |requests|);
          return;
        }
        // A refused request is passed over without saving.
        if |outcome.state.errors| == |st.errors| {
          Save(env, outcome.state.entries);
        }
        st := outcome.state;
      }
      return Done(st);
    }

    // The hook: what it wrote to the databags is discarded if it raises.
    method Run(env: Env, requests: seq<Request>) returns (raised: bool)
      modifies this
      ensures match ProcessOffer(env, old(publications), old(server), requests)
        case Done(st) => (!raised && publications == st.entries && errors == st.errors &&
          record == old(record)[env.relationId := st.entries] && server == st.server)
        case Raised(left) => (raised && publications == old(publications) && errors == old(errors) &&
          record == old(record) && server == left)
    {
      var before := (publications, record);
      var outcome := Reconcile(env, requests);
      if outcome.Raised? {
        publications, record := before.0, before.1;
        return true;
      }
      ghost var others := record - {env.relationId};
      Save(env, outcome.state.entries);
      assert record == others[env.relationId := outcome.state.entries];
      assert old(record)[env.relationId := outcome.state.entries] == others[env.relationId := outcome.state.entries];
      errors := outcome.state.errors;
      return false;
    }
  }
}
