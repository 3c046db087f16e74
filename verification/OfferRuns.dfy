/**
 The publisher over all its offer relations: each run of the reconcile works on one of them, and
 the resources of broken ones are cleaned up.
 */
module OfferRuns {
  import opened LogicalChains
  import opened LogicalRequests
  import opened OfferModel
  import opened OfferProperties

  // The databag of each offer relation, the application's record, and the server.
  datatype Publisher = Publisher(bags: map<nat, Entries>, record: map<nat, Entries>, server: Server)

  function EntriesOf(record: map<nat, Entries>, id: nat): Entries {
    if id in record then record[id] else map[]
  }

  // The publications recorded for relations that are no longer there.
  function StaleNames(record: map<nat, Entries>, active: set<nat>): set<(Db, string)> {
    set id, d | id in record && id !in active && d in record[id] :: (d, record[id][d].name)
  }

  function KeptEntries(record: map<nat, Entries>, active: set<nat>): map<nat, Entries> {
    record - (set id | id in record && id !in active)
  }

  function KeptServer(server: Server, record: map<nat, Entries>, active: set<nat>): Server {
    server - StaleNames(record, active)
  }

  // clean_up_published_resources
  function CleanUp(p: Publisher, active: set<nat>): Publisher {
    Publisher(KeptEntries(p.bags, active), KeptEntries(p.record, active), KeptServer(p.server, p.record, active))
  }

  datatype Step =
    | Related(id: nat)
    | Processed(env: Env, requests: seq<Request>)
    | CleanedUp(active: set<nat>)

  // Relation numbers are not reused, and a reconcile is of an existing relation.
  ghost predicate Possible(p: Publisher, step: Step) {
    match step
    case Related(id) => id !in p.bags && id !in p.record
    case Processed(env, requests) => env.relationId in p.bags && Distinctly(requests)
    case CleanedUp(active) => true
  }

  // A reconcile that raises keeps what it did to the server only.
  function Process(p: Publisher, env: Env, requests: seq<Request>): Publisher
    requires env.relationId in p.bags
  {
    var id := env.relationId;
    match ProcessOffer(env, p.bags[id], p.server, requests)
    case Done(st) => Publisher(p.bags[id := st.entries], p.record[id := st.entries], st.server)
    case Raised(server) => p.(server := server)
  }

  ghost function Next(p: Publisher, step: Step): Publisher
    requires Possible(p, step)
  {
    match step
    case Related(id) => p.(bags := p.bags[id := map[]])
    case Processed(env, requests) => Process(p, env, requests)
    case CleanedUp(active) => CleanUp(p, active)
  }

  // The step is no reconcile that raises after dropping, creating or altering a publication.
  ghost predicate KeepsAgreement(p: Publisher, step: Step)
    requires Possible(p, step)
  {
    step.Processed? ==> !Strands(step.env, p.bags[step.env.relationId], p.server, step.requests)
  }

  // For every relation there is or was: databag, record and server agree.
  ghost predicate Inv(p: Publisher) {
    (forall id :: id in p.bags ==> p.bags[id] == EntriesOf(p.record, id)) &&
    (forall id: nat :: RelationAgrees(p, id))
  }

  ghost predicate RelationAgrees(p: Publisher, id: nat) {
    Agrees(id, State(EntriesOf(p.record, id), p.server, []))
  }

  // What one relation's reconcile leaves alone holds all the others' publications.
  lemma OthersStayInAgreement(env: Env, p: Publisher, q: Publisher, id: nat)
    requires id != env.relationId && RelationAgrees(p, id) && EntriesOf(q.record, id) == EntriesOf(p.record, id)
    requires ForeignUntouched(env, p.server, q.server)
    ensures RelationAgrees(q, id)
  {
    forall d ensures AgreesAt(id, State(EntriesOf(q.record, id), q.server, []), d) {
      assert AgreesAt(id, State(EntriesOf(p.record, id), p.server, []), d);
      if Slots.ResourceName(id, d) == Name(env, d) {
        Slots.NamesAreInjective(id, d, env.relationId, d);
      }
    }
  }

  lemma MineAndTheOthers(env: Env, p: Publisher, q: Publisher)
    requires Inv(p) && ForeignUntouched(env, p.server, q.server)
    requires forall id: nat :: id != env.relationId ==> EntriesOf(q.record, id) == EntriesOf(p.record, id)
    ensures (forall id: nat :: RelationAgrees(q, id)) <==> RelationAgrees(q, env.relationId)
  {
    forall id: nat | id != env.relationId ensures RelationAgrees(q, id) {
      assert RelationAgrees(p, id);
      OthersStayInAgreement(env, p, q, id);
    }
  }

  lemma EndingKeepsInv(p: Publisher, env: Env, requests: seq<Request>)
    requires Inv(p) && env.relationId in p.bags
    requires ProcessOffer(env, p.bags[env.relationId], p.server, requests).Done?
    ensures Inv(Process(p, env, requests))
  {
    var q, id := Process(p, env, requests), env.relationId;
    assert RelationAgrees(p, id);
    OfferKeepsAgreement(env, p.bags[id], p.server, requests);
    var st := ProcessOffer(env, p.bags[id], p.server, requests).state;
    forall d ensures AgreesAt(id, State(st.entries, st.server, []), d) {
      assert AgreesAt(id, st, d);
    }
    MineAndTheOthers(env, p, q);
    assert RelationAgrees(q, id);
  }

  lemma RaisingKeepsInvExactly(p: Publisher, env: Env, requests: seq<Request>)
    requires Inv(p) && Possible(p, Processed(env, requests))
    requires ProcessOffer(env, p.bags[env.relationId], p.server, requests).Raised?
    ensures Inv(Process(p, env, requests)) <==> KeepsAgreement(p, Processed(env, requests))
  {
    var q, id := Process(p, env, requests), env.relationId;
    assert RelationAgrees(p, id);
    RaisesExactly(env, p.bags[id], p.server, requests);
    assert SomeRaises(env, p.bags[id], requests, |requests|);
    var k := SomeRaiseIsFirst(env, p.bags[id], requests, |requests|);
    RaisingKeepsAgreementExactly(env, p.bags[id], p.server, requests, k);
    OnlyOneIsFirst(env, p.bags[id], p.server, requests, k);
    MineAndTheOthers(env, p, q);
    assert RelationAgrees(q, id) <==> Agrees(id, State(p.bags[id], q.server, []));
  }

  lemma OnlyOneIsFirst(env: Env, entries: Entries, server: Server, requests: seq<Request>, k: nat)
    requires FirstRaise(env, entries, requests, k)
    ensures Strands(env, entries, server, requests) <==> !NothingDoneBefore(env, entries, server, requests, k)
  {
    forall n: nat | FirstRaise(env, entries, requests, n) ensures n == k {
    }
  }

  // A reconcile keeps databag, record and server of all relations in agreement exactly if it does
  // not raise after it has dropped, created or altered a publication.
  lemma ProcessingKeepsInvExactly(p: Publisher, env: Env, requests: seq<Request>)
    requires Inv(p) && Possible(p, Processed(env, requests))
    ensures Inv(Process(p, env, requests)) <==> KeepsAgreement(p, Processed(env, requests))
  {
    if ProcessOffer(env, p.bags[env.relationId], p.server, requests).Done? {
      EndingKeepsInv(p, env, requests);
      RaisesExactly(env, p.bags[env.relationId], p.server, requests);
    } else {
      RaisingKeepsInvExactly(p, env, requests);
    }
  }

  lemma StaleNamesAreTheirs(p: Publisher, active: set<nat>, id: nat, d: Db)
    requires forall i: nat :: RelationAgrees(p, i)
    ensures (d, Slots.ResourceName(id, d)) in StaleNames(p.record, active) <==>
      id !in active && d in EntriesOf(p.record, id)
  {
    var name := Slots.ResourceName(id, d);
    if (d, name) in StaleNames(p.record, active) {
      var i, e :| i in p.record && i !in active && e in p.record[i] && (e, p.record[i][e].name) == (d, name);
      assert RelationAgrees(p, i);
      assert AgreesAt(i, State(EntriesOf(p.record, i), p.server, []), d);
      Slots.NamesAreInjective(i, d, id, d);
    }
    if id !in active && d in EntriesOf(p.record, id) {
      assert RelationAgrees(p, id);
      assert AgreesAt(id, State(EntriesOf(p.record, id), p.server, []), d);
    }
  }

  lemma CleaningKeepsInv(p: Publisher, active: set<nat>)
    requires Inv(p)
    ensures Inv(CleanUp(p, active))
  {
    var q := CleanUp(p, active);
    forall id: nat ensures RelationAgrees(q, id) {
      assert RelationAgrees(p, id);
      forall d ensures AgreesAt(id, State(EntriesOf(q.record, id), q.server, []), d) {
        assert AgreesAt(id, State(EntriesOf(p.record, id), p.server, []), d);
        StaleNamesAreTheirs(p, active, id, d);
      }
    }
  }

  lemma StepsKeepInvExactly(p: Publisher, step: Step)
    requires Inv(p) && Possible(p, step)
    ensures Inv(Next(p, step)) <==> KeepsAgreement(p, step)
  {
    match step
    case Related(id) =>
      forall i: nat ensures RelationAgrees(Next(p, step), i) { assert RelationAgrees(p, i); }
    case Processed(env, requests) => ProcessingKeepsInvExactly(p, env, requests);
    case CleanedUp(active) => CleaningKeepsInv(p, active);
  }

  // Runs without such a reconcile.
  ghost predicate PossibleRun(p: Publisher, steps: seq<Step>)
    decreases |steps|
  {
    steps == [] ||
    (Possible(p, steps[0]) && KeepsAgreement(p, steps[0]) && PossibleRun(Next(p, steps[0]), steps[1..]))
  }

  ghost function After(p: Publisher, steps: seq<Step>): Publisher
    requires PossibleRun(p, steps)
    decreases |steps|
  {
    if steps == [] then p else After(Next(p, steps[0]), steps[1..])
  }

  lemma {:induction false} RunsKeepInv(p: Publisher, steps: seq<Step>)
    requires Inv(p) && PossibleRun(p, steps)
    ensures Inv(After(p, steps))
    decreases |steps|
  {
    if steps == [] {
    } else {
      StepsKeepInvExactly(p, steps[0]);
      RunsKeepInv(Next(p, steps[0]), steps[1..]);
    }
  }

  // Nothing published, and no publication of such a name on the server.
  ghost predicate Initial(p: Publisher) {
    p.bags == map[] && p.record == map[] && forall id, d :: (d, Slots.ResourceName(id, d)) !in p.server
  }

  function SlotRecord(record: map<nat, Entries>): Slots.Record {
    map id | id in record :: map d | d in record[id] :: record[id][d].slot
  }

  // Over every run the recorded slots are well named, so replication_slots loses none of them.
  lemma SlotsAreNamedOverRuns(p: Publisher, steps: seq<Step>)
    requires Initial(p) && PossibleRun(p, steps)
    ensures Slots.Named(SlotRecord(After(p, steps).record))
  {
    InitialHolds(p);
    RunsKeepInv(p, steps);
    var q := After(p, steps);
    forall i, d | i in q.record && d in q.record[i]
      ensures SlotRecord(q.record)[i][d] == Slots.ResourceName(i, d)
    {
      assert RelationAgrees(q, i);
      assert AgreesAt(i, State(EntriesOf(q.record, i), q.server, []), d);
    }
  }

  lemma InitialHolds(p: Publisher)
    requires Initial(p)
    ensures Inv(p)
  {
    forall id: nat ensures RelationAgrees(p, id) {
      forall d ensures AgreesAt(id, State(EntriesOf(p.record, id), p.server, []), d) {
      }
    }
  }

  // After a clean-up the server holds no publication of a relation that is gone, and every
  // publication of one that is there as before.
  lemma CleanUpLeavesTheActive(p: Publisher, active: set<nat>, id: nat, d: Db)
    requires Inv(p)
    ensures var k, after := (d, Slots.ResourceName(id, d)), CleanUp(p, active).server;
      (k in after <==> id in active && k in p.server) && (k in after ==> after[k] == p.server[k])
  {
    StaleNamesAreTheirs(p, active, id, d);
    assert RelationAgrees(p, id);
    assert AgreesAt(id, State(EntriesOf(p.record, id), p.server, []), d);
  }

  function Without(server: Server, entries: Entries): Server {
    server - Names(entries, entries.Keys)
  }

  lemma KeepingOneLess(server: Server, record: map<nat, Entries>, active: set<nat>, id: nat)
    requires id in record && id !in active
    ensures Without(KeptServer(server, record, active + {id}), record[id]) == KeptServer(server, record, active)
    ensures KeptEntries(record, active + {id}) - {id} == KeptEntries(record, active)
  {
    forall k ensures k in StaleNames(record, active) <==>
      k in StaleNames(record, active + {id}) || (k.0 in record[id] && record[id][k.0].name == k.1)
    {
    }
  }

  lemma AllKept(record: map<nat, Entries>, server: Server, active: set<nat>)
    ensures KeptEntries(record, active + record.Keys) == record
    ensures KeptServer(server, record, active + record.Keys) == server
  {
    assert StaleNames(record, active + record.Keys) == {};
  }

  lemma OneLess(active: set<nat>, todo: set<nat>, id: nat)
    requires id in todo
    ensures active + todo == active + (todo - {id}) + {id}
    ensures id in active ==> active + todo == active + (todo - {id})
  {
  }

  class PublishedResources {
    var record: map<nat, Entries>
    var server: Server

    method DropPublications(entries: Entries)
      modifies this`server
      ensures server == Without(old(server), entries)
    {
      var todo := entries.Keys;
      ghost var dropped := {};
      while todo != {}
        invariant todo <= entries.Keys && dropped == entries.Keys - todo
        invariant server == old(server) - Names(entries, dropped)
        decreases |todo|
      {
        var db :| db in todo;
        todo := todo - {db};
        OneNameMore(entries, dropped, db);
        dropped := dropped + {db};
        server := server - {(db, entries[db].name)};
      }
      assert dropped == entries.Keys;
    }

    method DropRelation(id: nat)
      requires id in record
      modifies this
      ensures server == Without(old(server), old(record)[id]) && record == old(record) - {id}
    {
      DropPublications(record[id]);
      record := record - {id};
    }

    // What was kept with the relation is kept without it.
    method DropStale(id: nat, ghost stored: map<nat, Entries>, ghost before: Server, ghost rest: set<nat>)
      requires id in stored && id !in rest
      requires record == KeptEntries(stored, rest + {id}) && server == KeptServer(before, stored, rest + {id})
      modifies this
      ensures record == KeptEntries(stored, rest) && server == KeptServer(before, stored, rest)
    {
      KeepingOneLess(before, stored, rest, id);
      DropRelation(id);
    }

    method CleanUpPublishedResources(active: set<nat>)
      modifies this
      ensures record == KeptEntries(old(record), active)
      ensures server == KeptServer(old(server), old(record), active)
    {
      ghost var stored, before := record, server;
      var todo := record.Keys;
      ghost var kept := active + todo;
      AllKept(stored, before, active);
      while todo != {}
        invariant todo <= stored.Keys && kept == active + todo
        invariant record == KeptEntries(stored, kept) && server == KeptServer(before, stored, kept)
        decreases |todo|
      {
        var id :| id in todo;
        OneLess(active, todo, id);
        todo := todo - {id};
        if id !in active {
          kept := active + todo;
          DropStale(id, stored, before, kept);
        }
      }
      assert kept == active;
    }
  }
}
