/** The prefix mapping as the manager keeps it, read from and written back to one secret. */
module DatabaseManager {
  import opened Common
  import opened PrefixMapping

  // A JSON object: one entry for a relation.
  ghost predicate Keyed(m: Mapping) {
    forall i, j :: 0 <= i < j < |m| ==> m[i].relationId != m[j].relationId
  }

  predicate Holds(m: Mapping, relationId: nat) {
    exists i :: 0 <= i < |m| && m[i].relationId == relationId
  }

  // The entry takes the place of its relation's, or the last place.
  function Put(m: Mapping, e: Entry): Mapping {
    if m == [] then [e]
    else if m[0].relationId == e.relationId then [e] + m[1..]
    else [m[0]] + Put(m[1..], e)
  }

  function Dropped(m: Mapping, relationId: nat): Mapping {
    if m == [] then []
    else if m[0].relationId == relationId then m[1..]
    else [m[0]] + Dropped(m[1..], relationId)
  }

  lemma {:induction false} PutEntries(m: Mapping, e: Entry)
    requires Keyed(m)
    ensures Keyed(Put(m, e))
    ensures forall x :: x in Put(m, e) <==> x == e || (x in m && x.relationId != e.relationId)
  {
    if m == [] {
    } else {
      assert m == [m[0]] + m[1..];
      if m[0].relationId != e.relationId {
        PutEntries(m[1..], e);
        var rest := Put(m[1..], e);
        forall j | 0 <= j < |rest| ensures rest[j].relationId != m[0].relationId {
          assert rest[j] in rest;
        }
      }
    }
  }

  lemma {:induction false} DroppedEntries(m: Mapping, relationId: nat)
    requires Keyed(m)
    ensures Keyed(Dropped(m, relationId))
    ensures forall x :: x in Dropped(m, relationId) <==> x in m && x.relationId != relationId
  {
    if m == [] {
    } else {
      assert m == [m[0]] + m[1..];
      if m[0].relationId != relationId {
        DroppedEntries(m[1..], relationId);
        var rest := Dropped(m[1..], relationId);
        forall j | 0 <= j < |rest| ensures rest[j].relationId != m[0].relationId {
          assert rest[j] in rest;
        }
      }
    }
  }

  lemma {:induction false} NothingDropped(m: Mapping, relationId: nat)
    ensures !Holds(m, relationId) ==> Dropped(m, relationId) == m
  {
    if m == [] {
    } else {
      assert m[0].relationId == relationId ==> Holds(m, relationId);
      if Holds(m[1..], relationId) {
        var i :| 0 <= i < |m[1..]| && m[1..][i].relationId == relationId;
        assert m[i + 1].relationId == relationId;
      } else {
        NothingDropped(m[1..], relationId);
      }
    }
  }

  // Replacing or adding an entry keeps the mapping sound exactly when the entry is.
  lemma PutStaysSoundExactly(m: Mapping, e: Entry)
    requires Keyed(m) && AllSound(m)
    ensures AllSound(Put(m, e)) <==> Sound(e)
  {
    PutEntries(m, e);
    var n := Put(m, e);
    forall i | 0 <= i < |n| ensures n[i] == e || Sound(n[i]) { assert n[i] in n; }
    assert e in n;
  }

  lemma UsersFrom(m: Mapping, i: nat, database: string)
    requires i < |m|
    ensures UsersOfPrefix(m[i..], database) ==
      (if StartsWith(database, m[i].prefix) then [m[i].username] else []) + UsersOfPrefix(m[i + 1..], database)
    ensures UsersOfDatabase(m[i..], database) ==
      (if database in m[i].databases then [m[i].username] else []) + UsersOfDatabase(m[i + 1..], database)
  {
  }

  lemma AllExtended(m: Mapping, work: Mapping, database: string)
    requires |work| == |m| && forall j :: 0 <= j < |m| ==> work[j] == Extended(m[j], database)
    ensures work == WithDatabase(m, database)
  {
  }

  class DatabaseManager {
    var mapping: Mapping

    method SetDatabasesPrefixMapping(
      relationId: nat, username: Option<string>, prefix: Option<string>, databases: Option<seq<string>>)
      modifies this
      ensures mapping ==
        if prefix.Some? && prefix.value != "" && username.Some? && username.value != "" && databases.Some? then
          Put(old(mapping), Entry(relationId, prefix.value, username.value, databases.value))
        else if prefix.None? || prefix.value == "" then Dropped(old(mapping), relationId)
        else old(mapping)
    {
      if prefix.Some? && prefix.value != "" && username.Some? && username.value != "" && databases.Some? {
        var e := Entry(relationId, prefix.value, username.value, databases.value);
        mapping := Put(mapping, e);
      } else if (prefix.None? || prefix.value == "") && Holds(mapping, relationId) {
        mapping := Dropped(mapping, relationId);
      } else {
        NothingDropped(mapping, relationId);
      }
    }

    // One turn of the loop below.
    method ExtendEntry(e: Entry, database: string) returns (value: Entry, user: seq<string>)
      ensures value == Extended(e, database)
      ensures user == if StartsWith(database, e.prefix) then [e.username] else []
    {
      value, user := e, [];
      if StartsWith(database, e.prefix) {
        if database !in value.databases {
          value := value.(databases := SortedCopy(value.databases + [database]));
        }
        user := [value.username];
      }
    }

    method AddDatabaseToPrefixMapping(database: string) returns (usernames: seq<string>)
      modifies this
      ensures mapping == WithDatabase(old(mapping), database)
      ensures usernames == UsersOfPrefix(old(mapping), database)
    {
      var stored, work := mapping, mapping;
      usernames := [];
      for i := 0 to |stored|
        invariant |work| == |stored|
        invariant forall j :: 0 <= j < i ==> work[j] == Extended(stored[j], database)
        invariant forall j :: i <= j < |stored| ==> work[j] == stored[j]
        invariant usernames + UsersOfPrefix(stored[i..], database) == UsersOfPrefix(stored, database)
      {
        UsersFrom(stored, i, database);
        var value, user := ExtendEntry(work[i], database);
        work := work[i := value];
        usernames := usernames + user;
      }
      AllExtended(stored, work, database);
      mapping := work;
    }

    method RemoveDatabaseFromPrefixMapping(database: string) returns (usernames: seq<string>)
      modifies this
      ensures mapping == WithoutDatabase(old(mapping), database)
      ensures usernames == UsersOfDatabase(old(mapping), database)
    {
      usernames := [];
      var work := mapping;
      for i := 0 to |mapping|
        invariant mapping == old(mapping) && |work| == |mapping|
        invariant forall j :: 0 <= j < i ==> work[j] == Reduced(mapping[j], database)
        invariant forall j :: i <= j < |mapping| ==> work[j] == mapping[j]
        invariant usernames + UsersOfDatabase(mapping[i..], database) == UsersOfDatabase(mapping, database)
      {
        var value := work[i];
        UsersFrom(mapping, i, database);
        if database in value.databases {
          work := work[i := value.(databases := RemoveFirst(value.databases, database))];
          usernames := usernames + [value.username];
        } else {
          NothingToRemove(value.databases, database);
        }
      }
      mapping := work;
    }
  }
}
