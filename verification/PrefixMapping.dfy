/**
 The cache of prefixed databases: for each relation that asked for a prefix, the databases that
 start with it.
 */
module PrefixMapping {
  import opened Common

  // ---- Strings, and Python's list.sort ----------------------------------------------------

  predicate StartsWith(s: string, prefix: string) {
    |prefix| <= |s| && s[..|prefix|] == prefix
  }

  lemma StartsExactly(s: string, prefix: string)
    ensures StartsWith(s, prefix) <==> exists rest :: s == prefix + rest
  {
    if StartsWith(s, prefix) { assert s == prefix + s[|prefix|..]; }
  }

  predicate Leq(a: string, b: string) {
    a == "" || (b != "" && (a[0] < b[0] || (a[0] == b[0] && Leq(a[1..], b[1..]))))
  }

  lemma {:induction false} LeqTotal(a: string, b: string)
    ensures Leq(a, b) || Leq(b, a)
    ensures Leq(a, b) && Leq(b, a) ==> a == b
  {
    if a == "" || b == "" {
    } else {
      LeqTotal(a[1..], b[1..]);
      assert a == [a[0]] + a[1..] && b == [b[0]] + b[1..];
    }
  }

  lemma {:induction false} LeqTransitive(a: string, b: string, c: string)
    requires Leq(a, b) && Leq(b, c)
    ensures Leq(a, c)
  {
    if a == "" || a[0] < b[0] || b[0] < c[0] {
    } else {
      LeqTransitive(a[1..], b[1..], c[1..]);
    }
  }

  ghost predicate Sorted(xs: seq<string>) {
    forall i, j :: 0 <= i < j < |xs| ==> Leq(xs[i], xs[j])
  }

  function Inserted(xs: seq<string>, x: string): (r: seq<string>)
    ensures multiset(r) == multiset(xs) + multiset{x}
    ensures forall y :: y in r <==> y == x || y in xs
  {
    if xs == [] then [x]
    else if Leq(x, xs[0]) then
      [x] + xs
    else
      assert xs == [xs[0]] + xs[1..];
      [xs[0]] + Inserted(xs[1..], x)
  }

  lemma {:induction false} InsertedStaysSorted(xs: seq<string>, x: string)
    requires Sorted(xs)
    ensures Sorted(Inserted(xs, x))
  {
    if xs == [] {
    } else {
      LeqTotal(x, xs[0]);
      if Leq(x, xs[0]) {
        forall j | 0 <= j < |xs| ensures Leq(x, xs[j]) {
          if j > 0 { LeqTransitive(x, xs[0], xs[j]); }
        }
      } else {
        InsertedStaysSorted(xs[1..], x);
        var rest := Inserted(xs[1..], x);
        forall j | 0 <= j < |rest| ensures Leq(xs[0], rest[j]) {
          assert rest[j] in rest;
        }
      }
    }
  }

  // A stable sort, one element at a time from the back.
  function SortedCopy(xs: seq<string>): (r: seq<string>)
    ensures multiset(r) == multiset(xs)
  {
    if xs == [] then [] else
    assert xs == xs[..|xs| - 1] + [xs[|xs| - 1]];
    Inserted(SortedCopy(xs[..|xs| - 1]), xs[|xs| - 1])
  }

  lemma {:induction false} SortedCopyIsSorted(xs: seq<string>)
    ensures Sorted(SortedCopy(xs))
  {
    if xs == [] {
    } else {
      SortedCopyIsSorted(xs[..|xs| - 1]);
      InsertedStaysSorted(SortedCopy(xs[..|xs| - 1]), xs[|xs| - 1]);
    }
  }

  // Sorted lists of the same elements are equal, so any correct sort gives this copy.
  lemma {:induction false} SortingIsUnique(xs: seq<string>, ys: seq<string>)
    requires Sorted(xs) && Sorted(ys) && multiset(xs) == multiset(ys)
    ensures xs == ys
  {
    if xs == [] {
      assert |multiset(ys)| == |ys|;
    } else {
      assert |multiset(xs)| == |xs| && |multiset(ys)| == |ys|;
      SameLeast(xs, ys);
      assert xs == [xs[0]] + xs[1..] && ys == [ys[0]] + ys[1..];
      WithoutFirst(xs);
      WithoutFirst(ys);
      SortingIsUnique(xs[1..], ys[1..]);
    }
  }

  lemma SameLeast(xs: seq<string>, ys: seq<string>)
    requires Sorted(xs) && Sorted(ys) && multiset(xs) == multiset(ys) && xs != [] && ys != []
    ensures xs[0] == ys[0]
  {
    assert xs[0] in multiset(ys) && ys[0] in multiset(xs);
    var i :| 0 <= i < |ys| && ys[i] == xs[0];
    var j :| 0 <= j < |xs| && xs[j] == ys[0];
    LeqTotal(xs[0], ys[0]);
  }

  lemma WithoutFirst(xs: seq<string>)
    requires xs != []
    ensures multiset(xs[1..]) == multiset(xs) - multiset{xs[0]}
  {
    assert xs == [xs[0]] + xs[1..];
  }

  // ---- The mapping ------------------------------------------------------------------------

  datatype Entry = Entry(relationId: nat, prefix: string, username: string, databases: seq<string>)

  // The dictionary's values, in its order.
  type Mapping = seq<Entry>

  ghost predicate Sound(e: Entry) {
    Sorted(e.databases) && Distinct(e.databases) && forall d :: d in e.databases ==> StartsWith(d, e.prefix)
  }

  ghost predicate AllSound(m: Mapping) {
    forall i :: 0 <= i < |m| ==> Sound(m[i])
  }

  function Extended(e: Entry, database: string): Entry {
    if StartsWith(database, e.prefix) && database !in e.databases
    then e.(databases := SortedCopy(e.databases + [database])) else e
  }

  function Reduced(e: Entry, database: string): Entry {
    e.(databases := RemoveFirst(e.databases, database))
  }

  function WithDatabase(m: Mapping, database: string): Mapping {
    seq(|m|, i requires 0 <= i < |m| => Extended(m[i], database))
  }

  function WithoutDatabase(m: Mapping, database: string): Mapping {
    seq(|m|, i requires 0 <= i < |m| => Reduced(m[i], database))
  }

  function UsersOfPrefix(m: Mapping, database: string): seq<string> {
    if m == [] then []
    else (if StartsWith(database, m[0].prefix) then [m[0].username] else []) + UsersOfPrefix(m[1..], database)
  }

  function UsersOfDatabase(m: Mapping, database: string): seq<string> {
    if m == [] then []
    else (if database in m[0].databases then [m[0].username] else []) + UsersOfDatabase(m[1..], database)
  }

  // ---- What adding and removing mean ------------------------------------------------------

  lemma ExtendedHolds(e: Entry, database: string)
    requires Sound(e)
    ensures Sound(Extended(e, database))
    ensures forall d :: d in Extended(e, database).databases <==>
      d in e.databases || (d == database && StartsWith(database, e.prefix))
  {
    var r := Extended(e, database);
    if r != e {
      var appended := e.databases + [database];
      SortedCopyIsSorted(appended);
      SameElements(appended, SortedCopy(appended));
      SameDistinct(appended, SortedCopy(appended));
    }
  }

  lemma SameElements(xs: seq<string>, ys: seq<string>)
    requires multiset(xs) == multiset(ys)
    ensures forall y :: y in ys <==> y in xs
  {
    forall y ensures y in ys <==> y in xs {
      assert y in ys <==> y in multiset(ys);
      assert y in xs <==> y in multiset(xs);
    }
  }

  lemma {:induction false} DistinctByCount(xs: seq<string>)
    ensures Distinct(xs) <==> forall y :: multiset(xs)[y] <= 1
  {
    if xs == [] {
    } else {
      DistinctByCount(xs[1..]);
      assert xs == [xs[0]] + xs[1..];
      assert multiset(xs) == multiset{xs[0]} + multiset(xs[1..]);
      if Distinct(xs) {
        forall y ensures multiset(xs)[y] <= 1 {
          assert Distinct(xs[1..]);
          assert xs[0] !in xs[1..];
          assert xs[0] !in multiset(xs[1..]);
        }
      } else {
        var i, j :| 0 <= i < j < |xs| && xs[i] == xs[j];
        if i == 0 {
          assert xs[1..][j - 1] == xs[0];
          assert xs[0] in multiset(xs[1..]);
          assert multiset(xs)[xs[0]] >= 2;
        } else {
          assert xs[1..][i - 1] == xs[1..][j - 1];
          assert !Distinct(xs[1..]);
          var y :| multiset(xs[1..])[y] > 1;
          assert multiset(xs)[y] > 1;
        }
      }
    }
  }

  lemma SameDistinct(xs: seq<string>, ys: seq<string>)
    requires multiset(xs) == multiset(ys) && Distinct(xs)
    ensures Distinct(ys)
  {
    DistinctByCount(xs);
    DistinctByCount(ys);
  }

  lemma ReducedHolds(e: Entry, database: string)
    requires Sound(e)
    ensures Sound(Reduced(e, database))
    ensures forall d :: d in Reduced(e, database).databases <==> d in e.databases && d != database
  {
    RemoveFirstOfDistinct(e.databases, database);
    RemovingStaysSorted(e.databases, database);
  }

  lemma {:induction false} RemovingStaysSorted(xs: seq<string>, x: string)
    requires Sorted(xs)
    ensures Sorted(RemoveFirst(xs, x))
  {
    if xs == [] || xs[0] == x {
    } else {
      RemovingStaysSorted(xs[1..], x);
      var rest := RemoveFirst(xs[1..], x);
      forall j | 0 <= j < |rest| ensures Leq(xs[0], rest[j]) {
        assert rest[j] in rest;
        assert rest[j] in xs[1..];
      }
    }
  }

  lemma MappingsStaySound(m: Mapping, database: string)
    requires AllSound(m)
    ensures AllSound(WithDatabase(m, database)) && AllSound(WithoutDatabase(m, database))
  {
    forall i | 0 <= i < |m|
      ensures Sound(WithDatabase(m, database)[i]) && Sound(WithoutDatabase(m, database)[i])
    {
      ExtendedHolds(m[i], database);
      ReducedHolds(m[i], database);
    }
  }

  lemma AddingTwiceIsAddingOnce(m: Mapping, database: string)
    requires AllSound(m)
    ensures WithDatabase(WithDatabase(m, database), database) == WithDatabase(m, database)
    ensures UsersOfPrefix(WithDatabase(m, database), database) == UsersOfPrefix(m, database)
  {
    forall i | 0 <= i < |m| ensures Extended(Extended(m[i], database), database) == Extended(m[i], database) {
      ExtendedHolds(m[i], database);
    }
    SameUsersOfPrefix(m, WithDatabase(m, database), database);
  }

  /** Whose users are told: those of a fitting prefix, and those of an entry that holds the database. */
  lemma {:induction false} UsersExactly(m: Mapping, database: string)
    ensures forall u :: u in UsersOfPrefix(m, database) <==>
      exists e :: e in m && e.username == u && StartsWith(database, e.prefix)
    ensures forall u :: u in UsersOfDatabase(m, database) <==>
      exists e :: e in m && e.username == u && database in e.databases
  {
    if m == [] {
    } else {
      UsersExactly(m[1..], database);
      assert forall e :: e in m <==> e == m[0] || e in m[1..];
    }
  }

  lemma {:induction false} SameUsersOfPrefix(m: Mapping, n: Mapping, database: string)
    requires |m| == |n| && forall i :: 0 <= i < |m| ==> m[i].prefix == n[i].prefix && m[i].username == n[i].username
    ensures UsersOfPrefix(m, database) == UsersOfPrefix(n, database)
  {
    if m == [] {
    } else {
      SameUsersOfPrefix(m[1..], n[1..], database);
    }
  }

  lemma {:induction false} RemovingAfterAdding(e: Entry, database: string)
    requires Sound(e) && database !in e.databases
    ensures Reduced(Extended(e, database), database) == e
  {
    var x := Extended(e, database);
    ExtendedHolds(e, database);
    ReducedHolds(x, database);
    CountAfterRemoving(x.databases, database);
    var y := Reduced(x, database);
    if x != e {
      assert multiset(y.databases) == multiset(e.databases + [database]) - multiset{database};
      assert multiset(y.databases) == multiset(e.databases);
    }
    SortingIsUnique(y.databases, e.databases);
  }

  lemma {:induction false} CountAfterRemoving(xs: seq<string>, x: string)
    ensures multiset(RemoveFirst(xs, x)) == multiset(xs) - multiset{x}
  {
    if xs == [] {
    } else {
      assert xs == [xs[0]] + xs[1..];
      if xs[0] != x { CountAfterRemoving(xs[1..], x); }
    }
  }

  // Removing undoes adding a database no entry held, for the same users.
  lemma RemovingUndoesAdding(m: Mapping, database: string)
    requires AllSound(m) && forall i :: 0 <= i < |m| ==> database !in m[i].databases
    ensures WithoutDatabase(WithDatabase(m, database), database) == m
    ensures UsersOfDatabase(WithDatabase(m, database), database) == UsersOfPrefix(m, database)
  {
    forall i | 0 <= i < |m| ensures Reduced(Extended(m[i], database), database) == m[i] {
      RemovingAfterAdding(m[i], database);
    }
    AddedUsers(m, WithDatabase(m, database), database);
  }

  lemma {:induction false} AddedUsers(m: Mapping, n: Mapping, database: string)
    requires AllSound(m) && |m| == |n| && forall i :: 0 <= i < |m| ==> n[i] == Extended(m[i], database)
    ensures UsersOfDatabase(n, database) == UsersOfPrefix(m, database)
  {
    if m == [] {
    } else {
      ExtendedHolds(m[0], database);
      assert database in m[0].databases ==> StartsWith(database, m[0].prefix);
      AddedUsers(m[1..], n[1..], database);
    }
  }

  // Adding undoes removing exactly when no entry with a fitting prefix lacked the database.
  lemma AddingUndoesRemovingExactly(m: Mapping, database: string)
    requires AllSound(m)
    ensures WithDatabase(WithoutDatabase(m, database), database) == m <==>
      forall i :: 0 <= i < |m| && StartsWith(database, m[i].prefix) ==> database in m[i].databases
  {
    var back := WithDatabase(WithoutDatabase(m, database), database);
    forall i | 0 <= i < |m|
      ensures back[i] == m[i] <==> (StartsWith(database, m[i].prefix) ==> database in m[i].databases)
    {
      AddingAfterRemoving(m[i], database);
    }
    assert back == m <==> forall i :: 0 <= i < |m| ==> back[i] == m[i];
  }

  lemma AddingAfterRemoving(e: Entry, database: string)
    requires Sound(e)
    ensures Extended(Reduced(e, database), database) == e <==>
      (StartsWith(database, e.prefix) ==> database in e.databases)
  {
    var reduced := Reduced(e, database);
    ReducedHolds(e, database);
    ExtendedHolds(reduced, database);
    var back := Extended(reduced, database);
    if StartsWith(database, e.prefix) {
      if database in e.databases {
        CountAfterRemoving(e.databases, database);
        assert multiset(back.databases) == multiset(reduced.databases + [database]);
        assert database in multiset(e.databases);
        assert multiset(back.databases) == multiset(e.databases);
        SortingIsUnique(back.databases, e.databases);
      } else {
        assert database in back.databases;
      }
    } else {
      assert database !in e.databases;
      NothingToRemove(e.databases, database);
    }
  }

  lemma {:induction false} NothingToRemove(xs: seq<string>, x: string)
    requires x !in xs
    ensures RemoveFirst(xs, x) == xs
  {
    if xs == [] {
    } else {
      NothingToRemove(xs[1..], x);
    }
  }
}
