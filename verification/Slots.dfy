/**
 Names of the logical replication resources, and the replication slots handed to Patroni.
 */
module Slots {
  import opened Common

  type Db = string

  // ---- Names ------------------------------------------------------------------------------

  function Digit(d: nat): (c: char)
    requires d < 10
    ensures c != '_'
  {
    "0123456789"[d]
  }

  function Decimal(n: nat): (s: string)
    ensures |s| > 0 && '_' !in s
  {
    if n < 10 then [Digit(n)] else Decimal(n / 10) + [Digit(n % 10)]
  }

  // The publication, the subscription and the slot of a relation and database share one name.
  function ResourceName(relationId: nat, database: Db): string {
    "relation_" + Decimal(relationId) + "_" + database
  }

  lemma {:induction false} DecimalIsInjective(m: nat, n: nat)
    requires Decimal(m) == Decimal(n)
    ensures m == n
  {
    var s, t := Decimal(m), Decimal(n);
    assert s[|s| - 1] == Digit(m % 10) && t[|t| - 1] == Digit(n % 10);
    if m < 10 || n < 10 {
    } else {
      assert Decimal(m / 10) == s[..|s| - 1] == t[..|t| - 1] == Decimal(n / 10);
      DecimalIsInjective(m / 10, n / 10);
    }
  }

  lemma NamesAreInjective(i: nat, a: Db, j: nat, b: Db)
    requires ResourceName(i, a) == ResourceName(j, b)
    ensures i == j && a == b
  {
    var p := "relation_";
    assert Decimal(i) + "_" + a == ResourceName(i, a)[|p|..];
    assert Decimal(j) + "_" + b == ResourceName(j, b)[|p|..];
    Separated(Decimal(i), a, Decimal(j), b, '_');
    DecimalIsInjective(i, j);
  }

  // ---- The published slots ----------------------------------------------------------------

  // The application's record of published resources: the slot name of every relation and database.
  type Record = map<nat, map<Db, string>>

  ghost predicate Named(record: Record) {
    forall i, d :: i in record && d in record[i] ==> record[i][d] == ResourceName(i, d)
  }

  ghost function Entries(record: Record): set<(nat, Db)> {
    set i, d | i in record && d in record[i] :: (i, d)
  }

  // Every entry's name is there, and every name there is some entry's for the database it maps to.
  ghost predicate SlotsOf(record: Record, slots: map<string, Db>) {
    (forall i, d :: i in record && d in record[i] ==> record[i][d] in slots) &&
    (forall s :: s in slots ==> exists i :: i in record && slots[s] in record[i] && record[i][slots[s]] == s)
  }

  // A dictionary built by a double loop, a later entry of the same name replacing an earlier one.
  method ReplicationSlots(record: Record) returns (slots: map<string, Db>)
    ensures SlotsOf(record, slots)
  {
    slots := map[];
    var ids := record.Keys;
    while ids != {}
      invariant ids <= record.Keys
      invariant forall i, d :: i in record && i !in ids && d in record[i] ==> record[i][d] in slots
      invariant forall s :: s in slots ==> exists i :: i in record && slots[s] in record[i] && record[i][slots[s]] == s
      decreases |ids|
    {
      var i :| i in ids;
      var dbs := record[i].Keys;
      while dbs != {}
        invariant dbs <= record[i].Keys
        invariant forall j, d :: j in record && j !in ids && d in record[j] ==> record[j][d] in slots
        invariant forall d :: d in record[i] && d !in dbs ==> record[i][d] in slots
        invariant forall s :: s in slots ==>
          exists j :: j in record && slots[s] in record[j] && record[j][slots[s]] == s
        decreases |dbs|
      {
        var d :| d in dbs;
        slots := slots[record[i][d] := d];
        dbs := dbs - {d};
      }
      ids := ids - {i};
    }
  }

  // Names being injective, no entry is replaced.
  lemma EntryKeepsItsSlot(record: Record, slots: map<string, Db>, i: nat, d: Db)
    requires Named(record) && SlotsOf(record, slots) && i in record && d in record[i]
    ensures record[i][d] in slots && slots[record[i][d]] == d
  {
    var s := record[i][d];
    var j :| j in record && slots[s] in record[j] && record[j][slots[s]] == s;
    NamesAreInjective(i, d, j, slots[s]);
  }

  lemma NoSlotIsLost(record: Record, slots: map<string, Db>)
    requires Named(record) && SlotsOf(record, slots)
    ensures |slots| == |Entries(record)|
  {
    forall s | s in slots ensures exists e :: e in Entries(record) && record[e.0][e.1] == s {
      var i :| i in record && slots[s] in record[i] && record[i][slots[s]] == s;
      assert (i, slots[s]) in Entries(record);
    }
    OnePerEntry(record, Entries(record), slots.Keys);
    assert |slots| == |slots.Keys|;
  }

  lemma {:induction false} OnePerEntry(record: Record, entries: set<(nat, Db)>, names: set<string>)
    requires Named(record) && entries <= Entries(record)
    requires forall s :: s in names <==> exists e :: e in entries && record[e.0][e.1] == s
    ensures |names| == |entries|
    decreases entries
  {
    if entries == {} {
      assert names == {};
    } else {
      var e :| e in entries;
      var s := record[e.0][e.1];
      forall e' | e' in entries - {e} ensures record[e'.0][e'.1] != s {
        if record[e'.0][e'.1] == s { NamesAreInjective(e.0, e.1, e'.0, e'.1); }
      }
      OnePerEntry(record, entries - {e}, names - {s});
    }
  }

  // ---- Patroni's slots --------------------------------------------------------------------

  type Slot = map<string, string>

  function LogicalSlot(database: Db): Slot {
    map["database" := database, "plugin" := "pgoutput", "type" := "logical"]
  }

  type Patch = map<string, Option<Slot>>

  // A null for every slot Patroni has, then an object for every slot it should have.
  function PatchFor(current: set<string>, slots: map<string, Db>): Patch {
    map s | s in current + slots.Keys :: if s in slots then Some(LogicalSlot(slots[s])) else None
  }

  method SlotsPatch(current: set<string>, slots: map<string, Db>) returns (patch: Patch)
    ensures patch == PatchFor(current, slots)
  {
    patch := map s | s in current :: None;
    var todo := slots.Keys;
    while todo != {}
      invariant todo <= slots.Keys
      invariant patch == PatchFor(current, map s | s in slots && s !in todo :: slots[s])
      decreases |todo|
    {
      var s :| s in todo;
      patch := patch[s := Some(LogicalSlot(slots[s]))];
      todo := todo - {s};
    }
    assert (map s | s in slots && s !in todo :: slots[s]) == slots;
  }

  // Patroni's PATCH: a null deletes, an object is merged into what is there.
  function Patched(config: map<string, Slot>, patch: Patch): map<string, Slot> {
    map s | s in config.Keys + patch.Keys && !(s in patch && patch[s].None?) ::
      var before: Slot := if s in config then config[s] else map[];
      if s in patch then before + patch[s].value else before
  }

  predicate IsLogicalSlot(slot: Slot, database: Db) {
    "database" in slot && slot["database"] == database &&
    "plugin" in slot && slot["plugin"] == "pgoutput" &&
    "type" in slot && slot["type"] == "logical"
  }

  // `read` is the configuration the patch was made from, `config` the one it meets. Nothing of
  // what was read outlives the patch unless it is published; attributes set by others survive.
  lemma PatchedSlotNames(read: set<string>, config: map<string, Slot>, slots: map<string, Db>)
    ensures Patched(config, PatchFor(read, slots)).Keys == slots.Keys + (config.Keys - read)
    ensures config.Keys <= read ==> Patched(config, PatchFor(read, slots)).Keys == slots.Keys
  {
  }

  lemma PatchedSlot(read: set<string>, config: map<string, Slot>, slots: map<string, Db>, s: string)
    requires s in slots
    ensures var after := Patched(config, PatchFor(read, slots));
      s in after && IsLogicalSlot(after[s], slots[s]) &&
      forall k :: s in config && k in config[s] && k !in {"database", "plugin", "type"} ==>
        k in after[s] && after[s][k] == config[s][k]
  {
  }

  // From the application's record to Patroni: every entry has its slot, and with nobody else at
  // work there is no other.
  lemma PatroniHoldsEveryEntry(
    record: Record, slots: map<string, Db>, read: set<string>, config: map<string, Slot>, i: nat, d: Db)
    requires Named(record) && SlotsOf(record, slots) && i in record && d in record[i]
    ensures var after := Patched(config, PatchFor(read, slots));
      record[i][d] in after && IsLogicalSlot(after[record[i][d]], d)
  {
    EntryKeepsItsSlot(record, slots, i, d);
    PatchedSlot(read, config, slots, record[i][d]);
  }

  lemma PatroniHoldsNothingElse(record: Record, slots: map<string, Db>, read: set<string>, config: map<string, Slot>)
    requires Named(record) && SlotsOf(record, slots) && config.Keys <= read
    ensures |Patched(config, PatchFor(read, slots)).Keys| == |Entries(record)|
  {
    NoSlotIsLost(record, slots);
    PatchedSlotNames(read, config, slots);
  }
}
