/**
 Asynchronous replication: which of two related clusters is the primary one.

 Each cluster keeps a promoted-cluster-counter in its own peer databag and mirrors it on its side
 of the relation; the other cluster only sees the mirror. An absent counter reads as 0, and a
 counter of 0 promotes nobody.
 */
module AsyncCounters {
  import opened Common

  type App = string

  // One databag visited by the scan; an unreadable databag (a relation left dying) is None.
  datatype Entry = Entry(app: Option<App>, counter: Option<nat>)

  predicate Counts(e: Entry) {
    e.app.Some? && e.counter.Some? && e.counter.value > 0
  }

  // The earliest of the entries whose counter no other entry exceeds.
  ghost predicate IsFirstMaximum(entries: seq<Entry>, i: nat) {
    && i < |entries| && Counts(entries[i])
    && (forall j :: 0 <= j < |entries| && Counts(entries[j]) ==>
          entries[j].counter.value <= entries[i].counter.value)
    && (forall j :: 0 <= j < i && Counts(entries[j]) ==>
          entries[j].counter.value < entries[i].counter.value)
  }

  ghost predicate IsPrimary(entries: seq<Entry>, primary: Option<App>) {
    if primary.None? then forall i :: 0 <= i < |entries| ==> !Counts(entries[i])
    else exists i: nat :: IsFirstMaximum(entries, i) && entries[i].app == primary
  }

  lemma PrimaryIsUnique(entries: seq<Entry>, a: Option<App>, b: Option<App>)
    requires IsPrimary(entries, a) && IsPrimary(entries, b)
    ensures a == b
  {
  }

  // get_primary_cluster, over the databags in the order the scan visits them.
  method GetPrimaryCluster(entries: seq<Entry>) returns (primary: Option<App>)
    ensures IsPrimary(entries, primary)
  {
    primary := None;
    var highest := 0;
    ghost var at := 0;
    for i := 0 to |entries|
      invariant primary.None? ==> highest == 0 && forall j :: 0 <= j < i ==> !Counts(entries[j])
      invariant primary.Some? ==>
        IsFirstMaximum(entries[..i], at) && entries[at].app == primary &&
        highest == entries[at].counter.value
    {
      var e := entries[i];
      if e.app.None? || e.counter.None? {
        continue;
      }
      if e.counter.value > highest {
        highest, primary, at := e.counter.value, e.app, i;
      }
    }
    assert entries[..|entries|] == entries;
  }

  // ---- Two clusters -----------------------------------------------------------------------

  datatype Side = Left | Right

  function Other(s: Side): Side {
    if s.Left? then Right else Left
  }

  function Name(s: Side): App {
    if s.Left? then "left" else "right"
  }

  // A cluster's own counter, and the mirror of it on the relation.
  datatype Counters = Counters(peer: nat, mirror: nat)

  datatype Pair = Pair(left: Counters, right: Counters)

  function Of(p: Pair, s: Side): Counters {
    if s.Left? then p.left else p.right
  }

  function With(p: Pair, s: Side, c: Counters): Pair {
    if s.Left? then p.(left := c) else p.(right := c)
  }

  // What side s scans: the other side's mirror first, then its own peer databag.
  function View(p: Pair, s: Side): seq<Entry> {
    [Entry(Some(Name(Other(s))), Some(Of(p, Other(s)).mirror)), Entry(Some(Name(s)), Some(Of(p, s).peer))]
  }

  // Side s takes `named` for the primary cluster.
  ghost predicate Names(p: Pair, s: Side, named: Option<Side>) {
    IsPrimary(View(p, s), if named.Some? then Some(Name(named.value)) else None)
  }

  ghost predicate Mirrored(p: Pair) {
    p.left.peer == p.left.mirror && p.right.peer == p.right.mirror
  }

  // Whom side s names, spelled out: itself only when strictly ahead of the other's mirror.
  lemma NamesWhom(p: Pair, s: Side)
    ensures Names(p, s, Some(s)) <==> Of(p, s).peer > Of(p, Other(s)).mirror
    ensures Names(p, s, Some(Other(s))) <==>
      Of(p, Other(s)).mirror > 0 && Of(p, Other(s)).mirror >= Of(p, s).peer
    ensures Names(p, s, None) <==> Of(p, s).peer == 0 && Of(p, Other(s)).mirror == 0
  {
    var v := View(p, s);
    assert Name(s) != Name(Other(s)) by { assert |"left"| != |"right"|; }
    forall a, b | IsPrimary(v, a) && IsPrimary(v, b) ensures a == b { PrimaryIsUnique(v, a, b); }
    if Of(p, s).peer > Of(p, Other(s)).mirror {
      assert IsFirstMaximum(v, 1) && v[1].app == Some(Name(s));
    } else if Of(p, Other(s)).mirror > 0 {
      assert IsFirstMaximum(v, 0) && v[0].app == Some(Name(Other(s)));
    }
  }

  /** Mirrored clusters never both take themselves for the primary one, ties included. */
  lemma NeverBothPrimary(p: Pair)
    requires Mirrored(p)
    ensures !(Names(p, Left, Some(Left)) && Names(p, Right, Some(Right)))
  {
    NamesWhom(p, Left);
    NamesWhom(p, Right);
  }

  /** Mirrored clusters name the same one exactly when their counters differ. */
  lemma AgreeExactlyWhenDistinct(p: Pair)
    requires Mirrored(p)
    ensures p.left.peer != p.right.peer <==>
      exists s :: Names(p, Left, Some(s)) && Names(p, Right, Some(s))
    ensures forall s :: Names(p, Left, Some(s)) && Names(p, Right, Some(s)) ==>
      Of(p, s).peer > Of(p, Other(s)).peer
  {
    NamesWhom(p, Left);
    NamesWhom(p, Right);
    var s := if p.left.peer > p.right.peer then Left else Right;
    if p.left.peer != p.right.peer {
      assert Names(p, Left, Some(s)) && Names(p, Right, Some(s));
    }
    forall t | Names(p, Left, Some(t)) && Names(p, Right, Some(t))
      ensures Of(p, t).peer > Of(p, Other(t)).peer
    {
    }
  }

  // update_primary_cluster_data with a counter: written to the relation and to the peers.
  function Promote(p: Pair, s: Side, timestamp: nat): Pair {
    With(p, s, Counters(timestamp, timestamp))
  }

  /** A promotion makes both clusters name the promoter exactly when its timestamp is larger. */
  lemma PromotionWinsExactlyWithALargerTimestamp(p: Pair, s: Side, timestamp: nat)
    requires Mirrored(p)
    ensures var q := Promote(p, s, timestamp);
      Mirrored(q) &&
      (Names(q, Left, Some(s)) && Names(q, Right, Some(s)) <==> timestamp > Of(p, Other(s)).peer)
  {
    var q := Promote(p, s, timestamp);
    NamesWhom(q, s);
    NamesWhom(q, Other(s));
  }

  // ---- Stale promotions -------------------------------------------------------------------

  // A positive counter that no current relation mirrors is stale. `mirrors` are the
  // application's own counters on the current relations, None where the databag is unreadable.
  function KeptCounter(leader: bool, counter: nat, mirrors: seq<Option<nat>>): nat {
    if leader && counter > 0 && Some(counter) !in mirrors then 0 else counter
  }

  /**
   A counter is cleared exactly if it is positive, the unit leads, and no readable databag mirrors
   it, however many relations there are; an unreadable databag or another relation's counter vouches
   for nothing, and a mirror of the counter saves it.
   */
  lemma ClearedExactlyWhenStale(leader: bool, counter: nat, mirrors: seq<Option<nat>>, more: Option<nat>)
    ensures KeptCounter(leader, counter, mirrors) ==
      if leader && forall i :: 0 <= i < |mirrors| && mirrors[i].Some? ==> mirrors[i].value != counter then 0
      else counter
    ensures KeptCounter(leader, counter, mirrors + [more]) ==
      if more == Some(counter) then counter else KeptCounter(leader, counter, mirrors)
  {
    assert (mirrors + [more])[|mirrors|] == more;
    assert forall m :: m in mirrors + [more] <==> m in mirrors || m == more;
  }

  // clear_stale_promotion.
  method ClearStalePromotion(leader: bool, counter: nat, mirrors: seq<Option<nat>>)
    returns (kept: nat)
    ensures kept == KeptCounter(leader, counter, mirrors)
  {
    kept := counter;
    if !leader || counter == 0 {
      return;
    }
    for i := 0 to |mirrors|
      invariant Some(counter) !in mirrors[..i]
    {
      if mirrors[i] == Some(counter) {
        return;
      }
    }
    assert mirrors[..|mirrors|] == mirrors;
    kept := 0;
  }

  function Clear(p: Pair, s: Side): Pair {
    var c := Of(p, s);
    With(p, s, c.(peer := KeptCounter(true, c.peer, [Some(c.mirror)])))
  }

  // The old relation is gone without an event and a new one has formed: it mirrors nothing yet.
  function Reform(p: Pair): Pair {
    Pair(p.left.(mirror := 0), p.right.(mirror := 0))
  }

  /**
   Clearing on both sides restores the mirroring exactly when neither side's relation databag
   holds a counter of its own, different from the peers'; a new relation holds none.
   */
  lemma ClearingRestoresMirroring(p: Pair)
    ensures Mirrored(Clear(Clear(p, Left), Right)) <==>
      (p.left.mirror == 0 || p.left.mirror == p.left.peer) &&
      (p.right.mirror == 0 || p.right.mirror == p.right.peer)
    ensures Mirrored(Clear(Clear(Reform(p), Left), Right))
  {
  }

  /** Without it, two clusters promoted under different dead relations both claim to be primary. */
  lemma ReformedClustersMayBothBePrimary()
    ensures exists p :: Mirrored(p) && var q := Reform(p);
      Names(q, Left, Some(Left)) && Names(q, Right, Some(Right))
  {
    var p := Pair(Counters(1, 1), Counters(2, 2));
    NamesWhom(Reform(p), Left);
    NamesWhom(Reform(p), Right);
    assert Mirrored(p) && Names(Reform(p), Left, Some(Left)) && Names(Reform(p), Right, Some(Right));
  }

  // ---- Runs -------------------------------------------------------------------------------

  // A promotion clears first, as both actions do; a broken relation drops both counters.
  datatype Event = Promoted(s: Side, timestamp: nat) | Cleared(s: Side) | Broken(s: Side) | Reformed

  // The counters, and which sides have cleared since the relation was last formed.
  datatype History = History(pair: Pair, cleared: set<Side>)

  function Happen(h: History, e: Event): History {
    match e
    case Promoted(s, timestamp) =>
      History(Promote(Clear(h.pair, s), s, timestamp), h.cleared + {s})
    case Cleared(s) => History(Clear(h.pair, s), h.cleared + {s})
    case Broken(s) => History(With(h.pair, s, Counters(0, 0)), h.cleared + {s})
    case Reformed => History(Reform(h.pair), {})
  }

  function HappenAll(h: History, events: seq<Event>): History
    decreases |events|
  {
    if events == [] then h else HappenAll(Happen(h, events[0]), events[1..])
  }

  // The last thing that side did about its counter came after the relation was last formed.
  ghost predicate ClearedAt(events: seq<Event>, s: Side, i: nat) {
    i < |events| && !events[i].Reformed? && events[i].s == s && forall j :: i < j < |events| ==> !events[j].Reformed?
  }

  // The record of who has cleared is exact.
  lemma {:induction false} ClearedExactly(h: History, events: seq<Event>, s: Side)
    ensures s in HappenAll(h, events).cleared <==>
      (exists i: nat :: ClearedAt(events, s, i)) ||
      (s in h.cleared && forall j :: 0 <= j < |events| ==> !events[j].Reformed?)
    decreases |events|
  {
    if events == [] {
    } else {
      var rest := events[1..];
      ClearedExactly(Happen(h, events[0]), rest, s);
      forall i: nat ensures ClearedAt(rest, s, i) <==> ClearedAt(events, s, i + 1) {
        if ClearedAt(rest, s, i) {
          assert forall j :: i + 1 < j < |events| ==> events[j] == rest[j - 1];
        }
        if ClearedAt(events, s, i + 1) {
          assert forall j :: i < j < |rest| ==> rest[j] == events[j + 1];
        }
      }
      assert (forall j :: 0 <= j < |rest| ==> !rest[j].Reformed?) <==>
        (forall j :: 1 <= j < |events| ==> !events[j].Reformed?) by {
        assert forall j :: 1 <= j < |events| ==> events[j] == rest[j - 1];
        assert forall j :: 0 <= j < |rest| ==> rest[j] == events[j + 1];
      }
      if i: nat :| ClearedAt(events, s, i) {
        if i > 0 { assert ClearedAt(rest, s, i - 1); }
      }
      if s in Happen(h, events[0]).cleared && s !in h.cleared {
        assert (forall j :: 1 <= j < |events| ==> !events[j].Reformed?) ==> ClearedAt(events, s, 0);
      }
    }
  }

  ghost predicate Sound(h: History) {
    forall s :: (Of(h.pair, s).mirror == 0 || Of(h.pair, s).mirror == Of(h.pair, s).peer) &&
      (s in h.cleared ==> Of(h.pair, s).mirror == Of(h.pair, s).peer)
  }

  lemma {:induction false} RunStaysSound(h: History, events: seq<Event>)
    requires Sound(h)
    ensures Sound(HappenAll(h, events))
    decreases |events|
  {
    if events == [] {
    } else {
      var g := Happen(h, events[0]);
      forall s ensures (Of(g.pair, s).mirror == 0 || Of(g.pair, s).mirror == Of(g.pair, s).peer) &&
        (s in g.cleared ==> Of(g.pair, s).mirror == Of(g.pair, s).peer)
      {
        assert Of(h.pair, s).mirror == 0 || Of(h.pair, s).mirror == Of(h.pair, s).peer;
      }
      RunStaysSound(g, events[1..]);
    }
  }

  /**
   Over any run of promotions, teardowns and new relations, once both sides have cleared or
   promoted since the relation formed, they are never both primary.
   */
  lemma NeverBothPrimaryOverRuns(start: Pair, events: seq<Event>)
    requires Mirrored(start)
    ensures var h := HappenAll(History(start, {Left, Right}), events);
      {Left, Right} <= h.cleared ==>
        !(Names(h.pair, Left, Some(Left)) && Names(h.pair, Right, Some(Right)))
  {
    var h := HappenAll(History(start, {Left, Right}), events);
    RunStaysSound(History(start, {Left, Right}), events);
    if {Left, Right} <= h.cleared {
      assert Left in h.cleared && Right in h.cleared;
      assert h.pair.left == Of(h.pair, Left) && h.pair.right == Of(h.pair, Right);
      NeverBothPrimary(h.pair);
    }
  }
}
