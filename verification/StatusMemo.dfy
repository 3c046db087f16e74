/**
 The hook-local memo of the cluster status. The clock and the endpoints are the environment: time
 never runs backwards, and a query of the cluster is answered or fails.
 */
module StatusMemo {
  import opened Common

  type Member = string

  const TTL := 1.0

  // cached_at is meaningful only while something is cached.
  datatype Memo = Memo(members: Option<seq<Member>>, cachedAt: real)

  const FRESH := Memo(None, 0.0)

  // What cached reads yield: nothing, or the members cached less than the TTL ago.
  function Cached(memo: Memo, now: real): Option<seq<Member>> {
    if memo.members.None? || now - memo.cachedAt >= TTL then None else memo.members
  }

  // The steps of a run, with the moment they happen at and, for a query, whether there are
  // credentials for it and how the endpoints answer: None is an error. `later` is the clock as read
  // when the answer is stored.
  datatype Step =
    | Status(now: real, later: real, credentials: bool, reply: Option<seq<Member>>)
    | StatusElsewhere(now: real, credentials: bool, reply: Option<seq<Member>>)
    | Invalidate(now: real)

  // What a call returns, and whether it queried the endpoints for it.
  datatype Answer = Answer(members: Option<seq<Member>>, queried: bool)

  // An empty member list is falsy: it is stored, but never served.
  predicate Served(memo: Memo, now: real) {
    Cached(memo, now).Some? && Cached(memo, now).value != []
  }

  function Reply(memo: Memo, step: Step): Answer {
    match step
    case Status(now, _, credentials, reply) =>
      if !credentials then Answer(None, false)
      else if Served(memo, now) then Answer(Cached(memo, now), false)
      else Answer(reply, true)
    case StatusElsewhere(_, credentials, reply) => if credentials then Answer(reply, true) else Answer(None, false)
    case Invalidate(_) => Answer(None, false)
  }

  function Next(memo: Memo, step: Step): Memo {
    match step
    case Status(now, later, credentials, reply) =>
      if !credentials || Served(memo, now) || reply.None? then memo else Memo(reply, later)
    case StatusElsewhere(_, _, _) => memo
    case Invalidate(_) => FRESH
  }

  function At(steps: seq<Step>, k: nat): Memo
    requires k <= |steps|
  {
    if k == 0 then FRESH else Next(At(steps, k - 1), steps[k - 1])
  }

  // The end of a step: the last time it reads the clock.
  function End(step: Step): real {
    if step.Status? then step.later else step.now
  }

  ghost predicate Clocked(steps: seq<Step>) {
    (forall i :: 0 <= i < |steps| ==> steps[i].now <= End(steps[i])) &&
    (forall i, j :: 0 <= i < j < |steps| ==> End(steps[i]) <= steps[j].now)
  }

  // Step i queried this cluster and stored what it answered.
  ghost predicate Fetched(steps: seq<Step>, i: nat)
    requires i < |steps|
  {
    steps[i].Status? && Reply(At(steps, i), steps[i]) == Answer(steps[i].reply, true) && steps[i].reply.Some?
  }

  // Nothing dropped or replaced the memo between step i and step k.
  ghost predicate Undisturbed(steps: seq<Step>, i: nat, k: nat)
    requires i < k <= |steps|
  {
    forall j {:trigger steps[j]} :: i < j < k ==> !steps[j].Invalidate? && !Fetched(steps, j)
  }

  // What is in the memo is the latest answer fetched from this cluster.
  lemma {:induction false} MemoHoldsTheLatestFetch(steps: seq<Step>, k: nat) returns (i: nat)
    requires k <= |steps| && At(steps, k).members.Some?
    ensures i < k && Fetched(steps, i) && Undisturbed(steps, i, k)
    ensures At(steps, k) == Memo(steps[i].reply, steps[i].later)
    decreases k
  {
    var before, step := At(steps, k - 1), steps[k - 1];
    if Fetched(steps, k - 1) {
      i := k - 1;
    } else {
      i := MemoHoldsTheLatestFetch(steps, k - 1);
      forall j | i < j < k ensures !steps[j].Invalidate? && !Fetched(steps, j) {
        assert j < k - 1 || j == k - 1;
      }
    }
  }

  // Every answer served without a query is the latest fetch, younger than the TTL, with no
  // invalidation since; it is never empty.
  lemma ServedAnswersAreFresh(steps: seq<Step>, k: nat) returns (i: nat)
    requires Clocked(steps) && k < |steps| && steps[k].Status?
    requires !Reply(At(steps, k), steps[k]).queried && Reply(At(steps, k), steps[k]).members.Some?
    ensures i < k && Fetched(steps, i) && Undisturbed(steps, i, k)
    ensures Reply(At(steps, k), steps[k]).members == steps[i].reply && steps[i].reply != Some([])
    ensures 0.0 <= steps[k].now - steps[i].later < TTL
  {
    i := MemoHoldsTheLatestFetch(steps, k);
    assert End(steps[i]) <= steps[k].now;
  }

  // And the other way: with a non-empty fetch that young and undisturbed, no query is made.
  lemma FreshFetchesAreServed(steps: seq<Step>, i: nat, k: nat)
    requires i < k < |steps| && steps[k].Status? && steps[k].credentials
    requires Fetched(steps, i) && Undisturbed(steps, i, k)
    requires steps[i].reply != Some([]) && steps[k].now - steps[i].later < TTL
    ensures Reply(At(steps, k), steps[k]) == Answer(steps[i].reply, false)
  {
    MemoIsKept(steps, i, k);
  }

  lemma {:induction false} MemoIsKept(steps: seq<Step>, i: nat, k: nat)
    requires i < k <= |steps| && Fetched(steps, i) && Undisturbed(steps, i, k)
    ensures At(steps, k) == Memo(steps[i].reply, steps[i].later)
    decreases k
  {
    if i == k - 1 {
    } else {
      MemoIsKept(steps, i, k - 1);
      assert !steps[k - 1].Invalidate? && !Fetched(steps, k - 1);
    }
  }

  // Polls a second or more apart are each answered by the endpoints.
  lemma SpacedPollsAreNeverMemoized(steps: seq<Step>, k: nat)
    requires Clocked(steps) && k < |steps| && steps[k].Status? && steps[k].credentials
    requires forall i :: 0 <= i < k && steps[i].Status? ==> steps[k].now - End(steps[i]) >= TTL
    ensures Reply(At(steps, k), steps[k]) == Answer(steps[k].reply, true)
  {
    if !Reply(At(steps, k), steps[k]).queried {
      var i := ServedAnswersAreFresh(steps, k);
      assert false;
    }
  }

  // A query of other endpoints is answered by them, whatever the run before it left in the memo; like
  // any query it needs credentials.
  lemma OtherClustersAnswerThemselves(steps: seq<Step>, others: seq<Step>, k: nat, n: nat)
    requires k < |steps| && n < |others| && steps[k].StatusElsewhere? && others[n] == steps[k]
    ensures var answer := Reply(At(steps, k), steps[k]);
      answer == Reply(At(others, n), others[n]) && answer.queried == steps[k].credentials &&
      answer.members == if steps[k].credentials then steps[k].reply else None
  {
  }

  // Without credentials nothing is asked and nothing is served, not even from the memo, which stays;
  // an invalidation asks nothing either.
  lemma NoCredentialsNoAnswer(steps: seq<Step>, k: nat)
    requires k < |steps| && (steps[k].Invalidate? || !steps[k].credentials)
    ensures Reply(At(steps, k), steps[k]) == Answer(None, false)
    ensures At(steps, k + 1) == if steps[k].Invalidate? then FRESH else At(steps, k)
  {
  }

  // A query of other endpoints leaves every later answer as it would be without it.
  lemma {:induction false} OtherClustersLeaveNoTrace(steps: seq<Step>, e: nat, k: nat)
    requires e < |steps| && steps[e].StatusElsewhere? && e < k <= |steps|
    ensures At(steps, k) == At(steps[..e] + steps[e + 1..], k - 1)
    decreases k
  {
    var rest := steps[..e] + steps[e + 1..];
    if k == e + 1 {
      SamePrefix(steps, rest, e);
    } else {
      OtherClustersLeaveNoTrace(steps, e, k - 1);
      assert rest[k - 2] == steps[k - 1];
    }
  }

  lemma {:induction false} SamePrefix(a: seq<Step>, b: seq<Step>, k: nat)
    requires k <= |a| && k <= |b| && a[..k] == b[..k]
    ensures At(a, k) == At(b, k)
    decreases k
  {
    if k == 0 {
    } else {
      assert a[k - 1] == a[..k][k - 1] == b[k - 1];
      assert a[..k - 1] == a[..k][..k - 1] == b[..k - 1];
      SamePrefix(a, b, k - 1);
    }
  }

  class PatroniManager {
    // The cached_at field is minus infinity while nothing is cached; it is not read then.
    var cache: Option<seq<Member>>
    var cachedAt: real

    function Snapshot(): Memo
      reads this
    {
      if cache.None? then FRESH else Memo(cache, cachedAt)
    }

    constructor ()
      ensures Snapshot() == FRESH
    {
      cache := None;
      cachedAt := 0.0;
    }

    method CachedClusterStatus(now: real) returns (members: Option<seq<Member>>)
      ensures members == Cached(Snapshot(), now)
    {
      if cache.None? {
        return None;
      }
      if now - cachedAt >= TTL {
        return None;
      }
      return cache;
    }

    method InvalidateClusterStatusCache()
      modifies this
      ensures Snapshot() == FRESH
    {
      cache := None;
      cachedAt := 0.0;
    }

    // None where the source raises RetryError.
    method ClusterStatus(step: Step) returns (members: Option<seq<Member>>)
      requires !step.Invalidate?
      modifies this
      ensures members == Reply(old(Snapshot()), step).members
      ensures Snapshot() == Next(old(Snapshot()), step)
    {
      if !step.credentials {
        return None;
      }
      if step.Status? {
        var cached := CachedClusterStatus(step.now);
        if cached.Some? && cached.value != [] {
          return cached;
        }
      }
      if step.reply.Some? && step.Status? {
        cache := step.reply;
        cachedAt := step.later;
      }
      return step.reply;
    }
  }
}
