/**
 Rounds of S3 initialisation end: with a fixed leader and a fixed primary, and credentials that stay,
 every run in which both keep getting hooks closes an open round.
 */
module S3Progress {
  import opened S3Markers

  // The hooks of a run in which `leader` leads and `primary` is primary throughout. Restores are
  // started and finished by the leader.
  ghost predicate Roles(step: Step, leader: Unit, primary: Unit) {
    match step
    case CredentialsChanged(u, l, p, _, _) => (l <==> u == leader) && (p <==> u == primary)
    case RelationChanged(u, l, p, _, _) => (l <==> u == leader) && (p <==> u == primary)
    case CredentialsGone(_, _) => false
    case StatusUpdated(u, l, _) => l <==> u == leader
    case RestoreStarted(u) => u == leader
    case RestoreFinished(u, _) => u == leader
  }

  ghost predicate Follows(trace: nat -> State, steps: nat -> Step, leader: Unit, primary: Unit, i: nat) {
    ProperStep(steps(i)) && Roles(steps(i), leader, primary) && trace(i + 1) == Next(trace(i), steps(i))
  }

  ghost predicate IsRun(trace: nat -> State, steps: nat -> Step, leader: Unit, primary: Unit) {
    forall i: nat :: Follows(trace, steps, leader, primary, i)
  }

  // A relation-changed hook of the primary whose attempt, if it makes one, comes to a result.
  ghost predicate AttemptsAt(steps: nat -> Step, primary: Unit, i: nat) {
    steps(i).RelationChanged? && steps(i).unit == primary && !steps(i).attempt.GivesUp?
  }

  // A hook of the leader that coordinates, with the primary among the peers.
  ghost predicate CoordinatesAt(steps: nat -> Step, leader: Unit, primary: Unit, i: nat) {
    (steps(i).RelationChanged? || steps(i).StatusUpdated?) && steps(i).unit == leader && primary in steps(i).order
  }

  ghost predicate Attempts(steps: nat -> Step, primary: Unit, i: nat) {
    exists j: nat :: j >= i && AttemptsAt(steps, primary, j)
  }

  ghost predicate Coordinates(steps: nat -> Step, leader: Unit, primary: Unit, i: nat) {
    exists j: nat :: j >= i && CoordinatesAt(steps, leader, primary, j)
  }

  ghost predicate Fair(steps: nat -> Step, leader: Unit, primary: Unit) {
    forall i: nat :: Attempts(steps, primary, i) && Coordinates(steps, leader, primary, i)
  }

  ghost predicate Open(st: State) {
    st.app.start != ""
  }

  ghost predicate Reported(st: State, primary: Unit) {
    Of(st, primary).done != ""
  }

  // While the round stays open a report stays.
  lemma ReportsStay(st: State, step: Step, leader: Unit, primary: Unit)
    requires Inv(st) && Roles(step, leader, primary) && Open(st) && Open(Next(st, step)) && Reported(st, primary)
    ensures Reported(Next(st, step), primary)
  {
    UnitMarksChange(st, step, primary);
  }

  // The primary's hook reports or closes the round.
  lemma AttemptsReport(st: State, step: Step, leader: Unit, primary: Unit)
    requires Inv(st) && Roles(step, leader, primary) && Open(st)
    requires step.RelationChanged? && step.unit == primary && !step.attempt.GivesUp?
    ensures Open(Next(st, step)) ==> Reported(Next(st, step), primary)
  {
  }

  // The leader's hook closes it once the primary has reported.
  lemma CoordinationCloses(st: State, step: Step, leader: Unit, primary: Unit)
    requires Inv(st) && Roles(step, leader, primary) && Open(st) && Reported(st, primary)
    requires (step.RelationChanged? || step.StatusUpdated?) && step.unit == leader && primary in step.order
    ensures !Open(Next(st, step))
  {
    assert FirstReport(st, step.order).Some?;
    assert Coordinate(st, true, step.order).app.start == "";
  }

  lemma {:induction false} InvAt(
    trace: nat -> State, steps: nat -> Step, leader: Unit, primary: Unit, i: nat, j: nat)
    requires IsRun(trace, steps, leader, primary) && Inv(trace(i)) && i <= j
    ensures Inv(trace(j))
    decreases j - i
  {
    if i == j {
    } else {
      InvAt(trace, steps, leader, primary, i, j - 1);
      assert Follows(trace, steps, leader, primary, j - 1);
      StepsKeepInv(trace(j - 1), steps(j - 1));
    }
  }

  ghost predicate OpenUntil(trace: nat -> State, i: nat, j: nat) {
    forall k: nat :: i <= k <= j ==> Open(trace(k))
  }

  lemma {:induction false} ReportedAt(
    trace: nat -> State, steps: nat -> Step, leader: Unit, primary: Unit, i: nat, j: nat)
    requires IsRun(trace, steps, leader, primary) && Inv(trace(i)) && i <= j
    requires OpenUntil(trace, i, j) && Reported(trace(i), primary)
    ensures Reported(trace(j), primary)
    decreases j - i
  {
    if i == j {
    } else {
      ReportedAt(trace, steps, leader, primary, i, j - 1);
      InvAt(trace, steps, leader, primary, i, j - 1);
      assert Follows(trace, steps, leader, primary, j - 1);
      ReportsStay(trace(j - 1), steps(j - 1), leader, primary);
    }
  }

  /** Every fair run closes an open round, whatever marks are left over and whoever else runs hooks. */
  lemma EveryRoundCloses(trace: nat -> State, steps: nat -> Step, leader: Unit, primary: Unit, n: nat)
    returns (k: nat)
    requires IsRun(trace, steps, leader, primary) && Fair(steps, leader, primary) && Inv(trace(n))
    ensures k >= n && !Open(trace(k))
  {
    assert Attempts(steps, primary, n);
    var i: nat :| i >= n && AttemptsAt(steps, primary, i);
    assert Coordinates(steps, leader, primary, i + 1);
    var j: nat :| j >= i + 1 && CoordinatesAt(steps, leader, primary, j);
    if OpenUntil(trace, n, j) {
      InvAt(trace, steps, leader, primary, n, i);
      assert Follows(trace, steps, leader, primary, i) && Follows(trace, steps, leader, primary, j);
      AttemptsReport(trace(i), steps(i), leader, primary);
      InvAt(trace, steps, leader, primary, n, i + 1);
      ReportedAt(trace, steps, leader, primary, i + 1, j);
      InvAt(trace, steps, leader, primary, n, j);
      CoordinationCloses(trace(j), steps(j), leader, primary);
      k := j + 1;
    } else {
      k :| n <= k <= j && !Open(trace(k));
    }
  }
}
