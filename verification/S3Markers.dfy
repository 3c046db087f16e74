/**
 S3 repository initialisation: the leader opens a round, the primary reports its outcome in its own
 unit databag, and the leader copies the report to the application databag.
 */
module S3Markers {
  import opened Common

  type Unit = string

  // The four keys, in the application databag or in a unit's. An empty value is an absent key.
  datatype Marks = Marks(stanza: string, start: string, done: string, block: string)

  const CLEARED := Marks("", "", "", "")

  datatype State = State(app: Marks, units: map<Unit, Marks>)

  function Of(st: State, u: Unit): Marks {
    if u in st.units then st.units[u] else CLEARED
  }

  function WithUnit(st: State, u: Unit, marks: Marks): State {
    st.(units := st.units[u := marks])
  }

  // How an attempt ends: it finds a foreign block and gives up, or fails with a message, or creates
  // and checks the stanza. An attempt that raises commits nothing and is no step.
  datatype Attempt = GivesUp | Fails(message: string) | Succeeds(stanza: string)

  predicate Proper(attempt: Attempt) {
    (attempt.Fails? ==> attempt.message != "") && (attempt.Succeeds? ==> attempt.stanza != "")
  }

  // ---- The operations ---------------------------------------------------------------------

  // reset_s3_initialization_markers
  function Reset(st: State, leader: bool, now: string): State {
    if leader then st.(app := Marks("", now, "", "")) else st
  }

  // initialise_s3_repository
  function Initialise(st: State, u: Unit, leader: bool, attempt: Attempt): State {
    match attempt
    case GivesUp => st
    case Fails(message) =>
      if leader then st.(app := st.app.(block := message, start := "", stanza := ""))
      else WithUnit(st, u, Of(st, u).(block := message, done := "True", stanza := ""))
    case Succeeds(stanza) =>
      if leader then st.(app := st.app.(stanza := stanza, start := ""))
      else WithUnit(st, u, Of(st, u).(stanza := stanza, done := "True"))
  }

  // The first unit, in the order given, that has reported.
  function FirstReport(st: State, order: seq<Unit>): (r: Option<Unit>)
    ensures r.Some? ==> r.value in order && Of(st, r.value).done != ""
    ensures r.None? ==> forall u :: u in order ==> Of(st, u).done == ""
  {
    if order == [] then None
    else if Of(st, order[0]).done != "" then Some(order[0])
    else FirstReport(st, order[1..])
  }

  function Copied(st: State, from: Marks): State {
    st.(app := Marks(from.stanza, "", "True", from.block))
  }

  // coordinate_stanza_fields
  function Coordinate(st: State, leader: bool, order: seq<Unit>): State {
    if !leader || st.app.start == "" then st
    else if st.app.done != "" then Copied(st, st.app)
    else match FirstReport(st, order)
      case None => st
      case Some(u) => Copied(st, Of(st, u))
  }

  // A reported unit is cleared once the application has a report, unless it leads.
  function CleanUp(st: State, u: Unit, leader: bool): State {
    if st.app.done != "" && !leader then WithUnit(st, u, CLEARED) else st
  }

  // ---- The hooks --------------------------------------------------------------------------

  // Who leads and who is primary may differ from hook to hook.
  datatype Step =
    | CredentialsChanged(unit: Unit, leader: bool, primary: bool, now: string, attempt: Attempt)
    | CredentialsGone(unit: Unit, leader: bool)
    | RelationChanged(unit: Unit, leader: bool, primary: bool, order: seq<Unit>, attempt: Attempt)
    | StatusUpdated(unit: Unit, leader: bool, order: seq<Unit>)
    | RestoreStarted(unit: Unit)
    | RestoreFinished(unit: Unit, complaint: Option<string>)

  function ChangeCredentials(st: State, u: Unit, leader: bool, primary: bool, now: string, attempt: Attempt): State {
    var reset := Reset(st, leader, now);
    if primary && Of(st, u).done == "" then Initialise(reset, u, leader, attempt) else reset
  }

  // An unsuccessful attempt ends the hook before the clean-up.
  function ChangeRelation(st: State, u: Unit, leader: bool, primary: bool, order: seq<Unit>, attempt: Attempt): State {
    var st1 := Coordinate(st, leader, order);
    if st1.app.start != "" && Of(st1, u).done == "" && primary then
      var st2 := Initialise(st1, u, leader, attempt);
      if attempt.Succeeds? then CleanUp(st2, u, leader) else st2
    else CleanUp(st1, u, leader)
  }

  function Clear(st: State, u: Unit, leader: bool): State {
    WithUnit(if leader then st.(app := CLEARED) else st, u, CLEARED)
  }

  function FinishRestore(st: State, complaint: Option<string>): State {
    if complaint.None? then st else st.(app := Marks("", "", "", complaint.value))
  }

  function Next(st: State, step: Step): State {
    match step
    case CredentialsChanged(u, leader, primary, now, attempt) => ChangeCredentials(st, u, leader, primary, now, attempt)
    case CredentialsGone(u, leader) => Clear(st, u, leader)
    case RelationChanged(u, leader, primary, order, attempt) => ChangeRelation(st, u, leader, primary, order, attempt)
    case StatusUpdated(_, leader, order) => Coordinate(st, leader, order)
    case RestoreStarted(_) => st.(app := st.app.(block := ""))
    case RestoreFinished(_, complaint) => FinishRestore(st, complaint)
  }

  predicate ProperStep(step: Step) {
    match step
    case CredentialsChanged(_, _, _, now, attempt) => now != "" && Proper(attempt)
    case RelationChanged(_, _, _, _, attempt) => Proper(attempt)
    case _ => true
  }

  // ---- What every run keeps ---------------------------------------------------------------

  // An open round holds nothing else, and no databag holds a stanza and a block together.
  ghost predicate Inv(st: State) {
    (st.app.start != "" ==> st.app.block == "" && st.app.done == "" && st.app.stanza == "") &&
    !(st.app.stanza != "" && st.app.block != "") &&
    forall u :: u in st.units ==>
      !(st.units[u].stanza != "" && st.units[u].block != "") &&
      (st.units[u].block != "" ==> st.units[u].done != "")
  }

  lemma InitialisingKeepsInv(st: State, u: Unit, leader: bool, attempt: Attempt)
    requires Inv(st) && Proper(attempt)
    requires if leader then st.app.start != "" else Of(st, u).done == ""
    ensures Inv(Initialise(st, u, leader, attempt))
  {
  }

  lemma CoordinatingKeepsInv(st: State, leader: bool, order: seq<Unit>)
    requires Inv(st)
    ensures Inv(Coordinate(st, leader, order))
  {
  }

  lemma StepsKeepInv(st: State, step: Step)
    requires Inv(st) && ProperStep(step)
    ensures Inv(Next(st, step))
  {
    match step
    case CredentialsChanged(u, leader, primary, now, attempt) =>
      if primary && Of(st, u).done == "" {
        InitialisingKeepsInv(Reset(st, leader, now), u, leader, attempt);
      }
    case RelationChanged(u, leader, primary, order, attempt) =>
      CoordinatingKeepsInv(st, leader, order);
      var st1 := Coordinate(st, leader, order);
      if st1.app.start != "" && Of(st1, u).done == "" && primary {
        InitialisingKeepsInv(st1, u, leader, attempt);
      }
    case StatusUpdated(_, leader, order) => CoordinatingKeepsInv(st, leader, order);
    case _ =>
  }

  function At(st: State, steps: seq<Step>, k: nat): State
    requires k <= |steps|
  {
    if k == 0 then st else Next(At(st, steps, k - 1), steps[k - 1])
  }

  lemma {:induction false} RunsKeepInv(st: State, steps: seq<Step>, k: nat)
    requires Inv(st) && k <= |steps| && forall i :: 0 <= i < |steps| ==> ProperStep(steps[i])
    ensures Inv(At(st, steps, k))
    decreases k
  {
    if k == 0 {
    } else {
      RunsKeepInv(st, steps, k - 1);
      StepsKeepInv(At(st, steps, k - 1), steps[k - 1]);
    }
  }

  // ---- What each hook does ----------------------------------------------------------------

  // The first unit of the order that has reported.
  ghost predicate ReportsFirst(st: State, order: seq<Unit>, i: nat) {
    i < |order| && Of(st, order[i]).done != "" && forall j :: 0 <= j < i ==> Of(st, order[j]).done == ""
  }

  lemma {:induction false} FirstReportExactly(st: State, order: seq<Unit>, i: nat)
    requires ReportsFirst(st, order, i)
    ensures FirstReport(st, order) == Some(order[i])
  {
    if i == 0 {
    } else {
      FirstReportExactly(st, order[1..], i - 1);
    }
  }

  // The leader's coordination: an open round is closed with the first report of a unit; a round that
  // already holds an outcome is closed with that. Otherwise nothing changes, and no unit's marks do.
  lemma CoordinatesExactly(st: State, leader: bool, order: seq<Unit>, i: nat)
    ensures var after := Coordinate(st, leader, order);
      after.units == st.units &&
      (leader && st.app.start != "" && st.app.done != "" ==> after.app == st.app.(start := "", done := "True")) &&
      (leader && st.app.start != "" && st.app.done == "" && ReportsFirst(st, order, i) ==>
        after.app == Of(st, order[i]).(start := "", done := "True")) &&
      (!leader || st.app.start == "" || (st.app.done == "" && forall u :: u in order ==> Of(st, u).done == "") ==>
        after == st)
  {
    if ReportsFirst(st, order, i) { FirstReportExactly(st, order, i); }
  }

  // The unit attempts in its relation-changed hook, on what the coordination left.
  ghost predicate Tries(st: State, u: Unit, primary: bool) {
    primary && st.app.start != "" && Of(st, u).done == ""
  }

  /**
   A relation-changed hook after its coordination: who attempts, where the outcome goes, and when the
   unit's report is cleared. A failed attempt ends the hook before that.
   */
  lemma RelationHooksExactly(
    st: State, u: Unit, leader: bool, primary: bool, order: seq<Unit>, attempt: Attempt)
    ensures var before := Coordinate(st, leader, order);
      var after := ChangeRelation(st, u, leader, primary, order, attempt);
      var tries, fails := Tries(before, u, primary), Tries(before, u, primary) && !attempt.Succeeds?;
      (forall v :: v != u ==> Of(after, v) == Of(before, v)) &&
      (leader ==> Of(after, u) == Of(before, u)) && (!leader || !tries ==> after.app == before.app) &&
      (!leader && !fails && before.app.done != "" ==> Of(after, u) == CLEARED) &&
      (!leader && (fails || before.app.done == "") ==>
        Of(after, u) == if tries then Marked(Of(before, u), attempt) else Of(before, u)) &&
      (leader && tries ==> after.app == (if attempt.GivesUp? then before.app
        else Marked(before.app, attempt).(start := "", done := before.app.done)))
  {
  }

  // The marks with which an attempt is reported.
  function Marked(marks: Marks, attempt: Attempt): Marks {
    match attempt
    case GivesUp => marks
    case Fails(message) => Marks("", marks.start, "True", message)
    case Succeeds(stanza) => Marks(stanza, marks.start, "True", marks.block)
  }

  /**
   The other hooks: credentials that go take the unit's marks with them and, on the leader, the
   application's; a restore that starts drops the block, and one that ends with a complaint leaves
   it as the only mark of the application.
   */
  lemma OtherHooksExactly(st: State, u: Unit, leader: bool, complaint: Option<string>)
    ensures var gone := Next(st, CredentialsGone(u, leader));
      Of(gone, u) == CLEARED && gone.app == (if leader then CLEARED else st.app) &&
      forall v :: v != u ==> Of(gone, v) == Of(st, v)
    ensures Next(st, RestoreStarted(u)) == st.(app := st.app.(block := ""))
    ensures var finished := Next(st, RestoreFinished(u, complaint));
      finished.units == st.units &&
      finished.app == if complaint.Some? then CLEARED.(block := complaint.value) else st.app
  {
  }

  // ---- Whose outcome a round is closed with -----------------------------------------------

  // At this step the unit, not leading, attempts and reports.
  ghost predicate ReportsAt(st: State, steps: seq<Step>, k: nat, u: Unit)
    requires k < |steps|
  {
    var step := steps[k];
    step.unit == u && (step.CredentialsChanged? || step.RelationChanged?) && !step.leader && step.primary &&
    !step.attempt.GivesUp? &&
    Of(At(st, steps, k), u).done == "" && Of(At(st, steps, k + 1), u) ==
      if step.attempt.Fails? then Of(At(st, steps, k), u).(block := step.attempt.message, done := "True", stanza := "")
      else Of(At(st, steps, k), u).(stanza := step.attempt.stanza, done := "True")
  }

  lemma UnitMarksChange(st: State, step: Step, u: Unit)
    ensures var before, after := Of(st, u), Of(Next(st, step), u);
      after == before || after == CLEARED ||
      (step.unit == u && (step.CredentialsChanged? || step.RelationChanged?) && !step.leader && step.primary &&
       !step.attempt.GivesUp? && before.done == "" && after ==
         if step.attempt.Fails? then before.(block := step.attempt.message, done := "True", stanza := "")
         else before.(stanza := step.attempt.stanza, done := "True"))
  {
  }

  // A marker that was not there at the start was put there by a report, and is still that report.
  lemma {:induction false} MarkersAreReports(st: State, steps: seq<Step>, n: nat, u: Unit) returns (k: nat)
    requires n <= |steps| && Of(st, u).done == "" && Of(At(st, steps, n), u).done != ""
    ensures k < n && ReportsAt(st, steps, k, u)
    ensures Of(At(st, steps, n), u) == Of(At(st, steps, k + 1), u)
    decreases n
  {
    UnitMarksChange(At(st, steps, n - 1), steps[n - 1], u);
    if Of(At(st, steps, n), u) == Of(At(st, steps, n - 1), u) {
      k := MarkersAreReports(st, steps, n - 1, u);
    } else {
      k := n - 1;
    }
  }

  // Whenever a round opened with no marker left over is closed by copying, it is with a report made
  // since it opened.
  lemma RoundsCloseWithTheirOwnReports(st: State, steps: seq<Step>, n: nat, order: seq<Unit>) returns (u: Unit, k: nat)
    requires n <= |steps| && Inv(At(st, steps, n))
    requires forall v :: Of(st, v).done == ""
    requires Coordinate(At(st, steps, n), true, order) != At(st, steps, n)
    ensures k < n && ReportsAt(st, steps, k, u)
    ensures var app := Coordinate(At(st, steps, n), true, order).app;
      app.stanza == Of(At(st, steps, k + 1), u).stanza && app.block == Of(At(st, steps, k + 1), u).block &&
      app.start == "" && app.done == "True"
  {
    u := FirstReport(At(st, steps, n), order).value;
    k := MarkersAreReports(st, steps, n, u);
  }

  // Opening a round leaves unit markers alone, and one left over closes the round at once with the
  // outcome of an earlier attempt. So the leader that opens a round can close it with nothing new
  // exactly when some unit still holds a marker.
  lemma RoundsCloseAtOnceExactlyOnLeftovers(st: State, leader: Unit, now: string, order: seq<Unit>)
    requires now != ""
    ensures var round := Next(st, CredentialsChanged(leader, true, false, now, GivesUp));
      Coordinate(round, true, order) != round <==> exists u :: u in order && Of(st, u).done != ""
    ensures var round := Next(st, CredentialsChanged(leader, true, false, now, GivesUp));
      var closed := Coordinate(round, true, order);
      closed != round ==> exists u :: (u in order && Of(st, u).done != "" &&
        closed.app == Marks(Of(st, u).stanza, "", "True", Of(st, u).block))
  {
  }

  // A primary that takes over leadership after reporting is itself such a unit: it no longer
  // attempts, and its old report answers for the new credentials.
  lemma LeadingReportersAnswerStale(st: State, u: Unit, now: string, attempt: Attempt, order: seq<Unit>)
    requires now != "" && order != [] && order[0] == u && Of(st, u).done != ""
    ensures var round := Next(st, CredentialsChanged(u, true, true, now, attempt));
      round.app == Marks("", now, "", "") &&
      Next(round, RelationChanged(u, true, true, order, attempt)).app ==
        Marks(Of(st, u).stanza, "", "True", Of(st, u).block)
  {
  }

  ghost function Outcome(attempt: Attempt): (r: (string, string)) {
    match attempt
    case Fails(message) => ("", message)
    case Succeeds(stanza) => (stanza, "")
    case GivesUp => ("", "")
  }

  // A round from its opening to its clean-up: the leader opens it, the primary attempts and
  // reports, the leader copies the report, and the primary's databag is cleared.
  lemma RoundsComeToAnEnd(
    st: State, leader: Unit, primary: Unit, now: string, attempt: Attempt, order: seq<Unit>, later: Attempt)
    requires Inv(st) && leader != primary && now != "" && Proper(attempt) && !attempt.GivesUp?
    requires primary in order && forall u :: u in order ==> Of(st, u) == CLEARED
    ensures
      var st1 := Next(st, CredentialsChanged(leader, true, false, now, GivesUp));
      var st2 := Next(st1, RelationChanged(primary, false, true, order, attempt));
      var st3 := Next(st2, RelationChanged(leader, true, false, order, later));
      var st4 := Next(st3, RelationChanged(primary, false, true, order, later));
      Of(st2, primary).done == "True" && st2.app == st1.app &&
      st4.app == Marks(Outcome(attempt).0, "", "True", Outcome(attempt).1) &&
      forall u :: u in order ==> Of(st4, u) == CLEARED
  {
    var st1 := Next(st, CredentialsChanged(leader, true, false, now, GivesUp));
    assert forall u :: Of(st1, u) == Of(st, u);
    var st2 := Next(st1, RelationChanged(primary, false, true, order, attempt));
    assert forall u :: u in order && u != primary ==> Of(st2, u) == CLEARED;
    assert Of(st2, primary) == Marks(Outcome(attempt).0, "", "True", Outcome(attempt).1);
    assert FirstReport(st2, order) == Some(primary);
  }

  // A primary that does not lead reports in the credentials-changed hook too, in its own databag
  // only; the leader's next hook then closes the open round with that report, if it is the first.
  lemma PrimariesReportAtOnce(
    st: State, leader: Unit, u: Unit, now: string, attempt: Attempt, order: seq<Unit>, later: Attempt)
    requires Of(st, u).done == "" && !attempt.GivesUp?
    ensures var reported := Next(st, CredentialsChanged(u, false, true, now, attempt));
      Of(reported, u) == Of(st, u).(stanza := Outcome(attempt).0, done := "True",
        block := if attempt.Fails? then Outcome(attempt).1 else Of(st, u).block) &&
      reported.app == st.app && (forall v :: v != u ==> Of(reported, v) == Of(st, v)) &&
      (Inv(st) && st.app.start != "" && FirstReport(reported, order) == Some(u) ==>
        Next(reported, RelationChanged(leader, true, false, order, later)).app ==
          Marks(Outcome(attempt).0, "", "True", Outcome(attempt).1))
  {
  }

  // A leader that is also primary closes its round in the hook that opens it.
  lemma LeadingPrimariesCloseAtOnce(st: State, u: Unit, now: string, attempt: Attempt)
    requires now != "" && Of(st, u).done == "" && !attempt.GivesUp?
    ensures Next(st, CredentialsChanged(u, true, true, now, attempt)) ==
      st.(app := Marks(Outcome(attempt).0, "", "", Outcome(attempt).1))
  {
  }
}
