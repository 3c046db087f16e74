/** The S3 initialisation as the hooks run it, over the application and unit databags. */
module S3Manager {
  import opened S3Markers

  class BackupManager {
    var app: Marks
    var units: map<Unit, Marks>

    function Snapshot(): State
      reads this
    {
      State(app, units)
    }

    method SetFailure(u: Unit, leader: bool, message: string)
      modifies this
      ensures Snapshot() == Initialise(old(Snapshot()), u, leader, Fails(message))
    {
      if leader {
        app := app.(block := message);
        app := app.(start := "");
        app := app.(stanza := "");
      } else {
        var own := Of(Snapshot(), u);
        own := own.(block := message);
        own := own.(done := "True");
        own := own.(stanza := "");
        units := units[u := own];
      }
    }

    method InitialiseStanza(u: Unit, leader: bool, attempt: Attempt) returns (ok: bool)
      modifies this
      ensures ok == attempt.Succeeds?
      ensures !ok ==> Snapshot() == Initialise(old(Snapshot()), u, leader, attempt)
      ensures ok && leader ==> app == old(app).(stanza := attempt.stanza) && units == old(units)
      ensures ok && !leader ==>
        app == old(app) && units == old(units)[u := Of(old(Snapshot()), u).(stanza := attempt.stanza)]
    {
      match attempt {
        case GivesUp => return false;
        case Fails(message) =>
          SetFailure(u, leader, message);
          return false;
        case Succeeds(stanza) =>
          if leader {
            app := app.(stanza := stanza);
          } else {
            units := units[u := Of(Snapshot(), u).(stanza := stanza)];
          }
          return true;
      }
    }

    method InitialiseS3Repository(u: Unit, leader: bool, attempt: Attempt) returns (ok: bool)
      modifies this
      ensures ok == attempt.Succeeds?
      ensures Snapshot() == Initialise(old(Snapshot()), u, leader, attempt)
    {
      ok := InitialiseStanza(u, leader, attempt);
      if !ok {
        return;
      }
      // The check that follows closes the attempt.
      if leader {
        app := app.(start := "");
      } else {
        units := units[u := Of(Snapshot(), u).(done := "True")];
      }
    }

    method CoordinateStanzaFields(leader: bool, order: seq<Unit>)
      modifies this`app
      ensures Snapshot() == Coordinate(old(Snapshot()), leader, order)
    {
      if !leader || app.start == "" {
        return;
      }
      if app.done != "" {
        app := Marks(app.stanza, "", "True", app.block);
        return;
      }
      for i := 0 to |order|
        invariant app == old(app)
        invariant FirstReport(old(Snapshot()), order) == FirstReport(old(Snapshot()), order[i..])
      {
        var data := Of(Snapshot(), order[i]);
        if data.done == "" {
          continue;
        }
        app := Marks(data.stanza, "", "True", data.block);
        break;
      }
    }

    method HandleS3Initialization(u: Unit, leader: bool, primary: bool, order: seq<Unit>, attempt: Attempt)
      modifies this
      ensures Snapshot() == ChangeRelation(old(Snapshot()), u, leader, primary, order, attempt)
    {
      CoordinateStanzaFields(leader, order);
      if app.start != "" && Of(Snapshot(), u).done == "" && primary {
        var ok := InitialiseS3Repository(u, leader, attempt);
        if !ok {
          return;
        }
      }
      if app.done != "" && !leader {
        units := units[u := CLEARED];
      }
    }
  }
}
