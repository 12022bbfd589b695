// `Broker::apply`: a checked capture put in place of `acme.db` and of the enrolment file,
// all or nothing. The database swap is one transaction that the enrolment's write may
// still refuse; what fails is a parameter.
module Restore {
  import opened Wrappers

  datatype Section = Acme | Enrolment

  // What the checks let through. `acme` is what replacing the rows makes of the database.
  datatype Checked<!D> = Checked(blocked: set<Section>, acme: Option<D -> D>, enrolment: Option<string>)

  // Whether each call to the outside fails: reading the file, staging the rows in the
  // transaction, writing the file, committing, and putting the file back.
  datatype Failures = Failures(read: bool, stage: bool, write: bool, commit: bool, undo: bool)

  datatype Error = Blocked | Failed

  // The sections a restore would change.
  function Wanted<D>(checked: Checked<D>, chosen: set<Section>): set<Section> {
    (if checked.acme.Some? && Acme in chosen then {Acme} else {})
    + if checked.enrolment.Some? && Enrolment in chosen then {Enrolment} else {}
  }

  // When a restore fails, in terms of what was asked and what goes wrong.
  predicate Fails(wanted: set<Section>, io: Failures) {
    io.read || (Acme in wanted && (io.stage || io.commit)) || (Enrolment in wanted && io.write)
  }

  // When a failure leaves the enrolment changed: both sections were wanted, the file was
  // written, the commit after it failed, and so did putting the file back.
  predicate Torn(wanted: set<Section>, io: Failures) {
    wanted == {Acme, Enrolment} && !io.read && !io.stage && !io.write && io.commit && io.undo
  }

  class State<!D> {
    var db: D
    var enrolment: Option<string> // the file, None when it is not there

    constructor (db: D, enrolment: Option<string>)
      ensures this.db == db && this.enrolment == enrolment
    {
      this.db, this.enrolment := db, enrolment;
    }

    // Succeeds exactly when nothing is blocked and nothing it needs fails, and then
    // changes the wanted sections, those and no others, and reports them. Failing, it
    // changes nothing, unless it is torn.
    method Apply(checked: Checked<D>, chosen: set<Section>, io: Failures) returns (r: Result<set<Section>, Error>)
      modifies this
      ensures r == Err(Blocked) <==> checked.blocked != {}
      ensures r.Ok? <==> checked.blocked == {} && !Fails(Wanted(checked, chosen), io)
      ensures r.Ok? ==>
                && r.value == Wanted(checked, chosen)
                && db == (if Acme in r.value then checked.acme.value(old(db)) else old(db))
                && enrolment == (if Enrolment in r.value then checked.enrolment else old(enrolment))
      ensures r.Err? ==> db == old(db)
      ensures r.Err? ==>
        enrolment ==
        if checked.blocked == {} && Torn(Wanted(checked, chosen), io) then checked.enrolment else old(enrolment)
    {
      if checked.blocked != {} {
        return Err(Blocked);
      }
      var copy := if Acme in chosen then checked.acme else None;
      var file := if Enrolment in chosen then checked.enrolment else None;
      if io.read {
        return Err(Failed);
      }
      var before := enrolment;
      var written, swapped := false, true;
      if copy.Some? {
        written, swapped := ReplaceFrom(copy.value, file, io);
      } else {
        written, swapped := WriteEnrolment(file, io);
      }
      if !swapped {
        if written {
          if io.undo {
            return Err(Failed);
          }
          enrolment := before;
        }
        return Err(Failed);
      }
      var app := {};
      if copy.Some? {
        app := app + {Acme};
      }
      if file.Some? {
        app := app + {Enrolment};
      }
      r := Ok(app);
    }

    // The closure: whether it wrote, and whether it went well.
    method WriteEnrolment(file: Option<string>, io: Failures) returns (written: bool, ok: bool)
      modifies this`enrolment
      ensures ok <==> file == None || !io.write
      ensures written <==> file.Some? && !io.write
      ensures enrolment == if written then file else old(enrolment)
    {
      written, ok := false, true;
      if file.Some? {
        if io.write {
          return false, false;
        }
        enrolment := file;
        written := true;
      }
    }

    // `replace_from`, with that closure before its commit.
    method ReplaceFrom(rows: D -> D, file: Option<string>, io: Failures) returns (written: bool, ok: bool)
      modifies this
      ensures ok <==> !io.stage && !io.commit && (file == None || !io.write)
      ensures written <==> !io.stage && file.Some? && !io.write
      ensures db == if ok then rows(old(db)) else old(db)
      ensures enrolment == if written then file else old(enrolment)
    {
      if io.stage {
        return false, false;
      }
      var staged := rows(db);
      written, ok := WriteEnrolment(file, io);
      if !ok || io.commit {
        ok := false;
        return;
      }
      db := staged;
    }
  }
}
