/** Progress reports on a class session: required fields, then an insert
    whose foreign-key failure is answered 404 and whose other failures are
    answered 500. No caller check is made. */
module ProgressReportController {
  import opened Base
  import opened Store

  /** The request body of createProgressReport. */
  datatype ReportInput = ReportInput(
    classId: Option<Id>,
    topicsCovered: Option<string>,
    strengths: Option<string>,
    areasForImprovement: Option<string>,
    homework: Option<string>)

  /** Every field but the homework recommendation is truthy. */
  predicate HasRequiredFields(r: ReportInput) {
    r.classId.Some? && Present(r.topicsCovered) && Present(r.strengths) && Present(r.areasForImprovement)
  }

  /** Whether the class already has its report (progress_reports.class_id is
      unique). */
  predicate Reported(reports: map<Id, ProgressReport>, classId: Id) {
    exists k :: k in reports && reports[k].classId == classId
  }

  /** createProgressReport. A missing class violates the foreign key (404);
      a second report for a class violates the unique constraint, which the
      handler does not single out (500). */
  function CreateProgressReportStep(t: Tables, r: ReportInput): (res: Reply)
    ensures !HasRequiredFields(r) ==> res == Reply(BadRequest(MissingFields), t)
    ensures HasRequiredFields(r) && r.classId.value !in t.classes ==> res == Reply(NotFound, t)
    ensures HasRequiredFields(r) && r.classId.value in t.classes && Reported(t.progressReports, r.classId.value) ==>
      res == Reply(ServerError, t)
    ensures res.status == Created <==>
      HasRequiredFields(r) && r.classId.value in t.classes && !Reported(t.progressReports, r.classId.value)
    ensures res.status == Created ==>
      res.db == t.(progressReports := t.progressReports[t.nextId :=
                     ProgressReport(r.classId.value, r.topicsCovered.value, r.strengths.value, r.areasForImprovement.value, r.homework)],
                   nextId := t.nextId + 1)
  {
    if !HasRequiredFields(r) then Reply(BadRequest(MissingFields), t)
    else if r.classId.value !in t.classes then Reply(NotFound, t)
    else if Reported(t.progressReports, r.classId.value) then Reply(ServerError, t)
    else
      var row := ProgressReport(r.classId.value, r.topicsCovered.value, r.strengths.value, r.areasForImprovement.value, r.homework);
      Reply(Created, t.(progressReports := t.progressReports[t.nextId := row], nextId := t.nextId + 1))
  }

  /** The createProgressReport handler on the shared database. */
  method CreateProgressReport(db: Database, r: ReportInput) returns (st: Status, reportId: Option<Id>)
    modifies db
    ensures Reply(st, db.Snapshot()) == CreateProgressReportStep(old(db.Snapshot()), r)
    ensures reportId.Some? <==> st == Created
    ensures reportId.Some? ==> reportId.value == old(db.nextId)
  {
    if !HasRequiredFields(r) {
      return BadRequest(MissingFields), None;
    }
    if r.classId.value !in db.classes {
      return NotFound, None;
    }
    if Reported(db.progressReports, r.classId.value) {
      return ServerError, None;
    }
    var id := db.nextId;
    db.progressReports := db.progressReports[id :=
      ProgressReport(r.classId.value, r.topicsCovered.value, r.strengths.value, r.areasForImprovement.value, r.homework)];
    db.nextId := id + 1;
    st, reportId := Created, Some(id);
  }

  /** Every report refers to a stored class, and no class has two reports. */
  ghost predicate ReportsConsistent(t: Tables) {
    && (forall k :: k in t.progressReports ==> t.progressReports[k].classId in t.classes)
    && (forall a, b ::
          a in t.progressReports && b in t.progressReports && t.progressReports[a].classId == t.progressReports[b].classId
          ==> a == b)
  }

  /** createProgressReport keeps the report table consistent with the
      classes and the id sequence ahead of every key. */
  lemma {:induction false} CreateProgressReportKeepsConsistency(t: Tables, r: ReportInput)
    requires WellFormed(t) && ReportsConsistent(t)
    ensures var res := CreateProgressReportStep(t, r);
      WellFormed(res.db) && ReportsConsistent(res.db)
  {
    var res := CreateProgressReportStep(t, r);
    if res.status == Created {
      var n := t.nextId;
      assert n !in t.progressReports;
      assert forall k :: k in t.progressReports ==> t.progressReports[k].classId != r.classId.value;
      forall a, b | a in res.db.progressReports && b in res.db.progressReports
                    && res.db.progressReports[a].classId == res.db.progressReports[b].classId
        ensures a == b
      {
        if a != n && b != n {
          assert t.progressReports[a] == res.db.progressReports[a] && t.progressReports[b] == res.db.progressReports[b];
        }
      }
    }
  }

  /** The answer reads no table but the classes and the reports: two
      databases that agree on those give the same status to the same body.
      (The step takes no caller at all, because the handler's permission
      check is an empty placeholder.) */
  lemma ReportStatusReadsOnlyClassesAndReports(t: Tables, u: Tables, r: ReportInput)
    requires t.classes == u.classes && t.progressReports == u.progressReports
    ensures CreateProgressReportStep(t, r).status == CreateProgressReportStep(u, r).status
  {
  }
}
