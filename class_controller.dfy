/** Class scheduling: an ordered chain of guards (required fields, caller is
    an advisor, plan subject exists, plan ACTIVE, same tenant, same student,
    quota not reached) followed by the insert of one SCHEDULED class; and the
    formatting of a student's calendar. */
module ClassController {
  import opened Base
  import opened Store

  /** The body of POST /classes; None stands for an absent or falsy field. */
  datatype ScheduleInput = ScheduleInput(
    planSubjectId: Option<Id>,
    studentId: Option<Id>,
    startTime: Option<string>,
    endTime: Option<string>,
    title: Option<string>,
    description: Option<string>)

  predicate HasRequiredFields(r: ScheduleInput) {
    r.planSubjectId.Some? && r.studentId.Some? && Present(r.startTime) && Present(r.endTime) && Present(r.title)
  }

  /** The `plans` row embedded in the plan-subject query: the status of the
      plan subject's enrollment, with the tenant and the student of the
      tutoring request behind it. None when that row is missing. */
  datatype PlanView = PlanView(status: EnrollmentStatus, tenantId: Id, studentId: Id)

  function PlanOf(t: Tables, ps: PlanSubject): Option<PlanView> {
    if ps.enrollmentId in t.enrollments && t.enrollments[ps.enrollmentId].requestId in t.tutoringRequests then
      var e := t.enrollments[ps.enrollmentId];
      var req := t.tutoringRequests[e.requestId];
      Some(PlanView(e.status, req.tenantId, req.studentId))
    else None
  }

  /** The purchased quota. A null number_of_classes compares as 0 in
      `count >= number_of_classes`, so it admits no class at all. */
  function Quota(ps: PlanSubject): nat {
    if ps.numberOfClasses.Some? then ps.numberOfClasses.value else 0
  }

  function ClassesOf(classes: map<Id, ClassSession>, planSubjectId: Id): set<Id> {
    set k | k in classes && classes[k].planSubjectId == planSubjectId
  }

  /** `classes.select('*', { count: 'exact' }).eq('plan_subject_id', id)` */
  function ClassCount(classes: map<Id, ClassSession>, planSubjectId: Id): nat {
    |ClassesOf(classes, planSubjectId)|
  }

  /** Inserting a class under a fresh key adds one to its own plan subject's
      count and leaves every other count alone. */
  lemma {:induction false} ClassCountAfterInsert(classes: map<Id, ClassSession>, k: Id, c: ClassSession, p: Id)
    requires k !in classes
    ensures ClassCount(classes[k := c], p) == ClassCount(classes, p) + (if c.planSubjectId == p then 1 else 0)
  {
    var before, after := ClassesOf(classes, p), ClassesOf(classes[k := c], p);
    if c.planSubjectId == p {
      assert after == before + {k};
    } else {
      assert after == before;
    }
  }

  /** Every plan subject has at most as many classes as its quota. */
  ghost predicate QuotaRespected(t: Tables) {
    forall p :: p in t.planSubjects ==> ClassCount(t.classes, p) <= Quota(t.planSubjects[p])
  }

  /** The caller's advisor row, reached from the caller's email through
      public.users as the other advisor handlers do: the row of the one
      user with that email, if that user owns exactly one advisor row. */
  function AdvisorOfCaller(t: Tables, email: string): Option<Id> {
    AdvisorOfUser(t.advisors, UserByEmail(t.users, Some(email)))
  }

  /** The guards before the plan checks pass: fields present, the caller is
      an advisor, the plan subject and its plan exist. */
  predicate ReachesPlanChecks(t: Tables, email: string, r: ScheduleInput) {
    && HasRequiredFields(r)
    && AdvisorOfCaller(t, email).Some?
    && r.planSubjectId.value in t.planSubjects
    && PlanOf(t, t.planSubjects[r.planSubjectId.value]).Some?
  }

  /** The tenant of the caller's advisor row. */
  function CallerTenant(t: Tables, email: string): Id
    requires AdvisorOfCaller(t, email).Some?
  {
    t.advisors[AdvisorOfCaller(t, email).value].tenantId
  }

  /** Outcome of the guard chain: refused with a status, or admitted for the
      caller's advisor row and tenant. */
  datatype Admission = Refused(status: Status) | Admitted(advisorId: Id, tenantId: Id)

  /** The guards of scheduleClass, in the order the handler runs them, with
      the caller identified by email. A plan-subject id that matches no row
      is answered with 404 here; the handler as written answers it with 500
      (see PlanSubjectLookupAsWritten) and never gets that far anyway (see
      ScheduleClassAsWritten). */
  function ScheduleGuard(t: Tables, email: string, r: ScheduleInput): (a: Admission)
    ensures !HasRequiredFields(r) ==> a == Refused(BadRequest(MissingFields))
    ensures HasRequiredFields(r) && AdvisorOfCaller(t, email).None? ==> a == Refused(Forbidden)
    ensures HasRequiredFields(r) && AdvisorOfCaller(t, email).Some? && r.planSubjectId.value !in t.planSubjects ==>
      a == Refused(NotFound)
    ensures HasRequiredFields(r) && AdvisorOfCaller(t, email).Some? && r.planSubjectId.value in t.planSubjects
            && PlanOf(t, t.planSubjects[r.planSubjectId.value]).None? ==>
      a == Refused(ServerError)
    ensures ReachesPlanChecks(t, email, r) ==>
      var ps := t.planSubjects[r.planSubjectId.value];
      var plan := PlanOf(t, ps).value;
      && (plan.status != Active ==> a == Refused(BadRequest(PlanNotActive)))
      && (plan.status == Active && plan.tenantId != CallerTenant(t, email) ==> a == Refused(Forbidden))
      && (plan.status == Active && plan.tenantId == CallerTenant(t, email) && plan.studentId != r.studentId.value ==>
            a == Refused(BadRequest(StudentMismatch)))
      && ((plan.status == Active && plan.tenantId == CallerTenant(t, email) && plan.studentId == r.studentId.value
           && ClassCount(t.classes, r.planSubjectId.value) >= Quota(ps)) ==> a == Refused(BadRequest(QuotaReached)))
      && ((plan == PlanView(Active, CallerTenant(t, email), r.studentId.value)
           && ClassCount(t.classes, r.planSubjectId.value) < Quota(ps)) ==>
            a == Admitted(AdvisorOfCaller(t, email).value, CallerTenant(t, email)))
    ensures a.Admitted? ==>
      && HasRequiredFields(r)
      && AdvisorOfCaller(t, email) == Some(a.advisorId)
      && a.tenantId == t.advisors[a.advisorId].tenantId
      && r.planSubjectId.value in t.planSubjects
      && var ps := t.planSubjects[r.planSubjectId.value];
         && PlanOf(t, ps) == Some(PlanView(Active, a.tenantId, r.studentId.value))
         && ClassCount(t.classes, r.planSubjectId.value) < Quota(ps)
  {
    if !HasRequiredFields(r) then Refused(BadRequest(MissingFields))
    else
      var advisor := AdvisorOfCaller(t, email);
      if advisor.None? then Refused(Forbidden)
      else
        var tenantId := t.advisors[advisor.value].tenantId;
        var psId := r.planSubjectId.value;
        if psId !in t.planSubjects then Refused(NotFound)
        else
          var ps := t.planSubjects[psId];
          var plan := PlanOf(t, ps);
          if plan.None? then Refused(ServerError)
          else if plan.value.status != Active then Refused(BadRequest(PlanNotActive))
          else if plan.value.tenantId != tenantId then Refused(Forbidden)
          else if plan.value.studentId != r.studentId.value then Refused(BadRequest(StudentMismatch))
          else if ClassCount(t.classes, psId) >= Quota(ps) then Refused(BadRequest(QuotaReached))
          else Admitted(advisor.value, tenantId)
  }

  /** The row inserted for an admitted request. */
  function NewClass(r: ScheduleInput, advisorId: Id, tenantId: Id): ClassSession
    requires HasRequiredFields(r)
  {
    ClassSession(r.planSubjectId.value, r.studentId.value, advisorId, tenantId,
                 r.startTime.value, r.endTime.value, r.title.value, r.description, Scheduled)
  }

  /** POST /classes, with the caller identified by email. */
  function ScheduleClassStep(t: Tables, email: string, r: ScheduleInput): (rep: Reply)
    ensures ScheduleGuard(t, email, r).Refused? ==> rep == Reply(ScheduleGuard(t, email, r).status, t)
    ensures rep.status != Created ==> rep.db == t
    ensures rep.status == Created <==> ScheduleGuard(t, email, r).Admitted?
    ensures rep.status == Created ==>
      var a := ScheduleGuard(t, email, r);
      && rep.db == t.(classes := t.classes[t.nextId := NewClass(r, a.advisorId, a.tenantId)], nextId := t.nextId + 1)
      && rep.db.classes[t.nextId].status == Scheduled
      && rep.db.classes[t.nextId].advisorId == a.advisorId
      && rep.db.classes[t.nextId].tenantId == t.advisors[a.advisorId].tenantId
  {
    match ScheduleGuard(t, email, r)
    case Refused(st) => Reply(st, t)
    case Admitted(advisorId, tenantId) =>
      Reply(Created, t.(classes := t.classes[t.nextId := NewClass(r, advisorId, tenantId)], nextId := t.nextId + 1))
  }

  /** Runs the guards one lookup at a time, counts the plan subject's
      classes, then inserts the new class. */
  method ScheduleClass(db: Database, email: string, r: ScheduleInput) returns (st: Status, classId: Option<Id>)
    modifies db
    ensures Reply(st, db.Snapshot()) == ScheduleClassStep(old(db.Snapshot()), email, r)
    ensures classId.Some? <==> st == Created
    ensures classId.Some? ==> classId.value == old(db.nextId)
  {
    classId := None;
    ghost var t0 := db.Snapshot();
    if !HasRequiredFields(r) {
      return BadRequest(MissingFields), classId;
    }
    var user := UserByEmail(db.users, Some(email));
    var advisor := AdvisorOfUser(db.advisors, user);
    if advisor.None? {
      return Forbidden, classId;
    }
    var tenantId := db.advisors[advisor.value].tenantId;
    var psId := r.planSubjectId.value;
    if psId !in db.planSubjects {
      return NotFound, classId;
    }
    var ps := db.planSubjects[psId];
    var plan := PlanOf(db.Snapshot(), ps);
    if plan.None? {
      return ServerError, classId;
    }
    if plan.value.status != Active {
      return BadRequest(PlanNotActive), classId;
    }
    if plan.value.tenantId != tenantId {
      return Forbidden, classId;
    }
    if plan.value.studentId != r.studentId.value {
      return BadRequest(StudentMismatch), classId;
    }
    var count := |ClassesOf(db.classes, psId)|;
    if count >= Quota(ps) {
      return BadRequest(QuotaReached), classId;
    }
    var id := db.nextId;
    db.classes := db.classes[id := NewClass(r, advisor.value, tenantId)];
    db.nextId := db.nextId + 1;
    assert db.Snapshot() == t0.(classes := db.classes, nextId := db.nextId);
    st, classId := Created, Some(id);
  }

  /** A plan that is not ACTIVE is refused with 400 whatever quota is left,
      once the caller is an advisor and the plan subject exists. */
  lemma InactivePlanRefused(t: Tables, email: string, r: ScheduleInput)
    requires HasRequiredFields(r) && AdvisorOfCaller(t, email).Some?
    requires r.planSubjectId.value in t.planSubjects
    requires var plan := PlanOf(t, t.planSubjects[r.planSubjectId.value]); plan.Some? && plan.value.status != Active
    ensures ScheduleClassStep(t, email, r) == Reply(BadRequest(PlanNotActive), t)
  {
  }

  /** Once a plan subject's quota is used up, every further request for it
      is refused and nothing is inserted. */
  lemma FullQuotaRefused(t: Tables, email: string, r: ScheduleInput)
    requires r.planSubjectId.Some? && r.planSubjectId.value in t.planSubjects
    requires ClassCount(t.classes, r.planSubjectId.value) >= Quota(t.planSubjects[r.planSubjectId.value])
    ensures ScheduleClassStep(t, email, r).status != Created
    ensures ScheduleClassStep(t, email, r).db == t
  {
  }

  /** A plan subject created without number_of_classes never gets a class. */
  lemma NullQuotaAdmitsNothing(t: Tables, email: string, r: ScheduleInput)
    requires r.planSubjectId.Some? && r.planSubjectId.value in t.planSubjects
    requires t.planSubjects[r.planSubjectId.value].numberOfClasses.None?
    ensures ScheduleClassStep(t, email, r).db == t
  {
    FullQuotaRefused(t, email, r);
  }

  /** The quota invariant: a successful booking adds exactly one class to
      its plan subject, which still has no more classes than its quota;
      every other plan subject's count is unchanged. */
  lemma {:induction false} ScheduleKeepsQuota(t: Tables, email: string, r: ScheduleInput)
    requires WellFormed(t) && QuotaRespected(t)
    ensures WellFormed(ScheduleClassStep(t, email, r).db)
    ensures QuotaRespected(ScheduleClassStep(t, email, r).db)
    ensures ScheduleClassStep(t, email, r).status == Created ==>
      ClassCount(ScheduleClassStep(t, email, r).db.classes, r.planSubjectId.value)
        == ClassCount(t.classes, r.planSubjectId.value) + 1
  {
    var rep := ScheduleClassStep(t, email, r);
    if rep.status == Created {
      var a := ScheduleGuard(t, email, r);
      var c := NewClass(r, a.advisorId, a.tenantId);
      assert t.nextId !in t.classes;
      forall p | p in rep.db.planSubjects
        ensures ClassCount(rep.db.classes, p) <= Quota(rep.db.planSubjects[p])
      {
        ClassCountAfterInsert(t.classes, t.nextId, c, p);
      }
      ClassCountAfterInsert(t.classes, t.nextId, c, r.planSubjectId.value);
    }
  }

  // ------------------------------------------------------------- findings

  /** scheduleClass as written. It looks the advisor up with
      `.eq('user_id', req.user.id)`, where req.user is the identity
      provider's user, whose id is the provider's UUID; advisors.user_id
      holds the numeric id of a public.users row. No advisor row can match
      (the store rejects the comparison, which the handler also answers with
      403), so a complete request is refused with 403 before any plan check
      and nothing is ever written. */
  function ScheduleClassAsWritten(t: Tables, r: ScheduleInput): (rep: Reply)
    ensures rep.db == t
    ensures rep.status == if HasRequiredFields(r) then Forbidden else BadRequest(MissingFields)
  {
    if !HasRequiredFields(r) then Reply(BadRequest(MissingFields), t)
    else Reply(Forbidden, t)
  }

  /** Whatever the store and whoever the caller, the handler as written
      never books a class, while the corrected one books exactly the
      requests its guards admit. */
  lemma {:induction false} AsWrittenNeverSchedules(t: Tables, email: string, r: ScheduleInput)
    ensures ScheduleClassAsWritten(t, r).status != Created
    ensures ScheduleGuard(t, email, r).Admitted? ==>
      && ScheduleClassStep(t, email, r).status == Created
      && ScheduleClassAsWritten(t, r) == Reply(Forbidden, t)
  {
  }

  /** The discrepancy on a concrete store: user 7 (ana@x) owns advisor row
      1 of tenant 2; plan subject 5 of enrollment 6 (ACTIVE, request 4 of
      tenant 2 for student 3) has a quota of one class and none booked. */
  lemma AdvisorCannotSchedule(t: Tables)
    requires t.users == map[7 := User("ana@x", Role.Advisor, "Ana")]
    requires t.advisors == map[1 := Store.Advisor.Advisor(7, 2)]
    requires t.tutoringRequests == map[4 := TutoringRequest(2, 3, UnderReview)]
    requires t.enrollments == map[6 := Enrollment(4, Active)]
    requires t.planSubjects == map[5 := PlanSubject(6, None, None, None, None, None, Some(1))]
    requires t.classes == map[]
    ensures var r := ScheduleInput(Some(5), Some(3), Some("09:00"), Some("10:00"), Some("Algebra"), None);
      && ScheduleClassStep(t, "ana@x", r).status == Created
      && ScheduleClassAsWritten(t, r).status == Forbidden
  {
    assert UsersWithEmail(t.users, "ana@x") == {7};
    assert AdvisorsOfUser(t.advisors, 7) == {1};
    assert ClassesOf(t.classes, 5) == {};
  }

  /** The plan-subject lookup as written, on a handler whose caller is
      identified by email: its query uses `.single()`, which reports a
      missing row as an error, and the handler rethrows that error, so an
      unknown plan subject is answered with 500; the 404 branch after it is
      never reached. */
  function PlanSubjectLookupAsWritten(t: Tables, email: string, r: ScheduleInput): (rep: Reply)
    ensures HasRequiredFields(r) && AdvisorOfCaller(t, email).Some? && r.planSubjectId.value !in t.planSubjects ==>
      rep == Reply(ServerError, t)
    ensures !(HasRequiredFields(r) && AdvisorOfCaller(t, email).Some? && r.planSubjectId.value !in t.planSubjects) ==>
      rep == ScheduleClassStep(t, email, r)
    ensures rep.status != NotFound
  {
    if HasRequiredFields(r) && AdvisorOfCaller(t, email).Some? && r.planSubjectId.value !in t.planSubjects then
      Reply(ServerError, t)
    else ScheduleClassStep(t, email, r)
  }

  /** The discrepancy on a concrete request: advisor 1 (user 7, ana@x) asks
      for a class under plan subject 5, which does not exist. */
  lemma MissingPlanSubjectAnswers500(t: Tables)
    requires t.users == map[7 := User("ana@x", Role.Advisor, "Ana")]
    requires t.advisors == map[1 := Store.Advisor.Advisor(7, 2)] && t.planSubjects == map[]
    ensures var r := ScheduleInput(Some(5), Some(3), Some("09:00"), Some("10:00"), Some("Algebra"), None);
      && PlanSubjectLookupAsWritten(t, "ana@x", r).status == ServerError
      && ScheduleClassStep(t, "ana@x", r).status == NotFound
  {
    assert UsersWithEmail(t.users, "ana@x") == {7};
    assert AdvisorsOfUser(t.advisors, 7) == {1};
  }

  // ------------------------------------------------------------- calendar

  /** A row of the calendar query (classes of one student, ordered by start
      time) with its nested subject name and advisor name, either of which
      may be missing. */
  datatype CalendarRow = CalendarRow(
    id: Id, startTime: string, endTime: string, title: string, description: Option<string>,
    status: ClassStatus, subjectName: Option<string>, advisorName: Option<string>)

  datatype CalendarEntry = CalendarEntry(
    id: Id, startTime: string, endTime: string, title: string, description: Option<string>,
    status: ClassStatus, subject: string, advisor: string)

  /** One calendar entry: the class's own columns, and 'N/A' for a missing
      or empty subject or advisor name. */
  function FormatEntry(c: CalendarRow): (e: CalendarEntry)
    ensures e.id == c.id && e.startTime == c.startTime && e.endTime == c.endTime
    ensures e.title == c.title && e.description == c.description && e.status == c.status
    ensures e.subject == (if Present(c.subjectName) then c.subjectName.value else "N/A")
    ensures e.advisor == (if Present(c.advisorName) then c.advisorName.value else "N/A")
    ensures e.subject != "" && e.advisor != ""
  {
    CalendarEntry(c.id, c.startTime, c.endTime, c.title, c.description, c.status,
                  OrElse(c.subjectName, "N/A"), OrElse(c.advisorName, "N/A"))
  }

  /** `classes.map(c => ({ ... }))`: one entry per class, in query order. */
  function FormatCalendar(rows: seq<CalendarRow>): (r: seq<CalendarEntry>)
    ensures |r| == |rows|
    ensures forall i :: 0 <= i < |rows| ==> r[i] == FormatEntry(rows[i])
  {
    if rows == [] then [] else [FormatEntry(rows[0])] + FormatCalendar(rows[1..])
  }

  /** Formatting commutes with splitting the query result. */
  lemma FormatCalendarAppend(a: seq<CalendarRow>, b: seq<CalendarRow>)
    ensures FormatCalendar(a + b) == FormatCalendar(a) + FormatCalendar(b)
  {
    var l, r := FormatCalendar(a + b), FormatCalendar(a) + FormatCalendar(b);
    forall i | 0 <= i < |l| ensures l[i] == r[i] {
      if i < |a| { assert (a + b)[i] == a[i]; } else { assert (a + b)[i] == b[i - |a|]; }
    }
  }
}
