/** The teaching-plan (enrollment) lifecycle: creation in PLANNING, adding
    subject lines, and the three status transitions
      PLANNING --submit--> PENDING_APPROVAL --approve--> ACTIVE
      PENDING_APPROVAL --requestChanges--> PLANNING.
    Each transition checks only that a caller id is present, that the row
    exists, and the current status (and, for submit, that the plan has
    subjects): none of them checks who the caller is. */
module EnrollmentController {
  import opened Base
  import opened Store

  // ---------------------------------------------------------------- create

  /** POST /enrollments: a new plan in PLANNING for an existing tutoring
      request, whose status moves to UNDER_REVIEW. */
  function CreateEnrollmentStep(t: Tables, requestId: Option<Id>): (r: Reply)
    ensures requestId.None? ==> r.status == BadRequest(MissingFields)
    ensures requestId.Some? && requestId.value !in t.tutoringRequests ==> r.status == NotFound
    ensures r.status == Created <==> requestId.Some? && requestId.value in t.tutoringRequests
    ensures r.status != Created ==> r.db == t
    ensures r.status == Created ==>
      && r.db.enrollments == t.enrollments[t.nextId := Enrollment(requestId.value, Planning)]
      && requestId.value in r.db.tutoringRequests
      && r.db.tutoringRequests[requestId.value].status == UnderReview
      && r.db.tutoringRequests == t.tutoringRequests[requestId.value := t.tutoringRequests[requestId.value].(status := UnderReview)]
      && r.db.nextId == t.nextId + 1
      && r.db == t.(enrollments := r.db.enrollments, tutoringRequests := r.db.tutoringRequests, nextId := r.db.nextId)
  {
    if requestId.None? then Reply(BadRequest(MissingFields), t)
    else if requestId.value !in t.tutoringRequests then Reply(NotFound, t)
    else
      var rid := requestId.value;
      Reply(Created, t.(enrollments := t.enrollments[t.nextId := Enrollment(rid, Planning)],
                        tutoringRequests := t.tutoringRequests[rid := t.tutoringRequests[rid].(status := UnderReview)],
                        nextId := t.nextId + 1))
  }

  method CreateEnrollment(db: Database, requestId: Option<Id>) returns (st: Status, enrollmentId: Option<Id>)
    modifies db
    ensures Reply(st, db.Snapshot()) == CreateEnrollmentStep(old(db.Snapshot()), requestId)
    ensures enrollmentId.Some? <==> st == Created
    ensures enrollmentId.Some? ==> enrollmentId.value == old(db.nextId)
  {
    enrollmentId := None;
    ghost var t0 := db.Snapshot();
    if requestId.None? {
      return BadRequest(MissingFields), enrollmentId;
    }
    var rid := requestId.value;
    if rid !in db.tutoringRequests {
      return NotFound, enrollmentId;
    }
    var id := db.nextId;
    db.enrollments := db.enrollments[id := Enrollment(rid, Planning)];
    db.nextId := db.nextId + 1;
    var request := db.tutoringRequests[rid];
    db.tutoringRequests := db.tutoringRequests[rid := request.(status := UnderReview)];
    assert db.Snapshot() == t0.(enrollments := db.enrollments, tutoringRequests := db.tutoringRequests, nextId := db.nextId);
    st, enrollmentId := Created, Some(id);
  }

  // ----------------------------------------------------------- add subjects

  /** One element of the request's `subjects` array; `numberOfClasses`
      stands for any further field the client sends, which is dropped. */
  datatype SubjectInput = SubjectInput(
    specializationId: Option<Id>,
    advisorId: Option<Id>,
    diagnosis: Option<string>,
    goals: Option<string>,
    methodology: Option<string>,
    numberOfClasses: Option<nat>)

  /** The row inserted for one requested subject. */
  function ToPlanSubject(enrollmentId: Id, s: SubjectInput): PlanSubject {
    PlanSubject(enrollmentId, s.specializationId, s.advisorId, s.diagnosis, s.goals, s.methodology, None)
  }

  /** `subjects.map(sub => ({ enrollment_id: id, ... }))` */
  function Project(enrollmentId: Id, subjects: seq<SubjectInput>): (r: seq<PlanSubject>)
    ensures |r| == |subjects|
    ensures forall i :: 0 <= i < |r| ==>
      && r[i].enrollmentId == enrollmentId
      && r[i].specializationId == subjects[i].specializationId
      && r[i].advisorId == subjects[i].advisorId
      && r[i].diagnosis == subjects[i].diagnosis
      && r[i].goals == subjects[i].goals
      && r[i].methodology == subjects[i].methodology
      && r[i].numberOfClasses.None?
  {
    seq(|subjects|, i requires 0 <= i < |subjects| => ToPlanSubject(enrollmentId, subjects[i]))
  }

  /** Two subject requests that agree on the five copied fields yield the
      same row: nothing else the client sends reaches the table. */
  lemma ProjectionOnlyCopiesFiveFields(e: Id, a: seq<SubjectInput>, b: seq<SubjectInput>)
    requires |a| == |b|
    requires forall i :: 0 <= i < |a| ==>
      a[i].(numberOfClasses := None) == b[i].(numberOfClasses := None)
    ensures Project(e, a) == Project(e, b)
  {
    var pa, pb := Project(e, a), Project(e, b);
    forall i | 0 <= i < |pa| ensures pa[i] == pb[i] {
      assert a[i].(numberOfClasses := None) == b[i].(numberOfClasses := None);
    }
  }

  /** A multi-row insert: rows[i] receives key first + i. */
  function InsertAll(m: map<Id, PlanSubject>, rows: seq<PlanSubject>, first: Id): map<Id, PlanSubject>
    decreases |rows|
  {
    if rows == [] then m else InsertAll(m[first := rows[0]], rows[1..], first + 1)
  }

  lemma {:induction false} InsertAllContents(m: map<Id, PlanSubject>, rows: seq<PlanSubject>, first: Id)
    ensures forall k :: k in InsertAll(m, rows, first) <==> k in m || first <= k < first + |rows|
    ensures forall i :: 0 <= i < |rows| ==> InsertAll(m, rows, first)[first + i] == rows[i]
    ensures forall k :: k in m && !(first <= k < first + |rows|) ==> InsertAll(m, rows, first)[k] == m[k]
    decreases |rows|
  {
    if rows != [] {
      var m' := m[first := rows[0]];
      InsertAllContents(m', rows[1..], first + 1);
      var r := InsertAll(m, rows, first);
      assert r == InsertAll(m', rows[1..], first + 1);
      forall i | 0 <= i < |rows| ensures r[first + i] == rows[i] {
        if i > 0 {
          assert rows[1..][i - 1] == rows[i];
          assert first + i == (first + 1) + (i - 1);
        }
      }
    }
  }

  /** POST /enrollments/:id/subjects. The store rejects rows whose
      enrollment_id is not an enrollment (foreign key), which the handler
      reports as 500. */
  function AddSubjectsStep(t: Tables, enrollmentId: Id, subjects: Option<seq<SubjectInput>>): (r: Reply)
    ensures subjects.None? || subjects.value == [] ==> r == Reply(BadRequest(SubjectsRequired), t)
    ensures subjects.Some? && subjects.value != [] && enrollmentId !in t.enrollments ==> r == Reply(ServerError, t)
    ensures r.status == Created <==> subjects.Some? && subjects.value != [] && enrollmentId in t.enrollments
    ensures r.status == Created ==>
      var n := |subjects.value|;
      && r.db.nextId == t.nextId + n
      && (forall i :: 0 <= i < n ==>
            t.nextId + i in r.db.planSubjects
            && r.db.planSubjects[t.nextId + i] == ToPlanSubject(enrollmentId, subjects.value[i]))
      && (forall k :: k in r.db.planSubjects <==> k in t.planSubjects || t.nextId <= k < t.nextId + n)
      && (forall k :: k in t.planSubjects && !(t.nextId <= k < t.nextId + n) ==> r.db.planSubjects[k] == t.planSubjects[k])
      && r.db == t.(planSubjects := r.db.planSubjects, nextId := r.db.nextId)
  {
    if subjects.None? || subjects.value == [] then Reply(BadRequest(SubjectsRequired), t)
    else if enrollmentId !in t.enrollments then Reply(ServerError, t)
    else
      var rows := Project(enrollmentId, subjects.value);
      InsertAllContents(t.planSubjects, rows, t.nextId);
      Reply(Created, t.(planSubjects := InsertAll(t.planSubjects, rows, t.nextId),
                        nextId := t.nextId + |rows|))
  }

  method AddSubjectsToEnrollment(db: Database, enrollmentId: Id, subjects: Option<seq<SubjectInput>>)
    returns (st: Status)
    modifies db
    ensures Reply(st, db.Snapshot()) == AddSubjectsStep(old(db.Snapshot()), enrollmentId, subjects)
  {
    if subjects.None? || subjects.value == [] {
      return BadRequest(SubjectsRequired);
    }
    if enrollmentId !in db.enrollments {
      return ServerError;
    }
    var rows := Project(enrollmentId, subjects.value);
    db.planSubjects := InsertAll(db.planSubjects, rows, db.nextId);
    db.nextId := db.nextId + |rows|;
    st := Created;
  }

  // ------------------------------------------------------------ transitions

  /** approve and requestChanges load the enrollment through inner joins to
      its tutoring request, student and client: if any link is missing the
      query finds no row. */
  predicate OwnerChainFound(t: Tables, id: Id) {
    && id in t.enrollments
    && t.enrollments[id].requestId in t.tutoringRequests
    && t.tutoringRequests[t.enrollments[id].requestId].studentId in t.students
    && t.students[t.tutoringRequests[t.enrollments[id].requestId].studentId].clientId in t.clients
  }

  /** PUT /enrollments/:id/approve */
  function ApproveStep(t: Tables, id: Id, userId: Option<Id>): (r: Reply)
    ensures userId.None? ==> r.status == Unauthorized
    ensures userId.Some? && !OwnerChainFound(t, id) ==> r.status == NotFound
    ensures userId.Some? && OwnerChainFound(t, id) && t.enrollments[id].status != PendingApproval ==>
      r.status == BadRequest(WrongState(PendingApproval))
    ensures r.status == Ok <==> userId.Some? && OwnerChainFound(t, id) && t.enrollments[id].status == PendingApproval
    ensures r.status != Ok ==> r.db == t
    ensures r.status == Ok ==> r.db == SetEnrollmentStatus(t, id, Active)
  {
    if userId.None? then Reply(Unauthorized, t)
    else if !OwnerChainFound(t, id) then Reply(NotFound, t)
    else if t.enrollments[id].status != PendingApproval then Reply(BadRequest(WrongState(PendingApproval)), t)
    else Reply(Ok, SetEnrollmentStatus(t, id, Active))
  }

  /** Reads the plan through its owner chain and checks its status; on
      success writes ACTIVE. */
  method ApproveEnrollment(db: Database, id: Id, userId: Option<Id>) returns (st: Status)
    modifies db
    ensures Reply(st, db.Snapshot()) == ApproveStep(old(db.Snapshot()), id, userId)
  {
    if userId.None? {
      return Unauthorized;
    }
    if !OwnerChainFound(db.Snapshot(), id) {
      return NotFound;
    }
    var enrollment := db.enrollments[id];
    if enrollment.status != PendingApproval {
      return BadRequest(WrongState(PendingApproval));
    }
    db.enrollments := db.enrollments[id := enrollment.(status := Active)];
    st := Ok;
  }

  /** `comments || null` */
  function EchoComments(comments: Option<string>): (r: Option<string>)
    ensures r.Some? <==> Present(comments)
    ensures r.Some? ==> r == comments
  {
    if Present(comments) then comments else None
  }

  /** POST /enrollments/:id/request-changes */
  function RequestChangesStep(t: Tables, id: Id, userId: Option<Id>): (r: Reply)
    ensures userId.None? ==> r.status == Unauthorized
    ensures userId.Some? && !OwnerChainFound(t, id) ==> r.status == NotFound
    ensures userId.Some? && OwnerChainFound(t, id) && t.enrollments[id].status != PendingApproval ==>
      r.status == BadRequest(WrongState(PendingApproval))
    ensures r.status == Ok <==> userId.Some? && OwnerChainFound(t, id) && t.enrollments[id].status == PendingApproval
    ensures r.status != Ok ==> r.db == t
    ensures r.status == Ok ==> r.db == SetEnrollmentStatus(t, id, Planning)
  {
    if userId.None? then Reply(Unauthorized, t)
    else if !OwnerChainFound(t, id) then Reply(NotFound, t)
    else if t.enrollments[id].status != PendingApproval then Reply(BadRequest(WrongState(PendingApproval)), t)
    else Reply(Ok, SetEnrollmentStatus(t, id, Planning))
  }

  /** Sends the plan back to PLANNING; the client's comments are only echoed
      in the 200 answer, never stored. */
  method RequestChanges(db: Database, id: Id, userId: Option<Id>, comments: Option<string>)
    returns (st: Status, clientComments: Option<string>)
    modifies db
    ensures Reply(st, db.Snapshot()) == RequestChangesStep(old(db.Snapshot()), id, userId)
    ensures clientComments == if st == Ok then EchoComments(comments) else None
  {
    clientComments := None;
    if userId.None? {
      return Unauthorized, clientComments;
    }
    if !OwnerChainFound(db.Snapshot(), id) {
      return NotFound, clientComments;
    }
    var enrollment := db.enrollments[id];
    if enrollment.status != PendingApproval {
      return BadRequest(WrongState(PendingApproval)), clientComments;
    }
    db.enrollments := db.enrollments[id := enrollment.(status := Planning)];
    st, clientComments := Ok, EchoComments(comments);
  }

  /** The plan subjects submitForApproval sees: those of the enrollment whose
      advisor row exists (the embedded advisors use an inner join). */
  function SubmittedSubjects(t: Tables, id: Id): set<Id> {
    set k | k in t.planSubjects && t.planSubjects[k].enrollmentId == id
              && t.planSubjects[k].advisorId.Some? && t.planSubjects[k].advisorId.value in t.advisors
  }

  /** PUT /enrollments/:id/submit-for-approval: the subject check comes
      before the status check. */
  function SubmitStep(t: Tables, id: Id, userId: Option<Id>): (r: Reply)
    ensures userId.None? ==> r.status == Unauthorized
    ensures userId.Some? && id !in t.enrollments ==> r.status == NotFound
    ensures userId.Some? && id in t.enrollments && SubmittedSubjects(t, id) == {} ==>
      r.status == BadRequest(NoPlanSubjects)
    ensures userId.Some? && id in t.enrollments && SubmittedSubjects(t, id) != {} && t.enrollments[id].status != Planning ==>
      r.status == BadRequest(WrongState(Planning))
    ensures r.status == Ok <==>
      userId.Some? && id in t.enrollments && SubmittedSubjects(t, id) != {} && t.enrollments[id].status == Planning
    ensures r.status != Ok ==> r.db == t
    ensures r.status == Ok ==> r.db == SetEnrollmentStatus(t, id, PendingApproval)
  {
    if userId.None? then Reply(Unauthorized, t)
    else if id !in t.enrollments then Reply(NotFound, t)
    else if SubmittedSubjects(t, id) == {} then Reply(BadRequest(NoPlanSubjects), t)
    else if t.enrollments[id].status != Planning then Reply(BadRequest(WrongState(Planning)), t)
    else Reply(Ok, SetEnrollmentStatus(t, id, PendingApproval))
  }

  method SubmitForApproval(db: Database, id: Id, userId: Option<Id>) returns (st: Status)
    modifies db
    ensures Reply(st, db.Snapshot()) == SubmitStep(old(db.Snapshot()), id, userId)
  {
    if userId.None? {
      return Unauthorized;
    }
    if id !in db.enrollments {
      return NotFound;
    }
    var subjects := SubmittedSubjects(db.Snapshot(), id);
    if subjects == {} {
      return BadRequest(NoPlanSubjects);
    }
    var enrollment := db.enrollments[id];
    if enrollment.status != Planning {
      return BadRequest(WrongState(Planning));
    }
    db.enrollments := db.enrollments[id := enrollment.(status := PendingApproval)];
    st := Ok;
  }

  // ---------------------------------------------------------------- lemmas

  /** No transition looks at who the caller is: any two authenticated
      callers get the same answer and leave the same database. */
  lemma TransitionsIgnoreCaller(t: Tables, id: Id, u1: Id, u2: Id)
    ensures ApproveStep(t, id, Some(u1)) == ApproveStep(t, id, Some(u2))
    ensures RequestChangesStep(t, id, Some(u1)) == RequestChangesStep(t, id, Some(u2))
    ensures SubmitStep(t, id, Some(u1)) == SubmitStep(t, id, Some(u2))
  {
  }

  /** Submitting a plan and then asking for changes gives back exactly the
      database one started from. */
  lemma SubmitThenRequestChangesRestores(t: Tables, id: Id, u: Id, v: Id)
    requires OwnerChainFound(t, id)
    requires SubmitStep(t, id, Some(u)).status == Ok
    ensures RequestChangesStep(SubmitStep(t, id, Some(u)).db, id, Some(v)) == Reply(Ok, t)
  {
    var t1 := SubmitStep(t, id, Some(u)).db;
    assert OwnerChainFound(t1, id);
    var e := t.enrollments[id];
    assert t1.enrollments[id].(status := Planning) == e;
    assert t1.enrollments[id := e] == t.enrollments;
  }

  /** Along the approval path a plan that is submitted and approved is
      ACTIVE, and approving it a second time is refused without effect. */
  lemma SubmitThenApproveActivates(t: Tables, id: Id, u: Id)
    requires OwnerChainFound(t, id)
    requires SubmitStep(t, id, Some(u)).status == Ok
    ensures var t2 := ApproveStep(SubmitStep(t, id, Some(u)).db, id, Some(u));
      && t2.status == Ok
      && t2.db.enrollments[id].status == Active
      && ApproveStep(t2.db, id, Some(u)) == Reply(BadRequest(WrongState(PendingApproval)), t2.db)
  {
    var t1 := SubmitStep(t, id, Some(u)).db;
    assert OwnerChainFound(t1, id);
    var t2 := ApproveStep(t1, id, Some(u)).db;
    assert OwnerChainFound(t2, id);
  }
}
