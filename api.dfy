/** The write handlers of the API behind one entry point, and the facts
    that hold whichever of them runs: the id sequence stays ahead of every
    key, no plan subject ever has more classes than its quota, and a plan's
    status moves only along the lifecycle's edges or to ACTIVE through a
    payment. */
module Api {
  import opened Base
  import opened Store
  import EC = EnrollmentController
  import CC = ClassController
  import Chat = ChatController
  import Pay = PaymentController
  import Rev = ReviewController
  import Rep = ProgressReportController
  import Av = AvailabilityController
  import Spec = SpecializationController
  import Adm = AdminController
  import Gate = RoleMiddleware

  /** A request to one of the handlers that write to the store. */
  datatype Call =
    | CreateEnrollment(requestId: Option<Id>)
    | AddSubjects(enrollmentId: Id, subjects: Option<seq<EC.SubjectInput>>)
    | Approve(enrollmentId: Id, userId: Option<Id>)
    | RequestChanges(enrollmentId: Id, userId: Option<Id>)
    | Submit(enrollmentId: Id, userId: Option<Id>)
    | ScheduleClass(scheduler: string, input: CC.ScheduleInput)
    | SendMessage(email: string, conversationId: Id, content: Option<string>)
    | RegisterPayment(payFor: Option<Id>, amount: Option<real>, paymentMethod: Option<string>,
                      paymentInsertFails: bool, enrollmentUpdateFails: bool)
    | CreateReview(reviewer: string, reviewed: Option<Id>, rating: Option<int>,
                   publicComment: Option<string>, privateFeedback: Option<string>)
    | CreateProgressReport(report: Rep.ReportInput)
    | SetWorkSchedule(advisorEmail: string, schedule: Option<seq<Slot>>, deleteFails: bool, insertFails: bool)
    | CreateSpecialization(creator: string, subject: Option<string>, levelId: Option<Id>)
    | VerifyTenant(tenantId: Id, verification: Option<string>)

  /** Runs one handler on the database. */
  function Apply(t: Tables, c: Call): Reply {
    match c
    case CreateEnrollment(requestId) => EC.CreateEnrollmentStep(t, requestId)
    case AddSubjects(e, subjects) => EC.AddSubjectsStep(t, e, subjects)
    case Approve(e, u) => EC.ApproveStep(t, e, u)
    case RequestChanges(e, u) => EC.RequestChangesStep(t, e, u)
    case Submit(e, u) => EC.SubmitStep(t, e, u)
    case ScheduleClass(scheduler, input) => CC.ScheduleClassStep(t, scheduler, input)
    case SendMessage(email, conv, content) => Chat.SendMessageStep(t, email, conv, content)
    case RegisterPayment(e, amount, m, f1, f2) => Pay.RegisterPaymentStep(t, e, amount, m, f1, f2)
    case CreateReview(email, e, rating, pc, pf) => Rev.CreateReviewStep(t, email, e, rating, pc, pf)
    case CreateProgressReport(report) => Rep.CreateProgressReportStep(t, report)
    case SetWorkSchedule(email, schedule, f1, f2) => Av.SetWorkScheduleStep(t, email, schedule, f1, f2)
    case CreateSpecialization(email, subject, level) => Spec.CreateSpecializationStep(t, email, subject, level)
    case VerifyTenant(id, v) => Adm.VerifyTenantStep(t, id, v)
  }

  /** The lifecycle's edges: submit, approve, request changes. */
  predicate LifecycleEdge(from: EnrollmentStatus, to: EnrollmentStatus) {
    || (from == Planning && to == PendingApproval)
    || (from == PendingApproval && to == EnrollmentStatus.Active)
    || (from == PendingApproval && to == Planning)
  }

  /** A store that only grew under a fresh key keeps every old row. */
  lemma {:induction false} WithoutKeepsOldIds(rows: seq<ScheduleRow>, a: Id, n: Id)
    requires forall i :: 0 <= i < |rows| ==> rows[i].id < n
    ensures forall i :: 0 <= i < |Av.Without(rows, a)| ==> Av.Without(rows, a)[i].id < n
  {
    var w := Av.Without(rows, a);
    forall i | 0 <= i < |w| ensures w[i].id < n {
      assert w[i] in multiset(w);
      assert multiset(w)[w[i]] > 0;
      assert w[i] in multiset(rows);
      var j :| 0 <= j < |rows| && rows[j] == w[i];
    }
  }

  /** A scheduled class is attached to a stored plan subject and takes a
      fresh id. */
  lemma {:induction false} ScheduleKeepsWellFormed(t: Tables, email: string, input: CC.ScheduleInput)
    requires WellFormed(t)
    ensures WellFormed(CC.ScheduleClassStep(t, email, input).db)
  {
    var r := CC.ScheduleClassStep(t, email, input);
    if r.status == Created {
      assert input.planSubjectId.value in t.planSubjects;
      assert r.db.classes[t.nextId].planSubjectId == input.planSubjectId.value;
    }
  }

  /** Replacing a schedule keeps every slot's id below the id sequence. */
  lemma {:induction false} SetWorkScheduleKeepsWellFormed(t: Tables, email: string, schedule: Option<seq<Slot>>,
                                                          deleteFails: bool, insertFails: bool)
    requires WellFormed(t)
    ensures WellFormed(Av.SetWorkScheduleStep(t, email, schedule, deleteFails, insertFails).db)
  {
    var caller := CallerAdvisor(t, email);
    var r := Av.SetWorkScheduleStep(t, email, schedule, deleteFails, insertFails);
    if schedule.Some? && caller.AdvisorRow? && !deleteFails {
      WithoutKeepsOldIds(t.workSchedules, caller.id, t.nextId);
      if !insertFails {
        var w := Av.Without(t.workSchedules, caller.id);
        var added := Av.NewRows(caller.id, schedule.value, t.nextId);
        assert r.db.workSchedules == w + added;
        forall i | 0 <= i < |r.db.workSchedules| ensures r.db.workSchedules[i].id < r.db.nextId {
          if i >= |w| {
            assert r.db.workSchedules[i] == added[i - |w|];
          }
        }
      }
    }
  }

  /** The plan subjects addSubjects inserts take ids below the advanced id
      sequence. */
  lemma {:induction false} AddSubjectsKeepsWellFormed(t: Tables, e: Id, subjects: Option<seq<EC.SubjectInput>>)
    requires WellFormed(t)
    ensures WellFormed(EC.AddSubjectsStep(t, e, subjects).db)
  {
    var r := EC.AddSubjectsStep(t, e, subjects);
    if r.status == Created {
      forall k | k in r.db.planSubjects ensures k < r.db.nextId { }
    }
  }

  /** The enrollment lifecycle handlers insert at most the enrollment
      itself, under the id sequence's next value. */
  lemma LifecycleKeepsWellFormed(t: Tables, c: Call)
    requires WellFormed(t)
    requires c.CreateEnrollment? || c.Approve? || c.RequestChanges? || c.Submit?
    ensures WellFormed(Apply(t, c).db)
  {
  }

  /** sendMessage inserts one message under the id sequence's next value. */
  lemma SendMessageKeepsWellFormed(t: Tables, email: string, conversationId: Id, content: Option<string>)
    requires WellFormed(t)
    ensures WellFormed(Chat.SendMessageStep(t, email, conversationId, content).db)
  {
  }

  /** registerPayment inserts one payment under the id sequence's next value
      and rewrites at most an existing enrollment's status. */
  lemma RegisterPaymentKeepsWellFormed(t: Tables, enrollmentId: Option<Id>, amount: Option<real>,
                                       paymentMethod: Option<string>, insertFails: bool, updateFails: bool)
    requires WellFormed(t)
    ensures WellFormed(Pay.RegisterPaymentStep(t, enrollmentId, amount, paymentMethod, insertFails, updateFails).db)
  {
  }

  /** createReview inserts one review under the id sequence's next value. */
  lemma CreateReviewKeepsWellFormed(t: Tables, email: string, enrollmentId: Option<Id>, rating: Option<int>,
                                    publicComment: Option<string>, privateFeedback: Option<string>)
    requires WellFormed(t)
    ensures WellFormed(Rev.CreateReviewStep(t, email, enrollmentId, rating, publicComment, privateFeedback).db)
  {
  }

  /** createProgressReport inserts one report under the id sequence's next
      value. */
  lemma CreateProgressReportKeepsWellFormed(t: Tables, report: Rep.ReportInput)
    requires WellFormed(t)
    ensures WellFormed(Rep.CreateProgressReportStep(t, report).db)
  {
  }

  /** createSpecialization inserts one specialization under the id
      sequence's next value. */
  lemma CreateSpecializationKeepsWellFormed(t: Tables, email: string, subject: Option<string>, levelId: Option<Id>)
    requires WellFormed(t)
    ensures WellFormed(Spec.CreateSpecializationStep(t, email, subject, levelId).db)
  {
  }

  /** verifyTenant only rewrites an existing tenant. */
  lemma VerifyTenantKeepsWellFormed(t: Tables, tenantId: Id, status: Option<string>)
    requires WellFormed(t)
    ensures WellFormed(Adm.VerifyTenantStep(t, tenantId, status).db)
  {
  }

  /** Every handler keeps the id sequence ahead of every stored key and
      every class attached to a stored plan subject. */
  lemma {:induction false} ApplyKeepsWellFormed(t: Tables, c: Call)
    requires WellFormed(t)
    ensures WellFormed(Apply(t, c).db)
  {
    if c.ScheduleClass? {
      ScheduleKeepsWellFormed(t, c.scheduler, c.input);
    } else if c.SetWorkSchedule? {
      SetWorkScheduleKeepsWellFormed(t, c.advisorEmail, c.schedule, c.deleteFails, c.insertFails);
    } else if c.AddSubjects? {
      AddSubjectsKeepsWellFormed(t, c.enrollmentId, c.subjects);
    } else if c.CreateEnrollment? || c.Approve? || c.RequestChanges? || c.Submit? {
      LifecycleKeepsWellFormed(t, c);
    } else if c.SendMessage? {
      SendMessageKeepsWellFormed(t, c.email, c.conversationId, c.content);
    } else if c.RegisterPayment? {
      RegisterPaymentKeepsWellFormed(t, c.payFor, c.amount, c.paymentMethod, c.paymentInsertFails, c.enrollmentUpdateFails);
    } else if c.CreateReview? {
      CreateReviewKeepsWellFormed(t, c.reviewer, c.reviewed, c.rating, c.publicComment, c.privateFeedback);
    } else if c.CreateProgressReport? {
      CreateProgressReportKeepsWellFormed(t, c.report);
    } else if c.CreateSpecialization? {
      CreateSpecializationKeepsWellFormed(t, c.creator, c.subject, c.levelId);
    } else {
      VerifyTenantKeepsWellFormed(t, c.tenantId, c.verification);
    }
  }

  /** The plan subjects addSubjects creates have a null quota and no
      classes, and the old ones keep their rows and their classes. */
  lemma {:induction false} AddSubjectsKeepsQuota(t: Tables, e: Id, subjects: Option<seq<EC.SubjectInput>>)
    requires WellFormed(t) && CC.QuotaRespected(t)
    ensures CC.QuotaRespected(EC.AddSubjectsStep(t, e, subjects).db)
  {
    var r := EC.AddSubjectsStep(t, e, subjects);
    if r.status == Created {
      var n := |subjects.value|;
      assert r.db.classes == t.classes;
      forall p | p in r.db.planSubjects
        ensures CC.ClassCount(r.db.classes, p) <= CC.Quota(r.db.planSubjects[p])
      {
        if p in t.planSubjects {
          assert r.db.planSubjects[p] == t.planSubjects[p];
        } else {
          assert t.nextId <= p < t.nextId + n;
          assert CC.ClassesOf(t.classes, p) == {};
        }
      }
    }
  }

  /** Every handler but scheduleClass and addSubjects leaves the classes
      and plan subjects alone. */
  lemma OthersLeavePlansAlone(t: Tables, c: Call)
    requires !c.ScheduleClass? && !c.AddSubjects?
    ensures Apply(t, c).db.classes == t.classes && Apply(t, c).db.planSubjects == t.planSubjects
  {
  }

  /** Every handler keeps every plan subject within its quota. Only
      scheduleClass adds classes. */
  lemma {:induction false} ApplyKeepsQuota(t: Tables, c: Call)
    requires WellFormed(t) && CC.QuotaRespected(t)
    ensures CC.QuotaRespected(Apply(t, c).db)
  {
    match c
    case ScheduleClass(scheduler, input) =>
      CC.ScheduleKeepsQuota(t, scheduler, input);
    case AddSubjects(e, subjects) =>
      AddSubjectsKeepsQuota(t, e, subjects);
    case _ =>
      OthersLeavePlansAlone(t, c);
  }

  /** How enrollment e may change between two stores: a stored enrollment
      stays stored, and its status is unchanged, moves along an edge of the
      lifecycle, or (when `viaPayment`) becomes ACTIVE; an enrollment that
      appears starts in PLANNING. */
  ghost predicate MovesAlongEdges(t: Tables, t': Tables, e: Id, viaPayment: bool) {
    && (e in t.enrollments ==>
          && e in t'.enrollments
          && var from, to := t.enrollments[e].status, t'.enrollments[e].status;
             from == to || LifecycleEdge(from, to) || (viaPayment && to == EnrollmentStatus.Active))
    && (e !in t.enrollments && e in t'.enrollments ==> t'.enrollments[e].status == Planning)
  }

  /** Every handler but the enrollment ones and registerPayment leaves the
      enrollments alone. */
  lemma OthersLeaveEnrollmentsAlone(t: Tables, c: Call)
    requires !c.CreateEnrollment? && !c.Approve? && !c.RequestChanges? && !c.Submit? && !c.RegisterPayment?
    ensures Apply(t, c).db.enrollments == t.enrollments
  {
  }

  /** createEnrollment adds one PLANNING enrollment under a fresh key. */
  lemma {:induction false} CreateEnrollmentMoves(t: Tables, requestId: Option<Id>, e: Id)
    requires WellFormed(t)
    ensures MovesAlongEdges(t, EC.CreateEnrollmentStep(t, requestId).db, e, false)
  {
    assert t.nextId !in t.enrollments;
  }

  /** approve, requestChanges and submit each take one edge of the
      lifecycle. */
  lemma TransitionsMove(t: Tables, c: Call, e: Id)
    requires c.Approve? || c.RequestChanges? || c.Submit?
    ensures MovesAlongEdges(t, Apply(t, c).db, e, false)
  {
  }

  /** registerPayment only ever writes ACTIVE. */
  lemma RegisterPaymentMoves(t: Tables, enrollmentId: Option<Id>, amount: Option<real>, paymentMethod: Option<string>,
                             insertFails: bool, updateFails: bool, e: Id)
    ensures MovesAlongEdges(t, Pay.RegisterPaymentStep(t, enrollmentId, amount, paymentMethod, insertFails, updateFails).db, e, true)
  {
  }

  /** Enrollment statuses only move along the lifecycle's edges, except
      that a payment forces ACTIVE from any status; a new enrollment starts
      in PLANNING, and no handler ever writes COMPLETED or CANCELLED. */
  lemma {:induction false} StatusMovesAlongEdges(t: Tables, c: Call, e: Id)
    requires WellFormed(t)
    ensures MovesAlongEdges(t, Apply(t, c).db, e, c.RegisterPayment?)
  {
    if c.CreateEnrollment? {
      CreateEnrollmentMoves(t, c.requestId, e);
    } else if c.Approve? || c.RequestChanges? || c.Submit? {
      TransitionsMove(t, c, e);
    } else if c.RegisterPayment? {
      RegisterPaymentMoves(t, c.payFor, c.amount, c.paymentMethod, c.paymentInsertFails, c.enrollmentUpdateFails, e);
    } else {
      OthersLeaveEnrollmentsAlone(t, c);
    }
  }

  /** The two ways to ACTIVE clash: paying for a plan still in PLANNING makes
      it ACTIVE without an approval, after which the approval path refuses
      it. */
  lemma {:induction false} PaymentBypassesApproval(t: Tables, e: Id, amount: real, paymentMethod: string, u: Id)
    requires e in t.enrollments && t.enrollments[e].status == Planning && EC.OwnerChainFound(t, e)
    requires amount != 0.0 && paymentMethod != ""
    ensures var paid := Apply(t, RegisterPayment(Some(e), Some(amount), Some(paymentMethod), false, false));
      && paid.status == Created
      && paid.db.enrollments[e].status == EnrollmentStatus.Active
      && Apply(paid.db, Approve(e, Some(u))) == Reply(BadRequest(WrongState(PendingApproval)), paid.db)
  {
    var paid := Apply(t, RegisterPayment(Some(e), Some(amount), Some(paymentMethod), false, false));
    Pay.PaymentForcesActive(t, e, Some(amount), Some(paymentMethod));
    assert EC.OwnerChainFound(paid.db, e);
  }

  /** The review route lets a PARENT through its role gate, but the review
      handler only recognises CLIENT users, so a PARENT's valid review is
      always answered 500. */
  lemma {:induction false} ParentPassesGateButCannotReview(t: Tables, email: string, u: Id, e: Id, rating: int,
                                                          publicComment: Option<string>, privateFeedback: Option<string>)
    requires email != "" && UserByEmail(t.users, Some(email)) == Some(u) && t.users[u].role == Parent
    requires 1 <= rating <= 5
    ensures Gate.RoleGate(Gate.ReviewRoles, t.users, Some(email), false) == Gate.Pass
    ensures Apply(t, CreateReview(email, Some(e), Some(rating), publicComment, privateFeedback)) == Reply(ServerError, t)
  {
    assert Parent in Gate.ReviewRoles;
    forall k | k in t.users && t.users[k].email == email ensures t.users[k].role != Role.Client {
      assert k == u;
    }
    Rev.NonClientReviewFails(t, email, e, rating, publicComment, privateFeedback);
  }
}
