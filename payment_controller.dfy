/** Recording a payment: the payment row is inserted first, then the
    enrollment it pays for is forced to ACTIVE. The two writes are not
    undone together. */
module PaymentController {
  import opened Base
  import opened Store

  /** `!amount` is false for an absent amount and for zero. */
  predicate PresentAmount(a: Option<real>) {
    a.Some? && a.value != 0.0
  }

  /** registerPayment. `insertFails` and `updateFails` stand for a store
      error on the insert into payments and on the update of enrollments. */
  function RegisterPaymentStep(t: Tables, enrollmentId: Option<Id>, amount: Option<real>, paymentMethod: Option<string>,
                               insertFails: bool, updateFails: bool): (r: Reply)
    ensures enrollmentId.None? || !PresentAmount(amount) || !Present(paymentMethod) ==>
      r == Reply(BadRequest(MissingFields), t)
    ensures enrollmentId.Some? && PresentAmount(amount) && Present(paymentMethod) && insertFails ==>
      r == Reply(ServerError, t)
    ensures r.status == Created <==>
      enrollmentId.Some? && PresentAmount(amount) && Present(paymentMethod) && !insertFails && !updateFails
      && enrollmentId.value in t.enrollments
    // once the insert succeeded the payment row stays, whatever happens next
    ensures enrollmentId.Some? && PresentAmount(amount) && Present(paymentMethod) && !insertFails ==>
      && r.db.payments == t.payments[t.nextId := Payment(enrollmentId.value, amount.value, paymentMethod.value, Paid)]
      && r.db.nextId == t.nextId + 1
      && (updateFails ==> r.status == ServerError && r.db.enrollments == t.enrollments)
      && (!updateFails && enrollmentId.value !in t.enrollments ==> r.status == NotFound && r.db.enrollments == t.enrollments)
    ensures r.status == Created ==>
      r.db.enrollments == t.enrollments[enrollmentId.value := t.enrollments[enrollmentId.value].(status := Active)]
    ensures r.db == t.(payments := r.db.payments, enrollments := r.db.enrollments, nextId := r.db.nextId)
  {
    if enrollmentId.None? || !PresentAmount(amount) || !Present(paymentMethod) then
      Reply(BadRequest(MissingFields), t)
    else if insertFails then Reply(ServerError, t)
    else
      var paid := t.(payments := t.payments[t.nextId := Payment(enrollmentId.value, amount.value, paymentMethod.value, Paid)],
                     nextId := t.nextId + 1);
      if updateFails then Reply(ServerError, paid)
      else if enrollmentId.value !in paid.enrollments then Reply(NotFound, paid)
      else Reply(Created, SetEnrollmentStatus(paid, enrollmentId.value, Active))
  }

  /** The registerPayment handler on the shared database: two writes in a
      row, the second one skipped or missing its row without undoing the
      first. */
  method RegisterPayment(db: Database, enrollmentId: Option<Id>, amount: Option<real>, paymentMethod: Option<string>,
                         insertFails: bool, updateFails: bool)
    returns (st: Status, paymentId: Option<Id>)
    modifies db
    ensures Reply(st, db.Snapshot()) ==
            RegisterPaymentStep(old(db.Snapshot()), enrollmentId, amount, paymentMethod, insertFails, updateFails)
    ensures paymentId.Some? ==> paymentId.value == old(db.nextId) && paymentId.value in db.payments
    ensures st == Created ==> paymentId.Some?
  {
    ghost var t0 := db.Snapshot();
    if enrollmentId.None? || !PresentAmount(amount) || !Present(paymentMethod) {
      return BadRequest(MissingFields), None;
    }
    if insertFails {
      return ServerError, None;
    }
    var id := db.nextId;
    db.payments := db.payments[id := Payment(enrollmentId.value, amount.value, paymentMethod.value, Paid)];
    db.nextId := id + 1;
    paymentId := Some(id);
    ghost var paid := t0.(payments := t0.payments[t0.nextId := Payment(enrollmentId.value, amount.value, paymentMethod.value, Paid)],
                          nextId := t0.nextId + 1);
    assert db.Snapshot() == paid;
    if updateFails {
      return ServerError, paymentId;
    }
    if enrollmentId.value !in db.enrollments {
      return NotFound, paymentId;
    }
    var e := enrollmentId.value;
    db.enrollments := db.enrollments[e := db.enrollments[e].(status := Active)];
    assert db.Snapshot() == SetEnrollmentStatus(paid, e, Active);
    st := Created;
  }

  /** A 201 leaves the enrollment ACTIVE whatever status it had before, with
      its tutoring request unchanged, and nothing else but the new payment
      row differs. */
  lemma {:induction false} PaymentForcesActive(t: Tables, e: Id, amount: Option<real>, paymentMethod: Option<string>)
    requires e in t.enrollments
    requires PresentAmount(amount) && Present(paymentMethod)
    ensures var r := RegisterPaymentStep(t, Some(e), amount, paymentMethod, false, false);
      && r.status == Created
      && r.db.enrollments[e] == Enrollment(t.enrollments[e].requestId, Active)
      && (forall k :: k in t.enrollments && k != e ==> r.db.enrollments[k] == t.enrollments[k])
      && r.db.tutoringRequests == t.tutoringRequests && r.db.planSubjects == t.planSubjects
  {
    var r := RegisterPaymentStep(t, Some(e), amount, paymentMethod, false, false);
    assert r.db.enrollments == t.enrollments[e := t.enrollments[e].(status := Active)];
  }

  /** With no enrollment row to update the answer is 404, yet the payment
      has been stored: the number of payments grows by one. */
  lemma {:induction false} MissingEnrollmentKeepsPayment(t: Tables, e: Id, amount: Option<real>, paymentMethod: Option<string>)
    requires WellFormed(t)
    requires e !in t.enrollments
    requires PresentAmount(amount) && Present(paymentMethod)
    ensures var r := RegisterPaymentStep(t, Some(e), amount, paymentMethod, false, false);
      && r.status == NotFound
      && |r.db.payments| == |t.payments| + 1
      && r.db.enrollments == t.enrollments
  {
    var r := RegisterPaymentStep(t, Some(e), amount, paymentMethod, false, false);
    var p := Payment(e, amount.value, paymentMethod.value, Paid);
    assert r.db.payments == t.payments[t.nextId := p];
    assert t.nextId !in t.payments;
    assert t.payments[t.nextId := p].Keys == t.payments.Keys + {t.nextId};
  }
}
