/** Reviews of an enrollment by the client who owns it: the ownership check
    behind it and the guarded, one-per-enrollment insert. */
module ReviewController {
  import opened Base
  import opened Store

  function ClientUsersWithEmail(users: map<Id, User>, email: string): set<Id> {
    set k | k in users && users[k].email == email && users[k].role == Role.Client
  }

  /** `users.select('id').eq('email', email).eq('role', 'CLIENT').single()`:
      only a CLIENT user can be found, whatever other users share the email. */
  function ClientUserByEmail(users: map<Id, User>, email: string): (r: Option<Id>)
    ensures r.Some? ==> r.value in users && users[r.value].email == email && users[r.value].role == Role.Client
    ensures r.Some? ==> forall k :: k in users && users[k].email == email && users[k].role == Role.Client ==> k == r.value
    ensures (forall k :: k in users && users[k].email == email ==> users[k].role != Role.Client) ==> r.None?
    ensures r.None? <==> |ClientUsersWithEmail(users, email)| != 1
  {
    var s := ClientUsersWithEmail(users, email);
    assert forall k :: k in s <==> k in users && users[k].email == email && users[k].role == Role.Client;
    Single(s)
  }

  /** `enrollment.tutoring_requests?.students?.client_id`: the client that
      owns the student of the enrollment's request, undefined when a link
      of the chain is missing. */
  function OwnerClientOf(t: Tables, enrollmentId: Id): (r: Option<Id>)
    requires enrollmentId in t.enrollments
    ensures r.Some? <==>
      && t.enrollments[enrollmentId].requestId in t.tutoringRequests
      && t.tutoringRequests[t.enrollments[enrollmentId].requestId].studentId in t.students
    ensures r.Some? ==>
      r.value == t.students[t.tutoringRequests[t.enrollments[enrollmentId].requestId].studentId].clientId
  {
    var req := t.enrollments[enrollmentId].requestId;
    if req !in t.tutoringRequests then None
    else
      var student := t.tutoringRequests[req].studentId;
      if student !in t.students then None
      else Some(t.students[student].clientId)
  }

  /** isClientOwnerOfEnrollment: None when one of its lookups throws (no
      CLIENT user with that email, no client row for it, no such
      enrollment); otherwise whether the caller's client row owns the
      enrollment. */
  function IsClientOwner(t: Tables, email: string, enrollmentId: Id): (r: Option<bool>)
    ensures r.None? <==>
      || ClientUserByEmail(t.users, email).None?
      || ClientOfUser(t.clients, ClientUserByEmail(t.users, email).value).None?
      || enrollmentId !in t.enrollments
    ensures r == Some(true) <==>
      exists u, c ::
        && ClientUserByEmail(t.users, email) == Some(u)
        && ClientOfUser(t.clients, u) == Some(c)
        && enrollmentId in t.enrollments
        && OwnerClientOf(t, enrollmentId) == Some(c)
  {
    match ClientUserByEmail(t.users, email)
    case None => None
    case Some(u) =>
      match ClientOfUser(t.clients, u)
      case None => None
      case Some(c) =>
        if enrollmentId !in t.enrollments then None
        else Some(OwnerClientOf(t, enrollmentId) == Some(c))
  }

  /** A rating is truthy unless it is absent or zero. */
  predicate PresentRating(rating: Option<int>) {
    rating.Some? && rating.value != 0
  }

  /** Whether a review of the enrollment is already stored (the unique
      constraint on reviews.enrollment_id). */
  predicate Reviewed(reviews: map<Id, Review>, enrollmentId: Id) {
    exists k :: k in reviews && reviews[k].enrollmentId == enrollmentId
  }

  /** createReview: fields, rating bounds, ownership, then the insert, which
      the unique constraint turns into 409 for a second review. */
  function CreateReviewStep(t: Tables, email: string, enrollmentId: Option<Id>, rating: Option<int>,
                            publicComment: Option<string>, privateFeedback: Option<string>): (r: Reply)
    ensures enrollmentId.None? || !PresentRating(rating) ==> r == Reply(BadRequest(MissingFields), t)
    ensures enrollmentId.Some? && PresentRating(rating) && !(1 <= rating.value <= 5) ==>
      r == Reply(BadRequest(RatingOutOfRange), t)
    ensures r.status == Created <==>
      && enrollmentId.Some? && rating.Some? && 1 <= rating.value <= 5
      && IsClientOwner(t, email, enrollmentId.value) == Some(true)
      && !Reviewed(t.reviews, enrollmentId.value)
    ensures r.status == Created ==>
      r.db == t.(reviews := t.reviews[t.nextId := Review(enrollmentId.value, rating.value, publicComment, privateFeedback, Published)],
                 nextId := t.nextId + 1)
    ensures r.status != Created ==> r.db == t
    ensures enrollmentId.Some? && rating.Some? && 1 <= rating.value <= 5 ==>
      && (IsClientOwner(t, email, enrollmentId.value).None? ==> r.status == ServerError)
      && (IsClientOwner(t, email, enrollmentId.value) == Some(false) ==> r.status == Forbidden)
      && (IsClientOwner(t, email, enrollmentId.value) == Some(true) && Reviewed(t.reviews, enrollmentId.value) ==>
            r.status == Conflict)
  {
    if enrollmentId.None? || !PresentRating(rating) then Reply(BadRequest(MissingFields), t)
    else if rating.value < 1 || rating.value > 5 then Reply(BadRequest(RatingOutOfRange), t)
    else
      match IsClientOwner(t, email, enrollmentId.value)
      case None => Reply(ServerError, t)
      case Some(false) => Reply(Forbidden, t)
      case Some(true) =>
        if Reviewed(t.reviews, enrollmentId.value) then Reply(Conflict, t)
        else
          var row := Review(enrollmentId.value, rating.value, publicComment, privateFeedback, Published);
          Reply(Created, t.(reviews := t.reviews[t.nextId := row], nextId := t.nextId + 1))
  }

  /** The createReview handler on the shared database. */
  method CreateReview(db: Database, email: string, enrollmentId: Option<Id>, rating: Option<int>,
                      publicComment: Option<string>, privateFeedback: Option<string>)
    returns (st: Status, reviewId: Option<Id>)
    modifies db
    ensures Reply(st, db.Snapshot()) ==
            CreateReviewStep(old(db.Snapshot()), email, enrollmentId, rating, publicComment, privateFeedback)
    ensures reviewId.Some? <==> st == Created
    ensures reviewId.Some? ==> reviewId.value == old(db.nextId)
  {
    ghost var t0 := db.Snapshot();
    if enrollmentId.None? || !PresentRating(rating) {
      return BadRequest(MissingFields), None;
    }
    if rating.value < 1 || rating.value > 5 {
      return BadRequest(RatingOutOfRange), None;
    }
    var owner := IsClientOwner(db.Snapshot(), email, enrollmentId.value);
    if owner.None? {
      return ServerError, None;
    }
    if !owner.value {
      return Forbidden, None;
    }
    if Reviewed(db.reviews, enrollmentId.value) {
      return Conflict, None;
    }
    var id := db.nextId;
    db.reviews := db.reviews[id := Review(enrollmentId.value, rating.value, publicComment, privateFeedback, Published)];
    db.nextId := id + 1;
    assert db.Snapshot() == t0.(reviews := db.reviews, nextId := db.nextId);
    st, reviewId := Created, Some(id);
  }

  /** At most one review per enrollment. */
  ghost predicate OneReviewPerEnrollment(reviews: map<Id, Review>) {
    forall a, b :: a in reviews && b in reviews && reviews[a].enrollmentId == reviews[b].enrollmentId ==> a == b
  }

  /** createReview keeps at most one review per enrollment. */
  lemma {:induction false} CreateReviewKeepsUniqueness(t: Tables, email: string, enrollmentId: Option<Id>, rating: Option<int>,
                                                      publicComment: Option<string>, privateFeedback: Option<string>)
    requires WellFormed(t) && OneReviewPerEnrollment(t.reviews)
    ensures var r := CreateReviewStep(t, email, enrollmentId, rating, publicComment, privateFeedback);
      OneReviewPerEnrollment(r.db.reviews) && WellFormed(r.db)
  {
    var r := CreateReviewStep(t, email, enrollmentId, rating, publicComment, privateFeedback);
    if r.status == Created {
      var n := t.nextId;
      assert n !in t.reviews;
      assert forall k :: k in t.reviews ==> t.reviews[k].enrollmentId != enrollmentId.value;
      forall a, b | a in r.db.reviews && b in r.db.reviews && r.db.reviews[a].enrollmentId == r.db.reviews[b].enrollmentId
        ensures a == b
      {
        if a != n && b != n {
          assert t.reviews[a] == r.db.reviews[a] && t.reviews[b] == r.db.reviews[b];
        }
      }
    }
  }

  /** Posting the same review twice: the second attempt is answered 409 and
      stores nothing. */
  lemma {:induction false} SecondReviewConflicts(t: Tables, email: string, e: Id, rating: int,
                                                 publicComment: Option<string>, privateFeedback: Option<string>)
    requires WellFormed(t)
    requires CreateReviewStep(t, email, Some(e), Some(rating), publicComment, privateFeedback).status == Created
    ensures var t' := CreateReviewStep(t, email, Some(e), Some(rating), publicComment, privateFeedback).db;
      CreateReviewStep(t', email, Some(e), Some(rating), publicComment, privateFeedback) == Reply(Conflict, t')
  {
    var t' := CreateReviewStep(t, email, Some(e), Some(rating), publicComment, privateFeedback).db;
    assert t'.users == t.users && t'.clients == t.clients && t'.enrollments == t.enrollments;
    assert t'.tutoringRequests == t.tutoringRequests && t'.students == t.students;
    assert IsClientOwner(t', email, e) == IsClientOwner(t, email, e);
    assert t'.reviews[t.nextId].enrollmentId == e;
  }

  /** A caller whose email belongs to no CLIENT user (a PARENT, say) cannot
      pass the ownership check: a valid review is answered 500. */
  lemma {:induction false} NonClientReviewFails(t: Tables, email: string, e: Id, rating: int,
                                                publicComment: Option<string>, privateFeedback: Option<string>)
    requires 1 <= rating <= 5
    requires forall k :: k in t.users && t.users[k].email == email ==> t.users[k].role != Role.Client
    ensures CreateReviewStep(t, email, Some(e), Some(rating), publicComment, privateFeedback) == Reply(ServerError, t)
  {
    assert ClientUserByEmail(t.users, email).None?;
  }
}
