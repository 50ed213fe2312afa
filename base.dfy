/** Shared vocabulary of the API: optional values, row ids, the enumerations
    stored in the database and the HTTP outcome of a request handler. */
module Base {

  datatype Option<+T> = None | Some(value: T)

  /** Primary keys are serial integers starting at 1, so an id is never
      falsy: a JavaScript `!id` test on an id is a test for null or absent. */
  type Id = i: int | 0 < i witness 1

  datatype Role = SuperAdmin | AcademyAdmin | Advisor | Client | Parent

  datatype EnrollmentStatus = Planning | PendingApproval | Active | Completed | Cancelled

  datatype RequestStatus = PendingReview | PendingPlan | UnderReview | Enrolled

  datatype ClassStatus = Scheduled | Completed | Cancelled

  datatype PaymentStatus = Paid

  datatype ReviewStatus = Published

  datatype VerificationStatus = Pending | Approved | Rejected

  datatype TenantType = IndividualAdvisor | Academy

  /** Why a request was refused with 400 Bad Request. */
  datatype Invalid =
    | MissingFields
    | SubjectsRequired
    | ScheduleRequired
    | RatingOutOfRange
    | BadVerificationStatus
    | BadTenantType
    | AlreadyRegistered
    | NoPlanSubjects
    | WrongState(required: EnrollmentStatus)
    | PlanNotActive
    | StudentMismatch
    | QuotaReached
    | EmptyContent

  /** The HTTP status a handler answers with. */
  datatype Status =
    | Ok
    | Created
    | BadRequest(why: Invalid)
    | Unauthorized
    | Forbidden
    | NotFound
    | Conflict
    | ServerError
  {
    function Code(): int {
      match this
      case Ok => 200
      case Created => 201
      case BadRequest(_) => 400
      case Unauthorized => 401
      case Forbidden => 403
      case NotFound => 404
      case Conflict => 409
      case ServerError => 500
    }

    predicate Success() { Ok? || Created? }
  }

  /** JavaScript truthiness of an optional request string: absent, null and
      the empty string are all falsy. */
  predicate Present(s: Option<string>) {
    s.Some? && s.value != ""
  }

  /** `a || b` on optional strings: the first truthy one, else the fallback. */
  function OrElse(s: Option<string>, fallback: string): string {
    if Present(s) then s.value else fallback
  }

  /** A set with exactly one element has no two distinct elements. */
  lemma SingletonOnly<K>(s: set<K>, a: K, b: K)
    requires |s| == 1 && a in s && b in s
    ensures a == b
  {
    var rest := s - {a};
    assert |rest| == |s| - 1;
    assert rest == {};
  }

  /** A set whose size is not one is empty or has two distinct elements. */
  lemma NotSingleton<K>(s: set<K>)
    requires |s| != 1
    ensures s == {} || exists a, b :: a in s && b in s && a != b
  {
    if s != {} {
      var a :| a in s;
      var rest := s - {a};
      assert |rest| == |s| - 1;
      var b :| b in rest;
      assert a in s && b in s && a != b;
    }
  }

  /** The one element of a singleton set, or None when the set is empty or
      has two distinct elements: the outcome of a `.single()` query. */
  function Single<K(==)>(s: set<K>): (r: Option<K>)
    ensures r.Some? ==> s == {r.value}
    ensures r.None? ==> s == {} || exists a, b :: a in s && b in s && a != b
  {
    if |s| == 1 then
      assert forall a, b | a in s && b in s :: a == b by {
        forall a, b | a in s && b in s ensures a == b { SingletonOnly(s, a, b); }
      }
      var k :| k in s; Some(k)
    else
      NotSingleton(s); None
  }
}
