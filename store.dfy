/** The relational store the controllers talk to, as an in-memory database:
    one table per entity, each a map from primary key to row (the
    work_schedules table, which is only filtered, appended to and sorted, is
    a sequence of rows that carry their id), and the sequence that hands out
    fresh primary keys. */
module Store {
  import opened Base

  datatype User = User(email: string, role: Role, fullName: string)

  /** A client may exist before its user account does (public intake form). */
  datatype Client = Client(userId: Option<Id>, tenantId: Id)

  datatype Advisor = Advisor(userId: Id, tenantId: Id)

  datatype Tenant = Tenant(businessName: string, tenantType: TenantType, verification: VerificationStatus)

  datatype Student = Student(clientId: Id)

  datatype TutoringRequest = TutoringRequest(tenantId: Id, studentId: Id, status: RequestStatus)

  datatype Enrollment = Enrollment(requestId: Id, status: EnrollmentStatus)

  /** A subject line of a teaching plan; `numberOfClasses` is the purchased
      quota and is null unless something outside these handlers sets it. */
  datatype PlanSubject = PlanSubject(
    enrollmentId: Id,
    specializationId: Option<Id>,
    advisorId: Option<Id>,
    diagnosis: Option<string>,
    goals: Option<string>,
    methodology: Option<string>,
    numberOfClasses: Option<nat>)

  datatype ClassSession = ClassSession(
    planSubjectId: Id,
    studentId: Id,
    advisorId: Id,
    tenantId: Id,
    startTime: string,
    endTime: string,
    title: string,
    description: Option<string>,
    status: ClassStatus)

  datatype Payment = Payment(enrollmentId: Id, amount: real, paymentMethod: string, status: PaymentStatus)

  datatype Review = Review(
    enrollmentId: Id,
    rating: int,
    publicComment: Option<string>,
    privateFeedback: Option<string>,
    status: ReviewStatus)

  datatype ProgressReport = ProgressReport(
    classId: Id,
    topicsCovered: string,
    strengths: string,
    areasForImprovement: string,
    homework: Option<string>)

  datatype Conversation = Conversation(clientId: Id, advisorId: Id)

  datatype Message = Message(conversationId: Id, senderUserId: Id, content: string)

  /** One weekly availability slot (day 0 is Sunday). */
  datatype Slot = Slot(dayOfWeek: int, startTime: string, endTime: string)

  datatype ScheduleRow = ScheduleRow(id: Id, advisorId: Id, slot: Slot)

  datatype Specialization = Specialization(tenantId: Id, subject: string, levelId: Id)

  /** The whole database as a value. */
  datatype Tables = Tables(
    users: map<Id, User>,
    clients: map<Id, Client>,
    advisors: map<Id, Advisor>,
    tenants: map<Id, Tenant>,
    students: map<Id, Student>,
    tutoringRequests: map<Id, TutoringRequest>,
    enrollments: map<Id, Enrollment>,
    planSubjects: map<Id, PlanSubject>,
    classes: map<Id, ClassSession>,
    payments: map<Id, Payment>,
    reviews: map<Id, Review>,
    progressReports: map<Id, ProgressReport>,
    conversations: map<Id, Conversation>,
    messages: map<Id, Message>,
    workSchedules: seq<ScheduleRow>,
    specializations: map<Id, Specialization>,
    nextId: Id)

  /** A handler's answer together with the database it leaves behind. */
  datatype Reply = Reply(status: Status, db: Tables)

  ghost predicate Below<V>(m: map<Id, V>, n: Id) {
    forall k :: k in m ==> k < n
  }

  /** The id sequence is ahead of every stored key, and every class belongs
      to an existing plan subject (classes.plan_subject_id is a foreign key). */
  ghost predicate WellFormed(t: Tables) {
    && Below(t.users, t.nextId) && Below(t.clients, t.nextId)
    && Below(t.advisors, t.nextId) && Below(t.tenants, t.nextId)
    && Below(t.students, t.nextId) && Below(t.tutoringRequests, t.nextId)
    && Below(t.enrollments, t.nextId) && Below(t.planSubjects, t.nextId)
    && Below(t.classes, t.nextId) && Below(t.payments, t.nextId)
    && Below(t.reviews, t.nextId) && Below(t.progressReports, t.nextId)
    && Below(t.conversations, t.nextId) && Below(t.messages, t.nextId)
    && Below(t.specializations, t.nextId)
    && (forall i :: 0 <= i < |t.workSchedules| ==> t.workSchedules[i].id < t.nextId)
    && (forall c :: c in t.classes ==> t.classes[c].planSubjectId in t.planSubjects)
  }

  /** `enrollments.update({ status }).eq('id', id)` on an existing row. */
  function SetEnrollmentStatus(t: Tables, id: Id, s: EnrollmentStatus): (r: Tables)
    requires id in t.enrollments
    ensures r.enrollments.Keys == t.enrollments.Keys
    ensures r.enrollments[id].status == s && r.enrollments[id].requestId == t.enrollments[id].requestId
    ensures forall k :: k in t.enrollments && k != id ==> r.enrollments[k] == t.enrollments[k]
    ensures r == t.(enrollments := r.enrollments)
  {
    t.(enrollments := t.enrollments[id := t.enrollments[id].(status := s)])
  }

  // ----- `.single()` lookups: exactly one matching row, else an error -----

  function UsersWithEmail(users: map<Id, User>, email: string): set<Id> {
    set k | k in users && users[k].email == email
  }

  /** `users.select(...).eq('email', email).single()` */
  function UserByEmail(users: map<Id, User>, email: Option<string>): (r: Option<Id>)
    ensures r.Some? ==> email.Some? && r.value in users && users[r.value].email == email.value
    ensures r.Some? ==> forall k :: k in users && users[k].email == email.value ==> k == r.value
    ensures r.None? && email.Some? ==>
      (forall k :: k in users ==> users[k].email != email.value)
      || exists a, b :: a in users && b in users && a != b && users[a].email == email.value && users[b].email == email.value
  {
    if email.None? then None
    else
      var s := UsersWithEmail(users, email.value);
      assert forall k :: k in s <==> k in users && users[k].email == email.value;
      Single(s)
  }

  function ClientsOfUser(clients: map<Id, Client>, userId: Id): set<Id> {
    set k | k in clients && clients[k].userId == Some(userId)
  }

  /** `clients.select('id').eq('user_id', userId).single()` */
  function ClientOfUser(clients: map<Id, Client>, userId: Id): (r: Option<Id>)
    ensures r.Some? ==> r.value in clients && clients[r.value].userId == Some(userId)
    ensures r.Some? ==> forall k :: k in clients && clients[k].userId == Some(userId) ==> k == r.value
    ensures r.None? ==>
      (forall k :: k in clients ==> clients[k].userId != Some(userId))
      || exists a, b :: a in clients && b in clients && a != b && clients[a].userId == Some(userId) && clients[b].userId == Some(userId)
  {
    var s := ClientsOfUser(clients, userId);
    assert forall k :: k in s <==> k in clients && clients[k].userId == Some(userId);
    Single(s)
  }

  function AdvisorsOfUser(advisors: map<Id, Advisor>, userId: Id): set<Id> {
    set k | k in advisors && advisors[k].userId == userId
  }

  /** `advisors.select(...).eq('user_id', userId).single()` */
  function AdvisorOfUser(advisors: map<Id, Advisor>, userId: Option<Id>): (r: Option<Id>)
    ensures r.Some? ==> userId.Some? && r.value in advisors && advisors[r.value].userId == userId.value
    ensures r.Some? ==> forall k :: k in advisors && advisors[k].userId == userId.value ==> k == r.value
    ensures r.None? && userId.Some? ==>
      (forall k :: k in advisors ==> advisors[k].userId != userId.value)
      || exists a, b :: a in advisors && b in advisors && a != b && advisors[a].userId == userId.value && advisors[b].userId == userId.value
  {
    if userId.None? then None
    else
      var s := AdvisorsOfUser(advisors, userId.value);
      assert forall k :: k in s <==> k in advisors && advisors[k].userId == userId.value;
      Single(s)
  }

  /** A listing handler's answer: a status and, on 200, the ids it returns. */
  datatype Listing = Listing(status: Status, rows: set<Id>)

  /** Who the caller is to the handlers that act for an advisor: the lookup
      threw (no single user with that email, or no advisor row for a
      non-client), the caller is a CLIENT (null), or the caller's advisor
      row. */
  datatype Resolution = Threw | ClientCaller | AdvisorRow(id: Id)

  /** The email → users → advisors resolution shared by the availability and
      specialization handlers: a CLIENT resolves to null before any advisor
      lookup; every other role must own exactly one advisor row. */
  function CallerAdvisor(t: Tables, email: string): (r: Resolution)
    ensures r == ClientCaller <==>
      UserByEmail(t.users, Some(email)).Some? && t.users[UserByEmail(t.users, Some(email)).value].role == Role.Client
    ensures r.AdvisorRow? <==>
      && UserByEmail(t.users, Some(email)).Some?
      && t.users[UserByEmail(t.users, Some(email)).value].role != Role.Client
      && AdvisorOfUser(t.advisors, UserByEmail(t.users, Some(email))).Some?
    ensures r.AdvisorRow? ==>
      r.id in t.advisors && Some(t.advisors[r.id].userId) == UserByEmail(t.users, Some(email))
  {
    match UserByEmail(t.users, Some(email))
    case None => Threw
    case Some(u) =>
      if t.users[u].role == Role.Client then ClientCaller
      else
        match AdvisorOfUser(t.advisors, Some(u))
        case None => Threw
        case Some(a) => AdvisorRow(a)
  }

  /** The database object the handlers share; every handler method changes
      only the fields of the tables it writes. */
  class Database {
    var users: map<Id, User>
    var clients: map<Id, Client>
    var advisors: map<Id, Advisor>
    var tenants: map<Id, Tenant>
    var students: map<Id, Student>
    var tutoringRequests: map<Id, TutoringRequest>
    var enrollments: map<Id, Enrollment>
    var planSubjects: map<Id, PlanSubject>
    var classes: map<Id, ClassSession>
    var payments: map<Id, Payment>
    var reviews: map<Id, Review>
    var progressReports: map<Id, ProgressReport>
    var conversations: map<Id, Conversation>
    var messages: map<Id, Message>
    var workSchedules: seq<ScheduleRow>
    var specializations: map<Id, Specialization>
    var nextId: Id

    constructor (t: Tables)
      ensures Snapshot() == t
    {
      users, clients, advisors, tenants := t.users, t.clients, t.advisors, t.tenants;
      students, tutoringRequests, enrollments := t.students, t.tutoringRequests, t.enrollments;
      planSubjects, classes, payments, reviews := t.planSubjects, t.classes, t.payments, t.reviews;
      progressReports, conversations, messages := t.progressReports, t.conversations, t.messages;
      workSchedules, specializations, nextId := t.workSchedules, t.specializations, t.nextId;
    }

    /** The current contents of every table. */
    function Snapshot(): Tables
      reads this
    {
      Tables(users, clients, advisors, tenants, students, tutoringRequests, enrollments,
             planSubjects, classes, payments, reviews, progressReports, conversations,
             messages, workSchedules, specializations, nextId)
    }
  }
}
