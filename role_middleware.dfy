/** Role-based access control in front of a route: the caller's role is
    looked up by email in the users table and must be on the route's
    allow-list. */
module RoleMiddleware {
  import opened Base
  import opened Store

  /** What the middleware does with a request: hand it on, answer it with a
      status, or answer 403 naming the caller's role and the roles the
      route requires. */
  datatype Gate = Pass | Halt(status: Status) | WrongRole(userRole: Role, requiredRoles: seq<Role>)

  /** The allow-lists the routes pass to the middleware. */
  const AdminRoles: seq<Role> := [SuperAdmin]
  const ReviewRoles: seq<Role> := [Role.Client, Parent]
  const SpecializationRoles: seq<Role> := [AcademyAdmin, Role.Advisor]
  const AvailabilityRoles: seq<Role> := [AcademyAdmin, Role.Advisor]

  /** roleMiddleware(allowed) on a request whose token carried `email`.
      `lookupThrows` stands for an exception out of the lookup, which the
      handler answers with 500. */
  function RoleGate(allowed: seq<Role>, users: map<Id, User>, email: Option<string>, lookupThrows: bool): (g: Gate)
    ensures g == Pass <==>
      Present(email) && !lookupThrows && UserByEmail(users, email).Some?
      && users[UserByEmail(users, email).value].role in allowed
    ensures !Present(email) ==> g == Halt(Unauthorized)
    ensures Present(email) && lookupThrows ==> g == Halt(ServerError)
    ensures Present(email) && !lookupThrows && UserByEmail(users, email).None? ==> g == Halt(NotFound)
    ensures (Present(email) && !lookupThrows && UserByEmail(users, email).Some?
             && users[UserByEmail(users, email).value].role !in allowed) ==>
      g == WrongRole(users[UserByEmail(users, email).value].role, allowed)
  {
    if !Present(email) then Halt(Unauthorized)
    else if lookupThrows then Halt(ServerError)
    else
      match UserByEmail(users, email)
      case None => Halt(NotFound)
      case Some(u) => if users[u].role in allowed then Pass else WrongRole(users[u].role, allowed)
  }

  /** The gate depends on the allow-list only through its members: a longer
      list lets through everyone a shorter one does, and no one passes an
      empty list. */
  lemma GateMonotone(small: seq<Role>, large: seq<Role>, users: map<Id, User>, email: Option<string>, lookupThrows: bool)
    requires forall role :: role in small ==> role in large
    ensures RoleGate(small, users, email, lookupThrows) == Pass ==> RoleGate(large, users, email, lookupThrows) == Pass
    ensures RoleGate([], users, email, lookupThrows) != Pass
  {
  }

  /** Only a SUPER_ADMIN passes the admin routes, and a SUPER_ADMIN passes
      no other gate. */
  lemma AdminGateIsExclusive(users: map<Id, User>, email: Option<string>)
    ensures RoleGate(AdminRoles, users, email, false) == Pass ==>
      users[UserByEmail(users, email).value].role == SuperAdmin
    ensures RoleGate(AdminRoles, users, email, false) == Pass ==>
      && RoleGate(ReviewRoles, users, email, false) == WrongRole(SuperAdmin, ReviewRoles)
      && RoleGate(SpecializationRoles, users, email, false) == WrongRole(SuperAdmin, SpecializationRoles)
      && RoleGate(AvailabilityRoles, users, email, false) == WrongRole(SuperAdmin, AvailabilityRoles)
  {
  }
}
