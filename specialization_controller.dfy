/** The subjects a tenant teaches: listing the caller's tenant's
    specializations and adding one to it. The tenant always comes from the
    caller's advisor row, never from the request. */
module SpecializationController {
  import opened Base
  import opened Store

  /** getTenantIdFromUser: the tenant of the caller's advisor row. */
  function CallerTenant(t: Tables, email: string): Id
    requires CallerAdvisor(t, email).AdvisorRow?
  {
    t.advisors[CallerAdvisor(t, email).id].tenantId
  }

  /** getTenantSpecializations: 500 when the lookup throws, 403 for a
      CLIENT, otherwise every specialization of the caller's tenant. */
  function GetTenantSpecializations(t: Tables, email: string): (r: Listing)
    ensures CallerAdvisor(t, email) == Threw ==> r == Listing(ServerError, {})
    ensures CallerAdvisor(t, email) == ClientCaller ==> r == Listing(Forbidden, {})
    ensures r.status == Ok <==> CallerAdvisor(t, email).AdvisorRow?
    ensures r.status == Ok ==>
      forall k :: k in r.rows <==> k in t.specializations && t.specializations[k].tenantId == CallerTenant(t, email)
  {
    match CallerAdvisor(t, email)
    case Threw => Listing(ServerError, {})
    case ClientCaller => Listing(Forbidden, {})
    case AdvisorRow(a) =>
      Listing(Ok, set k | k in t.specializations && t.specializations[k].tenantId == t.advisors[a].tenantId)
  }

  /** createSpecialization: subject and level are required; the row is
      stored under the caller's tenant. */
  function CreateSpecializationStep(t: Tables, email: string, subject: Option<string>, levelId: Option<Id>): (r: Reply)
    ensures !Present(subject) || levelId.None? ==> r == Reply(BadRequest(MissingFields), t)
    ensures Present(subject) && levelId.Some? && CallerAdvisor(t, email) == Threw ==> r == Reply(ServerError, t)
    ensures Present(subject) && levelId.Some? && CallerAdvisor(t, email) == ClientCaller ==> r == Reply(Forbidden, t)
    ensures r.status == Created <==> Present(subject) && levelId.Some? && CallerAdvisor(t, email).AdvisorRow?
    ensures r.status == Created ==>
      r.db == t.(specializations := t.specializations[t.nextId :=
                   Specialization(CallerTenant(t, email), subject.value, levelId.value)],
                 nextId := t.nextId + 1)
  {
    if !Present(subject) || levelId.None? then Reply(BadRequest(MissingFields), t)
    else
      match CallerAdvisor(t, email)
      case Threw => Reply(ServerError, t)
      case ClientCaller => Reply(Forbidden, t)
      case AdvisorRow(a) =>
        var row := Specialization(t.advisors[a].tenantId, subject.value, levelId.value);
        Reply(Created, t.(specializations := t.specializations[t.nextId := row], nextId := t.nextId + 1))
  }

  /** The createSpecialization handler on the shared database. */
  method CreateSpecialization(db: Database, email: string, subject: Option<string>, levelId: Option<Id>)
    returns (st: Status, specializationId: Option<Id>)
    modifies db
    ensures Reply(st, db.Snapshot()) == CreateSpecializationStep(old(db.Snapshot()), email, subject, levelId)
    ensures specializationId.Some? <==> st == Created
    ensures specializationId.Some? ==> specializationId.value == old(db.nextId)
  {
    if !Present(subject) || levelId.None? {
      return BadRequest(MissingFields), None;
    }
    var caller := CallerAdvisor(db.Snapshot(), email);
    if caller == Threw {
      return ServerError, None;
    }
    if caller == ClientCaller {
      return Forbidden, None;
    }
    var id := db.nextId;
    db.specializations := db.specializations[id := Specialization(db.advisors[caller.id].tenantId, subject.value, levelId.value)];
    db.nextId := id + 1;
    st, specializationId := Created, Some(id);
  }

  /** A created specialization shows up in the creator's listing, next to
      every specialization the tenant already had. */
  lemma {:induction false} CreatedIsListed(t: Tables, email: string, subject: Option<string>, levelId: Option<Id>)
    requires WellFormed(t)
    requires CreateSpecializationStep(t, email, subject, levelId).status == Created
    ensures var t' := CreateSpecializationStep(t, email, subject, levelId).db;
      && GetTenantSpecializations(t', email).status == Ok
      && GetTenantSpecializations(t', email).rows == GetTenantSpecializations(t, email).rows + {t.nextId}
      && t.nextId !in GetTenantSpecializations(t, email).rows
  {
    var t' := CreateSpecializationStep(t, email, subject, levelId).db;
    assert t'.users == t.users && t'.advisors == t.advisors;
    assert CallerAdvisor(t', email) == CallerAdvisor(t, email);
    assert t.nextId !in t.specializations;
  }

  /** Two callers of different tenants never see each other's
      specializations. */
  lemma TenantsAreIsolated(t: Tables, e1: string, e2: string)
    requires CallerAdvisor(t, e1).AdvisorRow? && CallerAdvisor(t, e2).AdvisorRow?
    requires CallerTenant(t, e1) != CallerTenant(t, e2)
    ensures GetTenantSpecializations(t, e1).rows !! GetTenantSpecializations(t, e2).rows
  {
  }
}
