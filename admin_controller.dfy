/** The platform administrator's view of tenants: the simplified tenant
    listing with its admin-contact fallback, and approving or rejecting a
    tenant. */
module AdminController {
  import opened Base
  import opened Store

  /** The user behind one of a tenant's advisors, as the nested select
      returns it. */
  datatype Contact = Contact(fullName: Option<string>, email: Option<string>, role: Role)

  /** One row of the nested tenants → advisors → users select. */
  datatype TenantRow = TenantRow(
    id: Id,
    businessName: string,
    tenantType: TenantType,
    verification: VerificationStatus,
    advisors: seq<Contact>)

  /** One entry of the simplified listing. */
  datatype TenantSummary = TenantSummary(
    tenantId: Id,
    businessName: string,
    tenantType: TenantType,
    verification: VerificationStatus,
    adminName: string,
    adminEmail: string)

  /** `advisors.find(a => a.users.role === 'ACADEMY_ADMIN')`, as a position. */
  function FirstAdmin(advisors: seq<Contact>): (r: Option<nat>)
    ensures r.Some? ==> r.value < |advisors| && advisors[r.value].role == AcademyAdmin
    ensures r.Some? ==> forall j :: 0 <= j < r.value ==> advisors[j].role != AcademyAdmin
    ensures r.None? ==> forall j :: 0 <= j < |advisors| ==> advisors[j].role != AcademyAdmin
  {
    if |advisors| == 0 then None
    else if advisors[0].role == AcademyAdmin then Some(0)
    else
      match FirstAdmin(advisors[1..])
      case None => None
      case Some(i) => Some(i + 1)
  }

  /** `adminUser?.f || primaryUser?.f || 'N/A'` for one field `f`: the first
      ACADEMY_ADMIN's value if truthy, else the first advisor's if truthy,
      else "N/A". */
  function ContactField(advisors: seq<Contact>, field: Contact -> Option<string>): (r: string)
    ensures r != ""
    ensures FirstAdmin(advisors).Some? && Present(field(advisors[FirstAdmin(advisors).value])) ==>
      r == field(advisors[FirstAdmin(advisors).value]).value
    ensures (FirstAdmin(advisors).None? || !Present(field(advisors[FirstAdmin(advisors).value]))) ==>
      r == if |advisors| > 0 && Present(field(advisors[0])) then field(advisors[0]).value else "N/A"
  {
    var fromAdmin := match FirstAdmin(advisors) case Some(i) => field(advisors[i]) case None => None;
    var fromFirst := if |advisors| > 0 then field(advisors[0]) else None;
    OrElse(fromAdmin, OrElse(fromFirst, "N/A"))
  }

  /** The `tenants.map(...)` of getAllTenants. */
  function SimplifyTenants(rows: seq<TenantRow>): (r: seq<TenantSummary>)
    ensures |r| == |rows|
    ensures forall i :: 0 <= i < |r| ==>
      && r[i].tenantId == rows[i].id && r[i].businessName == rows[i].businessName
      && r[i].tenantType == rows[i].tenantType && r[i].verification == rows[i].verification
      && r[i].adminName == ContactField(rows[i].advisors, (c: Contact) => c.fullName)
      && r[i].adminEmail == ContactField(rows[i].advisors, (c: Contact) => c.email)
  {
    seq(|rows|, i requires 0 <= i < |rows| =>
      TenantSummary(rows[i].id, rows[i].businessName, rows[i].tenantType, rows[i].verification,
                    ContactField(rows[i].advisors, (c: Contact) => c.fullName),
                    ContactField(rows[i].advisors, (c: Contact) => c.email)))
  }

  /** The name and the email fall back independently: an admin without a
      name but with an email is listed with the first advisor's name and
      the admin's own email. */
  lemma FallbacksAreIndependent()
    ensures var advisors := [Contact(Some("Ana"), Some("ana@x"), Role.Advisor), Contact(None, Some("boss@x"), AcademyAdmin)];
      && ContactField(advisors, (c: Contact) => c.fullName) == "Ana"
      && ContactField(advisors, (c: Contact) => c.email) == "boss@x"
  {
    var advisors := [Contact(Some("Ana"), Some("ana@x"), Role.Advisor), Contact(None, Some("boss@x"), AcademyAdmin)];
    assert FirstAdmin(advisors[1..]) == Some(0);
  }

  /** The body's verification_status, accepted only as APPROVED or REJECTED. */
  function ParseVerification(s: Option<string>): (r: Option<VerificationStatus>)
    ensures r.Some? <==> s == Some("APPROVED") || s == Some("REJECTED")
    ensures r.Some? ==> r.value != Pending
  {
    if s == Some("APPROVED") then Some(Approved)
    else if s == Some("REJECTED") then Some(Rejected)
    else None
  }

  /** How a verification status is written in the database. */
  function VerificationName(v: VerificationStatus): string {
    match v
    case Pending => "PENDING"
    case Approved => "APPROVED"
    case Rejected => "REJECTED"
  }

  /** Every status an administrator may set is accepted under its own name,
      and PENDING, the status a tenant starts in, is not. */
  lemma {:induction false} ParseVerificationRoundTrip(v: VerificationStatus)
    ensures ParseVerification(Some(VerificationName(v))) == if v == Pending then None else Some(v)
  {
    if v == Pending {
      assert VerificationName(v) != "APPROVED" && VerificationName(v) != "REJECTED" by {
        assert VerificationName(v)[0] == 'P';
      }
    }
  }

  /** verifyTenant: 400 for any other value, 404 when no tenant row has the
      id, otherwise only that tenant's verification status changes. */
  function VerifyTenantStep(t: Tables, tenantId: Id, status: Option<string>): (r: Reply)
    ensures ParseVerification(status).None? ==> r == Reply(BadRequest(BadVerificationStatus), t)
    ensures ParseVerification(status).Some? && tenantId !in t.tenants ==> r == Reply(NotFound, t)
    ensures r.status == Ok <==> ParseVerification(status).Some? && tenantId in t.tenants
    ensures r.status == Ok ==>
      && r.db == t.(tenants := r.db.tenants)
      && r.db.tenants.Keys == t.tenants.Keys
      && r.db.tenants[tenantId] == t.tenants[tenantId].(verification := ParseVerification(status).value)
      && forall k :: k in t.tenants && k != tenantId ==> r.db.tenants[k] == t.tenants[k]
  {
    match ParseVerification(status)
    case None => Reply(BadRequest(BadVerificationStatus), t)
    case Some(v) =>
      if tenantId !in t.tenants then Reply(NotFound, t)
      else Reply(Ok, t.(tenants := t.tenants[tenantId := t.tenants[tenantId].(verification := v)]))
  }

  /** The verifyTenant handler on the shared database. */
  method VerifyTenant(db: Database, tenantId: Id, status: Option<string>) returns (st: Status)
    modifies db
    ensures Reply(st, db.Snapshot()) == VerifyTenantStep(old(db.Snapshot()), tenantId, status)
  {
    var v := ParseVerification(status);
    if v.None? {
      return BadRequest(BadVerificationStatus);
    }
    if tenantId !in db.tenants {
      return NotFound;
    }
    db.tenants := db.tenants[tenantId := db.tenants[tenantId].(verification := v.value)];
    st := Ok;
  }

  /** Verifying twice with the same status is the same as verifying once. */
  lemma {:induction false} VerifyTenantIdempotent(t: Tables, tenantId: Id, status: Option<string>)
    ensures var once := VerifyTenantStep(t, tenantId, status);
      VerifyTenantStep(once.db, tenantId, status) == Reply(once.status, once.db)
  {
    var once := VerifyTenantStep(t, tenantId, status);
    if once.status == Ok {
      assert once.db.tenants[tenantId := once.db.tenants[tenantId].(verification := ParseVerification(status).value)]
          == once.db.tenants;
    }
  }
}
