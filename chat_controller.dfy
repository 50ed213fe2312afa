/** Conversations between a client and an advisor: resolving the caller's
    profile, listing the caller's conversations, reading and posting the
    messages of a conversation the caller takes part in. */
module ChatController {
  import opened Base
  import opened Store

  /** The caller as the chat handlers see it: the numeric user id, the role,
      and the client or advisor row that the role implies. */
  datatype Profile = Profile(userId: Id, role: Role, clientId: Option<Id>, advisorId: Option<Id>)

  /** Why the profile could not be resolved; each is thrown and becomes 500. */
  datatype ProfileError = UserMissing | ClientMissing | AdvisorMissing

  datatype ProfileResult = Found(profile: Profile) | Failed(error: ProfileError)

  /** Roles that own an advisor row. */
  predicate AdvisorRole(role: Role) {
    role == Role.Advisor || role == AcademyAdmin
  }

  /** The caller's profile: the user with that email (exactly one), then the
      client row of a CLIENT or the advisor row of an ADVISOR or
      ACADEMY_ADMIN; any other role has neither. */
  function ResolveProfile(t: Tables, email: string): (r: ProfileResult)
    ensures r == Failed(UserMissing) <==> UserByEmail(t.users, Some(email)).None?
    ensures r.Found? ==>
      && UserByEmail(t.users, Some(email)) == Some(r.profile.userId)
      && r.profile.role == t.users[r.profile.userId].role
    ensures r.Found? && r.profile.role == Role.Client ==>
      r.profile.clientId.Some? && r.profile.clientId == ClientOfUser(t.clients, r.profile.userId) && r.profile.advisorId.None?
    ensures r.Found? && AdvisorRole(r.profile.role) ==>
      r.profile.advisorId.Some? && r.profile.advisorId == AdvisorOfUser(t.advisors, Some(r.profile.userId)) && r.profile.clientId.None?
    ensures r.Found? && r.profile.role != Role.Client && !AdvisorRole(r.profile.role) ==>
      r.profile.clientId.None? && r.profile.advisorId.None?
    ensures r == Failed(ClientMissing) <==>
      (exists u :: UserByEmail(t.users, Some(email)) == Some(u) && t.users[u].role == Role.Client && ClientOfUser(t.clients, u).None?)
    ensures r == Failed(AdvisorMissing) <==>
      (exists u :: UserByEmail(t.users, Some(email)) == Some(u) && AdvisorRole(t.users[u].role) && AdvisorOfUser(t.advisors, Some(u)).None?)
  {
    match UserByEmail(t.users, Some(email))
    case None => Failed(UserMissing)
    case Some(u) =>
      var role := t.users[u].role;
      if role == Role.Client then
        match ClientOfUser(t.clients, u)
        case None => Failed(ClientMissing)
        case Some(c) => Found(Profile(u, role, Some(c), None))
      else if AdvisorRole(role) then
        match AdvisorOfUser(t.advisors, Some(u))
        case None => Failed(AdvisorMissing)
        case Some(a) => Found(Profile(u, role, None, Some(a)))
      else Found(Profile(u, role, None, None))
  }

  /** getUserProfile: starts from a profile with both ids null and fills in
      the one the role calls for. */
  method GetUserProfile(db: Database, email: string) returns (r: ProfileResult)
    ensures r == ResolveProfile(db.Snapshot(), email)
  {
    var user := UserByEmail(db.users, Some(email));
    if user.None? {
      return Failed(UserMissing);
    }
    var profile := Profile(user.value, db.users[user.value].role, None, None);
    if profile.role == Role.Client {
      var client := ClientOfUser(db.clients, user.value);
      if client.None? {
        return Failed(ClientMissing);
      }
      profile := profile.(clientId := client);
    } else if profile.role == Role.Advisor || profile.role == AcademyAdmin {
      var advisor := AdvisorOfUser(db.advisors, user);
      if advisor.None? {
        return Failed(AdvisorMissing);
      }
      profile := profile.(advisorId := advisor);
    }
    return Found(profile);
  }

  /** The caller takes part in a conversation through its client row or
      through its advisor row. */
  predicate IsParticipant(p: Profile, c: Conversation) {
    (p.clientId.Some? && c.clientId == p.clientId.value)
    || (p.advisorId.Some? && c.advisorId == p.advisorId.value)
  }

  /** getConversations: a CLIENT sees the conversations of its client row,
      a caller with an advisor row those of its advisor row, anyone else
      is refused. */
  function GetConversations(t: Tables, email: string): (r: Listing)
    ensures ResolveProfile(t, email).Failed? <==> r.status == ServerError
    ensures r.status == Forbidden <==>
      ResolveProfile(t, email).Found? && ResolveProfile(t, email).profile.clientId.None? && ResolveProfile(t, email).profile.advisorId.None?
    ensures r.status in {Ok, Forbidden, ServerError}
    ensures r.status != Ok ==> r.rows == {}
    ensures r.status == Ok ==>
      ResolveProfile(t, email).Found? &&
      forall c :: c in r.rows <==> c in t.conversations && IsParticipant(ResolveProfile(t, email).profile, t.conversations[c])
  {
    match ResolveProfile(t, email)
    case Failed(_) => Listing(ServerError, {})
    case Found(p) =>
      if p.role == Role.Client then
        Listing(Ok, set c | c in t.conversations && t.conversations[c].clientId == p.clientId.value)
      else if p.advisorId.Some? then
        Listing(Ok, set c | c in t.conversations && t.conversations[c].advisorId == p.advisorId.value)
      else Listing(Forbidden, {})
  }

  /** The messages stored under a conversation. */
  function MessagesOf(messages: map<Id, Message>, conversationId: Id): set<Id> {
    set m | m in messages && messages[m].conversationId == conversationId
  }

  /** getMessages: profile, then the conversation (404), then the participant
      check (403), then every message of the conversation. */
  function GetMessages(t: Tables, email: string, conversationId: Id): (r: Listing)
    ensures r.status == Ok <==>
      && ResolveProfile(t, email).Found?
      && conversationId in t.conversations
      && IsParticipant(ResolveProfile(t, email).profile, t.conversations[conversationId])
    ensures ResolveProfile(t, email).Failed? ==> r.status == ServerError
    ensures ResolveProfile(t, email).Found? && conversationId !in t.conversations ==> r.status == NotFound
    ensures (ResolveProfile(t, email).Found? && conversationId in t.conversations
             && !IsParticipant(ResolveProfile(t, email).profile, t.conversations[conversationId])) ==> r.status == Forbidden
    ensures r.status == Ok ==>
      forall m :: m in r.rows <==> m in t.messages && t.messages[m].conversationId == conversationId
    ensures r.status != Ok ==> r.rows == {}
  {
    match ResolveProfile(t, email)
    case Failed(_) => Listing(ServerError, {})
    case Found(p) =>
      if conversationId !in t.conversations then Listing(NotFound, {})
      else if !IsParticipant(p, t.conversations[conversationId]) then Listing(Forbidden, {})
      else Listing(Ok, MessagesOf(t.messages, conversationId))
  }

  /** sendMessage: the content must be truthy; then the same checks as
      getMessages; the message is stored as sent by the caller's user id. */
  function SendMessageStep(t: Tables, email: string, conversationId: Id, content: Option<string>): (r: Reply)
    ensures !Present(content) ==> r == Reply(BadRequest(EmptyContent), t)
    ensures r.status == Created <==> Present(content) && GetMessages(t, email, conversationId).status == Ok
    ensures Present(content) && r.status != Created ==>
      r == Reply(GetMessages(t, email, conversationId).status, t)
    ensures r.status == Created ==>
      && r.db == t.(messages := r.db.messages, nextId := t.nextId + 1)
      && r.db.messages == t.messages[t.nextId := Message(conversationId, ResolveProfile(t, email).profile.userId, content.value)]
  {
    if !Present(content) then Reply(BadRequest(EmptyContent), t)
    else
      var view := GetMessages(t, email, conversationId);
      if view.status != Ok then Reply(view.status, t)
      else
        var sender := ResolveProfile(t, email).profile.userId;
        var row := Message(conversationId, sender, content.value);
        Reply(Created, t.(messages := t.messages[t.nextId := row], nextId := t.nextId + 1))
  }

  /** The sendMessage handler on the shared database; answers with the new
      message's id on 201. */
  method SendMessage(db: Database, email: string, conversationId: Id, content: Option<string>)
    returns (st: Status, messageId: Option<Id>)
    modifies db
    ensures Reply(st, db.Snapshot()) == SendMessageStep(old(db.Snapshot()), email, conversationId, content)
    ensures messageId.Some? <==> st == Created
    ensures messageId.Some? ==> messageId.value == old(db.nextId)
  {
    messageId := None;
    ghost var t0 := db.Snapshot();
    if !Present(content) {
      return BadRequest(EmptyContent), None;
    }
    var profile := GetUserProfile(db, email);
    if profile.Failed? {
      return ServerError, None;
    }
    if conversationId !in db.conversations {
      return NotFound, None;
    }
    if !IsParticipant(profile.profile, db.conversations[conversationId]) {
      return Forbidden, None;
    }
    var id := db.nextId;
    db.messages := db.messages[id := Message(conversationId, profile.profile.userId, content.value)];
    db.nextId := id + 1;
    assert db.Snapshot() == t0.(messages := db.messages, nextId := db.nextId);
    st, messageId := Created, Some(id);
  }

  /** A CLIENT takes part exactly in the conversations of its client row, an
      ADVISOR or ACADEMY_ADMIN exactly in those of its advisor row, and a
      SUPER_ADMIN or PARENT in none. */
  lemma ParticipationFollowsRole(t: Tables, email: string, c: Conversation)
    requires ResolveProfile(t, email).Found?
    ensures var p := ResolveProfile(t, email).profile;
      && (p.role == Role.Client ==> (IsParticipant(p, c) <==> Some(c.clientId) == ClientOfUser(t.clients, p.userId)))
      && (AdvisorRole(p.role) ==> (IsParticipant(p, c) <==> Some(c.advisorId) == AdvisorOfUser(t.advisors, Some(p.userId))))
      && (p.role in {SuperAdmin, Parent} ==> !IsParticipant(p, c))
  {
  }

  /** Whatever conversation getConversations lists, getMessages lets the same
      caller read. */
  lemma ListedConversationsAreReadable(t: Tables, email: string, c: Id)
    requires GetConversations(t, email).status == Ok && c in GetConversations(t, email).rows
    ensures GetMessages(t, email, c).status == Ok
  {
  }

  /** After a 201 from sendMessage, the caller reads the same conversation
      back with exactly one more message: the one just stored. */
  lemma {:induction false} SendThenRead(t: Tables, email: string, conversationId: Id, content: Option<string>)
    requires WellFormed(t)
    requires SendMessageStep(t, email, conversationId, content).status == Created
    ensures var t' := SendMessageStep(t, email, conversationId, content).db;
      && GetMessages(t', email, conversationId).status == Ok
      && GetMessages(t', email, conversationId).rows == GetMessages(t, email, conversationId).rows + {t.nextId}
      && t.nextId !in GetMessages(t, email, conversationId).rows
  {
    var t' := SendMessageStep(t, email, conversationId, content).db;
    assert t'.users == t.users && t'.clients == t.clients && t'.advisors == t.advisors;
    assert ResolveProfile(t', email) == ResolveProfile(t, email);
    assert t'.conversations == t.conversations;
    assert MessagesOf(t'.messages, conversationId) == MessagesOf(t.messages, conversationId) + {t.nextId};
  }
}
