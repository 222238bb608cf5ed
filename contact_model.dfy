/**
 * The contact model: the request a user sends to the agent of a property,
 * the two listings of requests (the agent's and the user's), and the
 * `markAsRead` update and the delete, each scoped to its owner.
 *
 * The joined display columns (names, e-mail addresses, phone numbers, the
 * property's address, rent and thumbnail) are not carried in the listings;
 * a request still drops out of a listing when a row its joins need is gone.
 * A new request starts unread.
 */
module ContactModel {
  import opened Common
  import opened Db

  /**
   * `createContactRequest(data)`: inserts one unread request with exactly the
   * given user, property, agent and message.
   */
  method CreateContactRequest(db: Database, userId: int, propertyId: int, agentId: int, message: Option<string>,
                              now: int) returns (r: ContactRow)
    modifies db`contacts, db`nextId
    ensures r == ContactRow(old(db.nextId), userId, propertyId, agentId, message, false, now, now)
    ensures db.contacts == old(db.contacts) + [r]
    ensures db.nextId == old(db.nextId) + 1
  {
    var id := db.FreshId();
    r := ContactRow(id, userId, propertyId, agentId, message, false, now, now);
    db.contacts := db.contacts + [r];
  }

  function ContactCreatedAt(c: ContactRow): int { c.createdAt }

  /** The request's user and property rows exist: `JOIN users u`, `JOIN properties p`. */
  predicate AgentSideJoin(c: ContactRow, users: seq<UserRow>, properties: seq<PropertyRow>)
  {
    FindUser(users, c.userId).Some? && FindProperty(properties, c.propertyId).Some?
  }

  /** The request's property, agent and the agent's user row exist. */
  predicate UserSideJoin(c: ContactRow, users: seq<UserRow>, properties: seq<PropertyRow>, agents: seq<AgentRow>)
  {
    FindProperty(properties, c.propertyId).Some? && FindAgent(agents, c.agentId).Some? &&
    FindUser(users, FindAgent(agents, c.agentId).value.userId).Some?
  }

  /** The rows of `getAgentContactRequests(agentId)`, without the joined columns. */
  function AgentRequests(contacts: seq<ContactRow>, users: seq<UserRow>, properties: seq<PropertyRow>, agentId: int)
    : seq<ContactRow>
  {
    SortDesc(Where(contacts, (c: ContactRow) => c.agentId == agentId && AgentSideJoin(c, users, properties)),
             ContactCreatedAt)
  }

  /** The agent's listing holds exactly its requests whose joins succeed, newest first. */
  lemma AgentRequestsMeaning(contacts: seq<ContactRow>, users: seq<UserRow>, properties: seq<PropertyRow>,
                             agentId: int)
    ensures Descending(AgentRequests(contacts, users, properties, agentId), ContactCreatedAt)
    ensures forall c :: c in AgentRequests(contacts, users, properties, agentId) <==>
      c in contacts && c.agentId == agentId && AgentSideJoin(c, users, properties)
  {
    var selected := Where(contacts, (c: ContactRow) => c.agentId == agentId && AgentSideJoin(c, users, properties));
    var r := AgentRequests(contacts, users, properties, agentId);
    assert r == SortDesc(selected, ContactCreatedAt);
    SortDescCorrect(selected, ContactCreatedAt);
    forall c ensures c in r <==> c in selected
    {
      assert c in r <==> c in multiset(r);
      assert c in selected <==> c in multiset(selected);
    }
  }

  /** `getAgentContactRequests(agentId)`: the agent's requests, newest first. */
  function AgentContactRequests(db: Database, agentId: int): (r: seq<ContactRow>)
    reads db
    ensures Descending(r, ContactCreatedAt)
    ensures forall c :: c in r <==> c in db.contacts && c.agentId == agentId && AgentSideJoin(c, db.users, db.properties)
  {
    AgentRequestsMeaning(db.contacts, db.users, db.properties, agentId);
    AgentRequests(db.contacts, db.users, db.properties, agentId)
  }

  /** The rows of `getUserContactRequests(userId)`, without the joined columns. */
  function UserRequests(contacts: seq<ContactRow>, users: seq<UserRow>, properties: seq<PropertyRow>,
                        agents: seq<AgentRow>, userId: int): seq<ContactRow>
  {
    SortDesc(Where(contacts, (c: ContactRow) => c.userId == userId && UserSideJoin(c, users, properties, agents)),
             ContactCreatedAt)
  }

  /** The user's listing holds exactly its requests whose joins succeed, newest first. */
  lemma UserRequestsMeaning(contacts: seq<ContactRow>, users: seq<UserRow>, properties: seq<PropertyRow>,
                            agents: seq<AgentRow>, userId: int)
    ensures Descending(UserRequests(contacts, users, properties, agents, userId), ContactCreatedAt)
    ensures forall c :: c in UserRequests(contacts, users, properties, agents, userId) <==>
      c in contacts && c.userId == userId && UserSideJoin(c, users, properties, agents)
  {
    var selected := Where(contacts, (c: ContactRow) => c.userId == userId && UserSideJoin(c, users, properties, agents));
    var r := UserRequests(contacts, users, properties, agents, userId);
    assert r == SortDesc(selected, ContactCreatedAt);
    SortDescCorrect(selected, ContactCreatedAt);
    forall c ensures c in r <==> c in selected
    {
      assert c in r <==> c in multiset(r);
      assert c in selected <==> c in multiset(selected);
    }
  }

  /** `getUserContactRequests(userId)`: the user's requests, newest first. */
  function UserContactRequests(db: Database, userId: int): (r: seq<ContactRow>)
    reads db
    ensures Descending(r, ContactCreatedAt)
    ensures forall c :: c in r <==>
      c in db.contacts && c.userId == userId && UserSideJoin(c, db.users, db.properties, db.agents)
  {
    UserRequestsMeaning(db.contacts, db.users, db.properties, db.agents, userId);
    UserRequests(db.contacts, db.users, db.properties, db.agents, userId)
  }

  /** `WHERE request_id = $1 AND agent_id = $2` */
  predicate ReceivedBy(c: ContactRow, requestId: int, agentId: int)
  {
    c.id == requestId && c.agentId == agentId
  }

  /** `WHERE request_id = $1 AND user_id = $2` */
  predicate SentBy(c: ContactRow, requestId: int, userId: int)
  {
    c.id == requestId && c.userId == userId
  }

  /** The first request with the id that the agent received, if any. */
  function FindReceived(contacts: seq<ContactRow>, requestId: int, agentId: int): (r: Option<ContactRow>)
    ensures r.Some? ==> r.value in contacts && ReceivedBy(r.value, requestId, agentId)
    ensures r.None? <==> forall c :: c in contacts ==> !ReceivedBy(c, requestId, agentId)
  {
    if contacts == [] then None
    else if ReceivedBy(contacts[0], requestId, agentId) then Some(contacts[0])
    else FindReceived(contacts[1..], requestId, agentId)
  }

  /** The first request with the id that the user sent, if any. */
  function FindSent(contacts: seq<ContactRow>, requestId: int, userId: int): (r: Option<ContactRow>)
    ensures r.Some? ==> r.value in contacts && SentBy(r.value, requestId, userId)
    ensures r.None? <==> forall c :: c in contacts ==> !SentBy(c, requestId, userId)
  {
    if contacts == [] then None
    else if SentBy(contacts[0], requestId, userId) then Some(contacts[0])
    else FindSent(contacts[1..], requestId, userId)
  }

  /** `SET is_read = true, updated_at = NOW()` on the rows the agent received under the id. */
  function MarkedRead(contacts: seq<ContactRow>, requestId: int, agentId: int, now: int): (r: seq<ContactRow>)
    ensures |r| == |contacts|
    ensures forall k :: 0 <= k < |r| ==> r[k].isRead == (contacts[k].isRead || ReceivedBy(contacts[k], requestId, agentId))
  {
    seq(|contacts|, k requires 0 <= k < |contacts| =>
      if ReceivedBy(contacts[k], requestId, agentId) then contacts[k].(isRead := true, updatedAt := now)
      else contacts[k])
  }

  /**
   * Marking is scoped to the agent: every other row is unchanged, and the
   * marked row keeps all its columns but is_read and updated_at.
   */
  lemma MarkedReadScoped(contacts: seq<ContactRow>, requestId: int, agentId: int, now: int)
    ensures forall k :: 0 <= k < |contacts| && !ReceivedBy(contacts[k], requestId, agentId) ==>
      MarkedRead(contacts, requestId, agentId, now)[k] == contacts[k]
    ensures forall k :: 0 <= k < |contacts| && ReceivedBy(contacts[k], requestId, agentId) ==>
      MarkedRead(contacts, requestId, agentId, now)[k] == contacts[k].(isRead := true, updatedAt := now)
    ensures FindReceived(contacts, requestId, agentId).None? ==> MarkedRead(contacts, requestId, agentId, now) == contacts
  {
    if FindReceived(contacts, requestId, agentId).None? {
      assert MarkedRead(contacts, requestId, agentId, now) == contacts;
    }
  }

  /** The marked version of the first received row is the first row the marked table shows for it. */
  lemma {:induction false} MarkedReadFound(contacts: seq<ContactRow>, requestId: int, agentId: int, now: int)
    requires FindReceived(contacts, requestId, agentId).Some?
    ensures FindReceived(MarkedRead(contacts, requestId, agentId, now), requestId, agentId) ==
            Some(FindReceived(contacts, requestId, agentId).value.(isRead := true, updatedAt := now))
  {
    if !ReceivedBy(contacts[0], requestId, agentId) {
      MarkedReadFound(contacts[1..], requestId, agentId, now);
      assert MarkedRead(contacts, requestId, agentId, now)[1..] == MarkedRead(contacts[1..], requestId, agentId, now);
    }
  }

  /**
   * `markAsRead(requestId, agentId)`: only a request with the id that the
   * agent received is marked; the result is the marked row, or undefined
   * when there is none.
   */
  method MarkAsRead(db: Database, requestId: int, agentId: int, now: int) returns (r: Option<ContactRow>)
    modifies db`contacts
    ensures db.contacts == MarkedRead(old(db.contacts), requestId, agentId, now)
    ensures r.None? <==> forall c :: c in old(db.contacts) ==> !ReceivedBy(c, requestId, agentId)
    ensures r.Some? ==>
      r == Some(FindReceived(old(db.contacts), requestId, agentId).value.(isRead := true, updatedAt := now)) &&
      r.value in db.contacts && r.value.isRead
  {
    var rows := db.contacts;
    db.contacts := MarkedRead(rows, requestId, agentId, now);
    var found := FindReceived(rows, requestId, agentId);
    if found.None? {
      return None;
    }
    MarkedReadFound(rows, requestId, agentId, now);
    r := Some(found.value.(isRead := true, updatedAt := now));
  }

  /** `DELETE FROM contact_requests WHERE request_id = $1 AND user_id = $2` */
  function ContactsWithout(contacts: seq<ContactRow>, requestId: int, userId: int): (r: seq<ContactRow>)
    ensures forall c :: c in r <==> c in contacts && !SentBy(c, requestId, userId)
  {
    Where(contacts, (c: ContactRow) => !SentBy(c, requestId, userId))
  }

  /**
   * `deleteContactRequest(requestId, userId)`: removes only a request with
   * the id that the user sent, returning it, or undefined when there is none.
   */
  method DeleteContactRequest(db: Database, requestId: int, userId: int) returns (r: Option<ContactRow>)
    modifies db`contacts
    ensures db.contacts == ContactsWithout(old(db.contacts), requestId, userId)
    ensures r == FindSent(old(db.contacts), requestId, userId)
    ensures r.None? ==> db.contacts == old(db.contacts)
  {
    r := FindSent(db.contacts, requestId, userId);
    if r.None? {
      WhereAll(db.contacts, (c: ContactRow) => !SentBy(c, requestId, userId));
    }
    db.contacts := ContactsWithout(db.contacts, requestId, userId);
  }
}
