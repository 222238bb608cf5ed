/**
 * The contact controller: a request is sent to the agent that owns the
 * property at the time of sending; an agent marks the requests it received,
 * and a user deletes the requests it sent.
 */
module ContactController {
  import opened Common
  import opened Db
  import opened PropertyModel
  import opened AgentModel
  import opened ContactModel

  const PROPERTY_NOT_FOUND := Response(404, "Property not found")
  const REQUEST_SENT := Response(201, "Contact request sent successfully")
  const ONLY_AGENTS_VIEW := Response(403, "Only agents can view contact requests")
  /** The listings answer 200 with the requests and no message. */
  const REQUESTS_LISTED := Response(200, "")
  const ONLY_AGENTS_MARK := Response(403, "Only agents can mark contact requests as read")
  const REQUEST_NOT_FOUND := Response(404, "Contact request not found")
  const MARKED_READ := Response(200, "Contact request marked as read")
  const REQUEST_DELETED := Response(200, "Contact request deleted successfully")

  /**
   * `createContactRequest(req, res)`: 404 and no write when the property is
   * missing, inactive or without its agent and user rows; otherwise one
   * unread request from the caller to the property's agent, with a falsy
   * message stored as NULL.
   */
  method CreateContactRequestHandler(db: Database, user: Claims, propertyId: int, message: Option<string>, now: int)
    returns (resp: Response, request: Option<ContactRow>)
    modifies db`contacts, db`nextId
    ensures old(PropertyById(db, propertyId)).None? ==> resp == PROPERTY_NOT_FOUND && request.None? && unchanged(db)
    ensures old(PropertyById(db, propertyId)).Some? ==>
      var row := ContactRow(old(db.nextId), user.id, propertyId, old(PropertyById(db, propertyId)).value.property.agentId,
                            StrOrNull(message), false, now, now);
      resp == REQUEST_SENT && request == Some(row) && db.contacts == old(db.contacts) + [row] &&
      db.nextId == old(db.nextId) + 1
  {
    var property := PropertyById(db, propertyId);
    if property.None? {
      return PROPERTY_NOT_FOUND, None;
    }
    var row := CreateContactRequest(db, user.id, propertyId, property.value.property.agentId, StrOrNull(message), now);
    resp, request := REQUEST_SENT, Some(row);
  }

  /** What `getAgentContactRequests(req, res)` sends. */
  datatype RequestsReply = RequestsReply(resp: Response, requests: seq<ContactRow>)

  /**
   * `getAgentContactRequests(req, res)`: 403 for a caller without an agent
   * row; otherwise every request the caller's agent received whose sender and
   * property rows exist, and no other, newest first.
   */
  function AgentRequestsHandler(db: Database, user: Claims): (r: RequestsReply)
    reads db
    ensures r.resp == ONLY_AGENTS_VIEW <==> AgentByUserId(db, user.id).None?
    ensures r.resp == ONLY_AGENTS_VIEW ==> r.requests == []
    ensures r.resp != ONLY_AGENTS_VIEW ==>
      r.resp == REQUESTS_LISTED &&
      Descending(r.requests, ContactCreatedAt) &&
      (forall c :: c in r.requests <==>
         c in db.contacts && c.agentId == AgentByUserId(db, user.id).value.id &&
         AgentSideJoin(c, db.users, db.properties)) &&
      forall c :: c in r.requests ==> FindAgent(db.agents, c.agentId).Some?
  {
    var agent := AgentByUserId(db, user.id);
    if agent.None? then RequestsReply(ONLY_AGENTS_VIEW, [])
    else RequestsReply(REQUESTS_LISTED, AgentContactRequests(db, agent.value.id))
  }

  /**
   * `markAsRead(req, res)`: 403 for a caller without an agent row and 404
   * when the caller's agent received no request with the id, both without a
   * write; otherwise only that request is marked read.
   */
  method MarkAsReadHandler(db: Database, user: Claims, requestId: int, now: int)
    returns (resp: Response, request: Option<ContactRow>)
    modifies db`contacts
    ensures old(AgentByUserId(db, user.id)).None? ==> resp == ONLY_AGENTS_MARK && db.contacts == old(db.contacts)
    ensures old(AgentByUserId(db, user.id)).Some? ==>
      var agentId := old(AgentByUserId(db, user.id)).value.id;
      db.contacts == MarkedRead(old(db.contacts), requestId, agentId, now) &&
      (resp == REQUEST_NOT_FOUND <==> FindReceived(old(db.contacts), requestId, agentId).None?) &&
      (resp == REQUEST_NOT_FOUND ==> db.contacts == old(db.contacts)) &&
      (resp != REQUEST_NOT_FOUND ==>
         resp == MARKED_READ && request.Some? && request.value.id == requestId && request.value.agentId == agentId)
  {
    var agent := AgentByUserId(db, user.id);
    if agent.None? {
      return ONLY_AGENTS_MARK, None;
    }
    MarkedReadScoped(db.contacts, requestId, agent.value.id, now);
    request := MarkAsRead(db, requestId, agent.value.id, now);
    if request.None? {
      return REQUEST_NOT_FOUND, None;
    }
    resp := MARKED_READ;
  }

  /**
   * `deleteContactRequest(req, res)`: 404 without a write when the caller
   * sent no request with the id (it does not exist or another user sent it);
   * otherwise that request is deleted.
   */
  method DeleteContactRequestHandler(db: Database, user: Claims, requestId: int)
    returns (resp: Response, request: Option<ContactRow>)
    modifies db`contacts
    ensures resp == REQUEST_NOT_FOUND <==> FindSent(old(db.contacts), requestId, user.id).None?
    ensures resp == REQUEST_NOT_FOUND ==> db.contacts == old(db.contacts)
    ensures resp != REQUEST_NOT_FOUND ==>
      resp == REQUEST_DELETED && request == FindSent(old(db.contacts), requestId, user.id) &&
      db.contacts == ContactsWithout(old(db.contacts), requestId, user.id)
    ensures forall c :: c in old(db.contacts) && c.userId != user.id ==> c in db.contacts
  {
    request := DeleteContactRequest(db, requestId, user.id);
    if request.None? {
      return REQUEST_NOT_FOUND, None;
    }
    resp := REQUEST_DELETED;
  }
}
