/**
 * The agent model: lookups that join each agent with its user row,
 * `createAgent`, the patch update `updateAgent`, `updateVerificationStatus`
 * and `getPendingAgents`.
 *
 * The joined user columns (username, email, phone, role) are not carried in
 * the result; a lookup still finds nothing when the agent's user row is gone.
 */
module AgentModel {
  import opened Common
  import opened Db

  /** The agent joined with its user: `... FROM agents a JOIN users u ON a.user_id = u.user_id`. */
  predicate HasUser(a: AgentRow, users: seq<UserRow>)
  {
    FindUser(users, a.userId).Some?
  }

  /** `getAgentById(id)` */
  function AgentById(db: Database, id: int): (r: Option<AgentRow>)
    reads db
    ensures r.Some? ==> r.value in db.agents && r.value.id == id && HasUser(r.value, db.users)
    ensures r.None? <==> FindAgent(db.agents, id).None? || !HasUser(FindAgent(db.agents, id).value, db.users)
  {
    var a := FindAgent(db.agents, id);
    if a.Some? && HasUser(a.value, db.users) then a else None
  }

  /** `getAgentByUserId(userId)`: the first agent row of the user, when the user exists. */
  function AgentByUserId(db: Database, userId: int): (r: Option<AgentRow>)
    reads db
    ensures r.Some? ==> r.value in db.agents && r.value.userId == userId && HasUser(r.value, db.users)
    ensures r.None? <==> FindUser(db.users, userId).None? || forall a :: a in db.agents ==> a.userId != userId
  {
    if FindUser(db.users, userId).Some? then FindAgentOfUser(db.agents, userId) else None
  }

  /**
   * `createAgent(...)`: inserts a pending agent for the user and returns it
   * through `getAgentById`.
   */
  method CreateAgent(db: Database, userId: int, licenseImage: Option<string>, companyName: Option<string>,
                     officeAddress: Option<string>, now: int) returns (r: Option<AgentRow>)
    modifies db`agents, db`nextId
    ensures db.agents == old(db.agents) + [AgentRow(old(db.nextId), userId, licenseImage, companyName, officeAddress, PENDING, now, now)]
    ensures db.nextId == old(db.nextId) + 1
    ensures r == AgentById(db, old(db.nextId))
  {
    var id := db.FreshId();
    db.agents := db.agents + [AgentRow(id, userId, licenseImage, companyName, officeAddress, PENDING, now, now)];
    r := AgentById(db, id);
  }

  /**
   * The row after `updateAgent`: the license image changes only when the new
   * one is truthy, company name and office address whenever they are not
   * undefined (`Some(None)` is an explicit null), and updated_at always.
   */
  function PatchAgent(a: AgentRow, licenseImage: Option<string>, companyName: Option<Option<string>>,
                      officeAddress: Option<Option<string>>, now: int): (b: AgentRow)
    ensures b.id == a.id && b.userId == a.userId && b.status == a.status && b.createdAt == a.createdAt
    ensures b.licenseImage == (if TruthyStr(licenseImage) then licenseImage else a.licenseImage)
    ensures b.companyName == (if companyName.Some? then companyName.value else a.companyName)
    ensures b.officeAddress == (if officeAddress.Some? then officeAddress.value else a.officeAddress)
    ensures b.updatedAt == now
  {
    var b1 := if TruthyStr(licenseImage) then a.(licenseImage := licenseImage) else a;
    var b2 := if companyName.Some? then b1.(companyName := companyName.value) else b1;
    var b3 := if officeAddress.Some? then b2.(officeAddress := officeAddress.value) else b2;
    b3.(updatedAt := now)
  }

  /** The agents table after `updateAgent(agentId, ...)`: the row with the id is patched. */
  function PatchedAgents(rows: seq<AgentRow>, agentId: int, licenseImage: Option<string>,
                         companyName: Option<Option<string>>, officeAddress: Option<Option<string>>,
                         now: int): (r: seq<AgentRow>)
    ensures |r| == |rows|
  {
    seq(|rows|, k requires 0 <= k < |rows| =>
      if rows[k].id == agentId then PatchAgent(rows[k], licenseImage, companyName, officeAddress, now) else rows[k])
  }

  /** `updateAgent(agentId, data)`: null when no row has the id. */
  method UpdateAgent(db: Database, agentId: int, licenseImage: Option<string>, companyName: Option<Option<string>>,
                     officeAddress: Option<Option<string>>, now: int) returns (r: Option<AgentRow>)
    modifies db`agents
    ensures db.agents == PatchedAgents(old(db.agents), agentId, licenseImage, companyName, officeAddress, now)
    ensures FindAgent(old(db.agents), agentId).Some? ==>
      FindAgent(db.agents, agentId) ==
      Some(PatchAgent(FindAgent(old(db.agents), agentId).value, licenseImage, companyName, officeAddress, now))
    ensures FindAgent(old(db.agents), agentId).None? ==> r.None?
    ensures FindAgent(old(db.agents), agentId).Some? ==> r == AgentById(db, agentId)
    ensures r.Some? ==> r.value == PatchAgent(FindAgent(old(db.agents), agentId).value, licenseImage, companyName, officeAddress, now)
  {
    var rows := db.agents;
    db.agents := PatchedAgents(rows, agentId, licenseImage, companyName, officeAddress, now);
    UpdatedFound(rows, db.agents, agentId, (a: AgentRow) => PatchAgent(a, licenseImage, companyName, officeAddress, now));
    if FindAgent(rows, agentId).None? {
      return None;
    }
    r := AgentById(db, agentId);
  }

  /** The agents table after `updateVerificationStatus(agentId, status)`. */
  function WithStatus(rows: seq<AgentRow>, agentId: int, status: string, now: int): (r: seq<AgentRow>)
    ensures |r| == |rows|
  {
    seq(|rows|, k requires 0 <= k < |rows| =>
      if rows[k].id == agentId then rows[k].(status := status, updatedAt := now) else rows[k])
  }

  /**
   * `updateVerificationStatus(agentId, status)`: null when no row has the
   * id; only the status and updated_at of the row change.
   */
  method UpdateVerificationStatus(db: Database, agentId: int, status: string, now: int) returns (r: Option<AgentRow>)
    modifies db`agents
    ensures db.agents == WithStatus(old(db.agents), agentId, status, now)
    ensures FindAgent(old(db.agents), agentId).Some? ==>
      FindAgent(db.agents, agentId) == Some(FindAgent(old(db.agents), agentId).value.(status := status, updatedAt := now))
    ensures FindAgent(old(db.agents), agentId).None? ==> r.None?
    ensures FindAgent(old(db.agents), agentId).Some? ==> r == AgentById(db, agentId)
    ensures r.Some? ==> r.value == FindAgent(old(db.agents), agentId).value.(status := status, updatedAt := now)
  {
    var rows := db.agents;
    db.agents := WithStatus(rows, agentId, status, now);
    UpdatedFound(rows, db.agents, agentId, (a: AgentRow) => a.(status := status, updatedAt := now));
    if FindAgent(rows, agentId).None? {
      return None;
    }
    r := AgentById(db, agentId);
  }

  /** After an update in place by id, the lookup finds the patched row. */
  lemma {:induction false} UpdatedFound(before: seq<AgentRow>, after: seq<AgentRow>, agentId: int, patch: AgentRow -> AgentRow)
    requires |after| == |before|
    requires forall k :: 0 <= k < |after| ==>
      after[k] == (if before[k].id == agentId then patch(before[k]) else before[k])
    requires forall a :: patch(a).id == a.id
    ensures FindAgent(before, agentId).None? ==> FindAgent(after, agentId).None?
    ensures FindAgent(before, agentId).Some? ==> FindAgent(after, agentId) == Some(patch(FindAgent(before, agentId).value))
  {
    if before != [] && before[0].id != agentId {
      UpdatedFound(before[1..], after[1..], agentId, patch);
    }
  }

  /** `getPendingAgents()` */
  function PendingAgents(db: Database): (r: seq<AgentRow>)
    reads db
    ensures forall a :: a in r <==> a in db.agents && a.status == PENDING && HasUser(a, db.users)
  {
    PendingRows(db.agents, db.users)
  }

  function PendingRows(agents: seq<AgentRow>, users: seq<UserRow>): seq<AgentRow>
  {
    Where(agents, (a: AgentRow) => a.status == PENDING && HasUser(a, users))
  }
}
