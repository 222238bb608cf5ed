/**
 * The agent controller: `registerAgent`, `updateAgentProfile` and
 * `verifyAgent`. Uploaded files are named by their stored path; the files a
 * handler deletes from disk are returned in `removed`, in the order it
 * deletes them. `fault` makes one of the handler's database statements raise.
 */
module AgentController {
  import opened Common
  import opened JsText
  import opened Db
  import opened UserModel
  import opened AgentModel

  const AGENT_FIELDS_REQUIRED := Response(400, "All required fields must be provided")
  const LICENSE_REQUIRED := Response(400, "License image is required")
  const AGENT_REGISTERED := Response(201, "Agent registered successfully. Awaiting admin verification.")
  const REGISTER_AGENT_FAILED := Response(500, "Error registering agent")
  const AGENT_PROFILE_NOT_FOUND := Response(404, "Agent profile not found")
  const AGENT_PROFILE_UPDATED := Response(200, "Agent profile updated successfully")
  const AGENT_PROFILE_FAILED := Response(500, "Error updating agent profile")
  const INVALID_STATUS := Response(400, "Invalid verification status")
  const AGENT_NOT_FOUND := Response(404, "Agent not found")
  const AGENT_VERIFIED := Response(200, "Agent verified successfully")
  const AGENT_REJECTED := Response(200, "Agent rejected successfully")

  const LICENSE_UPLOADS := "/uploads/licenses/"

  /** The license path stored for an uploaded file: the directory and the file's base name. */
  function LicensePath(file: string): (r: string)
    ensures |r| >= |LICENSE_UPLOADS| && r[..|LICENSE_UPLOADS|] == LICENSE_UPLOADS
    ensures '/' !in r[|LICENSE_UPLOADS|..]
  {
    var name := Basename(file);
    assert (LICENSE_UPLOADS + name)[|LICENSE_UPLOADS|..] == name;
    LICENSE_UPLOADS + name
  }

  /** The fields of an agent registration body; None is a missing field. */
  datatype AgentRegistration = AgentRegistration(
    username: Option<string>, password: Option<string>, email: Option<string>, phoneNumber: Option<string>,
    companyName: Option<string>, officeAddress: Option<string>)

  predicate AgentFieldsPresent(b: AgentRegistration)
  {
    TruthyStr(b.username) && TruthyStr(b.password) && TruthyStr(b.email) && TruthyStr(b.phoneNumber)
  }

  /**
   * `registerAgent(req, res)`. The user row (statement 0) and the agent row
   * (statement 1) are separate inserts: when the second raises, the user row
   * stays. Either failure deletes the uploaded license file; a 400 keeps it.
   */
  method RegisterAgent(db: Database, b: AgentRegistration, file: Option<string>, hash: string -> string,
                       now: int, fault: Fault)
    returns (resp: Response, token: Option<Claims>, removed: seq<string>)
    modifies db`users, db`agents, db`nextId
    ensures !AgentFieldsPresent(b) ==> resp == AGENT_FIELDS_REQUIRED && removed == [] && token.None? && unchanged(db)
    ensures AgentFieldsPresent(b) && file.None? ==> resp == LICENSE_REQUIRED && removed == [] && token.None? && unchanged(db)
    ensures AgentFieldsPresent(b) && file.Some? && FailsAt(fault, 0) ==>
      resp == REGISTER_AGENT_FAILED && removed == [file.value] && token.None? && unchanged(db)
    ensures AgentFieldsPresent(b) && file.Some? && !FailsAt(fault, 0) ==>
      db.users == old(db.users) + [UserRow(old(db.nextId), b.username.value, hash(b.password.value), b.email.value,
                                           b.phoneNumber.value, AGENT, now, now)]
    ensures AgentFieldsPresent(b) && file.Some? && FailsAt(fault, 1) ==>
      resp == REGISTER_AGENT_FAILED && removed == [file.value] && token.None? && db.agents == old(db.agents)
    ensures AgentFieldsPresent(b) && file.Some? && !FailsAt(fault, 0) && !FailsAt(fault, 1) ==>
      resp == AGENT_REGISTERED && removed == [] &&
      db.agents == old(db.agents) + [AgentRow(old(db.nextId) + 1, old(db.nextId), Some(LicensePath(file.value)),
                                              StrOrNull(b.companyName), StrOrNull(b.officeAddress), PENDING, now, now)] &&
      token == Some(Claims(old(db.nextId), b.username.value, AGENT))
  {
    removed, token := [], None;
    if !AgentFieldsPresent(b) {
      return AGENT_FIELDS_REQUIRED, token, removed;
    }
    if file.None? {
      return LICENSE_REQUIRED, token, removed;
    }
    if FailsAt(fault, 0) {
      return REGISTER_AGENT_FAILED, token, [file.value];
    }
    var user := CreateUser(db, b.username.value, b.password.value, b.email.value, b.phoneNumber.value,
                           Some(AGENT), hash, now);
    if FailsAt(fault, 1) {
      return REGISTER_AGENT_FAILED, token, [file.value];
    }
    var agent := CreateAgent(db, user.id, Some(LicensePath(file.value)), StrOrNull(b.companyName),
                             StrOrNull(b.officeAddress), now);
    resp, token := AGENT_REGISTERED, Some(Claims(user.id, user.username, user.role));
  }

  /**
   * `updateAgentProfile(req, res)`. `companyName` and `officeAddress` are
   * None when the body leaves them undefined. The old license file is deleted
   * only when a new one was uploaded, the agent had one, and the update
   * (statement 0) went through; when the update raises, the new upload is
   * deleted instead.
   */
  method UpdateAgentProfile(db: Database, user: Claims, companyName: Option<Option<string>>,
                            officeAddress: Option<Option<string>>, file: Option<string>, now: int, fault: Fault)
    returns (resp: Response, removed: seq<string>)
    modifies db`agents
    ensures old(AgentByUserId(db, user.id)).None? ==>
      resp == AGENT_PROFILE_NOT_FOUND && removed == [] && db.agents == old(db.agents)
    ensures old(AgentByUserId(db, user.id)).Some? && FailsAt(fault, 0) ==>
      resp == AGENT_PROFILE_FAILED && db.agents == old(db.agents) &&
      removed == (if file.Some? then [file.value] else [])
    ensures var agent := old(AgentByUserId(db, user.id));
      agent.Some? && !FailsAt(fault, 0) ==>
        resp == AGENT_PROFILE_UPDATED &&
        db.agents == PatchedAgents(old(db.agents), agent.value.id,
                                   if file.Some? then Some(LicensePath(file.value)) else None,
                                   companyName, officeAddress, now) &&
        removed == (if file.Some? && TruthyStr(agent.value.licenseImage) then [agent.value.licenseImage.value] else [])
  {
    var agent := AgentByUserId(db, user.id);
    if agent.None? {
      return AGENT_PROFILE_NOT_FOUND, [];
    }
    if FailsAt(fault, 0) {
      return AGENT_PROFILE_FAILED, if file.Some? then [file.value] else [];
    }
    var license := if file.Some? then Some(LicensePath(file.value)) else None;
    var updated := UpdateAgent(db, agent.value.id, license, companyName, officeAddress, now);
    removed := if file.Some? && TruthyStr(agent.value.licenseImage) then [agent.value.licenseImage.value] else [];
    resp := AGENT_PROFILE_UPDATED;
  }

  /** A new upload always replaces the stored license path. */
  lemma UploadReplacesLicense(a: AgentRow, file: string, companyName: Option<Option<string>>,
                              officeAddress: Option<Option<string>>, now: int)
    ensures PatchAgent(a, Some(LicensePath(file)), companyName, officeAddress, now).licenseImage == Some(LicensePath(file))
  {
  }

  /** The statuses `verifyAgent` accepts: `['verified', 'rejected'].includes(status)`. */
  predicate DecisionStatus(status: Option<string>)
  {
    status == Some(VERIFIED) || status == Some(REJECTED)
  }

  /**
   * `verifyAgent(req, res)`, which the admin controller repeats verbatim:
   * a bad status gives 400 and an unknown agent 404, both before any write.
   */
  method VerifyAgent(db: Database, agentId: int, status: Option<string>, now: int) returns (resp: Response)
    modifies db`agents
    ensures !DecisionStatus(status) ==> resp == INVALID_STATUS && db.agents == old(db.agents)
    ensures DecisionStatus(status) && old(AgentById(db, agentId)).None? ==>
      resp == AGENT_NOT_FOUND && db.agents == old(db.agents)
    ensures DecisionStatus(status) && old(AgentById(db, agentId)).Some? ==>
      db.agents == WithStatus(old(db.agents), agentId, status.value, now) &&
      resp == (if status.value == VERIFIED then AGENT_VERIFIED else AGENT_REJECTED)
    ensures resp.status == 200 ==> FindAgent(db.agents, agentId).Some? && FindAgent(db.agents, agentId).value.status == status.value
  {
    if !DecisionStatus(status) {
      return INVALID_STATUS;
    }
    var agent := AgentById(db, agentId);
    if agent.None? {
      return AGENT_NOT_FOUND;
    }
    var updated := UpdateVerificationStatus(db, agentId, status.value, now);
    resp := if status.value == VERIFIED then AGENT_VERIFIED else AGENT_REJECTED;
  }
}
