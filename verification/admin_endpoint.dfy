/** The admin endpoints (backend/app/api/v1/endpoints/admin.py):
    organization review and dispute decisions. No transition order is
    enforced on either, and neither touches claims or records. */
module AdminEndpoint {
  import opened Wrappers
  import opened Entities
  import opened Store
  import opened Dependencies

  const OrgNotFound := HttpError(404, "Organization not found")
  const DisputeNotFound := HttpError(404, "Dispute not found")

  datatype OrgSummary = OrgSummary(id: Id, name: string, status: OrgStatus, contactEmail: Option<string>)
  datatype OrgStatusOut = OrgStatusOut(id: Id, status: OrgStatus)
  datatype DisputeSummary = DisputeSummary(id: Id, claimId: Id, status: DisputeStatus, reason: string,
                                           resolutionNotes: Option<string>)
  datatype DisputeDecisionOut = DisputeDecisionOut(id: Id, status: DisputeStatus, resolutionNotes: Option<string>)

  /** One summary per organization. */
  function ListOrgs(db: Database, user: User): (r: Result<map<Id, OrgSummary>>)
    reads db`orgs
    ensures r.Ok? <==> user.role == Admin
    ensures r.Err? ==> r.error == InsufficientRole
    ensures r.Ok? ==> r.value.Keys == db.orgs.Keys
    ensures r.Ok? ==> forall id | id in r.value ::
      var o := db.orgs[id];
      r.value[id] == OrgSummary(o.id, o.name, o.verifiedStatus, o.contactEmail)
  {
    match RequireRole(user, Admin)
    case Fail(e) => Err(e)
    case Pass =>
      Ok(map id | id in db.orgs :: OrgSummary(db.orgs[id].id, db.orgs[id].name,
                                              db.orgs[id].verifiedStatus, db.orgs[id].contactEmail))
  }

  /** Sets an organization's status to the given value (by default
      `verified`), from any current status. */
  method VerifyOrg(db: Database, user: User, orgId: Id, statusValue: OrgStatus := OrgStatus.Verified)
    returns (r: Result<OrgStatusOut>)
    requires db.Valid()
    modifies db
    ensures db.Valid()
    ensures r.Err? ==> unchanged(db)
    ensures user.role != Admin ==> r == Err(InsufficientRole)
    ensures (user.role == Admin && orgId !in old(db.orgs)) ==> r == Err(OrgNotFound)
    ensures r.Ok? <==> user.role == Admin && orgId in old(db.orgs)
    ensures r.Ok? ==>
      && db.orgs == old(db.orgs)[orgId := old(db.orgs[orgId]).(verifiedStatus := statusValue)]
      && r.value == OrgStatusOut(orgId, statusValue)
      && db.claims == old(db.claims) && db.records == old(db.records) && db.disputes == old(db.disputes)
  {
    var check := RequireRole(user, Admin);
    if check.Fail? {
      return Err(check.error);
    }
    if orgId !in db.orgs {
      return Err(OrgNotFound);
    }
    var org := db.orgs[orgId].(verifiedStatus := statusValue);
    db.orgs := db.orgs[orgId := org];
    r := Ok(OrgStatusOut(org.id, org.verifiedStatus));
  }

  /** One summary per dispute. */
  function ListDisputes(db: Database, user: User): (r: Result<map<Id, DisputeSummary>>)
    reads db`disputes
    ensures r.Ok? <==> user.role == Admin
    ensures r.Err? ==> r.error == InsufficientRole
    ensures r.Ok? ==> r.value.Keys == db.disputes.Keys
    ensures r.Ok? ==> forall id | id in r.value ::
      var d := db.disputes[id];
      r.value[id] == DisputeSummary(d.id, d.claimId, d.status, d.reason, d.resolutionNotes)
  {
    match RequireRole(user, Admin)
    case Fail(e) => Err(e)
    case Pass =>
      Ok(map id | id in db.disputes :: DisputeSummary(db.disputes[id].id, db.disputes[id].claimId,
                                                      db.disputes[id].status, db.disputes[id].reason,
                                                      db.disputes[id].resolutionNotes))
  }

  /** Overwrites a dispute's status with any value, whatever the current
      one, and its notes with the given ones (absent notes erase old ones).
      The disputed claim keeps its status and score. */
  method DecideDispute(db: Database, user: User, disputeId: Id, statusValue: DisputeStatus,
                       notes: Option<string> := None)
    returns (r: Result<DisputeDecisionOut>)
    requires db.Valid()
    modifies db
    ensures db.Valid()
    ensures r.Err? ==> unchanged(db)
    ensures user.role != Admin ==> r == Err(InsufficientRole)
    ensures (user.role == Admin && disputeId !in old(db.disputes)) ==> r == Err(DisputeNotFound)
    ensures r.Ok? <==> user.role == Admin && disputeId in old(db.disputes)
    ensures r.Ok? ==>
      && db.disputes == old(db.disputes)[disputeId := old(db.disputes[disputeId]).(status := statusValue,
                                                                                   resolutionNotes := notes)]
      && r.value == DisputeDecisionOut(disputeId, statusValue, notes)
      && db.claims == old(db.claims) && db.records == old(db.records) && db.orgs == old(db.orgs)
  {
    var check := RequireRole(user, Admin);
    if check.Fail? {
      return Err(check.error);
    }
    if disputeId !in db.disputes {
      return Err(DisputeNotFound);
    }
    var dispute := db.disputes[disputeId].(status := statusValue, resolutionNotes := notes);
    db.disputes := db.disputes[disputeId := dispute];
    r := Ok(DisputeDecisionOut(dispute.id, dispute.status, dispute.resolutionNotes));
  }
}
