/** The records and enumerations of the data model (backend/app/models/entities.py),
    with the request shapes the core reads (backend/app/schemas/models.py).
    Constructor parameters with `:=` carry the column defaults. Timestamps,
    password hashes and ORM relationships are not part of this model. */
module Entities {
  import opened Dates
  import opened Wrappers

  /** Primary keys are strings (generated UUIDs in the source). */
  type Id = string

  datatype UserRole = Candidate | Verifier | Employer | Admin

  datatype OrgStatus = Unverified | Pending | Verified

  /** The six lifecycle states of a claim. */
  datatype ClaimStatus = Draft | Pending | Verified | Rejected | Expired | Disputed

  datatype EvidenceVisibility = Public | VerifierOnly

  datatype VerificationOutcome = Approved | Rejected

  datatype DisputeStatus = Open | UnderReview | Resolved | Dismissed

  /** The authenticated actor: only its id and role matter to the core. */
  datatype User = User(id: Id, role: UserRole)

  /** One explained factor of a credibility score. */
  datatype ScoreBreakdown = ScoreBreakdown(factor: string, score: int, reason: string)

  datatype Organization = Organization(
    id: Id,
    name: string,
    verifiedStatus: OrgStatus := OrgStatus.Unverified,
    contactEmail: Option<string> := None,
    contactPhone: Option<string> := None,
    website: Option<string> := None,
    address: Option<string> := None)

  datatype ExperienceClaim = ExperienceClaim(
    id: Id,
    candidateId: Id,
    title: string,
    claimType: string,
    organizationName: string,
    supervisorName: string,
    supervisorContact: string,
    startDate: Date,
    endDate: Date,
    description: string,
    skillTags: Option<seq<string>>,
    status: ClaimStatus := ClaimStatus.Draft,
    evidenceVisibility: EvidenceVisibility := VerifierOnly,
    credibilityScore: Option<int> := None,
    credibilityBreakdown: Option<seq<ScoreBreakdown>> := None)

  /** A verifier's decision on a claim. Its position in the ledger is its
      identity. */
  datatype VerificationRecord = VerificationRecord(
    claimId: Id,
    verifierId: Id,
    organizationId: Option<Id>,
    outcome: VerificationOutcome,
    notes: Option<string>,
    roleType: Option<string>,
    verifiedStartDate: Option<Date>,
    verifiedEndDate: Option<Date>,
    validUntil: Option<Date>)

  datatype Dispute = Dispute(
    id: Id,
    claimId: Id,
    raisedBy: Id,
    status: DisputeStatus := Open,
    reason: string,
    resolutionNotes: Option<string> := None)

  /** The body of a claim creation request; `evidence_visibility` defaults to
      `verifier_only` and `skill_tags` to absent. */
  datatype ExperienceClaimCreate = ExperienceClaimCreate(
    title: string,
    claimType: string,
    organizationName: string,
    supervisorName: string,
    supervisorContact: string,
    startDate: Date,
    endDate: Date,
    description: string,
    skillTags: Option<seq<string>> := None,
    evidenceVisibility: EvidenceVisibility := VerifierOnly)

  /** The body of a claim update request. The outer `Option` says whether the
      client set the field at all (`exclude_unset`); `skill_tags` is the one
      nullable column, so a client may explicitly set it to null. There is no
      field for status, owner or score. */
  datatype ExperienceClaimUpdate = ExperienceClaimUpdate(
    title: Option<string> := None,
    claimType: Option<string> := None,
    organizationName: Option<string> := None,
    supervisorName: Option<string> := None,
    supervisorContact: Option<string> := None,
    startDate: Option<Date> := None,
    endDate: Option<Date> := None,
    description: Option<string> := None,
    skillTags: Option<Option<seq<string>>> := None,
    evidenceVisibility: Option<EvidenceVisibility> := None)

  /** The body of a verifier's decision request. */
  datatype VerificationDecision = VerificationDecision(
    outcome: VerificationOutcome,
    notes: Option<string> := None,
    roleType: Option<string> := None,
    verifiedStartDate: Option<Date> := None,
    verifiedEndDate: Option<Date> := None,
    validUntil: Option<Date> := None)

  /** The column defaults a freshly inserted row receives when the caller
      leaves them out. */
  lemma Defaults(id: Id, cand: Id, title: string, ty: string, org: string, sup: string,
                 contact: string, start: Date, end: Date, desc: string, claimId: Id,
                 raisedBy: Id, reason: string, name: string)
    ensures var c := ExperienceClaim(id, cand, title, ty, org, sup, contact, start, end, desc, None);
      && c.status == ClaimStatus.Draft && c.evidenceVisibility == VerifierOnly
      && c.credibilityScore == None && c.credibilityBreakdown == None
    ensures var d := Dispute(id, claimId, raisedBy, reason := reason);
      d.status == Open && d.resolutionNotes == None
    ensures Organization(id, name).verifiedStatus == OrgStatus.Unverified
  {
  }
}
