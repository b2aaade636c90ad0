/** The candidate-facing claim endpoints (backend/app/api/v1/endpoints/claims.py).
    The role gate runs first, then the lookup, then the ownership check. */
module ClaimsEndpoint {
  import opened Wrappers
  import opened Entities
  import opened Store
  import opened ClaimsRepository
  import opened VerificationsRepository
  import opened Dependencies

  const ClaimNotFound := HttpError(404, "Claim not found")
  const NotYourClaim := HttpError(403, "Not your claim")
  const NotEditable := HttpError(400, "Only draft/pending claims can be edited")

  /** The states in which a claim's fields may still be edited. */
  predicate Editable(status: ClaimStatus)
  {
    status == ClaimStatus.Draft || status == ClaimStatus.Pending
  }

  /** A candidate lists exactly the claims it owns. */
  function ListClaims(db: Database, user: User): (r: Result<map<Id, ExperienceClaim>>)
    reads db`claims
    ensures r.Ok? <==> user.role == Candidate
    ensures r.Err? ==> r.error == InsufficientRole
    ensures r.Ok? ==> forall id :: id in r.value <==> id in db.claims && db.claims[id].candidateId == user.id
    ensures r.Ok? ==> forall id | id in r.value :: r.value[id] == db.claims[id]
  {
    match RequireRole(user, Candidate)
    case Fail(e) => Err(e)
    case Pass => Ok(GetClaimsForCandidate(db, user.id))
  }

  /** Only a candidate may create a claim; the new draft is owned by the
      caller, who can read it back at once. */
  method CreateNewClaim(db: Database, user: User, payload: ExperienceClaimCreate, newId: Id)
    returns (r: Result<ExperienceClaim>)
    requires db.Valid()
    requires newId !in db.claims
    modifies db
    ensures db.Valid()
    ensures user.role != Candidate ==> r == Err(InsufficientRole) && unchanged(db)
    ensures user.role == Candidate ==>
      && r.Ok? && r.value.id == newId && r.value.candidateId == user.id
      && r.value.status == ClaimStatus.Draft
      && r.value.credibilityScore == None && r.value.credibilityBreakdown == None
      && r.value.title == payload.title && r.value.claimType == payload.claimType
      && r.value.organizationName == payload.organizationName
      && r.value.supervisorName == payload.supervisorName
      && r.value.supervisorContact == payload.supervisorContact
      && r.value.startDate == payload.startDate && r.value.endDate == payload.endDate
      && r.value.description == payload.description
      && r.value.evidenceVisibility == payload.evidenceVisibility
      && r.value.skillTags == Some(payload.skillTags.GetOr([]))
      && db.claims == old(db.claims)[newId := r.value]
      && db.records == old(db.records) && db.disputes == old(db.disputes) && db.orgs == old(db.orgs)
      && GetClaimById(db, user, newId) == Ok(r.value)
  {
    var check := RequireRole(user, Candidate);
    if check.Fail? {
      return Err(check.error);
    }
    var claim := CreateClaim(db, user.id, payload, newId);
    r := Ok(claim);
  }

  /** Fails exactly when the user does not own the claim. */
  function EnsureOwner(claim: ExperienceClaim, user: User): (check: Check)
    ensures check == Pass <==> claim.candidateId == user.id
    ensures check.Fail? ==> check.error == HttpError(403, "Not your claim")
  {
    if claim.candidateId != user.id then Fail(NotYourClaim) else Pass
  }

  /** Any authenticated user may ask; an admin reads every claim, anyone
      else only the claims they own. */
  function GetClaimById(db: Database, user: User, claimId: Id): (r: Result<ExperienceClaim>)
    reads db`claims
    ensures claimId !in db.claims ==> r == Err(HttpError(404, "Claim not found"))
    ensures claimId in db.claims ==>
      (r.Ok? <==> user.role == Admin || db.claims[claimId].candidateId == user.id)
    ensures r.Ok? ==> r.value == db.claims[claimId]
    ensures claimId in db.claims && r.Err? ==> r.error == HttpError(403, "Not your claim")
  {
    match GetClaim(db, claimId)
    case None => Err(ClaimNotFound)
    case Some(claim) =>
      if user.role != Admin && EnsureOwner(claim, user).Fail? then Err(EnsureOwner(claim, user).error)
      else Ok(claim)
  }

  /** Checks, in order: role, existence, ownership, editable state; only
      then applies the update. A failed check changes nothing. */
  method UpdateClaimById(db: Database, user: User, claimId: Id, payload: ExperienceClaimUpdate)
    returns (r: Result<ExperienceClaim>)
    requires db.Valid()
    modifies db
    ensures db.Valid()
    ensures r.Err? ==> unchanged(db)
    ensures user.role != Candidate ==> r == Err(InsufficientRole)
    ensures user.role == Candidate && claimId !in old(db.claims) ==> r == Err(ClaimNotFound)
    ensures (user.role == Candidate && claimId in old(db.claims)
             && old(db.claims[claimId]).candidateId != user.id) ==> r == Err(NotYourClaim)
    ensures (user.role == Candidate && claimId in old(db.claims)
             && old(db.claims[claimId]).candidateId == user.id
             && !Editable(old(db.claims[claimId]).status)) ==> r == Err(NotEditable)
    ensures r.Ok? <==> user.role == Candidate && claimId in old(db.claims)
                       && old(db.claims[claimId]).candidateId == user.id
                       && Editable(old(db.claims[claimId]).status)
    ensures r.Ok? ==>
      && r.value == Patched(old(db.claims[claimId]), payload)
      && db.claims == old(db.claims)[claimId := r.value]
      && db.records == old(db.records) && db.disputes == old(db.disputes) && db.orgs == old(db.orgs)
  {
    var check := RequireRole(user, Candidate);
    if check.Fail? {
      return Err(check.error);
    }
    var found := GetClaim(db, claimId);
    if found.None? {
      return Err(ClaimNotFound);
    }
    var claim := found.value;
    var owner := EnsureOwner(claim, user);
    if owner.Fail? {
      return Err(owner.error);
    }
    if !Editable(claim.status) {
      return Err(NotEditable);
    }
    var updated := UpdateClaim(db, claimId, payload);
    r := Ok(updated);
  }

  /** Moves an owned claim to pending from whatever state it is in, keeping
      any score it already has; the claim then shows in every verifier's
      inbox. */
  method RequestVerification(db: Database, user: User, claimId: Id) returns (r: Result<ExperienceClaim>)
    requires db.Valid()
    modifies db
    ensures db.Valid()
    ensures r.Err? ==> unchanged(db)
    ensures user.role != Candidate ==> r == Err(InsufficientRole)
    ensures user.role == Candidate && claimId !in old(db.claims) ==> r == Err(ClaimNotFound)
    ensures (user.role == Candidate && claimId in old(db.claims)
             && old(db.claims[claimId]).candidateId != user.id) ==> r == Err(NotYourClaim)
    ensures r.Ok? <==> user.role == Candidate && claimId in old(db.claims)
                       && old(db.claims[claimId]).candidateId == user.id
    ensures r.Ok? ==>
      && r.value == old(db.claims[claimId]).(status := ClaimStatus.Pending)
      && db.claims == old(db.claims)[claimId := r.value]
      && db.records == old(db.records) && db.disputes == old(db.disputes) && db.orgs == old(db.orgs)
      && forall verifierId :: claimId in InboxForVerifier(db, verifierId)
  {
    var check := RequireRole(user, Candidate);
    if check.Fail? {
      return Err(check.error);
    }
    var found := GetClaim(db, claimId);
    if found.None? {
      return Err(ClaimNotFound);
    }
    var claim := found.value;
    var owner := EnsureOwner(claim, user);
    if owner.Fail? {
      return Err(owner.error);
    }
    claim := claim.(status := ClaimStatus.Pending);
    db.claims := db.claims[claimId := claim];
    r := Ok(claim);
  }
}
