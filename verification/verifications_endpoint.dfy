/** The verifier endpoints (backend/app/api/v1/endpoints/verifications.py):
    the inbox and the decision, which appends a record, sets the claim's
    status and stores a score recomputed over all of the claim's records.
    The decision is one sequential step here. */
module VerificationsEndpoint {
  import opened Dates
  import opened Wrappers
  import opened Entities
  import opened Scoring
  import opened Store
  import opened ClaimsRepository
  import opened VerificationsRepository
  import opened Dependencies
  import opened ReportsEndpoint

  const ClaimNotFound := HttpError(404, "Claim not found")

  /** Only a verifier sees the inbox: every pending claim. */
  function ListInbox(db: Database, user: User): (r: Result<map<Id, ExperienceClaim>>)
    reads db`claims
    ensures r.Ok? <==> user.role == UserRole.Verifier
    ensures r.Err? ==> r.error == InsufficientRole
    ensures r.Ok? ==> forall id :: id in r.value <==> id in db.claims && db.claims[id].status == ClaimStatus.Pending
    ensures r.Ok? ==> forall id | id in r.value :: r.value[id] == db.claims[id]
  {
    match RequireRole(user, UserRole.Verifier)
    case Fail(e) => Err(e)
    case Pass => Ok(InboxForVerifier(db, user.id))
  }

  /** The claim carrying the score computed for it over `verifications`. */
  function WithScore(claim: ExperienceClaim, verifications: seq<VerificationRecord>, today: Date): (scored: ExperienceClaim)
    ensures scored == claim.(credibilityScore := scored.credibilityScore, credibilityBreakdown := scored.credibilityBreakdown)
    ensures scored.credibilityScore.Some? && scored.credibilityBreakdown.Some?
  {
    var result := CalculateScore(claim, verifications, today);
    claim.(credibilityScore := Some(result.score), credibilityBreakdown := Some(result.breakdown))
  }

  /** The score a decision leaves on a claim: a rejection stores a zero score
      whose breakdown is the single "not verified" entry, and an approval,
      whose own record is among the claim's records, stores a score between 16
      and 60. Either way the stored score is the sum of its breakdown. */
  lemma DecidedScore(claim: ExperienceClaim, outcome: VerificationOutcome, verifications: seq<VerificationRecord>, today: Date)
    requires outcome == Approved ==> |verifications| >= 1
    ensures var scored := WithScore(claim.(status := StatusAfter(outcome)), verifications, today);
      && scored.status == StatusAfter(outcome)
      && StoredScoreConsistent(scored)
      && (outcome == VerificationOutcome.Rejected ==>
            && scored.credibilityScore == Some(0)
            && scored.credibilityBreakdown == Some([ScoreBreakdown("status", 0, "Claim not verified")]))
      && (outcome == Approved ==>
            && scored.credibilityScore.Some?
            && 16 <= scored.credibilityScore.value <= 60)
  {
    var decided := claim.(status := StatusAfter(outcome));
    ScoreResultConsistent(decided, verifications, today);
    if outcome == Approved {
      ScoreWithRecord(decided, verifications, today);
    } else {
      NotVerifiedScoresZero(decided, verifications, today);
    }
  }

  /** Recomputes the claim's score over all of its records and stores the
      score and its breakdown on the claim. */
  method StoreScore(db: Database, claimId: Id, today: Date)
    requires db.Valid()
    requires claimId in db.claims
    modifies db
    ensures db.Valid()
    ensures db.claims == old(db.claims)[claimId := WithScore(old(db.claims[claimId]), GetForClaim(db, claimId), today)]
    ensures db.records == old(db.records) && db.disputes == old(db.disputes) && db.orgs == old(db.orgs)
  {
    var verifications := GetForClaim(db, claimId);
    var claim := db.claims[claimId];
    ScoreResultConsistent(claim, verifications, today);
    db.claims := db.claims[claimId := WithScore(claim, verifications, today)];
  }

  /** Stores the verifier's record for an existing claim, moves the claim to
      the status the outcome calls for and rescores it over all of its
      records, the new one included. */
  method RecordDecision(db: Database, claimId: Id, verifierId: Id, decision: VerificationDecision, today: Date)
    returns (record: VerificationRecord)
    requires db.Valid()
    requires claimId in db.claims
    modifies db
    ensures db.Valid()
    ensures record == VerificationRecord(claimId, verifierId, None, decision.outcome, decision.notes,
                                         decision.roleType, decision.verifiedStartDate,
                                         decision.verifiedEndDate, decision.validUntil)
    ensures db.records == old(db.records) + [record]
    ensures GetForClaim(db, claimId) == old(GetForClaim(db, claimId)) + [record]
    ensures var decided := old(db.claims[claimId]).(status := StatusAfter(decision.outcome));
      db.claims == old(db.claims)[claimId := WithScore(decided, GetForClaim(db, claimId), today)]
    ensures db.disputes == old(db.disputes) && db.orgs == old(db.orgs)
    ensures ViewReport(db, claimId).Ok? <==> decision.outcome == Approved
    ensures forall otherVerifier :: claimId !in InboxForVerifier(db, otherVerifier)
  {
    ghost var before := db.records;
    ghost var decided := db.claims[claimId].(status := StatusAfter(decision.outcome));
    record := CreateVerification(db, claimId, verifierId, decision);
    ClaimRecordsAppend(before, record, claimId);
    assert db.claims[claimId] == decided;
    StoreScore(db, claimId, today);
  }

  /** A verifier's decision on any stored claim, whatever its status. */
  method Decide(db: Database, claimId: Id, decision: VerificationDecision, user: User, today: Date)
    returns (r: Result<VerificationRecord>)
    requires db.Valid()
    modifies db
    ensures db.Valid()
    ensures r.Err? ==> unchanged(db)
    ensures user.role != UserRole.Verifier ==> r == Err(InsufficientRole)
    ensures (user.role == UserRole.Verifier && claimId !in old(db.claims)) ==> r == Err(ClaimNotFound)
    ensures r.Ok? <==> user.role == UserRole.Verifier && claimId in old(db.claims)
    ensures r.Ok? ==>
      var decided := old(db.claims[claimId]).(status := StatusAfter(decision.outcome));
      && r.value == VerificationRecord(claimId, user.id, None, decision.outcome, decision.notes,
                                       decision.roleType, decision.verifiedStartDate,
                                       decision.verifiedEndDate, decision.validUntil)
      && db.records == old(db.records) + [r.value]
      && GetForClaim(db, claimId) == old(GetForClaim(db, claimId)) + [r.value]
      && db.claims == old(db.claims)[claimId := WithScore(decided, GetForClaim(db, claimId), today)]
      && db.disputes == old(db.disputes) && db.orgs == old(db.orgs)
    ensures r.Ok? ==>
      && (ViewReport(db, claimId).Ok? <==> decision.outcome == Approved)
      && forall verifierId :: claimId !in InboxForVerifier(db, verifierId)
  {
    var check := RequireRole(user, UserRole.Verifier);
    if check.Fail? {
      return Err(check.error);
    }
    var found := GetClaim(db, claimId);
    if found.None? {
      return Err(ClaimNotFound);
    }
    var record := RecordDecision(db, claimId, user.id, decision, today);
    r := Ok(record);
  }
}
