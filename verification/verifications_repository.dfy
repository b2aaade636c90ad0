/** The verification ledger (backend/app/repositories/verifications.py):
    appending a decision, the records of one claim, and the verifier inbox. */
module VerificationsRepository {
  import opened Wrappers
  import opened Entities
  import opened Store

  /** The claim status a decision leads to. */
  function StatusAfter(outcome: VerificationOutcome): ClaimStatus
  {
    if outcome == Approved then ClaimStatus.Verified else ClaimStatus.Rejected
  }

  /** Appends the decision as a new record and overwrites the claim's
      status, whatever it was before. Existing records are untouched. */
  method CreateVerification(db: Database, claimId: Id, verifierId: Id, decision: VerificationDecision,
                            organizationId: Option<Id> := None)
    returns (record: VerificationRecord)
    requires db.Valid()
    requires claimId in db.claims
    modifies db
    ensures db.Valid()
    ensures && record.claimId == claimId && record.verifierId == verifierId
            && record.organizationId == organizationId
            && record.outcome == decision.outcome && record.notes == decision.notes
            && record.roleType == decision.roleType
            && record.verifiedStartDate == decision.verifiedStartDate
            && record.verifiedEndDate == decision.verifiedEndDate
            && record.validUntil == decision.validUntil
    ensures db.records == old(db.records) + [record]
    ensures db.claims == old(db.claims)[claimId := old(db.claims[claimId]).(status := StatusAfter(decision.outcome))]
    ensures db.claims[claimId].status == ClaimStatus.Verified <==> decision.outcome == Approved
    ensures db.claims[claimId].status == ClaimStatus.Rejected <==> decision.outcome == VerificationOutcome.Rejected
    ensures db.disputes == old(db.disputes) && db.orgs == old(db.orgs)
  {
    record := VerificationRecord(
      claimId := claimId,
      verifierId := verifierId,
      organizationId := organizationId,
      outcome := decision.outcome,
      notes := decision.notes,
      roleType := decision.roleType,
      verifiedStartDate := decision.verifiedStartDate,
      verifiedEndDate := decision.verifiedEndDate,
      validUntil := decision.validUntil);
    db.records := db.records + [record];
    var claim := db.claims[claimId];
    db.claims := db.claims[claimId := claim.(status := StatusAfter(decision.outcome))];
  }

  /** The records of the ledger that belong to `claimId`, in ledger order. */
  function ClaimRecords(records: seq<VerificationRecord>, claimId: Id): (mine: seq<VerificationRecord>)
    ensures |mine| <= |records|
  {
    if records == [] then []
    else (if records[0].claimId == claimId then [records[0]] else []) + ClaimRecords(records[1..], claimId)
  }

  /** A record is among the claim's records exactly when it is in the ledger
      and belongs to the claim. */
  lemma {:induction false} ClaimRecordsMembers(records: seq<VerificationRecord>, claimId: Id)
    ensures forall r :: r in ClaimRecords(records, claimId) <==> r in records && r.claimId == claimId
  {
    if records != [] {
      ClaimRecordsMembers(records[1..], claimId);
      assert records == [records[0]] + records[1..];
    }
  }

  /** Appending a record extends exactly the filter of its own claim. */
  lemma {:induction false} ClaimRecordsAppend(records: seq<VerificationRecord>, r: VerificationRecord, claimId: Id)
    ensures ClaimRecords(records + [r], claimId)
            == ClaimRecords(records, claimId) + (if r.claimId == claimId then [r] else [])
  {
    if records == [] {
      assert records + [r] == [r];
      assert [r][1..] == [];
    } else {
      var head := if records[0].claimId == claimId then [records[0]] else [];
      var rest := records[1..];
      assert (records + [r])[0] == records[0];
      assert (records + [r])[1..] == rest + [r];
      assert ClaimRecords(records + [r], claimId) == head + ClaimRecords(rest + [r], claimId);
      var tail := if r.claimId == claimId then [r] else [];
      ClaimRecordsAppend(rest, r, claimId);
      assert ClaimRecords(records, claimId) == head + ClaimRecords(rest, claimId);
      assert head + (ClaimRecords(rest, claimId) + tail) == (head + ClaimRecords(rest, claimId)) + tail;
    }
  }

  /** Each record of the claim occurs in the filter as often as in the
      ledger: equal decisions are separate rows and all of them are kept. */
  lemma {:induction false} ClaimRecordsCounts(records: seq<VerificationRecord>, claimId: Id)
    ensures forall r :: multiset(ClaimRecords(records, claimId))[r]
                        == (if r.claimId == claimId then multiset(records)[r] else 0)
  {
    if records != [] {
      ClaimRecordsCounts(records[1..], claimId);
      assert records == [records[0]] + records[1..];
    }
  }

  /** The records whose claim id is `claimId`, in ledger order. */
  function GetForClaim(db: Database, claimId: Id): (mine: seq<VerificationRecord>)
    reads db`records
    ensures forall r :: r in mine <==> r in db.records && r.claimId == claimId
  {
    ClaimRecordsMembers(db.records, claimId);
    ClaimRecords(db.records, claimId)
  }

  /** `get_for_claim` keeps every row: each record of the claim occurs in the
      result as often as the ledger holds it, so equal decisions are counted
      separately by the scorer. */
  lemma GetForClaimCounts(db: Database, claimId: Id)
    ensures forall r :: multiset(GetForClaim(db, claimId))[r]
                        == (if r.claimId == claimId then multiset(db.records)[r] else 0)
  {
    ClaimRecordsCounts(db.records, claimId);
  }

  /** Every pending claim, whichever verifier asks. */
  function InboxForVerifier(db: Database, verifierId: Id): (inbox: map<Id, ExperienceClaim>)
    reads db`claims
    ensures forall id :: id in inbox <==> id in db.claims && db.claims[id].status == ClaimStatus.Pending
    ensures forall id | id in inbox :: inbox[id] == db.claims[id]
  {
    map id | id in db.claims && db.claims[id].status == ClaimStatus.Pending :: db.claims[id]
  }

  /** The verifier's id has no effect on the inbox. */
  lemma InboxIgnoresVerifier(db: Database, v1: Id, v2: Id)
    ensures InboxForVerifier(db, v1) == InboxForVerifier(db, v2)
  {
  }
}
