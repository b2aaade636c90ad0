/** The scorer's tests (backend/tests/test_scoring.py) and two worked
    examples, stated as lemmas over the model. */
module ScoringTests {
  import opened Dates
  import opened Wrappers
  import opened Entities
  import opened Scoring

  function SampleClaim(status: ClaimStatus, start: Date, end: Date, visibility: EvidenceVisibility): ExperienceClaim
  {
    ExperienceClaim("c1", "u1", "Test Claim", "internship", "Org", "Jane", "jane@org.lk",
                    start, end, "Did real work", Some(["coordination"]), status, visibility)
  }

  function Approval(validUntil: Option<Date>): VerificationRecord
  {
    VerificationRecord("c1", "verifier-1", None, Approved, None, Some("Supervisor"), None, None, validUntil)
  }

  /** A recently verified claim scores above zero and reports a recency
      factor, on whatever day it is scored. */
  lemma RecentVerifiedClaimScoresPositive(today: Date)
    ensures var claim := SampleClaim(ClaimStatus.Verified, Date(2024, 1, 1), Date(2024, 6, 1), Public);
      var r := CalculateScore(claim, [Approval(Some(Date(2026, 6, 1)))], today);
      r.score > 0 && "recency" in Factors(r.breakdown)
  {
    var claim := SampleClaim(ClaimStatus.Verified, Date(2024, 1, 1), Date(2024, 6, 1), Public);
    var vs := [Approval(Some(Date(2026, 6, 1)))];
    VerifiedBreakdownShape(claim, vs, today);
    assert Factors(CalculateScore(claim, vs, today).breakdown)[0] == "recency";
  }

  /** A draft claim with no records scores 0 with the status reason. */
  lemma DraftClaimScoresZero(today: Date)
    ensures var claim := SampleClaim(ClaimStatus.Draft, Date(2023, 1, 1), Date(2023, 2, 1), VerifierOnly);
      var r := CalculateScore(claim, [], today);
      r.score == 0 && r.breakdown[0].reason == "Claim not verified"
  {
  }

  /** Ended 5 months ago, a 6-month span, public evidence, one approval and
      nothing expired: 15 + 6 + 10 + 15 = 46. */
  lemma SingleApprovalExample()
    ensures var claim := SampleClaim(ClaimStatus.Verified, Date(2024, 1, 10), Date(2024, 7, 20), Public);
      CalculateScore(claim, [Approval(None)], Date(2024, 12, 5)).score == 46
  {
  }

  /** The same claim with two approvals, one of them valid only until before
      today: 15 + 6 + 10 + 20 - 10 = 41. */
  lemma ExpiredApprovalExample()
    ensures var claim := SampleClaim(ClaimStatus.Verified, Date(2024, 1, 10), Date(2024, 7, 20), Public);
      var r := CalculateScore(claim, [Approval(None), Approval(Some(Date(2024, 12, 4)))], Date(2024, 12, 5));
      r.score == 41 && |r.breakdown| == 5
  {
  }
}
