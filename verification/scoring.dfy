/** The rule-based credibility scorer (backend/app/services/scoring.py).
    `today` is a parameter instead of the ambient clock, and every factor is
    an integer, so scores are `int`. */
module Scoring {
  import opened Dates
  import opened Wrappers
  import opened Entities

  datatype ScoreResult = ScoreResult(score: int, breakdown: seq<ScoreBreakdown>)

  /** Whole months from `start` to `end`, ignoring the days, floored at 0. */
  function MonthsBetween(start: Date, end: Date): (m: nat)
    ensures MonthIndex(start) <= MonthIndex(end) ==> m == MonthIndex(end) - MonthIndex(start)
    ensures MonthIndex(end) <= MonthIndex(start) ==> m == 0
  {
    var raw := (end.year - start.year) * 12 + (end.month - start.month);
    if raw < 0 then 0 else raw
  }

  /** Decimal rendering of a count, as an f-string writes it: decimal
      digits only, with no leading zero. `DecimalValue` reads it back. */
  function NatToDecimal(n: nat): (s: string)
    ensures |s| >= 1 && IsDigits(s)
    ensures s[0] == '0' ==> n == 0
  {
    if n < 10 then [DigitChar(n)] else NatToDecimal(n / 10) + [DigitChar(n % 10)]
  }

  function DigitChar(d: nat): (c: char)
    requires d < 10
    ensures '0' <= c <= '9' && c as int - '0' as int == d
  {
    (d + '0' as int) as char
  }

  predicate IsDigits(s: string)
  {
    forall i | 0 <= i < |s| :: '0' <= s[i] <= '9'
  }

  /** The number a string of decimal digits denotes. */
  function DecimalValue(s: string): int
    requires IsDigits(s)
  {
    if s == [] then 0 else DecimalValue(s[..|s| - 1]) * 10 + (s[|s| - 1] as int - '0' as int)
  }

  /** The rendered count reads back as the count. */
  lemma {:induction false} DecimalRoundTrip(n: nat)
    ensures DecimalValue(NatToDecimal(n)) == n
  {
    var s := NatToDecimal(n);
    if n < 10 {
      assert s[..|s| - 1] == [];
    } else {
      DecimalRoundTrip(n / 10);
      assert s[..|s| - 1] == NatToDecimal(n / 10);
    }
  }

  const StatusEntry := ScoreBreakdown("status", 0, "Claim not verified")
  const ExpiryEntry := ScoreBreakdown("expiry", -10, "Verification validity expired")

  function RecencyEntry(monthsSinceEnd: nat): ScoreBreakdown
  {
    if monthsSinceEnd <= 12 then ScoreBreakdown("recency", 15, "Completed within last 12 months")
    else if monthsSinceEnd <= 24 then ScoreBreakdown("recency", 10, "Completed within last 24 months")
    else ScoreBreakdown("recency", 5, "Completed more than 2 years ago")
  }

  /** The recorded span of a claim; a span of 0 months counts as 1 (`or 1`). */
  function DurationMonths(claim: ExperienceClaim): nat
  {
    var months := MonthsBetween(claim.startDate, claim.endDate);
    if months == 0 then 1 else months
  }

  function DurationEntry(durationMonths: nat): ScoreBreakdown
  {
    var capped := if durationMonths < 15 then durationMonths else 15;
    ScoreBreakdown("duration", capped, NatToDecimal(durationMonths) + " months recorded")
  }

  function EvidenceEntry(visibility: EvidenceVisibility): ScoreBreakdown
  {
    match visibility
    case Public => ScoreBreakdown("evidence", 10, "Public evidence provided")
    case VerifierOnly => ScoreBreakdown("evidence", 5, "Evidence available to verifiers")
  }

  function VerificationsEntry(verifiedCount: nat): ScoreBreakdown
  {
    if verifiedCount >= 2 then ScoreBreakdown("verifications", 20, "Multiple independent verifications")
    else if verifiedCount == 1 then ScoreBreakdown("verifications", 15, "Single verification completed")
    else ScoreBreakdown("verifications", 0, "No verifications recorded")
  }

  /** A record whose validity window closed strictly before `today`. */
  predicate IsExpired(v: VerificationRecord, today: Date)
  {
    v.validUntil.Some? && Before(v.validUntil.value, today)
  }

  /** Python's short-circuiting `any(...)` over the records, in order. */
  predicate AnyExpired(verifications: seq<VerificationRecord>, today: Date)
  {
    if verifications == [] then false
    else IsExpired(verifications[0], today) || AnyExpired(verifications[1..], today)
  }

  /** `max(0, min(100, total))`. */
  function Clamp(total: int): (r: int)
    ensures 0 <= r <= 100
    ensures 0 <= total <= 100 ==> r == total
    ensures total > 100 ==> r == 100
    ensures total < 0 ==> r == 0
  {
    var capped := if total < 100 then total else 100;
    if capped < 0 then 0 else capped
  }

  /** The score of a claim over its records on `today`. The reported score
      is always the sum of its breakdown and lies in [0, 60], so the clamp to
      [0, 100] never binds; a verified claim scores at least 11. */
  function CalculateScore(claim: ExperienceClaim, verifications: seq<VerificationRecord>, today: Date): (r: ScoreResult)
    ensures r.score == SumScores(r.breakdown)
    ensures 0 <= r.score <= 60
    ensures claim.status == ClaimStatus.Verified ==> 11 <= r.score
  {
    if claim.status != ClaimStatus.Verified then
      assert [StatusEntry][1..] == [];
      ScoreResult(0, [StatusEntry])
    else
      ScoreFactors(claim, verifications, today)
  }

  /** The factors of a verified claim, accumulated in their fixed order. The
      total lies in [11, 60] (an expiry entry needs a record, which earns at
      least 15), so the clamp leaves it alone and it equals the sum of the
      breakdown. */
  function ScoreFactors(claim: ExperienceClaim, verifications: seq<VerificationRecord>, today: Date): (r: ScoreResult)
    ensures r.score == SumScores(r.breakdown)
    ensures 11 <= r.score <= 60
  {
    var recency := RecencyEntry(MonthsBetween(claim.endDate, today));
    var duration := DurationEntry(DurationMonths(claim));
    var evidence := EvidenceEntry(claim.evidenceVisibility);
    var count := VerificationsEntry(|verifications|);
    var expired := AnyExpired(verifications, today);
    var total := recency.score + duration.score + evidence.score + count.score
                 + (if expired then ExpiryEntry.score else 0);
    var penalty := if expired then [ExpiryEntry] else [];
    PenalisedSum(recency, duration, evidence, count, expired);
    ScoreResult(Clamp(total), [recency, duration, evidence, count] + penalty)
  }

  /** The sum of the scores in a breakdown. */
  function SumScores(breakdown: seq<ScoreBreakdown>): int
  {
    if breakdown == [] then 0 else breakdown[0].score + SumScores(breakdown[1..])
  }

  function Factors(breakdown: seq<ScoreBreakdown>): seq<string>
  {
    seq(|breakdown|, i requires 0 <= i < |breakdown| => breakdown[i].factor)
  }

  /** A stored score is explained by its stored breakdown: both are present
      or both absent, and the score is the breakdown's sum, within [0, 60]. */
  predicate StoredScoreConsistent(c: ExperienceClaim)
  {
    && c.credibilityScore.Some? == c.credibilityBreakdown.Some?
    && (c.credibilityScore.Some? ==>
          && c.credibilityScore.value == SumScores(c.credibilityBreakdown.value)
          && 0 <= c.credibilityScore.value <= 60)
  }

  // ---------------------------------------------------------------------
  // Month arithmetic

  lemma MonthsBetweenIgnoresDays(start: Date, end: Date, startDay: Day, endDay: Day)
    ensures MonthsBetween(start, end) == MonthsBetween(start.(day := startDay), end.(day := endDay))
  {
  }

  /** A later `end` never gives fewer months. */
  lemma MonthsBetweenMonotone(start: Date, t1: Date, t2: Date)
    requires NotAfter(t1, t2)
    ensures MonthsBetween(start, t1) <= MonthsBetween(start, t2)
  {
    NotAfterMonthIndex(t1, t2);
  }

  // ---------------------------------------------------------------------
  // The expiry test

  lemma {:induction false} AnyExpiredIff(verifications: seq<VerificationRecord>, today: Date)
    ensures AnyExpired(verifications, today)
            <==> exists i :: 0 <= i < |verifications| && IsExpired(verifications[i], today)
  {
    if verifications != [] {
      var rest := verifications[1..];
      AnyExpiredIff(rest, today);
      if AnyExpired(rest, today) {
        var i :| 0 <= i < |rest| && IsExpired(rest[i], today);
        assert verifications[i + 1] == rest[i];
      }
      if exists i :: 0 <= i < |verifications| && IsExpired(verifications[i], today) {
        var i :| 0 <= i < |verifications| && IsExpired(verifications[i], today);
        if i > 0 {
          assert rest[i - 1] == verifications[i];
        }
      }
    }
  }

  /** Once a record has expired it stays expired as `today` advances. */
  lemma {:induction false} AnyExpiredPersists(verifications: seq<VerificationRecord>, t1: Date, t2: Date)
    requires NotAfter(t1, t2)
    requires AnyExpired(verifications, t1)
    ensures AnyExpired(verifications, t2)
  {
    if IsExpired(verifications[0], t1) {
      if t1 != t2 {
        BeforeTransitive(verifications[0].validUntil.value, t1, t2);
      }
    } else {
      AnyExpiredPersists(verifications[1..], t1, t2);
    }
  }

  /** Expiry depends only on the validity dates of the records, in order. */
  lemma {:induction false} AnyExpiredOnlyReadsValidity(vs: seq<VerificationRecord>, ws: seq<VerificationRecord>, today: Date)
    requires |vs| == |ws|
    requires forall i :: 0 <= i < |vs| ==> vs[i].validUntil == ws[i].validUntil
    ensures AnyExpired(vs, today) == AnyExpired(ws, today)
  {
    if vs != [] {
      AnyExpiredOnlyReadsValidity(vs[1..], ws[1..], today);
    }
  }

  // ---------------------------------------------------------------------
  // Breakdown sums

  lemma {:induction false} SumScoresAppend(a: seq<ScoreBreakdown>, b: seq<ScoreBreakdown>)
    ensures SumScores(a + b) == SumScores(a) + SumScores(b)
  {
    if a == [] {
      assert a + b == b;
    } else {
      assert (a + b)[1..] == a[1..] + b;
      SumScoresAppend(a[1..], b);
    }
  }

  /** The four factors, optionally followed by the expiry entry, sum to
      the four scores plus the penalty. */
  lemma PenalisedSum(a: ScoreBreakdown, b: ScoreBreakdown, c: ScoreBreakdown, d: ScoreBreakdown, expired: bool)
    ensures SumScores([a, b, c, d] + (if expired then [ExpiryEntry] else []))
            == a.score + b.score + c.score + d.score + (if expired then ExpiryEntry.score else 0)
  {
    var penalty := if expired then [ExpiryEntry] else [];
    SumScoresFour(a, b, c, d);
    SumScoresAppend([a, b, c, d], penalty);
    if expired {
      assert penalty[1..] == [];
    }
  }

  lemma SumScoresFour(a: ScoreBreakdown, b: ScoreBreakdown, c: ScoreBreakdown, d: ScoreBreakdown)
    ensures SumScores([a, b, c, d]) == a.score + b.score + c.score + d.score
  {
    assert [a, b, c, d][1..] == [b, c, d];
    assert [b, c, d][1..] == [c, d];
    assert [c, d][1..] == [d];
    assert [d][1..] == [];
    assert SumScores([d]) == d.score;
    assert SumScores([c, d]) == c.score + d.score;
    assert SumScores([b, c, d]) == b.score + c.score + d.score;
  }

  // ---------------------------------------------------------------------
  // Properties of the scorer

  /** The status gate: an unverified claim scores 0 with the single status
      entry, whatever its records and the date. */
  lemma NotVerifiedScoresZero(claim: ExperienceClaim, verifications: seq<VerificationRecord>, today: Date)
    requires claim.status != ClaimStatus.Verified
    ensures CalculateScore(claim, verifications, today) == ScoreResult(0, [ScoreBreakdown("status", 0, "Claim not verified")])
  {
  }

  /** For a verified claim the factors come in the fixed order recency,
      duration, evidence, verifications, followed by one expiry entry exactly
      when some record's validity ended strictly before today. */
  lemma VerifiedBreakdownShape(claim: ExperienceClaim, verifications: seq<VerificationRecord>, today: Date)
    requires claim.status == ClaimStatus.Verified
    ensures var bd := CalculateScore(claim, verifications, today).breakdown;
      Factors(bd) == ["recency", "duration", "evidence", "verifications"]
                     + (if exists i :: 0 <= i < |verifications| && IsExpired(verifications[i], today)
                        then ["expiry"] else [])
  {
    AnyExpiredIff(verifications, today);
  }

  /** The value of each factor of a verified claim's breakdown. */
  lemma VerifiedFactorScores(claim: ExperienceClaim, verifications: seq<VerificationRecord>, today: Date)
    requires claim.status == ClaimStatus.Verified
    ensures var bd := CalculateScore(claim, verifications, today).breakdown;
      var age := MonthsBetween(claim.endDate, today);
      var span := MonthsBetween(claim.startDate, claim.endDate);
      && |bd| >= 4
      && (bd[0].score == 15 <==> age <= 12)
      && (bd[0].score == 10 <==> 12 < age <= 24)
      && (bd[0].score == 5 <==> 24 < age)
      && 1 <= bd[1].score <= 15
      && (span < 15 ==> bd[1].score == (if span == 0 then 1 else span))
      && (span >= 15 ==> bd[1].score == 15)
      && (bd[2].score == 10 <==> claim.evidenceVisibility == Public)
      && (bd[2].score == 5 <==> claim.evidenceVisibility == VerifierOnly)
      && (bd[3].score == 20 <==> |verifications| >= 2)
      && (bd[3].score == 15 <==> |verifications| == 1)
      && (bd[3].score == 0 <==> |verifications| == 0)
      && (|bd| == 5 ==> bd[4] == ScoreBreakdown("expiry", -10, "Verification validity expired"))
  {
  }

  /** A verified claim with at least one record (as after an approval)
      scores between 16 and 60. */
  lemma ScoreWithRecord(claim: ExperienceClaim, verifications: seq<VerificationRecord>, today: Date)
    requires claim.status == ClaimStatus.Verified
    requires |verifications| >= 1
    ensures 16 <= CalculateScore(claim, verifications, today).score <= 60
  {
  }

  /** Only the number of records and their validity dates matter: the
      outcome, verifier and notes of a record never change the score. */
  lemma ScoreIgnoresOutcomes(claim: ExperienceClaim, vs: seq<VerificationRecord>, ws: seq<VerificationRecord>, today: Date)
    requires |vs| == |ws|
    requires forall i :: 0 <= i < |vs| ==> vs[i].validUntil == ws[i].validUntil
    ensures CalculateScore(claim, vs, today) == CalculateScore(claim, ws, today)
  {
    AnyExpiredOnlyReadsValidity(vs, ws, today);
  }

  /** Recomputing later never raises the score: recency can only fall and an
      expired record stays expired. */
  lemma ScoreNonIncreasingOverTime(claim: ExperienceClaim, verifications: seq<VerificationRecord>, t1: Date, t2: Date)
    requires NotAfter(t1, t2)
    ensures CalculateScore(claim, verifications, t2).score <= CalculateScore(claim, verifications, t1).score
  {
    if claim.status == ClaimStatus.Verified {
      MonthsBetweenMonotone(claim.endDate, t1, t2);
      if AnyExpired(verifications, t1) {
        AnyExpiredPersists(verifications, t1, t2);
      }
    }
  }

  /** Every scoring result is a consistent stored score. */
  lemma ScoreResultConsistent(claim: ExperienceClaim, verifications: seq<VerificationRecord>, today: Date)
    ensures var r := CalculateScore(claim, verifications, today);
      StoredScoreConsistent(claim.(credibilityScore := Some(r.score), credibilityBreakdown := Some(r.breakdown)))
  {
  }
}
