# VerifyLK decision core in Dafny

VerifyLK verifies self-reported work and volunteer experience. A candidate
records a claim. Independent verifiers approve or reject it. Every decision
is appended to a ledger of verification records and triggers a recomputed,
rule-based credibility score with an itemised breakdown. Verified claims are
publicly viewable. Administrators review organizations and decide disputes.

This project models that decision core:

- `Scoring` is the credibility scorer. It covers:
  - the month difference;
  - the status gate;
  - the recency, duration, evidence and verification-count factors;
  - the single expiry penalty;
  - the clamp.
- `Store.Database` holds the shared state: claims, disputes and organizations
  keyed by id, plus the append-only sequence of verification records. Its
  `Valid` invariant says four things:
  - every row sits under its own id;
  - every record refers to a stored claim;
  - every stored score equals the sum of its breakdown;
  - every stored score lies within [0, 60].
- `ClaimsRepository` and `VerificationsRepository` are the persistence
  operations: create, look up, the field-wise update loop, append a
  decision, the per-claim records and the verifier inbox.
- `Dependencies.RequireRole` is the role gate that every endpoint applies
  except two: reading a claim by id needs only an authenticated user, and
  the public report needs no user at all.
- `ClaimsEndpoint`, `VerificationsEndpoint`, `ReportsEndpoint` and
  `AdminEndpoint` are the HTTP operations. Each runs its checks in the
  source's order, skipping those it does not have:
  1. role;
  2. existence;
  3. ownership;
  4. state.

  The failure of a check is an `Err` carrying the status code and message
  the source raises, and it leaves the database unchanged.
- `Entities` holds the enums, the records and the column defaults.
  `ScoringTests` restates the repository's scorer tests and two worked
  examples.

The code enforces no idealised lifecycle, and the model follows the code:

- Requesting verification sets any owned claim to `pending`, whatever its
  current status. The code has no draft-only check and no field validation.
- A verifier may decide a claim in any status. The code has no pending-only
  check, so a decision overwrites `verified` or `rejected` as well.
- Nothing in the code sets a claim to `expired` or `disputed`, and no
  operation opens a dispute. Dispute decisions may set any status from any
  status.
- A score is not present exactly when the claim is verified:
  - a rejected claim stores score 0 with the "not verified" entry;
  - a claim sent back to `pending` keeps its last score.
- `start_date <= end_date` is not validated anywhere. The scorer floors a
  negative span to 0 and then counts it as 1 month.

The proved bounds are tighter than the scorer's clamp to [0, 100]:

- a verified claim scores between 11 and 60;
- after an approval it scores between 16 and 60;
- so the clamp never changes the total, and the score always equals the sum
  of the breakdown.

## Model

| member | source | states |
|---|---|---|
| Store.Database.constructor | backend/app/models/entities.py:88-156 | an empty claims table and ledger, with disputes and organizations each keyed by their own id, satisfy the store invariant: rows under their own ids, records referring to stored claims, stored scores equal to their breakdown sums within [0, 60] |
| Entities.Defaults | backend/app/models/entities.py:76-154 | a new claim is a draft with verifier-only evidence and no score; a new dispute is open without notes; a new organization is unverified |
| Scoring.MonthsBetween | backend/app/services/scoring.py:8-9 | the whole-month difference between the two dates' month indices, or 0 when the end month is not after the start month |
| Scoring.MonthsBetweenIgnoresDays | backend/app/services/scoring.py:8-9 | the day of either date never changes the month difference |
| Scoring.MonthsBetweenMonotone | backend/app/services/scoring.py:8-9 | a later end date never gives fewer months |
| Scoring.NatToDecimal | backend/app/services/scoring.py:42 | the duration count is rendered as decimal digits with no leading zero |
| Scoring.DecimalRoundTrip | backend/app/services/scoring.py:42 | the rendered count reads back as the count |
| Scoring.Clamp | backend/app/services/scoring.py:75-76 | the result lies in [0, 100]; it equals the total when the total is in range, 100 above and 0 below |
| Scoring.AnyExpiredIff | backend/app/services/scoring.py:69 | the expiry test holds exactly when some record has a validity date strictly before today |
| Scoring.AnyExpiredPersists | backend/app/services/scoring.py:69 | once a record list has expired at some date, it stays expired at every later date |
| Scoring.AnyExpiredOnlyReadsValidity | backend/app/services/scoring.py:69 | two record lists with the same validity dates, position by position, agree on expiry |
| Scoring.NotVerifiedScoresZero | backend/app/services/scoring.py:21-23 | a claim that is not verified scores 0 with the single entry ("status", 0, "Claim not verified") |
| Scoring.VerifiedBreakdownShape | backend/app/services/scoring.py:25-73 | a verified claim's factors are recency, duration, evidence and verifications in that order, then one expiry entry exactly when some record has expired |
| Scoring.VerifiedFactorScores | backend/app/services/scoring.py:25-73 | recency is 15, 10 or 5 exactly at the 12- and 24-month thresholds; duration is in [1, 15], equal to the span (a span of 0 counts as 1) below 15 and 15 at or above; evidence is 10 if and only if public and 5 if and only if verifier-only; the count factor is 20, 15 or 0 exactly for two or more records, one record or none; a fifth entry is the -10 expiry entry |
| Scoring.CalculateScore | backend/app/services/scoring.py:12-77 | every score equals the sum of its breakdown and lies in [0, 60], so the clamp never binds; a verified claim scores at least 11 |
| Scoring.ScoreFactors | backend/app/services/scoring.py:25-77 | a verified claim's total lies in [11, 60] (an expiry entry needs a record, which earns at least 15) and equals the sum of its breakdown |
| Scoring.ScoreWithRecord | backend/app/services/scoring.py:55-76 | a verified claim with at least one record scores between 16 and 60 |
| Scoring.ScoreIgnoresOutcomes | backend/app/services/scoring.py:18-69 | only the number of records and their validity dates affect the score; approved and rejected records count alike |
| Scoring.ScoreNonIncreasingOverTime | backend/app/services/scoring.py:16-77 | scoring the same claim and records on a later day never gives a higher score |
| Scoring.ScoreResultConsistent | backend/app/api/v1/endpoints/verifications.py:34-36 | storing any scoring result on a claim gives a consistent stored score (score equals the breakdown sum, within [0, 60]) |
| ScoringTests.RecentVerifiedClaimScoresPositive | backend/tests/test_scoring.py:7-37 | the verified sample claim with one approval scores above 0 and has a recency factor, on any day |
| ScoringTests.DraftClaimScoresZero | backend/tests/test_scoring.py:40-58 | the draft sample claim with no records scores 0 and its first reason is "Claim not verified" |
| ScoringTests.SingleApprovalExample | backend/app/services/scoring.py:25-76 | ended 5 months ago, a 6-month span, public evidence and one unexpired approval give 15 + 6 + 10 + 15 = 46 |
| ScoringTests.ExpiredApprovalExample | backend/app/services/scoring.py:25-76 | the same claim with two approvals, one expired, gives 41 with five breakdown entries |
| Dependencies.RequireRole | backend/app/dependencies.py:34-38 | passes exactly when the user's role is the required one; otherwise fails with 403 "Insufficient role" |
| ClaimsRepository.CreateClaim | backend/app/repositories/claims.py:7-25 | inserts a draft without a score under the new id, owned by the candidate; copies every payload field and turns absent tags into an empty list; nothing else changes |
| ClaimsRepository.GetClaimsForCandidate | backend/app/repositories/claims.py:28-29 | returns exactly the stored claims owned by the candidate, unchanged |
| ClaimsRepository.GetClaim | backend/app/repositories/claims.py:32-33 | returns the stored claim exactly when the id is present |
| ClaimsRepository.ModelDumpApplies | backend/app/repositories/claims.py:36-38 | applying the explicitly set fields one after another equals the field-wise update, in which each set field replaces the claim's value and unset fields keep theirs |
| ClaimsRepository.SetAttrs | backend/app/repositories/claims.py:36-38 | the setattr loop yields the field-wise update; the id, the owner, the status and the score stay as they were |
| ClaimsRepository.UpdateClaim | backend/app/repositories/claims.py:36-41 | the stored claim is replaced by its field-wise update and nothing else changes |
| ClaimsRepository.PatchedIdempotent | backend/app/repositories/claims.py:36-38 | an update with no field set changes nothing, and applying the same update twice equals applying it once |
| VerificationsRepository.CreateVerification | backend/app/repositories/verifications.py:7-27 | appends a record whose fields are copied from the decision; the claim becomes verified exactly when approved and rejected exactly when rejected, whatever its previous status; earlier records, disputes and organizations are unchanged |
| VerificationsRepository.ClaimRecordsMembers | backend/app/repositories/verifications.py:30-31 | a record is among a claim's records exactly when it is in the ledger and belongs to the claim |
| VerificationsRepository.ClaimRecordsAppend | backend/app/repositories/verifications.py:30-31 | appending a record to the ledger extends exactly its own claim's record list, at the end |
| VerificationsRepository.GetForClaim | backend/app/repositories/verifications.py:30-31 | the stored records belonging to the claim, and only those |
| VerificationsRepository.GetForClaimCounts | backend/app/repositories/verifications.py:30-31 | every row of the claim is kept: each record occurs in the result as often as in the ledger, and records of other claims not at all |
| VerificationsRepository.InboxForVerifier | backend/app/repositories/verifications.py:34-36 | exactly the pending claims, as stored |
| VerificationsRepository.InboxIgnoresVerifier | backend/app/repositories/verifications.py:34-36 | every verifier sees the same inbox |
| ReportsEndpoint.ViewReport | backend/app/api/v1/endpoints/reports.py:12-18 | the claim is returned exactly when it is stored and verified; a missing claim and an unverified claim both give 404 "Report not found or not verified" |
| ClaimsEndpoint.ListClaims | backend/app/api/v1/endpoints/claims.py:13-17 | only a candidate may list claims, and receives exactly the claims they own, each as stored |
| ClaimsEndpoint.CreateNewClaim | backend/app/api/v1/endpoints/claims.py:20-26 | only a candidate may create a claim; the new draft without a score is theirs, carries every payload field with absent tags as an empty list, and is readable by them at once; any other role gets 403 and changes nothing |
| ClaimsEndpoint.EnsureOwner | backend/app/api/v1/endpoints/claims.py:29-31 | passes exactly when the user owns the claim; otherwise fails with 403 "Not your claim" |
| ClaimsEndpoint.GetClaimById | backend/app/api/v1/endpoints/claims.py:34-45 | a missing claim gives 404; otherwise an admin or the owner gets the stored claim and anyone else gets 403 |
| ClaimsEndpoint.UpdateClaimById | backend/app/api/v1/endpoints/claims.py:48-61 | checks role (403), existence (404), ownership (403) and draft/pending state (400) in that order; succeeds exactly when all pass and then stores the field-wise update; a failure changes nothing |
| ClaimsEndpoint.RequestVerification | backend/app/api/v1/endpoints/claims.py:64-79 | an owning candidate moves the claim to pending from any status, keeping its score; the claim then appears in every verifier's inbox; failures change nothing |
| VerificationsEndpoint.ListInbox | backend/app/api/v1/endpoints/verifications.py:15-17 | only a verifier gets the inbox, and it holds exactly the pending claims, each as stored |
| VerificationsEndpoint.WithScore | backend/app/api/v1/endpoints/verifications.py:34-36 | only the score and the breakdown of the claim change, and both become present |
| VerificationsEndpoint.DecidedScore | backend/app/api/v1/endpoints/verifications.py:31-36 | after a decision, a rejection stores score 0 with the single "not verified" entry, and an approval stores a score between 16 and 60; either way the stored score is consistent |
| VerificationsEndpoint.StoreScore | backend/app/api/v1/endpoints/verifications.py:33-36 | the claim is rescored over all of its stored records; the ledger, disputes and organizations are unchanged and the database stays valid |
| VerificationsEndpoint.RecordDecision | backend/app/api/v1/endpoints/verifications.py:31-36 | appends the decision's record, sets the status from the outcome and stores the score over all records including the new one; afterwards the public report is visible exactly when approved, and the claim is in no verifier's inbox |
| VerificationsEndpoint.Decide | backend/app/api/v1/endpoints/verifications.py:20-40 | succeeds exactly for a verifier on a stored claim, in any status; otherwise 403 or 404 with nothing changed; on success has the effects of RecordDecision |
| AdminEndpoint.ListOrgs | backend/app/api/v1/endpoints/admin.py:11-14 | only an admin lists organizations, getting one summary (id, name, status, contact email) per stored organization |
| AdminEndpoint.VerifyOrg | backend/app/api/v1/endpoints/admin.py:17-31 | an admin sets a stored organization's status to the given value (by default verified) from any status; 403 or 404 otherwise, with nothing changed |
| AdminEndpoint.ListDisputes | backend/app/api/v1/endpoints/admin.py:34-46 | only an admin lists disputes, getting one summary per stored dispute with its claim, status, reason and notes |
| AdminEndpoint.DecideDispute | backend/app/api/v1/endpoints/admin.py:49-65 | an admin overwrites a stored dispute's status with any value and its notes with the given ones (absent notes erase old ones); claims, records and organizations are unchanged; 403 or 404 otherwise, with nothing changed |

## Left out

- Authentication: JWT decoding, password hashing and user lookup are out. The caller arrives as an authenticated `User`, and only the role comparison of `require_role` is modelled.
- Generated identifiers: `CreateClaim` and `CreateNewClaim` take the new claim id as a parameter that is not yet in use, standing for the UUID the database generates. Verification records carry no id; their place in the ledger identifies them.
- Timestamps: `created_at` and `updated_at` are not modelled.
- The clock: `calculate_score` reads `date.today()`; the model takes `today` as a parameter.
- Sessions: `add`, `commit` and `refresh` are not modelled. Each operation is one sequential step on the database. `Decide` therefore cannot show the intermediate commit between the record append and the rescoring.
- Concurrency: concurrent requests are not modelled.
- Scores are `int`, not floats. Every factor is an integer, so the float total of the source takes the same integer values.
- `ScoreBreakdown.score` is `int`, not float.
- Enum values travel as enum constructors, not as their strings.
- Summaries: the organization and dispute list endpoints return maps keyed by id, not lists in database order. The claim lists and the inbox likewise return maps, because the query order is unspecified.
- `ClaimsRepository.UpdateClaim`: an explicit null sent for a non-nullable field (such as `title`) is not modelled; such a field is either absent or set to a value. An explicit null for the nullable `skill_tags` is modelled.
- Dates: they satisfy the field ranges of Python's `date` (year 1..9999, month 1..12, day 1..31), but the day-per-month calendar rule is not checked. No operation depends on it.
- `list_audit`, the audit middleware and the audit log are not part of this model.
- The email and storage stubs are not part of this model.
- The frontend, the application wiring and the authentication endpoints are not part of this model.
- Evidence files are not part of this model. Only the claim's evidence-visibility flag enters the score.
