/** The public report (backend/app/api/v1/endpoints/reports.py). The report
    token is the claim id itself. */
module ReportsEndpoint {
  import opened Wrappers
  import opened Entities
  import opened Store
  import opened ClaimsRepository

  const ReportNotFound := HttpError(404, "Report not found or not verified")

  /** A claim is publicly visible exactly when it is stored and verified; a
      claim in any other state is reported exactly like a missing one. */
  function ViewReport(db: Database, token: Id): (r: Result<ExperienceClaim>)
    reads db`claims
    ensures r.Ok? <==> token in db.claims && db.claims[token].status == ClaimStatus.Verified
    ensures r.Ok? ==> r.value == db.claims[token]
    ensures r.Err? ==> r.error == HttpError(404, "Report not found or not verified")
  {
    match GetClaim(db, token)
    case None => Err(ReportNotFound)
    case Some(claim) =>
      if claim.status != ClaimStatus.Verified then Err(ReportNotFound) else Ok(claim)
  }
}
