/** The database the repositories and endpoints share: claims, disputes and
    organizations keyed by id, and the append-only ledger of verification
    records in insertion order. Sessions, commits and refreshes are not part
    of this model; each operation is one sequential step. */
module Store {
  import opened Entities
  import opened Scoring

  class Database {
    var claims: map<Id, ExperienceClaim>
    var records: seq<VerificationRecord>
    var disputes: map<Id, Dispute>
    var orgs: map<Id, Organization>

    /** Every row sits under its own id, every record refers to a stored
        claim, and every stored score is explained by its breakdown. */
    ghost predicate Valid()
      reads this
    {
      && (forall id | id in claims :: claims[id].id == id && StoredScoreConsistent(claims[id]))
      && (forall i | 0 <= i < |records| :: records[i].claimId in claims)
      && (forall id | id in disputes :: disputes[id].id == id)
      && (forall id | id in orgs :: orgs[id].id == id)
    }

    /** A database with no claims or records, holding the disputes and
        organizations loaded from elsewhere. */
    constructor (disputes0: map<Id, Dispute>, orgs0: map<Id, Organization>)
      requires forall id | id in disputes0 :: disputes0[id].id == id
      requires forall id | id in orgs0 :: orgs0[id].id == id
      ensures Valid()
      ensures claims == map[] && records == [] && disputes == disputes0 && orgs == orgs0
    {
      claims := map[];
      records := [];
      disputes := disputes0;
      orgs := orgs0;
    }
  }
}
