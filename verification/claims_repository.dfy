/** Claim persistence (backend/app/repositories/claims.py): creation in
    draft, lookups by id and by owner, and the partial field update. */
module ClaimsRepository {
  import opened Wrappers
  import opened Entities
  import opened Scoring
  import opened Store

  /** Inserts a new draft claim owned by `candidateId` under `newId`, which
      stands for the generated UUID and is therefore not yet in use. */
  method CreateClaim(db: Database, candidateId: Id, payload: ExperienceClaimCreate, newId: Id)
    returns (claim: ExperienceClaim)
    requires db.Valid()
    requires newId !in db.claims
    modifies db
    ensures db.Valid()
    ensures claim.id == newId && claim.candidateId == candidateId
    ensures claim.status == ClaimStatus.Draft
    ensures claim.credibilityScore == None && claim.credibilityBreakdown == None
    ensures && claim.title == payload.title && claim.claimType == payload.claimType
            && claim.organizationName == payload.organizationName
            && claim.supervisorName == payload.supervisorName
            && claim.supervisorContact == payload.supervisorContact
            && claim.startDate == payload.startDate && claim.endDate == payload.endDate
            && claim.description == payload.description
            && claim.evidenceVisibility == payload.evidenceVisibility
    ensures claim.skillTags == Some(payload.skillTags.GetOr([]))
    ensures db.claims == old(db.claims)[newId := claim]
    ensures db.records == old(db.records) && db.disputes == old(db.disputes) && db.orgs == old(db.orgs)
  {
    claim := ExperienceClaim(
      id := newId,
      candidateId := candidateId,
      title := payload.title,
      claimType := payload.claimType,
      organizationName := payload.organizationName,
      supervisorName := payload.supervisorName,
      supervisorContact := payload.supervisorContact,
      startDate := payload.startDate,
      endDate := payload.endDate,
      description := payload.description,
      skillTags := Some(payload.skillTags.GetOr([])),
      evidenceVisibility := payload.evidenceVisibility,
      status := ClaimStatus.Draft);
    db.claims := db.claims[newId := claim];
  }

  /** The claims owned by `candidateId`, keyed by id. */
  function GetClaimsForCandidate(db: Database, candidateId: Id): (owned: map<Id, ExperienceClaim>)
    reads db`claims
    ensures forall id :: id in owned <==> id in db.claims && db.claims[id].candidateId == candidateId
    ensures forall id | id in owned :: owned[id] == db.claims[id]
  {
    map id | id in db.claims && db.claims[id].candidateId == candidateId :: db.claims[id]
  }

  /** The claim stored under `claimId`, or nothing. */
  function GetClaim(db: Database, claimId: Id): (found: Option<ExperienceClaim>)
    reads db`claims
    ensures found.Some? <==> claimId in db.claims
    ensures found.Some? ==> found.value == db.claims[claimId]
  {
    if claimId in db.claims then Some(db.claims[claimId]) else None
  }

  /** One `(field, value)` item of an update payload dumped with
      `exclude_unset`. */
  datatype ClaimField =
    | Title(title: string)
    | ClaimType(claimType: string)
    | OrganizationName(organizationName: string)
    | SupervisorName(supervisorName: string)
    | SupervisorContact(supervisorContact: string)
    | StartDate(startDate: Dates.Date)
    | EndDate(endDate: Dates.Date)
    | Description(description: string)
    | SkillTags(skillTags: Option<seq<string>>)
    | Visibility(evidenceVisibility: EvidenceVisibility)

  /** The item the payload contributes for its `k`-th declared field: one
      item if the client set that field, none otherwise. */
  function FieldItem(p: ExperienceClaimUpdate, k: nat): seq<ClaimField>
  {
    if k == 0 then (if p.title.Some? then [Title(p.title.value)] else [])
    else if k == 1 then (if p.claimType.Some? then [ClaimType(p.claimType.value)] else [])
    else if k == 2 then (if p.organizationName.Some? then [OrganizationName(p.organizationName.value)] else [])
    else if k == 3 then (if p.supervisorName.Some? then [SupervisorName(p.supervisorName.value)] else [])
    else if k == 4 then (if p.supervisorContact.Some? then [SupervisorContact(p.supervisorContact.value)] else [])
    else if k == 5 then (if p.startDate.Some? then [StartDate(p.startDate.value)] else [])
    else if k == 6 then (if p.endDate.Some? then [EndDate(p.endDate.value)] else [])
    else if k == 7 then (if p.description.Some? then [Description(p.description.value)] else [])
    else if k == 8 then (if p.skillTags.Some? then [SkillTags(p.skillTags.value)] else [])
    else if k == 9 then (if p.evidenceVisibility.Some? then [Visibility(p.evidenceVisibility.value)] else [])
    else []
  }

  /** The items of the first `k` declared fields, in declaration order. */
  function DumpUpTo(p: ExperienceClaimUpdate, k: nat): seq<ClaimField>
  {
    if k == 0 then [] else DumpUpTo(p, k - 1) + FieldItem(p, k - 1)
  }

  /** `model_dump(exclude_unset=True).items()`: the explicitly set fields of
      a payload, in declaration order. */
  function ModelDump(p: ExperienceClaimUpdate): seq<ClaimField>
  {
    DumpUpTo(p, 10)
  }

  /** `setattr(claim, field, value)`. */
  function SetAttr(c: ExperienceClaim, f: ClaimField): ExperienceClaim
  {
    match f
    case Title(v) => c.(title := v)
    case ClaimType(v) => c.(claimType := v)
    case OrganizationName(v) => c.(organizationName := v)
    case SupervisorName(v) => c.(supervisorName := v)
    case SupervisorContact(v) => c.(supervisorContact := v)
    case StartDate(v) => c.(startDate := v)
    case EndDate(v) => c.(endDate := v)
    case Description(v) => c.(description := v)
    case SkillTags(v) => c.(skillTags := v)
    case Visibility(v) => c.(evidenceVisibility := v)
  }

  /** The effect of applying `fields` one after another, first to last. */
  function ApplyAll(c: ExperienceClaim, fields: seq<ClaimField>): ExperienceClaim
    decreases fields
  {
    if fields == [] then c else ApplyAll(SetAttr(c, fields[0]), fields[1..])
  }

  /** The intended result of an update, field by field: a field the client
      set takes the new value, every other field keeps the old one. */
  function Patched(c: ExperienceClaim, p: ExperienceClaimUpdate): ExperienceClaim
  {
    c.(title := p.title.GetOr(c.title),
       claimType := p.claimType.GetOr(c.claimType),
       organizationName := p.organizationName.GetOr(c.organizationName),
       supervisorName := p.supervisorName.GetOr(c.supervisorName),
       supervisorContact := p.supervisorContact.GetOr(c.supervisorContact),
       startDate := p.startDate.GetOr(c.startDate),
       endDate := p.endDate.GetOr(c.endDate),
       description := p.description.GetOr(c.description),
       skillTags := p.skillTags.GetOr(c.skillTags),
       evidenceVisibility := p.evidenceVisibility.GetOr(c.evidenceVisibility))
  }

  lemma {:induction false} ApplyAllAppend(c: ExperienceClaim, a: seq<ClaimField>, b: seq<ClaimField>)
    ensures ApplyAll(c, a + b) == ApplyAll(ApplyAll(c, a), b)
    decreases a
  {
    if a == [] {
      assert a + b == b;
    } else {
      assert (a + b)[1..] == a[1..] + b;
      ApplyAllAppend(SetAttr(c, a[0]), a[1..], b);
    }
  }

  lemma ApplyAtMostOne(c: ExperienceClaim, fields: seq<ClaimField>)
    requires |fields| <= 1
    ensures ApplyAll(c, fields) == if fields == [] then c else SetAttr(c, fields[0])
  {
    if fields != [] {
      assert fields[1..] == [];
    }
  }

  /** The payload with only its first `k` declared fields left set. */
  function KeepUpTo(p: ExperienceClaimUpdate, k: nat): ExperienceClaimUpdate
  {
    ExperienceClaimUpdate(
      title := if 0 < k then p.title else None,
      claimType := if 1 < k then p.claimType else None,
      organizationName := if 2 < k then p.organizationName else None,
      supervisorName := if 3 < k then p.supervisorName else None,
      supervisorContact := if 4 < k then p.supervisorContact else None,
      startDate := if 5 < k then p.startDate else None,
      endDate := if 6 < k then p.endDate else None,
      description := if 7 < k then p.description else None,
      skillTags := if 8 < k then p.skillTags else None,
      evidenceVisibility := if 9 < k then p.evidenceVisibility else None)
  }

  /** Applying the items of the first `k` fields in order gives the
      field-wise update by those fields: each field contributes at most one
      item, so no item is overwritten by a later one. */
  lemma {:induction false} DumpUpToApplies(c: ExperienceClaim, p: ExperienceClaimUpdate, k: nat)
    requires k <= 10
    ensures ApplyAll(c, DumpUpTo(p, k)) == Patched(c, KeepUpTo(p, k))
  {
    if k > 0 {
      DumpUpToApplies(c, p, k - 1);
      var before := Patched(c, KeepUpTo(p, k - 1));
      var item := FieldItem(p, k - 1);
      ApplyAllAppend(c, DumpUpTo(p, k - 1), item);
      ApplyAtMostOne(before, item);
    }
  }

  lemma ModelDumpApplies(c: ExperienceClaim, p: ExperienceClaimUpdate)
    ensures ApplyAll(c, ModelDump(p)) == Patched(c, p)
  {
    DumpUpToApplies(c, p, 10);
    assert KeepUpTo(p, 10) == p;
  }

  /** The `setattr` loop over the explicitly set fields. It changes exactly
      those fields; the id, the owner, the status and the score cannot be
      changed, since the payload has no field for them. */
  method SetAttrs(claim: ExperienceClaim, payload: ExperienceClaimUpdate) returns (updated: ExperienceClaim)
    ensures updated == Patched(claim, payload)
    ensures && updated.id == claim.id && updated.candidateId == claim.candidateId
            && updated.status == claim.status
            && updated.credibilityScore == claim.credibilityScore
            && updated.credibilityBreakdown == claim.credibilityBreakdown
  {
    var items := ModelDump(payload);
    updated := claim;
    for i := 0 to |items|
      invariant ApplyAll(updated, items[i..]) == ApplyAll(claim, items)
    {
      assert items[i..][1..] == items[i + 1..];
      updated := SetAttr(updated, items[i]);
    }
    assert items[|items|..] == [];
    ModelDumpApplies(claim, payload);
  }

  /** Applies an update to a stored claim in place. */
  method UpdateClaim(db: Database, claimId: Id, payload: ExperienceClaimUpdate) returns (claim: ExperienceClaim)
    requires db.Valid()
    requires claimId in db.claims
    modifies db
    ensures db.Valid()
    ensures claim == Patched(old(db.claims[claimId]), payload)
    ensures db.claims == old(db.claims)[claimId := claim]
    ensures db.records == old(db.records) && db.disputes == old(db.disputes) && db.orgs == old(db.orgs)
  {
    claim := SetAttrs(db.claims[claimId], payload);
    db.claims := db.claims[claimId := claim];
  }

  /** An update with no field set leaves the claim as it was, and repeating
      an update changes nothing more. */
  lemma PatchedIdempotent(c: ExperienceClaim, p: ExperienceClaimUpdate)
    ensures Patched(c, ExperienceClaimUpdate()) == c
    ensures Patched(Patched(c, p), p) == Patched(c, p)
  {
  }
}
