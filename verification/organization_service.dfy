/** Organizations: creation with the tax number validated as a RUC, a
    mandatory normalised phone and uniqueness of tax number and email; the
    active toggle; the listing filter. */
module OrganizationService {
  import opened Common
  import opened StringUtils
  import opened IdCardUtils
  import opened PhoneUtils
  import opened SharedDomain
  import opened SpecificationUtils

  datatype Organization = Organization(
    tin: string,
    name: string,
    address: Option<string>,
    phone: string,
    email: string,
    active: bool)

  /** The request: tax number, name and email are required; address and phone
      may be null (a null phone is then rejected by the normaliser). */
  datatype OrganizationPostDTO = OrganizationPostDTO(
    tin: string,
    name: string,
    address: Option<string>,
    phone: Option<string>,
    email: string)

  datatype OrganizationError =
    | InvalidTin(tinError: IdCardError)
    | Phone(phoneError: PhoneError)
    | AlreadyExistsByTin     // error.organization.already_exists_by_tin
    | AlreadyExistsByEmail   // error.organization.already_exists_by_email
    | EntityNotFound

  /** The attributes an organization search names. */
  function OrganizationRow(o: Organization): Row {
    Row(o.active, map["tin" := o.tin, "name" := o.name, "email" := o.email])
  }

  /** paged: the flag condition, AND (for a term that is not blank) the trimmed
      term searched in tin, name or email. */
  function PagedSpec(filter: EntityStatefulFilter): Specification {
    var search := filter.GetSearch();
    if search.Some? && !IsBlank(search.value) then
      var term := Some(Trim(search.value));
      And(WithActive(filter.GetActive()),
          Or(Or(WithSearch(term, "tin"), WithSearch(term, "name")), WithSearch(term, "email")))
    else
      WithActive(filter.GetActive())
  }

  /** An organization is listed iff the flag matches and, for a term whose
      trimmed form is not blank, its tax number, name or email contains it. */
  lemma PagedSelects(filter: EntityStatefulFilter, o: Organization)
    ensures var term := if filter.search.Some? then Trim(filter.search.value) else [];
            PagedSpec(filter)(OrganizationRow(o)) <==>
              (filter.active == Some(TRUE) ==> o.active) &&
              (filter.active == Some(FALSE) ==> !o.active) &&
              (filter.search.Some? && !IsBlank(filter.search.value) && !IsBlank(term) ==>
                 Contains(LowerAscii(o.tin), LowerAscii(term)) ||
                 Contains(LowerAscii(o.name), LowerAscii(term)) ||
                 Contains(LowerAscii(o.email), LowerAscii(term)))
  {
    var row := OrganizationRow(o);
    var active := filter.GetActive();
    var search := filter.GetSearch();
    var term := if search.Some? then Some(Trim(search.value)) else None;
    SelectsRow(active, term, "tin", row);
    SelectsRow(active, term, "name", row);
    SelectsRow(active, term, "email", row);
    assert row.fields["tin"] == o.tin && row.fields["name"] == o.name && row.fields["email"] == o.email;
  }

  class OrganizationServiceImpl {
    var repository: map<Uuid, Organization>

    constructor()
      ensures repository == map[]
    {
      repository := map[];
    }

    predicate ExistsByTin(tin: string)
      reads this
    {
      exists id :: id in repository && repository[id].tin == tin
    }

    predicate ExistsByEmail(email: string)
      reads this
    {
      exists id :: id in repository && repository[id].email == email
    }

    /** The store's unique tax numbers and emails. */
    predicate TinsAndEmailsDistinct()
      reads this
    {
      forall a, b :: a in repository && b in repository && a != b ==>
        repository[a].tin != repository[b].tin && repository[a].email != repository[b].email
    }

    /** create. The checks run in the source's order and a failing one saves
        nothing: the tax number as a RUC, the phone (always normalised, so it
        is mandatory), an existing tax number, an existing email. On success
        one active organization is added with the request's fields and the
        normalised phone, and tax numbers and emails stay unique. */
    method Create(dto: OrganizationPostDTO, id: Uuid, normalise: Normaliser)
      returns (r: Result<Organization, OrganizationError>)
      requires id !in repository
      modifies this
      ensures r.Failure? ==> repository == old(repository)
      ensures ValidateRuc(Some(dto.tin)).Fail? ==> r == Failure(InvalidTin(ValidateRuc(Some(dto.tin)).error))
      ensures ValidateRuc(Some(dto.tin)) == Pass && ToE164(dto.phone, normalise).Failure? ==>
                r == Failure(Phone(ToE164(dto.phone, normalise).error))
      ensures (ValidateRuc(Some(dto.tin)) == Pass && ToE164(dto.phone, normalise).Success? &&
               old(ExistsByTin(dto.tin))) ==> r == Failure(AlreadyExistsByTin)
      ensures (ValidateRuc(Some(dto.tin)) == Pass && ToE164(dto.phone, normalise).Success? &&
               !old(ExistsByTin(dto.tin)) && old(ExistsByEmail(dto.email))) ==> r == Failure(AlreadyExistsByEmail)
      ensures r.Success? <==>
                ValidateRuc(Some(dto.tin)) == Pass && ToE164(dto.phone, normalise).Success? &&
                !old(ExistsByTin(dto.tin)) && !old(ExistsByEmail(dto.email))
      ensures r.Success? ==>
                r.value == Organization(dto.tin, dto.name, dto.address, ToE164(dto.phone, normalise).value,
                                        dto.email, true) &&
                repository == old(repository)[id := r.value]
      ensures old(TinsAndEmailsDistinct()) ==> TinsAndEmailsDistinct()
    {
      var tinCheck := ValidateRuc(Some(dto.tin));
      if tinCheck.Fail? {
        return Failure(InvalidTin(tinCheck.error));
      }
      var phone := ToE164(dto.phone, normalise);
      if phone.Failure? {
        return Failure(Phone(phone.error));
      }
      if ExistsByTin(dto.tin) {
        return Failure(AlreadyExistsByTin);
      }
      if ExistsByEmail(dto.email) {
        return Failure(AlreadyExistsByEmail);
      }
      var organization := Organization(dto.tin, dto.name, dto.address, phone.value, dto.email, true);
      repository := repository[id := organization];
      r := Success(organization);
    }

    /** toggleActiveStatus: flips the organization's flag and nothing else. */
    method ToggleActiveStatus(id: Uuid) returns (r: Result<Organization, OrganizationError>)
      modifies this
      ensures id !in old(repository) ==> r == Failure(EntityNotFound) && repository == old(repository)
      ensures id in old(repository) ==>
                r == Success(old(repository[id]).(active := !old(repository[id]).active)) &&
                repository == old(repository)[id := r.value]
      ensures old(TinsAndEmailsDistinct()) ==> TinsAndEmailsDistinct()
    {
      if id !in repository {
        return Failure(EntityNotFound);
      }
      var organization := repository[id];
      var toggled := organization.(active := !organization.active);
      repository := repository[id := toggled];
      r := Success(toggled);
    }
  }

  /** Without a phone, or with a blank one, no organization is created,
      whatever the normaliser does. */
  lemma PhoneIsMandatory(dto: OrganizationPostDTO, normalise: Normaliser)
    requires dto.phone.None? || IsBlank(dto.phone.value)
    ensures ToE164(dto.phone, normalise) == Failure(NullOrEmpty)
  {
  }
}
