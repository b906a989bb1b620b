/** Businesses of an organization: creation with an optional normalised phone,
    an email unique within the organization and trimmed fields; the active
    toggle; the listing filter. */
module BusinessService {
  import opened Common
  import opened StringUtils
  import opened PhoneUtils
  import opened SharedDomain
  import opened SpecificationUtils

  datatype Business = Business(
    organization: Uuid,
    name: string,
    phone: Option<string>,
    email: Option<string>,
    address: string,
    active: bool)

  /** The request: name and address are required; phone and email may be null. */
  datatype BusinessPostDTO = BusinessPostDTO(
    name: string,
    phone: Option<string>,
    email: Option<string>,
    address: string)

  datatype BusinessError =
    | Phone(phoneError: PhoneError)
    | AlreadyExistsByEmail   // error.business.already_exists_by_email
    | EntityNotFound

  /** The attributes a business search names. The source also names "tin",
      which a business does not have, so that disjunct never matches here. */
  function BusinessRow(b: Business): Row {
    var fields := map["name" := b.name, "address" := b.address];
    var fields := if b.email.Some? then fields["email" := b.email.value] else fields;
    Row(b.active, fields)
  }

  /** paged: the flag condition, AND (for a term that is not blank) the trimmed
      term searched in tin, name or email. */
  function PagedSpec(filter: EntityStatefulFilter): Specification {
    var search := filter.GetSearch();
    if search.Some? && !IsBlank(search.value) then
      var term := Some(Trim(search.value));
      And(WithActive(filter.GetActive()),
          Or(Or(WithSearch(term, "tin"), WithSearch(term, "name")), WithSearch(term, "email")))
    else
      WithActive(filter.GetActive())
  }

  /** A business is listed iff the flag matches and, for a term whose trimmed
      form is not blank, its name or email contains it. */
  lemma PagedSelects(filter: EntityStatefulFilter, b: Business)
    ensures var term := if filter.search.Some? then Trim(filter.search.value) else [];
            PagedSpec(filter)(BusinessRow(b)) <==>
              (filter.active == Some(TRUE) ==> b.active) &&
              (filter.active == Some(FALSE) ==> !b.active) &&
              (filter.search.Some? && !IsBlank(filter.search.value) && !IsBlank(term) ==>
                 Contains(LowerAscii(b.name), LowerAscii(term)) ||
                 (b.email.Some? && Contains(LowerAscii(b.email.value), LowerAscii(term))))
  {
    var row := BusinessRow(b);
    var active := filter.GetActive();
    var search := filter.GetSearch();
    var term := if search.Some? then Some(Trim(search.value)) else None;
    SelectsRow(active, term, "tin", row);
    SelectsRow(active, term, "name", row);
    SelectsRow(active, term, "email", row);
    assert "tin" !in row.fields;
    assert row.fields["name"] == b.name;
    assert b.email.Some? <==> "email" in row.fields;
    assert b.email.Some? ==> row.fields["email"] == b.email.value;
  }

  /** The email a new business stores: the request's, trimmed, or none. */
  function StoredEmail(dto: BusinessPostDTO): (e: Option<string>)
    ensures e.Some? <==> dto.email.Some?
    ensures e.Some? ==> e.value == Trim(dto.email.value)
    ensures e.Some? ==>
              |e.value| <= |dto.email.value| &&
              (e.value == [] || (!IsTrimmable(e.value[0]) && !IsTrimmable(e.value[|e.value| - 1])))
  {
    if dto.email.Some? then Some(Trim(dto.email.value)) else None
  }

  /** The business create saves: of the organization, active, with name and
      address trimmed, the stored email and the normalised phone. */
  predicate Built(dto: BusinessPostDTO, organization: Uuid, phone: Option<string>, b: Business) {
    b.organization == organization &&
    b.name == Trim(dto.name) &&
    b.phone == phone &&
    b.email == StoredEmail(dto) &&
    b.address == Trim(dto.address) &&
    b.active
  }

  class BusinessServiceImpl {
    var repository: map<Uuid, Business>

    constructor()
      ensures repository == map[]
    {
      repository := map[];
    }

    /** existsByOrganizationAndEmail; a null email matches the businesses
        stored without one. */
    predicate ExistsByOrganizationAndEmail(organization: Uuid, email: Option<string>)
      reads this
    {
      exists id :: id in repository && repository[id].organization == organization && repository[id].email == email
    }

    /** At most one business per organization and email; businesses stored
        without an email count as sharing the null email. */
    predicate EmailsDistinct()
      reads this
    {
      forall a, b ::
        (a in repository && b in repository && a != b &&
         repository[a].organization == repository[b].organization) ==> repository[a].email != repository[b].email
    }

    /** create. The phone is normalised first (only when present and not
        blank), so a phone error wins over a duplicate email; then the
        organization and the request's email AS GIVEN are looked up. A failing
        step saves nothing. On success one active business of the
        organization is added (see Built). The email rule is kept only when
        the request's email is already trimmed (see PaddedEmailScenario). */
    method Create(dto: BusinessPostDTO, organization: Uuid, id: Uuid, normalise: Normaliser)
      returns (r: Result<Business, BusinessError>)
      requires id !in repository
      modifies this
      ensures r.Failure? ==> repository == old(repository)
      ensures NormaliseOptional(dto.phone, normalise).Failure? ==>
                r == Failure(Phone(NormaliseOptional(dto.phone, normalise).error))
      ensures r.Success? <==>
                NormaliseOptional(dto.phone, normalise).Success? &&
                !old(ExistsByOrganizationAndEmail(organization, dto.email))
      ensures r.Failure? && NormaliseOptional(dto.phone, normalise).Success? ==> r == Failure(AlreadyExistsByEmail)
      ensures r.Success? ==>
                Built(dto, organization, NormaliseOptional(dto.phone, normalise).value, r.value) &&
                repository == old(repository)[id := r.value]
      ensures old(EmailsDistinct()) && StoredEmail(dto) == dto.email ==> EmailsDistinct()
    {
      var phone := NormaliseOptional(dto.phone, normalise);
      if phone.Failure? {
        return Failure(Phone(phone.error));
      }
      if ExistsByOrganizationAndEmail(organization, dto.email) {
        return Failure(AlreadyExistsByEmail);
      }
      var business := Business(organization, Trim(dto.name), phone.value, StoredEmail(dto), Trim(dto.address), true);
      repository := repository[id := business];
      r := Success(business);
    }

    /** create with the duplicate check on the email as it will be stored.
        Everything else is as in Create, and the email rule always holds. */
    method CreateCheckingStoredEmail(dto: BusinessPostDTO, organization: Uuid, id: Uuid, normalise: Normaliser)
      returns (r: Result<Business, BusinessError>)
      requires id !in repository
      modifies this
      ensures r.Failure? ==> repository == old(repository)
      ensures NormaliseOptional(dto.phone, normalise).Failure? ==>
                r == Failure(Phone(NormaliseOptional(dto.phone, normalise).error))
      ensures r.Success? <==>
                NormaliseOptional(dto.phone, normalise).Success? &&
                !old(ExistsByOrganizationAndEmail(organization, StoredEmail(dto)))
      ensures r.Failure? && NormaliseOptional(dto.phone, normalise).Success? ==> r == Failure(AlreadyExistsByEmail)
      ensures r.Success? ==>
                Built(dto, organization, NormaliseOptional(dto.phone, normalise).value, r.value) &&
                repository == old(repository)[id := r.value]
      ensures old(EmailsDistinct()) ==> EmailsDistinct()
    {
      var phone := NormaliseOptional(dto.phone, normalise);
      if phone.Failure? {
        return Failure(Phone(phone.error));
      }
      var email := StoredEmail(dto);
      if ExistsByOrganizationAndEmail(organization, email) {
        return Failure(AlreadyExistsByEmail);
      }
      var business := Business(organization, Trim(dto.name), phone.value, email, Trim(dto.address), true);
      repository := repository[id := business];
      r := Success(business);
    }

    /** toggleActiveStatus: flips the business's flag and nothing else. */
    method ToggleActiveStatus(id: Uuid) returns (r: Result<Business, BusinessError>)
      modifies this
      ensures id !in old(repository) ==> r == Failure(EntityNotFound) && repository == old(repository)
      ensures id in old(repository) ==>
                r == Success(old(repository[id]).(active := !old(repository[id]).active)) &&
                repository == old(repository)[id := r.value]
    {
      if id !in repository {
        return Failure(EntityNotFound);
      }
      var business := repository[id];
      var toggled := business.(active := !business.active);
      repository := repository[id := toggled];
      r := Success(toggled);
    }
  }

  /** The emails of the padded-email scenario, as trim leaves them. */
  lemma PaddedEmailTrims()
    ensures Trim("e") == "e" && Trim(" e") == "e"
  {
    TrimOfTrimmed("e");
    assert TrimStart(" e") == 1;
    assert TrimEnd(" e", 1) == 2;
    assert " e"[1..2] == "e";
  }

  /** A store holding one business of organization 7 with the email "e",
      created through the service; the request has no phone, so the
      normaliser is never consulted. */
  method StoreWithEmail(normalise: Normaliser) returns (service: BusinessServiceImpl)
    ensures fresh(service)
    ensures service.repository == map[0 := Business(7, "", None, Some("e"), "", true)]
  {
    var request := BusinessPostDTO("", None, Some("e"), "");
    assert StoredEmail(request) == Some("e") by { PaddedEmailTrims(); }
    assert Trim("") == "" by { TrimOfTrimmed(""); }
    assert NormaliseOptional(None, normalise) == Success(None);
    service := new BusinessServiceImpl();
    assert !service.ExistsByOrganizationAndEmail(7, Some("e"));
    var first := service.Create(request, 7, 0, normalise);
    assert first.Success?;
  }

  /** The duplicate check compares the request's untrimmed email while the
      store holds trimmed ones: a copy of a stored email padded with a
      leading space gets past the check, and the organization then holds the
      same email twice, whatever the normaliser. */
  method PaddedEmailScenario(normalise: Normaliser) returns (service: BusinessServiceImpl, r: Result<Business, BusinessError>)
    ensures r.Success? && r.value.email == Some("e")
    ensures service.repository == map[0 := Business(7, "", None, Some("e"), "", true), 1 := r.value]
    ensures !service.EmailsDistinct()
  {
    service := StoreWithEmail(normalise);
    var padded := BusinessPostDTO("", None, Some(" e"), "");
    assert StoredEmail(padded) == Some("e") by { PaddedEmailTrims(); }
    assert NormaliseOptional(None, normalise) == Success(None);
    assert !service.ExistsByOrganizationAndEmail(7, Some(" e")) by {
      assert service.repository[0].email == Some("e") != Some(" e");
    }
    r := service.Create(padded, 7, 1, normalise);
    assert service.repository[0].organization == service.repository[1].organization;
    assert service.repository[0].email == service.repository[1].email;
  }

  /** The corrected create rejects the padded copy of a stored email. */
  method PaddedEmailRejected(normalise: Normaliser) returns (r: Result<Business, BusinessError>)
    ensures r == Failure(AlreadyExistsByEmail)
  {
    var service := StoreWithEmail(normalise);
    var padded := BusinessPostDTO("", None, Some(" e"), "");
    assert StoredEmail(padded) == Some("e") by { PaddedEmailTrims(); }
    assert NormaliseOptional(None, normalise) == Success(None);
    assert service.ExistsByOrganizationAndEmail(7, StoredEmail(padded)) by {
      assert service.repository[0].email == StoredEmail(padded);
    }
    r := service.CreateCheckingStoredEmail(padded, 7, 1, normalise);
  }
}
