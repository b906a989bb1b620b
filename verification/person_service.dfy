/** Persons: creation with a duplicate check on the trimmed identification
    number and validation of that number, find-or-create, the active toggle
    and the listing filter. */
module PersonService {
  import opened Common
  import opened StringUtils
  import opened IdCardUtils
  import opened SharedDomain
  import opened SpecificationUtils

  datatype Language = ES

  datatype Person = Person(
    firstName: string,
    secondName: Option<string>,
    surname: string,
    secondSurname: Option<string>,
    identificationType: IdentificationType,
    identificationNumber: string,
    language: Language,
    active: bool)

  /** The request: second name and second surname may be null. */
  datatype PersonPostDTO = PersonPostDTO(
    firstName: string,
    secondName: Option<string>,
    surname: string,
    secondSurname: Option<string>,
    identificationType: IdentificationType,
    identificationNumber: string)

  datatype PersonError =
    | AlreadyExistsByIdentification    // error.person.already_exists_by_identification
    | NonUniqueResult                  // the single-result lookup found several persons
    | InvalidIdentification(error: IdCardError)
    | EntityNotFound

  /** A nullable field trimmed when present. */
  function TrimPresent(s: Option<string>): (r: Option<string>)
    ensures r.None? <==> s.None?
    ensures r.Some? ==> r.value == Trim(s.value)
  {
    if s.None? then None else Some(Trim(s.value))
  }

  // ---------------------------------------------------------------------------
  // Store queries

  /** findByIdentificationTypeAndIdentificationNumber, as the set of matches. */
  function Matches(store: map<Uuid, Person>, idType: IdentificationType, number: string): set<Uuid> {
    set id | id in store && store[id].identificationType == idType && store[id].identificationNumber == number
  }

  /** No two persons share a type and number. */
  predicate IdentificationsDistinct(store: map<Uuid, Person>) {
    forall a, b ::
      (a in store && b in store && a != b && store[a].identificationType == store[b].identificationType) ==>
        store[a].identificationNumber != store[b].identificationNumber
  }

  /** What create promises, from the store before to the store after:
      a person with the same type and trimmed number stops it (several such
      persons make the lookup itself fail); then the trimmed number must pass
      the validator for its type; then one active person is added, with the
      names trimmed, the optional names trimmed when present, language ES and
      the trimmed number. A failure leaves the store as it was. */
  ghost predicate CreatedAs(before: map<Uuid, Person>, after: map<Uuid, Person>, dto: PersonPostDTO, id: Uuid,
                            r: Result<Person, PersonError>) {
    var number := Trim(dto.identificationNumber);
    var found := Matches(before, dto.identificationType, number);
    var validation := Validate(Some(number), dto.identificationType);
    (r.Failure? ==> after == before) &&
    (|found| == 1 ==> r == Failure(AlreadyExistsByIdentification)) &&
    (|found| > 1 ==> r == Failure(NonUniqueResult)) &&
    (found == {} && validation.Fail? ==> r == Failure(InvalidIdentification(validation.error))) &&
    (found == {} && validation == Pass ==>
       r.Success? && after == before[id := r.value] &&
       r.value.firstName == Trim(dto.firstName) &&
       r.value.secondName == TrimPresent(dto.secondName) &&
       r.value.surname == Trim(dto.surname) &&
       r.value.secondSurname == TrimPresent(dto.secondSurname) &&
       r.value.identificationType == dto.identificationType &&
       r.value.identificationNumber == number &&
       r.value.language == ES && r.value.active)
  }

  /** Create keeps identifications distinct: it only adds a person whose type
      and number no stored person has. */
  lemma CreateKeepsIdentificationsDistinct(before: map<Uuid, Person>, after: map<Uuid, Person>,
                                           dto: PersonPostDTO, id: Uuid, r: Result<Person, PersonError>)
    requires id !in before
    requires CreatedAs(before, after, dto, id, r)
    requires IdentificationsDistinct(before)
    ensures IdentificationsDistinct(after)
  {
    if r.Success? {
      var number := Trim(dto.identificationNumber);
      var found := Matches(before, dto.identificationType, number);
      assert found == {};
      forall a | a in before && before[a].identificationType == dto.identificationType
        ensures before[a].identificationNumber != number
      {
        assert a !in found;
      }
    }
  }

  // ---------------------------------------------------------------------------
  // The listing filter

  /** The attributes a person search names; a null name is absent. */
  function PersonRow(p: Person): Row {
    var fields := map["identificationNumber" := p.identificationNumber, "firstName" := p.firstName,
                      "surname" := p.surname];
    var fields := if p.secondName.Some? then fields["secondName" := p.secondName.value] else fields;
    var fields := if p.secondSurname.Some? then fields["secondSurname" := p.secondSurname.value] else fields;
    Row(p.active, fields)
  }

  /** paged: the flag condition, AND (for a term that is not blank) the trimmed
      term searched in any of the five identification and name fields. */
  function PagedSpec(filter: EntityStatefulFilter): Specification {
    var search := filter.GetSearch();
    if search.Some? && !IsBlank(search.value) then
      var term := Some(Trim(search.value));
      And(WithActive(filter.GetActive()),
          Or(Or(Or(Or(WithSearch(term, "identificationNumber"), WithSearch(term, "firstName")),
                   WithSearch(term, "secondName")),
                WithSearch(term, "surname")),
             WithSearch(term, "secondSurname")))
    else
      WithActive(filter.GetActive())
  }

  /** Some present name field of `p` contains `term`, ignoring case. */
  predicate AnyFieldContains(p: Person, term: string) {
    Contains(LowerAscii(p.identificationNumber), LowerAscii(term)) ||
    Contains(LowerAscii(p.firstName), LowerAscii(term)) ||
    (p.secondName.Some? && Contains(LowerAscii(p.secondName.value), LowerAscii(term))) ||
    Contains(LowerAscii(p.surname), LowerAscii(term)) ||
    (p.secondSurname.Some? && Contains(LowerAscii(p.secondSurname.value), LowerAscii(term)))
  }

  /** A person is listed iff the flag matches and, for a term whose trimmed
      form is not blank, one of the five fields contains it. A blank term adds
      no condition. */
  lemma PagedSelects(filter: EntityStatefulFilter, p: Person)
    ensures var term := if filter.search.Some? then Trim(filter.search.value) else [];
            PagedSpec(filter)(PersonRow(p)) <==>
              (filter.active == Some(TRUE) ==> p.active) &&
              (filter.active == Some(FALSE) ==> !p.active) &&
              (filter.search.Some? && !IsBlank(filter.search.value) && !IsBlank(term) ==>
                 AnyFieldContains(p, term))
  {
    var row := PersonRow(p);
    var active := filter.GetActive();
    SelectsRow(active, None, "firstName", row);
    if filter.search.Some? && !IsBlank(filter.search.value) {
      var t := Trim(filter.search.value);
      var term := Some(t);
      SelectsRow(active, term, "identificationNumber", row);
      SelectsRow(active, term, "firstName", row);
      SelectsRow(active, term, "secondName", row);
      SelectsRow(active, term, "surname", row);
      SelectsRow(active, term, "secondSurname", row);
      PersonFieldsContain(p, t);
    }
  }

  /** The five searched attributes of a person's row against AnyFieldContains. */
  lemma PersonFieldsContain(p: Person, t: string)
    ensures var row := PersonRow(p);
            FieldContains(row, "identificationNumber", t) || FieldContains(row, "firstName", t) ||
            FieldContains(row, "secondName", t) || FieldContains(row, "surname", t) ||
            FieldContains(row, "secondSurname", t)
            <==> AnyFieldContains(p, t)
  {
    var row := PersonRow(p);
    assert row.fields["identificationNumber"] == p.identificationNumber;
    assert row.fields["firstName"] == p.firstName && row.fields["surname"] == p.surname;
    assert p.secondName.Some? <==> "secondName" in row.fields;
    assert p.secondName.Some? ==> row.fields["secondName"] == p.secondName.value;
    assert p.secondSurname.Some? <==> "secondSurname" in row.fields;
    assert p.secondSurname.Some? ==> row.fields["secondSurname"] == p.secondSurname.value;
  }

  // ---------------------------------------------------------------------------
  // The service

  class PersonServiceImpl {
    var repository: map<Uuid, Person>

    constructor()
      ensures repository == map[]
    {
      repository := map[];
    }

    /** findByIdentificationTypeAndIdentificationNumber: empty, the one match,
        or a failure when the store holds several. */
    method FindByIdentification(idType: IdentificationType, number: string)
      returns (r: Result<Option<Uuid>, PersonError>)
      ensures Matches(repository, idType, number) == {} <==> r == Success(None)
      ensures |Matches(repository, idType, number)| > 1 <==> r == Failure(NonUniqueResult)
      ensures r.Failure? ==> r == Failure(NonUniqueResult)
      ensures r.Success? && r.value.Some? ==> Matches(repository, idType, number) == {r.value.value}
    {
      var found := Matches(repository, idType, number);
      if found == {} {
        return Success(None);
      }
      if |found| > 1 {
        return Failure(NonUniqueResult);
      }
      var id :| id in found;
      assert found == {id} by {
        forall other | other in found ensures other == id {
          if other != id {
            SingletonOrMore(found, id, other);
          }
        }
      }
      r := Success(Some(id));
    }

    /** create. */
    method Create(dto: PersonPostDTO, id: Uuid) returns (r: Result<Person, PersonError>)
      requires id !in repository
      modifies this
      ensures CreatedAs(old(repository), repository, dto, id, r)
    {
      var number := Trim(dto.identificationNumber);
      var existing := FindByIdentification(dto.identificationType, number);
      if existing.Failure? {
        return Failure(existing.error);
      }
      if existing.value.Some? {
        return Failure(AlreadyExistsByIdentification);
      }
      var validation := Validate(Some(number), dto.identificationType);
      if validation.Fail? {
        return Failure(InvalidIdentification(validation.error));
      }
      var person := Person(Trim(dto.firstName), TrimPresent(dto.secondName), Trim(dto.surname),
                           TrimPresent(dto.secondSurname), dto.identificationType, number, ES, true);
      repository := repository[id := person];
      r := Success(person);
    }

    /** findOrCreate: looks the person up with the number AS GIVEN; a match is
        returned without writing, otherwise create runs (and trims). */
    method FindOrCreate(dto: PersonPostDTO, id: Uuid) returns (r: Result<Person, PersonError>)
      requires id !in repository
      modifies this
      ensures var found := old(Matches(repository, dto.identificationType, dto.identificationNumber));
              (|found| > 1 ==> r == Failure(NonUniqueResult) && repository == old(repository)) &&
              (|found| == 1 ==> repository == old(repository) &&
                                exists k :: k in found && r == Success(old(repository)[k])) &&
              (found == {} ==> CreatedAs(old(repository), repository, dto, id, r))
    {
      var existing := FindByIdentification(dto.identificationType, dto.identificationNumber);
      if existing.Failure? {
        return Failure(existing.error);
      }
      if existing.value.Some? {
        return Success(repository[existing.value.value]);
      }
      r := Create(dto, id);
    }

    /** findOrCreate looking up the trimmed number, the number create stores:
        an existing person is found whatever padding the request carries, so
        this never fails with the already-exists error. */
    method FindOrCreateByTrimmedNumber(dto: PersonPostDTO, id: Uuid) returns (r: Result<Person, PersonError>)
      requires id !in repository
      modifies this
      ensures var found := old(Matches(repository, dto.identificationType, Trim(dto.identificationNumber)));
              (|found| > 1 ==> r == Failure(NonUniqueResult) && repository == old(repository)) &&
              (|found| == 1 ==> repository == old(repository) &&
                                exists k :: k in found && r == Success(old(repository)[k])) &&
              (found == {} ==> CreatedAs(old(repository), repository, dto, id, r))
      ensures r != Failure(AlreadyExistsByIdentification)
    {
      var existing := FindByIdentification(dto.identificationType, Trim(dto.identificationNumber));
      if existing.Failure? {
        return Failure(existing.error);
      }
      if existing.value.Some? {
        return Success(repository[existing.value.value]);
      }
      r := Create(dto, id);
    }

    /** toggleActiveStatus: flips the person's flag and nothing else. */
    method ToggleActiveStatus(id: Uuid) returns (r: Result<Person, PersonError>)
      modifies this
      ensures id !in old(repository) ==> r == Failure(EntityNotFound) && repository == old(repository)
      ensures id in old(repository) ==>
                r == Success(old(repository[id]).(active := !old(repository[id]).active)) &&
                repository == old(repository)[id := r.value]
      ensures old(IdentificationsDistinct(repository)) ==> IdentificationsDistinct(repository)
    {
      if id !in repository {
        return Failure(EntityNotFound);
      }
      var person := repository[id];
      var toggled := person.(active := !person.active);
      repository := repository[id := toggled];
      r := Success(toggled);
    }
  }

  /** The padded number of PaddedNumberScenario, as trim leaves it. */
  lemma PaddedNumberTrims()
    ensures Trim(" 7") == "7"
  {
    assert TrimStart(" 7") == 1;
    assert TrimEnd(" 7", 1) == 2;
    assert " 7"[1..2] == "7";
  }

  /** A request whose number carries a leading space, for a person already
      stored under the bare number: findOrCreate misses the stored person,
      and create then rejects the request as a duplicate. Looking up the
      trimmed number returns the stored person. */
  method PaddedNumberScenario() returns (asWritten: Result<Person, PersonError>, corrected: Result<Person, PersonError>)
    ensures asWritten == Failure(AlreadyExistsByIdentification)
    ensures corrected.Success? && corrected.value.identificationNumber == "7"
  {
    PaddedNumberTrims();
    var stored := Person("Ana", None, "Paz", None, Passport, "7", ES, true);
    var dto := PersonPostDTO("Ana", None, "Paz", None, Passport, " 7");
    var service := new PersonServiceImpl();
    service.repository := map[0 := stored];
    assert Matches(service.repository, Passport, " 7") == {};
    assert 0 in Matches(service.repository, Passport, "7");
    asWritten := service.FindOrCreate(dto, 1);

    var fixed := new PersonServiceImpl();
    fixed.repository := map[0 := stored];
    assert Matches(fixed.repository, Passport, "7") == {0};
    corrected := fixed.FindOrCreateByTrimmedNumber(dto, 1);
  }
}
