/** Branches of a business: creation with code checks, phone normalisation,
    the duplicate-code check and the one-main-branch rule; the active toggle;
    the listing filter. */
module BranchService {
  import opened Common
  import opened StringUtils
  import opened PhoneUtils
  import opened SharedDomain
  import opened SpecificationUtils

  datatype Branch = Branch(
    code: string,
    name: string,
    phone: Option<string>,
    email: Option<string>,
    address: Option<string>,
    isMain: bool,
    business: Uuid,
    active: bool)

  /** The request: code and name are required, the rest may be null. */
  datatype BranchPostDTO = BranchPostDTO(
    code: string,
    name: string,
    email: Option<string>,
    phone: Option<string>,
    address: Option<string>,
    isMain: Option<bool>)

  datatype BranchError =
    | CodeInvalidLength       // error.branch.code_invalid_length
    | CodeInvalidFormat       // error.branch.code_invalid_format
    | Phone(error: PhoneError)
    | DuplicateCode           // error.branch.duplicate_code
    | NonUniqueMainBranch     // the single-result lookup of the main branch found several
    | EntityNotFound

  predicate IsAsciiDigit(c: char) { '0' <= c <= '9' }

  /** The code checks: a length of three UTF-16 units first, then
      `^(?!000)\d{3}$`, that is three ASCII digits other than 000. A code of
      three units holding a character above U+FFFF has fewer than three
      characters, so it fails the second check. */
  function CheckCode(code: string): (r: Outcome<BranchError>)
    ensures r == Pass <==> |code| == 3 && (forall i :: 0 <= i < 3 ==> IsAsciiDigit(code[i])) && code != "000"
    ensures r == Fail(CodeInvalidLength) <==> Utf16Length(code) != 3
    ensures r == Fail(CodeInvalidFormat) <==>
              Utf16Length(code) == 3 &&
              (|code| != 3 || code == "000" || exists i :: 0 <= i < 3 && !IsAsciiDigit(code[i]))
  {
    if Utf16Length(code) != 3 then Fail(CodeInvalidLength)
    else if |code| != 3 || !(IsAsciiDigit(code[0]) && IsAsciiDigit(code[1]) && IsAsciiDigit(code[2])) || code == "000" then
      Fail(CodeInvalidFormat)
    else Pass
  }

  lemma CheckCodeExamples()
    ensures CheckCode("001") == Pass && CheckCode("999") == Pass
    ensures CheckCode("000") == Fail(CodeInvalidFormat) && CheckCode("0A1") == Fail(CodeInvalidFormat)
    ensures CheckCode("01") == Fail(CodeInvalidLength) && CheckCode("0001") == Fail(CodeInvalidLength)
    ensures CheckCode("100") == Pass && CheckCode("ABC") == Fail(CodeInvalidFormat) && CheckCode("9876") == Fail(CodeInvalidLength)
  {
    assert !IsAsciiDigit("0A1"[1]);
    assert !IsAsciiDigit("ABC"[0]);
  }

  /** "1" followed by U+1F600 is three UTF-16 units long: it passes the length
      check and fails the format check. */
  lemma SupplementaryCharCode(code: string)
    requires code == "1" + [0x1F600 as char]
    ensures Utf16Length(code) == 3
    ensures CheckCode(code) == Fail(CodeInvalidFormat)
  {
    assert code[1..] == [0x1F600 as char];
    assert Utf16Length(code[1..]) == 2 by {
      assert code[1..][1..] == [];
    }
  }

  /** The attributes a branch search names. The source also names "tin",
      which a branch does not have, so that disjunct never matches here. */
  function BranchRow(b: Branch): Row {
    var fields := map["code" := b.code, "name" := b.name];
    var fields := if b.email.Some? then fields["email" := b.email.value] else fields;
    Row(b.active, fields)
  }

  /** paged: the flag condition, AND (for a term that is not blank) the trimmed
      term searched in tin, name or email. */
  function PagedSpec(filter: EntityStatefulFilter): Specification {
    var search := filter.GetSearch();
    if search.Some? && !IsBlank(search.value) then
      var term := Some(Trim(search.value));
      And(WithActive(filter.GetActive()),
          Or(Or(WithSearch(term, "tin"), WithSearch(term, "name")), WithSearch(term, "email")))
    else
      WithActive(filter.GetActive())
  }

  /** A branch is listed iff its flag matches and, for a term that trims to
      something not blank, its name or email contains the trimmed term. */
  lemma PagedSelects(filter: EntityStatefulFilter, b: Branch)
    ensures var term := if filter.search.Some? then Trim(filter.search.value) else [];
            PagedSpec(filter)(BranchRow(b)) <==>
              (filter.active == Some(TRUE) ==> b.active) &&
              (filter.active == Some(FALSE) ==> !b.active) &&
              (filter.search.Some? && !IsBlank(filter.search.value) && !IsBlank(term) ==>
                 Contains(LowerAscii(b.name), LowerAscii(term)) ||
                 (b.email.Some? && Contains(LowerAscii(b.email.value), LowerAscii(term))))
  {
    var row := BranchRow(b);
    var active := filter.GetActive();
    var search := filter.GetSearch();
    var term := if search.Some? then Some(Trim(search.value)) else None;
    SelectsRow(active, term, "tin", row);
    SelectsRow(active, term, "name", row);
    SelectsRow(active, term, "email", row);
    assert "tin" !in row.fields;
    assert "name" in row.fields && row.fields["name"] == b.name;
    assert b.email.Some? ==> "email" in row.fields && row.fields["email"] == b.email.value;
    assert b.email.None? ==> "email" !in row.fields;
  }

  /** A stored branch after a main branch of `business` is created: every branch
      of that business stops being main, and no other field changes. */
  function Demoted(b: Branch, business: Uuid): (d: Branch)
    ensures d.isMain <==> b.isMain && b.business != business
    ensures d == b.(isMain := d.isMain)
    ensures !b.isMain ==> d == b
  {
    if b.business == business then b.(isMain := false) else b
  }

  class BranchServiceImpl {
    var repository: map<Uuid, Branch>

    constructor()
      ensures repository == map[]
    {
      repository := map[];
    }

    /** existsByBusinessAndCode. */
    predicate ExistsByBusinessAndCode(business: Uuid, code: string)
      reads this
    {
      exists id :: id in repository && repository[id].business == business && repository[id].code == code
    }

    /** The main branches of a business (findByBusinessAndIsMainIsTrue expects at most one). */
    function MainBranches(business: Uuid): set<Uuid>
      reads this
    {
      set id | id in repository && repository[id].business == business && repository[id].isMain
    }

    /** The rule create maintains: a business has at most one main branch. */
    predicate AtMostOneMainPerBusiness()
      reads this
    {
      forall a, b ::
        (a in repository && b in repository && repository[a].isMain && repository[b].isMain &&
         repository[a].business == repository[b].business) ==> a == b
    }

    /** create. The checks run in the source's order and a failing one saves
        nothing: code length, code format, phone, duplicate code, and (for a
        main branch) the lookup of the current main branch. A main branch
        demotes the business's current main branch; the new branch is active
        and carries the request's fields, with the phone normalised. */
    method Create(dto: BranchPostDTO, business: Uuid, id: Uuid, normalise: Normaliser)
      returns (r: Result<Branch, BranchError>)
      requires id !in repository
      modifies this
      ensures CheckCode(dto.code).Fail? ==> r == Failure(CheckCode(dto.code).error)
      ensures CheckCode(dto.code) == Pass && NormaliseOptional(dto.phone, normalise).Failure? ==>
                r == Failure(Phone(NormaliseOptional(dto.phone, normalise).error))
      ensures (CheckCode(dto.code) == Pass && NormaliseOptional(dto.phone, normalise).Success? &&
               old(ExistsByBusinessAndCode(business, dto.code))) ==> r == Failure(DuplicateCode)
      ensures r.Failure? ==> repository == old(repository)
      ensures r == Failure(NonUniqueMainBranch) ==> dto.isMain == Some(true) && |old(MainBranches(business))| > 1
      ensures r.Success? <==>
                CheckCode(dto.code) == Pass && NormaliseOptional(dto.phone, normalise).Success? &&
                !old(ExistsByBusinessAndCode(business, dto.code)) &&
                (dto.isMain == Some(true) ==> |old(MainBranches(business))| <= 1)
      ensures r.Success? ==>
                r.value == Branch(dto.code, dto.name, NormaliseOptional(dto.phone, normalise).value,
                                  dto.email, dto.address, dto.isMain == Some(true), business, true)
      ensures r.Success? ==> id in repository && repository[id] == r.value
      ensures r.Success? ==> repository.Keys == old(repository).Keys + {id}
      ensures r.Success? ==> forall k :: k in old(repository) ==>
                repository[k] == (if r.value.isMain then Demoted(old(repository)[k], business) else old(repository)[k])
      ensures old(AtMostOneMainPerBusiness()) ==> AtMostOneMainPerBusiness()
    {
      var check := CheckCode(dto.code);
      if check.Fail? {
        return Failure(check.error);
      }
      var phone := NormaliseOptional(dto.phone, normalise);
      if phone.Failure? {
        return Failure(Phone(phone.error));
      }
      if ExistsByBusinessAndCode(business, dto.code) {
        return Failure(DuplicateCode);
      }
      var isMain := dto.isMain == Some(true);
      ghost var before := repository;
      ghost var mainsBefore := MainBranches(business);
      if isMain {
        var mains := MainBranches(business);
        if |mains| > 1 {
          return Failure(NonUniqueMainBranch);
        }
        if mains != {} {
          var existing :| existing in mains;
          assert mains == {existing} by {
            forall other | other in mains ensures other == existing {
              if other != existing {
                SingletonOrMore(mains, existing, other);
              }
            }
          }
          repository := repository[existing := repository[existing].(isMain := false)];
        }
      }
      var branch := Branch(dto.code, dto.name, phone.value, dto.email, dto.address, isMain, business, true);
      repository := repository[id := branch];
      r := Success(branch);
      if isMain {
        forall k | k in before ensures repository[k] == Demoted(before[k], business) {
          if before[k].business == business {
            assert before[k].isMain <==> k in mainsBefore;
          }
        }
      }
    }

    /** toggleActiveStatus: flips the branch's flag and nothing else. */
    method ToggleActiveStatus(id: Uuid) returns (r: Result<Branch, BranchError>)
      modifies this
      ensures id !in old(repository) ==> r == Failure(EntityNotFound) && repository == old(repository)
      ensures id in old(repository) ==>
                r == Success(old(repository[id]).(active := !old(repository[id]).active)) &&
                repository == old(repository)[id := r.value]
      ensures old(AtMostOneMainPerBusiness()) ==> AtMostOneMainPerBusiness()
    {
      if id !in repository {
        return Failure(EntityNotFound);
      }
      var branch := repository[id];
      var toggled := branch.(active := !branch.active);
      repository := repository[id := toggled];
      r := Success(toggled);
    }
  }
}
