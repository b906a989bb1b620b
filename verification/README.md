# stockflow core, modelled in Dafny

stockflow is a multi-tenant business registry: tenants, organizations,
businesses, branches and people, served by a Spring CRUD backend. This project
models the parts of it that make decisions, and proves what they promise:

- **Identification numbers** (`IdCardUtils`). It validates the Ecuadorian cédula
  (10 digits) and RUC (13 digits): a guard chain, then range checks, then a
  weighted modulo-10 check digit. The check-digit accumulator is a loop proved
  against a recursive weighted sum.
- **String helpers** (`StringUtils`, `SlugUtils`). These cover the
  trim/null family and the slug pipeline.
  - Java's `trim` (strips characters up to U+0020) and `isBlank`
    (`Character.isWhitespace`) are two separate character predicates.
- **Query filters** (`SharedDomain`, `SpecificationUtils`). These cover the
  tri-state active flag, the filter's defaulting getter, and the `withActive` /
  `withSearch` predicates over a row.
  - A row is an active flag plus a map from attribute name to string.
- **Tenant context and stamping hook** (`Config`, `TenantListener`).
  - The per-thread context holder is one `ContextHolder` object whose slot
    holds an `ApplicationContext` object.
  - The pre-write hook stamps a tenant-scoped entity (a `StatefulEntity`
    object) with the bound tenant, or fails.
- **Services over an in-memory store** (`TenantService`, `BranchService`,
  `PersonService`, `OrganizationService`, `BusinessService`).
  - Each service is a class whose `repository` field is a map from id to entity.
  - Repository derived queries are predicates over that map.
  - The phone normaliser of `PhoneUtils` is a function parameter with no
    interpretation: only its null/blank guard is modelled.

Java `null` becomes `Option`. A thrown exception becomes a `Failure` or `Fail`
value with one constructor per message key, and a failing call leaves the store
as it was. The id a save generates is a parameter that is not yet in the store.

Three behaviours of the code that the model keeps:
- `validate` accepts any input, null and empty included, for PASSPORT,
  FINAL_CONSUMER and FOREIGN_IDENTIFICATION.
- The stamping hook overwrites a tenant already on the entity, on update as well
  as on persist. `PersistThenUpdate` and `RestampOverwrites` state this.
- The weighted sum of "171003406" is 25, which gives the check digit 5.

## Model

Source paths are relative to the repository root.

| member | source | states |
|---|---|---|
| IdCardUtils.InitialValidation | src/main/java/com/stockflow/core/util/IdCardUtils.java:74-88 | accepts exactly a present, non-empty, all-digit string of the expected length; otherwise reports null, then empty, then non-digit, then wrong length, each case stated as an if-and-only-if |
| IdCardUtils.VerifyProvinceCode | src/main/java/com/stockflow/core/util/IdCardUtils.java:95-99 | passes iff the province code is in 0..24, else InvalidProvinceCode |
| IdCardUtils.VerifyThirdDigit | src/main/java/com/stockflow/core/util/IdCardUtils.java:107-122 | for an ID card passes iff the digit is in 0..5; for a RUC iff it is in 0..6 or is 9; any other type gives UnexpectedType |
| IdCardUtils.VerifyEstablishmentNumber | src/main/java/com/stockflow/core/util/IdCardUtils.java:129-133 | passes iff the establishment number is positive |
| IdCardUtils.ReducedTerm | src/main/java/com/stockflow/core/util/IdCardUtils.java:146-149 | a digit times its coefficient, digit-summed when two digits long, lies in 0..9 |
| IdCardUtils.PrefixSum | src/main/java/com/stockflow/core/util/IdCardUtils.java:143-151 | the sum of the first n reduced terms, added left to right as the loop does, lies in 0..9n |
| IdCardUtils.WeightedSum | src/main/java/com/stockflow/core/util/IdCardUtils.java:145-151 | the reduced sum of n digits lies in 0..9n (at most 81 for nine digits) |
| IdCardUtils.ExpectedCheckDigit | src/main/java/com/stockflow/core/util/IdCardUtils.java:153 | the expected check digit lies in 0..9 and completes the weighted sum to a multiple of ten |
| IdCardUtils.CompletingDigitIsUnique | src/main/java/com/stockflow/core/util/IdCardUtils.java:153 | a digit completes a total to a multiple of ten iff it is the source's `total % 10 == 0 ? 0 : 10 - total % 10` |
| IdCardUtils.CompletingDigitsAgree | src/main/java/com/stockflow/core/util/IdCardUtils.java:153-155 | when a digit e completes a total to a multiple of ten, any digit does so iff it equals e |
| IdCardUtils.CheckDigitIsUnique | src/main/java/com/stockflow/core/util/IdCardUtils.java:141-158 | exactly one digit completes the weighted sum, and it is the expected check digit |
| IdCardUtils.VerifyAlgorithmMod10 | src/main/java/com/stockflow/core/util/IdCardUtils.java:141-158 | the accumulator loop keeps `total` equal to the sum of the reduced terms of the digits read; it passes iff the check digit equals the expected one, else InvalidCheckDigit |
| IdCardUtils.ValidateNationalIdentification | src/main/java/com/stockflow/core/util/IdCardUtils.java:38-44 | passes iff the number is a valid cédula (10 digits, province 0..24, third digit 0..5, matching check digit); a guard failure is reported as is; the province is checked before the third digit; a number that passes the guard, province and third-digit checks but whose tenth digit differs from the expected check digit gives InvalidCheckDigit; every other failure is one of the three range or check errors |
| IdCardUtils.ValidateRuc | src/main/java/com/stockflow/core/util/IdCardUtils.java:51-66 | passes iff the number is a valid RUC; reports the first failing check in the order guard, province, third digit, establishment, check digit; in particular, with the guard passed, province 0..24, third digit 0..5, a positive establishment number and a tenth digit other than the expected check digit, it gives InvalidCheckDigit; a check-digit failure only happens when the third digit is neither 6 nor 9 |
| IdCardUtils.Validate | src/main/java/com/stockflow/core/util/IdCardUtils.java:16-31 | ID_CARD passes iff a valid cédula, RUC iff a valid RUC; the other three types always pass |
| IdCardUtils.WrongCheckDigitRejected | src/main/java/com/stockflow/core/util/IdCardUtils.java:38-44 | replacing the last digit of a valid cédula by any other digit gives InvalidCheckDigit |
| IdCardUtils.RucCheckDigitExempt | src/main/java/com/stockflow/core/util/IdCardUtils.java:63-65 | for a RUC whose third digit is 6 or 9, changing digit 9 never changes the outcome |
| IdCardUtils.CedulaExtendsToRuc | src/main/java/com/stockflow/core/util/IdCardUtils.java:51-66 | a valid cédula followed by "001" is a valid RUC |
| IdCardUtils.CheckDigitExample | src/test/java/com/stockflow/core/util/IdCardUtilsTest.java:83-86 | "171003406" has weighted sum 25 and check digit 5 |
| IdCardUtils.ValidationExamples | src/test/java/com/stockflow/core/util/IdCardUtilsTest.java:13-56 | the test suite's accepted and rejected cédulas and RUCs, the four guard errors, and a passport or final consumer accepted with any input |
| StringUtils.Trim | src/main/java/com/stockflow/core/util/StringUtils.java:20 | trim drops exactly the leading and trailing characters up to U+0020: the result is the middle slice, and it is empty iff every character is trimmable |
| StringUtils.TrimIdempotent | src/main/java/com/stockflow/core/util/StringUtils.java:20 | trimming twice is trimming once |
| StringUtils.TrimPadded | src/main/java/com/stockflow/core/util/SlugUtils.java:16 | a middle with no trimmable character at either end, padded on both sides with trimmable characters, trims to the middle |
| StringUtils.TrimToNull | src/main/java/com/stockflow/core/util/StringUtils.java:18-23 | null iff the input is null or trims to empty; otherwise the trimmed input, which is non-empty with no trimmable character at either end |
| StringUtils.TrimToNullIdempotent | src/main/java/com/stockflow/core/util/StringUtils.java:18-23 | trimToNull applied to its own result changes nothing |
| StringUtils.IsNullOrEmpty | src/main/java/com/stockflow/core/util/StringUtils.java:14-16 | holds iff trimToNull gives null |
| StringUtils.TrimToOptional | src/main/java/com/stockflow/core/util/StringUtils.java:25-27 | present iff not null-or-empty, and then holds the trimmed string |
| StringUtils.TrimToEmpty | src/main/java/com/stockflow/core/util/StringUtils.java:29-33 | never null: empty for null, the trimmed string otherwise, and agrees with trimToNull |
| StringUtils.AssertNotNullOrEmpty | src/main/java/com/stockflow/core/util/StringUtils.java:10-12 | fails, with the given message, exactly when the input is null or empty |
| StringUtils.BlankAndTrimDiffer | src/main/java/com/stockflow/core/util/StringUtils.java:20 | isBlank and trim disagree both ways: U+3000 is blank but not trimmed, U+0001 is trimmed but not blank |
| StringUtils.LowerAscii | src/main/java/com/stockflow/core/util/SlugUtils.java:18 | lowering keeps the length and lowers each character on its own |
| StringUtils.LowerAsciiAppend | src/main/java/com/stockflow/core/util/SlugUtils.java:18 | lowering a concatenation concatenates the lowered parts |
| StringUtils.LowerAsciiIdempotent | src/main/java/com/stockflow/core/shared/infrastructure/SpecificationUtils.java:29-30 | lowering twice is lowering once |
| StringUtils.LowerAsciiKeepsBlank | src/main/java/com/stockflow/core/shared/infrastructure/SpecificationUtils.java:26-29 | a string is blank iff its lowered form is |
| StringUtils.Utf16Length | src/main/java/com/stockflow/core/branch/application/BranchServiceImpl.java:32 | Java's `length` counts one or two UTF-16 units per character, so it lies between the character count and twice it, and equals the character count iff no character lies above U+FFFF |
| StringUtils.DecimalStringInjective | src/main/java/com/stockflow/core/tenant/application/TenantServiceImpl.java:101 | different counters render as different decimal strings |
| SlugUtils.RemoveDisallowed | src/main/java/com/stockflow/core/util/SlugUtils.java:15 | keeps only word characters, white space and hyphens; keeps a string made of those whole; removes a single character that is none of them |
| SlugUtils.RemoveDisallowedAppend | src/main/java/com/stockflow/core/util/SlugUtils.java:15 | the filter works character by character: filtering a concatenation concatenates the filtered parts, so with the clauses above every disallowed character is dropped and every allowed one kept, in order |
| SlugUtils.KeptUnfiltered | src/main/java/com/stockflow/core/util/SlugUtils.java:15 | a run of white space, or a word of word characters and hyphens, passes the filter unchanged |
| SlugUtils.CollapseSpaces | src/main/java/com/stockflow/core/util/SlugUtils.java:17 | the result holds no white space and is no longer than the input |
| SlugUtils.SkipRun | src/main/java/com/stockflow/core/util/SlugUtils.java:17 | `\s+` is greedy: a match takes the whole run of white space up to the next other character |
| SlugUtils.CollapseRun | src/main/java/com/stockflow/core/util/SlugUtils.java:17 | a text without white space, then a non-empty run of white space, then the rest: the run becomes one hyphen, the text before it is kept as is and the rest is collapsed in turn |
| SlugUtils.CollapseKeptSpaces | src/main/java/com/stockflow/core/util/SlugUtils.java:15-17 | after the filter, hyphenation leaves only word characters and hyphens |
| SlugUtils.CollapseWithoutSpaces | src/main/java/com/stockflow/core/util/SlugUtils.java:17 | a string without white space is left unchanged |
| SlugUtils.Hyphenate | src/main/java/com/stockflow/core/util/SlugUtils.java:15-17 | filter, trim and hyphenation leave only word characters and hyphens |
| SlugUtils.HyphenateWord | src/main/java/com/stockflow/core/util/SlugUtils.java:15-17 | a word of word characters and hyphens padded with white space on both sides becomes the word itself |
| SlugUtils.HyphenateWords | src/main/java/com/stockflow/core/util/SlugUtils.java:15-17 | a padded word, a run of white space and a kept rest become the word, one hyphen and the hyphenation of the rest |
| SlugUtils.ToSlug | src/main/java/com/stockflow/core/util/SlugUtils.java:8-19 | null iff the input is null; otherwise every character is in [a-z0-9_-] |
| SlugUtils.ToSlugWord | src/main/java/com/stockflow/core/util/SlugUtils.java:8-19 | a word padded with white space becomes the word in lower case |
| SlugUtils.ToSlugWords | src/main/java/com/stockflow/core/util/SlugUtils.java:8-19 | a padded word followed by white space and a rest becomes the lowered word, a hyphen and the slug of the rest |
| SlugUtils.ToSlugTwoWords | src/main/java/com/stockflow/core/util/SlugUtils.java:8-19 | two words separated by any run of white space, with any padding, become the two lowered words joined by one hyphen |
| SlugUtils.ToSlugTwoWordsExample | src/main/java/com/stockflow/core/util/SlugUtils.java:8-19 | " Ab \tC " becomes "ab-c" |
| SlugUtils.SlugHasNoSpaceOrCapital | src/main/java/com/stockflow/core/util/SlugUtils.java:16-18 | a slug holds no white space of either kind and no capital letter |
| SlugUtils.SlugCharsAreFixed | src/main/java/com/stockflow/core/util/SlugUtils.java:15-18 | a string of slug characters is its own slug |
| SlugUtils.ToSlugIdempotent | src/main/java/com/stockflow/core/util/SlugUtils.java:12-18 | toSlug applied to its own output changes nothing |
| SlugUtils.ToSlugAccentExample | src/main/java/com/stockflow/core/util/SlugUtils.java:14-15 | a decomposed "é!" becomes "e" |
| SlugUtils.SlugMayMissTenantPattern | src/main/java/com/stockflow/core/tenant/domain/Tenant.java:22 | "!!!" gives the empty slug and "a_b" keeps its underscore; neither matches the Tenant pattern ^[a-z0-9-]+$ |
| PhoneUtils.ToE164 | src/main/java/com/stockflow/core/util/PhoneUtils.java:23-39 | fails with NullOrEmpty for a null or blank input, which the normaliser never sees; otherwise returns what the normaliser returns |
| PhoneUtils.NormaliseOptional | src/main/java/com/stockflow/core/branch/application/BranchServiceImpl.java:40-43 | a null or blank phone is stored as null; any other phone is normalised, and its error propagates |
| PhoneUtils.AbsentPhone | src/main/java/com/stockflow/core/util/PhoneUtils.java:24-26 | no phone gives null when optional and NullOrEmpty when required, whatever the normaliser |
| SharedDomain.TriStateBoolean.IsBoolean | src/main/java/com/stockflow/core/shared/domain/TriStateBoolean.java:15-17 | holds iff isTrue or isFalse holds |
| SharedDomain.TriStateBoolean.IsBoth | src/main/java/com/stockflow/core/shared/domain/TriStateBoolean.java:19-21 | holds iff the value is not a boolean |
| SharedDomain.ExactlyOneQuery | src/main/java/com/stockflow/core/shared/domain/TriStateBoolean.java:5-21 | exactly one of isTrue, isFalse and isBoth holds for every value |
| SharedDomain.EntityStatefulFilter.GetActive | src/main/java/com/stockflow/core/shared/domain/EntityStatefulFilter.java:14-16 | BOTH when no flag was supplied, the supplied flag otherwise |
| SharedDomain.StatefulEntity.constructor | src/main/java/com/stockflow/core/shared/domain/AbstractStatefulAuditableEntity.java:20 | a new entity is active and carries no tenant |
| SharedDomain.StatefulEntity.Activate | src/main/java/com/stockflow/core/shared/domain/AbstractStatefulAuditableEntity.java:22-24 | sets active; changes no other field |
| SharedDomain.StatefulEntity.Deactivate | src/main/java/com/stockflow/core/shared/domain/AbstractStatefulAuditableEntity.java:26-28 | clears active; changes no other field |
| SpecificationUtils.WithActive | src/main/java/com/stockflow/core/shared/infrastructure/SpecificationUtils.java:13-22 | TRUE keeps exactly the active rows, FALSE exactly the inactive ones, BOTH every row |
| SpecificationUtils.WithSearch | src/main/java/com/stockflow/core/shared/infrastructure/SpecificationUtils.java:24-32 | a null or blank term keeps every row; otherwise a row is kept iff its field is present and contains the term, ignoring case |
| SpecificationUtils.BothIsUnion | src/main/java/com/stockflow/core/shared/infrastructure/SpecificationUtils.java:16-20 | BOTH selects the union of TRUE and FALSE, which are disjoint |
| SpecificationUtils.NullAndBlankAgree | src/main/java/com/stockflow/core/shared/infrastructure/SpecificationUtils.java:26-28 | a blank term selects the same rows as a null term |
| SpecificationUtils.LoweredTermAgrees | src/main/java/com/stockflow/core/shared/infrastructure/SpecificationUtils.java:29 | searching the lowered term selects the same rows as searching the term |
| SpecificationUtils.NoFlagIgnoresActive | src/main/java/com/stockflow/core/shared/domain/EntityStatefulFilter.java:14-16 | a filter without a flag keeps a row whatever its active flag |
| Config.ApplicationContext.constructor | src/main/java/com/stockflow/core/config/ApplicationContext.java:15-17 | a fresh context holds no tenant |
| Config.ApplicationContext.WithTenant | src/main/java/com/stockflow/core/config/ApplicationContext.java:10-17 | the all-arguments constructor and builder give a context holding exactly the tenant given |
| Config.ContextHolder.constructor | src/main/java/com/stockflow/core/config/ApplicationContext.java:15 | a unit of work starts with no context and no tenant |
| Config.ContextHolder.Get | src/main/java/com/stockflow/core/config/ApplicationContext.java:19-21 | returns the stored context, or stores and returns a fresh one with no tenant; the current tenant is unchanged |
| Config.ContextHolder.Set | src/main/java/com/stockflow/core/config/ApplicationContext.java:23-25 | stores the given context, whose tenant becomes the current one |
| Config.ContextHolder.Clear | src/main/java/com/stockflow/core/config/ApplicationContext.java:27-29 | removes the context, so no tenant is current |
| Config.ContextHolder.GetCurrentTenant | src/main/java/com/stockflow/core/config/ApplicationContext.java:31-33 | returns the current tenant and changes none |
| Config.ContextHolder.SetCurrentTenant | src/main/java/com/stockflow/core/config/ApplicationContext.java:35-39 | the given tenant, or none, becomes the current one, overwriting any earlier one |
| Config.UnitOfWork | src/main/java/com/stockflow/core/config/ApplicationContext.java:19-39 | bind, rebind, clear and set-then-get in sequence: the tenant read is the last one bound, none after clear, and get returns the context set |
| TenantListener.SetTenant | src/main/java/com/stockflow/core/shared/domain/TenantEntityListener.java:10-29 | leaves an entity that is not tenant-scoped alone and passes; fails for a scoped entity when no tenant is bound, leaving it unchanged; otherwise stamps the bound tenant; the context's tenant is unchanged |
| TenantListener.PersistThenUpdate | src/main/java/com/stockflow/core/shared/domain/TenantEntityListener.java:24-28 | a second run under the same context gives the same outcome and tenant, and the active flag is untouched |
| TenantListener.RestampOverwrites | src/main/java/com/stockflow/core/shared/domain/TenantEntityListener.java:24-28 | an update under another tenant replaces the entity's tenant |
| TenantService.Candidate | src/main/java/com/stockflow/core/tenant/application/TenantServiceImpl.java:101 | a fallback slug is the base, a hyphen and at least one more character |
| TenantService.CandidateInjective | src/main/java/com/stockflow/core/tenant/application/TenantServiceImpl.java:101 | different counters give different fallback slugs |
| TenantService.CandidatesUpToSize | src/main/java/com/stockflow/core/tenant/application/TenantServiceImpl.java:98-103 | the first n fallbacks are n different slugs |
| TenantService.TriedSlugsAreTaken | src/main/java/com/stockflow/core/tenant/application/TenantServiceImpl.java:98-103 | the loop can try no more slugs than are taken, which bounds it |
| TenantService.GeneratedSlugIsUnique | src/main/java/com/stockflow/core/tenant/application/TenantServiceImpl.java:96-106 | at most one slug is the first free one among base, base-1, base-2, ... |
| TenantService.TenantServiceImpl.ExistsBySlug | src/main/java/com/stockflow/core/tenant/application/TenantServiceImpl.java:55-57 | holds iff some tenant uses the slug |
| TenantService.TenantServiceImpl.GenerateUniqueSlug | src/main/java/com/stockflow/core/tenant/application/TenantServiceImpl.java:96-106 | the loop ends, and returns a free slug: the base if free, else base-k for the least k whose candidate is free, every earlier candidate being taken |
| TenantService.TenantServiceImpl.Create | src/main/java/com/stockflow/core/tenant/application/TenantServiceImpl.java:32-43 | adds exactly one active tenant named as given, with the generated slug for the slug of that name; slugs stay distinct |
| TenantService.TenantServiceImpl.Update | src/main/java/com/stockflow/core/tenant/application/TenantServiceImpl.java:46-52 | EntityNotFound and no change for an unknown id; otherwise sets the name and uses a supplied slug verbatim or a generated one, keeping the active flag |
| TenantService.TenantServiceImpl.ToggleActiveStatus | src/main/java/com/stockflow/core/tenant/application/TenantServiceImpl.java:76-84 | EntityNotFound for an unknown id; otherwise flips that tenant's flag only |
| TenantService.TenantServiceImpl.Paged | src/main/java/com/stockflow/core/tenant/application/TenantServiceImpl.java:87-94 | a stored tenant is listed iff its flag matches the filter (any flag when none is given) and, for a term that is not blank, its name contains the term, ignoring case |
| TenantService.PagedSelectsAll | src/main/java/com/stockflow/core/tenant/application/TenantServiceImpl.java:87-94 | the same characterisation holds for every tenant of a store |
| TenantService.PagedSelects | src/main/java/com/stockflow/core/tenant/application/TenantServiceImpl.java:87-94 | a tenant is listed iff its flag matches and, for a term that is not blank, its name contains the raw term, ignoring case |
| TenantService.GeneratedSlugExamples | src/test/java/com/stockflow/core/tenant/application/TenantServiceImplTest.java:55-68 | with "acme" free, taken, and taken with "acme-1", the generated slugs are acme, acme-1 and acme-2 |
| TenantService.SlugExamples | src/main/java/com/stockflow/core/tenant/application/TenantServiceImpl.java:96-106 | the loop itself yields acme, acme-1 and acme-2 on those stores |
| BranchService.CheckCode | src/main/java/com/stockflow/core/branch/application/BranchServiceImpl.java:32-38 | a length other than 3, counted in UTF-16 code units as Java's `length` counts, gives CodeInvalidLength; with three units, anything but three ASCII digits other than "000" gives CodeInvalidFormat; it passes iff the code is three ASCII digits other than "000"; each stated as an if-and-only-if |
| BranchService.SupplementaryCharCode | src/main/java/com/stockflow/core/branch/application/BranchServiceImpl.java:32-38 | "1" followed by U+1F600 has length 3 in UTF-16 units and fails with CodeInvalidFormat, not CodeInvalidLength |
| BranchService.CheckCodeExamples | src/main/java/com/stockflow/core/branch/application/BranchServiceImpl.java:32-38 | the test suite's codes: "100" passes, "ABC" has a bad format, "9876" a bad length; also "001" and "999" pass, "000" and "0A1" have a bad format, "01" and "0001" a bad length |
| BranchService.PagedSelects | src/main/java/com/stockflow/core/branch/application/BranchServiceImpl.java:106-120 | a branch is listed iff its flag matches and, for a term whose trimmed form is not blank, its name or email contains it; the "tin" disjunct never matches |
| BranchService.Demoted | src/main/java/com/stockflow/core/branch/domain/Branch.java:43-45 | a branch of the business stops being main and nothing else changes; other branches are untouched |
| BranchService.BranchServiceImpl.Create | src/main/java/com/stockflow/core/branch/application/BranchServiceImpl.java:31-70 | checks length, format, phone, duplicate code and the main-branch lookup in that order, saving nothing on failure; a null isMain counts as false; succeeds iff all pass; saves the active branch with the request's fields and normalised phone; a main branch demotes the business's main branch, every other branch is untouched, and at most one main branch per business is kept |
| BranchService.BranchServiceImpl.ToggleActiveStatus | src/main/java/com/stockflow/core/branch/application/BranchServiceImpl.java:95-103 | EntityNotFound for an unknown id; otherwise flips that branch's flag only; the main-branch rule is kept |
| PersonService.CreateKeepsIdentificationsDistinct | src/main/java/com/stockflow/core/person/application/PersonServiceImpl.java:31-54 | a create keeps (type, number) pairs unique in the store |
| PersonService.PagedSelects | src/main/java/com/stockflow/core/person/application/PersonServiceImpl.java:96-112 | a person is listed iff the flag matches and, for a term whose trimmed form is not blank, one of the five number and name fields contains it |
| PersonService.PersonServiceImpl.FindByIdentification | src/main/java/com/stockflow/core/person/infrastructure/PersonRepository.java:13 | empty iff no person matches, the one match when there is one, and NonUniqueResult iff several match |
| PersonService.PersonServiceImpl.Create | src/main/java/com/stockflow/core/person/application/PersonServiceImpl.java:31-54 | trims the number; one stored person with that type and trimmed number gives AlreadyExistsByIdentification and several give NonUniqueResult, before validation; an invalid number gives InvalidIdentification with the validator's error; on success saves one active ES person with trimmed names, second names trimmed when present, and the trimmed number; a failure saves nothing |
| PersonService.PersonServiceImpl.FindOrCreate | src/main/java/com/stockflow/core/person/application/PersonServiceImpl.java:57-60 | looks up the untrimmed number: one match is returned without writing; none behaves as create; several give NonUniqueResult |
| PersonService.PersonServiceImpl.FindOrCreateByTrimmedNumber | src/main/java/com/stockflow/core/person/application/PersonServiceImpl.java:57-60 | the same with the trimmed lookup, which can never fail with AlreadyExistsByIdentification |
| PersonService.PersonServiceImpl.ToggleActiveStatus | src/main/java/com/stockflow/core/person/application/PersonServiceImpl.java:85-93 | EntityNotFound for an unknown id; otherwise flips that person's flag only, keeping identifications unique |
| PersonService.PaddedNumberScenario | src/main/java/com/stockflow/core/person/application/PersonServiceImpl.java:32-38 | a request padded with a space, for a stored number, fails as a duplicate in findOrCreate but finds the person with the trimmed lookup |
| OrganizationService.PagedSelects | src/main/java/com/stockflow/core/organization/application/OrganizationServiceImpl.java:87-101 | an organization is listed iff the flag matches and, for a term whose trimmed form is not blank, its tax number, name or email contains it |
| OrganizationService.OrganizationServiceImpl.Create | src/main/java/com/stockflow/core/organization/application/OrganizationServiceImpl.java:30-51 | checks the tax number as a RUC, the phone, a duplicate tax number and a duplicate email in that order, saving nothing on failure; succeeds iff all pass; saves the active organization with the request's fields and normalised phone; tax numbers and emails stay unique |
| OrganizationService.OrganizationServiceImpl.ToggleActiveStatus | src/main/java/com/stockflow/core/organization/application/OrganizationServiceImpl.java:76-84 | EntityNotFound for an unknown id; otherwise flips that organization's flag only |
| OrganizationService.PhoneIsMandatory | src/main/java/com/stockflow/core/organization/application/OrganizationServiceImpl.java:32 | with no phone, or a blank one, the normaliser step fails with NullOrEmpty |
| BusinessService.PagedSelects | src/main/java/com/stockflow/core/business/application/BusinessServiceImpl.java:88-102 | a business is listed iff the flag matches and, for a term whose trimmed form is not blank, its name or email contains it; the "tin" disjunct never matches |
| BusinessService.StoredEmail | src/main/java/com/stockflow/core/business/application/BusinessServiceImpl.java:46 | the email is present iff the request has one, and then it is the request's email trimmed: no longer, and with no trimmable character at either end |
| BusinessService.BusinessServiceImpl.Create | src/main/java/com/stockflow/core/business/application/BusinessServiceImpl.java:31-51 | a phone error comes first; then the organization and the untrimmed email are looked up; succeeds iff neither fails; saves one active business of the organization with name and address trimmed, email trimmed when present and the normalised phone; a failure saves nothing; emails stay unique per organization when the request's email is already trimmed |
| BusinessService.BusinessServiceImpl.CreateCheckingStoredEmail | src/main/java/com/stockflow/core/business/application/BusinessServiceImpl.java:38-47 | the same create with the lookup on the email as stored; emails always stay unique per organization |
| BusinessService.BusinessServiceImpl.ToggleActiveStatus | src/main/java/com/stockflow/core/business/application/BusinessServiceImpl.java:77-85 | EntityNotFound for an unknown id; otherwise flips that business's flag only |
| BusinessService.StoreWithEmail | src/main/java/com/stockflow/core/business/application/BusinessServiceImpl.java:31-51 | creating a business with the email "e" and no phone stores exactly that business, whatever the normaliser |
| BusinessService.PaddedEmailScenario | src/main/java/com/stockflow/core/business/application/BusinessServiceImpl.java:38-46 | an email padded with a leading space passes the duplicate check; the store then holds two businesses of the organization with the email "e", so the one-email-per-organization rule is broken |
| BusinessService.PaddedEmailRejected | src/main/java/com/stockflow/core/business/application/BusinessServiceImpl.java:38-46 | the corrected create rejects that padded copy with AlreadyExistsByEmail |

## Left out

- Phone parsing, validation and ITU-T E.164 formatting (`PhoneUtils.toE164` after its guard, and `isValid`) belong to the libphonenumber library. The normaliser is a function parameter, and the default-region argument (always null at the call sites) is dropped.
- The `ThreadLocal` isolation of `ApplicationContext` is per-thread behaviour. One unit of work is modelled, as one `ContextHolder`.
- Config.ContextHolder.Set: `set(null)` is not modelled. The parameter is a context object.
- The Spring Data and JPA machinery is replaced by an in-memory map:
  - repositories, `Page`/`Pageable` and the criteria builder become that map and predicates over rows;
  - `save` is a map update;
  - a uniqueness constraint enforced only by the database is not modelled.
- SpecificationUtils.WithSearch: SQL `LIKE` wildcards in a term (`%`, `_`) are matched as plain characters, because the model reads `LIKE` as substring containment.
- `toLowerCase` is modelled on ASCII letters only. The locale rules are left out.
- The search on a `tin` attribute that Branch and Business do not declare is modelled as an absent attribute that never matches. The attribute-lookup error JPA would raise is not modelled.
- SlugUtils.ToSlug: Unicode NFD decomposition and the `\p{M}` mark removal are not modelled. The input is taken already decomposed. Combining marks then fall to the `[^\w\s-]` filter, which yields the same result.
- TenantService.TenantServiceImpl.GenerateUniqueSlug: the counter is unbounded, while the source's `int` counter would wrap. Reaching the wrap needs more than 2^31 taken slugs.
- TenantService.TenantServiceImpl.Update: a supplied slug is stored without a uniqueness check, as in the source. So the update does not promise that slugs stay distinct.
- TenantService.TenantServiceImpl.Update: a generated slug counts the tenant's own slug as taken, as in the source.
- Auditing is left out: timestamps, auditors, the clock, message resolution and exception arguments.
- The `updatable=false` column semantics of the tenant join column are not modelled. This is persistence-engine behaviour. The hook's in-memory overwrite is modelled instead.
- The `update` methods of the person, branch, organization and business services are not modelled. They only throw UnsupportedOperationException.
- `find`, `list` and `getByIdThrowingException` are store lookups. Only their not-found error appears, inside the toggles and the tenant update.
- Bean-validation annotations on DTOs (`@NotBlank`, `@Email`) are not enforced. A required DTO string is a plain `string`.
- TenantService.TenantServiceImpl.Create, TenantService.TenantServiceImpl.Update: the `@Pattern("^[a-z0-9-]+$")` on the Tenant entity's slug (Tenant.java:22) and on the `existsBySlug` parameter (TenantRepository.java:12), and the slug column's length of 64, are not enforced. With a validator present, a save of the slug "" (from "!!!") or "a_b" would be rejected; in the model both members succeed with them (see SlugUtils.SlugMayMissTenantPattern).
- BranchService.BranchServiceImpl.Create, BranchService.BranchServiceImpl.ToggleActiveStatus, OrganizationService.OrganizationServiceImpl.Create, OrganizationService.OrganizationServiceImpl.ToggleActiveStatus, BusinessService.BusinessServiceImpl.Create, BusinessService.BusinessServiceImpl.CreateCheckingStoredEmail, BusinessService.BusinessServiceImpl.ToggleActiveStatus: Branch, Organization and Business are tenant-scoped entities, so each of their saves runs the tenant hook (TenantListener.SetTenant). These members do not run it. Their success therefore assumes a tenant is bound: with none bound, the source throws IllegalStateException and saves nothing. Their stored entities also carry no tenant field, where the source stamps the bound tenant.
- IdCardUtils.ValidateNationalIdentification: for a null number the source fails in `split` (IdCardUtils.java:39), before the guard chain, with a bare NullPointerException that carries no message. The model reports Fail(NullValue), the guard's error for a null number (IdCardUtils.java:75). Both are a NullPointerException; only the message differs. ValidateRuc runs the guard first, so it is exact.
- `marketplaceEnabled` on Business is not modelled. Nothing in the modelled code reads or writes it.

## Findings

| source | as written | input that shows it | evidently intended | confidence | as-written member | corrected member |
|---|---|---|---|---|---|---|
| src/main/java/com/stockflow/core/person/application/PersonServiceImpl.java:57-60 | findOrCreate looks the person up by the untrimmed number, while create stores and checks the trimmed one | a person stored under "7"; a request for the same type with " 7" | return the stored person, as the lookup does for an unpadded number | medium, not executed | PersonService.PersonServiceImpl.FindOrCreate, PersonService.PaddedNumberScenario | PersonService.PersonServiceImpl.FindOrCreateByTrimmedNumber |
| src/main/java/com/stockflow/core/business/application/BusinessServiceImpl.java:38-46 | the duplicate-email check uses the request's untrimmed email, while the business stores the trimmed email | a business of an organization stored with "e"; a second request for that organization with " e" | reject the second request, so an email stays unique within an organization | medium, not executed | BusinessService.BusinessServiceImpl.Create, BusinessService.PaddedEmailScenario | BusinessService.BusinessServiceImpl.CreateCheckingStoredEmail, BusinessService.PaddedEmailRejected |
