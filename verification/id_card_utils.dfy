/** Ecuadorian identification numbers: the national identity card ("cédula",
    10 digits) and the taxpayer registry number (RUC, 13 digits).
    Every check is a guard that either passes or throws; a thrown error is a
    `Fail` carrying one constructor per `error.idcard.*` message code. */
module IdCardUtils {
  import opened Common

  datatype IdentificationType = Ruc | IdCard | Passport | FinalConsumer | ForeignIdentification

  datatype IdCardError =
    | NullValue                     // NullPointerException "error.idcard.null_value"
    | EmptyValue                    // error.idcard.empty_value
    | OnlyDigits                    // error.idcard.only_digits
    | InvalidLength(expected: int)  // error.idcard.invalid_length, with the expected length
    | InvalidProvinceCode           // error.idcard.invalid_province_code
    | InvalidThirdDigitId           // error.idcard.invalid_third_digit_id
    | InvalidThirdDigitRuc          // error.idcard.invalid_third_digit_ruc
    | InvalidEstablishmentNumber    // error.idcard.invalid_establishment_number
    | InvalidCheckDigit             // error.idcard.invalid_check_digit
    | UnexpectedType                // IllegalStateException "Unexpected value"

  /** The regular-expression class `\d` without Unicode flags: ASCII 0-9. */
  predicate IsDigit(c: char) { '0' <= c <= '9' }

  predicate AllDigits(s: string) { forall i :: 0 <= i < |s| ==> IsDigit(s[i]) }

  /** Character.getNumericValue on an ASCII digit. */
  function DigitValue(c: char): (d: int)
    requires IsDigit(c)
    ensures 0 <= d <= 9
  {
    c as int - '0' as int
  }

  lemma DigitValueInjective(a: char, b: char)
    requires IsDigit(a) && IsDigit(b) && DigitValue(a) == DigitValue(b)
    ensures a == b
  {
  }

  // ---------------------------------------------------------------------------
  // The shared precondition

  /** Rejects, in this order: null, empty, a character outside 0-9, a length
      other than `expectedLength`. */
  function InitialValidation(number: Option<string>, expectedLength: int): (r: Outcome<IdCardError>)
    ensures r == Pass <==> number.Some? && number.value != [] && AllDigits(number.value) && |number.value| == expectedLength
    ensures r == Fail(NullValue) <==> number.None?
    ensures r == Fail(EmptyValue) <==> number == Some([])
    ensures r == Fail(OnlyDigits) <==> number.Some? && number.value != [] && !AllDigits(number.value)
    ensures r == Fail(InvalidLength(expectedLength)) <==>
              number.Some? && number.value != [] && AllDigits(number.value) && |number.value| != expectedLength
  {
    if number.None? then Fail(NullValue)
    else if number.value == [] then Fail(EmptyValue)
    else if !AllDigits(number.value) then Fail(OnlyDigits)
    else if |number.value| != expectedLength then Fail(InvalidLength(expectedLength))
    else Pass
  }

  // ---------------------------------------------------------------------------
  // Range checks

  /** The first two digits read as a decimal number. */
  function ProvinceCode(s: string): (code: int)
    requires |s| >= 2 && IsDigit(s[0]) && IsDigit(s[1])
    ensures 0 <= code <= 99
  {
    10 * DigitValue(s[0]) + DigitValue(s[1])
  }

  /** Digits 10..12 of a RUC read as a decimal number. */
  function EstablishmentNumber(s: string): (n: int)
    requires |s| >= 13 && IsDigit(s[10]) && IsDigit(s[11]) && IsDigit(s[12])
    ensures 0 <= n <= 999
  {
    100 * DigitValue(s[10]) + 10 * DigitValue(s[11]) + DigitValue(s[12])
  }

  function VerifyProvinceCode(provinceCode: int): (r: Outcome<IdCardError>)
    ensures r == Pass <==> 0 <= provinceCode <= 24
    ensures r != Pass ==> r == Fail(InvalidProvinceCode)
  {
    if provinceCode < 0 || provinceCode > 24 then Fail(InvalidProvinceCode) else Pass
  }

  /** The third digit distinguishes natural persons (0-5), public entities (6)
      and private companies (9); a cédula admits only 0-5. */
  function VerifyThirdDigit(thirdDigit: int, idType: IdentificationType): (r: Outcome<IdCardError>)
    ensures idType == IdCard ==> (r == Pass <==> 0 <= thirdDigit <= 5)
    ensures idType == IdCard && r != Pass ==> r == Fail(InvalidThirdDigitId)
    ensures idType == Ruc ==> (r == Pass <==> 0 <= thirdDigit <= 6 || thirdDigit == 9)
    ensures idType == Ruc && r != Pass ==> r == Fail(InvalidThirdDigitRuc)
    ensures idType != IdCard && idType != Ruc ==> r == Fail(UnexpectedType)
  {
    match idType
    case IdCard =>
      if thirdDigit < 0 || thirdDigit > 5 then Fail(InvalidThirdDigitId) else Pass
    case Ruc =>
      if !((thirdDigit >= 0 && thirdDigit < 7) || thirdDigit == 9) then Fail(InvalidThirdDigitRuc) else Pass
    case _ =>
      Fail(UnexpectedType)
  }

  function VerifyEstablishmentNumber(establishmentNumber: int): (r: Outcome<IdCardError>)
    ensures r == Pass <==> establishmentNumber > 0
    ensures r != Pass ==> r == Fail(InvalidEstablishmentNumber)
  {
    if establishmentNumber <= 0 then Fail(InvalidEstablishmentNumber) else Pass
  }

  // ---------------------------------------------------------------------------
  // The weighted modulo-10 check digit (Luhn's formula over nine digits)

  const Coefficients: seq<int> := [2, 1, 2, 1, 2, 1, 2, 1, 2]

  /** A digit times its coefficient, replaced by its digit sum when it has two digits. */
  function ReducedTerm(digit: int, i: nat): (v: int)
    requires 0 <= digit <= 9 && i < |Coefficients|
    ensures 0 <= v <= 9
  {
    var product := digit * Coefficients[i];
    if product >= 10 then product / 10 + product % 10 else product
  }

  /** The sum of the reduced terms of the first `n` digits, taken left to right. */
  function PrefixSum(digits: string, n: nat): (total: int)
    requires n <= |digits| <= |Coefficients| && AllDigits(digits)
    ensures 0 <= total <= 9 * n
  {
    if n == 0 then 0
    else PrefixSum(digits, n - 1) + ReducedTerm(DigitValue(digits[n - 1]), n - 1)
  }

  /** The sum of the reduced terms of all of `digits`. */
  function WeightedSum(digits: string): (total: int)
    requires |digits| <= |Coefficients| && AllDigits(digits)
    ensures 0 <= total <= 9 * |digits|
  {
    PrefixSum(digits, |digits|)
  }

  /** The check digit the nine leading digits call for. */
  function ExpectedCheckDigit(digits: string): (d: int)
    requires |digits| <= |Coefficients| && AllDigits(digits)
    ensures 0 <= d <= 9
    ensures (WeightedSum(digits) + d) % 10 == 0
  {
    CompletingDigit(WeightedSum(digits))
  }

  /** The digit that brings `total` up to the next multiple of ten. */
  function CompletingDigit(total: int): (d: int)
    requires total >= 0
    ensures 0 <= d <= 9
    ensures (total + d) % 10 == 0
  {
    LastDigitOfSum(total, if total % 10 == 0 then 0 else 10 - total % 10);
    if total % 10 == 0 then 0 else 10 - total % 10
  }

  /** Adding a digit to a total changes its last decimal digit only through
      the total's own last digit. */
  lemma LastDigitOfSum(total: int, d: int)
    requires total >= 0 && 0 <= d <= 9
    ensures (total + d) % 10 == (total % 10 + d) % 10
  {
    var q, m := total / 10, total % 10;
    assert total + d == 10 * q + (m + d);
  }

  /** Exactly one digit completes a total to a multiple of ten. */
  lemma CompletingDigitIsUnique(total: int, d: int)
    requires total >= 0 && 0 <= d <= 9
    ensures (total + d) % 10 == 0 <==> d == CompletingDigit(total)
  {
    LastDigitOfSum(total, d);
    var m := total % 10;
    assert 0 <= m + d <= 18;
    if m + d < 10 {
      assert (m + d) % 10 == m + d;
    } else {
      assert (m + d) % 10 == m + d - 10;
    }
  }

  /** Exactly one digit completes the weighted sum to a multiple of ten. */
  lemma CheckDigitIsUnique(digits: string, d: int)
    requires |digits| <= |Coefficients| && AllDigits(digits)
    requires 0 <= d <= 9
    ensures (WeightedSum(digits) + d) % 10 == 0 <==> d == ExpectedCheckDigit(digits)
  {
    CompletingDigitsAgree(WeightedSum(digits), ExpectedCheckDigit(digits), d);
  }

  /** A digit completes a total to a multiple of ten exactly when it equals
      a digit `e` already known to complete it. */
  lemma CompletingDigitsAgree(total: int, e: int, d: int)
    requires total >= 0 && 0 <= d <= 9 && 0 <= e <= 9
    requires (total + e) % 10 == 0
    ensures (total + d) % 10 == 0 <==> d == e
  {
    CompletingDigitIsUnique(total, d);
    CompletingDigitIsUnique(total, e);
  }

  /** Accumulates the weighted sum in a loop and compares the digit it calls
      for with `checkDigit`. */
  method VerifyAlgorithmMod10(digits: string, checkDigit: int) returns (r: Outcome<IdCardError>)
    requires |digits| <= |Coefficients| && AllDigits(digits)
    ensures r == Pass <==> checkDigit == ExpectedCheckDigit(digits)
    ensures r != Pass ==> r == Fail(InvalidCheckDigit)
  {
    var total := 0;
    for i := 0 to |digits|
      invariant total == PrefixSum(digits, i)
    {
      var value := DigitValue(digits[i]) * Coefficients[i];
      if value >= 10 {
        value := value / 10 + value % 10;
      }
      total := total + value;
    }
    var result := if total % 10 == 0 then 0 else 10 - total % 10;
    r := if result != checkDigit then Fail(InvalidCheckDigit) else Pass;
  }

  // ---------------------------------------------------------------------------
  // The two validators and the dispatcher

  /** What a valid cédula is, stated as a conjunction rather than a guard chain. */
  predicate IsValidCedula(s: string) {
    && |s| == 10
    && AllDigits(s)
    && ProvinceCode(s) <= 24
    && DigitValue(s[2]) <= 5
    && DigitValue(s[9]) == ExpectedCheckDigit(s[..9])
  }

  /** What a valid RUC is: the check digit is only compared when the third
      digit is neither 6 (public entity) nor 9 (private company). */
  predicate IsValidRuc(s: string) {
    && |s| == 13
    && AllDigits(s)
    && ProvinceCode(s) <= 24
    && (DigitValue(s[2]) <= 6 || DigitValue(s[2]) == 9)
    && EstablishmentNumber(s) > 0
    && (DigitValue(s[2]) == 6 || DigitValue(s[2]) == 9 || DigitValue(s[9]) == ExpectedCheckDigit(s[..9]))
  }

  function ValidateNationalIdentification(number: Option<string>): (r: Outcome<IdCardError>)
    ensures r == Pass <==> number.Some? && IsValidCedula(number.value)
    ensures InitialValidation(number, 10) != Pass ==> r == InitialValidation(number, 10)
    ensures InitialValidation(number, 10) == Pass && ProvinceCode(number.value) > 24 ==>
              r == Fail(InvalidProvinceCode)
    ensures InitialValidation(number, 10) == Pass && ProvinceCode(number.value) <= 24 && DigitValue(number.value[2]) > 5 ==>
              r == Fail(InvalidThirdDigitId)
    ensures InitialValidation(number, 10) == Pass && ProvinceCode(number.value) <= 24 &&
            DigitValue(number.value[2]) <= 5 && DigitValue(number.value[9]) != ExpectedCheckDigit(number.value[..9]) ==>
              r == Fail(InvalidCheckDigit)
    ensures r != Pass && r != InitialValidation(number, 10) ==>
              r in {Fail(InvalidProvinceCode), Fail(InvalidThirdDigitId), Fail(InvalidCheckDigit)}
  {
    var init := InitialValidation(number, 10);
    if init.Fail? then init
    else
      var s := number.value;
      var province := VerifyProvinceCode(ProvinceCode(s));
      if province.Fail? then province
      else
        var third := VerifyThirdDigit(DigitValue(s[2]), IdCard);
        if third.Fail? then third
        else if DigitValue(s[9]) != ExpectedCheckDigit(s[..9]) then Fail(InvalidCheckDigit)
        else Pass
  }

  /** A rejected RUC reports the first failing check, in the order: format and
      length, province, third digit, establishment number, check digit. */
  function ValidateRuc(number: Option<string>): (r: Outcome<IdCardError>)
    ensures r == Pass <==> number.Some? && IsValidRuc(number.value)
    ensures InitialValidation(number, 13) != Pass ==> r == InitialValidation(number, 13)
    ensures InitialValidation(number, 13) == Pass && ProvinceCode(number.value) > 24 ==>
              r == Fail(InvalidProvinceCode)
    ensures InitialValidation(number, 13) == Pass && ProvinceCode(number.value) <= 24 &&
            !(DigitValue(number.value[2]) <= 6 || DigitValue(number.value[2]) == 9) ==>
              r == Fail(InvalidThirdDigitRuc)
    ensures InitialValidation(number, 13) == Pass && ProvinceCode(number.value) <= 24 &&
            (DigitValue(number.value[2]) <= 6 || DigitValue(number.value[2]) == 9) &&
            EstablishmentNumber(number.value) == 0 ==>
              r == Fail(InvalidEstablishmentNumber)
    ensures InitialValidation(number, 13) == Pass && ProvinceCode(number.value) <= 24 &&
            DigitValue(number.value[2]) <= 5 && EstablishmentNumber(number.value) > 0 &&
            DigitValue(number.value[9]) != ExpectedCheckDigit(number.value[..9]) ==>
              r == Fail(InvalidCheckDigit)
    ensures r == Fail(InvalidCheckDigit) ==>
              DigitValue(number.value[2]) != 6 && DigitValue(number.value[2]) != 9
  {
    var init := InitialValidation(number, 13);
    if init.Fail? then init
    else
      var s := number.value;
      var province := VerifyProvinceCode(ProvinceCode(s));
      if province.Fail? then province
      else
        var thirdDigit := DigitValue(s[2]);
        var third := VerifyThirdDigit(thirdDigit, Ruc);
        if third.Fail? then third
        else
          var establishment := VerifyEstablishmentNumber(EstablishmentNumber(s));
          if establishment.Fail? then establishment
          else if thirdDigit != 6 && thirdDigit != 9 && DigitValue(s[9]) != ExpectedCheckDigit(s[..9]) then
            Fail(InvalidCheckDigit)
          else Pass
  }

  /** Cédula and RUC numbers are checked; the other types accept every input,
      the null reference and the empty string included. */
  function Validate(number: Option<string>, idType: IdentificationType): (r: Outcome<IdCardError>)
    ensures idType == IdCard ==> (r == Pass <==> number.Some? && IsValidCedula(number.value))
    ensures idType == Ruc ==> (r == Pass <==> number.Some? && IsValidRuc(number.value))
    ensures idType != IdCard && idType != Ruc ==> r == Pass
  {
    match idType
    case IdCard => ValidateNationalIdentification(number)
    case Ruc => ValidateRuc(number)
    case FinalConsumer => Pass
    case Passport => Pass
    case ForeignIdentification => Pass
  }

  // ---------------------------------------------------------------------------
  // Properties relating several checks

  /** Replacing the check digit of a valid cédula by any other digit is
      rejected, and rejected for the check digit alone. */
  lemma WrongCheckDigitRejected(s: string, c: char)
    requires IsValidCedula(s)
    requires IsDigit(c) && c != s[9]
    ensures ValidateNationalIdentification(Some(s[9 := c])) == Fail(InvalidCheckDigit)
  {
    var t := s[9 := c];
    assert t[..9] == s[..9];
    assert AllDigits(t);
    if DigitValue(c) == DigitValue(s[9]) {
      DigitValueInjective(c, s[9]);
    }
  }

  /** For a RUC of a public entity or a private company the check digit is
      never examined: replacing it by any digit leaves the outcome unchanged. */
  lemma RucCheckDigitExempt(s: string, c: char)
    requires |s| > 9 && IsDigit(s[9]) && IsDigit(c)
    requires s[2] == '6' || s[2] == '9'
    ensures ValidateRuc(Some(s[9 := c])) == ValidateRuc(Some(s))
  {
    var t := s[9 := c];
    assert AllDigits(t) <==> AllDigits(s) by {
      if AllDigits(s) {
        assert forall i :: 0 <= i < |t| ==> IsDigit(t[i]) by {
          forall i | 0 <= i < |t| ensures IsDigit(t[i]) {
            if i != 9 { assert t[i] == s[i]; }
          }
        }
      }
      if AllDigits(t) {
        forall i | 0 <= i < |s| ensures IsDigit(s[i]) {
          if i != 9 { assert s[i] == t[i]; }
        }
      }
    }
  }

  /** A cédula's first ten digits followed by establishment "001" form a RUC of
      a natural person whenever the third digit is at most 5. */
  lemma CedulaExtendsToRuc(s: string)
    requires IsValidCedula(s)
    ensures IsValidRuc(s + "001")
  {
    var t := s + "001";
    assert t[..9] == s[..9];
    assert forall i :: 0 <= i < 10 ==> t[i] == s[i];
  }

  // ---------------------------------------------------------------------------
  // The worked examples of the test suite

  lemma CheckDigitExample()
    ensures WeightedSum("171003406") == 25
    ensures ExpectedCheckDigit("171003406") == 5
  {
    var s := "171003406";
    assert PrefixSum(s, 0) == 0;
    assert PrefixSum(s, 1) == 2;
    assert PrefixSum(s, 2) == 9;
    assert PrefixSum(s, 3) == 11;
    assert PrefixSum(s, 4) == 11;
    assert PrefixSum(s, 5) == 11;
    assert PrefixSum(s, 6) == 14;
    assert PrefixSum(s, 7) == 22;
    assert PrefixSum(s, 8) == 22;
  }


  lemma ValidationExamples()
    ensures Validate(Some("1710034065"), IdCard) == Pass
    ensures Validate(Some("1710034060"), IdCard) == Fail(InvalidCheckDigit)
    ensures Validate(Some("1710034065001"), Ruc) == Pass
    ensures Validate(Some("1710034065000"), Ruc) == Fail(InvalidEstablishmentNumber)
    ensures InitialValidation(None, 10) == Fail(NullValue)
    ensures InitialValidation(Some(""), 10) == Fail(EmptyValue)
    ensures InitialValidation(Some("ABC1234567"), 10) == Fail(OnlyDigits)
    ensures InitialValidation(Some("123456"), 10) == Fail(InvalidLength(10))
    ensures Validate(Some(""), Passport) == Pass && Validate(None, FinalConsumer) == Pass
  {
    CheckDigitExample();
    assert "1710034065"[..9] == "171003406";
    assert "1710034060"[..9] == "171003406";
    assert "1710034065001"[..9] == "171003406";
    assert "ABC1234567"[0] == 'A';
  }
}
