/** The telephone normaliser. Parsing, validation and E.164 formatting belong
    to libphonenumber and enter the model as a function parameter `normalise`;
    only the guard in front of it is modelled. */
module PhoneUtils {
  import opened Common
  import opened StringUtils

  datatype PhoneError = NullOrEmpty | InvalidNumber | ParseError(message: string)

  /** What libphonenumber does to a non-blank number: an E.164 string, or the
      invalid-number or parse error. */
  type Normaliser = string -> Result<string, PhoneError>

  /** PhoneUtils.toE164: null or blank input fails with NullOrEmpty before the
      library is consulted; any other input gets the library's answer. */
  function ToE164(input: Option<string>, normalise: Normaliser): (r: Result<string, PhoneError>)
    ensures r == Failure(NullOrEmpty) <==>
              input.None? || IsBlank(input.value) || normalise(input.value) == Failure(NullOrEmpty)
    ensures input.Some? && !IsBlank(input.value) ==> r == normalise(input.value)
  {
    if input.None? || IsBlank(input.value) then Failure(NullOrEmpty) else normalise(input.value)
  }

  /** The services' optional phone: normalised when present and not blank,
      otherwise stored as null. */
  function NormaliseOptional(phone: Option<string>, normalise: Normaliser): (r: Result<Option<string>, PhoneError>)
    ensures phone.None? || IsBlank(phone.value) ==> r == Success(None)
    ensures phone.Some? && !IsBlank(phone.value) ==>
              var e164 := ToE164(phone, normalise);
              (r.Success? <==> e164.Success?) &&
              (r.Success? ==> r.value == Some(e164.value)) &&
              (r.Failure? ==> r.error == e164.error)
  {
    if phone.Some? && !IsBlank(phone.value) then
      match ToE164(phone, normalise)
      case Success(e164) => Success(Some(e164))
      case Failure(e) => Failure(e)
    else
      Success(None)
  }

  /** The guard is what makes the optional phone never fail on an absent number,
      while a mandatory phone always does. */
  lemma AbsentPhone(normalise: Normaliser)
    ensures NormaliseOptional(None, normalise) == Success(None)
    ensures ToE164(None, normalise) == Failure(NullOrEmpty)
    ensures ToE164(Some(" \t"), normalise) == Failure(NullOrEmpty)
  {
    assert IsBlank(" \t") by {
      assert " \t"[0] == ' ' && " \t"[1] == '\t';
    }
  }
}
