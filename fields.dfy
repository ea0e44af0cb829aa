/** The field wrappers of the contact book (Name, Phone, Birthday) and the
    error taxonomy that the command handlers translate into one-line replies. */
module Fields {

  datatype Option<+T> = None | Some(value: T)

  /** The three exception kinds the handlers raise and `input_error` catches. */
  datatype Error = ValueError(message: string) | KeyError | IndexError

  /** What an undecorated handler does: return a string or raise. */
  datatype Outcome = Returned(text: string) | Raised(error: Error)

  /** A value or the exception its construction raised. */
  datatype Result<+T> = Ok(value: T) | Err(error: Error)

  const ContactNotFoundText := "Contact not found."
  const BadCommandText := "Invalid command format."
  const PhoneFormatText := "Invalid phone number format. Must be 10 digits."
  const DateFormatText := "Invalid date format. Please use DD.MM.YYYY."
  const BirthdayAlreadySetText := "Birthday already set."

  /** The `input_error` decorator: a returned string passes through, a
      ValueError becomes its message, KeyError and IndexError become fixed
      messages. No outcome escapes as an exception. */
  function InputError(o: Outcome): (s: string)
    ensures o.Returned? ==> s == o.text
    ensures o.Raised? && o.error.ValueError? ==> s == o.error.message
    ensures o == Raised(KeyError) ==> s == ContactNotFoundText
    ensures o == Raised(IndexError) ==> s == BadCommandText
  {
    match o
    case Returned(t) => t
    case Raised(ValueError(m)) => m
    case Raised(KeyError) => ContactNotFoundText
    case Raised(IndexError) => BadCommandText
  }

  // ---------------------------------------------------------------- Phone

  /** ASCII decimal digit (the model's reading of `str.isdigit`). */
  predicate IsDigit(c: char) {
    '0' <= c <= '9'
  }

  /** `str.isdigit()`: non-empty and every character a digit. */
  predicate IsDigits(s: string) {
    |s| > 0 && forall i :: 0 <= i < |s| ==> IsDigit(s[i])
  }

  /** The format every Phone holds: ten digits. */
  predicate IsPhoneNumber(s: string) {
    IsDigits(s) && |s| == 10
  }

  /** A Phone is its validated value; no Phone with another format exists. */
  type Phone = s: string | IsPhoneNumber(s) witness "0000000000"

  /** `Phone(value)`: succeeds exactly on ten-digit strings and keeps the string
      as given; otherwise raises ValueError with the phone-format message. */
  function NewPhone(s: string): (r: Result<Phone>)
    ensures r.Ok? <==> |s| == 10 && forall i :: 0 <= i < |s| ==> '0' <= s[i] <= '9'
    ensures r.Ok? ==> r.value == s
    ensures r.Err? ==> r.error == ValueError(PhoneFormatText)
  {
    if !IsDigits(s) || |s| != 10 then Err(ValueError(PhoneFormatText)) else Ok(s)
  }

  /** A phone holds no separator or whitespace character, so a rendered phone
      list can be cut back into its phones. */
  lemma PhoneHasNoSeparator(p: Phone, c: char)
    requires c == ';' || c == ' ' || c == '\n'
    ensures c !in p
  {
    assert forall i :: 0 <= i < |p| ==> IsDigit(p[i]) && p[i] != c;
  }

  // ------------------------------------------------------------- Birthday

  /** `datetime.strptime(value, "%d.%m.%Y")`, outside the model: the day number
      of the parsed date, or None when the parser rejects the string. */
  type DateParser = string -> Option<int>

  /** `Birthday(value)`: succeeds exactly when the parser accepts the string,
      and then stores the original string, not a normalised form. */
  function NewBirthday(parse: DateParser, s: string): (r: Result<string>)
    ensures r.Ok? <==> parse(s).Some?
    ensures r.Ok? ==> r.value == s
    ensures r.Err? ==> r.error == ValueError(DateFormatText)
  {
    if parse(s).Some? then Ok(s) else Err(ValueError(DateFormatText))
  }
}
