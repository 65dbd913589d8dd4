/**
 * The application's exception table (exception-enumerator/app/appexception.py):
 * an enumeration whose members carry a numeric code, the exception class
 * they raise and a default message, and `throw`, which raises that class
 * with the text `"{code} - {message}"`.
 *
 * Raising is modelled as a value: `Throw` returns the exception class and
 * the text it would be raised with.
 */
module AppExceptions {
  import opened Wrappers
  import opened Text
  import opened Values

  /** The exception classes a member may raise, and the `TypeError` of a bad message. */
  datatype ExceptionClass = GenericException | TimeoutException | ValueError | TypeError

  /** The members of `AppException`. */
  datatype AppException = Generic | Timeout | NotAnInteger | NotAList
  {
    /** `code`, the member's enumeration value. */
    function Code(): nat
    {
      match this
      case Generic => 100
      case Timeout => 101
      case NotAnInteger => 200
      case NotAList => 201
    }

    /** `exception`, the class `throw` raises. */
    function Exception(): ExceptionClass
    {
      match this
      case Generic => GenericException
      case Timeout => TimeoutException
      case NotAnInteger => ValueError
      case NotAList => ValueError
    }

    /** `message`, the default text. */
    function Message(): string
    {
      match this
      case Generic => "Application exception."
      case Timeout => "Timeout connecting to resource."
      case NotAnInteger => "Value must be an integer."
      case NotAList => "Value must be a list."
    }
  }

  /** The members in definition order. */
  const Members: seq<AppException> := [Generic, Timeout, NotAnInteger, NotAList]

  /** The text of the `TypeError` raised for a message that is not a string. */
  const MessageNotString: string := "Message must be a string."

  /** The definition rows of the table: code, class and default message of each member. */
  lemma MemberTable()
    ensures Generic.Code() == 100 && Generic.Exception() == GenericException
    ensures Timeout.Code() == 101 && Timeout.Exception() == TimeoutException
    ensures NotAnInteger.Code() == 200 && NotAnInteger.Exception() == ValueError
    ensures NotAList.Code() == 201 && NotAList.Exception() == ValueError
    ensures forall m: AppException :: m in Members
    ensures forall m: AppException :: m.Exception() != TypeError
  {
    forall m: AppException ensures m in Members {
      match m
      case Generic => assert Members[0] == m;
      case Timeout => assert Members[1] == m;
      case NotAnInteger => assert Members[2] == m;
      case NotAList => assert Members[3] == m;
    }
  }

  /**
   * `AppException(code)`: the member whose value is `code`, if any. The
   * enumeration's values are its codes, so the lookup is by code.
   */
  function FromCode(code: int): (r: Option<AppException>)
    ensures r.Some? ==> r.value.Code() == code
    ensures r.None? ==> forall m: AppException :: m.Code() != code
  {
    if code == 100 then Some(Generic)
    else if code == 101 then Some(Timeout)
    else if code == 200 then Some(NotAnInteger)
    else if code == 201 then Some(NotAList)
    else None
  }

  /** Every member is found again by its code, so no two members share one. */
  lemma FromCodeOfCode(m: AppException)
    ensures FromCode(m.Code()) == Some(m)
  {
    match m
    case Generic =>
    case Timeout =>
    case NotAnInteger =>
    case NotAList =>
  }

  /** Codes are unique: equal codes mean the same member. */
  lemma CodesDistinct(m: AppException, n: AppException)
    requires m.Code() == n.Code()
    ensures m == n
  {
    FromCodeOfCode(m);
    FromCodeOfCode(n);
  }

  /** What `throw` raises: the exception class and its text. */
  datatype Raised = Raised(exClass: ExceptionClass, text: string)

  /** `message or self.message`: `None` and the empty string fall back to the default. */
  function EffectiveMessage(m: AppException, message: Value): (r: string)
    requires message.NoneValue? || message.StrValue?
    ensures message.StrValue? && message.s != "" ==> r == message.s
    ensures message.NoneValue? || message == StrValue("") ==> r == m.Message()
    ensures r != ""
  {
    if message.StrValue? && message.s != "" then message.s else m.Message()
  }

  /** `f"{code} - {message}"`. */
  function Formatted(code: nat, message: string): string
  {
    NatToString(code) + " - " + message
  }

  /** `member.throw(message)`. */
  function Throw(m: AppException, message: Value): (r: Raised)
    ensures !message.NoneValue? && !message.StrValue? <==> r.exClass == TypeError
    ensures r.exClass == TypeError ==> r.text == MessageNotString
    ensures r.exClass != TypeError ==> r.exClass == m.Exception()
    ensures r.exClass != TypeError ==> r.text == Formatted(m.Code(), EffectiveMessage(m, message))
  {
    if !message.NoneValue? && !message.StrValue? then
      Raised(TypeError, MessageNotString)
    else
      Raised(m.Exception(), Formatted(m.Code(), EffectiveMessage(m, message)))
  }

  /** The code in front of a formatted text: its leading digits, if it has any. */
  function LeadingCode(text: string): (r: Option<nat>)
    ensures r.Some? ==> |text| >= 1 && IsDigit(text[0])
  {
    var k := DigitRun(text);
    if k == 0 then None else Some(DigitsValue(text[..k]))
  }

  /** The message after the code and the `" - "` that follows it. */
  function TrailingMessage(text: string): (r: Option<string>)
  {
    var k := DigitRun(text);
    if k >= 1 && k + 3 <= |text| && text[k..k + 3] == " - " then Some(text[k + 3..]) else None
  }

  /** A formatted text gives back the code and the message it was made from. */
  lemma FormattedRoundTrip(code: nat, message: string)
    ensures LeadingCode(Formatted(code, message)) == Some(code)
    ensures TrailingMessage(Formatted(code, message)) == Some(message)
  {
    var c := NatToString(code);
    var t := Formatted(code, message);
    assert t == c + (" - " + message);
    DigitRunOf(c, " - " + message);
    assert t[..|c|] == c;
    assert t[|c|..|c| + 3] == " - ";
    assert t[|c| + 3..] == message;
  }

  /**
   * The text `throw` raises identifies the member that raised it: its
   * leading code looks the member up again, and the rest is the message
   * used, the caller's or the default.
   */
  lemma ThrowIdentifiesMember(m: AppException, message: Value)
    requires message.NoneValue? || message.StrValue?
    ensures Throw(m, message).exClass == m.Exception()
    ensures LeadingCode(Throw(m, message).text) == Some(m.Code())
    ensures FromCode(LeadingCode(Throw(m, message).text).value) == Some(m)
    ensures TrailingMessage(Throw(m, message).text) == Some(EffectiveMessage(m, message))
  {
    FormattedRoundTrip(m.Code(), EffectiveMessage(m, message));
    FromCodeOfCode(m);
  }

  /** test_appexception.py: `None` and `""` give the default message of `Timeout`. */
  lemma ThrowDefaultExamples()
    ensures Throw(Timeout, NoneValue) == Raised(TimeoutException, "101" + " - " + "Timeout connecting to resource.")
    ensures Throw(Timeout, StrValue("")) == Raised(TimeoutException, "101" + " - " + "Timeout connecting to resource.")
  {
    assert NatToString(101) == "101";
  }

  /** test_appexception.py: a custom message is used as it is. */
  lemma ThrowCustomExamples()
    ensures Throw(Generic, StrValue("test")) == Raised(GenericException, "100" + " - " + "test")
    ensures Throw(Timeout, StrValue("test")) == Raised(TimeoutException, "101" + " - " + "test")
  {
    assert NatToString(100) == "100";
    assert NatToString(101) == "101";
  }

  /** test_appexception.py: an integer or a tuple as the message raises `TypeError`. */
  lemma ThrowInvalidExamples()
    ensures Throw(Timeout, IntValue(123)).exClass == TypeError
    ensures Throw(Timeout, OtherValue("tuple")).exClass == TypeError
  {
  }
}
