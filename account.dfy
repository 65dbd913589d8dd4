/**
 * Bank accounts (bank-account/account.py): validated time zones, accounts
 * whose balance changes only through deposit, withdraw and pay-interest,
 * and the confirmation codes every such operation mints and that
 * `parse_confirmation_code` reads back.
 *
 * The wall clock is a parameter: each operation takes the current UTC
 * instant `now`. Amounts are exact reals.
 */
module BankAccount {
  import opened Wrappers
  import opened Text

  /** The `ValueError`s the module raises, one per message. */
  datatype Error =
    | EmptyTimeZoneName
    | MinutesOutOfRange
    | OffsetOutOfRange
    | EmptyName(fieldTitle: string)
    | LessThanMin(minValue: real)
    | NegativeInterestRate
    | InvalidConfirmationCode
    | InvalidTransactionDatetime
    | DateOutOfRange        // the OverflowError of `datetime + timedelta`

  // -----------------------------------------------------------------------
  // TimeZone
  // -----------------------------------------------------------------------

  /** A named UTC offset; `==` on this datatype is the source's `__eq__`. */
  datatype TimeZone = TimeZone(name: string, offsetHours: int, offsetMinutes: int)
  {
    /** `timedelta(hours=offsetHours, minutes=offsetMinutes)`, in minutes. */
    function Offset(): int
    {
      offsetHours * 60 + offsetMinutes
    }

    /** What the constructor guarantees of every zone it builds. */
    predicate Valid()
    {
      && name != [] && IsTrimmed(name)
      && -59 <= offsetMinutes <= 59
      && -12 * 60 <= Offset() <= 14 * 60
    }
  }

  /** `TimeZone(name, offset_hours, offset_minutes)`; `None` for a missing name. */
  function NewTimeZone(name: Option<string>, offsetHours: int, offsetMinutes: int): (r: Result<TimeZone, Error>)
    ensures r.Success? <==>
      && name.Some? && !IsBlank(name.value)
      && -59 <= offsetMinutes <= 59
      && -720 <= offsetHours * 60 + offsetMinutes <= 840
    ensures r.Success? ==>
      && r.value.Valid()
      && r.value.name == Strip(name.value)
      && r.value.offsetHours == offsetHours && r.value.offsetMinutes == offsetMinutes
    ensures r.Failure? ==>
              r.error == (if name.None? || IsBlank(name.value) then EmptyTimeZoneName
                          else if !(-59 <= offsetMinutes <= 59) then MinutesOutOfRange
                          else OffsetOutOfRange)
  {
    if name.None? || |Strip(name.value)| == 0 then
      Failure(EmptyTimeZoneName)
    else if offsetMinutes < -59 || offsetMinutes > 59 then
      Failure(MinutesOutOfRange)
    else
      var offset := offsetHours * 60 + offsetMinutes;
      if offset < -12 * 60 || offset > 14 * 60 then
        Failure(OffsetOutOfRange)
      else
        Success(TimeZone(Strip(name.value), offsetHours, offsetMinutes))
  }

  /** The zone an account or a parse falls back to: `TimeZone("UTC", 0, 0)`. */
  const UTC := TimeZone("UTC", 0, 0)

  /** The constructor accepts every valid zone's own fields and rebuilds that zone. */
  lemma NewTimeZoneComplete(tz: TimeZone)
    requires tz.Valid()
    ensures NewTimeZone(Some(tz.name), tz.offsetHours, tz.offsetMinutes) == Success(tz)
  {
    assert Strip(tz.name) == tz.name && !IsBlank(tz.name) by { StripTrimmed(tz.name); }
    assert -720 <= tz.Offset() <= 840 && -59 <= tz.offsetMinutes <= 59;
  }

  /** test_account.py: `TimeZone("ABC", -1, -30)` keeps its name and has the offset -1:30. */
  lemma TimeZoneCreateExample()
    ensures NewTimeZone(Some("ABC"), -1, -30) == Success(TimeZone("ABC", -1, -30))
    ensures TimeZone("ABC", -1, -30).Offset() == -90
  {
    StripTrimmed("ABC");
  }

  /** The stored name is the stripped one. */
  lemma TimeZoneStripsName()
    ensures NewTimeZone(Some("  ABC "), -1, -30) == Success(TimeZone("ABC", -1, -30))
  {
    assert Strip("  ABC ") == "ABC" by {
      assert "  " + "ABC" + " " == "  ABC ";
      StripSurrounded("  ", "ABC", " ");
    }
  }

  /** A blank name, minutes past 59 and an offset past +14:00 are refused, in that order. */
  lemma TimeZoneRejectionExamples()
    ensures NewTimeZone(Some(" "), 0, 0) == Failure(EmptyTimeZoneName)
    ensures NewTimeZone(None, 0, 60) == Failure(EmptyTimeZoneName)
    ensures NewTimeZone(Some("ABC"), 0, 60) == Failure(MinutesOutOfRange)
    ensures NewTimeZone(Some("ABC"), 14, 1) == Failure(OffsetOutOfRange)
  {
    assert IsBlank(" ") by { BlankIffAllSpace(" "); }
    assert !IsBlank("ABC") by { StripTrimmed("ABC"); }
  }

  /**
   * Equality is structural: zones that differ in the name, the hours or the
   * minutes are unequal, even when their offsets agree.
   */
  lemma TimeZoneEqualityExamples()
    ensures TimeZone("ABC", 1, -30).Offset() == TimeZone("ABC", 0, 30).Offset()
    ensures TimeZone("ABC", 1, -30) != TimeZone("ABC", 0, 30)
    ensures TimeZone("ABC", -1, -30) != TimeZone("DEF", -1, -30)
    ensures TimeZone("ABC", -1, -30) != TimeZone("ABC", -1, 0)
  {
  }

  // -----------------------------------------------------------------------
  // Timestamps: strftime / strptime with "%Y%m%d%H%M%S"
  // -----------------------------------------------------------------------

  /** A `datetime` to the second, without a time zone. */
  datatype DateTime = DateTime(year: int, month: int, day: int, hour: int, minute: int, second: int)
  {
    /** The range `datetime` accepts. */
    predicate Valid()
    {
      && 1 <= year <= 9999
      && 1 <= month <= 12
      && 1 <= day <= DaysInMonth(year, month)
      && 0 <= hour < 24 && 0 <= minute < 60 && 0 <= second < 60
    }
  }

  predicate IsLeapYear(y: int)
  {
    y % 4 == 0 && (y % 100 != 0 || y % 400 == 0)
  }

  function DaysInMonth(year: int, month: int): int
    requires 1 <= month <= 12
  {
    if month == 2 then (if IsLeapYear(year) then 29 else 28)
    else if month == 4 || month == 6 || month == 9 || month == 11 then 30
    else 31
  }

  /** A reading of the clock: a valid instant from a year with four digits. */
  predicate IsClockReading(t: DateTime)
  {
    t.Valid() && t.year >= 1000
  }

  /** `t.strftime("%Y%m%d%H%M%S")`. */
  function FormatTimestamp(t: DateTime): (r: string)
    requires IsClockReading(t)
    ensures |r| == 14 && AllDigits(r)
  {
    assert Pow10(2) == 100 && Pow10(4) == 10000;
    PadNat(t.year, 4) + PadNat(t.month, 2) + PadNat(t.day, 2)
      + PadNat(t.hour, 2) + PadNat(t.minute, 2) + PadNat(t.second, 2)
  }

  /**
   * `datetime.strptime(s, "%Y%m%d%H%M%S")` on the canonical form: fourteen
   * ASCII digits that name a valid instant.
   */
  function ParseTimestamp(s: string): (r: Option<DateTime>)
    ensures r.Some? ==> r.value.Valid()
  {
    if |s| == 14 && AllDigits(s) then
      var t := DateTime(DigitsValue(s[0..4]), DigitsValue(s[4..6]), DigitsValue(s[6..8]),
                        DigitsValue(s[8..10]), DigitsValue(s[10..12]), DigitsValue(s[12..14]));
      if t.Valid() then Some(t) else None
    else
      None
  }

  /** Parsing a formatted clock reading gives the reading back. */
  lemma TimestampRoundTrip(t: DateTime)
    requires IsClockReading(t)
    ensures ParseTimestamp(FormatTimestamp(t)) == Some(t)
  {
    assert Pow10(2) == 100 && Pow10(4) == 10000;
    var s := FormatTimestamp(t);
    assert s[0..4] == PadNat(t.year, 4);
    assert s[4..6] == PadNat(t.month, 2);
    assert s[6..8] == PadNat(t.day, 2);
    assert s[8..10] == PadNat(t.hour, 2);
    assert s[10..12] == PadNat(t.minute, 2);
    assert s[12..14] == PadNat(t.second, 2);
  }

  /** Conversely, formatting what was parsed gives the text back. */
  lemma TimestampParsedFormat(s: string)
    requires ParseTimestamp(s).Some? && ParseTimestamp(s).value.year >= 1000
    ensures FormatTimestamp(ParseTimestamp(s).value) == s
  {
    ParsedFields(s);
    ReadThenFormat(s, ParseTimestamp(s).value);
  }

  /** A successful parse read six digit fields of a 14-character text. */
  lemma ParsedFields(s: string)
    requires ParseTimestamp(s).Some?
    ensures |s| == 14 && AllDigits(s)
    ensures ParseTimestamp(s).value
         == DateTime(DigitsValue(s[0..4]), DigitsValue(s[4..6]), DigitsValue(s[6..8]),
                     DigitsValue(s[8..10]), DigitsValue(s[10..12]), DigitsValue(s[12..14]))
  {
  }

  /** Formatting the date-time read from six digit fields gives the fields back. */
  lemma ReadThenFormat(s: string, t: DateTime)
    requires |s| == 14 && AllDigits(s) && IsClockReading(t)
    requires t == DateTime(DigitsValue(s[0..4]), DigitsValue(s[4..6]), DigitsValue(s[6..8]),
                           DigitsValue(s[8..10]), DigitsValue(s[10..12]), DigitsValue(s[12..14]))
    ensures FormatTimestamp(t) == s
  {
    PadField(s[0..4], t.year);
    PadField(s[4..6], t.month);
    PadField(s[6..8], t.day);
    PadField(s[8..10], t.hour);
    PadField(s[10..12], t.minute);
    PadField(s[12..14], t.second);
    FormatFromFields(t, s);
  }

  /** One field read by `strptime` is padded back to its own text. */
  lemma PadField(x: string, v: nat)
    requires AllDigits(x) && v == DigitsValue(x)
    ensures v < Pow10(|x|) && PadNat(v, |x|) == x
  {
    PadDigits(x);
  }

  /** `strftime` writes the six padded fields one after the other. */
  lemma FormatFromFields(t: DateTime, s: string)
    requires IsClockReading(t) && |s| == 14
    requires PadNat(t.year, 4) == s[0..4] && PadNat(t.month, 2) == s[4..6] && PadNat(t.day, 2) == s[6..8]
    requires PadNat(t.hour, 2) == s[8..10] && PadNat(t.minute, 2) == s[10..12] && PadNat(t.second, 2) == s[12..14]
    ensures FormatTimestamp(t) == s
  {
    assert FormatTimestamp(t) == s[0..4] + s[4..6] + s[6..8] + s[8..10] + s[10..12] + s[12..14];
    assert s[0..4] + s[4..6] == s[0..6];
    assert s[0..6] + s[6..8] == s[0..8];
    assert s[0..8] + s[8..10] == s[0..10];
    assert s[0..10] + s[10..12] == s[0..12];
    assert s[0..12] + s[12..14] == s[0..14] == s;
  }

  // -----------------------------------------------------------------------
  // Confirmation codes
  // -----------------------------------------------------------------------

  datatype TransactionKind = Deposit | Withdraw | Interest | Rejected

  /** `Account._transaction_codes`. */
  function TransactionCode(kind: TransactionKind): (code: string)
    ensures |code| == 1 && '-' !in code
  {
    match kind
    case Deposit => "D"
    case Withdraw => "W"
    case Interest => "I"
    case Rejected => "X"
  }

  /** The text `generate_confirmation_code` returns for the counter value `transactionId`. */
  function ConfirmationCode(transactionCode: string, accountNumber: string, now: DateTime, transactionId: nat): string
    requires IsClockReading(now)
  {
    transactionCode + "-" + accountNumber + "-" + FormatTimestamp(now) + "-" + NatToString(transactionId)
  }

  /** A code is its four fields joined with `-`. */
  lemma ConfirmationCodeFields(transactionCode: string, accountNumber: string, now: DateTime, transactionId: nat)
    requires IsClockReading(now)
    ensures ConfirmationCode(transactionCode, accountNumber, now, transactionId)
         == Join([transactionCode, accountNumber, FormatTimestamp(now), NatToString(transactionId)], '-')
  {
    var ts, id := FormatTimestamp(now), NatToString(transactionId);
    var fields := [transactionCode, accountNumber, ts, id];
    assert fields[1..] == [accountNumber, ts, id] && fields[1..][1..] == [ts, id] && [ts, id][1..] == [id];
    assert Join([ts, id], '-') == ts + ['-'] + id;
    assert Join([accountNumber, ts, id], '-') == accountNumber + ['-'] + (ts + ['-'] + id);
    assert Join(fields, '-') == transactionCode + ['-'] + (accountNumber + ['-'] + (ts + ['-'] + id));
  }

  /**
   * The `Confirmation` record. `displayZone` is the zone the record's
   * `time` text is rendered in; the rendering itself is not modelled.
   */
  datatype Confirmation = Confirmation(
    accountNumber: string,
    transactionCode: string,
    transactionId: string,
    timeUtc: DateTime,
    displayZone: TimeZone)

  /** The minute of the day a reading falls in. */
  function MinuteOfDay(t: DateTime): int
  {
    t.hour * 60 + t.minute
  }

  /**
   * `t + timedelta(minutes=offset)` stays within `datetime`'s range, years
   * 1 to 9999. A valid zone's offset is less than a day, so only a reading
   * on the first or the last day of that range can be shifted out of it.
   */
  predicate ShiftInRange(t: DateTime, offset: int)
  {
    && !(t.year == 1 && t.month == 1 && t.day == 1 && MinuteOfDay(t) + offset < 0)
    && !(t.year == 9999 && t.month == 12 && t.day == 31 && MinuteOfDay(t) + offset >= 24 * 60)
  }

  /** The zone a parsed confirmation is displayed in: the preferred one, or UTC. */
  function DisplayZone(preferredTimeZone: Option<TimeZone>): TimeZone
  {
    if preferredTimeZone.None? then UTC else preferredTimeZone.value
  }

  /**
   * The last step of a parse: the instant shifted into the display zone,
   * which fails as `datetime + timedelta` does when it leaves years 1 to 9999.
   */
  function ConfirmationFrom(parts: seq<string>, dt: DateTime, zone: TimeZone): (r: Result<Confirmation, Error>)
    requires |parts| == 4
    ensures r.Success? <==> ShiftInRange(dt, zone.Offset())
    ensures r.Failure? ==> r.error == DateOutOfRange
    ensures r.Success? ==> r.value == Confirmation(parts[1], parts[0], parts[3], dt, zone)
  {
    if ShiftInRange(dt, zone.Offset()) then Success(Confirmation(parts[1], parts[0], parts[3], dt, zone))
    else Failure(DateOutOfRange)
  }

  /**
   * `Account.parse_confirmation_code(code, preferred_time_zone)`. Every
   * `TimeZone` object passed the constructor's checks, hence the
   * precondition on the preferred zone.
   */
  function ParseConfirmationCode(code: string, preferredTimeZone: Option<TimeZone>): (r: Result<Confirmation, Error>)
    requires preferredTimeZone.Some? ==> preferredTimeZone.value.Valid()
    ensures |Split(code, '-')| != 4 ==> r == Failure(InvalidConfirmationCode)
    ensures |Split(code, '-')| == 4 && ParseTimestamp(Split(code, '-')[2]).None? ==>
      r == Failure(InvalidTransactionDatetime)
    ensures |Split(code, '-')| == 4 && ParseTimestamp(Split(code, '-')[2]).Some? ==>
      && (r.Success? <==> ShiftInRange(ParseTimestamp(Split(code, '-')[2]).value, DisplayZone(preferredTimeZone).Offset()))
      && (r.Failure? ==> r.error == DateOutOfRange)
    ensures r.Success? ==>
      && code == Join([r.value.transactionCode, r.value.accountNumber, Split(code, '-')[2], r.value.transactionId], '-')
      && ParseTimestamp(Split(code, '-')[2]) == Some(r.value.timeUtc)
      && r.value.displayZone == DisplayZone(preferredTimeZone)
  {
    var parts := Split(code, '-');
    if |parts| != 4 then
      Failure(InvalidConfirmationCode)
    else
      var parsed := ParseTimestamp(parts[2]);
      if parsed.None? then Failure(InvalidTransactionDatetime)
      else
        assert parts == [parts[0], parts[1], parts[2], parts[3]];
        ConfirmationFrom(parts, parsed.value, DisplayZone(preferredTimeZone))
  }

  /** "Invalid confirmation code" is the outcome exactly when `split('-')` does not give four fields. */
  lemma InvalidCodeExactlyForFieldCount(code: string, preferredTimeZone: Option<TimeZone>)
    requires preferredTimeZone.Some? ==> preferredTimeZone.value.Valid()
    ensures |Split(code, '-')| != 4 <==> ParseConfirmationCode(code, preferredTimeZone) == Failure(InvalidConfirmationCode)
  {
  }

  /** The four fields of a minted code are what `split('-')` recovers, given no `-` in the first two. */
  lemma ConfirmationCodeSplits(transactionCode: string, accountNumber: string, now: DateTime, transactionId: nat)
    requires IsClockReading(now)
    requires '-' !in transactionCode && '-' !in accountNumber
    ensures Split(ConfirmationCode(transactionCode, accountNumber, now, transactionId), '-')
         == [transactionCode, accountNumber, FormatTimestamp(now), NatToString(transactionId)]
  {
    var fields := [transactionCode, accountNumber, FormatTimestamp(now), NatToString(transactionId)];
    assert NoSeparator(fields, '-') by {
      assert '-' !in fields[2] && '-' !in fields[3];
    }
    ConfirmationCodeFields(transactionCode, accountNumber, now, transactionId);
    SplitJoin(fields, '-');
  }

  /**
   * Round trip: when neither the transaction code nor the account number
   * contains `-`, parsing a minted code succeeds exactly when the instant
   * can be shifted into the display zone, and then returns the same
   * transaction code, account number, instant and counter text. Otherwise
   * the shift overflows.
   */
  lemma ConfirmationCodeRoundTrip(transactionCode: string, accountNumber: string, now: DateTime,
                                  transactionId: nat, preferredTimeZone: Option<TimeZone>)
    requires IsClockReading(now)
    requires '-' !in transactionCode && '-' !in accountNumber
    requires preferredTimeZone.Some? ==> preferredTimeZone.value.Valid()
    ensures var r := ParseConfirmationCode(ConfirmationCode(transactionCode, accountNumber, now, transactionId), preferredTimeZone);
      && (r.Success? <==> ShiftInRange(now, DisplayZone(preferredTimeZone).Offset()))
      && (r.Failure? ==> r.error == DateOutOfRange)
      && (r.Success? ==>
            && r.value.transactionCode == transactionCode
            && r.value.accountNumber == accountNumber
            && r.value.timeUtc == now
            && r.value.transactionId == NatToString(transactionId)
            && r.value.displayZone == DisplayZone(preferredTimeZone))
  {
    var code := ConfirmationCode(transactionCode, accountNumber, now, transactionId);
    var parts := Split(code, '-');
    assert |parts| == 4 && parts[0] == transactionCode && parts[1] == accountNumber
      && parts[3] == NatToString(transactionId) && ParseTimestamp(parts[2]) == Some(now) by {
      ConfirmationCodeSplits(transactionCode, accountNumber, now, transactionId);
      TimestampRoundTrip(now);
    }
  }

  /** Without a preferred zone the shift is zero, so a minted code is always read back. */
  lemma UtcParseNeverOverflows(transactionCode: string, accountNumber: string, now: DateTime, transactionId: nat)
    requires IsClockReading(now)
    requires '-' !in transactionCode && '-' !in accountNumber
    ensures ParseConfirmationCode(ConfirmationCode(transactionCode, accountNumber, now, transactionId), None).Success?
  {
    ConfirmationCodeRoundTrip(transactionCode, accountNumber, now, transactionId, None);
  }

  /**
   * A code minted on the last day of the year 9999 cannot be shown in a zone
   * far enough ahead to carry the instant past midnight: the shifted instant
   * leaves `datetime`'s range (for example 23:30 UTC shown at UTC+14).
   */
  lemma LastDayShiftOverflows(transactionCode: string, accountNumber: string, now: DateTime,
                              transactionId: nat, zone: TimeZone)
    requires IsClockReading(now) && now.year == 9999 && now.month == 12 && now.day == 31
    requires '-' !in transactionCode && '-' !in accountNumber
    requires zone.Valid() && MinuteOfDay(now) + zone.Offset() >= 24 * 60
    ensures ParseConfirmationCode(ConfirmationCode(transactionCode, accountNumber, now, transactionId), Some(zone))
         == Failure(DateOutOfRange)
  {
    ConfirmationCodeRoundTrip(transactionCode, accountNumber, now, transactionId, Some(zone));
  }

  /**
   * The round trip needs its precondition: a code minted for an account
   * number containing `-` splits into more than four fields, and parsing
   * rejects it.
   */
  lemma DashInAccountNumberBreaksParse(transactionCode: string, accountNumber: string, now: DateTime,
                                       transactionId: nat, preferredTimeZone: Option<TimeZone>)
    requires IsClockReading(now)
    requires '-' !in transactionCode && '-' in accountNumber
    requires preferredTimeZone.Some? ==> preferredTimeZone.value.Valid()
    ensures ParseConfirmationCode(ConfirmationCode(transactionCode, accountNumber, now, transactionId), preferredTimeZone)
         == Failure(InvalidConfirmationCode)
  {
    var code := ConfirmationCode(transactionCode, accountNumber, now, transactionId);
    var ts, id := FormatTimestamp(now), NatToString(transactionId);
    assert '-' !in ts && '-' !in id;
    assert multiset(code)['-'] == 3 + multiset(accountNumber)['-'];
    SplitCount(code, '-');
  }

  /**
   * Codes carrying different counter values differ, whatever their other
   * fields: the counter is the text after the last `-`.
   */
  lemma DistinctCountersDistinctCodes(c1: string, a1: string, t1: DateTime, n1: nat,
                                      c2: string, a2: string, t2: DateTime, n2: nat)
    requires IsClockReading(t1) && IsClockReading(t2)
    requires n1 != n2
    ensures ConfirmationCode(c1, a1, t1, n1) != ConfirmationCode(c2, a2, t2, n2)
  {
    var s1, s2 := NatToString(n1), NatToString(n2);
    var p1 := c1 + "-" + a1 + "-" + FormatTimestamp(t1);
    var p2 := c2 + "-" + a2 + "-" + FormatTimestamp(t2);
    assert ConfirmationCode(c1, a1, t1, n1) == p1 + ['-'] + s1;
    assert ConfirmationCode(c2, a2, t2, n2) == p2 + ['-'] + s2;
    if p1 + ['-'] + s1 == p2 + ['-'] + s2 {
      assert '-' !in s1 && '-' !in s2;
      LastFieldDetermined(p1, s1, p2, s2, '-');
      NatToStringInjective(n1, n2);
    }
  }

  // -----------------------------------------------------------------------
  // Accounts
  // -----------------------------------------------------------------------

  /** The interest `pay_interest` credits: `balance * rate / 100`, the rate being a percentage. */
  function InterestOn(balance: real, rate: real): real
  {
    balance * rate / 100.0
  }

  /** Interest at a non-negative rate on a non-negative balance is never negative. */
  lemma InterestNonNegative(balance: real, rate: real)
    requires balance >= 0.0 && rate >= 0.0
    ensures InterestOn(balance, rate) >= 0.0
  {
    assert balance * rate >= 0.0;
  }

  /** `Account.validate_real_number(value, min_value)`. */
  function ValidateRealNumber(value: real, minValue: Option<real>): (r: Result<real, Error>)
    ensures r.Success? <==> minValue.None? || value >= minValue.value
    ensures r.Success? ==> r.value == value
    ensures r.Failure? ==> r.error == LessThanMin(minValue.value)
  {
    if minValue.Some? && value < minValue.value then Failure(LessThanMin(minValue.value)) else Success(value)
  }

  /** The smallest amount `deposit` and `withdraw` accept. */
  const MinimumAmount: real := 0.01

  /** The name properties `validate_and_set_name` stores into. */
  datatype NameField = FirstName | LastName
  {
    function Title(): string
    {
      match this
      case FirstName => "First Name"
      case LastName => "Last Name"
    }
  }

  /** The attributes of the class `Account` itself, shared by all its instances. */
  class AccountClass {
    /** `_interest_rate`, a percentage. */
    var interestRate: real
    /** The value the next `next(transaction_counter)` returns. */
    var transactionCounter: nat

    predicate Valid()
      reads this
    {
      interestRate >= 0.0
    }

    constructor ()
      ensures Valid()
      ensures interestRate == 0.5 && transactionCounter == 0
    {
      interestRate := 0.5;
      transactionCounter := 0;
    }

    /** `Account.set_interest_rate(value)`: one rate for every account. */
    method SetInterestRate(value: real) returns (r: Outcome<Error>)
      modifies this`interestRate
      ensures r.Pass? <==> value >= 0.0
      ensures r.Fail? ==> r.error == NegativeInterestRate
      ensures interestRate == if r.Pass? then value else old(interestRate)
      ensures old(Valid()) ==> Valid()
    {
      if value < 0.0 {
        return Fail(NegativeInterestRate);
      }
      interestRate := value;
      r := Pass;
    }

    /** `next(Account.transaction_counter)`: 0, 1, 2, ... in call order. */
    method NextTransactionId() returns (id: nat)
      modifies this`transactionCounter
      ensures id == old(transactionCounter)
      ensures transactionCounter == id + 1
    {
      id := transactionCounter;
      transactionCounter := transactionCounter + 1;
    }
  }

  class Account {
    const cls: AccountClass
    const accountNumber: string
    var firstName: string
    var lastName: string
    var timezone: TimeZone
    var balance: real

    /** The account invariant: named holder, valid zone, balance never negative. */
    predicate Valid()
      reads this, cls
    {
      && !IsBlank(firstName) && !IsBlank(lastName)
      && timezone.Valid()
      && balance >= 0.0
      && cls.Valid()
    }

    constructor Init(cls: AccountClass, accountNumber: string, firstName: string, lastName: string,
                     timezone: TimeZone, balance: real)
      ensures this.cls == cls && this.accountNumber == accountNumber
      ensures this.firstName == firstName && this.lastName == lastName
      ensures this.timezone == timezone && this.balance == balance
    {
      this.cls := cls;
      this.accountNumber := accountNumber;
      this.firstName := firstName;
      this.lastName := lastName;
      this.timezone := timezone;
      this.balance := balance;
    }

    /**
     * `Account(account_number, first_name, last_name, timezone, initial_balance)`:
     * names are checked first, then the balance; `None` means UTC.
     */
    static method Create(cls: AccountClass, accountNumber: string, firstName: string, lastName: string,
                         timezone: Option<TimeZone>, initialBalance: real) returns (r: Result<Account, Error>)
      requires cls.Valid()
      requires timezone.Some? ==> timezone.value.Valid()
      ensures r.Success? <==> !IsBlank(firstName) && !IsBlank(lastName) && initialBalance >= 0.0
      ensures r.Failure? ==>
                r.error == (if IsBlank(firstName) then EmptyName("First Name")
                            else if IsBlank(lastName) then EmptyName("Last Name")
                            else LessThanMin(0.0))
      ensures r.Success? ==>
        && fresh(r.value) && r.value.Valid()
        && r.value.cls == cls && r.value.accountNumber == accountNumber
        && r.value.firstName == firstName && r.value.lastName == lastName
        && r.value.timezone == (if timezone.None? then UTC else timezone.value)
        && r.value.balance == initialBalance
    {
      if IsBlank(firstName) {
        return Failure(EmptyName(FirstName.Title()));
      }
      if IsBlank(lastName) {
        return Failure(EmptyName(LastName.Title()));
      }
      var zone := if timezone.None? then UTC else timezone.value;
      var checked := ValidateRealNumber(initialBalance, Some(0.0));
      if checked.Failure? {
        return Failure(checked.error);
      }
      var a := new Account.Init(cls, accountNumber, firstName, lastName, zone, checked.value);
      r := Success(a);
    }

    /** `validate_and_set_name(property_name, value, field_title)`. */
    method ValidateAndSetName(field: NameField, value: string) returns (r: Outcome<Error>)
      requires Valid()
      modifies this`firstName, this`lastName
      ensures Valid()
      ensures r.Pass? <==> !IsBlank(value)
      ensures r.Fail? ==> r.error == EmptyName(field.Title())
      ensures firstName == if r.Pass? && field == FirstName then value else old(firstName)
      ensures lastName == if r.Pass? && field == LastName then value else old(lastName)
    {
      if IsBlank(value) {
        return Fail(EmptyName(field.Title()));
      }
      if field == FirstName {
        firstName := value;
      } else {
        lastName := value;
      }
      r := Pass;
    }

    /** `full_name`: the first name, one space, the last name. */
    function FullName(): (r: string)
      reads this
      ensures |r| == |firstName| + 1 + |lastName|
      ensures r[..|firstName|] == firstName && r[|firstName|] == ' ' && r[|firstName| + 1..] == lastName
    {
      firstName + " " + lastName
    }

    /** `generate_confirmation_code(transaction_code)`: draws the next counter value. */
    method GenerateConfirmationCode(transactionCode: string, now: DateTime) returns (code: string)
      requires IsClockReading(now)
      modifies cls`transactionCounter
      ensures code == ConfirmationCode(transactionCode, accountNumber, now, old(cls.transactionCounter))
      ensures cls.transactionCounter == old(cls.transactionCounter) + 1
    {
      var id := cls.NextTransactionId();
      code := transactionCode + "-" + accountNumber + "-" + FormatTimestamp(now) + "-" + NatToString(id);
    }

    /** `deposit(value)`: always accepted once the amount is at least one cent. */
    method Deposit(value: real, now: DateTime) returns (r: Result<string, Error>)
      requires Valid() && IsClockReading(now)
      modifies this`balance, cls`transactionCounter
      ensures Valid()
      ensures r.Success? <==> value >= MinimumAmount
      ensures r.Failure? ==>
        && r.error == LessThanMin(MinimumAmount)
        && balance == old(balance) && cls.transactionCounter == old(cls.transactionCounter)
      ensures r.Success? ==>
        && balance == old(balance) + value
        && r.value == ConfirmationCode(TransactionCode(TransactionKind.Deposit), accountNumber, now, old(cls.transactionCounter))
        && cls.transactionCounter == old(cls.transactionCounter) + 1
    {
      var checked := ValidateRealNumber(value, Some(MinimumAmount));
      if checked.Failure? {
        return Failure(checked.error);
      }
      var code := GenerateConfirmationCode(TransactionCode(TransactionKind.Deposit), now);
      balance := balance + checked.value;
      r := Success(code);
    }

    /**
     * `withdraw(value)`: an amount the balance cannot cover is rejected
     * with an `X` code and leaves the balance alone; it is not an error.
     */
    method Withdraw(value: real, now: DateTime) returns (r: Result<string, Error>)
      requires Valid() && IsClockReading(now)
      modifies this`balance, cls`transactionCounter
      ensures Valid()
      ensures r.Success? <==> value >= MinimumAmount
      ensures r.Failure? ==>
        && r.error == LessThanMin(MinimumAmount)
        && balance == old(balance) && cls.transactionCounter == old(cls.transactionCounter)
      ensures r.Success? ==>
        var accepted := old(balance) - value >= 0.0;
        && balance == (if accepted then old(balance) - value else old(balance))
        && r.value == ConfirmationCode(TransactionCode(if accepted then TransactionKind.Withdraw else TransactionKind.Rejected),
                                       accountNumber, now, old(cls.transactionCounter))
        && cls.transactionCounter == old(cls.transactionCounter) + 1
    {
      var checked := ValidateRealNumber(value, Some(MinimumAmount));
      if checked.Failure? {
        return Failure(checked.error);
      }
      var accepted := false;
      var transactionCode;
      if balance - checked.value < 0.0 {
        transactionCode := TransactionCode(TransactionKind.Rejected);
      } else {
        transactionCode := TransactionCode(TransactionKind.Withdraw);
        accepted := true;
      }
      var code := GenerateConfirmationCode(transactionCode, now);
      if accepted {
        balance := balance - checked.value;
      }
      r := Success(code);
    }

    /** `pay_interest()`: adds `balance * rate / 100` at the shared rate of the moment. */
    method PayInterest(now: DateTime) returns (code: string)
      requires Valid() && IsClockReading(now)
      modifies this`balance, cls`transactionCounter
      ensures Valid()
      ensures balance == old(balance) + InterestOn(old(balance), cls.interestRate)
      ensures balance >= old(balance)
      ensures code == ConfirmationCode(TransactionCode(TransactionKind.Interest), accountNumber, now, old(cls.transactionCounter))
      ensures cls.transactionCounter == old(cls.transactionCounter) + 1
    {
      var interest := InterestOn(balance, cls.interestRate);
      InterestNonNegative(balance, cls.interestRate);
      code := GenerateConfirmationCode(TransactionCode(TransactionKind.Interest), now);
      balance := balance + interest;
    }
  }

  /**
   * The transactions of test_account.py on an account holding 100.00: an
   * overdraw is rejected with an `X` code and leaves the balance alone, a
   * deposit and a withdrawal go through, and a negative deposit raises.
   */
  method AccountScenario(a: Account, now: DateTime)
    requires a.Valid() && a.balance == 100.0 && IsClockReading(now)
    modifies a, a.cls
  {
    var n := a.cls.transactionCounter;
    var overdraw := a.Withdraw(200.0, now);
    assert a.balance == 100.0;
    var deposit := a.Deposit(100.0, now);
    assert a.balance == 200.0;
    var withdrawal := a.Withdraw(20.0, now);
    assert a.balance == 180.0;
    var rejected := a.Deposit(-100.0, now);
    assert rejected == Failure(LessThanMin(MinimumAmount)) && a.balance == 180.0;
  }
}
