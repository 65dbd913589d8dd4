# oop-python core, modelled in Dafny

This project models six small object-oriented Python components of the
`oop-python` repository and proves what each of them promises:

- **Bank accounts** (`bank-account/account.py`). A `TimeZone` checks its
  name and offset. An `Account` keeps a non-negative balance through
  deposit, withdraw and pay-interest. Each transaction mints a
  confirmation code `CODE-ACCOUNT-YYYYMMDDHHMMSS-N` from a counter shared
  by all accounts, and `parse_confirmation_code` reads the code back.
  Module `BankAccount` in `account.dfy`.
- **Inventory** (`inventory-manangement/app/inventory.py`). A `Resource`
  counts its `total` and `allocated` items and keeps
  `0 <= allocated <= total`. The `CPU`, `Storage`, `HDD` and `SSD`
  subclasses add checked attributes. Module `Inventory` in `inventory.dfy`.
- **Modular arithmetic** (`modular-arithmetic/app/mod.py`). A `Mod` keeps
  a residue in `[0, modulus)`. It compares and computes with integers and
  with other `Mod`s of the same modulus, either building a new object or
  updating itself in place. Module `Modular` in `mod.dfy`.
- **Validating descriptors** (`validator-descriptor/validator.py`).
  Integer-range and string-length validators guard the attributes of an
  instance. Module `Validators` in `validator.dfy`.
- **Value converters** (`web-scraper/app/converter.py`). `IntConverter`
  reads integers, and optionally boolean words, out of scraped values.
  `StrAlnumConverter` keeps only the ASCII letters and digits of a string.
  Module `Converters` in `converter.dfy`.
- **Exception enumeration**
  (`exception-enumerator/app/appexception.py`). Each member of
  `AppException` carries a code, an exception class and a default
  message, and `throw` raises `"{code} - {message}"`. Module
  `AppExceptions` in `appexception.dfy`.

Shared support modules:

- `Wrappers` (`wrappers.dfy`): `Option`, `Result` and `Outcome`.
- `Values` (`values.dfy`): the dynamically typed Python values that the
  validators, converters and `throw` inspect.
- `Text` (`text.dfy`): the string built-ins the core relies on —
  `str.strip`, `str.split`, `str.casefold`, decimal digits and
  zero-padded numbers.

How the model represents the source:

- A raised exception is an error value in a `Result`/`Outcome`, one
  constructor per message.
- State that the source changes in place is a Dafny `class`: `Account`
  and the class-wide `AccountClass`, `Resource`, `Mod`, the descriptor's
  `Instance`, and the converters. The values these classes compute are
  specified by functions, and the lemmas about those functions state the
  round trips, inverses and invariants.
- The wall clock is a parameter: every account operation takes the
  current UTC instant `now`.

Where the code does less than its own comments say, the model follows the code:

- The comment on `TimeZone.__init__` (`bank-account/account.py:34`) says
  the sign of the minutes will be set to the sign of the hours. The code
  never does so: it checks only that the minutes lie in `[-59, 59]` and
  that the combined offset lies in `[-12:00, +14:00]`.
  `TimeZone("ABC", 1, -30)` is accepted with an offset of +0:30
  (`bank-account/test_account.py` builds it), and `NewTimeZone` accepts
  it too.
- `Mod ** n` reduces the exponent `n` modulo the modulus before raising,
  as `_get_residue` does for every operand. So `Mod(10, 3) ** 14` has
  residue 1, not `3**14 % 10 == 9`. This is modelled as written, and
  `PowReducesExponent` exhibits it.

## Model

| member | source | states |
|---|---|---|
| Text.Strip | bank-account/account.py:26-28 | `str.strip()`: the result is no longer than the input, and neither of its ends is whitespace |
| Text.StripSurrounded | bank-account/account.py:28 | stripping whitespace from around a trimmed text gives exactly that text |
| Text.StripDecompose | web-scraper/app/converter.py:124 | every string is whitespace, then its stripped form, then whitespace |
| Text.StripTrimmed | bank-account/account.py:28 | a text with no whitespace at its ends is unchanged by `strip` |
| Text.StripIdempotent | bank-account/account.py:28 | stripping twice is stripping once |
| Text.BlankIffAllSpace | bank-account/account.py:143 | a text strips to nothing exactly when it is all whitespace |
| Text.Split | bank-account/account.py:302 | `split('-')`: at least one field, no field holds the separator, and joining the fields with it gives the input back |
| Text.SplitCount | bank-account/account.py:302-303 | `split` yields one more field than there are separators in the text |
| Text.JoinInjective | bank-account/account.py:302 | joining separator-free fields is injective, so `split` is the unique inverse of `join` |
| Text.SplitJoin | bank-account/account.py:302 | splitting a join of separator-free fields gives those fields back |
| Text.NatToString | bank-account/account.py:283 | decimal text of a counter: at least one digit, no leading zero unless it is 0, and its value is the number |
| Text.NatToStringInjective | bank-account/account.py:283 | distinct numbers have distinct decimal texts |
| Text.PadNat | bank-account/account.py:282 | a zero-padded field of the given width whose digits denote the number |
| Text.PadDigits | bank-account/account.py:311 | a digit string is the zero-padded form of its own value at its own width |
| Text.DigitRunOf | exception-enumerator/app/appexception.py:69 | the leading digit run of digits followed by a non-digit is exactly those digits |
| BankAccount.NewTimeZone | bank-account/account.py:26-42 | accepts exactly a non-blank name, minutes in [-59, 59] and an offset in [-12:00, +14:00]; stores the stripped name; reports the first failing check in source order |
| BankAccount.NewTimeZoneComplete | bank-account/account.py:26-42 | every valid zone is accepted from its own fields and rebuilt unchanged |
| BankAccount.TimeZoneCreateExample | bank-account/test_account.py:22-25 | `TimeZone("ABC", -1, -30)` keeps its name and has offset -90 minutes |
| BankAccount.TimeZoneStripsName | bank-account/account.py:28 | the name `"  ABC "` is stored as `"ABC"` |
| BankAccount.TimeZoneRejectionExamples | bank-account/account.py:26-39 | a blank or missing name, 60 minutes and +14:01 are each refused with their own error, in check order |
| BankAccount.TimeZoneEqualityExamples | bank-account/account.py:62-74 | equality compares name, hours and minutes; zones differing in any of them are unequal, even with the same total offset |
| BankAccount.FormatTimestamp | bank-account/account.py:282 | `strftime("%Y%m%d%H%M%S")` of a clock reading is 14 ASCII digits |
| BankAccount.ParseTimestamp | bank-account/account.py:311-313 | `strptime` yields only valid calendar instants |
| BankAccount.TimestampRoundTrip | bank-account/account.py:282-313 | parsing a formatted instant gives the instant back |
| BankAccount.TimestampParsedFormat | bank-account/account.py:282-313 | formatting a parsed timestamp gives the text back |
| BankAccount.TransactionCode | bank-account/account.py:96-101 | each transaction kind's code is one character and contains no `-` |
| BankAccount.ConfirmationCodeFields | bank-account/account.py:283 | a confirmation code is its four fields joined with `-` |
| BankAccount.ConfirmationFrom | bank-account/account.py:321-324 | succeeds exactly when the instant shifted into the zone stays within years 1 to 9999, and otherwise fails as `datetime + timedelta` overflows |
| BankAccount.ParseConfirmationCode | bank-account/account.py:302-324 | fails with "invalid code" when `split('-')` does not give four fields; with four, fails with "invalid datetime" exactly when the third is no timestamp, and otherwise succeeds exactly when the shift into the display zone stays in range (an overflow otherwise); on success the fields re-join to the code, the time is the parsed third field, and the zone is the preferred one or UTC |
| BankAccount.InvalidCodeExactlyForFieldCount | bank-account/account.py:302-304 | "invalid confirmation code" is the outcome exactly when `split('-')` does not give four fields |
| BankAccount.ConfirmationCodeSplits | bank-account/account.py:283-303 | a minted code splits back into its four fields when the first two hold no `-` |
| BankAccount.ConfirmationCodeRoundTrip | bank-account/account.py:283-324 | parsing a minted code succeeds exactly when its instant can be shifted into the display zone, and then recovers the transaction code, account number, instant and counter text; otherwise the shift overflows |
| BankAccount.UtcParseNeverOverflows | bank-account/account.py:315-321 | without a preferred zone (UTC) every minted code parses |
| BankAccount.LastDayShiftOverflows | bank-account/account.py:315-321 | a code minted on 9999-12-31 fails to parse in a zone that carries it past midnight |
| BankAccount.DashInAccountNumberBreaksParse | bank-account/account.py:283-304 | an account number containing `-` makes the minted code unparseable |
| BankAccount.DistinctCountersDistinctCodes | bank-account/account.py:273-283 | codes minted with different counter values differ, whatever their other fields |
| BankAccount.InterestNonNegative | bank-account/account.py:378 | interest at a non-negative rate on a non-negative balance is non-negative |
| BankAccount.ValidateRealNumber | bank-account/account.py:263-271 | passes exactly when there is no minimum or the value reaches it, and then returns the value unchanged |
| BankAccount.AccountClass.constructor | bank-account/account.py:93-94 | the rate starts at 0.5 percent and the counter at 0 |
| BankAccount.AccountClass.SetInterestRate | bank-account/account.py:243-245 | a negative rate is refused and leaves the rate alone; otherwise it becomes the shared rate |
| BankAccount.AccountClass.NextTransactionId | bank-account/account.py:273-283 | returns the counter and advances it by one, so the ids drawn are 0, 1, 2, … |
| BankAccount.Account.Init | bank-account/account.py:103-121 | stores the given account number, names, zone and balance |
| BankAccount.Account.Create | bank-account/account.py:103-121 | succeeds exactly for non-blank names and a non-negative balance; errors in check order; a missing zone means UTC; the new account is valid |
| BankAccount.Account.ValidateAndSetName | bank-account/account.py:132-145 | a blank name is refused and changes nothing; otherwise only the named field changes |
| BankAccount.Account.FullName | bank-account/account.py:184-190 | the first name, one space, then the last name |
| BankAccount.Account.GenerateConfirmationCode | bank-account/account.py:273-283 | returns the code for the current counter value and advances the shared counter |
| BankAccount.Account.Deposit | bank-account/account.py:326-343 | amounts below 0.01 are refused with nothing changed; otherwise the balance grows by the amount and a `D` code is returned |
| BankAccount.Account.Withdraw | bank-account/account.py:345-369 | amounts below 0.01 are refused; an overdraw gets an `X` code with the balance untouched; otherwise the balance drops by the amount with a `W` code; the balance never goes negative |
| BankAccount.Account.PayInterest | bank-account/account.py:371-385 | the balance grows by `balance * rate / 100` at the shared rate, never decreases, and an `I` code is returned |
| Inventory.ValidateInteger | inventory-manangement/app/inventory.py:25-31 | passes exactly for values within the bounds; the minimum is checked before the maximum, and the custom maximum message is kept |
| Inventory.CheckCounts | inventory-manangement/app/inventory.py:25-32 | accepts exactly `0 <= allocated <= total`, checking `total` first |
| Inventory.AllocateCounts | inventory-manangement/app/inventory.py:102-115 | succeeds exactly for `1 <= count <= available`; keeps the invariant and the total; available drops by `count` |
| Inventory.FreeupCounts | inventory-manangement/app/inventory.py:117-131 | succeeds exactly for `1 <= count <= allocated`; keeps the invariant and the total; available grows by `count` |
| Inventory.DiedCounts | inventory-manangement/app/inventory.py:133-148 | succeeds exactly for `1 <= count <= allocated`; total and allocated both drop by `count`; available is unchanged |
| Inventory.PurchasedCounts | inventory-manangement/app/inventory.py:150-160 | succeeds exactly for `count >= 1`; total and available grow by `count` |
| Inventory.FreeupUndoesAllocate | inventory-manangement/app/inventory.py:102-131 | freeing what was just allocated restores the counters |
| Inventory.AllocateUndoesFreeup | inventory-manangement/app/inventory.py:102-131 | allocating what was just freed restores the counters |
| Inventory.PurchaseAllocateDieRestores | inventory-manangement/app/inventory.py:102-160 | buying `n`, allocating `n` and retiring `n` leaves the counters where they were |
| Inventory.AllocateAvailableBound | inventory-manangement/app/inventory.py:102-115 | all of the available items can be allocated, leaving none; one more is refused |
| Inventory.CheckDetails | inventory-manangement/app/inventory.py:166-280 | a subclass's own checks pass exactly for valid attributes, and report the first failing one in source order |
| Inventory.CheckResource | inventory-manangement/app/inventory.py:10-32 | passes exactly when the counters and the subclass attributes are valid; the base-class checks come first |
| Inventory.HddExamples | inventory-manangement/app/inventory.py:270-277 | sizes other than 2.5" and 3.5" and speeds outside [1000, 50000] are refused, after the capacity check |
| Inventory.Details.Category | inventory-manangement/app/inventory.py:71-77 | the class name in lower case; `"resource"` exactly for a plain `Resource` |
| Inventory.CategoryIdentifiesClass | inventory-manangement/app/inventory.py:71-77 | two resources share a category exactly when they come from the same class, so `cpu`, `storage`, `hdd`, `ssd` and `resource` are distinct |
| Inventory.Resource.Available | inventory-manangement/app/inventory.py:80-86 | `total - allocated`, never negative on a valid resource |
| Inventory.Resource.Init | inventory-manangement/app/inventory.py:22-32 | stores the given name, manufacturer, attributes and counters |
| Inventory.Resource.Create | inventory-manangement/app/inventory.py:10-32 | builds a valid resource exactly when all the constructor checks pass, and otherwise returns their first error |
| Inventory.Resource.Allocate | inventory-manangement/app/inventory.py:102-115 | the counters move as `AllocateCounts` says; a refused call changes nothing; the invariant holds |
| Inventory.Resource.Freeup | inventory-manangement/app/inventory.py:117-131 | the counters move as `FreeupCounts` says; a refused call changes nothing; the invariant holds |
| Inventory.Resource.Died | inventory-manangement/app/inventory.py:133-148 | the counters move as `DiedCounts` says; a refused call changes nothing; the invariant holds |
| Inventory.Resource.Purchased | inventory-manangement/app/inventory.py:150-160 | the counters move as `PurchasedCounts` says; a refused call changes nothing; the invariant holds |
| Modular.PowerBaseMod | modular-arithmetic/app/mod.py:154-155 | the base of a power may be reduced modulo `m` without changing the power's residue |
| Modular.NewMod | modular-arithmetic/app/mod.py:21-29 | succeeds exactly for a positive modulus; the stored residue lies in `[0, modulus)` and is congruent to the given one |
| Modular.GetResidue | modular-arithmetic/app/mod.py:83-99 | accepts exactly an integer or a `Mod` of the same modulus; the result is a residue in range, congruent to the integer or equal to the other residue |
| Modular.Equal | modular-arithmetic/app/mod.py:101-111 | for an integer: true exactly when it is congruent to this one; for a `Mod`: true exactly when the two are the same value |
| Modular.CongruentIffSameResidue | modular-arithmetic/app/mod.py:95-111 | `n mod m == r` exactly when `n - r` is divisible by `m` |
| Modular.Less | modular-arithmetic/app/mod.py:113-125 | compares this residue with the other's residue; incompatible operands are refused |
| Modular.OrderTotal | modular-arithmetic/app/mod.py:113-125 | for two `Mod`s of one modulus, exactly one of `<`, `==`, `>` holds |
| Modular.Negate | modular-arithmetic/app/mod.py:135-141 | the additive inverse: a valid value of the same modulus that sums with this one to 0, namely `(m - r) mod m` |
| Modular.Operate | modular-arithmetic/app/mod.py:143-159 | succeeds exactly when the operand is compatible; the result is a valid `Mod` of the same modulus; for an integer operand, `+ - *` agree with the same operation on the integer itself, modulo `m` |
| Modular.SubUndoesAdd | modular-arithmetic/app/mod.py:161-191 | `(a + x) - x == a` |
| Modular.PowOfConstructed | modular-arithmetic/app/mod.py:209-215 | `Mod(m, x) ** e` has residue `x ** (e mod m) mod m` |
| Modular.PowReducesExponent | modular-arithmetic/app/mod.py:209-215 | `Mod(10, 3) ** 14` has residue 1, while `3 ** 14 % 10` is 9 |
| Modular.ConstructionExamples | modular-arithmetic/tests/unit/test_mod.py:53-72 | construction reduces the residue, a non-positive modulus is refused, and equality, `<` and negation behave as in the tests |
| Modular.OperatorExamples | modular-arithmetic/tests/unit/test_mod.py:74-112 | `Mod(10, 3)` with 4, 14 or `Mod(10, 4)` gives 7, 9, 2 and 1 for `+ - * **` |
| Modular.Mod.Init | modular-arithmetic/app/mod.py:28-29 | the object holds the reduced value `NewMod` describes |
| Modular.Mod.Create | modular-arithmetic/app/mod.py:21-29 | fails exactly for a non-positive modulus; otherwise a fresh object holds the reduced value |
| Modular.Mod.OtherResidue | modular-arithmetic/app/mod.py:83-99 | reads the other operand's residue as `GetResidue` specifies |
| Modular.Mod.PerformOperation | modular-arithmetic/app/mod.py:143-159 | in place: this object takes the new value and is returned; otherwise a fresh object holds it and this one is unchanged; a refused operand changes nothing |
| Modular.Mod.Add | modular-arithmetic/app/mod.py:161-167 | a fresh `Mod` holding the sum; this object is unchanged |
| Modular.Mod.InPlaceAdd | modular-arithmetic/app/mod.py:169-175 | this object takes the sum and is returned |
| Modular.Mod.Sub | modular-arithmetic/app/mod.py:177-183 | a fresh `Mod` holding the difference; this object is unchanged |
| Modular.Mod.InPlaceSub | modular-arithmetic/app/mod.py:185-191 | this object takes the difference and is returned |
| Modular.Mod.Mul | modular-arithmetic/app/mod.py:193-199 | a fresh `Mod` holding the product; this object is unchanged |
| Modular.Mod.InPlaceMul | modular-arithmetic/app/mod.py:201-207 | this object takes the product and is returned |
| Modular.Mod.Pow | modular-arithmetic/app/mod.py:209-215 | a fresh `Mod` holding the power; this object is unchanged |
| Modular.Mod.InPlacePow | modular-arithmetic/app/mod.py:217-223 | this object takes the power and is returned |
| Validators.NewStringValidator | validator-descriptor/validator.py:85-93 | the minimum becomes `max(min or 0, 0)`, which is never negative and never None; the maximum is kept |
| Validators.Validate | validator-descriptor/validator.py:45-111 | the base validator accepts everything; the integer validator accepts exactly integers (bools included) within the bounds, the string validator exactly strings whose length is within them; the type is checked first, then the minimum (`LessThanMin` / `TooShort` with that bound), then the maximum (`GreaterThanMax` / `TooLong` with that bound); every error names the property |
| Validators.ClampInvisible | validator-descriptor/validator.py:92-111 | clamping the minimum changes no string validation outcome |
| Validators.StringValidatorExamples | validator-descriptor/test_validator.py:142-151 | bounds `(-10, 100)` become `(0, 100)`, and `(None, None)` becomes `(0, None)` |
| Validators.IntegerValidatorExamples | validator-descriptor/test_validator.py:29-42 | values outside [-10, 10], 10.5, `1+0j`, `"abc"` and a tuple are refused; `True` is accepted |
| Validators.Instance.constructor | validator-descriptor/validator.py:20-27 | the descriptors carry the distinct property names `__set_name__` records, and the instance's `__dict__` starts empty |
| Validators.Instance.Get | validator-descriptor/validator.py:29-43 | the stored value, or None before the first assignment; any stored value passed its validator |
| Validators.Instance.Set | validator-descriptor/validator.py:53-61 | validates first and stores only an accepted value; a rejected one leaves `__dict__` unchanged; every stored value stays valid |
| Converters.SignOf | web-scraper/app/converter.py:91 | the optional leading sign of a literal, and no sign exactly when the text does not start with `+` or `-` |
| Converters.ParseUnsigned | web-scraper/app/converter.py:91 | a parsed literal is well formed and writes out to the sign followed by the text read |
| Converters.ParseDecimal | web-scraper/app/converter.py:91 | a parsed literal is well formed and writes out to exactly the input |
| Converters.SignOfLiteral | web-scraper/app/converter.py:91 | the sign of a literal is read back from its text |
| Converters.UnsignedOfLiteral | web-scraper/app/converter.py:91 | the digits and point of a literal are read back as themselves |
| Converters.ParseText | web-scraper/app/converter.py:91 | parsing is the inverse of writing a literal out |
| Converters.BoolWord | web-scraper/app/converter.py:80-87 | true exactly for `t`/`true` and false exactly for `f`/`false`, after strip and casefold |
| Converters.ConvertInt | web-scraper/app/converter.py:78-98 | boolean words and bools give 1/0 only with the flag; ints give themselves; a float gives its value exactly when it has no fractional part; None, complex and other types give None; a string gives the integer part of its decimal literal exactly when that literal is integral |
| Converters.IntegerLiteral | web-scraper/app/converter.py:97-98 | an integer's literal is well formed and denotes that integer |
| Converters.IntegerTextTrimmed | web-scraper/app/converter.py:81 | an integer's text, with or without `.` or `.0`, has no whitespace at its ends |
| Converters.IntegerTextParses | web-scraper/app/converter.py:91-98 | such a text parses as an integral literal of that integer |
| Converters.ConvertIntegerText | web-scraper/app/converter.py:78-98 | round trip: an integer's text, optionally with `.` or `.0` and surrounding whitespace, converts back to the integer, with or without the flag |
| Converters.IntegerTextStrip | web-scraper/app/converter.py:81 | the whitespace around such a text is exactly what `strip` removes |
| Converters.IntegerTextNotWord | web-scraper/app/converter.py:81-87 | such a text never casefolds to a boolean word |
| Converters.ConvertIntRejections | web-scraper/tests/unit/test_converter.py:13-40 | 5.5, bools without the flag and a dict give None; -5.0 gives -5; `True` with the flag gives 1 |
| Converters.LiteralEnds | web-scraper/app/converter.py:91 | a literal starts with a sign, a digit or a point, and ends with a digit or a point |
| Converters.ConvertLiteral | web-scraper/app/converter.py:88-98 | a literal converts to its integer part when integral, and to None otherwise |
| Converters.ConvertFractionRejected | web-scraper/tests/unit/test_converter.py:29 | `"5.5"` gives None |
| Converters.LetterNotLiteral | web-scraper/app/converter.py:91-92 | text starting with a letter is no decimal literal |
| Converters.WordNotNumber | web-scraper/app/converter.py:88-92 | without the flag, a trimmed text starting with a letter converts to None |
| Converters.FlaggedWord | web-scraper/app/converter.py:79-87 | with the flag, a trimmed text that casefolds to a boolean word gives 1 or 0 |
| Converters.BoolWordsWithoutFlag | web-scraper/tests/unit/test_converter.py:36-39 | `"true"` without the flag gives None |
| Converters.TrueWordWithFlag | web-scraper/tests/unit/test_converter.py:49-53 | `"TRUE"` with the flag gives 1 |
| Converters.FalseWordWithFlag | web-scraper/tests/unit/test_converter.py:54-58 | `"False"` with the flag gives 0 |
| Converters.KeepAlnum | web-scraper/app/converter.py:124 | `re.sub("[^A-Za-z0-9]+", "", s)`: the result is all ASCII letters and digits, no longer than `s`, and equals `s` when `s` has nothing else |
| Converters.KeepAlnumConcat | web-scraper/app/converter.py:124 | the filter distributes over concatenation |
| Converters.KeepAlnumSpace | web-scraper/app/converter.py:124 | whitespace filters to nothing |
| Converters.KeepAlnumStrip | web-scraper/app/converter.py:124 | stripping before filtering makes no difference |
| Converters.ConvertAlnum | web-scraper/app/converter.py:117-126 | a string gives its letters and digits, anything else gives None |
| Converters.ConvertAlnumIdempotent | web-scraper/app/converter.py:117-126 | converting a converted value changes nothing |
| Converters.ConvertAlnumExamples | web-scraper/tests/unit/test_converter.py:70-84 | `" a "`, `"&a|"` and `"a\;"` give `"a"`; a list gives None |
| Converters.IntConverter.constructor | web-scraper/app/converter.py:59-67 | the flag is stored and the value is the conversion of the input |
| Converters.IntConverter.SetValue | web-scraper/app/converter.py:70-98 | after the setter, `value` is the conversion of the new input, None included |
| Converters.StrAlnumConverter.constructor | web-scraper/app/converter.py:109-115 | the value is the conversion of the input |
| Converters.StrAlnumConverter.SetValue | web-scraper/app/converter.py:117-126 | after the setter, `value` is the conversion of the new input |
| AppExceptions.MemberTable | exception-enumerator/app/appexception.py:22-25 | the four members have codes 100, 101, 200 and 201 with their classes; no member raises `TypeError`; the member list is complete |
| AppExceptions.FromCode | exception-enumerator/app/appexception.py:42-54 | `AppException(code)` finds a member with that code, and finds none only when no member has it |
| AppExceptions.FromCodeOfCode | exception-enumerator/app/appexception.py:42-54 | every member is found again by its own code |
| AppExceptions.CodesDistinct | exception-enumerator/app/appexception.py:22-25 | equal codes mean the same member |
| AppExceptions.EffectiveMessage | exception-enumerator/app/appexception.py:68 | `message or self.message`: a non-empty string is used as given; None and `""` fall back to the default; the result is never empty |
| AppExceptions.Throw | exception-enumerator/app/appexception.py:56-69 | raises `TypeError("Message must be a string.")` exactly for a message that is neither None nor a string; otherwise raises the member's class with `"{code} - {message}"` |
| AppExceptions.LeadingCode | exception-enumerator/app/appexception.py:69 | a code is found only in a text that starts with a digit |
| AppExceptions.FormattedRoundTrip | exception-enumerator/app/appexception.py:69 | a formatted text gives back its code and its message |
| AppExceptions.ThrowIdentifiesMember | exception-enumerator/app/appexception.py:56-69 | the raised text's leading code finds the raising member again, and the rest is the message used |
| AppExceptions.ThrowDefaultExamples | exception-enumerator/test/unit/test_appexception.py:11-15 | `Timeout.throw(None)` and `Timeout.throw("")` raise `"101 - Timeout connecting to resource."` |
| AppExceptions.ThrowCustomExamples | exception-enumerator/test/unit/test_appexception.py:17-22 | a custom message is used as given, after the member's code |
| AppExceptions.ThrowInvalidExamples | exception-enumerator/test/unit/test_appexception.py:24-27 | an int or a tuple as the message raises `TypeError` |

Scenarios and helpers without a row: `Converters.FoldTrueUpper` and
`Converters.FoldFalseTitle` (case-folding steps of `ConvertInt`'s
examples), the method scenarios `BankAccount.AccountScenario`,
`Inventory.ResourceScenario`, `Validators.AgeScenario` and
`Modular.AliasedInPlaceAdd`, which run the classes' methods on concrete
objects, and the timestamp lemmas `ParsedFields`, `PadField`,
`ReadThenFormat` and `FormatFromFields` behind `TimestampParsedFormat`.

## Left out

- The clock: `datetime.utcnow()` becomes the parameter `now`. Clock readings are limited to years with four digits, because `strftime("%Y")` pads shorter years differently on different platforms.
- BankAccount.ParseTimestamp: reads only the canonical 14-digit form. `strptime` also takes one-digit fields and non-ASCII digits.
- The `time` field of a parsed confirmation (the instant shifted into the preferred zone and rendered as text) is not modelled; the model keeps only the zone chosen for it. `time_utc` is kept as a `DateTime` rather than its `isoformat()` text.
- The `isinstance` checks on integers, reals, names and `TimeZone` arguments are fixed by Dafny's static types. The `ValueError`s they raise are not modelled.
- Amounts, rates and balances are exact reals. Python's float rounding, including the rounding in `balance * rate / 100`, is not modelled.
- The raw property setters of `Mod` (`modulus`, `residue`) can store an unreduced residue. The model keeps the modulus constant and the residue reduced.
- `__repr__`, `__str__`, `__hash__` and `__int__` (text rendering and hashing) are not modelled.
- `app.utilities.validate_integer` (inventory) and `web-scraper/app/exception.py` are not part of this model. `Inventory.ValidateInteger` models the checks as the call sites use them.
- The descriptor's `__set_name__` and access through the owner class (`__get__` with no instance) are not modelled. An instance's descriptors are given with distinct names.
- Converters.ConvertInt: for strings it reads only plain decimal literals (sign, digits, optional point and fraction). `Decimal`'s exponents, underscores, `NaN`, `Infinity` and non-ASCII digits are not modelled, and neither are float infinities and NaN. `decimal.Decimal` also accepts `Decimal` instances and `(sign, digits, exponent)` tuples or lists, so `IntConverter((0, (4, 2), 0))` holds 42 and `IntConverter(Decimal("7"))` holds 7. `Value` has no constructor for either, and the `OtherValue`s that give None stand only for objects `decimal.Decimal` rejects.
- Text.CaseFold: covers ASCII letters and the long s (U+017F) only. That is enough to decide the boolean words, but not full Unicode case folding.
- The `loguru` logging in `converter.py` is not modelled; it does not affect the converted value.
- Concurrency on the shared transaction counter is not modelled; operations are sequential.
