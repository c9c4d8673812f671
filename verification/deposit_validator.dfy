/** `DepositAccountTransactionDataValidator`: field rules applied to an
    already-parsed deposit-account request. A blank body is refused before
    anything else; parameters the command does not accept are refused next;
    then every rule adds its errors to one list, and the request is refused
    exactly when that list is not empty. JSON parsing is not part of this
    model: a request carries each field already extracted (absent as `None`). */
module DepositValidator {
  import opened Results
  import opened Calendar
  import opened OperationUtils

  /** The request parameters the rules name. */
  datatype Param =
    | TransactionDate | TransactionAmount | PaymentTypeId
    | AccountNumber | CheckNumber | RoutingCode | ReceiptNumber | BankNumber
    | EffectiveDate | MandatoryRecommendedDepositAmount | ActivatedOnDate
    | ClosedOnDate | OnAccountClosureId | ToSavingsAccountId

  /** The rule a parameter failed. */
  datatype Rule =
    | NotNull
    | PositiveAmount
    | IntegerGreaterThanZero
    | NotExceedingLengthOf(max: nat)
    | NotBlank
    | OneOfTheseValues
    | CantBeBlankWhenParameterProvided
    | FailWithCode(code: string)

  datatype ValidationError = ValidationError(param: Param, rule: Rule)

  /** The exceptions the validator throws. */
  datatype Failure =
    | InvalidJson
    | UnsupportedParameters(names: seq<string>)
    | ValidationErrors(errors: seq<ValidationError>)

  /** `void` on success, the exception otherwise. */
  datatype Verdict = Accepted | Rejected(failure: Failure)

  /** The fields a request may carry, after extraction from its JSON body.
      `json` is the raw body (`None` for null) and `unsupported` the
      parameter names the command does not accept. */
  datatype Request = Request(
    json: Option<string>,
    unsupported: seq<string>,
    transactionDate: Option<Date>,
    transactionAmount: Option<Decimal>,
    paymentTypeId: Option<int>,
    accountNumber: Option<string>,
    checkNumber: Option<string>,
    routingCode: Option<string>,
    receiptNumber: Option<string>,
    bankNumber: Option<string>,
    effectiveDate: Option<Date>,
    mandatoryRecommendedDepositAmount: Option<Decimal>,
    activatedOnDate: Option<Date>,
    closedOnDate: Option<Date>,
    onAccountClosureId: Option<int>,
    toSavingsAccountId: Option<int>)

  /** The closure-type enumeration's integer values and the two values the
      closing rules single out. */
  datatype ClosureTypes = ClosureTypes(values: set<int>, transferToSavings: int, reinvest: int)

  const PaymentDetailMaxLength: nat := 50

  // ---------------------------------------------------------------------------
  // Blank bodies

  /** `Character.isWhitespace`. */
  predicate IsWhitespace(c: char)
  {
    ('\U{0009}' <= c <= '\U{000D}') || ('\U{001C}' <= c <= '\U{001F}') || c == ' '
    || c == '\U{1680}' || ('\U{2000}' <= c <= '\U{2006}') || ('\U{2008}' <= c <= '\U{200A}')
    || c == '\U{2028}' || c == '\U{2029}' || c == '\U{205F}' || c == '\U{3000}'
  }

  /** `StringUtils.isBlank`: null, empty, or whitespace only. */
  predicate IsBlank(json: Option<string>)
  {
    json.None? || forall i :: 0 <= i < |json.value| ==> IsWhitespace(json.value[i])
  }

  // ---------------------------------------------------------------------------
  // Java string measures

  /** Leading characters at or below U+0020 removed. */
  function TrimStart(s: string): (t: string)
    ensures |t| <= |s| && t == s[|s| - |t|..]
    ensures forall k :: 0 <= k < |s| - |t| ==> s[k] <= ' '
    ensures |t| > 0 ==> t[0] > ' '
  {
    if |s| > 0 && s[0] <= ' ' then TrimStart(s[1..]) else s
  }

  /** Trailing characters at or below U+0020 removed. */
  function TrimEnd(s: string): (t: string)
    ensures |t| <= |s| && t == s[..|t|]
    ensures forall k :: |t| <= k < |s| ==> s[k] <= ' '
    ensures |t| > 0 ==> t[|t| - 1] > ' '
  {
    if |s| > 0 && s[|s| - 1] <= ' ' then TrimEnd(s[..|s| - 1]) else s
  }

  /** `String.trim()`: the text between the first and the last character
      above U+0020. */
  function Trim(s: string): (t: string)
    ensures |t| <= |s|
    ensures |t| > 0 ==> t[0] > ' ' && t[|t| - 1] > ' '
  {
    TrimEnd(TrimStart(s))
  }

  /** `String.length()`: UTF-16 code units, two for a character outside the
      Basic Multilingual Plane. */
  function Utf16Length(s: string): (n: nat)
    ensures |s| <= n <= 2 * |s|
    ensures (forall k :: 0 <= k < |s| ==> s[k] as int <= 0xFFFF) ==> n == |s|
  {
    if |s| == 0 then 0
    else Utf16Length(s[..|s| - 1]) + (if s[|s| - 1] as int > 0xFFFF then 2 else 1)
  }

  // ---------------------------------------------------------------------------
  // The rules of `DataValidatorBuilder` the validator uses

  /** `notNull()`. */
  function Required<T>(p: Param, v: Option<T>): seq<ValidationError>
  {
    if v.None? then [ValidationError(p, NotNull)] else []
  }

  /** `notNull().positiveAmount()`: a missing amount fails only the first rule. */
  function RequiredPositive(p: Param, v: Option<Decimal>): seq<ValidationError>
  {
    if v.None? then [ValidationError(p, NotNull)]
    else if v.value.unscaled <= 0 then [ValidationError(p, PositiveAmount)]
    else []
  }

  /** `ignoreIfNull().integerGreaterThanZero()`. */
  function OptionalGreaterThanZero(p: Param, v: Option<int>): seq<ValidationError>
  {
    if v.Some? && v.value <= 0 then [ValidationError(p, IntegerGreaterThanZero)] else []
  }

  /** `ignoreIfNull().notExceedingLengthOf(max)`: the length measured is that
      of the trimmed value. */
  function OptionalMaxLength(p: Param, v: Option<string>, max: nat): seq<ValidationError>
  {
    if v.Some? && Utf16Length(Trim(v.value)) > max then [ValidationError(p, NotExceedingLengthOf(max))] else []
  }

  /** The payment-type and payment-detail rules shared by `validate` and
      `validateClosing`, the details in a fixed order. */
  function PaymentDetailErrors(r: Request): seq<ValidationError>
  {
    OptionalGreaterThanZero(PaymentTypeId, r.paymentTypeId)
    + OptionalMaxLength(AccountNumber, r.accountNumber, PaymentDetailMaxLength)
    + OptionalMaxLength(CheckNumber, r.checkNumber, PaymentDetailMaxLength)
    + OptionalMaxLength(RoutingCode, r.routingCode, PaymentDetailMaxLength)
    + OptionalMaxLength(ReceiptNumber, r.receiptNumber, PaymentDetailMaxLength)
    + OptionalMaxLength(BankNumber, r.bankNumber, PaymentDetailMaxLength)
  }

  /** A payment detail is absent, or at most 50 UTF-16 units once
      surrounding blanks and control characters are dropped. */
  predicate DetailFits(v: Option<string>)
  {
    v.None? || Utf16Length(Trim(v.value)) <= 50
  }

  predicate IsPaymentParam(p: Param)
  {
    p.PaymentTypeId? || p.AccountNumber? || p.CheckNumber? || p.RoutingCode? || p.ReceiptNumber? || p.BankNumber?
  }

  /** Every error the payment rules report names a payment parameter. */
  lemma PaymentDetailErrorParams(r: Request)
    ensures forall e :: e in PaymentDetailErrors(r) ==> IsPaymentParam(e.param)
  {
    var a := OptionalGreaterThanZero(PaymentTypeId, r.paymentTypeId);
    var b := OptionalMaxLength(AccountNumber, r.accountNumber, PaymentDetailMaxLength);
    var c := OptionalMaxLength(CheckNumber, r.checkNumber, PaymentDetailMaxLength);
    var d := OptionalMaxLength(RoutingCode, r.routingCode, PaymentDetailMaxLength);
    var f := OptionalMaxLength(ReceiptNumber, r.receiptNumber, PaymentDetailMaxLength);
    var g := OptionalMaxLength(BankNumber, r.bankNumber, PaymentDetailMaxLength);
    assert PaymentDetailErrors(r) == a + b + c + d + f + g;
    MaxLengthErrorParam(AccountNumber, r.accountNumber, PaymentDetailMaxLength);
    MaxLengthErrorParam(CheckNumber, r.checkNumber, PaymentDetailMaxLength);
    MaxLengthErrorParam(RoutingCode, r.routingCode, PaymentDetailMaxLength);
    MaxLengthErrorParam(ReceiptNumber, r.receiptNumber, PaymentDetailMaxLength);
    MaxLengthErrorParam(BankNumber, r.bankNumber, PaymentDetailMaxLength);
    forall e: ValidationError | e in a + b + c + d + f + g
      ensures IsPaymentParam(e.param)
    {
      assert e in a || e in b || e in c || e in d || e in f || e in g;
    }
  }

  lemma MaxLengthErrorParam(p: Param, v: Option<string>, max: nat)
    ensures forall e :: e in OptionalMaxLength(p, v, max) ==> e == ValidationError(p, NotExceedingLengthOf(max))
    ensures ValidationError(p, NotExceedingLengthOf(max)) in OptionalMaxLength(p, v, max)
            <==> v.Some? && Utf16Length(Trim(v.value)) > max
  {
  }

  /** The check-number length error is reported exactly for an over-long
      trimmed check number. */
  lemma CheckNumberLengthError(r: Request)
    ensures ValidationError(CheckNumber, NotExceedingLengthOf(50)) in PaymentDetailErrors(r)
            <==> r.checkNumber.Some? && Utf16Length(Trim(r.checkNumber.value)) > PaymentDetailMaxLength
  {
    MaxLengthErrorParam(AccountNumber, r.accountNumber, PaymentDetailMaxLength);
    MaxLengthErrorParam(CheckNumber, r.checkNumber, PaymentDetailMaxLength);
    MaxLengthErrorParam(RoutingCode, r.routingCode, PaymentDetailMaxLength);
    MaxLengthErrorParam(ReceiptNumber, r.receiptNumber, PaymentDetailMaxLength);
    MaxLengthErrorParam(BankNumber, r.bankNumber, PaymentDetailMaxLength);
  }

  /** Present-and-within-bounds reading of the payment rules. */
  predicate PaymentDetailsValid(r: Request)
  {
    && (r.paymentTypeId.None? || r.paymentTypeId.value > 0)
    && DetailFits(r.accountNumber)
    && DetailFits(r.checkNumber)
    && DetailFits(r.routingCode)
    && DetailFits(r.receiptNumber)
    && DetailFits(r.bankNumber)
  }

  lemma PaymentDetailErrorsEmptyIff(r: Request)
    ensures |PaymentDetailErrors(r)| == 0 <==> PaymentDetailsValid(r)
  {
  }

  /** `throwExceptionIfValidationWarningsExist`: refuses exactly when some
      error was collected, carrying all of them. */
  function ThrowIfErrors(errors: seq<ValidationError>): (v: Verdict)
    ensures v.Accepted? <==> |errors| == 0
    ensures v.Rejected? ==> v.failure == ValidationErrors(errors)
  {
    if |errors| == 0 then Accepted else Rejected(ValidationErrors(errors))
  }

  /** The steps every validate method takes first: a blank body, then an
      unsupported parameter, stops it before any field rule runs. */
  function Checked(r: Request, errors: seq<ValidationError>): Verdict
  {
    if IsBlank(r.json) then Rejected(InvalidJson)
    else if |r.unsupported| > 0 then Rejected(UnsupportedParameters(r.unsupported))
    else ThrowIfErrors(errors)
  }

  // ---------------------------------------------------------------------------
  // The validate methods

  function ValidateErrors(r: Request): seq<ValidationError>
  {
    Required(TransactionDate, r.transactionDate)
    + RequiredPositive(TransactionAmount, r.transactionAmount)
    + PaymentDetailErrors(r)
  }

  /** `validate`: a transaction date, a positive transaction amount, and the
      payment rules. */
  function Validate(r: Request): (v: Verdict)
    ensures IsBlank(r.json) ==> v == Rejected(InvalidJson)
    ensures !IsBlank(r.json) && |r.unsupported| > 0 ==> v == Rejected(UnsupportedParameters(r.unsupported))
    ensures !IsBlank(r.json) && |r.unsupported| == 0 ==>
              (v.Accepted? <==>
                 && r.transactionDate.Some?
                 && r.transactionAmount.Some? && r.transactionAmount.value.unscaled > 0
                 && PaymentDetailsValid(r))
    ensures v.Rejected? && v.failure.ValidationErrors? ==>
              (ValidationError(TransactionAmount, NotNull) in v.failure.errors <==> r.transactionAmount.None?)
  {
    PaymentDetailErrorsEmptyIff(r);
    Checked(r, ValidateErrors(r))
  }

  /** `validateDepositAmountUpdate`: an effective date and a positive
      mandatory recommended deposit amount. */
  function ValidateDepositAmountUpdate(r: Request): (v: Verdict)
    ensures IsBlank(r.json) ==> v == Rejected(InvalidJson)
    ensures !IsBlank(r.json) && |r.unsupported| > 0 ==> v == Rejected(UnsupportedParameters(r.unsupported))
    ensures !IsBlank(r.json) && |r.unsupported| == 0 ==>
              (v.Accepted? <==>
                 && r.effectiveDate.Some?
                 && r.mandatoryRecommendedDepositAmount.Some?
                 && r.mandatoryRecommendedDepositAmount.value.unscaled > 0)
  {
    Checked(r, Required(EffectiveDate, r.effectiveDate)
               + RequiredPositive(MandatoryRecommendedDepositAmount, r.mandatoryRecommendedDepositAmount))
  }

  /** `validateActivation`: an activation date. */
  function ValidateActivation(r: Request): (v: Verdict)
    ensures IsBlank(r.json) ==> v == Rejected(InvalidJson)
    ensures !IsBlank(r.json) && |r.unsupported| > 0 ==> v == Rejected(UnsupportedParameters(r.unsupported))
    ensures !IsBlank(r.json) && |r.unsupported| == 0 ==>
              (v.Accepted? <==> r.activatedOnDate.Some?)
    ensures v.Rejected? && v.failure.ValidationErrors? ==>
              v.failure.errors == [ValidationError(ActivatedOnDate, NotNull)]
  {
    Checked(r, Required(ActivatedOnDate, r.activatedOnDate))
  }

  /** `validatePreMatureAmountCalculation`: a closing date. */
  function ValidatePreMatureAmountCalculation(r: Request): (v: Verdict)
    ensures IsBlank(r.json) ==> v == Rejected(InvalidJson)
    ensures !IsBlank(r.json) && |r.unsupported| > 0 ==> v == Rejected(UnsupportedParameters(r.unsupported))
    ensures !IsBlank(r.json) && |r.unsupported| == 0 ==>
              (v.Accepted? <==> r.closedOnDate.Some?)
    ensures v.Rejected? && v.failure.ValidationErrors? ==>
              v.failure.errors == [ValidationError(ClosedOnDate, NotNull)]
  {
    Checked(r, Required(ClosedOnDate, r.closedOnDate))
  }

  /** The closure-type rules: present (`notBlank`), one of the enumeration's
      values (a missing value fails this rule too, since it is not told to
      ignore nulls), a target account for transfer-to-savings, and no
      reinvest on a premature close. */
  function ClosureErrors(r: Request, types: ClosureTypes, isPreMatureClose: bool): seq<ValidationError>
  {
    var id := r.onAccountClosureId;
    (if id.None? then [ValidationError(OnAccountClosureId, NotBlank), ValidationError(OnAccountClosureId, OneOfTheseValues)]
     else if id.value !in types.values then [ValidationError(OnAccountClosureId, OneOfTheseValues)]
     else [])
    + (if id.None? then []
       else if id.value == types.transferToSavings then
         (if r.toSavingsAccountId.None? then [ValidationError(ToSavingsAccountId, CantBeBlankWhenParameterProvided)]
          else [])
       else if id.value == types.reinvest && isPreMatureClose then
         [ValidationError(OnAccountClosureId, FailWithCode(ReinvestNotAllowed))]
       else [])
  }

  /** The enumeration holds both singled-out values, and they differ. */
  predicate WellFormed(types: ClosureTypes)
  {
    && types.transferToSavings in types.values
    && types.reinvest in types.values
    && types.transferToSavings != types.reinvest
  }

  const ReinvestNotAllowed: string := "reinvest.not.allowed"

  function ValidateClosingErrors(r: Request, types: ClosureTypes, isPreMatureClose: bool): seq<ValidationError>
  {
    Required(ClosedOnDate, r.closedOnDate) + ClosureErrors(r, types, isPreMatureClose) + PaymentDetailErrors(r)
  }

  /** `validateClosing`. */
  function ValidateClosing(r: Request, types: ClosureTypes, isPreMatureClose: bool): (v: Verdict)
    requires WellFormed(types)
    ensures IsBlank(r.json) ==> v == Rejected(InvalidJson)
    ensures !IsBlank(r.json) && |r.unsupported| > 0 ==> v == Rejected(UnsupportedParameters(r.unsupported))
    ensures !IsBlank(r.json) && |r.unsupported| == 0 ==>
              (v.Accepted? <==>
                 && r.closedOnDate.Some?
                 && r.onAccountClosureId.Some? && r.onAccountClosureId.value in types.values
                 && (r.onAccountClosureId.value == types.transferToSavings ==> r.toSavingsAccountId.Some?)
                 && !(r.onAccountClosureId.value == types.reinvest && isPreMatureClose)
                 && PaymentDetailsValid(r))
  {
    PaymentDetailErrorsEmptyIff(r);
    Checked(r, ValidateClosingErrors(r, types, isPreMatureClose))
  }

  /** Reinvest on closing is refused with the "reinvest.not.allowed" code
      exactly when the close is premature. */
  lemma ReinvestRefusedOnlyWhenPremature(r: Request, types: ClosureTypes, isPreMatureClose: bool)
    requires WellFormed(types)
    requires r.onAccountClosureId == Some(types.reinvest)
    ensures ValidationError(OnAccountClosureId, FailWithCode(ReinvestNotAllowed))
              in ValidateClosingErrors(r, types, isPreMatureClose)
            <==> isPreMatureClose
  {
    var e := ValidationError(OnAccountClosureId, FailWithCode(ReinvestNotAllowed));
    assert e !in Required(ClosedOnDate, r.closedOnDate);
    PaymentDetailErrorParams(r);
    assert e !in PaymentDetailErrors(r);
  }

  /** Transfer-to-savings needs the target account; other closure types do not. */
  lemma TransferNeedsTargetAccount(r: Request, types: ClosureTypes, isPreMatureClose: bool)
    requires WellFormed(types)
    requires r.onAccountClosureId.Some?
    ensures ValidationError(ToSavingsAccountId, CantBeBlankWhenParameterProvided)
              in ValidateClosingErrors(r, types, isPreMatureClose)
            <==> r.onAccountClosureId.value == types.transferToSavings && r.toSavingsAccountId.None?
  {
    var e := ValidationError(ToSavingsAccountId, CantBeBlankWhenParameterProvided);
    assert e !in Required(ClosedOnDate, r.closedOnDate);
    PaymentDetailErrorParams(r);
    assert e !in PaymentDetailErrors(r);
  }

  /** A payment detail is reported under its own parameter, by either
      validate method that checks payment details, exactly when its trimmed
      value is longer than 50 UTF-16 units. */
  lemma LongPaymentDetailReported(r: Request, types: ClosureTypes, isPreMatureClose: bool)
    ensures ValidationError(CheckNumber, NotExceedingLengthOf(50)) in ValidateErrors(r)
            <==> r.checkNumber.Some? && Utf16Length(Trim(r.checkNumber.value)) > PaymentDetailMaxLength
    ensures ValidationError(CheckNumber, NotExceedingLengthOf(50)) in ValidateClosingErrors(r, types, isPreMatureClose)
            <==> r.checkNumber.Some? && Utf16Length(Trim(r.checkNumber.value)) > PaymentDetailMaxLength
  {
    var e := ValidationError(CheckNumber, NotExceedingLengthOf(50));
    assert e !in Required(TransactionDate, r.transactionDate);
    assert e !in RequiredPositive(TransactionAmount, r.transactionAmount);
    assert e !in Required(ClosedOnDate, r.closedOnDate);
    assert e !in ClosureErrors(r, types, isPreMatureClose);
    CheckNumberLengthError(r);
  }

  lemma {:induction false} TrimStartSkipsBlanks(pre: string, rest: string)
    requires forall k :: 0 <= k < |pre| ==> pre[k] <= ' '
    requires |rest| > 0 && rest[0] > ' '
    ensures TrimStart(pre + rest) == rest
  {
    if |pre| > 0 {
      assert (pre + rest)[1..] == pre[1..] + rest;
      TrimStartSkipsBlanks(pre[1..], rest);
    } else {
      assert pre + rest == rest;
    }
  }

  lemma {:induction false} TrimEndSkipsBlanks(text: string, post: string)
    requires forall k :: 0 <= k < |post| ==> post[k] <= ' '
    requires |text| > 0 && text[|text| - 1] > ' '
    ensures TrimEnd(text + post) == text
  {
    if |post| > 0 {
      assert (text + post)[..|text + post| - 1] == text + post[..|post| - 1];
      TrimEndSkipsBlanks(text, post[..|post| - 1]);
    } else {
      assert text + post == text;
    }
  }

  /** Blanks and control characters around a text are not part of its
      measured length. */
  lemma TrimDropsSurroundingBlanks(pre: string, text: string, post: string)
    requires forall k :: 0 <= k < |pre| ==> pre[k] <= ' '
    requires forall k :: 0 <= k < |post| ==> post[k] <= ' '
    requires |text| > 0 && text[0] > ' ' && text[|text| - 1] > ' '
    ensures Trim(pre + text + post) == text
  {
    assert pre + text + post == pre + (text + post);
    TrimStartSkipsBlanks(pre, text + post);
    TrimEndSkipsBlanks(text, post);
  }

  /** A 50-character check number followed by a space is within the limit:
      the space is trimmed before measuring. */
  lemma PaddedCheckNumberAccepted(r: Request)
    requires r.checkNumber == Some(seq(50, _ => 'x') + " ")
    ensures ValidationError(CheckNumber, NotExceedingLengthOf(50)) !in ValidateErrors(r)
  {
    var text := seq(50, _ => 'x');
    TrimDropsSurroundingBlanks("", text, " ");
    assert "" + text + " " == text + " ";
    assert Utf16Length(text) == 50;
    LongPaymentDetailReported(r, ClosureTypes({}, 0, 1), false);
  }

  /** A missing closure type fails both the presence rule and the
      membership rule. */
  lemma MissingClosureTypeTwoErrors(r: Request, types: ClosureTypes, isPreMatureClose: bool)
    requires r.onAccountClosureId.None?
    ensures ClosureErrors(r, types, isPreMatureClose)
            == [ValidationError(OnAccountClosureId, NotBlank), ValidationError(OnAccountClosureId, OneOfTheseValues)]
  {
  }
}
