/**
 * The bill-adjustment form handler (`post_bill_adjustments` in app.py): three
 * guards in a fixed order, then the confirmation number and the call to the
 * `fun_adjust_Bill` stored function. The database is not modelled: what the
 * two queries return and what the stored function returns are inputs.
 */
module Adjustments {
  import opened Wrappers
  import opened Decimal

  /** `datetime.datetime.now()`: `year` is 1..9999 and `month` 1..12. */
  datatype DateTime = DateTime(year: nat, month: nat, day: nat, timeOfDay: nat)

  /** The fields of the adjustment form; amounts are real numbers, not floats. */
  datatype AdjustmentForm = AdjustmentForm(
    billId: int,
    officerName: string,
    officerDesignation: string,
    originalBillAmount: real,
    adjustmentAmount: real,
    adjustmentReason: string)

  /** The arguments of `fun_adjust_Bill`, which are also the receipt's details. */
  datatype AdjustBillCall = AdjustBillCall(
    adjustmentId: int,
    billId: int,
    date: DateTime,
    officerName: string,
    officerDesignation: string,
    originalBillAmount: real,
    adjustmentAmount: real,
    adjustmentReason: string)

  /** What the handler sends back; `ServerError` is an unhandled exception (HTTP 500). */
  datatype AdjustmentPage = ErrorPage(message: string) | Receipt(details: AdjustBillCall) | ServerError

  /** How far the handler gets before the stored function would run. */
  datatype AdjustmentStep = Halt(page: AdjustmentPage) | Invoke(call: AdjustBillCall)

  const InvalidBill := "Invalid BillID provided."
  const AmountMismatch := "The original bill amount provided does not match the actual amount due."
  const AlreadyPaid := "The bill has already been paid. Adjustments cannot be made to a paid bill."
  const ProcessingFailed := "An error occured while processing the request. Please try again. Make sure the values are correct"

  /** The confirmation number as text: `str(bill_id) + str(year) + str(month)`. */
  function AdjustmentIdText(billId: int, year: nat, month: nat): string
  {
    IntToString(billId) + NatToString(year) + NatToString(month)
  }

  /** The text of the confirmation number is the bill id's sign, then one run of digits. */
  lemma AdjustmentIdTextShape(billId: int, year: nat, month: nat)
    ensures var digits := NatToString(Magnitude(billId)) + NatToString(year) + NatToString(month);
      && AllDigits(digits) && digits[0] == NatToString(Magnitude(billId))[0]
      && AdjustmentIdText(billId, year, month) == SignText(billId) + digits
  {
    var B, Y, M := NatToString(Magnitude(billId)), NatToString(year), NatToString(month);
    assert AllDigits(B + Y + M) by {
      AllDigitsConcat(B, Y);
      AllDigitsConcat(B + Y, M);
    }
    assert (B + Y + M)[0] == B[0];
    assert SignText(billId) + B + Y + M == SignText(billId) + (B + Y + M);
  }

  /** The run of digits, read as a number. */
  lemma AdjustmentDigitsValue(billId: int, year: nat, month: nat)
    ensures var digits := NatToString(Magnitude(billId)) + NatToString(year) + NatToString(month);
      && AllDigits(digits)
      && DigitsValue(digits) == (Magnitude(billId) * Pow10(|NatToString(year)|) + year) * Pow10(|NatToString(month)|) + month
  {
    var B, Y, M := NatToString(Magnitude(billId)), NatToString(year), NatToString(month);
    DigitsValueConcat3(B, Y, M);
    assert DigitsValue(B) == Magnitude(billId) by { NatToStringValue(Magnitude(billId)); }
    assert DigitsValue(Y) == year by { NatToStringValue(year); }
    assert DigitsValue(M) == month by { NatToStringValue(month); }
  }

  /** The confirmation number: `int(str(bill_id) + str(year) + str(month))`. */
  function AdjustmentId(billId: int, year: nat, month: nat): (id: int)
    ensures ParseInt(AdjustmentIdText(billId, year, month)) == Some(id)
  {
    AdjustmentIdTextShape(billId, year, month);
    ParseSignedDigits(billId, NatToString(Magnitude(billId)) + NatToString(year) + NatToString(month));
    ParseInt(AdjustmentIdText(billId, year, month)).value
  }

  /** The number is the signed value of the run of digits. */
  lemma AdjustmentIdIsDigitsValue(billId: int, year: nat, month: nat)
    ensures var digits := NatToString(Magnitude(billId)) + NatToString(year) + NatToString(month);
      && AllDigits(digits)
      && AdjustmentId(billId, year, month) == if billId < 0 then -(DigitsValue(digits) as int) else DigitsValue(digits)
  {
    AdjustmentIdTextShape(billId, year, month);
    ParseSignedDigits(billId, NatToString(Magnitude(billId)) + NatToString(year) + NatToString(month));
  }

  /**
   * The number in arithmetic: the bill id's magnitude shifted past the year's
   * and the month's digits, plus the year shifted past the month's, plus the
   * month, with the bill id's sign.
   */
  lemma AdjustmentIdValue(billId: int, year: nat, month: nat)
    ensures var magnitude := (Magnitude(billId) * Pow10(|NatToString(year)|) + year) * Pow10(|NatToString(month)|) + month;
      AdjustmentId(billId, year, month) == if billId < 0 then -magnitude else magnitude
  {
    AdjustmentIdIsDigitsValue(billId, year, month);
    AdjustmentDigitsValue(billId, year, month);
  }

  /**
   * For a non-zero bill id, the decimal digits of the confirmation number are
   * the bill id's, then the year's, then the month's.
   */
  lemma AdjustmentIdDigits(billId: int, year: nat, month: nat)
    requires billId != 0
    ensures IntToString(AdjustmentId(billId, year, month)) == AdjustmentIdText(billId, year, month)
  {
    var digits := NatToString(Magnitude(billId)) + NatToString(year) + NatToString(month);
    AdjustmentIdTextShape(billId, year, month);
    AdjustmentIdIsDigitsValue(billId, year, month);
    NatToStringOfDigits(digits);
    DigitsValuePositive(digits);
    var id := AdjustmentId(billId, year, month);
    assert Magnitude(id) == DigitsValue(digits);
    assert SignText(id) == SignText(billId);
  }

  /** The year's digits followed by the month's: one run of digits, led by the year's first digit. */
  lemma YearMonthDigits(year: nat, month: nat)
    requires year >= 1
    ensures var YM := NatToString(year) + NatToString(month);
      |YM| >= 1 && AllDigits(YM) && YM[0] != '0'
  {
    var Y, M := NatToString(year), NatToString(month);
    AllDigitsConcat(Y, M);
    assert (Y + M)[0] == Y[0];
  }

  /** With bill 0 the number is the value of the year's and month's digits alone. */
  lemma BillZeroValue(year: nat, month: nat)
    requires year >= 1
    ensures var YM := NatToString(year) + NatToString(month);
      AllDigits(YM) && AdjustmentId(0, year, month) == DigitsValue(YM)
  {
    var Y, M := NatToString(year), NatToString(month);
    YearMonthDigits(year, month);
    var digits := NatToString(Magnitude(0)) + Y + M;
    assert digits == "0" + (Y + M) by {
      assert NatToString(Magnitude(0)) == "0";
    }
    assert AllDigits(digits) && AdjustmentId(0, year, month) == DigitsValue(digits) by {
      AdjustmentIdIsDigitsValue(0, year, month);
    }
    LeadingZeroIgnored(Y + M);
  }

  /** Bill 0 loses its digit: `int` drops the leading "0", so the number shows only the year and month. */
  lemma BillZeroDropsItsDigit(year: nat, month: nat)
    requires year >= 1
    ensures IntToString(AdjustmentId(0, year, month)) == NatToString(year) + NatToString(month)
    ensures IntToString(AdjustmentId(0, year, month)) != AdjustmentIdText(0, year, month)
  {
    var YM := NatToString(year) + NatToString(month);
    var id := AdjustmentId(0, year, month);
    YearMonthDigits(year, month);
    BillZeroValue(year, month);
    assert IntToString(id) == YM by {
      NatToStringOfDigits(YM);
      assert IntToString(id) == NatToString(id);
    }
    assert AdjustmentIdText(0, year, month)[0] == '0' by {
      AdjustmentIdTextShape(0, year, month);
    }
  }

  lemma NatToStringLengths(year: nat, month: nat)
    requires 1000 <= year <= 9999 && 1 <= month <= 12
    ensures |NatToString(year)| == 4
    ensures |NatToString(month)| == if month < 10 then 1 else 2
  {
    assert Pow10(1) == 10 && Pow10(2) == 100 && Pow10(3) == 1000 && Pow10(4) == 10000;
    NatToStringLength(year, 3);
    if month < 10 {
      NatToStringLength(month, 0);
    } else {
      NatToStringLength(month, 1);
    }
  }

  /** The number for a four-digit year, with the month's one or two digits made explicit. */
  lemma AdjustmentIdFourDigitYear(billId: int, year: nat, month: nat)
    requires 1000 <= year <= 9999 && 1 <= month <= 12
    ensures var magnitude := if month < 10 then (Magnitude(billId) * 10000 + year) * 10 + month
                             else (Magnitude(billId) * 10000 + year) * 100 + month;
      AdjustmentId(billId, year, month) == if billId < 0 then -magnitude else magnitude
  {
    AdjustmentIdValue(billId, year, month);
    NatToStringLengths(year, month);
    assert Pow10(1) == 10 && Pow10(2) == 100 && Pow10(4) == 10000;
  }

  /** Shifting a prefix past a month's digits and adding the month is injective for four-digit years. */
  lemma MonthShiftInjective(b: nat, y1: nat, m1: nat, y2: nat, m2: nat)
    requires 1000 <= y1 <= 9999 && 1 <= m1 <= 12
    requires 1000 <= y2 <= 9999 && 1 <= m2 <= 12
    requires (if m1 < 10 then (b * 10000 + y1) * 10 + m1 else (b * 10000 + y1) * 100 + m1)
          == (if m2 < 10 then (b * 10000 + y2) * 10 + m2 else (b * 10000 + y2) * 100 + m2)
    ensures y1 == y2 && m1 == m2
  {
  }

  /**
   * For one bill and four-digit years, the confirmation number tells the
   * month apart: two adjustments of the same bill get the same number exactly
   * when they are made in the same year and month.
   */
  lemma AdjustmentIdSameMonthIff(billId: int, y1: nat, m1: nat, y2: nat, m2: nat)
    requires 1000 <= y1 <= 9999 && 1 <= m1 <= 12
    requires 1000 <= y2 <= 9999 && 1 <= m2 <= 12
    ensures AdjustmentId(billId, y1, m1) == AdjustmentId(billId, y2, m2) <==> y1 == y2 && m1 == m2
  {
    if AdjustmentId(billId, y1, m1) == AdjustmentId(billId, y2, m2) {
      AdjustmentIdFourDigitYear(billId, y1, m1);
      AdjustmentIdFourDigitYear(billId, y2, m2);
      MonthShiftInjective(Magnitude(billId), y1, m1, y2, m2);
    }
  }

  /**
   * Across bills the digits run together even with four-digit years: bill 12
   * in January 2021 and bill 1 in November 2202 get the same number.
   */
  lemma DifferentBillsCanShareNumber()
    ensures AdjustmentId(12, 2021, 1) == AdjustmentId(1, 2202, 11) == 1220211
  {
    AdjustmentIdFourDigitYear(12, 2021, 1);
    AdjustmentIdFourDigitYear(1, 2202, 11);
  }

  /**
   * The guards of `post_bill_adjustments`, in their order. `amountDue` is the
   * bill row's `TotalAmount_BeforeDueDate`, `None` when there is no such bill;
   * `paymentStatus` is whether the `PaymentStatus` column is truthy, `None`
   * when the bill has no payment-details row (the handler then fails on
   * indexing `None`).
   */
  function PlanAdjustment(form: AdjustmentForm, amountDue: Option<real>, paymentStatus: Option<bool>, now: DateTime): (s: AdjustmentStep)
    ensures s.Invoke? <==> amountDue == Some(form.originalBillAmount) && paymentStatus == Some(false)
    ensures amountDue == None ==> s == Halt(ErrorPage(InvalidBill))
    ensures amountDue.Some? && amountDue.value != form.originalBillAmount ==> s == Halt(ErrorPage(AmountMismatch))
    ensures amountDue == Some(form.originalBillAmount) && paymentStatus == None ==> s == Halt(ServerError)
    ensures amountDue == Some(form.originalBillAmount) && paymentStatus == Some(true) ==> s == Halt(ErrorPage(AlreadyPaid))
    ensures s.Invoke? ==> s.call.adjustmentId == AdjustmentId(form.billId, now.year, now.month)
    ensures s.Invoke? ==> s.call.billId == form.billId && s.call.date == now
    ensures s.Invoke? ==> s.call.officerName == form.officerName && s.call.officerDesignation == form.officerDesignation
    ensures s.Invoke? ==> s.call.originalBillAmount == form.originalBillAmount && s.call.adjustmentAmount == form.adjustmentAmount
    ensures s.Invoke? ==> s.call.adjustmentReason == form.adjustmentReason
  {
    match amountDue
    case None => Halt(ErrorPage(InvalidBill))
    case Some(due) =>
      if form.originalBillAmount != due then Halt(ErrorPage(AmountMismatch))
      else match paymentStatus
        case None => Halt(ServerError)
        case Some(paid) =>
          if paid then Halt(ErrorPage(AlreadyPaid))
          else Invoke(AdjustBillCall(
            AdjustmentId(form.billId, now.year, now.month), form.billId, now,
            form.officerName, form.officerDesignation,
            form.originalBillAmount, form.adjustmentAmount, form.adjustmentReason))
  }

  /**
   * The whole handler; `adjustResult` is what `fun_adjust_Bill` returns when
   * it is called. The form is processed without any session or access check.
   */
  function PostBillAdjustments(form: AdjustmentForm, amountDue: Option<real>, paymentStatus: Option<bool>, now: DateTime, adjustResult: int): (p: AdjustmentPage)
    ensures p.Receipt? <==> PlanAdjustment(form, amountDue, paymentStatus, now).Invoke? && adjustResult == 1
    ensures p.Receipt? ==> p.details == PlanAdjustment(form, amountDue, paymentStatus, now).call
    ensures PlanAdjustment(form, amountDue, paymentStatus, now).Invoke? && adjustResult != 1 ==> p == ErrorPage(ProcessingFailed)
    ensures PlanAdjustment(form, amountDue, paymentStatus, now).Halt? ==> p == PlanAdjustment(form, amountDue, paymentStatus, now).page
  {
    match PlanAdjustment(form, amountDue, paymentStatus, now)
    case Halt(page) => page
    case Invoke(call) => if adjustResult == 1 then Receipt(call) else ErrorPage(ProcessingFailed)
  }

  /** The stored function's result matters only once all three guards have passed. */
  lemma GuardsDecideBeforeTheCall(form: AdjustmentForm, amountDue: Option<real>, paymentStatus: Option<bool>, now: DateTime, r1: int, r2: int)
    requires PlanAdjustment(form, amountDue, paymentStatus, now).Halt?
    ensures PostBillAdjustments(form, amountDue, paymentStatus, now, r1) == PostBillAdjustments(form, amountDue, paymentStatus, now, r2)
  {
  }

  /**
   * Two adjustments of the same bill that reach the stored function carry the
   * same confirmation number exactly when they are made in the same year and
   * month, whatever the day and time.
   */
  lemma ConfirmationNumberPerMonth(f1: AdjustmentForm, d1: Option<real>, p1: Option<bool>, t1: DateTime,
                                   f2: AdjustmentForm, d2: Option<real>, p2: Option<bool>, t2: DateTime)
    requires f1.billId == f2.billId
    requires 1000 <= t1.year <= 9999 && 1 <= t1.month <= 12
    requires 1000 <= t2.year <= 9999 && 1 <= t2.month <= 12
    requires PlanAdjustment(f1, d1, p1, t1).Invoke? && PlanAdjustment(f2, d2, p2, t2).Invoke?
    ensures PlanAdjustment(f1, d1, p1, t1).call.adjustmentId == PlanAdjustment(f2, d2, p2, t2).call.adjustmentId
        <==> t1.year == t2.year && t1.month == t2.month
  {
    AdjustmentIdSameMonthIff(f1.billId, t1.year, t1.month, t2.year, t2.month);
  }
}
