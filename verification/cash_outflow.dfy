/** `GET /api/cash-outflow`: every payment with a due date adds the absolute
    total of its document's invoice (nothing when there is no invoice or no
    total) to one of four fixed ranges, chosen by the whole number of days
    until the due date, rounded up. Instants are integer milliseconds and
    the rounding is exact integer ceiling division. */
module CashOutflow {
  import opened Maybe
  import opened Amounts
  import opened Schema

  /** 1000 * 60 * 60 * 24 milliseconds. */
  const DayMillis := 86_400_000

  datatype Range = UpToWeek | UpToMonth | UpToTwoMonths | Beyond {
    function Label(): string {
      match this
      case UpToWeek => "0-7 days"
      case UpToMonth => "8-30 days"
      case UpToTwoMonths => "31-60 days"
      case Beyond => "60+ days"
    }
  }

  /** The ranges in the order the handler reports them. */
  const Ranges: seq<Range> := [UpToWeek, UpToMonth, UpToTwoMonths, Beyond]

  datatype Outflow = Outflow(range: string, amount: nat)

  /** A payment together with the invoice of the same document, if any. */
  datatype PaymentWithInvoice = PaymentWithInvoice(payment: Payment, invoice: Option<Invoice>)

  /** `Math.ceil((due - now) / DayMillis)` */
  function DaysUntilDue(due: int, now: int): (d: int)
    ensures (d - 1) * DayMillis < due - now <= d * DayMillis
  {
    CeilDiv(due - now, DayMillis)
  }

  /** The handler's if-chain. Because the first test demands `d >= 0`,
      every overdue payment (negative `d`) falls through to the second
      test and lands in "8-30 days". */
  function RangeOf(d: int): (r: Range)
    ensures r == UpToWeek <==> 0 <= d <= 7
    ensures r == UpToMonth <==> d < 0 || 8 <= d <= 30
    ensures r == UpToTwoMonths <==> 31 <= d <= 60
    ensures r == Beyond <==> d > 60
  {
    if d <= 7 && d >= 0 then UpToWeek
    else if d <= 30 then UpToMonth
    else if d <= 60 then UpToTwoMonths
    else Beyond
  }

  function AmountOf(p: PaymentWithInvoice): nat {
    if p.invoice.Some? then Spend(p.invoice.value.invoiceTotal) else 0
  }

  predicate FallsIn(p: PaymentWithInvoice, now: int, range: Range) {
    p.payment.dueDate.Some? && RangeOf(DaysUntilDue(p.payment.dueDate.value, now)) == range
  }

  /** Reference: the amount of the payments due in `range`. */
  function AmountIn(payments: seq<PaymentWithInvoice>, now: int, range: Range): nat {
    if |payments| == 0 then 0
    else
      var p := payments[|payments| - 1];
      AmountIn(payments[..|payments| - 1], now, range) + (if FallsIn(p, now, range) then AmountOf(p) else 0)
  }

  /** Reference: the amount of all payments that have a due date. */
  function DatedAmount(payments: seq<PaymentWithInvoice>): nat {
    if |payments| == 0 then 0
    else
      var p := payments[|payments| - 1];
      DatedAmount(payments[..|payments| - 1]) + (if p.payment.dueDate.Some? then AmountOf(p) else 0)
  }

  function IndexOf(r: Range): (k: nat)
    ensures k < 4 && Ranges[k] == r
  {
    match r
    case UpToWeek => 0
    case UpToMonth => 1
    case UpToTwoMonths => 2
    case Beyond => 3
  }

  /** The handler: four ranges in fixed order, each with the amount of the
      payments due in it; a payment without a due date adds nothing, every
      other payment adds to exactly one range, so the four amounts add up to
      the amount of all dated payments. */
  method CashOutflow(payments: seq<PaymentWithInvoice>, now: int) returns (r: seq<Outflow>)
    ensures |r| == 4
    ensures forall k :: 0 <= k < 4 ==> r[k] == Outflow(Ranges[k].Label(), AmountIn(payments, now, Ranges[k]))
    ensures r[0].amount + r[1].amount + r[2].amount + r[3].amount == DatedAmount(payments)
  {
    var amounts: seq<nat> := [0, 0, 0, 0];
    var i := 0;
    while i < |payments|
      invariant 0 <= i <= |payments|
      invariant |amounts| == 4
      invariant forall k :: 0 <= k < 4 ==> amounts[k] == AmountIn(payments[..i], now, Ranges[k])
      invariant amounts[0] + amounts[1] + amounts[2] + amounts[3] == DatedAmount(payments[..i])
    {
      var p := payments[i];
      assert payments[..i + 1][..i] == payments[..i];
      if p.payment.dueDate.Some? {
        var k := IndexOf(RangeOf(DaysUntilDue(p.payment.dueDate.value, now)));
        amounts := amounts[k := amounts[k] + AmountOf(p)];
      }
      i := i + 1;
    }
    assert payments[..i] == payments;
    r := [Outflow(Ranges[0].Label(), amounts[0]), Outflow(Ranges[1].Label(), amounts[1]),
          Outflow(Ranges[2].Label(), amounts[2]), Outflow(Ranges[3].Label(), amounts[3])];
  }

  /** Examples at the range boundaries, in days from now: due now or in
      exactly seven days is "0-7 days"; one millisecond past seven days
      rounds up to eight and is "8-30 days"; exactly thirty is "8-30 days"
      and exactly sixty is "31-60 days"; and a payment 45 days overdue is
      "8-30 days". */
  lemma RangeBoundaries(now: int)
    ensures RangeOf(DaysUntilDue(now, now)) == UpToWeek
    ensures RangeOf(DaysUntilDue(now + 7 * DayMillis, now)) == UpToWeek
    ensures RangeOf(DaysUntilDue(now + 7 * DayMillis + 1, now)) == UpToMonth
    ensures RangeOf(DaysUntilDue(now + 30 * DayMillis, now)) == UpToMonth
    ensures RangeOf(DaysUntilDue(now + 60 * DayMillis, now)) == UpToTwoMonths
    ensures RangeOf(DaysUntilDue(now + 60 * DayMillis + 1, now)) == Beyond
    ensures RangeOf(DaysUntilDue(now - 45 * DayMillis, now)) == UpToMonth
  {
    var d0 := DaysUntilDue(now, now);
    var d7 := DaysUntilDue(now + 7 * DayMillis, now);
    var d8 := DaysUntilDue(now + 7 * DayMillis + 1, now);
    var d30 := DaysUntilDue(now + 30 * DayMillis, now);
    var d60 := DaysUntilDue(now + 60 * DayMillis, now);
    var d61 := DaysUntilDue(now + 60 * DayMillis + 1, now);
    var dm := DaysUntilDue(now - 45 * DayMillis, now);
    assert d0 == 0;
    assert d7 == 7;
    assert d8 == 8;
    assert d30 == 30;
    assert d60 == 60;
    assert d61 == 61;
    assert dm == -45;
  }
}
