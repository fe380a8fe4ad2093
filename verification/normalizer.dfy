/** The body of the seed loop for one record: the document row, then one
    row per present section (invoice, vendor, customer, payment) and one row
    per line item, in that order. Each write happens on its own, so a record
    that throws halfway keeps the rows written before the throw. */
module Normalizer {
  import opened Maybe
  import opened Text
  import opened Amounts
  import opened Numerals
  import opened Schema
  import opened Payload
  import Categorizer

  /** The range of the 64-bit `BigInt` column `fileSize`. */
  const MinInt64: int := -0x8000_0000_0000_0000
  const MaxInt64: int := 0x7FFF_FFFF_FFFF_FFFF

  const DefaultCurrency: string := "EUR"
  const DefaultDocumentType: string := "Invoice"

  /** A value, or the exception computing it raised. */
  datatype Outcome<T> = Value(value: T) | Throws

  /** What one record leaves behind: the rows written, in order, and whether
      the record reached its end without throwing. */
  datatype Normalized = Normalized(writes: seq<Row>, completes: bool)

  /** `new Date(text)`: the instant a date text denotes, or `None` for an
      invalid date, which the store rejects when the row is written. */
  type Clock = string -> Option<int>

  const NoLlm := LlmData(None, None, None, None, None, None)
  const NoSummary := SummaryFields(None, None, None, None, None)

  // ---------------------------------------------------------------------
  // Acceptance, stated independently of the stages below
  // ---------------------------------------------------------------------

  /** A `{ $date }` wrapper that is present must hold a valid instant. */
  predicate WrapperOk(w: Option<string>, toInstant: Clock) {
    w.Some? ==> toInstant(w.value).Some?
  }

  /** A date leaf is only parsed when it is a non-empty string. */
  predicate LeafOk(leaf: Option<string>, toInstant: Clock) {
    leaf.Some? && leaf.value != "" ==> toInstant(leaf.value).Some?
  }

  /** The document row is accepted: the size is a `BigInt` numeral within
      the 64-bit column and every date it carries is valid. */
  predicate DocumentOk(rec: RawRecord, toInstant: Clock) {
    && ParseBigInt(rec.fileSize).Some?
    && MinInt64 <= ParseBigInt(rec.fileSize).value <= MaxInt64
    && toInstant(rec.createdAt).Some?
    && toInstant(rec.updatedAt).Some?
    && WrapperOk(rec.assignedAt, toInstant)
    && WrapperOk(rec.processedAt, toInstant)
  }

  predicate InvoiceOk(s: Option<Section<InvoiceFields>>, toInstant: Clock) {
    s.Some? ==>
      && s.value.value.Some?
      && LeafOk(s.value.value.value.invoiceDate, toInstant)
      && LeafOk(s.value.value.value.deliveryDate, toInstant)
  }

  predicate PaymentOk(s: Option<Section<PaymentFields>>, toInstant: Clock) {
    s.Some? ==>
      && s.value.value.Some?
      && LeafOk(s.value.value.value.dueDate, toInstant)
      && LeafOk(s.value.value.value.discountDueDate, toInstant)
  }

  /** A present section must carry a value: reading a field of its missing
      value is a `TypeError`. */
  predicate HasValue<T>(s: Option<Section<T>>) {
    s.Some? ==> s.value.value.Some?
  }

  /** Every listed line item is an object, not `null`. */
  predicate ItemsOk(items: seq<Option<ItemFields>>) {
    forall i :: 0 <= i < |items| ==> items[i].Some?
  }

  /** The record runs to the end of the loop body without throwing. */
  predicate WellFormed(rec: RawRecord, toInstant: Clock) {
    var llm := rec.Llm().GetOr(NoLlm);
    && DocumentOk(rec, toInstant)
    && InvoiceOk(llm.invoice, toInstant)
    && HasValue(llm.vendor)
    && HasValue(llm.customer)
    && PaymentOk(llm.payment, toInstant)
    && ItemsOk(ItemsOf(llm))
  }

  // ---------------------------------------------------------------------
  // Field conversions
  // ---------------------------------------------------------------------

  /** `w ? new Date(w.$date) : null` for a wrapper the store then checks. */
  function WrapperDate(w: Option<string>, toInstant: Clock): (r: Outcome<Option<int>>)
    ensures r.Value? <==> WrapperOk(w, toInstant)
    ensures r.Value? ==> (r.value.Some? <==> w.Some?)
    ensures r.Value? && w.Some? ==> r.value == toInstant(w.value)
  {
    if w.None? then Value(None)
    else if toInstant(w.value).None? then Throws
    else Value(toInstant(w.value))
  }

  /** `x?.value ? new Date(x.value) : null`: an empty or missing leaf is null. */
  function LeafDate(leaf: Option<string>, toInstant: Clock): (r: Outcome<Option<int>>)
    ensures r.Value? <==> LeafOk(leaf, toInstant)
    ensures r.Value? ==> (r.value.Some? <==> leaf.Some? && leaf.value != "")
    ensures r.Value? && leaf.Some? && leaf.value != "" ==> r.value == toInstant(leaf.value)
  {
    WrapperDate(StrOrNull(leaf), toInstant)
  }

  /** `llm.lineItems?.value?.items?.value`, with a missing list as empty. */
  function ItemsOf(llm: LlmData): seq<Option<ItemFields>> {
    if llm.lineItems.Some? && llm.lineItems.value.value.Some?
       && llm.lineItems.value.value.value.items.Some?
    then llm.lineItems.value.value.value.items.value
    else []
  }

  /** `llm.summary?.value`, with a missing summary read as all-missing leaves. */
  function SummaryOf(llm: LlmData): SummaryFields {
    if llm.summary.Some? && llm.summary.value.value.Some? then llm.summary.value.value.value
    else NoSummary
  }

  // ---------------------------------------------------------------------
  // Rows
  // ---------------------------------------------------------------------

  function DocumentOf(rec: RawRecord, toInstant: Clock): (r: Outcome<Document>)
    ensures r.Value? <==> DocumentOk(rec, toInstant)
    ensures r.Value? ==>
      && r.value.id == rec.id
      && r.value.fileSize == ParseBigInt(rec.fileSize).value
      && r.value.createdAt == toInstant(rec.createdAt).value
      && r.value.updatedAt == toInstant(rec.updatedAt).value
      && r.value.assignedToId == StrOrNull(rec.assignedToId)
      && r.value.assignedAt == WrapperDate(rec.assignedAt, toInstant).value
      && r.value.processedAt == WrapperDate(rec.processedAt, toInstant).value
    ensures r.Value? ==>
      && r.value.name == rec.name
      && r.value.filePath == rec.filePath
      && r.value.fileType == rec.fileType
      && r.value.status == rec.status
      && r.value.organizationId == rec.organizationId
      && r.value.departmentId == rec.departmentId
      && r.value.uploadedById == rec.uploadedById
      && r.value.isValidatedByHuman == rec.isValidatedByHuman
      && r.value.analyticsId == StrOrNull(rec.analyticsId)
  {
    var size := ParseBigInt(rec.fileSize);
    var created := toInstant(rec.createdAt);
    var updated := toInstant(rec.updatedAt);
    var assignedAt := WrapperDate(rec.assignedAt, toInstant);
    var processed := WrapperDate(rec.processedAt, toInstant);
    if size.None? || size.value < MinInt64 || MaxInt64 < size.value then Throws
    else if created.None? || updated.None? || assignedAt.Throws? || processed.Throws? then Throws
    else
      Value(Document(
        rec.id, rec.name, rec.filePath, size.value, rec.fileType, rec.status,
        rec.organizationId, rec.departmentId, rec.uploadedById,
        StrOrNull(rec.assignedToId), assignedAt.value, rec.isValidatedByHuman,
        processed.value, created.value, updated.value, StrOrNull(rec.analyticsId)))
  }

  function InvoiceOf(documentId: string, f: InvoiceFields, s: SummaryFields, toInstant: Clock)
    : (r: Outcome<Invoice>)
    ensures r.Value? <==> LeafOk(f.invoiceDate, toInstant) && LeafOk(f.deliveryDate, toInstant)
    ensures r.Value? ==>
      && r.value.documentId == documentId
      && r.value.currencySymbol != ""
      && r.value.documentType != ""
      && r.value.invoiceTotal != Some(0)
      && (s.currencySymbol.None? ==> r.value.currencySymbol == DefaultCurrency)
      && (s.documentType.None? ==> r.value.documentType == DefaultDocumentType)
    ensures r.Value? ==>
      && r.value.invoiceId == StrOrNull(f.invoiceId)
      && r.value.invoiceDate == LeafDate(f.invoiceDate, toInstant).value
      && r.value.deliveryDate == LeafDate(f.deliveryDate, toInstant).value
      && r.value.subTotal == NumOrNull(s.subTotal)
      && r.value.totalTax == NumOrNull(s.totalTax)
      && r.value.invoiceTotal == NumOrNull(s.invoiceTotal)
      && r.value.currencySymbol == StrOr(s.currencySymbol, DefaultCurrency)
      && r.value.documentType == StrOr(s.documentType, DefaultDocumentType)
  {
    var invoiceDate := LeafDate(f.invoiceDate, toInstant);
    var deliveryDate := LeafDate(f.deliveryDate, toInstant);
    if invoiceDate.Throws? || deliveryDate.Throws? then Throws
    else
      Value(Invoice(
        documentId, StrOrNull(f.invoiceId), invoiceDate.value, deliveryDate.value,
        NumOrNull(s.subTotal), NumOrNull(s.totalTax), NumOrNull(s.invoiceTotal),
        StrOr(s.currencySymbol, DefaultCurrency), StrOr(s.documentType, DefaultDocumentType)))
  }

  /** Every vendor leaf is `x?.value || null`. */
  function VendorOf(documentId: string, f: VendorFields): (r: Vendor)
    ensures r.documentId == documentId
    ensures r.vendorName == StrOrNull(f.vendorName)
    ensures r.vendorPartyNumber == StrOrNull(f.vendorPartyNumber)
    ensures r.vendorAddress == StrOrNull(f.vendorAddress)
    ensures r.vendorTaxId == StrOrNull(f.vendorTaxId)
  {
    Vendor(documentId, StrOrNull(f.vendorName), StrOrNull(f.vendorPartyNumber),
           StrOrNull(f.vendorAddress), StrOrNull(f.vendorTaxId))
  }

  function CustomerOf(documentId: string, f: CustomerFields): (r: Customer)
    ensures r.documentId == documentId
    ensures r.customerName == StrOrNull(f.customerName)
    ensures r.customerAddress == StrOrNull(f.customerAddress)
  {
    Customer(documentId, StrOrNull(f.customerName), StrOrNull(f.customerAddress))
  }

  function PaymentOf(documentId: string, f: PaymentFields, toInstant: Clock): (r: Outcome<Payment>)
    ensures r.Value? <==> LeafOk(f.dueDate, toInstant) && LeafOk(f.discountDueDate, toInstant)
    ensures r.Value? ==> r.value.documentId == documentId && r.value.netDays != Some(0)
    ensures r.Value? ==>
      && r.value.dueDate == LeafDate(f.dueDate, toInstant).value
      && r.value.discountDueDate == LeafDate(f.discountDueDate, toInstant).value
      && r.value.paymentTerms == StrOrNull(f.paymentTerms)
      && r.value.bankAccountNumber == StrOrNull(f.bankAccountNumber)
      && r.value.bic == StrOrNull(f.bic)
      && r.value.accountName == StrOrNull(f.accountName)
      && r.value.netDays == NumOrNull(f.netDays)
      && r.value.discountPercentage == NumOrNull(f.discountPercentage)
      && r.value.discountDays == NumOrNull(f.discountDays)
      && r.value.discountedTotal == NumOrNull(f.discountedTotal)
  {
    var dueDate := LeafDate(f.dueDate, toInstant);
    var discountDueDate := LeafDate(f.discountDueDate, toInstant);
    if dueDate.Throws? || discountDueDate.Throws? then Throws
    else
      Value(Payment(
        documentId, dueDate.value, StrOrNull(f.paymentTerms), StrOrNull(f.bankAccountNumber),
        StrOrNull(f.bic), StrOrNull(f.accountName), NumOrNull(f.netDays),
        NumOrNull(f.discountPercentage), NumOrNull(f.discountDays), discountDueDate.value,
        NumOrNull(f.discountedTotal)))
  }

  /** A line item's description defaults to the empty string and its
      category comes from the description. */
  function LineItemOf(documentId: string, f: ItemFields): (r: LineItem)
    ensures r.documentId == documentId
    ensures r.category.Some?
    ensures r.category.value in {"Marketing", "Facilities", "Operations"}
    ensures r.description == StrOr(f.description, "")
    ensures r.category == Some(Categorizer.Categorize(Some(r.description)).Label())
    ensures r.srNo == NumOrNull(f.srNo) && r.quantity == NumOrNull(f.quantity)
    ensures r.unitPrice == NumOrNull(f.unitPrice) && r.totalPrice == NumOrNull(f.totalPrice)
  {
    var description := StrOr(f.description, "");
    LineItem(documentId, NumOrNull(f.srNo), description, NumOrNull(f.quantity),
             NumOrNull(f.unitPrice), NumOrNull(f.totalPrice),
             Some(Categorizer.Categorize(Some(description)).Label()))
  }

  // ---------------------------------------------------------------------
  // Bookkeeping over written rows
  // ---------------------------------------------------------------------

  /** The position of a row's table in the loop body's order of writes. */
  function StageOf(w: Row): nat {
    match w
    case DocumentRow(_) => 0
    case InvoiceRow(_) => 1
    case VendorRow(_) => 2
    case CustomerRow(_) => 3
    case PaymentRow(_) => 4
    case LineItemRow(_) => 5
  }

  /** The number of rows written to the table at stage `k`. */
  function CountStage(ws: seq<Row>, k: nat): nat {
    if |ws| == 0 then 0 else (if StageOf(ws[0]) == k then 1 else 0) + CountStage(ws[1..], k)
  }

  /** The line items among the rows, in the order written. */
  function LineItems(ws: seq<Row>): seq<LineItem> {
    if |ws| == 0 then []
    else if ws[0].LineItemRow? then [ws[0].lineItem] + LineItems(ws[1..])
    else LineItems(ws[1..])
  }

  predicate InStages(ws: seq<Row>, lo: nat, hi: nat) {
    forall i :: 0 <= i < |ws| ==> lo <= StageOf(ws[i]) <= hi
  }

  predicate StagesOrdered(ws: seq<Row>) {
    forall i, j :: 0 <= i < j < |ws| ==> StageOf(ws[i]) <= StageOf(ws[j])
  }

  predicate BelongTo(ws: seq<Row>, documentId: string) {
    forall i :: 0 <= i < |ws| ==> ws[i].DocumentId() == documentId
  }

  // ---------------------------------------------------------------------
  // Stages
  // ---------------------------------------------------------------------

  /** Runs `next` only when `first` completed; a stage that throws keeps
      the writes it made. */
  function Then(first: Normalized, next: Normalized): (r: Normalized)
    ensures r.completes <==> first.completes && next.completes
    ensures |r.writes| == |first.writes| + (if first.completes then |next.writes| else 0)
    ensures r.writes[..|first.writes|] == first.writes
    ensures first.completes ==> r.writes[|first.writes|..] == next.writes
  {
    if first.completes then Normalized(first.writes + next.writes, next.completes) else first
  }

  /** One write that may throw. */
  function Write(row: Outcome<Row>): Normalized {
    if row.Throws? then Normalized([], false) else Normalized([row.value], true)
  }

  const Skip := Normalized([], true)
  const Fail := Normalized([], false)

  function InvoiceStage(documentId: string, llm: LlmData, toInstant: Clock): (r: Normalized)
    ensures r.completes <==> InvoiceOk(llm.invoice, toInstant)
    ensures |r.writes| == (if r.completes && llm.invoice.Some? then 1 else 0)
    ensures InStages(r.writes, 1, 1) && BelongTo(r.writes, documentId)
    ensures |r.writes| == 1 ==>
      r.writes[0] == InvoiceRow(InvoiceOf(documentId, llm.invoice.value.value.value, SummaryOf(llm), toInstant).value)
  {
    match llm.invoice
    case None => Skip
    case Some(Section(None)) => Fail
    case Some(Section(Some(f))) =>
      match InvoiceOf(documentId, f, SummaryOf(llm), toInstant)
      case Throws => Fail
      case Value(i) => Write(Value(InvoiceRow(i)))
  }

  function VendorStage(documentId: string, llm: LlmData): (r: Normalized)
    ensures r.completes <==> HasValue(llm.vendor)
    ensures |r.writes| == (if r.completes && llm.vendor.Some? then 1 else 0)
    ensures InStages(r.writes, 2, 2) && BelongTo(r.writes, documentId)
    ensures |r.writes| == 1 ==> r.writes[0] == VendorRow(VendorOf(documentId, llm.vendor.value.value.value))
  {
    match llm.vendor
    case None => Skip
    case Some(Section(None)) => Fail
    case Some(Section(Some(f))) => Write(Value(VendorRow(VendorOf(documentId, f))))
  }

  function CustomerStage(documentId: string, llm: LlmData): (r: Normalized)
    ensures r.completes <==> HasValue(llm.customer)
    ensures |r.writes| == (if r.completes && llm.customer.Some? then 1 else 0)
    ensures InStages(r.writes, 3, 3) && BelongTo(r.writes, documentId)
    ensures |r.writes| == 1 ==> r.writes[0] == CustomerRow(CustomerOf(documentId, llm.customer.value.value.value))
  {
    match llm.customer
    case None => Skip
    case Some(Section(None)) => Fail
    case Some(Section(Some(f))) => Write(Value(CustomerRow(CustomerOf(documentId, f))))
  }

  function PaymentStage(documentId: string, llm: LlmData, toInstant: Clock): (r: Normalized)
    ensures r.completes <==> PaymentOk(llm.payment, toInstant)
    ensures |r.writes| == (if r.completes && llm.payment.Some? then 1 else 0)
    ensures InStages(r.writes, 4, 4) && BelongTo(r.writes, documentId)
    ensures |r.writes| == 1 ==>
      r.writes[0] == PaymentRow(PaymentOf(documentId, llm.payment.value.value.value, toInstant).value)
  {
    match llm.payment
    case None => Skip
    case Some(Section(None)) => Fail
    case Some(Section(Some(f))) =>
      match PaymentOf(documentId, f, toInstant)
      case Throws => Fail
      case Value(p) => Write(Value(PaymentRow(p)))
  }

  /** The line-item loop: one write per item, stopping at the first `null`
      (reading a field of `null` throws). */
  function ItemStage(documentId: string, items: seq<Option<ItemFields>>): (r: Normalized)
    ensures r.completes <==> ItemsOk(items)
    ensures |r.writes| <= |items|
    ensures forall j :: 0 <= j < |r.writes| ==>
      items[j].Some? && r.writes[j] == LineItemRow(LineItemOf(documentId, items[j].value))
    ensures r.completes ==> |r.writes| == |items|
    ensures !r.completes ==> items[|r.writes|].None?
  {
    if |items| == 0 then Skip
    else
      var front := items[..|items| - 1];
      var last := items[|items| - 1];
      var done := ItemStage(documentId, front);
      assert forall i :: 0 <= i < |front| ==> front[i] == items[i];
      if !done.completes then done
      else if last.None? then Normalized(done.writes, false)
      else Normalized(done.writes + [LineItemRow(LineItemOf(documentId, last.value))], true)
  }

  /** The line-item stage writes only line items of the document. */
  lemma ItemStageShape(documentId: string, items: seq<Option<ItemFields>>)
    ensures InStages(ItemStage(documentId, items).writes, 5, 5)
    ensures BelongTo(ItemStage(documentId, items).writes, documentId)
  {
    var ws := ItemStage(documentId, items).writes;
    forall j | 0 <= j < |ws|
      ensures StageOf(ws[j]) == 5 && ws[j].DocumentId() == documentId
    {
      assert ws[j] == LineItemRow(LineItemOf(documentId, items[j].value));
    }
  }

  /** Everything after the document row. */
  function Sections(documentId: string, llm: LlmData, toInstant: Clock): Normalized {
    Then(InvoiceStage(documentId, llm, toInstant),
    Then(VendorStage(documentId, llm),
    Then(CustomerStage(documentId, llm),
    Then(PaymentStage(documentId, llm, toInstant),
         ItemStage(documentId, ItemsOf(llm))))))
  }

  /** The loop body for one record, up to the point where it throws. */
  function Normalize(rec: RawRecord, toInstant: Clock): (n: Normalized)
    ensures |n.writes| == 0 <==> !DocumentOk(rec, toInstant)
    ensures |n.writes| > 0 ==> n.writes[0] == DocumentRow(DocumentOf(rec, toInstant).value)
  {
    match DocumentOf(rec, toInstant)
    case Throws => Fail
    case Value(d) => Then(Normalized([DocumentRow(d)], true), Sections(rec.id, rec.Llm().GetOr(NoLlm), toInstant))
  }

  // ---------------------------------------------------------------------
  // Properties of one record's writes
  // ---------------------------------------------------------------------

  lemma {:induction false} CountStageAppend(a: seq<Row>, b: seq<Row>, k: nat)
    ensures CountStage(a + b, k) == CountStage(a, k) + CountStage(b, k)
  {
    if |a| == 0 {
      assert a + b == b;
    } else {
      assert (a + b)[1..] == a[1..] + b;
      CountStageAppend(a[1..], b, k);
    }
  }

  lemma {:induction false} LineItemsAppend(a: seq<Row>, b: seq<Row>)
    ensures LineItems(a + b) == LineItems(a) + LineItems(b)
  {
    if |a| == 0 {
      assert a + b == b;
    } else {
      assert (a + b)[1..] == a[1..] + b;
      LineItemsAppend(a[1..], b);
    }
  }

  /** Rows all of one stage count only towards that stage. */
  lemma {:induction false} CountInStage(ws: seq<Row>, k: nat)
    requires InStages(ws, k, k)
    ensures forall j :: CountStage(ws, j) == if j == k then |ws| else 0
  {
    if |ws| > 0 {
      assert InStages(ws[1..], k, k) by {
        assert forall i :: 0 <= i < |ws[1..]| ==> ws[1..][i] == ws[i + 1];
      }
      CountInStage(ws[1..], k);
    }
  }

  /** Rows written before the line-item stage hold no line item. */
  lemma {:induction false} NoLineItems(ws: seq<Row>)
    requires InStages(ws, 0, 4)
    ensures LineItems(ws) == []
  {
    if |ws| > 0 {
      assert InStages(ws[1..], 0, 4) by {
        assert forall i :: 0 <= i < |ws[1..]| ==> ws[1..][i] == ws[i + 1];
      }
      NoLineItems(ws[1..]);
    }
  }

  /** Rows of the line-item stage are line items, in order. */
  lemma {:induction false} OnlyLineItems(ws: seq<Row>)
    requires InStages(ws, 5, 5)
    ensures |LineItems(ws)| == |ws|
    ensures forall i :: 0 <= i < |ws| ==> LineItems(ws)[i] == ws[i].lineItem
  {
    if |ws| > 0 {
      assert InStages(ws[1..], 5, 5) by {
        assert forall i :: 0 <= i < |ws[1..]| ==> ws[1..][i] == ws[i + 1];
      }
      OnlyLineItems(ws[1..]);
    }
  }

  /** Running a later stage after an earlier one keeps the tables in order
      and every row with its document. */
  lemma ThenKeepsOrder(a: Normalized, b: Normalized, lo: nat, m: nat, hi: nat, documentId: string)
    requires StagesOrdered(a.writes) && StagesOrdered(b.writes)
    requires InStages(a.writes, lo, m) && InStages(b.writes, m, hi) && lo <= m <= hi
    requires BelongTo(a.writes, documentId) && BelongTo(b.writes, documentId)
    ensures StagesOrdered(Then(a, b).writes)
    ensures InStages(Then(a, b).writes, lo, hi)
    ensures BelongTo(Then(a, b).writes, documentId)
  {
    if a.completes {
      var w := a.writes + b.writes;
      assert Then(a, b).writes == w;
      assert forall i :: |a.writes| <= i < |w| ==> w[i] == b.writes[i - |a.writes|];
    }
  }

  lemma SectionsShape(documentId: string, llm: LlmData, toInstant: Clock)
    ensures StagesOrdered(Sections(documentId, llm, toInstant).writes)
    ensures InStages(Sections(documentId, llm, toInstant).writes, 1, 5)
    ensures BelongTo(Sections(documentId, llm, toInstant).writes, documentId)
  {
    ItemStageShape(documentId, ItemsOf(llm));
    ChainShape(InvoiceStage(documentId, llm, toInstant), VendorStage(documentId, llm),
      CustomerStage(documentId, llm), PaymentStage(documentId, llm, toInstant),
      ItemStage(documentId, ItemsOf(llm)), documentId);
  }

  /** Five stages that each write only their own table, for one document,
      keep that shape when chained. */
  lemma ChainShape(inv: Normalized, ven: Normalized, cus: Normalized, pay: Normalized,
                   items: Normalized, documentId: string)
    requires InStages(inv.writes, 1, 1) && InStages(ven.writes, 2, 2)
    requires InStages(cus.writes, 3, 3) && InStages(pay.writes, 4, 4)
    requires InStages(items.writes, 5, 5)
    requires BelongTo(inv.writes, documentId) && BelongTo(ven.writes, documentId)
    requires BelongTo(cus.writes, documentId) && BelongTo(pay.writes, documentId)
    requires BelongTo(items.writes, documentId)
    ensures var w := Then(inv, Then(ven, Then(cus, Then(pay, items)))).writes;
      StagesOrdered(w) && InStages(w, 1, 5) && BelongTo(w, documentId)
  {
    ThenKeepsOrder(pay, items, 4, 5, 5, documentId);
    var t4 := Then(pay, items);
    ThenKeepsOrder(cus, t4, 3, 4, 5, documentId);
    var t3 := Then(cus, t4);
    ThenKeepsOrder(ven, t3, 2, 3, 5, documentId);
    var t2 := Then(ven, t3);
    ThenKeepsOrder(inv, t2, 1, 2, 5, documentId);
  }

  /** Every row a record writes belongs to its document, the document row
      comes first and only once, and the tables are written in the fixed
      order document, invoice, vendor, customer, payment, line items --
      whether or not the record completes. */
  lemma NormalizeShape(rec: RawRecord, toInstant: Clock)
    ensures var n := Normalize(rec, toInstant);
      && BelongTo(n.writes, rec.id)
      && StagesOrdered(n.writes)
      && CountStage(n.writes, 0) == (if DocumentOk(rec, toInstant) then 1 else 0)
      && (forall j :: 0 < j < |n.writes| ==> !n.writes[j].DocumentRow?)
  {
    if DocumentOk(rec, toInstant) {
      var llm := rec.Llm().GetOr(NoLlm);
      NormalizeWrites(rec, toInstant);
      SectionsShape(rec.id, llm, toInstant);
      DocumentThenRest(DocumentRow(DocumentOf(rec, toInstant).value), Sections(rec.id, llm, toInstant).writes, rec.id);
    }
  }

  /** A document row followed by rows of the later tables of that document. */
  lemma DocumentThenRest(doc: Row, rest: seq<Row>, documentId: string)
    requires doc.DocumentRow? && doc.DocumentId() == documentId
    requires StagesOrdered(rest) && InStages(rest, 1, 5) && BelongTo(rest, documentId)
    ensures var w := [doc] + rest;
      && BelongTo(w, documentId)
      && StagesOrdered(w)
      && CountStage(w, 0) == 1
      && (forall j :: 0 < j < |w| ==> !w[j].DocumentRow?)
  {
    var w := [doc] + rest;
    assert forall j :: 0 < j < |w| ==> w[j] == rest[j - 1];
    CountStageAppend([doc], rest, 0);
    assert [doc][1..] == [];
    RestHasNoDocument(rest);
  }

  lemma {:induction false} RestHasNoDocument(ws: seq<Row>)
    requires InStages(ws, 1, 5)
    ensures CountStage(ws, 0) == 0
  {
    if |ws| > 0 {
      assert InStages(ws[1..], 1, 5) by {
        assert forall i :: 0 <= i < |ws[1..]| ==> ws[1..][i] == ws[i + 1];
      }
      RestHasNoDocument(ws[1..]);
    }
  }

  /** The four single-row stages all complete. */
  predicate FrontCompletes(documentId: string, llm: LlmData, toInstant: Clock) {
    && InvoiceStage(documentId, llm, toInstant).completes
    && VendorStage(documentId, llm).completes
    && CustomerStage(documentId, llm).completes
    && PaymentStage(documentId, llm, toInstant).completes
  }

  /** When the four single-row stages complete, the sections write their
      rows followed by the line items. */
  lemma SectionsComplete(documentId: string, llm: LlmData, toInstant: Clock)
    requires FrontCompletes(documentId, llm, toInstant)
    ensures Sections(documentId, llm, toInstant).completes == ItemStage(documentId, ItemsOf(llm)).completes
    ensures Sections(documentId, llm, toInstant).writes
      == InvoiceStage(documentId, llm, toInstant).writes
       + (VendorStage(documentId, llm).writes
       + (CustomerStage(documentId, llm).writes
       + (PaymentStage(documentId, llm, toInstant).writes
       + ItemStage(documentId, ItemsOf(llm)).writes)))
  {
  }

  /** A chain of four single-table stages and a last one, where one of the
      four throws, stops before the last. */
  lemma ChainStops(a: Normalized, b: Normalized, c: Normalized, d: Normalized, e: Normalized)
    requires InStages(a.writes, 1, 1) && InStages(b.writes, 2, 2)
    requires InStages(c.writes, 3, 3) && InStages(d.writes, 4, 4)
    requires !(a.completes && b.completes && c.completes && d.completes)
    ensures !Then(a, Then(b, Then(c, Then(d, e)))).completes
    ensures InStages(Then(a, Then(b, Then(c, Then(d, e)))).writes, 1, 4)
  {
    var r := Then(a, Then(b, Then(c, Then(d, e))));
    if a.completes && b.completes && c.completes {
      assert r.writes == a.writes + (b.writes + (c.writes + d.writes));
    } else if a.completes && b.completes {
      assert r.writes == a.writes + (b.writes + c.writes);
    } else if a.completes {
      assert r.writes == a.writes + b.writes;
    }
  }

  /** When one of the four single-row stages throws, the sections stop
      before the line items. */
  lemma SectionsStop(documentId: string, llm: LlmData, toInstant: Clock)
    requires !FrontCompletes(documentId, llm, toInstant)
    ensures !Sections(documentId, llm, toInstant).completes
    ensures InStages(Sections(documentId, llm, toInstant).writes, 1, 4)
  {
    ChainStops(InvoiceStage(documentId, llm, toInstant), VendorStage(documentId, llm),
               CustomerStage(documentId, llm), PaymentStage(documentId, llm, toInstant),
               ItemStage(documentId, ItemsOf(llm)));
  }

  /** A record whose document row is accepted writes it and then the sections. */
  lemma NormalizeWrites(rec: RawRecord, toInstant: Clock)
    requires DocumentOk(rec, toInstant)
    ensures var r := Sections(rec.id, rec.Llm().GetOr(NoLlm), toInstant);
      && Normalize(rec, toInstant).writes == [DocumentRow(DocumentOf(rec, toInstant).value)] + r.writes
      && Normalize(rec, toInstant).completes == r.completes
  {
  }

  /** Line items written by a chain of stages come from its last stage. */
  lemma ChainItems(a: Normalized, b: Normalized, c: Normalized, d: Normalized, e: Normalized)
    requires InStages(a.writes, 1, 1) && InStages(b.writes, 2, 2)
    requires InStages(c.writes, 3, 3) && InStages(d.writes, 4, 4)
    ensures LineItems(a.writes + (b.writes + (c.writes + (d.writes + e.writes)))) == LineItems(e.writes)
  {
    NoLineItems(a.writes);
    NoLineItems(b.writes);
    NoLineItems(c.writes);
    NoLineItems(d.writes);
    LineItemsAppend(d.writes, e.writes);
    LineItemsAppend(c.writes, d.writes + e.writes);
    LineItemsAppend(b.writes, c.writes + (d.writes + e.writes));
    LineItemsAppend(a.writes, b.writes + (c.writes + (d.writes + e.writes)));
  }

  /** Rows per table of a document row followed by a chain of stages. */
  lemma ChainCounts(doc: Row, a: Normalized, b: Normalized, c: Normalized, d: Normalized, e: Normalized)
    requires doc.DocumentRow?
    requires InStages(a.writes, 1, 1) && InStages(b.writes, 2, 2)
    requires InStages(c.writes, 3, 3) && InStages(d.writes, 4, 4) && InStages(e.writes, 5, 5)
    ensures var w := [doc] + (a.writes + (b.writes + (c.writes + (d.writes + e.writes))));
      && CountStage(w, 0) == 1
      && CountStage(w, 1) == |a.writes|
      && CountStage(w, 2) == |b.writes|
      && CountStage(w, 3) == |c.writes|
      && CountStage(w, 4) == |d.writes|
      && CountStage(w, 5) == |e.writes|
  {
    CountInStage([doc], 0);
    CountInStage(a.writes, 1);
    CountInStage(b.writes, 2);
    CountInStage(c.writes, 3);
    CountInStage(d.writes, 4);
    CountInStage(e.writes, 5);
    forall k: nat | k <= 5
      ensures CountStage([doc] + (a.writes + (b.writes + (c.writes + (d.writes + e.writes)))), k)
        == CountStage([doc], k) + CountStage(a.writes, k) + CountStage(b.writes, k)
         + CountStage(c.writes, k) + CountStage(d.writes, k) + CountStage(e.writes, k)
    {
      CountStageAppend(d.writes, e.writes, k);
      CountStageAppend(c.writes, d.writes + e.writes, k);
      CountStageAppend(b.writes, c.writes + (d.writes + e.writes), k);
      CountStageAppend(a.writes, b.writes + (c.writes + (d.writes + e.writes)), k);
      CountStageAppend([doc], a.writes + (b.writes + (c.writes + (d.writes + e.writes))), k);
    }
  }

  /** A record runs to completion exactly when it is well formed. */
  lemma NormalizeCompletes(rec: RawRecord, toInstant: Clock)
    ensures Normalize(rec, toInstant).completes <==> WellFormed(rec, toInstant)
  {
    var llm := rec.Llm().GetOr(NoLlm);
    if DocumentOk(rec, toInstant) {
      NormalizeWrites(rec, toInstant);
      if FrontCompletes(rec.id, llm, toInstant) {
        SectionsComplete(rec.id, llm, toInstant);
      } else {
        SectionsStop(rec.id, llm, toInstant);
      }
    }
  }

  /** A completed record wrote one document row, one row per present
      section and one row per line item. */
  lemma NormalizeCounts(rec: RawRecord, toInstant: Clock)
    requires Normalize(rec, toInstant).completes
    ensures var n := Normalize(rec, toInstant);
      var llm := rec.Llm().GetOr(NoLlm);
      && CountStage(n.writes, 0) == 1
      && CountStage(n.writes, 1) == (if llm.invoice.Some? then 1 else 0)
      && CountStage(n.writes, 2) == (if llm.vendor.Some? then 1 else 0)
      && CountStage(n.writes, 3) == (if llm.customer.Some? then 1 else 0)
      && CountStage(n.writes, 4) == (if llm.payment.Some? then 1 else 0)
      && CountStage(n.writes, 5) == |ItemsOf(llm)|
  {
    var llm := rec.Llm().GetOr(NoLlm);
    NormalizeWrites(rec, toInstant);
    if !FrontCompletes(rec.id, llm, toInstant) {
      SectionsStop(rec.id, llm, toInstant);
    }
    SectionsComplete(rec.id, llm, toInstant);
    ItemStageShape(rec.id, ItemsOf(llm));
    ChainCounts(DocumentRow(DocumentOf(rec, toInstant).value),
                InvoiceStage(rec.id, llm, toInstant), VendorStage(rec.id, llm),
                CustomerStage(rec.id, llm), PaymentStage(rec.id, llm, toInstant),
                ItemStage(rec.id, ItemsOf(llm)));
  }

  /** The line items written are the listed items, in their listed order,
      up to the first `null` item; a completed record wrote all of them. */
  lemma NormalizeLineItems(rec: RawRecord, toInstant: Clock)
    ensures var n := Normalize(rec, toInstant);
      var items := ItemsOf(rec.Llm().GetOr(NoLlm));
      var ls := LineItems(n.writes);
      && |ls| <= |items|
      && (forall i :: 0 <= i < |ls| ==> items[i].Some? && ls[i] == LineItemOf(rec.id, items[i].value))
      && (n.completes ==> |ls| == |items|)
  {
    var llm := rec.Llm().GetOr(NoLlm);
    if DocumentOk(rec, toInstant) {
      var d := DocumentOf(rec, toInstant).value;
      var r := Sections(rec.id, llm, toInstant);
      NormalizeWrites(rec, toInstant);
      LineItemsAppend([DocumentRow(d)], r.writes);
      assert [DocumentRow(d)][1..] == [];
      if FrontCompletes(rec.id, llm, toInstant) {
        var items := ItemStage(rec.id, ItemsOf(llm));
        SectionsComplete(rec.id, llm, toInstant);
        ChainItems(InvoiceStage(rec.id, llm, toInstant), VendorStage(rec.id, llm),
                   CustomerStage(rec.id, llm), PaymentStage(rec.id, llm, toInstant), items);
        ItemStageShape(rec.id, ItemsOf(llm));
        OnlyLineItems(items.writes);
      } else {
        SectionsStop(rec.id, llm, toInstant);
        NoLineItems(r.writes);
      }
    }
  }

  /** A present invoice section without a value throws right after the
      document row: the document row stays, nothing else is written. */
  lemma InvoiceWithoutValue(rec: RawRecord, toInstant: Clock)
    requires DocumentOk(rec, toInstant)
    requires rec.Llm().GetOr(NoLlm).invoice == Some(Section(None))
    ensures Normalize(rec, toInstant).writes == [DocumentRow(DocumentOf(rec, toInstant).value)]
    ensures !Normalize(rec, toInstant).completes
  {
    var d := DocumentOf(rec, toInstant).value;
    var rest := Sections(rec.id, rec.Llm().GetOr(NoLlm), toInstant);
    assert rest == Fail;
    assert Normalize(rec, toInstant) == Then(Normalized([DocumentRow(d)], true), rest);
  }

  /** The item loop stops exactly at the first `null` item. */
  lemma ItemStageStops(documentId: string, items: seq<Option<ItemFields>>, k: nat)
    requires k < |items| && items[k].None? && ItemsOk(items[..k])
    ensures |ItemStage(documentId, items).writes| == k
    ensures !ItemStage(documentId, items).completes
  {
    var r := ItemStage(documentId, items);
    assert !ItemsOk(items) by {
      assert !items[k].Some?;
    }
    forall j | 0 <= j < k
      ensures items[j].Some?
    {
      assert items[..k][j] == items[j];
    }
    assert items[|r.writes|].None?;
  }

  /** A `null` at position `k` of an otherwise fine record stops it after
      exactly `k` line items. */
  lemma NullItemStops(rec: RawRecord, toInstant: Clock, k: nat)
    requires var llm := rec.Llm().GetOr(NoLlm);
      && DocumentOk(rec, toInstant)
      && InvoiceOk(llm.invoice, toInstant)
      && HasValue(llm.vendor)
      && HasValue(llm.customer)
      && PaymentOk(llm.payment, toInstant)
    requires k < |ItemsOf(rec.Llm().GetOr(NoLlm))|
    requires ItemsOf(rec.Llm().GetOr(NoLlm))[k].None?
    requires ItemsOk(ItemsOf(rec.Llm().GetOr(NoLlm))[..k])
    ensures !Normalize(rec, toInstant).completes
    ensures |LineItems(Normalize(rec, toInstant).writes)| == k
  {
    var llm := rec.Llm().GetOr(NoLlm);
    var xs := ItemsOf(llm);
    var d := DocumentOf(rec, toInstant).value;
    var r := Sections(rec.id, llm, toInstant);
    var items := ItemStage(rec.id, xs);
    NormalizeWrites(rec, toInstant);
    LineItemsAppend([DocumentRow(d)], r.writes);
    assert [DocumentRow(d)][1..] == [];
    SectionsComplete(rec.id, llm, toInstant);
    ChainItems(InvoiceStage(rec.id, llm, toInstant), VendorStage(rec.id, llm),
               CustomerStage(rec.id, llm), PaymentStage(rec.id, llm, toInstant), items);
    ItemStageShape(rec.id, xs);
    OnlyLineItems(items.writes);
    ItemStageStops(rec.id, xs, k);
    NormalizeCompletes(rec, toInstant);
  }

  /** A size written as the numeral of a 64-bit value is stored as that value. */
  lemma FileSizeKept(rec: RawRecord, toInstant: Clock, size: int)
    requires rec.fileSize == Show(size)
    requires MinInt64 <= size <= MaxInt64
    requires toInstant(rec.createdAt).Some? && toInstant(rec.updatedAt).Some?
    requires WrapperOk(rec.assignedAt, toInstant) && WrapperOk(rec.processedAt, toInstant)
    ensures DocumentOf(rec, toInstant).Value?
    ensures DocumentOf(rec, toInstant).value.fileSize == size
  {
    ParseBigIntShow(size);
  }

  /** A size beyond the 64-bit column makes the record write nothing. */
  lemma OversizedFileRejected(rec: RawRecord, toInstant: Clock, size: int)
    requires rec.fileSize == Show(size)
    requires size > MaxInt64
    ensures Normalize(rec, toInstant).writes == []
    ensures !Normalize(rec, toInstant).completes
  {
    ParseBigIntShow(size);
  }

  /** A size that is neither blank nor a `BigInt` numeral makes `BigInt`
      throw, so the record writes nothing. */
  lemma NonNumericSizeRejected(rec: RawRecord, toInstant: Clock)
    requires var t := TrimEnd(TrimStart(rec.fileSize)); t != "" && !BigIntNumeral(t)
    ensures Normalize(rec, toInstant).writes == []
    ensures !Normalize(rec, toInstant).completes
  {
    assert ParseBigInt(rec.fileSize).None?;
  }
}
