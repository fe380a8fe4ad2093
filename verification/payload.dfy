/** The raw records the seed script reads: a document export whose
    `extractedData.llmData` payload is nested and optional at every level.

    A section (`invoice`, `vendor`, ...) is a `{ value: ... }` wrapper and is
    modelled as `Option<Section<T>>`: absent, present with a value, or
    present without one. A leaf field is read as `x?.value`, where a missing
    wrapper and a missing value both give `undefined`; it is modelled as a
    single `Option`. Date leaves and `$date` wrappers keep their text; the
    parse to an instant is a parameter of the normaliser. */
module Payload {
  import opened Maybe

  datatype Section<T> = Section(value: Option<T>)

  datatype InvoiceFields = InvoiceFields(
    invoiceId: Option<string>,
    invoiceDate: Option<string>,
    deliveryDate: Option<string>)

  datatype SummaryFields = SummaryFields(
    subTotal: Option<int>,
    totalTax: Option<int>,
    invoiceTotal: Option<int>,
    currencySymbol: Option<string>,
    documentType: Option<string>)

  datatype VendorFields = VendorFields(
    vendorName: Option<string>,
    vendorPartyNumber: Option<string>,
    vendorAddress: Option<string>,
    vendorTaxId: Option<string>)

  datatype CustomerFields = CustomerFields(
    customerName: Option<string>,
    customerAddress: Option<string>)

  datatype PaymentFields = PaymentFields(
    dueDate: Option<string>,
    paymentTerms: Option<string>,
    bankAccountNumber: Option<string>,
    bic: Option<string>,
    accountName: Option<string>,
    netDays: Option<int>,
    discountPercentage: Option<int>,
    discountDays: Option<int>,
    discountDueDate: Option<string>,
    discountedTotal: Option<int>)

  datatype ItemFields = ItemFields(
    srNo: Option<int>,
    description: Option<string>,
    quantity: Option<int>,
    unitPrice: Option<int>,
    totalPrice: Option<int>)

  /** `items?.value`: the list of items, each of which may be JSON `null`. */
  datatype LineItemsFields = LineItemsFields(items: Option<seq<Option<ItemFields>>>)

  datatype LlmData = LlmData(
    invoice: Option<Section<InvoiceFields>>,
    summary: Option<Section<SummaryFields>>,
    vendor: Option<Section<VendorFields>>,
    customer: Option<Section<CustomerFields>>,
    payment: Option<Section<PaymentFields>>,
    lineItems: Option<Section<LineItemsFields>>)

  datatype ExtractedData = ExtractedData(llmData: Option<LlmData>)

  /** One exported document. `fileSize` is the `$numberLong` text, the
      dates are the `$date` texts. */
  datatype RawRecord = RawRecord(
    id: string,
    name: string,
    filePath: string,
    fileSize: string,
    fileType: string,
    status: string,
    organizationId: string,
    departmentId: string,
    createdAt: string,
    updatedAt: string,
    isValidatedByHuman: bool,
    uploadedById: string,
    assignedToId: Option<string>,
    assignedAt: Option<string>,
    extractedData: Option<ExtractedData>,
    processedAt: Option<string>,
    analyticsId: Option<string>)
  {
    /** `extractedData?.llmData` */
    function Llm(): Option<LlmData> {
      if extractedData.Some? then extractedData.value.llmData else None
    }
  }
}
