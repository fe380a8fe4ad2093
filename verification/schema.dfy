/** The relational rows the seed script writes and the API reads. Money is
    in integer cents, instants in integer milliseconds since the epoch;
    every nullable column is an `Option`. */
module Schema {
  import opened Maybe

  datatype Organization = Organization(id: string, name: string)

  datatype Department = Department(id: string, name: string, organizationId: string)

  datatype User = User(id: string, email: string, name: string, organizationId: string)

  datatype Document = Document(
    id: string,
    name: string,
    filePath: string,
    fileSize: int,
    fileType: string,
    status: string,
    organizationId: string,
    departmentId: string,
    uploadedById: string,
    assignedToId: Option<string>,
    assignedAt: Option<int>,
    isValidatedByHuman: bool,
    processedAt: Option<int>,
    createdAt: int,
    updatedAt: int,
    analyticsId: Option<string>)

  datatype Invoice = Invoice(
    documentId: string,
    invoiceId: Option<string>,
    invoiceDate: Option<int>,
    deliveryDate: Option<int>,
    subTotal: Option<int>,
    totalTax: Option<int>,
    invoiceTotal: Option<int>,
    currencySymbol: string,
    documentType: string)

  datatype Vendor = Vendor(
    documentId: string,
    vendorName: Option<string>,
    vendorPartyNumber: Option<string>,
    vendorAddress: Option<string>,
    vendorTaxId: Option<string>)

  datatype Customer = Customer(
    documentId: string,
    customerName: Option<string>,
    customerAddress: Option<string>)

  datatype Payment = Payment(
    documentId: string,
    dueDate: Option<int>,
    paymentTerms: Option<string>,
    bankAccountNumber: Option<string>,
    bic: Option<string>,
    accountName: Option<string>,
    netDays: Option<int>,
    discountPercentage: Option<int>,
    discountDays: Option<int>,
    discountDueDate: Option<int>,
    discountedTotal: Option<int>)

  datatype LineItem = LineItem(
    documentId: string,
    srNo: Option<int>,
    description: string,
    quantity: Option<int>,
    unitPrice: Option<int>,
    totalPrice: Option<int>,
    category: Option<string>)

  /** One row written to the store, of any of the per-document tables. */
  datatype Row =
    | DocumentRow(document: Document)
    | InvoiceRow(invoice: Invoice)
    | VendorRow(vendor: Vendor)
    | CustomerRow(customer: Customer)
    | PaymentRow(payment: Payment)
    | LineItemRow(lineItem: LineItem)
  {
    /** The document a row belongs to (a document belongs to itself). */
    function DocumentId(): string {
      match this
      case DocumentRow(d) => d.id
      case InvoiceRow(i) => i.documentId
      case VendorRow(v) => v.documentId
      case CustomerRow(c) => c.documentId
      case PaymentRow(p) => p.documentId
      case LineItemRow(l) => l.documentId
    }
  }
}
