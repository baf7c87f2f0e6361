/**
 * Entities of the point-of-sale system (types.ts) and the value invariants the
 * database enforces on them (the CHECK constraints of scripts/init-db.js).
 * Money is in Kuwaiti dinars as a `real`; quantities are `real` too, since the
 * cashier may sell fractional quantities.
 */
module Types {
  import opened Wrappers

  datatype PaymentMethod = Knet | Cash | Cheque | Credit
  datatype SaleStatus = Completed | Cancelled | Refunded
  datatype TxnType = CreditSale | Payment | Adjustment
  datatype UserRole = Admin | Cashier
  datatype ContractorStatus = Active | Inactive

  /** The spelling stored in `sales.payment_method`. */
  function MethodName(m: PaymentMethod): string {
    match m
    case Knet => "knet"
    case Cash => "cash"
    case Cheque => "cheque"
    case Credit => "credit"
  }

  /** The spelling stored in `sales.status`. */
  function StatusName(s: SaleStatus): string {
    match s
    case Completed => "completed"
    case Cancelled => "cancelled"
    case Refunded => "refunded"
  }

  /** `${x}` and `String(x)` of a nullable column: NULL prints as `null`. */
  function Shown(x: Option<string>): string {
    if x.Some? then x.value else "null"
  }

  /** `knet_reference || cheque_number || ''`: the first non-empty reference. */
  function ReferenceOf(knet: Option<string>, cheque: Option<string>): (r: string)
    ensures knet.Some? && knet.value != "" ==> r == knet.value
    ensures (knet.None? || knet.value == "") && cheque.Some? && cheque.value != "" ==> r == cheque.value
    ensures (knet.None? || knet.value == "") && (cheque.None? || cheque.value == "") ==> r == ""
  {
    if knet.Some? && knet.value != "" then knet.value
    else if cheque.Some? && cheque.value != "" then cheque.value
    else ""
  }

  datatype User = User(id: int, username: string, name: string, role: UserRole)

  datatype Contractor = Contractor(
    id: int,
    name: string,
    companyName: Option<string>,
    phone: Option<string>,
    email: Option<string>,
    address: Option<string>,
    creditLimit: real,
    totalCredits: real,
    status: ContractorStatus)

  /** An append-only ledger row; `balanceAfter` snapshots the balance once the row is applied. */
  datatype CreditTxn = CreditTxn(
    id: int,
    contractorId: int,
    saleId: Option<int>,
    kind: TxnType,
    amount: real,
    description: string,
    balanceAfter: real,
    createdBy: int)

  datatype Item = Item(id: int, nameEn: string, nameAr: string, unit: string, pricePerUnit: real, active: bool)

  /** A cart line, also the payload of one `sale_items` row. */
  datatype SaleItem = SaleItem(itemId: int, nameEn: string, nameAr: string, quantity: real, unitPrice: real, lineTotal: real)

  /** A `sales` row; `day` is the calendar date of `sale_date`. */
  datatype Sale = Sale(
    id: int,
    saleNumber: string,
    userId: int,
    contractorId: Option<int>,
    subtotal: real,
    discountAmount: real,
    discountPercentage: real,
    totalAmount: real,
    paymentMethod: PaymentMethod,
    knetReference: Option<string>,
    chequeNumber: Option<string>,
    notes: Option<string>,
    status: SaleStatus,
    day: int)

  /** A `sale_items` row: the line and the sale it belongs to. */
  datatype SaleItemRow = SaleItemRow(saleId: int, item: SaleItem)

  datatype Refund = Refund(id: int, refundNumber: string, saleId: int, amount: real, reason: string, createdBy: int)

  /** CHECK constraints of the `sales` table. */
  predicate SaleRowOk(s: Sale) {
    && s.subtotal >= 0.0
    && s.discountAmount >= 0.0
    && 0.0 <= s.discountPercentage <= 100.0
    && s.totalAmount >= 0.0
  }

  /** CHECK constraints of the `sale_items` table. */
  predicate SaleItemOk(i: SaleItem) {
    i.quantity > 0.0 && i.unitPrice > 0.0 && i.lineTotal > 0.0
  }

  /** CHECK constraint of `refunds.amount`. */
  predicate RefundAmountOk(amount: real) {
    amount > 0.0
  }
}
