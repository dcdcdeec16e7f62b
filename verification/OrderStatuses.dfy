/** The order state machine's vocabulary and its transition tables. */
module OrderStatuses {

  datatype OrderStatus =
    | PendingVerification
    | RequiresReview
    | RequiresAttention
    | OnHold
    | SentToSupplier
    | ChangeRequested
    | Confirmed
    | Preparing
    | OutForDelivery
    | Delivered
    | Completed
    | UnableToFulfil
    | Cancelled

  datatype ExceptionReason =
    | MissingEmail
    | NoSupplier
    | NoDefaultCake
    | ShortNoticeLeadTime
    | AddressManuallyCorrected
    | QuantityChanged

  datatype LeadTimeClass = Normal | ShortNotice | Urgent

  /** ALLOWED_TRANSITIONS */
  function AllowedTransitions(from: OrderStatus): set<OrderStatus> {
    match from
    case PendingVerification => {RequiresReview, SentToSupplier, OnHold, RequiresAttention, Cancelled}
    case RequiresReview => {SentToSupplier, OnHold, RequiresAttention, Cancelled}
    case RequiresAttention => {PendingVerification, SentToSupplier, OnHold, Cancelled, RequiresAttention}
    case OnHold => {PendingVerification, RequiresReview, SentToSupplier, Cancelled}
    case SentToSupplier => {Confirmed, ChangeRequested, UnableToFulfil, OnHold, RequiresAttention, Cancelled}
    case ChangeRequested => {SentToSupplier, Cancelled}
    case Confirmed => {Preparing, UnableToFulfil, Cancelled}
    case Preparing => {OutForDelivery, UnableToFulfil, Cancelled}
    case OutForDelivery => {Delivered, RequiresAttention, Cancelled}
    case Delivered => {Completed}
    case UnableToFulfil => {RequiresAttention}
    case Cancelled => {}
    case Completed => {}
  }

  /** SUPPLIER_DRIVABLE */
  function SupplierDrivable(from: OrderStatus): set<OrderStatus> {
    match from
    case SentToSupplier => {Confirmed, ChangeRequested, UnableToFulfil}
    case Confirmed => {Preparing}
    case Preparing => {OutForDelivery}
    case OutForDelivery => {Delivered}
    case _ => {}
  }

  /** SUPPLIER_ACTIONABLE_STATUSES */
  predicate SupplierActionable(s: OrderStatus) {
    s in {SentToSupplier, ChangeRequested, Confirmed, Preparing, OutForDelivery}
  }

  /** SUPPLIER_VISIBLE_STATUSES */
  predicate SupplierVisible(s: OrderStatus) {
    SupplierActionable(s) || s in {Delivered, Completed, UnableToFulfil, Cancelled}
  }

  /** The statuses detection and manual creation can give a new order. */
  predicate InitialStatus(s: OrderStatus) {
    s in {PendingVerification, RequiresAttention, OnHold}
  }

  /** The statuses a send may start from (`_SENDABLE_STATUSES`). */
  predicate Sendable(s: OrderStatus) {
    s in {PendingVerification, RequiresReview, RequiresAttention}
  }
}
