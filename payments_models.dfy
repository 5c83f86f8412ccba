/**
 * The `Payment` and `WalletTransaction` records of payments/models.py.
 * Amounts are exact cents, so every `amount` and `balance_after` is a
 * two-decimal value by construction.
 */
module PaymentsModels {
  import opened Wrappers
  import opened Units
  import opened AccountsModels
  import opened AppointmentsModels

  /** The source names the first choice `FILED`; its stored code is "failed". */
  datatype PaymentStatus = Failed | Succeeded

  function PaymentStatusCode(s: PaymentStatus): (code: string)
    ensures ParsePaymentStatus(code) == Some(s)
  {
    match s
    case Failed => "failed"
    case Succeeded => "success"
  }

  /** Only "failed" and "success" are status choices. */
  function ParsePaymentStatus(code: string): Option<PaymentStatus> {
    if code == "failed" then Some(Failed) else if code == "success" then Some(Succeeded) else None
  }

  datatype TransactionType = Deposit | Withdraw

  function TransactionTypeCode(t: TransactionType): (code: string)
    ensures ParseTransactionType(code) == Some(t)
  {
    match t
    case Deposit => "deposit"
    case Withdraw => "withdraw"
  }

  /** Only "deposit" and "withdraw" are type choices. */
  function ParseTransactionType(code: string): Option<TransactionType> {
    if code == "deposit" then Some(Deposit) else if code == "withdraw" then Some(Withdraw) else None
  }

  /** A payment for an appointment (a foreign key: an appointment may have several). */
  datatype Payment = Payment(appointment: AppointmentId, amount: Money, status: PaymentStatus)

  /**
   * A ledger entry of one user's wallet. The appointment is recorded only for
   * payments; deposits and withdrawals leave it empty.
   */
  datatype WalletTransaction = WalletTransaction(
    user: UserId,
    kind: TransactionType,
    amount: Money,
    balanceAfter: Money,
    appointment: Option<AppointmentId>)
}
