/**
 * The wallet views of payments/views.py: deposit, withdrawal, paying for an
 * appointment from the wallet or by card, and the recent-transactions page.
 * Each view is one atomic step on the database. The decision a view takes
 * is a function of the request and the current rows; the method applies it.
 */
module PaymentsViews {
  import opened Wrappers
  import opened Tables
  import opened Units
  import opened AccountsModels
  import opened AppointmentsModels
  import opened PaymentsModels
  import opened Database

  /** `request.user.wallet_balance`. */
  function Balance(users: Table<User>, uid: UserId): Money
    requires HasId(users, uid)
  {
    Get(users, uid).value.walletBalance
  }

  /** `user.wallet_balance = b; user.save()`: only that user's balance changes. */
  function SetBalance(users: Table<User>, uid: UserId, b: Money): (r: Table<User>)
    requires HasId(users, uid)
    ensures |r| == |users|
    ensures UniqueIds(users) ==> forall i :: 0 <= i < |users| ==>
              r[i].id == users[i].id &&
              r[i].val == if users[i].id == uid then users[i].val.(walletBalance := b) else users[i].val
  {
    Update(users, uid, Get(users, uid).value.(walletBalance := b))
  }

  /** The signed effect of a ledger entry on the balance. */
  function Signed(x: WalletTransaction): int {
    match x.kind
    case Deposit => x.amount
    case Withdraw => -x.amount
  }

  /** The sum of a user's ledger entries, deposits positive and withdrawals negative. */
  function Net(ts: Table<WalletTransaction>, uid: UserId): int {
    if |ts| == 0 then 0
    else
      var last := ts[|ts| - 1].val;
      Net(ts[..|ts| - 1], uid) + (if last.user == uid then Signed(last) else 0)
  }

  /** `WalletTransaction.objects.filter(user_id=uid)`, oldest first. */
  function Own(ts: Table<WalletTransaction>, uid: UserId): (r: Table<WalletTransaction>)
    ensures forall x :: x in r <==> x in ts && x.val.user == uid
  {
    Filter(ts, (x: Row<WalletTransaction>) => x.val.user == uid)
  }

  /** The user's newest ledger entry, if any. */
  function Latest(ts: Table<WalletTransaction>, uid: UserId): Option<WalletTransaction> {
    var mine := Own(ts, uid);
    if |mine| == 0 then None else Some(mine[|mine| - 1].val)
  }

  /** The newest ledger entry of the user records the balance the user has now. */
  predicate LedgerMatches(users: Table<User>, ts: Table<WalletTransaction>, uid: UserId)
    requires HasId(users, uid)
  {
    Latest(ts, uid).Some? ==> Latest(ts, uid).value.balanceAfter == Balance(users, uid)
  }

  predicate NonNegativeBalances(users: Table<User>) {
    forall i :: 0 <= i < |users| ==> users[i].val.walletBalance >= 0
  }

  /**
   * Moving a user's balance by one ledger entry (the common step of deposit,
   * withdrawal and wallet payment): the balance moves by exactly the entry's
   * signed amount, the entry becomes the user's newest and records the new
   * balance, and every other user keeps both balance and ledger.
   */
  lemma {:induction false} PostingKeepsLedger(users: Table<User>, ts: Table<WalletTransaction>, uid: UserId,
                                              kind: TransactionType, amount: Money, appt: Option<AppointmentId>)
    requires UniqueIds(users) && HasId(users, uid)
    ensures var x := WalletTransaction(uid, kind, amount, Balance(users, uid) + Signed(WalletTransaction(uid, kind, amount, 0, appt)), appt);
            var users' := SetBalance(users, uid, x.balanceAfter);
            var ts' := Insert(ts, x);
            && HasId(users', uid)
            && Balance(users', uid) == x.balanceAfter
            && Latest(ts', uid) == Some(x)
            && LedgerMatches(users', ts', uid)
            && Net(ts', uid) - Balance(users', uid) == Net(ts, uid) - Balance(users, uid)
            && (forall v :: v != uid && HasId(users, v) ==>
                  HasId(users', v) && Balance(users', v) == Balance(users, v) &&
                  Latest(ts', v) == Latest(ts, v) && Net(ts', v) == Net(ts, v))
  {
    var x := WalletTransaction(uid, kind, amount, Balance(users, uid) + Signed(WalletTransaction(uid, kind, amount, 0, appt)), appt);
    var users' := SetBalance(users, uid, x.balanceAfter);
    var ts' := Insert(ts, x);
    var k :| 0 <= k < |users| && users[k].id == uid;
    assert users'[k] == Row(uid, users[k].val.(walletBalance := x.balanceAfter));
    assert ts'[..|ts'| - 1] == ts;
    FilterAppend(ts, Row(NextId(ts), x), (y: Row<WalletTransaction>) => y.val.user == uid);
    forall v | v != uid && HasId(users, v)
      ensures HasId(users', v) && Balance(users', v) == Balance(users, v)
      ensures Latest(ts', v) == Latest(ts, v)
    {
      var j :| 0 <= j < |users| && users[j].id == v;
      assert users'[j] == users[j];
      FilterAppend(ts, Row(NextId(ts), x), (y: Row<WalletTransaction>) => y.val.user == v);
    }
  }

  /** The outcome of `deposit_funds` and `withdraw_funds`. */
  datatype WalletOutcome =
    | ShowForm            // a GET renders the form
    | AmountNotPositive   // "Amount must be greater than zero."
    | InsufficientFunds   // "Insufficient funds in wallet."
    | Deposited
    | Withdrew

  /** What `deposit_funds` does with a request carrying `amount`. */
  function DepositDecision(isPost: bool, amount: Money): (o: WalletOutcome)
    ensures o == Deposited <==> isPost && amount > 0
    ensures o == ShowForm <==> !isPost
    ensures o in {ShowForm, AmountNotPositive, Deposited}
  {
    if !isPost then ShowForm
    else if amount <= 0 then AmountNotPositive
    else Deposited
  }

  /** What `withdraw_funds` does: the sign check precedes the funds check. */
  function WithdrawDecision(isPost: bool, amount: Money, balance: Money): (o: WalletOutcome)
    ensures o == Withdrew <==> isPost && 0 < amount <= balance
    ensures o == AmountNotPositive <==> isPost && amount <= 0
    ensures o == InsufficientFunds <==> isPost && 0 < amount && balance < amount
    ensures o == ShowForm <==> !isPost
    ensures o == Withdrew ==> balance - amount >= 0
  {
    if !isPost then ShowForm
    else if amount <= 0 then AmountNotPositive
    else if amount > balance then InsufficientFunds
    else Withdrew
  }

  /** One ledger posting: the user's balance moves by the entry and the entry records the new balance. */
  method Post(db: Database, uid: UserId, kind: TransactionType, amount: Money, appt: Option<AppointmentId>)
    requires db.Valid() && HasId(db.users, uid)
    modifies db`users, db`transactions
    ensures db.Valid()
    ensures var b := Balance(old(db.users), uid) + Signed(WalletTransaction(uid, kind, amount, 0, appt));
            db.users == SetBalance(old(db.users), uid, b) &&
            db.transactions == Insert(old(db.transactions), WalletTransaction(uid, kind, amount, b, appt))
  {
    var b := Balance(db.users, uid) + Signed(WalletTransaction(uid, kind, amount, 0, appt));
    UpdateKeepsUsernames(db.users, uid, Get(db.users, uid).value.(walletBalance := b));
    db.users := SetBalance(db.users, uid, b);
    db.transactions := Insert(db.transactions, WalletTransaction(uid, kind, amount, b, appt));
  }

  /** `deposit_funds`: the balance rises by `amount` and one DEPOSIT entry records the new balance. */
  method DepositFunds(db: Database, uid: UserId, isPost: bool, amount: Money) returns (o: WalletOutcome)
    requires db.Valid() && HasId(db.users, uid)
    modifies db`users, db`transactions
    ensures db.Valid()
    ensures o == DepositDecision(isPost, amount)
    ensures o == Deposited ==>
              var b := Balance(old(db.users), uid) + amount;
              db.users == SetBalance(old(db.users), uid, b) &&
              db.transactions == Insert(old(db.transactions), WalletTransaction(uid, Deposit, amount, b, None))
    ensures o != Deposited ==> db.users == old(db.users) && db.transactions == old(db.transactions)
  {
    o := DepositDecision(isPost, amount);
    if o == Deposited {
      Post(db, uid, Deposit, amount, None);
    }
  }

  /** `withdraw_funds`: the balance falls by `amount`, never below zero, and one WITHDRAW entry records it. */
  method WithdrawFunds(db: Database, uid: UserId, isPost: bool, amount: Money) returns (o: WalletOutcome)
    requires db.Valid() && HasId(db.users, uid)
    modifies db`users, db`transactions
    ensures db.Valid()
    ensures o == WithdrawDecision(isPost, amount, Balance(old(db.users), uid))
    ensures o == Withdrew ==>
              var b := Balance(old(db.users), uid) - amount;
              b >= 0 &&
              db.users == SetBalance(old(db.users), uid, b) &&
              db.transactions == Insert(old(db.transactions), WalletTransaction(uid, Withdraw, amount, b, None))
    ensures o != Withdrew ==> db.users == old(db.users) && db.transactions == old(db.transactions)
  {
    o := WithdrawDecision(isPost, amount, Balance(db.users, uid));
    if o == Withdrew {
      Post(db, uid, Withdraw, amount, None);
    }
  }

  /** A successful deposit or withdrawal keeps every balance non-negative. */
  lemma WalletStepsKeepBalancesNonNegative(users: Table<User>, uid: UserId, amount: Money)
    requires UniqueIds(users) && HasId(users, uid) && NonNegativeBalances(users)
    ensures DepositDecision(true, amount) == Deposited ==>
              NonNegativeBalances(SetBalance(users, uid, Balance(users, uid) + amount))
    ensures WithdrawDecision(true, amount, Balance(users, uid)) == Withdrew ==>
              NonNegativeBalances(SetBalance(users, uid, Balance(users, uid) - amount))
  {
    var k :| 0 <= k < |users| && users[k].id == uid;
    assert Balance(users, uid) == users[k].val.walletBalance;
  }

  /** The outcome of `process_payment`. */
  datatype PaymentOutcome =
    | AppointmentNotFound   // the 404 of `get_object_or_404`
    | ShowPaymentPage       // a GET, or a POST with neither method
    | WalletPaid
    | WalletInsufficient    // "Insufficient funds in wallet. ..."
    | CardPaid

  /** The appointment exists and belongs to the requesting patient. */
  predicate OwnsAppointment(appointments: Table<Appointment>, uid: UserId, apptId: AppointmentId) {
    HasId(appointments, apptId) && Get(appointments, apptId).value.patient == uid
  }

  /**
   * What `process_payment` does. The appointment's status is not consulted:
   * an appointment already confirmed or paid can be paid again.
   */
  function PaymentDecision(appointments: Table<Appointment>, uid: UserId, apptId: AppointmentId,
                           isPost: bool, paymentMethod: Option<string>, balance: Money): (o: PaymentOutcome)
    ensures o == AppointmentNotFound <==> !OwnsAppointment(appointments, uid, apptId)
    ensures o == WalletPaid <==> (OwnsAppointment(appointments, uid, apptId) && isPost &&
              paymentMethod == Some("wallet") && balance >= Get(appointments, apptId).value.consultationFee)
    ensures o == WalletInsufficient <==> (OwnsAppointment(appointments, uid, apptId) && isPost &&
              paymentMethod == Some("wallet") && balance < Get(appointments, apptId).value.consultationFee)
    ensures o == CardPaid <==> OwnsAppointment(appointments, uid, apptId) && isPost && paymentMethod == Some("card")
    ensures o == ShowPaymentPage <==> (OwnsAppointment(appointments, uid, apptId) &&
              (!isPost || paymentMethod !in {Some("wallet"), Some("card")}))
  {
    if !OwnsAppointment(appointments, uid, apptId) then AppointmentNotFound
    else if !isPost then ShowPaymentPage
    else if paymentMethod == Some("wallet") then
      if balance >= Get(appointments, apptId).value.consultationFee then WalletPaid else WalletInsufficient
    else if paymentMethod == Some("card") then CardPaid
    else ShowPaymentPage
  }

  /** The appointment table after `appointment.status = "CONFIRMED"; appointment.save()`. */
  function Confirm(appointments: Table<Appointment>, apptId: AppointmentId): Table<Appointment>
    requires HasId(appointments, apptId)
  {
    Update(appointments, apptId, Get(appointments, apptId).value.(status := Confirmed))
  }

  /** Confirming leaves the appointment owned by the same patient, so paying again is accepted. */
  lemma {:induction false} PaymentRepeatable(appointments: Table<Appointment>, uid: UserId, apptId: AppointmentId,
                                             paymentMethod: Option<string>, balance: Money)
    requires UniqueIds(appointments)
    requires PaymentDecision(appointments, uid, apptId, true, paymentMethod, balance) in {WalletPaid, CardPaid}
    ensures var after := Confirm(appointments, apptId);
            OwnsAppointment(after, uid, apptId) &&
            Get(after, apptId).value.status == Confirmed &&
            Get(after, apptId).value.consultationFee == Get(appointments, apptId).value.consultationFee &&
            (paymentMethod == Some("card") ==> PaymentDecision(after, uid, apptId, true, paymentMethod, balance) == CardPaid)
  {
    var k :| 0 <= k < |appointments| && appointments[k].id == apptId;
    var after := Confirm(appointments, apptId);
    assert after[k] == Row(apptId, appointments[k].val.(status := Confirmed));
  }

  /** Confirming an appointment keeps the one-appointment-per-slot rule. */
  lemma ConfirmKeepsSlots(appointments: Table<Appointment>, apptId: AppointmentId)
    requires UniqueIds(appointments) && OneAppointmentPerSlot(appointments) && HasId(appointments, apptId)
    ensures UniqueIds(Confirm(appointments, apptId)) && OneAppointmentPerSlot(Confirm(appointments, apptId))
  {
    var k :| 0 <= k < |appointments| && appointments[k].id == apptId;
    assert Get(appointments, apptId).value == appointments[k].val;
  }

  /** A successful Payment of the fee, then `appointment.status = "CONFIRMED"`. */
  method PayAndConfirm(db: Database, apptId: AppointmentId)
    requires db.Valid() && HasId(db.appointments, apptId)
    modifies db`payments, db`appointments
    ensures db.Valid()
    ensures db.payments == Insert(old(db.payments), Payment(apptId, Get(old(db.appointments), apptId).value.consultationFee, Succeeded))
    ensures db.appointments == Confirm(old(db.appointments), apptId)
  {
    db.payments := Insert(db.payments, Payment(apptId, Get(db.appointments, apptId).value.consultationFee, Succeeded));
    ConfirmKeepsSlots(db.appointments, apptId);
    db.appointments := Confirm(db.appointments, apptId);
  }

  /**
   * `process_payment`. From the wallet: the balance falls by the fee, one
   * successful Payment of the fee and one WITHDRAW entry linked to the
   * appointment are added, and the appointment is confirmed. By card: the
   * Payment and the confirmation only. Otherwise nothing changes.
   */
  method ProcessPayment(db: Database, uid: UserId, apptId: AppointmentId, isPost: bool, paymentMethod: Option<string>)
    returns (o: PaymentOutcome)
    requires db.Valid() && HasId(db.users, uid)
    modifies db`users, db`transactions, db`payments, db`appointments
    ensures db.Valid()
    ensures o == PaymentDecision(old(db.appointments), uid, apptId, isPost, paymentMethod, Balance(old(db.users), uid))
    ensures o == WalletPaid ==>
              var fee := Get(old(db.appointments), apptId).value.consultationFee;
              var b := Balance(old(db.users), uid) - fee;
              db.users == SetBalance(old(db.users), uid, b) &&
              db.payments == Insert(old(db.payments), Payment(apptId, fee, Succeeded)) &&
              db.transactions == Insert(old(db.transactions), WalletTransaction(uid, Withdraw, fee, b, Some(apptId))) &&
              db.appointments == Confirm(old(db.appointments), apptId)
    ensures o == CardPaid ==>
              db.users == old(db.users) && db.transactions == old(db.transactions) &&
              db.payments == Insert(old(db.payments), Payment(apptId, Get(old(db.appointments), apptId).value.consultationFee, Succeeded)) &&
              db.appointments == Confirm(old(db.appointments), apptId)
    ensures o !in {WalletPaid, CardPaid} ==>
              db.users == old(db.users) && db.transactions == old(db.transactions) &&
              db.payments == old(db.payments) && db.appointments == old(db.appointments)
  {
    o := PaymentDecision(db.appointments, uid, apptId, isPost, paymentMethod, Balance(db.users, uid));
    if o == WalletPaid {
      Post(db, uid, Withdraw, Get(db.appointments, apptId).value.consultationFee, Some(apptId));
      PayAndConfirm(db, apptId);
    } else if o == CardPaid {
      PayAndConfirm(db, apptId);
    }
  }

  /** The first `limit` rows of a table, newest first. */
  function NewestFirst<T>(t: Table<T>, limit: nat): (r: Table<T>)
    ensures |r| == if limit < |t| then limit else |t|
    ensures forall k :: 0 <= k < |r| ==> r[k] == t[|t| - 1 - k]
  {
    if |t| == 0 || limit == 0 then []
    else [t[|t| - 1]] + NewestFirst(t[..|t| - 1], limit - 1)
  }

  /**
   * `wallet_detail`: the user's ten newest ledger entries, newest first
   * (insertion order is creation order), and the balance.
   */
  function WalletDetail(users: Table<User>, ts: Table<WalletTransaction>, uid: UserId)
    : (r: (Table<WalletTransaction>, Money))
    requires HasId(users, uid)
    ensures |r.0| <= 10
    ensures forall x :: x in r.0 ==> x in ts && x.val.user == uid
    ensures |r.0| == if |Own(ts, uid)| < 10 then |Own(ts, uid)| else 10
    ensures forall k :: 0 <= k < |r.0| ==> r.0[k] == Own(ts, uid)[|Own(ts, uid)| - 1 - k]
    ensures |r.0| > 0 ==> Some(r.0[0].val) == Latest(ts, uid)
    ensures LedgerMatches(users, ts, uid) && |r.0| > 0 ==> r.0[0].val.balanceAfter == r.1
    ensures r.1 == Balance(users, uid)
  {
    var mine := Own(ts, uid);
    var shown := NewestFirst(mine, 10);
    assert forall k :: 0 <= k < |shown| ==> shown[k] in mine;
    (shown, Balance(users, uid))
  }
}
