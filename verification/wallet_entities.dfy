/** The wallet and transaction entities, which the use cases hold while they work. */
module WalletEntities {
  import opened Common
  import Ledger

  datatype WalletOp = DepositOp(amount: int) | WithdrawOp(amount: int)

  function Deposited(balance: int, amount: int): (int, Outcome) {
    if amount <= 0 then (balance, Failed(Invalid)) else (balance + amount, Done)
  }

  function Withdrawn(balance: int, amount: int): (int, Outcome) {
    if amount <= 0 || amount > balance then (balance, Failed(Invalid)) else (balance - amount, Done)
  }

  /** A wallet's balance in cents. */
  class Wallet {
    var balance: int

    /** The balance guard of the source's constructor, which throws. */
    static method Create(balance: int := 0) returns (r: Result<Wallet>)
      ensures balance < 0 ==> r == Err(Invalid)
      ensures balance >= 0 ==> r.Ok? && fresh(r.value) && r.value.balance == balance
    {
      if balance < 0 {
        return Err(Invalid);
      }
      var w := new Wallet(balance);
      return Ok(w);
    }

    constructor (balance: int)
      requires balance >= 0
      ensures this.balance == balance
    {
      this.balance := balance;
    }

    method Deposit(amount: int) returns (outcome: Outcome)
      modifies this
      ensures (balance, outcome) == Deposited(old(balance), amount)
    {
      if amount <= 0 {
        return Failed(Invalid);
      }
      balance := balance + amount;
      return Done;
    }

    method Withdraw(amount: int) returns (outcome: Outcome)
      modifies this
      ensures (balance, outcome) == Withdrawn(old(balance), amount)
    {
      if amount <= 0 {
        return Failed(Invalid);
      }
      if amount > balance {
        return Failed(Invalid);
      }
      balance := balance - amount;
      return Done;
    }

    method HasSufficientFunds(amount: int) returns (r: Result<bool>)
      ensures r == if amount < 0 then Err(Invalid) else Ok(balance >= amount)
    {
      if amount < 0 {
        return Err(Invalid);
      }
      return Ok(balance >= amount);
    }
  }

  function WalletStep(balance: int, op: WalletOp): (int, Outcome) {
    match op
    case DepositOp(amount) => Deposited(balance, amount)
    case WithdrawOp(amount) => Withdrawn(balance, amount)
  }

  function WalletRun(balance: int, ops: seq<WalletOp>): int
    decreases |ops|
  {
    if ops == [] then balance else WalletRun(WalletStep(balance, ops[0]).0, ops[1..])
  }

  /** What the operations that succeeded put in and took out. */
  function Moved(balance: int, ops: seq<WalletOp>): int
    decreases |ops|
  {
    if ops == [] then 0
    else
      var (next, outcome) := WalletStep(balance, ops[0]);
      var amount := if outcome != Done then 0 else if ops[0].DepositOp? then ops[0].amount else -ops[0].amount;
      amount + Moved(next, ops[1..])
  }

  /** Any run of deposits and withdrawals leaves a non-negative balance that its successful operations add up to. */
  lemma {:induction false} WalletAddsUp(balance: int, ops: seq<WalletOp>)
    requires balance >= 0
    ensures WalletRun(balance, ops) >= 0
    ensures WalletRun(balance, ops) == balance + Moved(balance, ops)
    decreases |ops|
  {
    if ops != [] {
      WalletAddsUp(WalletStep(balance, ops[0]).0, ops[1..]);
    }
  }

  /** Which operations succeed, and that one refused changes nothing; a deposit and its withdrawal cancel out. */
  lemma WalletOpIff(balance: int, op: WalletOp)
    ensures var (after, r) := WalletStep(balance, op);
            && (r == Done <==> op.amount > 0 && (op.WithdrawOp? ==> op.amount <= balance))
            && (r != Done ==> r == Failed(Invalid) && after == balance)
            && (r == Done ==> after - balance == if op.DepositOp? then op.amount else -op.amount)
    ensures op.DepositOp? && op.amount > 0 && balance >= 0 ==>
              WalletRun(balance, [op, WithdrawOp(op.amount)]) == balance
  {
    if op.DepositOp? {
      assert [op, WithdrawOp(op.amount)][1..] == [WithdrawOp(op.amount)] && [WithdrawOp(op.amount)][1..] == [];
      assert WalletRun(balance + op.amount, [WithdrawOp(op.amount)])
          == WalletRun(WalletStep(balance + op.amount, WithdrawOp(op.amount)).0, []);
    }
  }

  // ---------- transactions ----------

  datatype TransactionOp =
    | UpdateStatus(status: Ledger.Status)
    | Complete
    | Fail(reasonGiven: bool)
    | Cancel(reasonGiven: bool)

  function TransactionStep(status: Ledger.Status, op: TransactionOp): (Ledger.Status, Outcome) {
    match op
    case UpdateStatus(newStatus) => (newStatus, Done)
    case Complete =>
      if status == Ledger.Pending || status == Ledger.Processing || status == Ledger.RequiresApproval
      then (Ledger.Completed, Done) else (status, Failed(Invalid))
    case Fail(given) =>
      if given then (Ledger.Status.Failed, Done) else (status, Failed(Invalid))
    case Cancel(given) =>
      if given && (status == Ledger.Pending || status == Ledger.RequiresApproval)
      then (Ledger.Canceled, Done) else (status, Failed(Invalid))
  }

  class Transaction {
    const amount: int
    var status: Ledger.Status

    /** The amount guard of the source's constructor, which throws. */
    static method Create(amount: int, status: Ledger.Status := Ledger.Pending) returns (r: Result<Transaction>)
      ensures amount <= 0 ==> r == Err(Invalid)
      ensures amount > 0 ==> r.Ok? && fresh(r.value) && r.value.amount == amount && r.value.status == status
    {
      if amount <= 0 {
        return Err(Invalid);
      }
      var t := new Transaction(amount, status);
      return Ok(t);
    }

    constructor (amount: int, status: Ledger.Status)
      requires amount > 0
      ensures this.amount == amount && this.status == status
    {
      this.amount, this.status := amount, status;
    }

    method UpdateStatus(newStatus: Ledger.Status)
      modifies this`status
      ensures status == newStatus
    {
      status := newStatus;
    }

    method Complete() returns (outcome: Outcome)
      modifies this`status
      ensures (status, outcome) == TransactionStep(old(status), TransactionOp.Complete)
    {
      if status != Ledger.Pending && status != Ledger.Processing && status != Ledger.RequiresApproval {
        return Failed(Invalid);
      }
      UpdateStatus(Ledger.Completed);
      return Done;
    }

    method Fail(reasonGiven: bool) returns (outcome: Outcome)
      modifies this`status
      ensures (status, outcome) == TransactionStep(old(status), TransactionOp.Fail(reasonGiven))
    {
      if !reasonGiven {
        return Failed(Invalid);
      }
      UpdateStatus(Ledger.Status.Failed);
      return Done;
    }

    method Cancel(reasonGiven: bool) returns (outcome: Outcome)
      modifies this`status
      ensures (status, outcome) == TransactionStep(old(status), TransactionOp.Cancel(reasonGiven))
    {
      if !reasonGiven {
        return Failed(Invalid);
      }
      if status != Ledger.Pending && status != Ledger.RequiresApproval {
        return Failed(Invalid);
      }
      UpdateStatus(Ledger.Canceled);
      return Done;
    }
  }

  function TransactionRun(status: Ledger.Status, ops: seq<TransactionOp>): Ledger.Status
    decreases |ops|
  {
    if ops == [] then status else TransactionRun(TransactionStep(status, ops[0]).0, ops[1..])
  }

  /** Where the guarded operations lead, and from where. */
  lemma TransactionOpIff(status: Ledger.Status, op: TransactionOp)
    ensures var (after, r) := TransactionStep(status, op);
            var goes := match op
                        case UpdateStatus(_) => true
                        case Complete => status in {Ledger.Pending, Ledger.Processing, Ledger.RequiresApproval}
                        case Fail(given) => given
                        case Cancel(given) => given && status in {Ledger.Pending, Ledger.RequiresApproval};
            && r == (if goes then Done else Failed(Invalid))
            && (!goes ==> after == status)
            && (goes && !op.UpdateStatus? ==>
                  && (after == Ledger.Completed <==> op.Complete?)
                  && (after == Ledger.Status.Failed <==> op.Fail?)
                  && (after == Ledger.Canceled <==> op.Cancel?))
            && (op.UpdateStatus? ==> after == op.status)
  {
  }

  /** Statuses from which the guarded operations lead nowhere. */
  predicate Closed(status: Ledger.Status) {
    status != Ledger.Pending && status != Ledger.Processing && status != Ledger.RequiresApproval
  }

  /**
   A closed transaction can still be failed, whatever it was: fail has no guard on the status. It is
   the only guarded operation that can, so a closed status other than FAILED is kept exactly when no
   fail with a reason is among the operations.
   */
  lemma {:induction false} ClosedKeptIff(status: Ledger.Status, ops: seq<TransactionOp>)
    requires Closed(status) && status != Ledger.Status.Failed
    requires forall i :: 0 <= i < |ops| ==> !ops[i].UpdateStatus?
    ensures TransactionRun(status, ops) == status <==> !exists i :: 0 <= i < |ops| && ops[i] == Fail(true)
    decreases |ops|
  {
    if ops != [] {
      if ops[0] == Fail(true) {
        FailedStays(ops[1..]);
      } else {
        ClosedKeptIff(status, ops[1..]);
        assert forall i :: 0 < i < |ops| ==> ops[i] == ops[1..][i - 1];
      }
    }
  }

  lemma {:induction false} FailedStays(ops: seq<TransactionOp>)
    requires forall i :: 0 <= i < |ops| ==> !ops[i].UpdateStatus?
    ensures TransactionRun(Ledger.Status.Failed, ops) == Ledger.Status.Failed
    decreases |ops|
  {
    if ops != [] {
      FailedStays(ops[1..]);
    }
  }
}
