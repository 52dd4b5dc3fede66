/**
 The wallet ledger: initialize deposit, process deposit webhook, request withdrawal, approve
 withdrawal, and the entry fee debited at registration. Amounts are integer cents; a wallet is
 identified with its owner, since a user has at most one; a transaction's id is its place in the
 order of creation.
 */
module Ledger {
  import opened Common

  datatype Kind = Deposit | Withdrawal

  datatype Status =
    | Pending | Completed | Failed | Canceled | RequiresApproval | Processing
    | Refunded | Rejected | PaymentFailed | InsufficientFundsPostPayment

  datatype Transaction = Transaction(wallet: Id, kind: Kind, amount: int, status: Status, key: Option<Id>, currency: Id)

  datatype Books = Books(wallets: map<Id, int>, txs: seq<Transaction>)

  /** What the payment gateway reports: 'success', 'completed', or anything else. */
  datatype GatewayStatus = Success | CompletedAtGateway | OtherStatus

  /**
   A webhook call; acquired says whether the wallet's lock can be had and its balance stored, recorded
   whether the status update goes through, which is a write of its own outside any database transaction.
   */
  datatype Webhook = Webhook(tx: nat, amount: int, gateway: GatewayStatus, acquired: bool, recorded: bool)

  /** An approval; stored says whether the writes of its database transaction and the commit go through. */
  datatype Approval = Approval(tx: nat, payoutSucceeds: bool, stored: bool)

  datatype Event =
    | InitializeDeposit(user: Id, amount: int, currency: Id, depositKey: Id, gatewayAccepts: bool)
    | ProcessDeposit(webhook: Webhook)
    | RequestWithdrawal(user: Id, amount: int, currency: Id, withdrawalKey: Option<Id>)
    | ApproveWithdrawal(approval: Approval)
    | ChargeEntryFee(user: Id, fee: int)

  function FindByKey(txs: seq<Transaction>, key: Id): (r: Option<nat>)
    ensures r.Some? ==> r.value < |txs| && txs[r.value].key == Some(key)
    ensures r.None? ==> forall i :: 0 <= i < |txs| ==> txs[i].key != Some(key)
  {
    if txs == [] then None
    else
      match FindByKey(txs[..|txs| - 1], key)
      case Some(i) => Some(i)
      case None => if txs[|txs| - 1].key == Some(key) then Some(|txs| - 1) else None
  }

  function WithStatus(txs: seq<Transaction>, id: nat, status: Status): seq<Transaction>
    requires id < |txs|
  {
    txs[id := txs[id].(status := status)]
  }

  // ---------- what each use case does ----------

  /** The same request under the same key gets the same transaction back. */
  predicate SameDeposit(s: Books, t: Transaction, user: Id, amount: int, currency: Id) {
    t.wallet in s.wallets && t.wallet == user && t.amount == amount && t.currency == currency
  }

  function DepositInitialized(s: Books, user: Id, amount: int, currency: Id, key: Id, gatewayAccepts: bool):
    (Books, Result<nat>)
  {
    if amount <= 0 then (s, Err(BadRequest))
    else
      match FindByKey(s.txs, key)
      case Some(i) =>
        if (s.txs[i].status == Pending || s.txs[i].status == Completed)
            && SameDeposit(s, s.txs[i], user, amount, currency)
        then (s, Ok(i))
        else (s, Err(Conflict))
      case None =>
        if user !in s.wallets then (s, Err(NotFound))
        else if !gatewayAccepts then (s, Err(Internal))
        else (s.(txs := s.txs + [Transaction(user, Deposit, amount, Pending, Some(key), currency)]), Ok(|s.txs|))
  }

  /** The two writes of a credit: the balance, and the status unless its update fails. */
  function Credited(s: Books, id: nat, recorded: bool): Books
    requires id < |s.txs| && s.txs[id].wallet in s.wallets
  {
    var t := s.txs[id];
    Books(s.wallets[t.wallet := s.wallets[t.wallet] + t.amount],
          if recorded then WithStatus(s.txs, id, Completed) else s.txs)
  }

  function MarkedFailed(s: Books, id: nat, recorded: bool, reply: Result<nat>): (Books, Result<nat>)
    requires id < |s.txs|
  {
    if recorded then (s.(txs := WithStatus(s.txs, id, Status.Failed)), reply) else (s, Err(Internal))
  }

  function DepositProcessed(s: Books, w: Webhook): (Books, Result<nat>) {
    if w.tx >= |s.txs| then (s, Err(NotFound))
    else
      var t := s.txs[w.tx];
      if t.status == Completed || t.status == Status.Failed then
        (s, if t.status == Completed && w.gateway == Success then Ok(w.tx) else Err(Conflict))
      else if t.amount != w.amount then MarkedFailed(s, w.tx, w.recorded, Err(BadRequest))
      else if w.gateway == OtherStatus then MarkedFailed(s, w.tx, w.recorded, Ok(w.tx))
      else if !w.acquired then (s, Err(Internal))
      else if t.wallet !in s.wallets then (s, Err(NotFound))
      else (Credited(s, w.tx, w.recorded), if w.recorded then Ok(w.tx) else Err(Internal))
  }

  predicate InProgress(status: Status) {
    status == RequiresApproval || status == Pending || status == Processing
  }

  /** A new request; the unique key column turns a second row with a used key into the existing one. */
  function WithdrawalCreated(s: Books, user: Id, amount: int, currency: Id, key: Option<Id>): (Books, Result<nat>) {
    if user !in s.wallets then (s, Err(NotFound))
    else if s.wallets[user] < amount then (s, Err(BadRequest))
    else if key.Some? && FindByKey(s.txs, key.value).Some? then (s, Ok(FindByKey(s.txs, key.value).value))
    else (s.(txs := s.txs + [Transaction(user, Withdrawal, amount, RequiresApproval, key, currency)]), Ok(|s.txs|))
  }

  function WithdrawalRequested(s: Books, user: Id, amount: int, currency: Id, key: Option<Id>): (Books, Result<nat>) {
    if amount <= 0 then (s, Err(BadRequest))
    else
      var existing := if key.Some? then FindByKey(s.txs, key.value) else None;
      if existing.Some? && InProgress(s.txs[existing.value].status) then
        var t := s.txs[existing.value];
        (s, if t.wallet in s.wallets && t.wallet == user && t.amount == amount then Ok(existing.value)
            else Err(Conflict))
      else WithdrawalCreated(s, user, amount, currency, key)
  }

  function Debited(s: Books, id: nat): Books
    requires id < |s.txs| && s.txs[id].wallet in s.wallets
  {
    var t := s.txs[id];
    Books(s.wallets[t.wallet := s.wallets[t.wallet] - t.amount], WithStatus(s.txs, id, Completed))
  }

  /** The payout is outside the database transaction: a rollback leaves the withdrawal as it was, but paid. */
  function WithdrawalApproved(s: Books, a: Approval): (Books, Result<nat>) {
    if a.tx >= |s.txs| then (s, Err(NotFound))
    else
      var t := s.txs[a.tx];
      if t.kind != Withdrawal then (s, Err(BadRequest))
      else if t.status != RequiresApproval then (s, Err(BadRequest))
      else if !a.stored then (s, Err(Internal))
      else if !a.payoutSucceeds then (s.(txs := WithStatus(s.txs, a.tx, PaymentFailed)), Err(Internal))
      else if t.wallet !in s.wallets then (s, Err(Internal))
      else if s.wallets[t.wallet] < t.amount then
        (s.(txs := WithStatus(s.txs, a.tx, InsufficientFundsPostPayment)), Err(Internal))
      else (Debited(s, a.tx), Ok(a.tx))
  }

  function EntryFeeCharged(s: Books, user: Id, fee: int): (Books, Outcome) {
    if fee <= 0 then (s, Done)
    else if user !in s.wallets || s.wallets[user] < fee then (s, Outcome.Failed(Forbidden))
    else (s.(wallets := s.wallets[user := s.wallets[user] - fee]), Done)
  }

  function Step(s: Books, e: Event): Books {
    match e
    case InitializeDeposit(user, amount, currency, key, accepts) =>
      DepositInitialized(s, user, amount, currency, key, accepts).0
    case ProcessDeposit(webhook) => DepositProcessed(s, webhook).0
    case RequestWithdrawal(user, amount, currency, key) => WithdrawalRequested(s, user, amount, currency, key).0
    case ApproveWithdrawal(approval) => WithdrawalApproved(s, approval).0
    case ChargeEntryFee(user, fee) => EntryFeeCharged(s, user, fee).0
  }

  function Run(s: Books, events: seq<Event>): Books
    decreases |events|
  {
    if events == [] then s else Run(Step(s, events[0]), events[1..])
  }

  // ---------- the use cases over the repositories ----------

  /** The wallet and transaction repositories, with the use cases that write to them. */
  class Repositories {
    var wallets: map<Id, int>
    var txs: seq<Transaction>

    function State(): Books
      reads this
    {
      Books(wallets, txs)
    }

    /** The repository's update of a transaction's status. */
    method UpdateStatus(id: nat, status: Status)
      requires id < |txs|
      modifies this`txs
      ensures txs == WithStatus(old(txs), id, status)
    {
      txs := txs[id := txs[id].(status := status)];
    }

    /** The same update where it may throw. */
    method TryUpdateStatus(id: nat, status: Status, goesThrough: bool) returns (done: bool)
      requires id < |txs|
      modifies this`txs
      ensures done == goesThrough
      ensures txs == if goesThrough then WithStatus(old(txs), id, status) else old(txs)
    {
      if goesThrough {
        UpdateStatus(id, status);
      }
      return goesThrough;
    }

    /** The repository's create, which answers a used key with the existing transaction. */
    method Create(t: Transaction) returns (id: nat)
      modifies this`txs
      ensures var existing := if t.key.Some? then FindByKey(old(txs), t.key.value) else None;
              if existing.Some? then txs == old(txs) && id == existing.value
              else txs == old(txs) + [t] && id == |old(txs)|
    {
      var existing := if t.key.Some? then FindByKey(txs, t.key.value) else None;
      if existing.Some? {
        return existing.value;
      }
      id := |txs|;
      txs := txs + [t];
    }

    method InitializeDeposit(user: Id, amount: int, currency: Id, key: Id, gatewayAccepts: bool)
      returns (r: Result<nat>)
      modifies this`txs
      ensures (State(), r) == DepositInitialized(old(State()), user, amount, currency, key, gatewayAccepts)
    {
      if amount <= 0 {
        return Err(BadRequest);
      }
      var existing := FindByKey(txs, key);
      if existing.Some? {
        var t := txs[existing.value];
        if t.status == Pending || t.status == Completed {
          if t.wallet in wallets && t.wallet == user && t.amount == amount && t.currency == currency {
            return Ok(existing.value);
          }
          return Err(Conflict);
        }
        return Err(Conflict);
      }
      if user !in wallets {
        return Err(NotFound);
      }
      if !gatewayAccepts {
        return Err(Internal);
      }
      var id := Create(Transaction(user, Deposit, amount, Pending, Some(key), currency));
      return Ok(id);
    }

    method ProcessDeposit(w: Webhook) returns (r: Result<nat>)
      modifies this
      ensures (State(), r) == DepositProcessed(old(State()), w)
    {
      if w.tx >= |txs| {
        return Err(NotFound);
      }
      var existing := txs[w.tx];
      if existing.status == Completed || existing.status == Status.Failed {
        if existing.status == Completed && w.gateway == Success {
          return Ok(w.tx);
        }
        return Err(Conflict);
      }
      if existing.amount != w.amount {
        var marked := TryUpdateStatus(w.tx, Status.Failed, w.recorded);
        return Err(if marked then BadRequest else Internal);
      }
      if w.gateway != Success && w.gateway != CompletedAtGateway {
        var marked := TryUpdateStatus(w.tx, Status.Failed, w.recorded);
        return if marked then Ok(w.tx) else Err(Internal);
      }
      if !w.acquired {
        return Err(Internal);
      }
      if existing.wallet !in wallets {
        return Err(NotFound);
      }
      var newBalance := wallets[existing.wallet] + w.amount;
      wallets := wallets[existing.wallet := newBalance];
      var marked := TryUpdateStatus(w.tx, Completed, w.recorded);
      return if marked then Ok(w.tx) else Err(Internal);
    }

    method RequestWithdrawal(user: Id, amount: int, currency: Id, key: Option<Id>) returns (r: Result<nat>)
      modifies this`txs
      ensures (State(), r) == WithdrawalRequested(old(State()), user, amount, currency, key)
    {
      if amount <= 0 {
        return Err(BadRequest);
      }
      if key.Some? {
        var existing := FindByKey(txs, key.value);
        if existing.Some? && InProgress(txs[existing.value].status) {
          var t := txs[existing.value];
          if t.wallet in wallets && t.wallet == user && t.amount == amount {
            return Ok(existing.value);
          }
          return Err(Conflict);
        }
      }
      if user !in wallets {
        return Err(NotFound);
      }
      if wallets[user] < amount {
        return Err(BadRequest);
      }
      var id := Create(Transaction(user, Withdrawal, amount, RequiresApproval, key, currency));
      return Ok(id);
    }

    /** The writes of one database transaction: all of them, or none if one of them or the commit throws. */
    method Commit(newWallets: map<Id, int>, id: nat, status: Status, stored: bool) returns (done: bool)
      requires id < |txs|
      modifies this
      ensures done == stored
      ensures State() == if stored then Books(newWallets, WithStatus(old(txs), id, status)) else old(State())
    {
      if stored {
        wallets := newWallets;
        UpdateStatus(id, status);
      }
      return stored;
    }

    /** Payout first, then the debit and the new status inside one database transaction. */
    method ApproveWithdrawal(a: Approval) returns (r: Result<nat>)
      modifies this
      ensures (State(), r) == WithdrawalApproved(old(State()), a)
    {
      if a.tx >= |txs| {
        return Err(NotFound);
      }
      var withdrawal := txs[a.tx];
      if withdrawal.kind != Withdrawal {
        return Err(BadRequest);
      }
      if withdrawal.status != RequiresApproval {
        return Err(BadRequest);
      }
      if !a.payoutSucceeds {
        var _ := Commit(wallets, a.tx, PaymentFailed, a.stored);
        return Err(Internal);
      }
      if withdrawal.wallet !in wallets {
        return Err(Internal);
      }
      if wallets[withdrawal.wallet] < withdrawal.amount {
        var _ := Commit(wallets, a.tx, InsufficientFundsPostPayment, a.stored);
        return Err(Internal);
      }
      var newBalance := wallets[withdrawal.wallet] - withdrawal.amount;
      var done := Commit(wallets[withdrawal.wallet := newBalance], a.tx, Completed, a.stored);
      return if done then Ok(a.tx) else Err(Internal);
    }

    /** The paid part of registering for a tournament. */
    method ChargeEntryFee(user: Id, entryFee: int) returns (outcome: Outcome)
      modifies this`wallets
      ensures (State(), outcome) == EntryFeeCharged(old(State()), user, entryFee)
    {
      if entryFee > 0 {
        if user !in wallets || wallets[user] < entryFee {
          return Outcome.Failed(Forbidden);
        }
        wallets := wallets[user := wallets[user] - entryFee];
      }
      return Done;
    }
  }
}
