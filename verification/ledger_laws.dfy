/** What the ledger keeps over every serial run of its use cases. */
module LedgerLaws {
  import opened Common
  import opened Ledger

  // ---------- conservation of money ----------

  function Balance(s: Books, w: Id): int {
    if w in s.wallets then s.wallets[w] else 0
  }

  function If(b: bool, amount: int): int {
    if b then amount else 0
  }

  predicate Counts(t: Transaction, w: Id, kind: Kind) {
    t.wallet == w && t.kind == kind && t.status == Completed
  }

  /** The sum of the completed transactions of one kind on a wallet. */
  function Total(txs: seq<Transaction>, w: Id, kind: Kind): int {
    if txs == [] then 0
    else Total(txs[..|txs| - 1], w, kind) + If(Counts(txs[|txs| - 1], w, kind), txs[|txs| - 1].amount)
  }

  lemma TotalAppend(txs: seq<Transaction>, t: Transaction, w: Id, kind: Kind)
    ensures Total(txs + [t], w, kind) == Total(txs, w, kind) + If(Counts(t, w, kind), t.amount)
  {
    assert (txs + [t])[..|txs|] == txs;
  }

  lemma {:induction false} TotalUpdate(txs: seq<Transaction>, id: nat, status: Status, w: Id, kind: Kind)
    requires id < |txs|
    ensures Total(WithStatus(txs, id, status), w, kind) ==
            Total(txs, w, kind) - If(Counts(txs[id], w, kind), txs[id].amount)
            + If(Counts(txs[id].(status := status), w, kind), txs[id].amount)
    decreases |txs|
  {
    var last, after := |txs| - 1, WithStatus(txs, id, status);
    if id == last {
      assert after[..last] == txs[..last];
    } else {
      assert after[..last] == WithStatus(txs[..last], id, status);
      TotalUpdate(txs[..last], id, status, w, kind);
    }
  }

  /** The part of a balance that the completed transactions do not explain. */
  function Unexplained(s: Books, w: Id): int {
    Balance(s, w) - Total(s.txs, w, Deposit) + Total(s.txs, w, Withdrawal)
  }

  function FeeTaken(s: Books, e: Event, w: Id): int {
    if e.ChargeEntryFee? && e.user == w && EntryFeeCharged(s, e.user, e.fee).1 == Done && e.fee > 0 then e.fee else 0
  }

  /** A webhook that is about to add its amount to a wallet. */
  predicate Credits(s: Books, e: Event) {
    && e.ProcessDeposit?
    && e.webhook.tx < |s.txs|
    && s.txs[e.webhook.tx].status != Completed && s.txs[e.webhook.tx].status != Status.Failed
    && s.txs[e.webhook.tx].amount == e.webhook.amount
    && e.webhook.gateway != OtherStatus
    && e.webhook.acquired
    && s.txs[e.webhook.tx].wallet in s.wallets
  }

  /**
   A credit that the transactions do not account for: one for a withdrawal, since the type is never
   checked, or one whose status update fails.
   */
  predicate Leaks(s: Books, e: Event) {
    Credits(s, e) && (s.txs[e.webhook.tx].kind == Withdrawal || !e.webhook.recorded)
  }

  /** A withdrawal that was credited also counts as paid out once its status is stored. */
  function LeakTo(s: Books, e: Event, w: Id): int {
    if Leaks(s, e) && s.txs[e.webhook.tx].wallet == w
    then (if e.webhook.recorded then 2 * e.webhook.amount else e.webhook.amount)
    else 0
  }

  lemma CreditExplained(s: Books, id: nat, recorded: bool, w: Id)
    requires id < |s.txs| && s.txs[id].wallet in s.wallets && s.txs[id].status != Completed
    ensures var t := s.txs[id];
            Unexplained(Credited(s, id, recorded), w) == Unexplained(s, w)
              + If(t.wallet == w && !recorded, t.amount)
              + If(t.wallet == w && recorded && t.kind == Withdrawal, 2 * t.amount)
  {
    TotalUpdate(s.txs, id, Completed, w, Deposit);
    TotalUpdate(s.txs, id, Completed, w, Withdrawal);
  }

  lemma DebitExplained(s: Books, id: nat, w: Id)
    requires id < |s.txs| && s.txs[id].wallet in s.wallets
    requires s.txs[id].kind == Withdrawal && s.txs[id].status != Completed
    ensures Unexplained(Debited(s, id), w) == Unexplained(s, w)
  {
    TotalUpdate(s.txs, id, Completed, w, Deposit);
    TotalUpdate(s.txs, id, Completed, w, Withdrawal);
  }

  lemma RelabelExplained(s: Books, id: nat, status: Status, w: Id)
    requires id < |s.txs| && s.txs[id].status != Completed && status != Completed
    ensures Unexplained(s.(txs := WithStatus(s.txs, id, status)), w) == Unexplained(s, w)
  {
    TotalUpdate(s.txs, id, status, w, Deposit);
    TotalUpdate(s.txs, id, status, w, Withdrawal);
  }

  lemma CreateExplained(s: Books, t: Transaction, w: Id)
    requires t.status != Completed
    ensures Unexplained(s.(txs := s.txs + [t]), w) == Unexplained(s, w)
  {
    TotalAppend(s.txs, t, w, Deposit);
    TotalAppend(s.txs, t, w, Withdrawal);
  }

  lemma WebhookExplained(s: Books, webhook: Webhook, w: Id)
    ensures var e := ProcessDeposit(webhook);
            Unexplained(Step(s, e), w) == Unexplained(s, w) + LeakTo(s, e, w)
  {
    if webhook.tx < |s.txs| {
      var t := s.txs[webhook.tx];
      if t.status != Completed && t.status != Status.Failed {
        RelabelExplained(s, webhook.tx, Status.Failed, w);
        if t.wallet in s.wallets {
          CreditExplained(s, webhook.tx, webhook.recorded, w);
        }
      }
    }
  }

  predicate AwaitsApproval(s: Books, id: nat) {
    id < |s.txs| && s.txs[id].kind == Withdrawal && s.txs[id].status == RequiresApproval
  }

  lemma ApprovalExplained(s: Books, a: Approval, w: Id)
    ensures Unexplained(Step(s, ApproveWithdrawal(a)), w) == Unexplained(s, w)
  {
    if AwaitsApproval(s, a.tx) {
      RelabelExplained(s, a.tx, PaymentFailed, w);
      RelabelExplained(s, a.tx, InsufficientFundsPostPayment, w);
      if s.txs[a.tx].wallet in s.wallets {
        DebitExplained(s, a.tx, w);
      }
    }
  }

  lemma StepExplained(s: Books, e: Event, w: Id)
    ensures Unexplained(Step(s, e), w) == Unexplained(s, w) - FeeTaken(s, e, w) + LeakTo(s, e, w)
  {
    match e
    case InitializeDeposit(user, amount, currency, key, accepts) =>
      CreateExplained(s, Transaction(user, Deposit, amount, Pending, Some(key), currency), w);
    case ProcessDeposit(webhook) =>
      WebhookExplained(s, webhook, w);
    case RequestWithdrawal(user, amount, currency, key) =>
      CreateExplained(s, Transaction(user, Withdrawal, amount, RequiresApproval, key, currency), w);
    case ApproveWithdrawal(approval) =>
      ApprovalExplained(s, approval, w);
    case ChargeEntryFee(user, fee) =>
  }

  /** Every amount on record is positive; the transaction entity's constructor demands it. */
  predicate PositiveAmounts(s: Books) {
    forall i :: 0 <= i < |s.txs| ==> s.txs[i].amount > 0
  }

  lemma StepKeepsAmountsPositive(s: Books, e: Event)
    requires PositiveAmounts(s)
    ensures PositiveAmounts(Step(s, e))
  {
  }

  function Fees(s: Books, events: seq<Event>, w: Id): int
    decreases |events|
  {
    if events == [] then 0 else FeeTaken(s, events[0], w) + Fees(Step(s, events[0]), events[1..], w)
  }

  function LeakSum(s: Books, events: seq<Event>, w: Id): int
    decreases |events|
  {
    if events == [] then 0 else LeakTo(s, events[0], w) + LeakSum(Step(s, events[0]), events[1..], w)
  }

  /** The law of the ledger, for every run whatever: leaking webhooks are all that upsets it, to the cent. */
  lemma {:induction false} LedgerLaw(s: Books, events: seq<Event>, w: Id)
    ensures Unexplained(Run(s, events), w) == Unexplained(s, w) - Fees(s, events, w) + LeakSum(s, events, w)
    decreases |events|
  {
    if events != [] {
      StepExplained(s, events[0], w);
      LedgerLaw(Step(s, events[0]), events[1..], w);
    }
  }

  /** Event i of the run credits wallet w without being accounted for. */
  ghost predicate LeaksAt(s: Books, events: seq<Event>, i: nat, w: Id) {
    i < |events| && Leaks(Run(s, events[..i]), events[i]) && Run(s, events[..i]).txs[events[i].webhook.tx].wallet == w
  }

  lemma {:induction false} LeakSumIsPositiveIff(s: Books, events: seq<Event>, w: Id)
    requires PositiveAmounts(s)
    ensures LeakSum(s, events, w) >= 0
    ensures LeakSum(s, events, w) > 0 <==> exists i :: LeaksAt(s, events, i, w)
    decreases |events|
  {
    if events != [] {
      var next := Step(s, events[0]);
      StepKeepsAmountsPositive(s, events[0]);
      LeakSumIsPositiveIff(next, events[1..], w);
      assert events[..0] == [];
      forall i | 0 < i < |events|
        ensures LeaksAt(s, events, i, w) <==> LeaksAt(next, events[1..], i - 1, w)
      {
        assert events[..i][1..] == events[1..][..i - 1];
      }
      if LeakTo(s, events[0], w) > 0 {
        assert LeaksAt(s, events, 0, w);
      } else if LeakSum(next, events[1..], w) > 0 {
        var i: nat :| LeaksAt(next, events[1..], i, w);
        assert LeaksAt(s, events, i + 1, w);
      }
    }
  }

  /**
   Conservation: from books without transactions, every balance is its initial value plus completed
   deposits minus completed withdrawals minus entry fees, exactly when no webhook of the run credited
   that wallet for a withdrawal or without getting its status stored.
   */
  lemma ConservedIff(s: Books, events: seq<Event>, w: Id)
    requires s.txs == []
    ensures var after := Run(s, events);
            Balance(after, w) ==
              Balance(s, w) + Total(after.txs, w, Deposit) - Total(after.txs, w, Withdrawal) - Fees(s, events, w)
            <==> !exists i :: LeaksAt(s, events, i, w)
  {
    LedgerLaw(s, events, w);
    LeakSumIsPositiveIff(s, events, w);
  }

  /**
   A request to withdraw 50, answered by a deposit webhook: the wallet gains 50 and the withdrawal
   counts as paid out.
   */
  lemma WithdrawalCanBeCredited()
    ensures var s := Books(map[7 := 80], []);
            var events := [RequestWithdrawal(7, 50, 1, None), ProcessDeposit(Webhook(0, 50, Success, true, true))];
            var after := Run(s, events);
            Balance(after, 7) == 130 && after.txs[0] == Transaction(7, Withdrawal, 50, Completed, None, 1)
  {
    var s := Books(map[7 := 80], []);
    var events := [RequestWithdrawal(7, 50, 1, None), ProcessDeposit(Webhook(0, 50, Success, true, true))];
    var once := Step(s, events[0]);
    assert once.txs == [Transaction(7, Withdrawal, 50, RequiresApproval, None, 1)];
    assert events[1..][0] == events[1];
    assert Run(s, events) == Step(once, events[1]);
  }

  // ---------- balances and keys ----------

  ghost predicate Solvent(s: Books) {
    forall w :: w in s.wallets ==> s.wallets[w] >= 0
  }

  ghost predicate KeysUnique(s: Books) {
    forall i, j :: 0 <= i < j < |s.txs| && s.txs[i].key.Some? ==> s.txs[i].key != s.txs[j].key
  }

  lemma StepKeepsSolvent(s: Books, e: Event)
    requires PositiveAmounts(s) && Solvent(s)
    ensures Solvent(Step(s, e))
  {
  }

  lemma StepKeepsKeysUnique(s: Books, e: Event)
    requires KeysUnique(s)
    ensures KeysUnique(Step(s, e))
  {
  }

  /** On every run, balances stay non-negative however many withdrawals are pending together. */
  lemma {:induction false} RunsStaySolvent(s: Books, events: seq<Event>)
    requires PositiveAmounts(s) && Solvent(s)
    ensures PositiveAmounts(Run(s, events)) && Solvent(Run(s, events))
    decreases |events|
  {
    if events != [] {
      StepKeepsAmountsPositive(s, events[0]);
      StepKeepsSolvent(s, events[0]);
      RunsStaySolvent(Step(s, events[0]), events[1..]);
    }
  }

  /** On every run, an idempotency key belongs to at most one transaction. */
  lemma {:induction false} RunsKeepKeysUnique(s: Books, events: seq<Event>)
    requires KeysUnique(s)
    ensures KeysUnique(Run(s, events))
    decreases |events|
  {
    if events != [] {
      StepKeepsKeysUnique(s, events[0]);
      RunsKeepKeysUnique(Step(s, events[0]), events[1..]);
    }
  }

  // ---------- final statuses ----------

  /** Transactions are never deleted, and only their status ever changes. */
  lemma StepKeepsRecords(s: Books, e: Event, id: nat)
    requires id < |s.txs|
    ensures id < |Step(s, e).txs|
    ensures Step(s, e).txs[id] == s.txs[id].(status := Step(s, e).txs[id].status)
  {
  }

  predicate Final(status: Status) {
    status == Completed || status == Status.Failed || status == PaymentFailed || status == InsufficientFundsPostPayment
  }

  /** A webhook that names a failed payout, which its guard lets through. */
  predicate ReopensPayout(s: Books, e: Event, id: nat)
    requires id < |s.txs|
  {
    && e.ProcessDeposit? && e.webhook.tx == id
    && (s.txs[id].status == PaymentFailed || s.txs[id].status == InsufficientFundsPostPayment)
    && e.webhook.recorded
    && (s.txs[id].amount != e.webhook.amount || e.webhook.gateway == OtherStatus
        || (e.webhook.acquired && s.txs[id].wallet in s.wallets))
  }

  /** A final status changes in exactly one kind of step. */
  lemma FinalStatusKeptIff(s: Books, e: Event, id: nat)
    requires id < |s.txs| && Final(s.txs[id].status)
    ensures id < |Step(s, e).txs|
    ensures Step(s, e).txs[id] == s.txs[id] <==> !ReopensPayout(s, e, id)
  {
  }

  predicate Settled(status: Status) {
    status == Completed || status == Status.Failed
  }

  /** A completed or failed transaction never changes again, in any run whatever. */
  lemma {:induction false} SettledForever(s: Books, events: seq<Event>, id: nat)
    requires id < |s.txs| && Settled(s.txs[id].status)
    ensures id < |Run(s, events).txs| && Run(s, events).txs[id] == s.txs[id]
    decreases |events|
  {
    if events != [] {
      FinalStatusKeptIff(s, events[0], id);
      SettledForever(Step(s, events[0]), events[1..], id);
    }
  }

  /** The webhooks of the run name deposits, as the gateway is only told of deposits. */
  predicate NamesDeposits(s: Books, events: seq<Event>)
    decreases |events|
  {
    events == [] ||
    (&& (events[0].ProcessDeposit? && events[0].webhook.tx < |s.txs| ==> s.txs[events[0].webhook.tx].kind == Deposit)
     && NamesDeposits(Step(s, events[0]), events[1..]))
  }

  /** Payouts that failed belong to withdrawals. */
  predicate PayoutsAreWithdrawals(s: Books) {
    forall i :: 0 <= i < |s.txs| ==>
      (s.txs[i].status == PaymentFailed || s.txs[i].status == InsufficientFundsPostPayment ==>
         s.txs[i].kind == Withdrawal)
  }

  /** As long as webhooks name deposits, all four final statuses are final. */
  lemma {:induction false} FinalForever(s: Books, events: seq<Event>, id: nat)
    requires PayoutsAreWithdrawals(s) && NamesDeposits(s, events)
    requires id < |s.txs| && Final(s.txs[id].status)
    ensures id < |Run(s, events).txs| && Run(s, events).txs[id] == s.txs[id]
    decreases |events|
  {
    if events != [] {
      FinalStatusKeptIff(s, events[0], id);
      FinalForever(Step(s, events[0]), events[1..], id);
    }
  }

  // ---------- money moves at most once per transaction ----------

  /** The step completes transaction id. */
  predicate Completes(s: Books, e: Event, id: nat) {
    id < |Step(s, e).txs| && Step(s, e).txs[id].status == Completed && !(id < |s.txs| && s.txs[id].status == Completed)
  }

  function Completions(s: Books, events: seq<Event>, id: nat): nat
    decreases |events|
  {
    if events == [] then 0
    else (if Completes(s, events[0], id) then 1 else 0) + Completions(Step(s, events[0]), events[1..], id)
  }

  lemma {:induction false} CompletesOnce(s: Books, events: seq<Event>, id: nat)
    ensures Completions(s, events, id) <= 1
    ensures id < |s.txs| && s.txs[id].status == Completed ==> Completions(s, events, id) == 0
    decreases |events|
  {
    if events != [] {
      CompletesOnce(Step(s, events[0]), events[1..], id);
      if id < |s.txs| && s.txs[id].status == Completed {
        FinalStatusKeptIff(s, events[0], id);
      }
    }
  }

  /** A webhook whose status update fails. */
  predicate Unrecorded(e: Event) {
    e.ProcessDeposit? && !e.webhook.recorded
  }

  /**
   The step moves exactly the amount of transaction id of wallet w, and completes it unless its status
   is not recorded.
   */
  predicate MovedFor(s: Books, e: Event, w: Id, id: nat) {
    && id < |s.txs| && s.txs[id].wallet == w && Completes(s, e, id) == !Unrecorded(e)
    && (Balance(Step(s, e), w) - Balance(s, w) == s.txs[id].amount
        || Balance(s, w) - Balance(Step(s, e), w) == s.txs[id].amount)
  }

  /**
   Apart from entry fees, a balance only moves by the amount of one of the wallet's transactions, in a
   step that completes it unless it is a webhook whose status update fails.
   */
  lemma MoneyMovesWithCompletion(s: Books, e: Event, w: Id)
    requires w in s.wallets && s.wallets[w] != Balance(Step(s, e), w)
    ensures Step(s, e).wallets.Keys == s.wallets.Keys
    ensures e.ChargeEntryFee? ==> Balance(Step(s, e), w) == s.wallets[w] - FeeTaken(s, e, w)
    ensures !e.ChargeEntryFee? ==> exists id :: MovedFor(s, e, w, id)
  {
    if e.ProcessDeposit? {
      assert MovedFor(s, e, w, e.webhook.tx);
    } else if e.ApproveWithdrawal? {
      assert MovedFor(s, e, w, e.approval.tx);
    }
  }
}
