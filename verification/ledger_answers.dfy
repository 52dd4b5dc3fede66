/** What the ledger's use cases answer, told from the books before and after, and what a new request is. */
module LedgerAnswers {
  import opened Common
  import opened Ledger
  import opened LedgerLaws
  import opened LedgerPayouts
  import opened LedgerWebhooks

  // ---------- the deposit webhook ----------

  /** The gateway reports once more what is on record. */
  predicate Duplicate(s: Books, w: Webhook) {
    w.tx < |s.txs| && s.txs[w.tx].status == Completed && w.gateway == Success
  }

  /** The gateway reports a failure of the right amount, and the step puts it on record. */
  predicate FailureTaken(s: Books, after: Books, w: Webhook) {
    && w.tx < |s.txs| && w.tx < |after.txs| && s.txs[w.tx].amount == w.amount && w.gateway == OtherStatus
    && !Settled(s.txs[w.tx].status) && after.txs[w.tx].status == Status.Failed
  }

  /** A webhook that moves money is acknowledged exactly when the transaction is on record as completed afterwards. */
  lemma CreditAnswerIff(s: Books, w: Webhook)
    ensures var (after, r) := DepositProcessed(s, w);
            after.wallets != s.wallets ==>
              && w.tx < |after.txs| == |s.txs|
              && (r == Ok(w.tx) <==> after.txs[w.tx].status == Completed)
              && (r == Err(Internal) <==> after.txs[w.tx] == s.txs[w.tx])
  {
  }

  /** One that moves none, exactly when it is a duplicate or a failure that is taken. */
  lemma NoCreditAnswerIff(s: Books, w: Webhook)
    requires PositiveAmounts(s)
    ensures var (after, r) := DepositProcessed(s, w);
            after.wallets == s.wallets ==> (r == Ok(w.tx) <==> Duplicate(s, w) || FailureTaken(s, after, w))
    ensures var (after, r) := DepositProcessed(s, w); r.Ok? ==> r.value == w.tx
  {
    if w.tx < |s.txs| && s.txs[w.tx].wallet in s.wallets {
      var wallet := s.txs[w.tx].wallet;
      assert s.wallets[wallet := s.wallets[wallet] + s.txs[w.tx].amount][wallet] != s.wallets[wallet];
    }
  }

  /** Which error it is otherwise. */
  lemma WebhookErrors(s: Books, w: Webhook)
    ensures var r := DepositProcessed(s, w).1;
            if w.tx >= |s.txs| then r == Err(NotFound)
            else
              var (t, passes) := (s.txs[w.tx], PassesChecks(s.txs[w.tx], w));
              && (r == Err(Conflict) <==> Settled(t.status) && !Duplicate(s, w))
              && (r == Err(BadRequest) <==> !Settled(t.status) && t.amount != w.amount && w.recorded)
              && (r == Err(NotFound) <==> passes && w.acquired && t.wallet !in s.wallets)
              && (r == Err(Internal) <==> !Settled(t.status) && (if passes && !w.acquired then true
                                            else !w.recorded && (passes ==> t.wallet in s.wallets)))
  {
  }

  // ---------- the approval of a withdrawal ----------

  /** Which of its four statuses a stored approval leaves, and that it succeeds with COMPLETED alone. */
  lemma ApprovalOutcomeIff(s: Books, a: Approval)
    requires AwaitsApproval(s, a.tx) && a.stored
    ensures var ((after, r), t) := (WithdrawalApproved(s, a), s.txs[a.tx]);
            var held := t.wallet in s.wallets;
            && |after.txs| == |s.txs|
            && (after.txs[a.tx].status == PaymentFailed <==> !a.payoutSucceeds)
            && (after.txs[a.tx].status == InsufficientFundsPostPayment <==>
                a.payoutSucceeds && held && s.wallets[t.wallet] < t.amount)
            && (after.txs[a.tx].status == Completed <==> a.payoutSucceeds && held && s.wallets[t.wallet] >= t.amount)
            && (after.txs[a.tx].status == RequiresApproval <==> a.payoutSucceeds && !held)
            && r == if after.txs[a.tx].status == Completed then Ok(a.tx) else Err(Internal)
  {
  }

  /** Any other approval changes nothing. */
  lemma ApprovalErrors(s: Books, a: Approval)
    requires !(AwaitsApproval(s, a.tx) && a.stored)
    ensures WithdrawalApproved(s, a) ==
            (s, Err(if a.tx >= |s.txs| then NotFound else if AwaitsApproval(s, a.tx) then Internal else BadRequest))
  {
  }

  /** Event i of the run is an approval of the withdrawal whose payout fails. */
  predicate RefusedAt(s: Books, events: seq<Event>, i: nat, id: nat) {
    && i < |events| && events[i].ApproveWithdrawal? && events[i].approval.tx == id
    && AwaitsApproval(Run(s, events[..i]), id) && !events[i].approval.payoutSucceeds
  }

  /** The transaction has the status afterwards and had another before, or none. */
  predicate Gets(s: Books, after: Books, id: nat, status: Status) {
    id < |after.txs| && after.txs[id].status == status && !(id < |s.txs| && s.txs[id].status == status)
  }

  /**
   The two failure statuses tell whether the money has gone out: on every run, a withdrawal that came to
   lack funds after payment was paid out in the run, and one whose payment failed was refused in it.
   */
  lemma {:induction false} StatusTellsPayout(s: Books, events: seq<Event>, id: nat)
    ensures Gets(s, Run(s, events), id, InsufficientFundsPostPayment) ==> exists i :: PayoutAt(s, events, i, id)
    ensures Gets(s, Run(s, events), id, PaymentFailed) ==> exists i :: RefusedAt(s, events, i, id)
    decreases |events|
  {
    if events != [] {
      var next, rest := Step(s, events[0]), events[1..];
      StatusTellsPayout(next, rest, id);
      StepTellsPayout(s, events, id);
      if i: nat :| PayoutAt(next, rest, i, id) {
        assert events[..i + 1][1..] == rest[..i];
        assert PayoutAt(s, events, i + 1, id);
      }
      if i: nat :| RefusedAt(next, rest, i, id) {
        assert events[..i + 1][1..] == rest[..i];
        assert RefusedAt(s, events, i + 1, id);
      }
    }
  }

  lemma StepTellsPayout(s: Books, events: seq<Event>, id: nat)
    requires events != []
    ensures Gets(s, Step(s, events[0]), id, InsufficientFundsPostPayment) ==> PayoutAt(s, events, 0, id)
    ensures Gets(s, Step(s, events[0]), id, PaymentFailed) ==> RefusedAt(s, events, 0, id)
  {
    assert events[..0] == [];
  }

  // ---------- new requests ----------

  predicate HasKey(s: Books, i: nat, key: Id) {
    i < |s.txs| && s.txs[i].key == Some(key)
  }

  lemma KeyIsFound(s: Books, key: Id)
    ensures FindByKey(s.txs, key).Some? <==> exists i :: HasKey(s, i, key)
    ensures FindByKey(s.txs, key).Some? ==> HasKey(s, FindByKey(s.txs, key).value, key)
    ensures KeysUnique(s) ==> forall i: nat :: HasKey(s, i, key) ==> FindByKey(s.txs, key) == Some(i)
  {
    var found := FindByKey(s.txs, key);
    if found.Some? {
      assert HasKey(s, found.value, key);
    }
    forall i: nat | KeysUnique(s) && HasKey(s, i, key)
      ensures found == Some(i)
    {
      FoundByKey(s, i, key);
    }
  }

  predicate KeyInProgress(s: Books, i: nat, key: Option<Id>) {
    key.Some? && HasKey(s, i, key.value) && s.txs[i].status in {RequiresApproval, Pending, Processing}
  }

  /**
   A withdrawal request puts exactly one transaction on record when its key is new and the wallet covers
   it, namely the withdrawal it asks for, awaiting approval; and no money moves. Otherwise it puts none.
   */
  lemma WithdrawalIsNewIff(s: Books, user: Id, amount: int, currency: Id, key: Option<Id>)
    ensures var (after, r) := WithdrawalRequested(s, user, amount, currency, key);
            && after.wallets == s.wallets
            && (after.txs != s.txs <==>
                && amount > 0 && user in s.wallets && s.wallets[user] >= amount
                && (key.Some? ==> !exists i :: HasKey(s, i, key.value)))
            && (after.txs != s.txs ==>
                  && r == Ok(|s.txs|) && |after.txs| == |s.txs| + 1 && after.txs[..|s.txs|] == s.txs
                  && AwaitsApproval(after, |s.txs|) && after.txs[|s.txs|].key == key
                  && AsRequested(after.txs[|s.txs|], user, Withdrawal, amount, currency))
  {
    if key.Some? {
      KeyIsFound(s, key.value);
    }
  }

  /** The key is in use for somebody else or for another amount. */
  predicate RetriesAnother(s: Books, i: nat, user: Id, amount: int, key: Option<Id>) {
    KeyInProgress(s, i, key)
    && (user !in s.wallets || s.txs[i].wallet != user || s.txs[i].amount != amount)
  }

  lemma WithdrawalErrors(s: Books, user: Id, amount: int, currency: Id, key: Option<Id>)
    requires KeysUnique(s)
    ensures var r := WithdrawalRequested(s, user, amount, currency, key).1;
            var retried := exists i :: KeyInProgress(s, i, key);
            && (r == Err(BadRequest) <==>
                amount <= 0 || (!retried && user in s.wallets && s.wallets[user] < amount))
            && (r == Err(NotFound) <==> amount > 0 && !retried && user !in s.wallets)
            && (r == Err(Conflict) <==> amount > 0 && exists i :: RetriesAnother(s, i, user, amount, key))
            && (r.Err? ==> r.error in {BadRequest, NotFound, Conflict})
  {
    if key.Some? {
      KeyIsFound(s, key.value);
      var found := FindByKey(s.txs, key.value);
      if found.Some? {
        assert KeyInProgress(s, found.value, key) <==> InProgress(s.txs[found.value].status);
        assert RetriesAnother(s, found.value, user, amount, key) <==>
               exists i :: RetriesAnother(s, i, user, amount, key);
      }
    }
  }

  /** A deposit request puts exactly one transaction on record: a pending deposit, as asked for. */
  lemma DepositIsNewIff(s: Books, user: Id, amount: int, currency: Id, key: Id, accepts: bool)
    ensures var (after, r) := DepositInitialized(s, user, amount, currency, key, accepts);
            && after.wallets == s.wallets
            && (after.txs != s.txs <==>
                amount > 0 && user in s.wallets && accepts && !exists i :: HasKey(s, i, key))
            && (after.txs != s.txs ==>
                  && r == Ok(|s.txs|) && |after.txs| == |s.txs| + 1 && after.txs[..|s.txs|] == s.txs
                  && after.txs[|s.txs|].status == Pending && after.txs[|s.txs|].key == Some(key)
                  && AsRequested(after.txs[|s.txs|], user, Deposit, amount, currency))
  {
    KeyIsFound(s, key);
  }

  /** The key belongs to a transaction that is neither pending nor completed, or not as requested. */
  predicate KeyIsSpent(s: Books, i: nat, user: Id, amount: int, currency: Id, key: Id) {
    HasKey(s, i, key)
    && (user !in s.wallets || s.txs[i].status !in {Pending, Completed} || s.txs[i].wallet != user
        || s.txs[i].amount != amount || s.txs[i].currency != currency)
  }

  lemma DepositErrors(s: Books, user: Id, amount: int, currency: Id, key: Id, accepts: bool)
    requires KeysUnique(s)
    ensures var r := DepositInitialized(s, user, amount, currency, key, accepts).1;
            var taken := exists i :: HasKey(s, i, key);
            && (r == Err(BadRequest) <==> amount <= 0)
            && (r == Err(NotFound) <==> amount > 0 && !taken && user !in s.wallets)
            && (r == Err(Internal) <==> amount > 0 && !taken && user in s.wallets && !accepts)
            && (r == Err(Conflict) <==> amount > 0 && exists i :: KeyIsSpent(s, i, user, amount, currency, key))
            && (r.Err? ==> r.error in {BadRequest, NotFound, Internal, Conflict})
  {
    KeyIsFound(s, key);
    var found := FindByKey(s.txs, key);
    if found.Some? {
      assert KeyIsSpent(s, found.value, user, amount, currency, key) <==>
             exists i :: KeyIsSpent(s, i, user, amount, currency, key);
    }
  }

  // ---------- the entry fee ----------

  /** A fee is paid in full or not at all, by the one wallet; it is refused exactly when that does not cover it. */
  lemma FeeIsPaidIff(s: Books, user: Id, fee: int, w: Id)
    ensures var (after, outcome) := EntryFeeCharged(s, user, fee);
            && after.txs == s.txs
            && (outcome == Done <==> fee <= 0 || (user in s.wallets && s.wallets[user] >= fee))
            && (outcome != Done ==> outcome == Outcome.Failed(Forbidden))
            && Balance(after, w) == Balance(s, w) - If(w == user && outcome == Done && fee > 0, fee)
            && after.wallets.Keys == s.wallets.Keys
  {
  }

  // ---------- everything else stays ----------

  /** The transaction on record that the step can change. */
  predicate Names(e: Event, id: nat) {
    (e.ProcessDeposit? && e.webhook.tx == id) || (e.ApproveWithdrawal? && e.approval.tx == id)
  }

  /** Any other transaction stays as it is. */
  lemma OtherTransactionsStay(s: Books, e: Event, id: nat)
    requires id < |s.txs| && !Names(e, id)
    ensures id < |Step(s, e).txs| && Step(s, e).txs[id] == s.txs[id]
  {
  }

  /** No wallet appears or disappears, and only the balance of the transaction or of who pays the fee can move. */
  lemma OtherBalancesStay(s: Books, e: Event, w: Id)
    requires e.ChargeEntryFee? ==> e.user != w
    requires forall id :: 0 <= id < |s.txs| && Names(e, id) ==> s.txs[id].wallet != w
    ensures Step(s, e).wallets.Keys == s.wallets.Keys && Balance(Step(s, e), w) == Balance(s, w)
  {
  }
}
