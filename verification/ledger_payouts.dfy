/** How often serial runs pay out one withdrawal, and which payouts no debit covers. */
module LedgerPayouts {
  import opened Common
  import opened Ledger
  import opened LedgerLaws

  /** The approval gets as far as the payout service, and the payout succeeds. */
  predicate PaysOut(s: Books, e: Event, id: nat) {
    e.ApproveWithdrawal? && e.approval.tx == id && AwaitsApproval(s, id) && e.approval.payoutSucceeds
  }

  function Payouts(s: Books, events: seq<Event>, id: nat): nat
    decreases |events|
  {
    if events == [] then 0
    else (if PaysOut(s, events[0], id) then 1 else 0) + Payouts(Step(s, events[0]), events[1..], id)
  }

  /** A payout is followed by its debit exactly when the wallet exists, covers it, and the writes are stored. */
  lemma PayoutIsDebitedIff(s: Books, e: Event, id: nat)
    requires PaysOut(s, e, id) && s.txs[id].amount > 0
    ensures var w := s.txs[id].wallet;
            Balance(Step(s, e), w) == Balance(s, w) - s.txs[id].amount <==>
            w in s.wallets && s.wallets[w] >= s.txs[id].amount && e.approval.stored
    ensures var w := s.txs[id].wallet;
            Step(s, e).wallets == s.wallets || Balance(Step(s, e), w) == Balance(s, w) - s.txs[id].amount
  {
  }

  // ---------- what lets a payout be repeated ----------

  /** The approval rolls its database transaction back: a write or the commit throws, or the wallet is gone. */
  predicate RollsBack(s: Books, e: Event, id: nat)
    requires id < |s.txs|
  {
    e.ApproveWithdrawal? && (!e.approval.stored || s.txs[id].wallet !in s.wallets)
  }

  /** A payout leaves the withdrawal waiting for the next one exactly when it is rolled back. */
  lemma WaitsAfterPayoutIff(s: Books, e: Event, id: nat)
    requires PaysOut(s, e, id)
    ensures AwaitsApproval(Step(s, e), id) <==> RollsBack(s, e, id)
    ensures RollsBack(s, e, id) ==> Step(s, e) == s
  {
  }

  /** A transaction on record that does not await approval never will. */
  lemma ApprovalIsAwaitedOnce(s: Books, e: Event, id: nat)
    requires id < |s.txs| && !AwaitsApproval(s, id)
    ensures id < |Step(s, e).txs| && !AwaitsApproval(Step(s, e), id)
  {
  }

  lemma {:induction false} NeverAwaitedAgain(s: Books, events: seq<Event>, id: nat)
    requires id < |s.txs| && !AwaitsApproval(s, id)
    ensures Payouts(s, events, id) == 0 && !AwaitsApproval(Run(s, events), id)
    ensures id < |Run(s, events).txs|
    decreases |events|
  {
    if events != [] {
      ApprovalIsAwaitedOnce(s, events[0], id);
      NeverAwaitedAgain(Step(s, events[0]), events[1..], id);
    }
  }

  /** Event i of the run pays the withdrawal out. */
  predicate PayoutAt(s: Books, events: seq<Event>, i: nat, id: nat) {
    i < |events| && PaysOut(Run(s, events[..i]), events[i], id)
  }

  /** In every run, each payout of a withdrawal but the last is an approval that was rolled back. */
  lemma {:induction false} RepeatedPayoutHasACause(s: Books, events: seq<Event>, i: nat, j: nat, id: nat)
    requires i < j && PayoutAt(s, events, i, id) && PayoutAt(s, events, j, id)
    ensures RollsBack(Run(s, events[..i]), events[i], id)
    decreases i
  {
    var next, rest := Step(s, events[0]), events[1..];
    assert events[..j][1..] == rest[..j - 1];
    if i > 0 {
      assert events[..i][1..] == rest[..i - 1];
      RepeatedPayoutHasACause(next, rest, i - 1, j - 1, id);
    } else {
      assert events[..0] == [];
      WaitsAfterPayoutIff(s, events[0], id);
      if !AwaitsApproval(next, id) {
        NeverAwaitedAgain(next, rest[..j - 1], id);
      }
    }
  }

  // ---------- how often a withdrawal can be paid out ----------

  /** Wallet w has money, or a transaction that can still be credited to it. */
  predicate CanHaveMoney(s: Books, w: Id) {
    w in s.wallets
    && (s.wallets[w] > 0 || exists i :: 0 <= i < |s.txs| && s.txs[i].wallet == w && !Settled(s.txs[i].status))
  }

  /**
   The withdrawal awaits approval, or can still be requested: the next transaction by somebody who can
   have money, a later one by anybody with a wallet.
   */
  ghost predicate Payable(s: Books, id: nat) {
    || AwaitsApproval(s, id)
    || (id == |s.txs| && exists w :: CanHaveMoney(s, w))
    || (id > |s.txs| && exists w :: w in s.wallets)
  }

  /** A step that adds no transaction gives nobody the prospect of money who had none. */
  lemma NoNewMoney(s: Books, e: Event, w: Id)
    requires PositiveAmounts(s) && !CanHaveMoney(s, w)
    ensures w in Step(s, e).wallets <==> w in s.wallets
    ensures |Step(s, e).txs| == |s.txs| ==> !CanHaveMoney(Step(s, e), w)
  {
    var after := Step(s, e);
    if w in s.wallets && |after.txs| == |s.txs| {
      assert after.wallets[w] <= 0;
      forall i | 0 <= i < |after.txs| && after.txs[i].wallet == w
        ensures Settled(after.txs[i].status)
      {
        StepKeepsRecords(s, e, i);
        FinalStatusKeptIff(s, e, i);
      }
    }
  }

  lemma StepKeepsUnpayable(s: Books, e: Event, id: nat)
    requires PositiveAmounts(s) && !Payable(s, id)
    ensures !Payable(Step(s, e), id) && !PaysOut(s, e, id)
  {
    var after := Step(s, e);
    if id < |s.txs| {
      ApprovalIsAwaitedOnce(s, e, id);
    } else {
      NewIsUnpayable(s, e, id);
      forall w
        ensures id == |s.txs| ==> !CanHaveMoney(s, w)
        ensures id > |s.txs| ==> w !in s.wallets && !CanHaveMoney(s, w)
        ensures w in after.wallets <==> w in s.wallets
        ensures |after.txs| == |s.txs| ==> !CanHaveMoney(after, w)
      {
        NoNewMoney(s, e, w);
      }
    }
  }

  /** Without the prospect of money, a transaction that a step adds is a deposit; without wallets it adds none. */
  lemma NewIsUnpayable(s: Books, e: Event, id: nat)
    requires !Payable(s, id) && id >= |s.txs|
    ensures |Step(s, e).txs| == |s.txs|
            || (id == |s.txs| && |Step(s, e).txs| == id + 1 && !AwaitsApproval(Step(s, e), id))
  {
    if e.RequestWithdrawal? || e.InitializeDeposit? {
      assert e.user in s.wallets && s.wallets[e.user] > 0 ==> CanHaveMoney(s, e.user);
    }
  }

  lemma {:induction false} NeverPaid(s: Books, events: seq<Event>, id: nat)
    requires PositiveAmounts(s) && !Payable(s, id)
    ensures Payouts(s, events, id) == 0
    decreases |events|
  {
    if events != [] {
      StepKeepsUnpayable(s, events[0], id);
      StepKeepsAmountsPositive(s, events[0]);
      NeverPaid(Step(s, events[0]), events[1..], id);
    }
  }

  ghost predicate CanBePaid(s: Books, id: nat, count: nat) {
    exists events :: Payouts(s, events, id) == count
  }

  lemma PaidAfter(s: Books, e: Event, id: nat, count: nat)
    requires CanBePaid(Step(s, e), id, count)
    ensures CanBePaid(s, id, count + if PaysOut(s, e, id) then 1 else 0)
  {
    var rest :| Payouts(Step(s, e), rest, id) == count;
    assert ([e] + rest)[1..] == rest;
    assert Payouts(s, [e] + rest, id) == count + if PaysOut(s, e, id) then 1 else 0;
  }

  lemma {:induction false} WaitingIsPaid(s: Books, id: nat, count: nat)
    requires AwaitsApproval(s, id)
    ensures CanBePaid(s, id, count)
    decreases count
  {
    if count == 0 {
      assert Payouts(s, [], id) == 0;
    } else {
      WaitingIsPaid(s, id, count - 1);
      PaidAfter(s, ApproveWithdrawal(Approval(id, true, false)), id, count - 1);
    }
  }

  lemma FundedIsPaid(s: Books, id: nat, w: Id, count: nat)
    requires id == |s.txs| && w in s.wallets && s.wallets[w] > 0
    ensures CanBePaid(s, id, count)
  {
    var request := RequestWithdrawal(w, 1, 0, None);
    WaitingIsPaid(Step(s, request), id, count);
    PaidAfter(s, request, id, count);
  }

  /** Webhooks whose status is not recorded raise the balance for as long as it takes. */
  lemma {:induction false} UnsettledIsPaid(s: Books, id: nat, i: nat, count: nat)
    requires id == |s.txs| && i < id && s.txs[i].wallet in s.wallets
    requires !Settled(s.txs[i].status) && s.txs[i].amount > 0
    ensures CanBePaid(s, id, count)
    decreases 1 - s.wallets[s.txs[i].wallet]
  {
    if s.wallets[s.txs[i].wallet] > 0 {
      FundedIsPaid(s, id, s.txs[i].wallet, count);
    } else {
      var credit := ProcessDeposit(Webhook(i, s.txs[i].amount, Success, true, false));
      UnsettledIsPaid(Step(s, credit), id, i, count);
      PaidAfter(s, credit, id, count);
    }
  }

  /** A key that no transaction has. */
  function UnusedKey(txs: seq<Transaction>): (key: Id)
    ensures forall i :: 0 <= i < |txs| && txs[i].key.Some? ==> txs[i].key.value < key
  {
    if txs == [] then 0
    else
      var (key, last) := (UnusedKey(txs[..|txs| - 1]), txs[|txs| - 1].key);
      if last.Some? && last.value >= key then last.value + 1 else key
  }

  /** Deposits that are only initialized fill the list up to the withdrawal. */
  lemma {:induction false} LaterIsPaid(s: Books, id: nat, w: Id, count: nat)
    requires id > |s.txs| && w in s.wallets
    ensures CanBePaid(s, id, count)
    decreases id - |s.txs|
  {
    var deposit := InitializeDeposit(w, 1, 0, UnusedKey(s.txs), true);
    var next := Step(s, deposit);
    assert next.txs == s.txs + [Transaction(w, Deposit, 1, Pending, Some(UnusedKey(s.txs)), 0)];
    if id == |next.txs| {
      UnsettledIsPaid(next, id, |s.txs|, count);
    } else {
      LaterIsPaid(next, id, w, count);
    }
    PaidAfter(s, deposit, id, count);
  }

  lemma PayableIsPaid(s: Books, id: nat, count: nat)
    requires PositiveAmounts(s) && Payable(s, id)
    ensures CanBePaid(s, id, count)
  {
    if AwaitsApproval(s, id) {
      WaitingIsPaid(s, id, count);
    } else if id > |s.txs| {
      var w :| w in s.wallets;
      LaterIsPaid(s, id, w, count);
    } else {
      var w :| CanHaveMoney(s, w);
      if s.wallets[w] > 0 {
        FundedIsPaid(s, id, w, count);
      } else {
        var i :| 0 <= i < |s.txs| && s.txs[i].wallet == w && !Settled(s.txs[i].status);
        UnsettledIsPaid(s, id, i, count);
      }
    }
  }

  /**
   Exactly how often serial runs can pay out one withdrawal: any number of times, once it can be paid out
   at all, since an approval that is rolled back after its payout can be repeated.
   */
  lemma SerialPayoutCounts(s: Books, id: nat, count: nat)
    requires PositiveAmounts(s)
    ensures CanBePaid(s, id, count) <==> count == 0 || Payable(s, id)
  {
    if Payable(s, id) {
      PayableIsPaid(s, id, count);
    } else {
      assert Payouts(s, [], id) == 0;
      if events :| Payouts(s, events, id) == count {
        NeverPaid(s, events, id);
      }
    }
  }

  /** So it can be paid out twice exactly when it awaits approval or can still be requested. */
  lemma PaidTwiceIff(s: Books, id: nat)
    requires PositiveAmounts(s)
    ensures (exists events :: Payouts(s, events, id) >= 2) <==> Payable(s, id)
  {
    if Payable(s, id) {
      SerialPayoutCounts(s, id, 2);
      var events :| Payouts(s, events, id) == 2;
      assert Payouts(s, events, id) >= 2;
    } else {
      forall events
        ensures Payouts(s, events, id) == 0
      {
        NeverPaid(s, events, id);
      }
    }
  }

  // ---------- when every approval is stored ----------

  /** No write and no commit of an approval fails in the run. */
  predicate ApprovalsStored(events: seq<Event>) {
    forall i :: 0 <= i < |events| && events[i].ApproveWithdrawal? ==> events[i].approval.stored
  }

  /** A withdrawal whose wallet is gone. */
  predicate Orphaned(s: Books, id: nat) {
    AwaitsApproval(s, id) && s.txs[id].wallet !in s.wallets
  }

  /** A step neither takes a wallet away nor creates a transaction without one. */
  lemma StepKeepsOwned(s: Books, e: Event, id: nat)
    requires !Orphaned(s, id)
    ensures !Orphaned(Step(s, e), id)
  {
  }

  lemma {:induction false} PaidAtMostOnce(s: Books, events: seq<Event>, id: nat)
    requires !Orphaned(s, id) && ApprovalsStored(events)
    ensures Payouts(s, events, id) <= 1
    decreases |events|
  {
    if events != [] {
      StepKeepsOwned(s, events[0], id);
      if PaysOut(s, events[0], id) {
        WaitsAfterPayoutIff(s, events[0], id);
        NeverAwaitedAgain(Step(s, events[0]), events[1..], id);
      } else {
        PaidAtMostOnce(Step(s, events[0]), events[1..], id);
      }
    }
  }

  ghost predicate CanBePaidTwiceStored(s: Books, id: nat) {
    exists events :: ApprovalsStored(events) && Payouts(s, events, id) >= 2
  }

  /**
   In serial runs whose approvals are all stored, a withdrawal is paid out at most once, unless its wallet
   does not exist: then the code itself rolls back after the payout.
   */
  lemma PaidTwiceWhenStoredIff(s: Books, id: nat)
    ensures CanBePaidTwiceStored(s, id) <==> Orphaned(s, id)
  {
    if Orphaned(s, id) {
      var approve := ApproveWithdrawal(Approval(id, true, true));
      var events := [approve, approve];
      assert events[1..] == [approve] && Step(s, approve) == s;
      assert Payouts(s, [approve], id) == 1 + Payouts(s, [], id);
      assert Payouts(s, events, id) == 1 + Payouts(s, [approve], id);
    } else {
      forall events | ApprovalsStored(events)
        ensures Payouts(s, events, id) <= 1
      {
        PaidAtMostOnce(s, events, id);
      }
    }
  }
}
