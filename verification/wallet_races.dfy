/**
 Deposits and approvals racing for one wallet. A deposit holds the lock manager's lock, if there is a
 lock manager, and stores its balance under a row lock that it takes for the write alone; an approval
 knows nothing of that lock and holds the row from its read to its commit.
 */
module WalletRaces {
  import opened Common
  import Ledger

  datatype Job = Deposit(amount: int) | Approval(withdrawal: nat)

  datatype Phase =
    | Arrived                 // nothing done yet
    | Inside                  // a deposit in its critical section, nothing read
    | HasRead(seen: int)      // a deposit that has read the balance
    | Chosen                  // an approval that found its withdrawal awaiting approval
    | Refused                 // an approval whose payout has failed, about to store that
    | Paid                    // an approval whose payout has gone out
    | HasRow(held: int)       // an approval that has locked the row and read the balance
    | Stored                  // its balance is stored
    | GaveUp

  datatype Call = Call(job: Job, phase: Phase)

  datatype Withdrawal = Withdrawal(amount: int, open: bool)

  /** moves lists every amount that was added to a balance in memory and then stored, payouts every payout made. */
  datatype World = World(
    balance: int, mutex: Option<nat>, row: Option<nat>,
    withdrawals: seq<Withdrawal>, calls: seq<Call>, moves: seq<int>, payouts: seq<nat>, locking: bool)

  function SetPhase(s: World, i: nat, phase: Phase): World
    requires i < |s.calls|
  {
    s.(calls := s.calls[i := s.calls[i].(phase := phase)])
  }

  function Close(s: World, k: nat): World
    requires k < |s.withdrawals|
  {
    s.(withdrawals := s.withdrawals[k := s.withdrawals[k].(open := false)])
  }

  function MoveDeposit(s: World, i: nat, amount: int, fails: bool): World
    requires i < |s.calls|
  {
    match s.calls[i].phase
    case Arrived =>
      if fails then SetPhase(s, i, GaveUp)
      else if !s.locking then SetPhase(s, i, Inside)
      else if s.mutex.Some? then s
      else SetPhase(s, i, Inside).(mutex := Some(i))
    case Inside => if fails then SetPhase(s, i, GaveUp).(mutex := None) else SetPhase(s, i, HasRead(s.balance))
    case HasRead(seen) =>
      if fails then SetPhase(s, i, GaveUp).(mutex := None)
      else if s.row.Some? then s
      else SetPhase(s, i, Stored).(balance := seen + amount, moves := s.moves + [amount], mutex := None)
    case _ => s
  }

  function MoveApproval(s: World, i: nat, k: nat, fails: bool): World
    requires i < |s.calls| && k < |s.withdrawals|
  {
    var amount := s.withdrawals[k].amount;
    match s.calls[i].phase
    case Arrived => SetPhase(s, i, if fails || !s.withdrawals[k].open then GaveUp else Chosen)
    case Chosen => if fails then SetPhase(s, i, Refused) else SetPhase(s, i, Paid).(payouts := s.payouts + [k])
    case Refused => if fails then SetPhase(s, i, GaveUp) else Close(SetPhase(s, i, GaveUp), k)
    case Paid =>
      if fails then SetPhase(s, i, GaveUp)
      else if s.row.Some? then s
      else SetPhase(s, i, HasRow(s.balance)).(row := Some(i))
    case HasRow(held) =>
      if fails then SetPhase(s, i, GaveUp).(row := None)
      else if held < amount then Close(SetPhase(s, i, GaveUp), k).(row := None)
      else Close(SetPhase(s, i, Stored), k).(balance := held - amount, moves := s.moves + [-amount], row := None)
    case _ => s
  }

  /** Call i makes its next move; one that finds a lock taken stays where it is. */
  function Move(s: World, i: nat, fails: bool): World {
    if i >= |s.calls| then s
    else
      match s.calls[i].job
      case Deposit(amount) => MoveDeposit(s, i, amount, fails)
      case Approval(k) => if k < |s.withdrawals| then MoveApproval(s, i, k, fails) else SetPhase(s, i, GaveUp)
  }

  datatype Turn = Turn(call: nat, fails: bool)

  function Schedule(s: World, turns: seq<Turn>): World
    decreases |turns|
  {
    if turns == [] then s else Schedule(Move(s, turns[0].call, turns[0].fails), turns[1..])
  }

  predicate Fresh(s: World) {
    && (forall i :: 0 <= i < |s.calls| ==> s.calls[i].phase == Arrived)
    && s.mutex.None? && s.row.None? && s.moves == [] && s.payouts == []
  }

  /** Amounts on record are never negative. */
  predicate Sensible(s: World) {
    && (forall k :: 0 <= k < |s.withdrawals| ==> s.withdrawals[k].amount >= 0)
    && forall i :: 0 <= i < |s.calls| && s.calls[i].job.Deposit? ==> s.calls[i].job.amount >= 0
  }

  lemma {:induction false} ScheduleThen(s: World, first: seq<Turn>, second: seq<Turn>)
    ensures Schedule(s, first + second) == Schedule(Schedule(s, first), second)
    decreases |first|
  {
    if first == [] {
      assert first + second == second;
    } else {
      assert (first + second)[1..] == first[1..] + second;
      ScheduleThen(Move(s, first[0].call, first[0].fails), first[1..], second);
    }
  }

  lemma OneTurn(s: World, i: nat)
    ensures Schedule(s, [Turn(i, false)]) == Move(s, i, false)
  {
    assert [Turn(i, false)][1..] == [];
  }

  lemma MoveOfOneCall(s: World, i: nat, fails: bool)
    requires i < |s.calls|
    ensures var after := Move(s, i, fails);
            && |after.calls| == |s.calls| && after.calls == s.calls[i := after.calls[i]]
            && after.calls[i].job == s.calls[i].job
  {
  }

  // ---------- an approval that runs alone ----------

  /** One wallet and one withdrawal of the ledger, about to be approved. */
  function Excerpt(b: Ledger.Books, id: nat, locking: bool): World
    requires id < |b.txs| && b.txs[id].wallet in b.wallets
  {
    var t := b.txs[id];
    World(b.wallets[t.wallet], None, None, [Withdrawal(t.amount, t.status == Ledger.RequiresApproval)],
          [Call(Approval(0), Arrived)], [], [], locking)
  }

  /** Check and payout. */
  function FirstMoves(s: World, a: Ledger.Approval): World {
    Move(Move(s, 0, false), 0, !a.payoutSucceeds)
  }

  /** Lock and read, write; after a failed payout, the first of them stores that. */
  function LastMoves(s: World, a: Ledger.Approval): World {
    Move(Move(s, 0, !a.payoutSucceeds && !a.stored), 0, a.payoutSucceeds && !a.stored)
  }

  lemma FirstMovesPay(b: Ledger.Books, a: Ledger.Approval, locking: bool)
    requires a.tx < |b.txs| && b.txs[a.tx].wallet in b.wallets
    ensures var s := Excerpt(b, a.tx, locking);
            FirstMoves(s, a) ==
            if !s.withdrawals[0].open then SetPhase(s, 0, GaveUp)
            else if a.payoutSucceeds then SetPhase(s, 0, Paid).(payouts := [0]) else SetPhase(s, 0, Refused)
  {
  }

  lemma PaidIsStored(s: World, a: Ledger.Approval)
    requires |s.withdrawals| == 1 && s.calls == [Call(Approval(0), Paid)] && s.row.None? && a.payoutSucceeds
    ensures var (after, amount) := (LastMoves(s, a), s.withdrawals[0].amount);
            && |after.withdrawals| == 1 && after.payouts == s.payouts
            && after.balance == s.balance - (if a.stored && s.balance >= amount then amount else 0)
            && after.withdrawals[0].open == (s.withdrawals[0].open && !a.stored)
  {
  }

  lemma RefusalIsStored(s: World, a: Ledger.Approval)
    requires |s.withdrawals| == 1 && s.calls == [Call(Approval(0), Refused)] && !a.payoutSucceeds
    ensures var after := LastMoves(s, a);
            && |after.withdrawals| == 1 && after.payouts == s.payouts && after.balance == s.balance
            && after.withdrawals[0].open == (s.withdrawals[0].open && !a.stored)
  {
  }

  /** Uninterrupted, the moves are the use case in one step, wherever a write fails. */
  lemma SerialApprovalIsWithdrawalApproved(b: Ledger.Books, a: Ledger.Approval, locking: bool)
    requires a.tx < |b.txs| && b.txs[a.tx].wallet in b.wallets && b.txs[a.tx].kind == Ledger.Withdrawal
    ensures var (t, after) := (b.txs[a.tx], LastMoves(FirstMoves(Excerpt(b, a.tx, locking), a), a));
            var next := Ledger.WithdrawalApproved(b, a).0;
            && |after.withdrawals| == 1 && next.wallets == b.wallets[t.wallet := after.balance]
            && |next.txs| == |b.txs|
            && (after.withdrawals[0].open <==> next.txs[a.tx].status == Ledger.RequiresApproval)
            && after.payouts == if t.status == Ledger.RequiresApproval && a.payoutSucceeds then [0] else []
  {
    var first := FirstMoves(Excerpt(b, a.tx, locking), a);
    FirstMovesPay(b, a, locking);
    assert b.wallets == b.wallets[b.txs[a.tx].wallet := b.wallets[b.txs[a.tx].wallet]];
    if first.calls[0].phase == Paid {
      PaidIsStored(first, a);
    } else if first.calls[0].phase == Refused {
      RefusalIsStored(first, a);
    }
  }

  // ---------- what no move changes ----------

  /** Withdrawals keep their amounts and never open again. */
  predicate RecordsSince(s0: World, s: World) {
    && |s.withdrawals| == |s0.withdrawals| && |s.calls| == |s0.calls| && s.locking == s0.locking
    && (forall k :: 0 <= k < |s0.withdrawals| ==>
          s.withdrawals[k].amount == s0.withdrawals[k].amount && (s.withdrawals[k].open ==> s0.withdrawals[k].open))
    && forall i :: 0 <= i < |s0.calls| ==> s.calls[i].job == s0.calls[i].job
  }

  lemma MoveOfRecords(s: World, i: nat, fails: bool)
    ensures var after := Move(s, i, fails);
            && |after.withdrawals| == |s.withdrawals| && after.locking == s.locking
            && forall k :: 0 <= k < |s.withdrawals| ==>
                 after.withdrawals[k].amount == s.withdrawals[k].amount
                 && (after.withdrawals[k].open ==> s.withdrawals[k].open)
  {
  }

  lemma MoveKeepsRecords(s0: World, s: World, i: nat, fails: bool)
    requires RecordsSince(s0, s)
    ensures RecordsSince(s0, Move(s, i, fails))
  {
    MoveOfRecords(s, i, fails);
    if i < |s.calls| {
      MoveOfOneCall(s, i, fails);
    }
  }

  predicate OnItsWay(phase: Phase) {
    phase == Chosen || phase == Refused || phase == Paid || phase.HasRow?
  }

  /** Who holds what, and that an approval on its way found its withdrawal open. */
  predicate Holds(s0: World, s: World, i: nat)
    requires i < |s.calls|
  {
    var c := s.calls[i];
    && (c.phase == Inside || c.phase.HasRead? ==> c.job.Deposit? && (s.locking ==> s.mutex == Some(i)))
    && (c.phase.HasRow? ==> s.row == Some(i) && c.phase.held == s.balance)
    && (OnItsWay(c.phase) ==>
          c.job.Approval? && c.job.withdrawal < |s0.withdrawals| && s0.withdrawals[c.job.withdrawal].open)
  }

  predicate AllHold(s0: World, s: World) {
    RecordsSince(s0, s) && forall i :: 0 <= i < |s.calls| ==> Holds(s0, s, i)
  }

  /** A lock that call j holds is neither taken nor released by another, and with its row the balance stays. */
  lemma OthersKeepLocks(s: World, i: nat, fails: bool, j: nat)
    requires i < |s.calls| && i != j
    requires s.calls[i].phase == Inside || s.calls[i].phase.HasRead? ==> s.locking ==> s.mutex == Some(i)
    requires s.calls[i].phase.HasRow? ==> s.row == Some(i)
    ensures s.mutex == Some(j) && s.locking ==> Move(s, i, fails).mutex == Some(j)
    ensures s.row == Some(j) ==> Move(s, i, fails).row == Some(j) && Move(s, i, fails).balance == s.balance
  {
  }

  lemma MoveKeepsOwnHold(s0: World, s: World, i: nat, fails: bool)
    requires RecordsSince(s0, s) && i < |s.calls| && Holds(s0, s, i)
    ensures i < |Move(s, i, fails).calls| && Holds(s0, Move(s, i, fails), i)
  {
  }

  lemma MoveKeepsHolds(s0: World, s: World, i: nat, fails: bool, j: nat)
    requires RecordsSince(s0, s) && j < |s.calls| && Holds(s0, s, j)
    requires i < |s.calls| ==> Holds(s0, s, i)
    ensures j < |Move(s, i, fails).calls| && Holds(s0, Move(s, i, fails), j)
  {
    if i == j {
      MoveKeepsOwnHold(s0, s, i, fails);
    } else if i < |s.calls| {
      MoveOfOneCall(s, i, fails);
      MoveKeepsRecords(s0, s, i, fails);
      OthersKeepLocks(s, i, fails, j);
    }
  }

  lemma MoveKeepsAllHold(s0: World, s: World, i: nat, fails: bool)
    requires AllHold(s0, s)
    ensures AllHold(s0, Move(s, i, fails))
  {
    MoveKeepsRecords(s0, s, i, fails);
    forall j | 0 <= j < |s.calls|
      ensures Holds(s0, Move(s, i, fails), j)
    {
      MoveKeepsHolds(s0, s, i, fails, j);
    }
  }

  // ---------- no lock is left behind ----------

  /** A lock that is held is held by a call that is using it. */
  predicate LocksAreUsed(s: World) {
    && (s.mutex.Some? ==>
          && s.mutex.value < |s.calls| && s.calls[s.mutex.value].job.Deposit?
          && (s.calls[s.mutex.value].phase == Inside || s.calls[s.mutex.value].phase.HasRead?))
    && (s.row.Some? ==>
          && s.row.value < |s.calls| && s.calls[s.row.value].phase.HasRow? && s.calls[s.row.value].job.Approval?
          && s.calls[s.row.value].job.withdrawal < |s.withdrawals|)
  }

  lemma MoveKeepsLocksUsed(s0: World, s: World, i: nat, fails: bool)
    requires LocksAreUsed(s) && (i < |s.calls| ==> Holds(s0, s, i))
    ensures LocksAreUsed(Move(s, i, fails))
  {
    if i < |s.calls| {
      MoveOfOneCall(s, i, fails);
    }
  }

  /** Under every schedule, wherever calls fail, no lock outlives its use. */
  lemma {:induction false} ScheduleKeepsLocksUsed(s0: World, s: World, turns: seq<Turn>)
    requires AllHold(s0, s) && LocksAreUsed(s)
    ensures AllHold(s0, Schedule(s, turns)) && LocksAreUsed(Schedule(s, turns))
    decreases |turns|
  {
    if turns != [] {
      var i, fails := turns[0].call, turns[0].fails;
      assert i < |s.calls| ==> Holds(s0, s, i);
      MoveKeepsLocksUsed(s0, s, i, fails);
      MoveKeepsAllHold(s0, s, i, fails);
      ScheduleKeepsLocksUsed(s0, Move(s, i, fails), turns[1..]);
    }
  }

  predicate IsOver(phase: Phase) {
    phase == Stored || phase == GaveUp
  }

  predicate MovesOn(s: World, j: nat)
    requires j < |s.calls|
  {
    j < |Move(s, j, false).calls| && Move(s, j, false).calls[j].phase != s.calls[j].phase
  }

  /** A call that is not over moves, unless somebody else has the lock it needs. */
  lemma MovesUnlessWaiting(s: World, i: nat)
    requires i < |s.calls| && !IsOver(s.calls[i].phase)
    requires s.calls[i].phase == Inside || s.calls[i].phase.HasRead? ==> s.calls[i].job.Deposit?
    requires OnItsWay(s.calls[i].phase) ==> s.calls[i].job.Approval?
    ensures || MovesOn(s, i)
            || (s.calls[i].phase == Arrived && s.mutex.Some?)
            || ((s.calls[i].phase.HasRead? || s.calls[i].phase == Paid) && s.row.Some?)
  {
  }

  ghost predicate SomebodyMoves(s: World) {
    exists j :: 0 <= j < |s.calls| && MovesOn(s, j)
  }

  lemma HoldersMove(s0: World, s: World)
    requires AllHold(s0, s) && LocksAreUsed(s)
    ensures s.mutex.Some? || s.row.Some? ==> SomebodyMoves(s)
  {
    if s.row.Some? {
      MovesUnlessWaiting(s, s.row.value);
      assert MovesOn(s, s.row.value);
    } else if s.mutex.Some? {
      MovesUnlessWaiting(s, s.mutex.value);
      assert MovesOn(s, s.mutex.value);
    }
  }

  /** No deadlock: under every schedule, as long as some call is not over, some call can move on. */
  lemma NeverStuck(s: World, turns: seq<Turn>, i: nat)
    requires Fresh(s)
    requires i < |Schedule(s, turns).calls| && !IsOver(Schedule(s, turns).calls[i].phase)
    ensures SomebodyMoves(Schedule(s, turns))
  {
    var after := Schedule(s, turns);
    ScheduleKeepsLocksUsed(s, s, turns);
    HoldersMove(s, after);
    assert Holds(s, after, i);
    MovesUnlessWaiting(after, i);
    if after.mutex.None? && after.row.None? {
      assert MovesOn(after, i);
    }
  }

  // ---------- what becomes of the balance ----------

  function Sum(moves: seq<int>): int {
    if moves == [] then 0 else Sum(moves[..|moves| - 1]) + moves[|moves| - 1]
  }

  lemma SumAppend(moves: seq<int>, m: int)
    ensures Sum(moves + [m]) == Sum(moves) + m
  {
    assert (moves + [m])[..|moves|] == moves;
  }

  function Gain(job: Job): int {
    if job.Deposit? then job.amount else 0
  }

  /** The deposits among the first k calls, and those of them that are stored. */
  function Deposits(calls: seq<Call>, k: nat): int
    requires k <= |calls|
  {
    if k == 0 then 0 else Deposits(calls, k - 1) + Gain(calls[k - 1].job)
  }

  function StoredDeposits(calls: seq<Call>, k: nat): int
    requires k <= |calls|
  {
    if k == 0 then 0
    else StoredDeposits(calls, k - 1) + if calls[k - 1].phase == Stored then Gain(calls[k - 1].job) else 0
  }

  lemma {:induction false} StoredUpdate(calls: seq<Call>, i: nat, c: Call, k: nat)
    requires i < |calls| && k <= |calls| && c.job == calls[i].job
    ensures StoredDeposits(calls[i := c], k) == StoredDeposits(calls, k)
              + if i < k && c.phase == Stored && calls[i].phase != Stored then Gain(c.job)
                else if i < k && c.phase != Stored && calls[i].phase == Stored then -Gain(c.job) else 0
  {
    if k > 0 {
      StoredUpdate(calls, i, c, k - 1);
    }
  }

  /** What is stored leaves out every deposit that is not. */
  lemma {:induction false} StoredBound(s0: World, s: World, k: nat, j: nat)
    requires Sensible(s0) && RecordsSince(s0, s) && k <= |s.calls|
    ensures StoredDeposits(s.calls, k) <= Deposits(s0.calls, k)
    ensures j < k && s.calls[j].phase != Stored ==>
            StoredDeposits(s.calls, k) <= Deposits(s0.calls, k) - Gain(s.calls[j].job)
  {
    if k > 0 {
      StoredBound(s0, s, k - 1, j);
    }
  }

  /** Balances, those in memory included, come from stored deposits. */
  predicate Bounded(s0: World, s: World) {
    && |s.calls| == |s0.calls|
    && s.balance <= s0.balance + StoredDeposits(s.calls, |s.calls|)
    && forall i :: 0 <= i < |s.calls| && s.calls[i].phase.HasRead? ==>
         s.calls[i].phase.seen <= s0.balance + StoredDeposits(s.calls, |s.calls|)
  }

  lemma StoredGrows(s: World, i: nat, fails: bool)
    ensures var after := Move(s, i, fails);
            && |after.calls| == |s.calls|
            && StoredDeposits(after.calls, |s.calls|) == StoredDeposits(s.calls, |s.calls|)
                 + if i < |s.calls| && s.calls[i].phase != Stored
                   && after.calls[i].phase == Stored then Gain(s.calls[i].job) else 0
  {
    if i < |s.calls| {
      MoveOfOneCall(s, i, fails);
      StoredUpdate(s.calls, i, Move(s, i, fails).calls[i], |s.calls|);
    }
  }

  lemma MoveKeepsBounded(s0: World, s: World, i: nat, fails: bool)
    requires Sensible(s0) && AllHold(s0, s) && Bounded(s0, s)
    ensures Bounded(s0, Move(s, i, fails))
  {
    StoredGrows(s, i, fails);
    if i < |s.calls| {
      MoveOfOneCall(s, i, fails);
      assert Holds(s0, s, i);
      assert s.calls[i].job == s0.calls[i].job;
    }
  }

  /** The move stores what a deposit has in memory. */
  predicate WritesDeposit(s: World, i: nat, fails: bool) {
    i < |s.calls| && s.calls[i].job.Deposit? && s.calls[i].phase.HasRead? && !fails && s.row.None?
  }

  /** The move stores what an approval has in memory. */
  predicate WritesDebit(s: World, i: nat, fails: bool) {
    && i < |s.calls| && s.calls[i].job.Approval? && s.calls[i].phase.HasRow? && !fails
    && s.calls[i].job.withdrawal < |s.withdrawals|
    && s.withdrawals[s.calls[i].job.withdrawal].amount <= s.calls[i].phase.held
  }

  lemma DepositOfBalance(s: World, i: nat, fails: bool)
    requires i < |s.calls| && s.calls[i].job.Deposit?
    ensures var after := Move(s, i, fails);
            if WritesDeposit(s, i, fails) then
              after.balance == s.calls[i].phase.seen + s.calls[i].job.amount
              && after.moves == s.moves + [s.calls[i].job.amount]
            else after.balance == s.balance && after.moves == s.moves
  {
  }

  lemma ApprovalOfBalance(s: World, i: nat, fails: bool)
    requires i < |s.calls| && s.calls[i].job.Approval?
    requires s.calls[i].phase.HasRow? ==> s.calls[i].phase.held == s.balance
    ensures var after := Move(s, i, fails);
            if WritesDebit(s, i, fails) then
              var amount := s.withdrawals[s.calls[i].job.withdrawal].amount;
              after.balance == s.balance - amount && after.moves == s.moves + [-amount]
            else after.balance == s.balance && after.moves == s.moves
  {
  }

  /** What a move does to the balance and to the sum of the stored moves. */
  lemma MoveOfBalance(s0: World, s: World, i: nat, fails: bool)
    requires AllHold(s0, s)
    ensures var after := Move(s, i, fails);
            if WritesDeposit(s, i, fails) then
              after.balance == s.calls[i].phase.seen + s.calls[i].job.amount
              && Sum(after.moves) == Sum(s.moves) + s.calls[i].job.amount
            else if WritesDebit(s, i, fails) then
              var amount := s.withdrawals[s.calls[i].job.withdrawal].amount;
              after.balance == s.balance - amount && Sum(after.moves) == Sum(s.moves) - amount
            else after.balance == s.balance && after.moves == s.moves
  {
    if i < |s.calls| {
      assert Holds(s0, s, i);
      if s.calls[i].job.Deposit? {
        DepositOfBalance(s, i, fails);
        SumAppend(s.moves, s.calls[i].job.amount);
      } else {
        ApprovalOfBalance(s, i, fails);
        if WritesDebit(s, i, fails) {
          SumAppend(s.moves, -s.withdrawals[s.calls[i].job.withdrawal].amount);
        }
      }
    }
  }

  /** A balance in memory is one that was there before, or the stored one just read. */
  lemma MoveOfReads(s: World, i: nat, fails: bool, j: nat)
    requires j < |s.calls| && j < |Move(s, i, fails).calls| && Move(s, i, fails).calls[j].phase.HasRead?
    ensures var after := Move(s, i, fails);
            || (s.calls[j].phase == after.calls[j].phase && !(i == j && WritesDeposit(s, i, fails)))
            || (i == j && after.calls[j].phase.seen == s.balance == after.balance && after.moves == s.moves)
  {
    if i < |s.calls| && i != j {
      MoveOfOneCall(s, i, fails);
    }
  }

  // ---------- exactly when the balance can become too low ----------

  predicate IsDeposit(s: World, j: nat) {
    j < |s.calls| && s.calls[j].job.Deposit?
  }

  /** Two deposits, and one of them has something to lose. */
  ghost predicate Rivals(s: World) {
    exists i: nat, j: nat :: i != j && IsDeposit(s, i) && IsDeposit(s, j) && s.calls[i].job.amount > 0
  }

  /** Neither the stored balance nor one in memory is below b plus the stored moves. */
  predicate AtLeast(s: World, b: int) {
    && s.balance >= b + Sum(s.moves)
    && forall i :: 0 <= i < |s.calls| && s.calls[i].phase.HasRead? ==> s.calls[i].phase.seen >= b + Sum(s.moves)
  }

  /** While a deposit writes, no other has read unless there is nothing to lose. */
  lemma OnlyReader(s0: World, s: World, i: nat, j: nat)
    requires Sensible(s0) && AllHold(s0, s) && (s0.locking || !Rivals(s0)) && i != j
    requires i < |s.calls| && s.calls[i].phase.HasRead? && j < |s.calls| && s.calls[j].phase.HasRead?
    ensures s.calls[i].job.Deposit? && s.calls[i].job.amount == 0
  {
    assert Holds(s0, s, i) && Holds(s0, s, j);
    assert s.calls[i].job == s0.calls[i].job && s.calls[j].job == s0.calls[j].job;
    assert IsDeposit(s0, i) && IsDeposit(s0, j);
  }

  lemma MoveKeepsAtLeast(s0: World, s: World, i: nat, fails: bool, b: int)
    requires Sensible(s0) && AllHold(s0, s) && (s0.locking || !Rivals(s0)) && AtLeast(s, b)
    ensures AtLeast(Move(s, i, fails), b)
  {
    var after := Move(s, i, fails);
    MoveOfBalance(s0, s, i, fails);
    MoveKeepsRecords(s0, s, i, fails);
    if WritesDebit(s, i, fails) {
      DebitsAreNotNegative(s0, s, i, fails);
    }
    forall j | 0 <= j < |s.calls| && after.calls[j].phase.HasRead?
      ensures after.calls[j].phase.seen >= b + Sum(after.moves)
    {
      MoveOfReads(s, i, fails, j);
      if i != j && WritesDeposit(s, i, fails) {
        OnlyReader(s0, s, i, j);
      }
    }
  }

  lemma DebitsAreNotNegative(s0: World, s: World, i: nat, fails: bool)
    requires Sensible(s0) && RecordsSince(s0, s) && WritesDebit(s, i, fails)
    ensures s.withdrawals[s.calls[i].job.withdrawal].amount >= 0
  {
  }

  /** With a lock manager, or without rivals, no schedule takes the balance below what the stored moves add up to. */
  lemma {:induction false} NeverTooLow(s0: World, s: World, turns: seq<Turn>, b: int)
    requires Sensible(s0) && AllHold(s0, s) && (s0.locking || !Rivals(s0)) && AtLeast(s, b)
    ensures AtLeast(Schedule(s, turns), b)
    decreases |turns|
  {
    if turns != [] {
      var i, fails := turns[0].call, turns[0].fails;
      MoveKeepsAtLeast(s0, s, i, fails, b);
      MoveKeepsAllHold(s0, s, i, fails);
      NeverTooLow(s0, Move(s, i, fails), turns[1..], b);
    }
  }

  /** Both deposits read, the one with something to lose writes, the other writes over it. */
  lemma DepositIsLost(s: World, i: nat, j: nat) returns (turns: seq<Turn>)
    requires Fresh(s) && !s.locking && i != j && IsDeposit(s, i) && IsDeposit(s, j)
    ensures Schedule(s, turns).balance == s.balance + Sum(Schedule(s, turns).moves) - s.calls[i].job.amount
  {
    var first := DepositReads(s, i);
    var a := Schedule(s, first);
    var second := DepositReads(a, j);
    var b := Schedule(a, second);
    var writes := [Turn(i, false)] + [Turn(j, false)];
    turns := first + (second + writes);
    ScheduleThen(s, first, second + writes);
    ScheduleThen(a, second, writes);
    ScheduleThen(b, [Turn(i, false)], [Turn(j, false)]);
    OneTurn(b, i);
    OneTurn(Move(b, i, false), j);
    SumAppend(s.moves, s.calls[i].job.amount);
    SumAppend(Move(b, i, false).moves, s.calls[j].job.amount);
  }

  lemma DepositReads(s: World, j: nat) returns (turns: seq<Turn>)
    requires IsDeposit(s, j) && s.calls[j].phase == Arrived && s.mutex.None?
    ensures Schedule(s, turns) ==
            SetPhase(s, j, HasRead(s.balance)).(mutex := if s.locking then Some(j) else None)
  {
    var t := [Turn(j, false)];
    turns := t + t;
    ScheduleThen(s, t, t);
    OneTurn(s, j);
    OneTurn(Move(s, j, false), j);
  }

  ghost predicate CanLoseDeposit(s: World) {
    exists turns :: Schedule(s, turns).balance < s.balance + Sum(Schedule(s, turns).moves)
  }

  /**
   The balance can fall below what the stored moves add up to exactly when there is no lock manager and
   one of two deposits has something to lose.
   */
  lemma LostDepositIff(s: World)
    requires Fresh(s) && Sensible(s)
    ensures CanLoseDeposit(s) <==> !s.locking && Rivals(s)
  {
    if turns :| Schedule(s, turns).balance < s.balance + Sum(Schedule(s, turns).moves) {
      FreshHolds(s);
      if s.locking || !Rivals(s) {
        NeverTooLow(s, s, turns, s.balance);
      }
    }
    if !s.locking && Rivals(s) {
      var i: nat, j: nat :| i != j && IsDeposit(s, i) && IsDeposit(s, j) && s.calls[i].job.amount > 0;
      var turns := DepositIsLost(s, i, j);
      assert Schedule(s, turns).balance < s.balance + Sum(Schedule(s, turns).moves);
    }
  }

  // ---------- exactly when a debit can be lost ----------

  /** Call i approves an open withdrawal of a positive amount that the balance can come to cover without deposit j. */
  predicate CanPayBeside(s: World, i: nat, j: nat) {
    && IsDeposit(s, j) && i < |s.calls| && s.calls[i].job.Approval?
    && var k := s.calls[i].job.withdrawal;
       && k < |s.withdrawals| && s.withdrawals[k].open
       && 0 < s.withdrawals[k].amount <= s.balance + Deposits(s.calls, |s.calls|) - Gain(s.calls[j].job)
  }

  ghost predicate Risky(s: World) {
    exists i, j :: CanPayBeside(s, i, j)
  }

  /** Neither the stored balance nor one in memory is above b plus the stored moves. */
  predicate AtMost(s: World, b: int) {
    && s.balance <= b + Sum(s.moves)
    && forall i :: 0 <= i < |s.calls| && s.calls[i].phase.HasRead? ==> s.calls[i].phase.seen <= b + Sum(s.moves)
  }

  /** An approval that debits while a deposit is still to be written is a risk from the start. */
  lemma DebitIsRisky(s0: World, s: World, i: nat, fails: bool, j: nat)
    requires Sensible(s0) && AllHold(s0, s) && Bounded(s0, s) && WritesDebit(s, i, fails)
    requires s.withdrawals[s.calls[i].job.withdrawal].amount > 0
    requires IsDeposit(s, j) && s.calls[j].phase != Stored
    ensures CanPayBeside(s0, i, j)
  {
    assert Holds(s0, s, i) && Holds(s0, s, j);
    StoredBound(s0, s, |s.calls|, j);
    assert s.calls[i].job == s0.calls[i].job && s.calls[j].job == s0.calls[j].job;
  }

  lemma MoveKeepsAtMost(s0: World, s: World, i: nat, fails: bool, b: int)
    requires Sensible(s0) && AllHold(s0, s) && Bounded(s0, s) && !Risky(s0) && AtMost(s, b)
    ensures AtMost(Move(s, i, fails), b)
  {
    var after := Move(s, i, fails);
    MoveOfBalance(s0, s, i, fails);
    MoveKeepsRecords(s0, s, i, fails);
    if WritesDeposit(s, i, fails) {
      assert s.calls[i].job == s0.calls[i].job;
    }
    forall j | 0 <= j < |s.calls| && after.calls[j].phase.HasRead?
      ensures after.calls[j].phase.seen <= b + Sum(after.moves)
    {
      MoveOfReads(s, i, fails, j);
      if WritesDebit(s, i, fails) {
        DebitsAreNotNegative(s0, s, i, fails);
        assert Holds(s0, s, j);
        if s.withdrawals[s.calls[i].job.withdrawal].amount > 0 {
          DebitIsRisky(s0, s, i, fails, j);
        }
      }
    }
  }

  lemma {:induction false} NeverTooHigh(s0: World, s: World, turns: seq<Turn>, b: int)
    requires Sensible(s0) && AllHold(s0, s) && Bounded(s0, s) && !Risky(s0) && AtMost(s, b)
    ensures AtMost(Schedule(s, turns), b)
    decreases |turns|
  {
    if turns != [] {
      var i, fails := turns[0].call, turns[0].fails;
      MoveKeepsAtMost(s0, s, i, fails, b);
      MoveKeepsAllHold(s0, s, i, fails);
      MoveKeepsBounded(s0, s, i, fails);
      NeverTooHigh(s0, Move(s, i, fails), turns[1..], b);
    }
  }

  lemma {:induction false} NothingStored(calls: seq<Call>, k: nat)
    requires k <= |calls| && forall i :: 0 <= i < |calls| ==> calls[i].phase == Arrived
    ensures StoredDeposits(calls, k) == 0
  {
    if k > 0 {
      NothingStored(calls, k - 1);
    }
  }

  lemma FreshHolds(s: World)
    requires Fresh(s)
    ensures AllHold(s, s) && Bounded(s, s) && AtLeast(s, s.balance) && AtMost(s, s.balance)
  {
    NothingStored(s.calls, |s.calls|);
  }

  /** Nothing but balance and moves has changed since the start, and nothing of the calls from k on. */
  predicate Untouched(s0: World, s: World, k: nat) {
    && s.mutex.None? && s.row.None? && s.withdrawals == s0.withdrawals && |s.calls| == |s0.calls|
    && s.locking == s0.locking && forall i :: k <= i < |s0.calls| ==> s.calls[i] == s0.calls[i]
  }

  lemma WholeDeposit(s: World, i: nat) returns (turns: seq<Turn>)
    requires IsDeposit(s, i) && s.calls[i].phase == Arrived && s.mutex.None? && s.row.None?
    ensures Schedule(s, turns) == SetPhase(s, i, Stored).(
              balance := s.balance + s.calls[i].job.amount, moves := s.moves + [s.calls[i].job.amount])
  {
    var t := [Turn(i, false)];
    turns := t + (t + t);
    ScheduleThen(s, t, t + t);
    OneTurn(s, i);
    var a := Move(s, i, false);
    ScheduleThen(a, t, t);
    OneTurn(a, i);
    OneTurn(Move(a, i, false), i);
  }

  /** All deposits of the first k calls but j, one after the other. */
  lemma {:induction false} DepositAllBut(s: World, k: nat, j: nat) returns (turns: seq<Turn>)
    requires Fresh(s) && k <= |s.calls| && IsDeposit(s, j)
    ensures var after := Schedule(s, turns);
            && Untouched(s, after, k) && after.calls[j] == s.calls[j]
            && (forall i :: 0 <= i < k && !IsDeposit(s, i) ==> after.calls[i] == s.calls[i])
            && after.balance == s.balance + Deposits(s.calls, k) - (if j < k then Gain(s.calls[j].job) else 0)
            && after.balance - Sum(after.moves) == s.balance
    decreases k
  {
    if k == 0 {
      turns := [];
    } else {
      var before := DepositAllBut(s, k - 1, j);
      var b := Schedule(s, before);
      if k - 1 == j || !IsDeposit(s, k - 1) {
        turns := before;
      } else {
        var last := WholeDeposit(b, k - 1);
        turns := before + last;
        ScheduleThen(s, before, last);
        SumAppend(b.moves, b.calls[k - 1].job.amount);
      }
    }
  }

  predicate Approves(s: World, i: nat, k: nat) {
    i < |s.calls| && s.calls[i].job == Approval(k) && k < |s.withdrawals| && s.withdrawals[k].open
  }

  lemma ApprovalLocks(s: World, i: nat, k: nat) returns (turns: seq<Turn>)
    requires Approves(s, i, k) && s.calls[i].phase == Arrived && s.row.None?
    ensures Schedule(s, turns) == SetPhase(s, i, HasRow(s.balance)).(row := Some(i), payouts := s.payouts + [k])
  {
    var t := [Turn(i, false)];
    turns := t + (t + t);
    ScheduleThen(s, t, t + t);
    OneTurn(s, i);
    var a := Move(s, i, false);
    ScheduleThen(a, t, t);
    OneTurn(a, i);
    OneTurn(Move(a, i, false), i);
  }

  lemma ApprovalTakes(s: World, i: nat, k: nat) returns (turns: seq<Turn>)
    requires Approves(s, i, k) && s.calls[i].phase == Arrived && s.row.None? && s.withdrawals[k].amount <= s.balance
    ensures var amount := s.withdrawals[k].amount;
            Schedule(s, turns) == Close(SetPhase(s, i, Stored), k).(
              balance := s.balance - amount, moves := s.moves + [-amount], payouts := s.payouts + [k])
  {
    var before := ApprovalLocks(s, i, k);
    turns := before + [Turn(i, false)];
    ScheduleThen(s, before, [Turn(i, false)]);
    OneTurn(Schedule(s, before), i);
  }

  /** The deposit reads, the approval takes its money, the deposit writes over it. */
  lemma DebitIsLost(s: World, i: nat, j: nat, k: nat) returns (turns: seq<Turn>)
    requires IsDeposit(s, j) && s.calls[j].phase == Arrived && s.mutex.None? && s.row.None?
    requires Approves(s, i, k) && s.calls[i].phase == Arrived && s.withdrawals[k].amount <= s.balance
    ensures var after := Schedule(s, turns);
            after.balance - Sum(after.moves) == s.balance - Sum(s.moves) + s.withdrawals[k].amount
  {
    var read := DepositReads(s, j);
    var a := Schedule(s, read);
    var take := ApprovalTakes(a, i, k);
    var b := Schedule(a, take);
    turns := read + (take + [Turn(j, false)]);
    ScheduleThen(s, read, take + [Turn(j, false)]);
    ScheduleThen(a, take, [Turn(j, false)]);
    OneTurn(b, j);
    SumAppend(s.moves, -s.withdrawals[k].amount);
    SumAppend(b.moves, s.calls[j].job.amount);
  }

  ghost predicate CanLoseDebit(s: World) {
    exists turns :: Schedule(s, turns).balance > s.balance + Sum(Schedule(s, turns).moves)
  }

  /**
   The balance can rise above what the stored moves add up to exactly when some approval of a positive
   amount can be covered while one of the deposits is still to be written, with a lock manager or
   without: row lock and lock manager do not know of each other.
   */
  lemma LostDebitIff(s: World)
    requires Fresh(s) && Sensible(s)
    ensures CanLoseDebit(s) <==> Risky(s)
  {
    if turns :| Schedule(s, turns).balance > s.balance + Sum(Schedule(s, turns).moves) {
      FreshHolds(s);
      if !Risky(s) {
        NeverTooHigh(s, s, turns, s.balance);
      }
    }
    if i: nat, j: nat :| CanPayBeside(s, i, j) {
      var before := DepositAllBut(s, |s.calls|, j);
      var b := Schedule(s, before);
      var after := DebitIsLost(b, i, j, s.calls[i].job.withdrawal);
      ScheduleThen(s, before, after);
      assert Schedule(s, before + after).balance > s.balance + Sum(Schedule(s, before + after).moves);
    }
  }

  // ---------- payouts ----------

  function PayoutsOf(payouts: seq<nat>, k: nat): nat {
    if payouts == [] then 0
    else PayoutsOf(payouts[..|payouts| - 1], k) + if payouts[|payouts| - 1] == k then 1 else 0
  }

  lemma OneMorePayout(payouts: seq<nat>, p: nat, k: nat)
    ensures PayoutsOf(payouts + [p], k) == PayoutsOf(payouts, k) + if p == k then 1 else 0
  {
    assert (payouts + [p])[..|payouts|] == payouts;
  }

  /** How many of the first n calls approve the withdrawal, and how many of those are past their payout. */
  function Approvals(s: World, n: nat, k: nat): nat
    requires n <= |s.calls|
  {
    if n == 0 then 0 else Approvals(s, n - 1, k) + if Approves(s, n - 1, k) then 1 else 0
  }

  predicate PastPayout(phase: Phase) {
    phase == Paid || phase.HasRow? || phase == Stored || phase == GaveUp
  }

  function PaidBy(s0: World, s: World, n: nat, k: nat): (r: nat)
    requires n <= |s0.calls| && n <= |s.calls|
    ensures r <= Approvals(s0, n, k)
  {
    if n == 0 then 0
    else PaidBy(s0, s, n - 1, k) + if Approves(s0, n - 1, k) && PastPayout(s.calls[n - 1].phase) then 1 else 0
  }

  lemma {:induction false} MovePays(s0: World, s: World, i: nat, fails: bool, n: nat, k: nat)
    requires |s.calls| == |s0.calls| && i < |s.calls| && n <= |s.calls|
    ensures |Move(s, i, fails).calls| == |s.calls|
    ensures PaidBy(s0, Move(s, i, fails), n, k) == PaidBy(s0, s, n, k)
              + if i < n && Approves(s0, i, k) && !PastPayout(s.calls[i].phase)
                && PastPayout(Move(s, i, fails).calls[i].phase) then 1 else 0
  {
    MoveOfOneCall(s, i, fails);
    if n > 0 {
      MovePays(s0, s, i, fails, n - 1, k);
    }
  }

  /** The move pays out withdrawal k. */
  predicate PaysOut(s: World, i: nat, fails: bool, k: nat) {
    i < |s.calls| && s.calls[i].job == Approval(k) && k < |s.withdrawals| && s.calls[i].phase == Chosen && !fails
  }

  lemma PayoutsGrow(s: World, i: nat, fails: bool)
    ensures Move(s, i, fails).payouts ==
            if i < |s.calls| && s.calls[i].job.Approval? && PaysOut(s, i, fails, s.calls[i].job.withdrawal)
            then s.payouts + [s.calls[i].job.withdrawal] else s.payouts
  {
  }

  lemma MoveOfPayouts(s: World, i: nat, fails: bool, k: nat)
    ensures PayoutsOf(Move(s, i, fails).payouts, k) ==
            PayoutsOf(s.payouts, k) + if PaysOut(s, i, fails, k) then 1 else 0
  {
    PayoutsGrow(s, i, fails);
    if i < |s.calls| && s.calls[i].job.Approval? {
      OneMorePayout(s.payouts, s.calls[i].job.withdrawal, k);
    }
  }

  lemma PayerIsPast(s0: World, s: World, i: nat, fails: bool, k: nat)
    requires AllHold(s0, s) && PaysOut(s, i, fails, k)
    ensures Approves(s0, i, k) && !PastPayout(s.calls[i].phase)
    ensures |Move(s, i, fails).calls| == |s.calls| && Move(s, i, fails).calls[i].phase == Paid
  {
    assert Holds(s0, s, i);
  }

  lemma PayoutIsPaid(s0: World, s: World, i: nat, fails: bool, k: nat)
    requires AllHold(s0, s) && PayoutsOf(s.payouts, k) <= PaidBy(s0, s, |s.calls|, k)
    ensures var after := Move(s, i, fails);
            |after.calls| == |s0.calls| && PayoutsOf(after.payouts, k) <= PaidBy(s0, after, |s.calls|, k)
  {
    if i < |s.calls| {
      MoveOfPayouts(s, i, fails, k);
      MovePays(s0, s, i, fails, |s.calls|, k);
      if PaysOut(s, i, fails, k) {
        PayerIsPast(s0, s, i, fails, k);
      }
    }
  }

  lemma {:induction false} PayoutsArePaid(s0: World, s: World, turns: seq<Turn>, k: nat)
    requires AllHold(s0, s) && PayoutsOf(s.payouts, k) <= PaidBy(s0, s, |s.calls|, k)
    ensures PayoutsOf(Schedule(s, turns).payouts, k) <= Approvals(s0, |s0.calls|, k)
    decreases |turns|
  {
    if turns != [] {
      PayoutIsPaid(s0, s, turns[0].call, turns[0].fails, k);
      MoveKeepsAllHold(s0, s, turns[0].call, turns[0].fails);
      PayoutsArePaid(s0, Move(s, turns[0].call, turns[0].fails), turns[1..], k);
    }
  }

  /** An approval that is rolled back after its payout leaves the withdrawal open for the next. */
  lemma {:induction false} RepeatedPayouts(s: World, n: nat, count: nat, k: nat) returns (turns: seq<Turn>)
    requires Fresh(s) && n <= |s.calls| && count <= Approvals(s, n, k)
    ensures Untouched(s, Schedule(s, turns), n) && PayoutsOf(Schedule(s, turns).payouts, k) == count
    decreases n
  {
    if n == 0 {
      turns := [];
    } else if Approves(s, n - 1, k) && count == Approvals(s, n, k) {
      var before := RepeatedPayouts(s, n - 1, count - 1, k);
      var b := Schedule(s, before);
      var last := PaidAndRolledBack(b, n - 1, k);
      turns := before + last;
      ScheduleThen(s, before, last);
      OneMorePayout(b.payouts, k, k);
    } else {
      turns := RepeatedPayouts(s, n - 1, count, k);
    }
  }

  lemma PaidAndRolledBack(s: World, i: nat, k: nat) returns (turns: seq<Turn>)
    requires Approves(s, i, k) && s.calls[i].phase == Arrived
    ensures Schedule(s, turns) == SetPhase(s, i, GaveUp).(payouts := s.payouts + [k])
  {
    var t, f := [Turn(i, false)], [Turn(i, true)];
    turns := t + (t + f);
    ScheduleThen(s, t, t + f);
    OneTurn(s, i);
    var a := Move(s, i, false);
    ScheduleThen(a, t, f);
    OneTurn(a, i);
    assert f[1..] == [];
  }

  ghost predicate CanPayOut(s: World, k: nat, count: nat) {
    exists turns :: PayoutsOf(Schedule(s, turns).payouts, k) == count
  }

  /**
   Exactly how often interleaved approvals can pay out one withdrawal: any number of times up to the
   number of calls that approve it while it awaits approval, since a payout is not undone by a rollback.
   */
  lemma PayoutCounts(s: World, k: nat, count: nat)
    requires Fresh(s)
    ensures CanPayOut(s, k, count) <==> count <= Approvals(s, |s.calls|, k)
  {
    FreshHolds(s);
    if turns :| PayoutsOf(Schedule(s, turns).payouts, k) == count {
      PayoutsArePaid(s, s, turns, k);
    }
    if count <= Approvals(s, |s.calls|, k) {
      var turns := RepeatedPayouts(s, |s.calls|, count, k);
    }
  }

  // ---------- payouts without any failure ----------

  predicate NoFailures(turns: seq<Turn>) {
    forall i :: 0 <= i < |turns| ==> !turns[i].fails
  }

  lemma {:induction false} ApprovalsStay(s: World, after: World, n: nat, k: nat)
    requires n <= |s.calls| == |after.calls| && after.withdrawals == s.withdrawals
    requires forall i :: 0 <= i < n ==> after.calls[i].job == s.calls[i].job
    ensures Approvals(after, n, k) == Approvals(s, n, k)
  {
    if n > 0 {
      ApprovalsStay(s, after, n - 1, k);
    }
  }

  /** The last of the calls looks at the status before the others do anything, and pays out after them. */
  lemma {:induction false} PaidTogether(s: World, n: nat, count: nat, k: nat) returns (turns: seq<Turn>)
    requires n <= |s.calls| && (forall i :: 0 <= i < n ==> s.calls[i].phase == Arrived)
    requires count <= Approvals(s, n, k)
    ensures var after := Schedule(s, turns);
            && NoFailures(turns) && after.withdrawals == s.withdrawals
            && |after.calls| == |s.calls| && after.calls[n..] == s.calls[n..]
            && PayoutsOf(after.payouts, k) == PayoutsOf(s.payouts, k) + count
    decreases n
  {
    if n == 0 {
      turns := [];
    } else if Approves(s, n - 1, k) && count == Approvals(s, n, k) {
      var one := [Turn(n - 1, false)];
      var chosen := SetPhase(s, n - 1, Chosen);
      OneTurn(s, n - 1);
      ApprovalsStay(s, chosen, n - 1, k);
      var others := PaidTogether(chosen, n - 1, count - 1, k);
      var b := Schedule(chosen, others);
      turns := one + (others + one);
      ScheduleThen(s, one, others + one);
      ScheduleThen(chosen, others, one);
      OneTurn(b, n - 1);
      assert b.calls[n - 1] == b.calls[n - 1..][0] == chosen.calls[n - 1..][0] == chosen.calls[n - 1];
      LastPays(s, chosen, b, n - 1, k);
    } else {
      turns := PaidTogether(s, n - 1, count, k);
      var after := Schedule(s, turns);
      assert after.calls[n..] == after.calls[n - 1..][1..];
    }
  }

  lemma LastPays(s: World, chosen: World, b: World, i: nat, k: nat)
    requires Approves(s, i, k) && chosen == SetPhase(s, i, Chosen) && b.withdrawals == s.withdrawals
    requires |b.calls| == |s.calls| && b.calls[i..] == chosen.calls[i..] && b.calls[i] == chosen.calls[i]
    ensures var after := Move(b, i, false);
            && after.withdrawals == s.withdrawals && |after.calls| == |s.calls|
            && after.calls[i + 1..] == s.calls[i + 1..]
            && PayoutsOf(after.payouts, k) == PayoutsOf(b.payouts, k) + 1
  {
    OneMorePayout(b.payouts, k, k);
    assert b.calls[i + 1..] == b.calls[i..][1..] == chosen.calls[i..][1..] == s.calls[i + 1..];
  }

  ghost predicate CanPayOutCleanly(s: World, k: nat, count: nat) {
    exists turns :: NoFailures(turns) && PayoutsOf(Schedule(s, turns).payouts, k) == count
  }

  /** The same number is possible when nothing ever fails: the status is read without a lock. */
  lemma PayoutCountsWithoutFailure(s: World, k: nat, count: nat)
    requires Fresh(s)
    ensures CanPayOutCleanly(s, k, count) <==> count <= Approvals(s, |s.calls|, k)
  {
    if turns :| NoFailures(turns) && PayoutsOf(Schedule(s, turns).payouts, k) == count {
      assert CanPayOut(s, k, count);
      PayoutCounts(s, k, count);
    }
    if count <= Approvals(s, |s.calls|, k) {
      var turns := PaidTogether(s, |s.calls|, count, k);
    }
  }
}
