/** What interleaved deposit webhooks can do wrong, and exactly when. */
module DepositRaces {
  import opened Common
  import opened Ledger
  import opened DepositLock

  // ---------- what no move changes, and what a call has passed ----------

  /** Between the writing of its credit and the release a call is done with the wallet. */
  predicate Wrote(phase: Phase) {
    phase == HasWritten || phase == Leaving || phase == Finished
  }

  /** The books keep their transactions but for the statuses, their wallets, and what is settled. */
  ghost predicate BooksSince(s0: World, s: World) {
    && |s.books.txs| == |s0.books.txs|
    && s.books.wallets.Keys == s0.books.wallets.Keys
    && s.locking == s0.locking
    && forall k :: 0 <= k < |s0.books.txs| ==>
         && s.books.txs[k].amount == s0.books.txs[k].amount && s.books.txs[k].wallet == s0.books.txs[k].wallet
         && (IsSettled(s0, k) ==> IsSettled(s, k))
  }

  /** A call on its way to the credit has met its transaction unsettled and found it in order. */
  predicate CallSince(s0: World, s: World, i: nat)
    requires i < |s0.calls| && i < |s.calls|
  {
    var (c, tx) := (s.calls[i], s0.calls[i].webhook.tx);
    && c.webhook == s0.calls[i].webhook
    && (c.phase == Checked || c.phase == Inside || c.phase.HasRead? || c.phase == HasWritten ==>
          && tx < |s0.books.txs| && !IsSettled(s0, tx) && c.wallet == s0.books.txs[tx].wallet
          && s0.books.txs[tx].amount == c.webhook.amount && c.webhook.gateway != OtherStatus)
    && (c.phase.HasRead? || c.phase == HasWritten ==> c.wallet in s0.books.wallets)
  }

  ghost predicate Since(s0: World, s: World) {
    && BooksSince(s0, s)
    && |s.calls| == |s0.calls|
    && forall i :: 0 <= i < |s0.calls| ==> CallSince(s0, s, i)
  }

  /** A move only touches its own call, and never takes a call back across its write. */
  lemma MoveOfOneCall(s: World, i: nat, fails: bool)
    requires i < |s.calls|
    ensures var after := Move(s, i, fails);
            && |after.calls| == |s.calls| && after.calls == s.calls[i := after.calls[i]]
            && after.calls[i].webhook == s.calls[i].webhook
            && (Wrote(s.calls[i].phase) ==> Wrote(after.calls[i].phase))
  {
  }

  lemma MoveKeepsBooks(s0: World, s: World, i: nat, fails: bool)
    requires BooksSince(s0, s) && |s.calls| == |s0.calls|
    requires i < |s0.calls| ==> CallSince(s0, s, i)
    ensures BooksSince(s0, Move(s, i, fails)) && |Move(s, i, fails).calls| == |s0.calls|
  {
  }

  lemma OwnMoveKeepsCall(s0: World, s: World, i: nat, fails: bool)
    requires BooksSince(s0, s) && |s.calls| == |s0.calls| && i < |s0.calls| && CallSince(s0, s, i)
    ensures |Move(s, i, fails).calls| == |s0.calls| && CallSince(s0, Move(s, i, fails), i)
  {
    var tx := s.calls[i].webhook.tx;
    if tx < |s0.books.txs| {
      assert s.books.txs[tx].amount == s0.books.txs[tx].amount;
    }
  }

  lemma MoveKeepsCall(s0: World, s: World, i: nat, fails: bool, j: nat)
    requires BooksSince(s0, s) && |s.calls| == |s0.calls| && j < |s0.calls| && CallSince(s0, s, j)
    ensures |Move(s, i, fails).calls| == |s0.calls| && CallSince(s0, Move(s, i, fails), j)
  {
    if i == j {
      OwnMoveKeepsCall(s0, s, i, fails);
    } else if i < |s.calls| {
      MoveOfOneCall(s, i, fails);
    }
  }

  lemma MoveKeepsSince(s0: World, s: World, i: nat, fails: bool)
    requires Since(s0, s)
    ensures Since(s0, Move(s, i, fails))
  {
    MoveKeepsBooks(s0, s, i, fails);
    forall j | 0 <= j < |s0.calls|
      ensures CallSince(s0, Move(s, i, fails), j)
    {
      MoveKeepsCall(s0, s, i, fails, j);
    }
  }

  function Written(s: World, i: nat): Credit
    requires i < |s.calls|
  {
    Credit(s.calls[i].webhook.tx, s.calls[i].wallet, s.calls[i].webhook.amount)
  }

  lemma MoveWrites(s: World, i: nat, fails: bool)
    ensures Move(s, i, fails).credits ==
            if i < |s.calls| && s.calls[i].phase.HasRead? && !fails then s.credits + [Written(s, i)] else s.credits
  {
  }

  // ---------- how often a transaction is credited ----------

  function CreditsFor(credits: seq<Credit>, tx: nat): nat {
    if credits == [] then 0
    else CreditsFor(credits[..|credits| - 1], tx) + if credits[|credits| - 1].tx == tx then 1 else 0
  }

  lemma OneMoreCredit(credits: seq<Credit>, c: Credit, tx: nat)
    ensures CreditsFor(credits + [c], tx) == CreditsFor(credits, tx) + if c.tx == tx then 1 else 0
  {
    assert (credits + [c])[..|credits|] == credits;
  }

  predicate Pays(s: World, i: nat, tx: nat) {
    Accepted(s, i) && s.calls[i].webhook.tx == tx
  }

  /** How many of the first k calls pass all checks against the transaction as it is at the start. */
  function Payable(s: World, k: nat, tx: nat): nat
    requires k <= |s.calls|
  {
    if k == 0 then 0 else Payable(s, k - 1, tx) + if Pays(s, k - 1, tx) then 1 else 0
  }

  /** How many of those are past their write. */
  function Spent(s0: World, s: World, k: nat, tx: nat): (n: nat)
    requires k <= |s0.calls| && k <= |s.calls|
    ensures n <= Payable(s0, k, tx)
  {
    if k == 0 then 0
    else Spent(s0, s, k - 1, tx) + if Pays(s0, k - 1, tx) && Wrote(s.calls[k - 1].phase) then 1 else 0
  }

  lemma {:induction false} MoveSpends(s0: World, s: World, i: nat, fails: bool, k: nat, tx: nat)
    requires |s.calls| == |s0.calls| && i < |s.calls| && k <= |s.calls|
    ensures |Move(s, i, fails).calls| == |s.calls|
    ensures Spent(s0, Move(s, i, fails), k, tx) == Spent(s0, s, k, tx)
              + if i < k && Pays(s0, i, tx) && !Wrote(s.calls[i].phase)
                && Wrote(Move(s, i, fails).calls[i].phase) then 1 else 0
  {
    MoveOfOneCall(s, i, fails);
    if k > 0 {
      MoveSpends(s0, s, i, fails, k - 1, tx);
    }
  }

  lemma WriterIsAccepted(s0: World, s: World, i: nat)
    requires Since(s0, s) && i < |s.calls| && s.calls[i].phase.HasRead?
    ensures Pays(s0, i, s.calls[i].webhook.tx)
  {
    assert CallSince(s0, s, i);
  }

  lemma CreditIsSpent(s0: World, s: World, i: nat, fails: bool, tx: nat)
    requires Since(s0, s) && CreditsFor(s.credits, tx) <= Spent(s0, s, |s.calls|, tx)
    ensures var after := Move(s, i, fails);
            |after.calls| == |s0.calls| && CreditsFor(after.credits, tx) <= Spent(s0, after, |s.calls|, tx)
  {
    MoveWrites(s, i, fails);
    if i < |s.calls| {
      MoveSpends(s0, s, i, fails, |s.calls|, tx);
      if s.calls[i].phase.HasRead? && !fails {
        WriterIsAccepted(s0, s, i);
        OneMoreCredit(s.credits, Written(s, i), tx);
        assert Move(s, i, fails).calls[i].phase == HasWritten;
      }
    }
  }

  lemma {:induction false} CreditsAreSpent(s0: World, s: World, turns: seq<Turn>, tx: nat)
    requires Since(s0, s) && CreditsFor(s.credits, tx) <= Spent(s0, s, |s.calls|, tx)
    ensures CreditsFor(Schedule(s, turns).credits, tx) <= Payable(s0, |s0.calls|, tx)
    decreases |turns|
  {
    if turns != [] {
      MoveKeepsSince(s0, s, turns[0].call, turns[0].fails);
      CreditIsSpent(s0, s, turns[0].call, turns[0].fails, tx);
      CreditsAreSpent(s0, Move(s, turns[0].call, turns[0].fails), turns[1..], tx);
    }
  }

  /**
   A transaction is never credited more often than accepted webhooks name it, under any schedule and
   with any failures.
   */
  lemma NoMoreCreditsThanAccepted(s: World, turns: seq<Turn>, tx: nat)
    requires Fresh(s)
    ensures CreditsFor(Schedule(s, turns).credits, tx) <= Payable(s, |s.calls|, tx)
  {
    CreditsAreSpent(s, s, turns, tx);
  }

  /** Nothing but balances and the calls before k has changed: the next call finds everything as it was. */
  ghost predicate Untouched(s0: World, s: World, k: nat) {
    && s.books.txs == s0.books.txs && s.books.wallets.Keys == s0.books.wallets.Keys
    && s.holders == map[] && s.locking == s0.locking
    && |s.calls| == |s0.calls| && forall i :: k <= i < |s0.calls| ==> s.calls[i] == s0.calls[i]
  }

  /**
   Serial retries: calls that run one after the other, each failing to store the status, credit the
   transaction once more each.
   */
  lemma {:induction false} SerialRetries(s: World, k: nat, n: nat, tx: nat) returns (turns: seq<Turn>)
    requires Fresh(s) && k <= |s.calls| && n <= Payable(s, k, tx)
    ensures Untouched(s, Schedule(s, turns), k) && CreditsFor(Schedule(s, turns).credits, tx) == n
    decreases k
  {
    if k == 0 {
      turns := [];
    } else if Pays(s, k - 1, tx) && n == Payable(s, k, tx) {
      var before := SerialRetries(s, k - 1, n - 1, tx);
      var b := Schedule(s, before);
      turns := before + Crashing(k - 1);
      ScheduleThen(s, before, Crashing(k - 1));
      CrashedCall(b, k - 1);
      var wallet := b.books.txs[tx].wallet;
      OneMoreCredit(b.credits, Credit(tx, wallet, b.calls[k - 1].webhook.amount), tx);
    } else {
      turns := SerialRetries(s, k - 1, n, tx);
    }
  }

  ghost predicate CanCredit(s: World, tx: nat, n: nat) {
    exists turns :: CreditsFor(Schedule(s, turns).credits, tx) == n
  }

  /**
   Exactly how often one transaction can be credited: every number from none to the number of calls that
   pass the checks against it, with the lock or without.
   */
  lemma CreditCounts(s: World, tx: nat, n: nat)
    requires Fresh(s)
    ensures CanCredit(s, tx, n) <==> n <= Payable(s, |s.calls|, tx)
  {
    if turns :| CreditsFor(Schedule(s, turns).credits, tx) == n {
      NoMoreCreditsThanAccepted(s, turns, tx);
    }
    if n <= Payable(s, |s.calls|, tx) {
      var turns := SerialRetries(s, |s.calls|, n, tx);
    }
  }

  ghost predicate TwoPay(s: World, tx: nat) {
    exists i, j :: i < j && Pays(s, i, tx) && Pays(s, j, tx)
  }

  lemma {:induction false} FirstPayer(s: World, k: nat, tx: nat) returns (i: nat)
    requires k <= |s.calls| && Payable(s, k, tx) >= 1
    ensures i < k && Pays(s, i, tx)
  {
    if Pays(s, k - 1, tx) {
      i := k - 1;
    } else {
      i := FirstPayer(s, k - 1, tx);
    }
  }

  lemma {:induction false} TwoPayers(s: World, k: nat, tx: nat)
    requires k <= |s.calls| && Payable(s, k, tx) >= 2
    ensures TwoPay(s, tx)
  {
    if Pays(s, k - 1, tx) {
      var i := FirstPayer(s, k - 1, tx);
      assert i < k - 1;
    } else {
      TwoPayers(s, k - 1, tx);
    }
  }

  lemma {:induction false} PayersCount(s: World, i: nat, j: nat, k: nat, tx: nat)
    requires i < j < k <= |s.calls| && Pays(s, i, tx) && Pays(s, j, tx)
    ensures Payable(s, k, tx) >= 2
    decreases k
  {
    if j < k - 1 {
      PayersCount(s, i, j, k - 1, tx);
    } else {
      OnePayer(s, i, k - 1, tx);
    }
  }

  lemma {:induction false} OnePayer(s: World, i: nat, k: nat, tx: nat)
    requires i < k <= |s.calls| && Pays(s, i, tx)
    ensures Payable(s, k, tx) >= 1
    decreases k
  {
    if i < k - 1 {
      OnePayer(s, i, k - 1, tx);
    }
  }

  ghost predicate CanCreditTwice(s: World, tx: nat) {
    exists turns :: CreditsFor(Schedule(s, turns).credits, tx) >= 2
  }

  /** A deposit can be credited twice exactly when two webhooks pass the checks against it, lock or no lock. */
  lemma DoubleCreditIff(s: World, tx: nat)
    requires Fresh(s)
    ensures CanCreditTwice(s, tx) <==> TwoPay(s, tx)
  {
    if turns :| CreditsFor(Schedule(s, turns).credits, tx) >= 2 {
      NoMoreCreditsThanAccepted(s, turns, tx);
      TwoPayers(s, |s.calls|, tx);
    }
    if i: nat, j: nat :| i < j && Pays(s, i, tx) && Pays(s, j, tx) {
      PayersCount(s, i, j, |s.calls|, tx);
      var turns := SerialRetries(s, |s.calls|, 2, tx);
    }
  }

  // ---------- the two causes of a double credit ----------

  predicate NoFailures(turns: seq<Turn>) {
    forall k :: 0 <= k < |turns| ==> !turns[k].fails
  }

  lemma {:induction false} OftenNeverFails(i: nat, n: nat)
    ensures NoFailures(Often(i, n))
  {
    if n > 0 {
      OftenNeverFails(i, n - 1);
    }
  }

  lemma CheckPasses(s: World, i: nat)
    requires Accepted(s, i) && s.calls[i].phase == Arrived
    ensures Schedule(s, Often(i, 1)) ==
            s.(calls := s.calls[i := Call(s.calls[i].webhook, s.books.txs[s.calls[i].webhook.tx].wallet, Checked)])
  {
    FewTurns(s, i);
  }

  /** What a whole critical section leaves behind. */
  ghost predicate Sectioned(s: World, after: World, i: nat)
    requires i < |s.calls|
  {
    && after.holders == s.holders && after.books.wallets.Keys == s.books.wallets.Keys
    && after.calls == s.calls[i := Call(s.calls[i].webhook, s.calls[i].wallet, Finished)]
    && after.credits == s.credits + [Written(s, i)]
  }

  lemma SectionRuns(s: World, i: nat)
    requires s.holders == map[] && i < |s.calls| && s.calls[i].phase == Checked && s.calls[i].wallet in s.books.wallets
    ensures Sectioned(s, Schedule(s, Often(i, 5)), i)
  {
    WholeSection(s, i);
    var written := AfterWrite(s, i, s.calls[i].wallet);
    assert Sectioned(s, written, i);
    assert Sectioned(s, Mark(written, s.calls[i].webhook.tx, Completed), i);
  }

  /** Both webhooks are checked before either has entered the critical section. */
  lemma CheckedTogether(s: World, i: nat, j: nat, tx: nat) returns (turns: seq<Turn>)
    requires Fresh(s) && i != j && Pays(s, i, tx) && Pays(s, j, tx)
    ensures NoFailures(turns) && CreditsFor(Schedule(s, turns).credits, tx) == 2
  {
    var checks, sections := Often(i, 1) + Often(j, 1), Often(i, 5) + Often(j, 5);
    turns := checks + sections;
    ScheduleThen(s, checks, sections);
    ScheduleThen(s, Often(i, 1), Often(j, 1));
    CheckPasses(s, i);
    var a := Schedule(s, Often(i, 1));
    CheckPasses(a, j);
    var b := Schedule(a, Often(j, 1));
    ScheduleThen(b, Often(i, 5), Often(j, 5));
    SectionRuns(b, i);
    var c := Schedule(b, Often(i, 5));
    SectionRuns(c, j);
    OneMoreCredit(b.credits, Written(b, i), tx);
    OneMoreCredit(c.credits, Written(c, j), tx);
    OftenNeverFails(i, 1);
    OftenNeverFails(j, 1);
    OftenNeverFails(i, 5);
    OftenNeverFails(j, 5);
  }

  ghost predicate CanCreditTwiceCleanly(s: World, tx: nat) {
    exists turns :: NoFailures(turns) && CreditsFor(Schedule(s, turns).credits, tx) >= 2
  }

  /** The same condition decides when nothing ever fails: then the two checks overlap. */
  lemma DoubleCreditWithoutFailureIff(s: World, tx: nat)
    requires Fresh(s)
    ensures CanCreditTwiceCleanly(s, tx) <==> TwoPay(s, tx)
  {
    if CanCreditTwiceCleanly(s, tx) {
      assert CanCreditTwice(s, tx);
      DoubleCreditIff(s, tx);
    }
    if i: nat, j: nat :| i < j && Pays(s, i, tx) && Pays(s, j, tx) {
      var turns := CheckedTogether(s, i, j, tx);
    }
  }

  /** The call has passed the checks for the transaction and may still write a credit for it. */
  predicate InFlight(s: World, i: nat, tx: nat) {
    && i < |s.calls| && s.calls[i].webhook.tx == tx
    && (s.calls[i].phase == Checked || s.calls[i].phase == Inside || s.calls[i].phase.HasRead?)
  }

  /** The credit is stored, the status is not. */
  predicate HalfDone(s: World, i: nat, tx: nat) {
    i < |s.calls| && s.calls[i].webhook.tx == tx && s.calls[i].phase == HasWritten
  }

  /** Two calls are between their check and their status update at once. */
  ghost predicate Overlap(s: World, tx: nat) {
    exists i, j :: i != j && (InFlight(s, i, tx) || HalfDone(s, i, tx)) && InFlight(s, j, tx)
  }

  /** The turn makes the status update of a credited transaction fail. */
  predicate Crashes(s: World, turn: Turn, tx: nat) {
    turn.fails && HalfDone(s, turn.call, tx)
  }

  /** A schedule in which calls for the transaction never overlap and none crashes between its two writes. */
  ghost predicate Clean(s: World, turns: seq<Turn>, tx: nat)
    decreases |turns|
  {
    && !Overlap(s, tx)
    && (turns == [] || (!Crashes(s, turns[0], tx) && Clean(Move(s, turns[0].call, turns[0].fails), turns[1..], tx)))
  }

  ghost predicate Quiet(s: World, tx: nat) {
    IsSettled(s, tx) && forall i :: !InFlight(s, i, tx)
  }

  lemma MoveKeepsQuiet(s: World, i: nat, fails: bool, tx: nat)
    requires Quiet(s, tx)
    ensures Quiet(Move(s, i, fails), tx)
    ensures CreditsFor(Move(s, i, fails).credits, tx) == CreditsFor(s.credits, tx)
  {
    MoveKeepsSettled(s, i, fails, tx);
    forall j: nat
      ensures !InFlight(Move(s, i, fails), j, tx)
    {
      NobodyTakesOff(s, i, fails, tx, j);
    }
    MoveWrites(s, i, fails);
    if i < |s.calls| {
      OneMoreCredit(s.credits, Written(s, i), tx);
      assert !InFlight(s, i, tx);
    }
  }

  lemma MoveKeepsSettled(s: World, i: nat, fails: bool, tx: nat)
    requires IsSettled(s, tx)
    ensures IsSettled(Move(s, i, fails), tx)
  {
  }

  /** A call that meets a settled transaction turns away. */
  lemma NobodyTakesOff(s: World, i: nat, fails: bool, tx: nat, j: nat)
    requires IsSettled(s, tx) && !InFlight(s, j, tx)
    ensures !InFlight(Move(s, i, fails), j, tx)
  {
    if i < |s.calls| {
      MoveOfOneCall(s, i, fails);
    }
  }

  /**
   Once a transaction is settled and no call that checked it earlier is still in flight, no schedule
   credits it again, with or without the lock.
   */
  lemma {:induction false} QuietForever(s: World, turns: seq<Turn>, tx: nat)
    requires Quiet(s, tx)
    ensures CreditsFor(Schedule(s, turns).credits, tx) == CreditsFor(s.credits, tx)
    decreases |turns|
  {
    if turns != [] {
      MoveKeepsQuiet(s, turns[0].call, turns[0].fails, tx);
      QuietForever(Move(s, turns[0].call, turns[0].fails), turns[1..], tx);
    }
  }

  /** No credit yet and none about to be recorded; or one, which is still to be recorded or closes the transaction. */
  ghost predicate AtMostOnce(s: World, tx: nat) {
    || (CreditsFor(s.credits, tx) == 0 && forall i :: !HalfDone(s, i, tx))
    || (CreditsFor(s.credits, tx) == 1 && (Quiet(s, tx) || exists i :: HalfDone(s, i, tx)))
  }

  /** A move that writes no credit for the transaction leaves no call half done that was not so before. */
  lemma NoNewHalfDone(s: World, i: nat, fails: bool, tx: nat, j: nat)
    requires !HalfDone(s, j, tx)
    requires i == j && InFlight(s, i, tx) && s.calls[i].phase.HasRead? ==> fails
    ensures !HalfDone(Move(s, i, fails), j, tx)
  {
    if i < |s.calls| {
      MoveOfOneCall(s, i, fails);
    }
  }

  lemma UncreditedMove(s: World, turn: Turn, tx: nat)
    requires CreditsFor(s.credits, tx) == 0 && forall i :: !HalfDone(s, i, tx)
    ensures AtMostOnce(Move(s, turn.call, turn.fails), tx)
  {
    var i, after := turn.call, Move(s, turn.call, turn.fails);
    MoveWrites(s, i, turn.fails);
    if InFlight(s, i, tx) && s.calls[i].phase.HasRead? && !turn.fails {
      OneMoreCredit(s.credits, Written(s, i), tx);
      assert after == WriteWallet(s, i, s.calls[i].phase.seen);
      assert HalfDone(after, i, tx);
    } else {
      if i < |s.calls| {
        OneMoreCredit(s.credits, Written(s, i), tx);
      }
      forall j: nat
        ensures !HalfDone(after, j, tx)
      {
        NoNewHalfDone(s, i, turn.fails, tx, j);
      }
    }
  }

  lemma HalfDoneMove(s: World, turn: Turn, tx: nat, i: nat)
    requires CreditsFor(s.credits, tx) == 1 && HalfDone(s, i, tx) && tx < |s.books.txs|
    requires !Overlap(s, tx) && !Crashes(s, turn, tx)
    ensures AtMostOnce(Move(s, turn.call, turn.fails), tx)
  {
    var j, after := turn.call, Move(s, turn.call, turn.fails);
    MoveWrites(s, j, turn.fails);
    assert !InFlight(s, j, tx) || j == i;
    if j < |s.calls| {
      MoveOfOneCall(s, j, turn.fails);
      OneMoreCredit(s.credits, Written(s, j), tx);
    }
    if j == i {
      forall k: nat
        ensures !InFlight(after, k, tx)
      {
        assert k != i ==> !InFlight(s, k, tx);
      }
      assert Quiet(after, tx);
    } else {
      assert HalfDone(after, i, tx);
    }
  }

  lemma {:induction false} CleanCreditsOnce(s0: World, s: World, turns: seq<Turn>, tx: nat)
    requires Since(s0, s) && AtMostOnce(s, tx) && Clean(s, turns, tx)
    ensures CreditsFor(Schedule(s, turns).credits, tx) <= 1
    decreases |turns|
  {
    if turns != [] {
      var turn := turns[0];
      MoveKeepsSince(s0, s, turn.call, turn.fails);
      if Quiet(s, tx) {
        MoveKeepsQuiet(s, turn.call, turn.fails, tx);
        QuietForever(s, turns, tx);
      } else if i: nat :| HalfDone(s, i, tx) {
        assert CallSince(s0, s, i);
        HalfDoneMove(s, turn, tx, i);
        CleanCreditsOnce(s0, Move(s, turn.call, turn.fails), turns[1..], tx);
      } else {
        UncreditedMove(s, turn, tx);
        CleanCreditsOnce(s0, Move(s, turn.call, turn.fails), turns[1..], tx);
      }
    }
  }

  /**
   Every double credit has one of two causes: two calls overlap between check and status update, since
   the check stands outside the lock, or a call fails between its two writes, which no transaction joins.
   */
  lemma DoubleCreditHasACause(s: World, turns: seq<Turn>, tx: nat)
    requires Fresh(s) && CreditsFor(Schedule(s, turns).credits, tx) >= 2
    ensures !Clean(s, turns, tx)
  {
    if Clean(s, turns, tx) {
      CleanCreditsOnce(s, s, turns, tx);
    }
  }

  // ---------- lost updates ----------

  predicate PaysInto(s: World, i: nat, w: Id) {
    Accepted(s, i) && s.books.txs[s.calls[i].webhook.tx].wallet == w
  }

  /** Two calls credit one wallet, and there is something to lose. */
  ghost predicate Racy(s: World, w: Id) {
    exists i: nat, j: nat :: i != j && PaysInto(s, i, w) && PaysInto(s, j, w) && s.calls[i].webhook.amount != 0
  }

  /** A balance read from wallet w is still the stored one. */
  predicate ReadsAgree(s: World, w: Id) {
    forall i :: 0 <= i < |s.calls| && s.calls[i].phase.HasRead? && s.calls[i].wallet == w ==>
      s.calls[i].phase.seen == Stored(s, w)
  }

  lemma WriterPays(s0: World, s: World, i: nat, w: Id)
    requires Since(s0, s) && i < |s.calls| && s.calls[i].phase.HasRead? && s.calls[i].wallet == w
    ensures PaysInto(s0, i, w) && s.calls[i].webhook == s0.calls[i].webhook
  {
    assert CallSince(s0, s, i);
  }

  /** A write to wallet w adds to what is stored, and finds every other read of w unharmed. */
  lemma CalmWrite(s0: World, s: World, i: nat, w: Id)
    requires Since(s0, s) && !Racy(s0, w) && ReadsAgree(s, w)
    requires i < |s.calls| && s.calls[i].phase.HasRead? && s.calls[i].wallet == w
    ensures var after := WriteWallet(s, i, s.calls[i].phase.seen);
            ReadsAgree(after, w) && Stored(after, w) == Stored(s, w) + s.calls[i].webhook.amount
  {
    WriterPays(s0, s, i, w);
    forall j | 0 <= j < |s.calls| && j != i && s.calls[j].phase.HasRead? && s.calls[j].wallet == w
      ensures s.calls[i].webhook.amount == 0
    {
      WriterPays(s0, s, j, w);
    }
  }

  lemma OtherMove(s: World, i: nat, fails: bool, w: Id)
    requires ReadsAgree(s, w)
    requires i < |s.calls| && s.calls[i].phase.HasRead? && s.calls[i].wallet == w ==> fails
    ensures ReadsAgree(Move(s, i, fails), w) && Stored(Move(s, i, fails), w) == Stored(s, w)
  {
    if i < |s.calls| {
      MoveOfOneCall(s, i, fails);
    }
  }

  lemma CalmMove(s0: World, s: World, i: nat, fails: bool, w: Id)
    requires Since(s0, s) && !Racy(s0, w) && ReadsAgree(s, w)
    ensures var after := Move(s, i, fails);
            ReadsAgree(after, w) && Stored(after, w) - Sum(after.credits, w) == Stored(s, w) - Sum(s.credits, w)
  {
    MoveWrites(s, i, fails);
    if i < |s.calls| {
      assert (s.credits + [Written(s, i)])[..|s.credits|] == s.credits;
    }
    if i < |s.calls| && s.calls[i].phase.HasRead? && s.calls[i].wallet == w && !fails {
      CalmWrite(s0, s, i, w);
    } else {
      OtherMove(s, i, fails, w);
    }
  }

  lemma {:induction false} CalmSchedule(s0: World, s: World, turns: seq<Turn>, w: Id)
    requires Since(s0, s) && !Racy(s0, w) && ReadsAgree(s, w)
    ensures var after := Schedule(s, turns);
            Stored(after, w) - Sum(after.credits, w) == Stored(s, w) - Sum(s.credits, w)
    decreases |turns|
  {
    if turns != [] {
      MoveKeepsSince(s0, s, turns[0].call, turns[0].fails);
      CalmMove(s0, s, turns[0].call, turns[0].fails, w);
      CalmSchedule(s0, Move(s, turns[0].call, turns[0].fails), turns[1..], w);
    }
  }

  /** Three moves without a lock: checked, inside, and the balance read. */
  lemma UnlockedRead(s: World, i: nat)
    requires !s.locking && Accepted(s, i) && s.calls[i].phase == Arrived
    ensures var w := s.books.txs[s.calls[i].webhook.tx].wallet;
            Schedule(s, Often(i, 3)) ==
            s.(calls := s.calls[i := Call(s.calls[i].webhook, w, HasRead(s.books.wallets[w]))])
  {
    FewTurns(s, i);
  }

  lemma OneWrite(s: World, i: nat)
    requires i < |s.calls| && s.calls[i].phase.HasRead?
    ensures Schedule(s, Often(i, 1)) == WriteWallet(s, i, s.calls[i].phase.seen)
    ensures forall w :: Sum(Schedule(s, Often(i, 1)).credits, w) ==
              Sum(s.credits, w) + if s.calls[i].wallet == w then s.calls[i].webhook.amount else 0
  {
    FewTurns(s, i);
    assert (s.credits + [Written(s, i)])[..|s.credits|] == s.credits;
  }

  /** Both calls read, then both write: the first write is lost. */
  lemma ReadTogether(s: World, i: nat, j: nat, w: Id) returns (turns: seq<Turn>)
    requires Fresh(s) && !s.locking && i != j && PaysInto(s, i, w) && PaysInto(s, j, w)
    ensures var after := Schedule(s, turns);
            && Stored(after, w) == Stored(s, w) + s.calls[j].webhook.amount
            && Sum(after.credits, w) == s.calls[i].webhook.amount + s.calls[j].webhook.amount
  {
    var fetches, stores := Often(i, 3) + Often(j, 3), Often(i, 1) + Often(j, 1);
    turns := fetches + stores;
    ScheduleThen(s, fetches, stores);
    ScheduleThen(s, Often(i, 3), Often(j, 3));
    UnlockedRead(s, i);
    var a := Schedule(s, Often(i, 3));
    UnlockedRead(a, j);
    var b := Schedule(a, Often(j, 3));
    ScheduleThen(b, Often(i, 1), Often(j, 1));
    OneWrite(b, i);
    OneWrite(Schedule(b, Often(i, 1)), j);
  }

  ghost predicate CanLose(s: World, w: Id) {
    exists turns :: Stored(Schedule(s, turns), w) != Stored(s, w) + Sum(Schedule(s, turns).credits, w)
  }

  /**
   An update of a wallet can be lost exactly when there is no lock manager, which is the default, and two
   webhooks with something to credit pass the checks for that wallet.
   */
  lemma LostUpdateIff(s: World, w: Id)
    requires Fresh(s)
    ensures CanLose(s, w) <==> !s.locking && Racy(s, w)
  {
    if turns :| Stored(Schedule(s, turns), w) != Stored(s, w) + Sum(Schedule(s, turns).credits, w) {
      if s.locking {
        NoLostUpdate(s, turns, w);
      } else if !Racy(s, w) {
        CalmSchedule(s, s, turns, w);
      }
    }
    if !s.locking && Racy(s, w) {
      var i: nat, j: nat :| i != j && PaysInto(s, i, w) && PaysInto(s, j, w) && s.calls[i].webhook.amount != 0;
      var turns := ReadTogether(s, i, j, w);
      assert Stored(Schedule(s, turns), w) != Stored(s, w) + Sum(Schedule(s, turns).credits, w);
    }
  }
}
