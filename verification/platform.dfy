/** Registration and ledger in one run: every cent of every balance, fees included. */
module Platform {
  import opened Common
  import opened Registration
  import RegistrationLaws
  import Ledger
  import LedgerLaws

  datatype Action = Money(payment: Ledger.Event) | Office(request: Registration.Event)

  function Act(s: World, a: Action): World {
    match a
    case Money(payment) => s.(books := Ledger.Step(s.books, payment))
    case Office(request) => Registration.Step(s, request)
  }

  function Actions(s: World, actions: seq<Action>): World
    decreases |actions|
  {
    if actions == [] then s else Actions(Act(s, actions[0]), actions[1..])
  }

  /** The request is a registration that debits its fee. */
  predicate Debits(s: World, e: Registration.Event) {
    && e.Register? && RegistrationLaws.GetsToWrite(s, e.user, e.tournament, e.hasGameProfile)
    && s.entries[e.tournament].tournament.terms.entryFee > 0 && e.fault != DebitFails
  }

  function FeeOf(s: World, e: Registration.Event): int
    requires Debits(s, e)
  {
    s.entries[e.tournament].tournament.terms.entryFee
  }

  /** What an action is to the ledger. */
  function LedgerPart(s: World, a: Action): seq<Ledger.Event> {
    match a
    case Money(payment) => [payment]
    case Office(request) => if Debits(s, request) then [Ledger.ChargeEntryFee(request.user, FeeOf(s, request))] else []
  }

  function LedgerEvents(s: World, actions: seq<Action>): seq<Ledger.Event>
    decreases |actions|
  {
    if actions == [] then [] else LedgerPart(s, actions[0]) + LedgerEvents(Act(s, actions[0]), actions[1..])
  }

  lemma ActIsLedgerPart(s: World, a: Action)
    ensures Act(s, a).books == Ledger.Run(s.books, LedgerPart(s, a))
  {
    if LedgerPart(s, a) != [] {
      assert LedgerPart(s, a)[1..] == [];
    }
  }

  lemma {:induction false} RunThen(b: Ledger.Books, first: seq<Ledger.Event>, second: seq<Ledger.Event>)
    ensures Ledger.Run(b, first + second) == Ledger.Run(Ledger.Run(b, first), second)
    decreases |first|
  {
    if first == [] {
      assert first + second == second;
    } else {
      assert (first + second)[1..] == first[1..] + second;
      RunThen(Ledger.Step(b, first[0]), first[1..], second);
    }
  }

  /** A combined run is, for the books, the run of its payments and fees. */
  lemma {:induction false} LedgerView(s: World, actions: seq<Action>)
    ensures Actions(s, actions).books == Ledger.Run(s.books, LedgerEvents(s, actions))
    decreases |actions|
  {
    if actions != [] {
      var next := Act(s, actions[0]);
      ActIsLedgerPart(s, actions[0]);
      LedgerView(next, actions[1..]);
      RunThen(s.books, LedgerPart(s, actions[0]), LedgerEvents(next, actions[1..]));
    }
  }

  // ---------- the fees ----------

  /** The fees of user w whose registration stored its row. */
  function RowFees(s: World, actions: seq<Action>, w: Id): int
    decreases |actions|
  {
    if actions == [] then 0
    else
      var a := actions[0];
      (if a.Office? && Debits(s, a.request) && a.request.user == w && a.request.fault != RowFails
       then FeeOf(s, a.request) else 0)
      + RowFees(Act(s, a), actions[1..], w)
  }

  /** The fees of user w that bought nothing. */
  function LostFees(s: World, actions: seq<Action>, w: Id): int
    decreases |actions|
  {
    if actions == [] then 0
    else
      var a := actions[0];
      (if a.Office? && Debits(s, a.request) && a.request.user == w && a.request.fault == RowFails
       then FeeOf(s, a.request) else 0)
      + LostFees(Act(s, a), actions[1..], w)
  }

  /** A fee buys a row, or nothing: the two sums are told apart by what the step does to the rows. */
  lemma FeeBuysRowIff(s: World, e: Registration.Event)
    requires Debits(s, e)
    ensures e.tournament in s.entries && e.tournament in Act(s, Office(e)).entries
    ensures var (before, after) := (s.entries[e.tournament].participants,
                                   Act(s, Office(e)).entries[e.tournament].participants);
            after == (if e.fault == RowFails then before else before + [e.user])
    ensures LedgerLaws.Balance(Act(s, Office(e)).books, e.user) == LedgerLaws.Balance(s.books, e.user) - FeeOf(s, e)
  {
  }

  lemma {:induction false} FeesThen(b: Ledger.Books, first: seq<Ledger.Event>, second: seq<Ledger.Event>, w: Id)
    ensures LedgerLaws.Fees(b, first + second, w) ==
            LedgerLaws.Fees(b, first, w) + LedgerLaws.Fees(Ledger.Run(b, first), second, w)
    decreases |first|
  {
    if first == [] {
      assert first + second == second;
    } else {
      assert (first + second)[1..] == first[1..] + second;
      FeesThen(Ledger.Step(b, first[0]), first[1..], second, w);
    }
  }

  lemma FeePart(s: World, a: Action, w: Id)
    requires a.Money? ==> !a.payment.ChargeEntryFee?
    ensures LedgerLaws.Fees(s.books, LedgerPart(s, a), w) ==
            if a.Office? && Debits(s, a.request) && a.request.user == w then FeeOf(s, a.request) else 0
  {
    if LedgerPart(s, a) != [] {
      assert LedgerPart(s, a)[1..] == [];
      assert LedgerLaws.Fees(Ledger.Step(s.books, LedgerPart(s, a)[0]), [], w) == 0;
    }
  }

  /** Every fee that was taken either bought a row or is lost. */
  lemma {:induction false} FeesBuyRowsOrAreLost(s: World, actions: seq<Action>, w: Id)
    requires forall i :: 0 <= i < |actions| && actions[i].Money? ==> !actions[i].payment.ChargeEntryFee?
    ensures LedgerLaws.Fees(s.books, LedgerEvents(s, actions), w) == RowFees(s, actions, w) + LostFees(s, actions, w)
    decreases |actions|
  {
    if actions != [] {
      var a := actions[0];
      FeesBuyRowsOrAreLost(Act(s, a), actions[1..], w);
      FeesThen(s.books, LedgerPart(s, a), LedgerEvents(Act(s, a), actions[1..]), w);
      ActIsLedgerPart(s, a);
      FeePart(s, a, w);
    }
  }

  // ---------- conservation ----------

  /**
   Conservation over one run of registration and ledger together: from books without transactions, every
   balance is its initial value plus completed deposits minus completed withdrawals minus the fees that
   bought rows minus the fees that were lost, exactly when no webhook of the run leaked to that wallet.
   */
  lemma PlatformConservedIff(s: World, actions: seq<Action>, w: Id)
    requires s.books.txs == []
    requires forall i :: 0 <= i < |actions| && actions[i].Money? ==> !actions[i].payment.ChargeEntryFee?
    ensures var after := Actions(s, actions).books;
            LedgerLaws.Balance(after, w) ==
              LedgerLaws.Balance(s.books, w) + LedgerLaws.Total(after.txs, w, Ledger.Deposit)
              - LedgerLaws.Total(after.txs, w, Ledger.Withdrawal) - RowFees(s, actions, w) - LostFees(s, actions, w)
            <==> !exists i :: LedgerLaws.LeaksAt(s.books, LedgerEvents(s, actions), i, w)
  {
    LedgerView(s, actions);
    FeesBuyRowsOrAreLost(s, actions, w);
    LedgerLaws.ConservedIff(s.books, LedgerEvents(s, actions), w);
  }
}
