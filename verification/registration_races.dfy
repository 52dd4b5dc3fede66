/**
 Registrations for one tournament run interleaved. Room and duplicates are checked before anything is
 written, and fee, row and count are written one after the other without a transaction.
 */
module RegistrationRaces {
  import opened Common
  import opened Tournaments
  import opened Registration
  import Ledger

  datatype Phase =
    | Arrived                 // nothing done yet
    | Admitted                // registration was open, and there was room
    | Cleared                 // the user was not registered
    | Charged                 // the fee, if any, is paid
    | Unseated                // paid, but the row was not stored
    | Seated                  // the row is stored, not counted yet
    | Uncounted               // the row is stored, but the count failed
    | Counted                 // registered
    | GaveUp                  // turned away with nothing written

  datatype Call = Call(user: Id, hasGameProfile: bool)

  datatype Race = Race(entry: Entry, books: Ledger.Books, calls: seq<Call>, phases: seq<Phase>)

  predicate HasRow(phase: Phase) {
    phase == Seated || phase == Uncounted || phase == Counted
  }

  predicate HasPaid(phase: Phase) {
    phase == Charged || phase == Unseated || HasRow(phase)
  }

  predicate IsCounted(phase: Phase) {
    phase == Counted
  }

  function Fee(s: Race): int {
    s.entry.tournament.terms.entryFee
  }

  predicate Admits(s: Race) {
    Loads(s.entry.tournament) && CanRegister(s.entry.tournament)
  }

  function SetPhase(s: Race, i: nat, phase: Phase): Race
    requires i < |s.phases|
  {
    s.(phases := s.phases[i := phase])
  }

  function Pay(s: Race, i: nat): Race
    requires i < |s.calls| && i < |s.phases|
  {
    var (books, paid) := Ledger.EntryFeeCharged(s.books, s.calls[i].user, Fee(s));
    if paid == Done then SetPhase(s, i, Charged).(books := books) else SetPhase(s, i, GaveUp)
  }

  /** Call i makes its next move; fails says that the operation it attempts throws. */
  function Move(s: Race, i: nat, fails: bool): Race {
    if i >= |s.calls| || i >= |s.phases| then s
    else
      var c := s.calls[i];
      match s.phases[i]
      case Arrived => SetPhase(s, i, if fails || !Admits(s) then GaveUp else Admitted)
      case Admitted => SetPhase(s, i, if fails || c.user in s.entry.participants then GaveUp else Cleared)
      case Cleared => if fails || !c.hasGameProfile then SetPhase(s, i, GaveUp) else Pay(s, i)
      case Charged =>
        if fails then SetPhase(s, i, Unseated) else SetPhase(s, i, Seated).(entry := RowAdded(s.entry, c.user))
      case Seated => if fails then SetPhase(s, i, Uncounted) else SetPhase(s, i, Counted).(entry := CountedUp(s.entry))
      case _ => s
  }

  datatype Turn = Turn(call: nat, fails: bool)

  function Schedule(s: Race, turns: seq<Turn>): Race
    decreases |turns|
  {
    if turns == [] then s else Schedule(Move(s, turns[0].call, turns[0].fails), turns[1..])
  }

  predicate Fresh(s: Race) {
    |s.phases| == |s.calls| && forall i :: 0 <= i < |s.phases| ==> s.phases[i] == Arrived
  }

  lemma {:induction false} ScheduleThen(s: Race, first: seq<Turn>, second: seq<Turn>)
    ensures Schedule(s, first + second) == Schedule(Schedule(s, first), second)
    decreases |first|
  {
    if first == [] {
      assert first + second == second;
    } else {
      assert (first + second)[1..] == first[1..] + second;
      ScheduleThen(Move(s, first[0].call, first[0].fails), first[1..], second);
    }
  }

  lemma OneTurn(s: Race, i: nat, fails: bool)
    ensures Schedule(s, [Turn(i, fails)]) == Move(s, i, fails)
  {
    assert [Turn(i, fails)][1..] == [];
  }

  // ---------- a call that runs alone ----------

  /** Five moves of one call, of which the last three can fail. */
  function FiveMoves(s: Race, i: nat, debitFails: bool, rowFails: bool, countFails: bool): Race {
    Move(Move(Move(Move(Move(s, i, false), i, false), i, debitFails), i, rowFails), i, countFails)
  }

  lemma TwoChecks(s: Race, i: nat)
    requires i < |s.calls| && i < |s.phases| && s.phases[i] == Arrived
    ensures Move(Move(s, i, false), i, false) ==
            SetPhase(s, i, if Admits(s) && s.calls[i].user !in s.entry.participants then Cleared else GaveUp)
  {
  }

  /** The three writes of a call that has passed its checks. */
  lemma ThreeWrites(office: Registration.World, id: Id, c: Call, fault: Fault)
    requires id in office.entries && c.hasGameProfile
    ensures var s := Race(office.entries[id], office.books, [c], [Cleared]);
            var charged := Move(s, 0, fault == DebitFails && Fee(s) > 0);
            var after := Move(Move(charged, 0, fault == RowFails), 0, fault == CountFails);
            var (next, outcome) := Written(office, c.user, id, fault);
            && next == Registration.World(office.entries[id := after.entry], after.books)
            && (outcome == Done <==> after.phases == [Counted])
  {
    assert office.entries == office.entries[id := office.entries[id]];
    var s := Race(office.entries[id], office.books, [c], [Cleared]);
    var charged := Move(s, 0, fault == DebitFails && Fee(s) > 0);
    var seated := Move(charged, 0, fault == RowFails);
    var after := Move(seated, 0, fault == CountFails);
    assert after.phases == [after.phases[0]];
  }

  /** Uninterrupted, the moves are the use case in one step, wherever a write fails. */
  lemma SerialCallIsRegistered(office: Registration.World, id: Id, c: Call, fault: Fault)
    requires id in office.entries
    ensures var s := Race(office.entries[id], office.books, [c], [Arrived]);
            var after := FiveMoves(s, 0, fault == DebitFails && Fee(s) > 0, fault == RowFails, fault == CountFails);
            var (next, outcome) := Registered(office, c.user, id, c.hasGameProfile, fault);
            && next == Registration.World(office.entries[id := after.entry], after.books)
            && (outcome == Done <==> after.phases == [Counted])
  {
    var s := Race(office.entries[id], office.books, [c], [Arrived]);
    TwoChecks(s, 0);
    assert office.entries == office.entries[id := office.entries[id]];
    if Admits(s) && c.user !in s.entry.participants && c.hasGameProfile {
      assert SetPhase(s, 0, Cleared) == Race(office.entries[id], office.books, [c], [Cleared]);
      ThreeWrites(office, id, c, fault);
    } else {
      TurnedAway(s, fault == DebitFails && Fee(s) > 0, fault == RowFails, fault == CountFails);
    }
  }

  lemma TurnedAway(s: Race, debitFails: bool, rowFails: bool, countFails: bool)
    requires |s.calls| == 1 && s.phases == [Arrived]
    requires !(Admits(s) && s.calls[0].user !in s.entry.participants && s.calls[0].hasGameProfile)
    ensures FiveMoves(s, 0, debitFails, rowFails, countFails) == SetPhase(s, 0, GaveUp)
  {
    TwoChecks(s, 0);
  }

  // ---------- counting calls ----------

  function Marks(phases: seq<Phase>, has: Phase -> bool): (marks: seq<bool>)
    ensures |marks| == |phases| && forall i :: 0 <= i < |phases| ==> marks[i] == has(phases[i])
  {
    seq(|phases|, i requires 0 <= i < |phases| => has(phases[i]))
  }

  /** How many of the first k calls are marked, and how many of those are of one user. */
  function Tally(marks: seq<bool>, k: nat): nat
    requires k <= |marks|
  {
    if k == 0 then 0 else Tally(marks, k - 1) + if marks[k - 1] then 1 else 0
  }

  function TallyOf(calls: seq<Call>, marks: seq<bool>, u: Id, k: nat): nat
    requires k <= |calls| && k <= |marks|
  {
    if k == 0 then 0
    else TallyOf(calls, marks, u, k - 1) + if marks[k - 1] && calls[k - 1].user == u then 1 else 0
  }

  function One(b: bool): int {
    if b then 1 else 0
  }

  lemma {:induction false} TallyUpdate(calls: seq<Call>, marks: seq<bool>, i: nat, b: bool, u: Id, k: nat)
    requires i < |marks| && k <= |marks| && k <= |calls|
    ensures Tally(marks[i := b], k) == Tally(marks, k) + if i < k then One(b) - One(marks[i]) else 0
    ensures TallyOf(calls, marks[i := b], u, k) ==
            TallyOf(calls, marks, u, k) + if i < k && calls[i].user == u then One(b) - One(marks[i]) else 0
  {
    if k > 0 {
      TallyUpdate(calls, marks, i, b, u, k - 1);
    }
  }

  predicate Within(few: seq<bool>, many: seq<bool>) {
    |few| == |many| && forall i :: 0 <= i < |few| && few[i] ==> many[i]
  }

  lemma {:induction false} TallyWithin(calls: seq<Call>, few: seq<bool>, many: seq<bool>, u: Id, k: nat, n: nat)
    requires Within(few, many) && k <= n <= |few| && n <= |calls|
    ensures Tally(few, k) <= Tally(many, n) && TallyOf(calls, few, u, k) <= TallyOf(calls, many, u, n)
    decreases n
  {
    if k < n {
      TallyWithin(calls, few, many, u, k, n - 1);
    } else if k > 0 {
      TallyWithin(calls, few, many, u, k - 1, n - 1);
    }
  }

  lemma {:induction false} NothingTallied(calls: seq<Call>, marks: seq<bool>, u: Id, k: nat)
    requires k <= |marks| && k <= |calls| && forall i :: 0 <= i < |marks| ==> !marks[i]
    ensures Tally(marks, k) == 0 && TallyOf(calls, marks, u, k) == 0
  {
    if k > 0 {
      NothingTallied(calls, marks, u, k - 1);
    }
  }

  lemma MoveOfMarks(s: Race, i: nat, fails: bool, has: Phase -> bool)
    requires i < |s.calls| == |s.phases|
    ensures var after := Move(s, i, fails);
            && |after.phases| == |s.phases| && after.calls == s.calls
            && after.phases == s.phases[i := after.phases[i]]
            && Marks(after.phases, has) == Marks(s.phases, has)[i := has(after.phases[i])]
  {
  }

  // ---------- what every schedule keeps ----------

  function Participants(s: Race, u: Id): nat {
    multiset(s.entry.participants)[u]
  }

  function PaidBy(s: Race, u: Id): nat
    requires |s.calls| == |s.phases|
  {
    TallyOf(s.calls, Marks(s.phases, HasPaid), u, |s.calls|)
  }

  function RowsBy(s: Race, u: Id): nat
    requires |s.calls| == |s.phases|
  {
    TallyOf(s.calls, Marks(s.phases, HasRow), u, |s.calls|)
  }

  function CountedCalls(s: Race): nat {
    Tally(Marks(s.phases, IsCounted), |s.phases|)
  }

  /** What a call has passed was so from the start, and nobody has paid what they did not have. */
  predicate CallSince(s0: Race, s: Race, i: nat)
    requires i < |s.calls| && i < |s.phases|
  {
    var (c, phase) := (s.calls[i], s.phases[i]);
    && (phase != Arrived && phase != GaveUp ==> Admits(s0))
    && (phase != Arrived && phase != GaveUp && phase != Admitted ==> c.user !in s0.entry.participants)
    && (HasPaid(phase) ==> c.hasGameProfile
                           && (Fee(s) > 0 ==> c.user in s.books.wallets && s.books.wallets[c.user] >= 0))
  }

  /** The entry has grown by the rows and counts of the calls. */
  predicate EntrySince(s0: Race, s: Race) {
    && s.entry.tournament == s0.entry.tournament.(
         currentParticipants := s0.entry.tournament.currentParticipants + CountedCalls(s))
    && (CountedCalls(s) > 0 ==> Admits(s0))
    && s0.entry.participants <= s.entry.participants
  }

  predicate UserSince(s0: Race, s: Race, u: Id)
    requires |s.calls| == |s.phases|
  {
    Participants(s, u) == Participants(s0, u) + RowsBy(s, u) && WalletSince(s0, s, u, PaidBy(s, u))
  }

  /** The wallet has paid the fee n times. */
  predicate WalletSince(s0: Race, s: Race, u: Id, n: nat) {
    && (u in s.books.wallets <==> u in s0.books.wallets)
    && (u in s0.books.wallets && Fee(s) > 0 ==> s.books.wallets[u] == s0.books.wallets[u] - Fee(s) * n)
  }

  ghost predicate Since(s0: Race, s: Race) {
    && s.calls == s0.calls && |s.phases| == |s.calls|
    && EntrySince(s0, s)
    && (forall i :: 0 <= i < |s.calls| ==> CallSince(s0, s, i))
    && forall u :: UserSince(s0, s, u)
  }

  lemma MoveKeepsEntrySince(s0: Race, s: Race, i: nat, fails: bool)
    requires i < |s.calls| == |s.phases| && EntrySince(s0, s) && CallSince(s0, s, i)
    ensures EntrySince(s0, Move(s, i, fails))
  {
    var after := Move(s, i, fails);
    MoveOfMarks(s, i, fails, IsCounted);
    TallyUpdate(s.calls, Marks(s.phases, IsCounted), i, IsCounted(after.phases[i]), 0, |s.phases|);
  }

  lemma MoveKeepsCallSince(s0: Race, s: Race, i: nat, fails: bool, j: nat)
    requires i < |s.calls| == |s.phases| && j < |s.calls| && EntrySince(s0, s)
    requires CallSince(s0, s, i) && CallSince(s0, s, j)
    ensures |Move(s, i, fails).calls| == |Move(s, i, fails).phases| == |s.calls|
    ensures CallSince(s0, Move(s, i, fails), j)
  {
  }

  lemma MoveKeepsRows(s0: Race, s: Race, i: nat, fails: bool, u: Id)
    requires i < |s.calls| == |s.phases| && Participants(s, u) == Participants(s0, u) + RowsBy(s, u)
    ensures var after := Move(s, i, fails);
            |after.calls| == |after.phases| && Participants(after, u) == Participants(s0, u) + RowsBy(after, u)
  {
    var after := Move(s, i, fails);
    MoveOfMarks(s, i, fails, HasRow);
    TallyUpdate(s.calls, Marks(s.phases, HasRow), i, HasRow(after.phases[i]), u, |s.calls|);
  }

  lemma MoveOfPaid(s: Race, i: nat, fails: bool, u: Id)
    requires i < |s.calls| == |s.phases|
    ensures var after := Move(s, i, fails);
            && |after.calls| == |after.phases| == |s.phases|
            && PaidBy(after, u) == PaidBy(s, u) + if s.calls[i].user != u then 0
                                                  else One(HasPaid(after.phases[i])) - One(HasPaid(s.phases[i]))
  {
    var after := Move(s, i, fails);
    MoveOfMarks(s, i, fails, HasPaid);
    TallyUpdate(s.calls, Marks(s.phases, HasPaid), i, HasPaid(after.phases[i]), u, |s.calls|);
  }

  /** Only a payment moves a balance. */
  lemma MoveOfBalance(s: Race, i: nat, fails: bool, u: Id)
    requires i < |s.calls| == |s.phases|
    ensures var after := Move(s, i, fails);
            && Fee(after) == Fee(s) && |after.phases| == |s.phases|
            && (u in after.books.wallets <==> u in s.books.wallets)
            && (u in s.books.wallets && Fee(s) > 0 ==>
                  after.books.wallets[u] == s.books.wallets[u]
                    - if s.calls[i].user == u && !HasPaid(s.phases[i]) && HasPaid(after.phases[i]) then Fee(s) else 0)
            && (HasPaid(s.phases[i]) ==> HasPaid(after.phases[i]))
  {
  }

  lemma WalletPaysOnce(s0: Race, s: Race, after: Race, u: Id, n: nat, pays: bool)
    requires WalletSince(s0, s, u, n) && Fee(after) == Fee(s)
    requires u in after.books.wallets <==> u in s.books.wallets
    requires u in s.books.wallets && Fee(s) > 0 ==>
               after.books.wallets[u] == s.books.wallets[u] - if pays then Fee(s) else 0
    ensures WalletSince(s0, after, u, if pays then n + 1 else n)
  {
    assert Fee(s) * (n + 1) == Fee(s) * n + Fee(s);
  }

  lemma MoveKeepsUserSince(s0: Race, s: Race, i: nat, fails: bool, u: Id)
    requires i < |s.calls| == |s.phases| && UserSince(s0, s, u)
    ensures |Move(s, i, fails).calls| == |Move(s, i, fails).phases|
    ensures UserSince(s0, Move(s, i, fails), u)
  {
    var after := Move(s, i, fails);
    MoveKeepsRows(s0, s, i, fails, u);
    MoveOfPaid(s, i, fails, u);
    MoveOfBalance(s, i, fails, u);
    var pays := s.calls[i].user == u && !HasPaid(s.phases[i]) && HasPaid(after.phases[i]);
    WalletPaysOnce(s0, s, after, u, PaidBy(s, u), pays);
  }

  lemma MoveKeepsSince(s0: Race, s: Race, i: nat, fails: bool)
    requires Since(s0, s)
    ensures Since(s0, Move(s, i, fails))
  {
    if i < |s.calls| {
      var after := Move(s, i, fails);
      MoveOfMarks(s, i, fails, HasRow);
      MoveKeepsEntrySince(s0, s, i, fails);
      forall j | 0 <= j < |s.calls|
        ensures CallSince(s0, after, j)
      {
        MoveKeepsCallSince(s0, s, i, fails, j);
      }
      forall u
        ensures UserSince(s0, after, u)
      {
        MoveKeepsUserSince(s0, s, i, fails, u);
      }
    }
  }

  lemma {:induction false} ScheduleKeepsSince(s0: Race, s: Race, turns: seq<Turn>)
    requires Since(s0, s)
    ensures Since(s0, Schedule(s, turns))
    decreases |turns|
  {
    if turns != [] {
      MoveKeepsSince(s0, s, turns[0].call, turns[0].fails);
      ScheduleKeepsSince(s0, Move(s, turns[0].call, turns[0].fails), turns[1..]);
    }
  }

  lemma FreshSince(s: Race)
    requires Fresh(s)
    ensures Since(s, s)
  {
    NothingTallied(s.calls, Marks(s.phases, IsCounted), 0, |s.phases|);
    forall u
      ensures UserSince(s, s, u)
    {
      NothingTallied(s.calls, Marks(s.phases, HasPaid), u, |s.calls|);
      NothingTallied(s.calls, Marks(s.phases, HasRow), u, |s.calls|);
    }
  }
}
