/** Exactly how interleaved registrations can end: who gets a row, who gets two, how full a tournament gets. */
module RegistrationOutcomes {
  import opened Common
  import opened RegistrationRaces

  // ---------- which calls can get a row together ----------

  /** The call passes every check as things stand at the start. */
  predicate Eligible(s: Race, i: nat)
    requires i < |s.calls|
  {
    Admits(s) && s.calls[i].user !in s.entry.participants && s.calls[i].hasGameProfile
  }

  /** User u can pay the fee n times. */
  predicate CanAfford(s: Race, u: Id, n: nat) {
    Fee(s) > 0 ==> u in s.books.wallets && s.books.wallets[u] >= Fee(s) * n
  }

  /** Every picked call is eligible, and its user can pay for all the picked calls of that user. */
  predicate Possible(s: Race, picked: seq<bool>) {
    && |picked| == |s.calls|
    && forall i :: 0 <= i < |picked| && picked[i] ==>
         Eligible(s, i) && CanAfford(s, s.calls[i].user, TallyOf(s.calls, picked, s.calls[i].user, |picked|))
  }

  lemma FeesGrow(fee: int, few: nat, many: nat)
    requires fee > 0 && few <= many
    ensures fee * few <= fee * many
  {
  }

  lemma SeatedIsPaid(s0: Race, s: Race, i: nat)
    requires Since(s0, s) && i < |s.calls| && HasRow(s.phases[i])
    ensures var u := s.calls[i].user; Eligible(s0, i) && CanAfford(s0, u, RowsBy(s, u))
  {
    var u := s.calls[i].user;
    assert CallSince(s0, s, i) && UserSince(s0, s, u);
    TallyWithin(s.calls, Marks(s.phases, HasRow), Marks(s.phases, HasPaid), u, |s.calls|, |s.calls|);
    if Fee(s) > 0 {
      FeesGrow(Fee(s), RowsBy(s, u), PaidBy(s, u));
    }
  }

  lemma EndIsPossible(s0: Race, s: Race)
    requires Since(s0, s)
    ensures Possible(s0, Marks(s.phases, HasRow)) && Within(Marks(s.phases, IsCounted), Marks(s.phases, HasRow))
  {
    forall i | 0 <= i < |s.calls| && HasRow(s.phases[i])
      ensures Eligible(s0, i) && CanAfford(s0, s.calls[i].user, RowsBy(s, s.calls[i].user))
    {
      SeatedIsPaid(s0, s, i);
    }
  }

  /** The picked ones of the first k calls have passed their checks, and nothing is written yet. */
  predicate Cleared(s: Race, after: Race, picked: seq<bool>, k: nat)
    requires |picked| == |s.calls|
  {
    && after.entry == s.entry && after.books == s.books && after.calls == s.calls && |after.phases| == |s.calls|
    && forall i :: 0 <= i < |s.calls| ==>
         after.phases[i] == if i < k && picked[i] then Phase.Cleared else Arrived
  }

  lemma {:induction false} CheckAll(s: Race, picked: seq<bool>, k: nat) returns (turns: seq<Turn>)
    requires Fresh(s) && Possible(s, picked) && k <= |picked|
    ensures Cleared(s, Schedule(s, turns), picked, k)
    decreases k
  {
    if k == 0 {
      turns := [];
    } else {
      var before := CheckAll(s, picked, k - 1);
      var b := Schedule(s, before);
      if picked[k - 1] {
        var twice := [Turn(k - 1, false)] + [Turn(k - 1, false)];
        turns := before + twice;
        ScheduleThen(s, before, twice);
        ScheduleThen(b, [Turn(k - 1, false)], [Turn(k - 1, false)]);
        OneTurn(b, k - 1, false);
        OneTurn(Move(b, k - 1, false), k - 1, false);
        TwoChecks(b, k - 1);
        assert Eligible(s, k - 1);
      } else {
        turns := before;
      }
    }
  }

  /** The picked ones of the first k calls have their rows, and of those the chosen ones are counted. */
  predicate Settled(s: Race, after: Race, picked: seq<bool>, counted: seq<bool>, k: nat)
    requires |picked| == |counted| == |s.calls|
  {
    && after.calls == s.calls && |after.phases| == |s.phases| == |s.calls| && Fee(after) == Fee(s)
    && forall i :: 0 <= i < |s.calls| ==>
         after.phases[i] == if i >= k || !picked[i] then s.phases[i] else if counted[i] then Counted else Uncounted
  }

  /** What the first k calls have left in the wallets. */
  ghost predicate Charges(s: Race, after: Race, picked: seq<bool>, k: nat)
    requires k <= |picked| == |s.calls|
  {
    Fee(s) > 0 ==> forall u :: u in s.books.wallets ==>
      u in after.books.wallets
      && after.books.wallets[u] == s.books.wallets[u] - Fee(s) * TallyOf(s.calls, picked, u, k)
  }

  /** A call that has passed its checks and can pay goes through, its count as wanted. */
  lemma GoesThrough(s: Race, i: nat, counts: bool) returns (turns: seq<Turn>)
    requires i < |s.calls| == |s.phases| && s.phases[i] == Phase.Cleared && s.calls[i].hasGameProfile
    requires CanAfford(s, s.calls[i].user, 1)
    ensures var (after, u) := (Schedule(s, turns), s.calls[i].user);
            && after.calls == s.calls && Fee(after) == Fee(s)
            && after.phases == s.phases[i := if counts then Counted else Uncounted]
            && after.books.wallets ==
                 if Fee(s) > 0 then s.books.wallets[u := s.books.wallets[u] - Fee(s)] else s.books.wallets
  {
    var pay, seat, count := [Turn(i, false)], [Turn(i, false)], [Turn(i, !counts)];
    turns := pay + (seat + count);
    ScheduleThen(s, pay, seat + count);
    OneTurn(s, i, false);
    var paid := Move(s, i, false);
    ScheduleThen(paid, seat, count);
    OneTurn(paid, i, false);
    OneTurn(Move(paid, i, false), i, !counts);
  }

  /** After the first k calls, the next one can still pay. */
  lemma CanStillPay(s: Race, after: Race, picked: seq<bool>, k: nat)
    requires k < |picked| == |s.calls| && picked[k] && Charges(s, after, picked, k) && Fee(after) == Fee(s)
    requires CanAfford(s, s.calls[k].user, TallyOf(s.calls, picked, s.calls[k].user, |picked|))
    ensures CanAfford(after, s.calls[k].user, 1)
  {
    if Fee(s) > 0 {
      var u := s.calls[k].user;
      TallyWithin(s.calls, picked, picked, u, k + 1, |picked|);
      FeesGrow(Fee(s), TallyOf(s.calls, picked, u, k) + 1, TallyOf(s.calls, picked, u, |picked|));
      assert Fee(s) * (TallyOf(s.calls, picked, u, k) + 1) == Fee(s) * TallyOf(s.calls, picked, u, k) + Fee(s);
    }
  }

  lemma OneMoreCharge(s: Race, b: Race, after: Race, picked: seq<bool>, k: nat)
    requires k < |picked| == |s.calls| && picked[k] && Charges(s, b, picked, k)
    requires CanAfford(b, s.calls[k].user, 1) && Fee(b) == Fee(s)
    requires var u := s.calls[k].user;
             Fee(s) > 0 ==> after.books.wallets == b.books.wallets[u := b.books.wallets[u] - Fee(s)]
    ensures Charges(s, after, picked, k + 1)
  {
    if Fee(s) > 0 {
      forall u | u in s.books.wallets
        ensures u in after.books.wallets
        ensures after.books.wallets[u] == s.books.wallets[u] - Fee(s) * TallyOf(s.calls, picked, u, k + 1)
      {
        var n := TallyOf(s.calls, picked, u, k);
        assert Fee(s) * (n + 1) == Fee(s) * n + Fee(s);
      }
    }
  }

  /** The k-th call goes through if it is picked, and does nothing otherwise. */
  lemma SeatNext(s: Race, b: Race, c: Race, picked: seq<bool>, counted: seq<bool>, k: nat) returns (turns: seq<Turn>)
    requires Possible(s, picked) && |counted| == |picked| && 0 < k <= |picked|
    requires Cleared(s, b, picked, |picked|) && Settled(b, c, picked, counted, k - 1) && Charges(b, c, picked, k - 1)
    ensures Settled(b, Schedule(c, turns), picked, counted, k) && Charges(b, Schedule(c, turns), picked, k)
  {
    if picked[k - 1] {
      assert Eligible(s, k - 1);
      CanStillPay(b, c, picked, k - 1);
      turns := GoesThrough(c, k - 1, counted[k - 1]);
      OneMoreCharge(b, c, Schedule(c, turns), picked, k - 1);
    } else {
      turns := [];
    }
  }

  lemma NoneSeated(s: Race, picked: seq<bool>, counted: seq<bool>)
    requires |picked| == |counted| == |s.calls| == |s.phases|
    ensures Settled(s, s, picked, counted, 0) && Charges(s, s, picked, 0)
  {
  }

  lemma {:induction false} SeatAll(s: Race, b: Race, picked: seq<bool>, counted: seq<bool>, k: nat)
    returns (turns: seq<Turn>)
    requires Possible(s, picked) && |counted| == |picked| && k <= |picked| && Cleared(s, b, picked, |picked|)
    ensures Settled(b, Schedule(b, turns), picked, counted, k) && Charges(b, Schedule(b, turns), picked, k)
    decreases k
  {
    if k == 0 {
      turns := [];
      NoneSeated(b, picked, counted);
    } else {
      var before := SeatAll(s, b, picked, counted, k - 1);
      var last := SeatNext(s, b, Schedule(b, before), picked, counted, k);
      turns := before + last;
      ScheduleThen(b, before, last);
    }
  }

  predicate EndsAs(after: Race, picked: seq<bool>, counted: seq<bool>) {
    Marks(after.phases, HasRow) == picked && Marks(after.phases, IsCounted) == counted
  }

  ghost predicate CanEndAs(s: Race, picked: seq<bool>, counted: seq<bool>) {
    exists turns :: EndsAs(Schedule(s, turns), picked, counted)
  }

  lemma ReachesEnd(s: Race, picked: seq<bool>, counted: seq<bool>) returns (turns: seq<Turn>)
    requires Fresh(s) && Possible(s, picked) && Within(counted, picked)
    ensures EndsAs(Schedule(s, turns), picked, counted)
  {
    var checks := CheckAll(s, picked, |picked|);
    var b := Schedule(s, checks);
    var writes := SeatAll(s, b, picked, counted, |picked|);
    turns := checks + writes;
    ScheduleThen(s, checks, writes);
    SettledEnds(s, b, Schedule(b, writes), picked, counted);
  }

  lemma SettledEnds(s: Race, b: Race, after: Race, picked: seq<bool>, counted: seq<bool>)
    requires |picked| == |s.calls| && Within(counted, picked)
    requires Cleared(s, b, picked, |picked|) && Settled(b, after, picked, counted, |picked|)
    ensures EndsAs(after, picked, counted)
  {
  }

  /**
   Exactly which calls can end up with a row, and which of those counted: any that pass the checks at the
   start and whose users can pay for all of them. Room is no limit, and neither is having a row already.
   */
  lemma OutcomeIff(s: Race, picked: seq<bool>, counted: seq<bool>)
    requires Fresh(s)
    ensures CanEndAs(s, picked, counted) <==> Possible(s, picked) && Within(counted, picked)
  {
    if turns :| EndsAs(Schedule(s, turns), picked, counted) {
      FreshSince(s);
      ScheduleKeepsSince(s, s, turns);
      EndIsPossible(s, Schedule(s, turns));
    }
    if Possible(s, picked) && Within(counted, picked) {
      var turns := ReachesEnd(s, picked, counted);
    }
  }

  // ---------- how many rows one user can get ----------

  /** How many calls of user u bring what it takes. */
  function Tries(s: Race, u: Id): nat {
    TallyOf(s.calls, Profiles(s.calls), u, |s.calls|)
  }

  function Profiles(calls: seq<Call>): (marks: seq<bool>)
    ensures |marks| == |calls| && forall i :: 0 <= i < |calls| ==> marks[i] == calls[i].hasGameProfile
  {
    seq(|calls|, i requires 0 <= i < |calls| => calls[i].hasGameProfile)
  }

  lemma {:induction false} SomebodyMarked(calls: seq<Call>, marks: seq<bool>, u: Id, k: nat) returns (i: nat)
    requires k <= |marks| && k <= |calls| && TallyOf(calls, marks, u, k) > 0
    ensures i < k && marks[i] && calls[i].user == u
  {
    if marks[k - 1] && calls[k - 1].user == u {
      i := k - 1;
    } else {
      i := SomebodyMarked(calls, marks, u, k - 1);
    }
  }

  /** Marks n of the calls of user u that are marked already, and nobody else's. */
  lemma {:induction false} MarkSome(calls: seq<Call>, marks: seq<bool>, u: Id, n: nat, k: nat)
    returns (picked: seq<bool>)
    requires k <= |marks| == |calls| && n <= TallyOf(calls, marks, u, k)
    ensures Within(picked, marks) && TallyOf(calls, picked, u, k) == n
    ensures forall i :: 0 <= i < |picked| && picked[i] ==> i < k && calls[i].user == u
  {
    if k == 0 {
      picked := seq(|marks|, _ => false);
    } else if marks[k - 1] && calls[k - 1].user == u && n > 0 {
      var fewer := MarkSome(calls, marks, u, n - 1, k - 1);
      picked := fewer[k - 1 := true];
      TallyUpdate(calls, fewer, k - 1, true, u, k - 1);
    } else {
      picked := MarkSome(calls, marks, u, n, k - 1);
    }
  }

  ghost predicate CanGainRows(s: Race, u: Id, n: nat) {
    exists turns :: Participants(Schedule(s, turns), u) == Participants(s, u) + n
  }

  lemma RowsGained(s: Race, turns: seq<Turn>, u: Id)
    requires Fresh(s)
    ensures var after := Schedule(s, turns);
            && |after.phases| == |after.calls| && after.calls == s.calls
            && Participants(after, u) == Participants(s, u) + RowsBy(after, u)
            && Possible(s, Marks(after.phases, HasRow))
            && Within(Marks(after.phases, IsCounted), Marks(after.phases, HasRow))
            && after.entry.tournament.currentParticipants ==
                 s.entry.tournament.currentParticipants + CountedCalls(after)
  {
    FreshSince(s);
    ScheduleKeepsSince(s, s, turns);
    EndIsPossible(s, Schedule(s, turns));
    assert UserSince(s, Schedule(s, turns), u);
  }

  predicate MayGain(s: Race, u: Id, n: nat) {
    n == 0 || (Admits(s) && u !in s.entry.participants && n <= Tries(s, u) && CanAfford(s, u, n))
  }

  lemma GainsAtMost(s: Race, turns: seq<Turn>, u: Id)
    requires Fresh(s)
    ensures |Schedule(s, turns).phases| == |Schedule(s, turns).calls|
    ensures MayGain(s, u, RowsBy(Schedule(s, turns), u))
  {
    RowsGained(s, turns, u);
    var rows := Marks(Schedule(s, turns).phases, HasRow);
    if RowsBy(Schedule(s, turns), u) > 0 {
      var i := SomebodyMarked(s.calls, rows, u, |s.calls|);
      assert Eligible(s, i);
      TallyWithin(s.calls, rows, Profiles(s.calls), u, |s.calls|, |s.calls|);
    }
  }

  lemma Gains(s: Race, u: Id, n: nat) returns (turns: seq<Turn>)
    requires Fresh(s) && MayGain(s, u, n)
    ensures Participants(Schedule(s, turns), u) == Participants(s, u) + n
  {
    var picked := MarkSome(s.calls, Profiles(s.calls), u, n, |s.calls|);
    if n > 0 {
      assert Possible(s, picked);
      turns := ReachesEnd(s, picked, picked);
      RowsGained(s, turns, u);
    } else {
      turns := [];
    }
  }

  /**
   Exactly how many rows one user can gain in a tournament that has room and not that user: any number up
   to the calls with a game profile, as far as the balance covers the fees. Two is a double registration.
   */
  lemma RowsOfUserIff(s: Race, u: Id, n: nat)
    requires Fresh(s)
    ensures CanGainRows(s, u, n) <==> MayGain(s, u, n)
  {
    if turns :| Participants(Schedule(s, turns), u) == Participants(s, u) + n {
      RowsGained(s, turns, u);
      GainsAtMost(s, turns, u);
    }
    if MayGain(s, u, n) {
      var turns := Gains(s, u, n);
    }
  }

  // ---------- how full a tournament can get ----------

  ghost predicate CanOverfill(s: Race) {
    exists turns :: Overfull(Schedule(s, turns))
  }

  /** More participants counted than there is room for, so that the record can no longer be loaded. */
  predicate Overfull(s: Race) {
    s.entry.tournament.currentParticipants > s.entry.tournament.maxParticipants
  }

  ghost predicate TooMany(s: Race, picked: seq<bool>) {
    && Possible(s, picked)
    && Tally(picked, |picked|) > s.entry.tournament.maxParticipants - s.entry.tournament.currentParticipants
  }

  lemma CapacityStays(s: Race, turns: seq<Turn>)
    requires Fresh(s)
    ensures Schedule(s, turns).entry.tournament.maxParticipants == s.entry.tournament.maxParticipants
  {
    FreshSince(s);
    ScheduleKeepsSince(s, s, turns);
  }

  /** A tournament can be overfilled exactly when calls that can get a row together are more than it has room for. */
  lemma OverfillIff(s: Race)
    requires Fresh(s)
    ensures CanOverfill(s) <==> exists picked :: TooMany(s, picked)
  {
    if turns :| Overfull(Schedule(s, turns)) {
      RowsGained(s, turns, 0);
      CapacityStays(s, turns);
      var after := Schedule(s, turns);
      var rows := Marks(after.phases, HasRow);
      TallyWithin(s.calls, Marks(after.phases, IsCounted), rows, 0, |s.calls|, |s.calls|);
      assert TooMany(s, rows);
    }
    if picked :| TooMany(s, picked) {
      var turns := ReachesEnd(s, picked, picked);
      RowsGained(s, turns, 0);
      CapacityStays(s, turns);
      assert Overfull(Schedule(s, turns));
    }
  }

  function EligibleCalls(s: Race): (marks: seq<bool>)
    ensures |marks| == |s.calls| && forall i :: 0 <= i < |s.calls| ==> marks[i] == Eligible(s, i)
  {
    seq(|s.calls|, i requires 0 <= i < |s.calls| => Eligible(s, i))
  }

  /** Without a fee: exactly when more calls pass the checks at the start than there is room for. */
  lemma FreeOverfillIff(s: Race)
    requires Fresh(s) && Fee(s) <= 0
    ensures CanOverfill(s) <==>
            Tally(EligibleCalls(s), |s.calls|) >
            s.entry.tournament.maxParticipants - s.entry.tournament.currentParticipants
  {
    OverfillIff(s);
    if picked :| TooMany(s, picked) {
      TallyWithin(s.calls, picked, EligibleCalls(s), 0, |s.calls|, |s.calls|);
    }
    assert Possible(s, EligibleCalls(s));
    assert TooMany(s, EligibleCalls(s)) <==>
           Tally(EligibleCalls(s), |s.calls|) >
           s.entry.tournament.maxParticipants - s.entry.tournament.currentParticipants;
  }
}
