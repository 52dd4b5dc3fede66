/**
 Any number of callers race for one key, each inside a transaction of its own or without one. The
 operations act on each row alone, so one row and the callers' history are all there is to follow.
 */
module IdempotencyLaws {
  import opened Common
  import opened Idempotency

  /** What became of an attempt that was told it is new: still open, standing for good, or rolled back. */
  datatype Fate = Open(txn: Id) | Standing | Undone

  datatype Mark = Unmarked | MarkOpen(markTxn: Id) | Marked

  datatype Win = Win(fate: Fate, mark: Mark)

  /** A row with all the wins its key ever granted, in order. */
  datatype History = History(row: Row, wins: seq<Win>)

  datatype Event =
    | Check(txn: Option<Id>)
    | SetOutcome(author: nat, txn: Option<Id>, completed: bool, code: Option<int>, body: Option<Body>)
    | End(ending: Id, commits: bool)

  function FateAfter(fate: Fate, txn: Id, commits: bool): Fate {
    if fate == Open(txn) then (if commits then Standing else Undone) else fate
  }

  function MarkAfter(mark: Mark, txn: Id, commits: bool): Mark {
    if mark == MarkOpen(txn) then (if commits then Marked else Unmarked) else mark
  }

  function WinsAfter(wins: seq<Win>, txn: Id, commits: bool): (r: seq<Win>)
    ensures |r| == |wins|
  {
    seq(|wins|, i requires 0 <= i < |wins| =>
      Win(FateAfter(wins[i].fate, txn, commits), MarkAfter(wins[i].mark, txn, commits)))
  }

  function Granted(wins: seq<Win>, txn: Option<Id>, reply: Reply): seq<Win> {
    if reply == NewRequest then wins + [Win(if txn.Some? then Open(txn.value) else Standing, Unmarked)] else wins
  }

  /** The attempt's record of its own mark, once the update went through. */
  function Noted(h: History, author: nat, txn: Option<Id>): seq<Win> {
    if author < |h.wins| && !Waits(h.row, txn) && Seen(h.row, txn).Some?
    then h.wins[author := h.wins[author].(mark := if txn.Some? then MarkOpen(txn.value) else Marked)]
    else h.wins
  }

  function Step(h: History, e: Event): History {
    match e
    case Check(txn) =>
      var (row, reply) := CheckRow(h.row, txn);
      History(row, Granted(h.wins, txn, reply))
    case SetOutcome(author, txn, completed, code, body) =>
      History(MarkRow(h.row, txn, if completed then Completed else Status.Failed, code, body), Noted(h, author, txn))
    case End(txn, commits) =>
      History(EndRow(h.row, txn, commits), WinsAfter(h.wins, txn, commits))
  }

  function Run(h: History, events: seq<Event>): History
    decreases |events|
  {
    if events == [] then h else Run(Step(h, events[0]), events[1..])
  }

  // ---------- at most one win ----------

  /** A win that has not been rolled back is backed by the row. */
  predicate Backed(h: History) {
    && (h.row.staged.Some? ==> h.row.holder.Some?)
    && forall i :: 0 <= i < |h.wins| ==>
         match h.wins[i].fate
         case Open(txn) => h.row.holder == Some(txn) && h.row.staged.Some? && h.row.committed.None?
         case Standing => h.row.committed.Some?
         case Undone => true
  }

  predicate OneWinner(h: History) {
    forall i, j :: 0 <= i < j < |h.wins| ==> h.wins[i].fate == Undone || h.wins[j].fate == Undone
  }

  lemma StepKeepsOneWinner(h: History, e: Event)
    requires Backed(h) && OneWinner(h)
    ensures Backed(Step(h, e)) && OneWinner(Step(h, e))
  {
  }

  lemma {:induction false} RunKeepsOneWinner(h: History, events: seq<Event>)
    requires Backed(h) && OneWinner(h)
    ensures Backed(Run(h, events)) && OneWinner(Run(h, events))
    decreases |events|
  {
    if events != [] {
      StepKeepsOneWinner(h, events[0]);
      RunKeepsOneWinner(Step(h, events[0]), events[1..]);
    }
  }

  function Count(wins: seq<Win>): nat {
    if wins == [] then 0 else Count(wins[..|wins| - 1]) + if wins[|wins| - 1].fate != Undone then 1 else 0
  }

  lemma {:induction false} CountOfOne(wins: seq<Win>)
    requires forall i, j :: 0 <= i < j < |wins| ==> wins[i].fate == Undone || wins[j].fate == Undone
    ensures Count(wins) <= 1
    ensures Count(wins) == 0 <==> forall i :: 0 <= i < |wins| ==> wins[i].fate == Undone
  {
    if wins != [] {
      CountOfOne(wins[..|wins| - 1]);
    }
  }

  /**
   Whatever the callers do, and in whatever order their transactions end: at most one of all the
   attempts that were told they are new is ever left that is not rolled back. Marks play no part in it.
   */
  lemma AtMostOneWin(row: Row, events: seq<Event>)
    requires row.staged.None?
    ensures Count(Run(History(row, []), events).wins) <= 1
  {
    RunKeepsOneWinner(History(row, []), events);
    CountOfOne(Run(History(row, []), events).wins);
  }

  /**
   In every history: when the transaction of an open win rolls back, the row is gone, and the next check,
   by anybody and in any transaction, wins the key.
   */
  lemma RollbackFreesTheKey(h: History, i: nat, next: Option<Id>)
    requires Backed(h) && i < |h.wins| && h.wins[i].fate.Open?
    ensures var after := Step(h, End(h.wins[i].fate.txn, false));
            after.row == NO_ROW && after.wins[i].fate == Undone && CheckRow(after.row, next).1 == NewRequest
  {
  }

  // ---------- the stored response ----------

  /** Only an attempt whose win is not undone records an outcome, and not twice. */
  predicate Disciplined(h: History, e: Event) {
    e.SetOutcome? ==> e.author < |h.wins| && h.wins[e.author].fate != Undone && h.wins[e.author].mark == Unmarked
  }

  ghost predicate DisciplinedRun(h: History, events: seq<Event>)
    decreases |events|
  {
    events == [] || (Disciplined(h, events[0]) && DisciplinedRun(Step(h, events[0]), events[1..]))
  }

  predicate HasFinal(record: Option<Record>) {
    record.Some? && IsFinal(record.value)
  }

  predicate Survives(h: History, i: nat) {
    i < |h.wins| && h.wins[i].fate != Undone
  }

  /** The outcome written in the open transaction is attempt i's. */
  predicate OwnsStaged(h: History, i: nat) {
    Survives(h, i) && h.wins[i].mark.MarkOpen? && h.row.holder == Some(h.wins[i].mark.markTxn)
  }

  /** What a surviving attempt noted about its mark is what the row holds. */
  predicate MarkAgrees(h: History, i: nat)
    requires i < |h.wins|
  {
    h.wins[i].fate != Undone ==>
      && (HasFinal(h.row.committed) ==> h.wins[i].mark == Marked)
      && (h.wins[i].mark.MarkOpen? ==> h.row.holder == Some(h.wins[i].mark.markTxn) && HasFinal(h.row.staged))
  }

  /** Every outcome in the row was recorded by the surviving winner. */
  ghost predicate OutcomeIsOwned(h: History) {
    && (h.row.staged.Some? && h.row.committed.Some? ==> IsFinal(h.row.staged.value))
    && (HasFinal(h.row.staged) ==> exists i :: OwnsStaged(h, i))
    && forall i :: 0 <= i < |h.wins| ==> MarkAgrees(h, i)
  }

  ghost predicate Ordered(h: History) {
    Backed(h) && OneWinner(h) && OutcomeIsOwned(h)
  }

  lemma StepKeepsOwned(h: History, e: Event)
    requires Ordered(h) && Disciplined(h, e)
    ensures OutcomeIsOwned(Step(h, e))
  {
    var after := Step(h, e);
    forall i | 0 <= i < |after.wins|
      ensures MarkAgrees(after, i)
    {
      StepKeepsMark(h, e, i);
    }
    if HasFinal(after.row.staged) {
      if e.SetOutcome? && after.row != h.row {
        assert OwnsStaged(after, e.author);
      } else {
        var i :| OwnsStaged(h, i);
        assert OwnsStaged(after, i);
      }
    }
  }

  lemma StepKeepsMark(h: History, e: Event, i: nat)
    requires Ordered(h) && Disciplined(h, e) && i < |Step(h, e).wins|
    ensures MarkAgrees(Step(h, e), i)
  {
    if i < |h.wins| {
      assert MarkAgrees(h, i);
    }
    if HasFinal(h.row.staged) {
      var owner :| OwnsStaged(h, owner);
      assert MarkAgrees(h, owner);
      assert owner == i || i >= |h.wins| || h.wins[i].fate == Undone;
    }
    if e.SetOutcome? {
      assert MarkAgrees(h, e.author);
      assert e.author == i || h.wins[i].fate == Undone;
    }
  }

  lemma SurvivorIsMarked(h: History)
    requires Ordered(h) && HasFinal(h.row.committed)
    ensures forall i: nat :: Survives(h, i) ==> h.wins[i].mark == Marked
  {
    forall i: nat | Survives(h, i)
      ensures h.wins[i].mark == Marked
    {
      assert MarkAgrees(h, i);
    }
  }

  /** While an outcome is committed, nothing else is staged, so every check sees it. */
  lemma FinalIsSeen(h: History, txn: Option<Id>)
    requires Ordered(h) && HasFinal(h.row.committed)
    ensures h.row.staged.None?
    ensures CheckRow(h.row, txn).1 == if Waits(h.row, txn) then Blocked else ReplyFor(h.row.committed.value)
  {
    SurvivorIsMarked(h);
    assert forall i: nat :: !OwnsStaged(h, i);
  }

  lemma StepKeepsFinal(h: History, e: Event)
    requires Ordered(h) && Disciplined(h, e) && HasFinal(h.row.committed)
    ensures Step(h, e).row.committed == h.row.committed
  {
    FinalIsSeen(h, None);
    SurvivorIsMarked(h);
  }

  lemma {:induction false} RunKeepsOrder(h: History, events: seq<Event>)
    requires Ordered(h) && DisciplinedRun(h, events)
    ensures Ordered(Run(h, events))
    ensures HasFinal(h.row.committed) ==> Run(h, events).row.committed == h.row.committed
    decreases |events|
  {
    if events != [] {
      StepKeepsOneWinner(h, events[0]);
      StepKeepsOwned(h, events[0]);
      if HasFinal(h.row.committed) {
        StepKeepsFinal(h, events[0]);
      }
      RunKeepsOrder(Step(h, events[0]), events[1..]);
    }
  }

  /**
   As long as only the winner records the outcome: once an outcome is committed it never changes, and
   every check from then on, by anybody and in any transaction, either waits for the lock or is answered
   with exactly that stored response.
   */
  lemma EveryLaterCheckReplays(row: Row, before: seq<Event>, later: seq<Event>, txn: Option<Id>)
    requires row.staged.None?
    requires DisciplinedRun(History(row, []), before)
    requires DisciplinedRun(Run(History(row, []), before), later)
    requires HasFinal(Run(History(row, []), before).row.committed)
    ensures var h := Run(History(row, []), before);
            var h' := Run(h, later);
            && h'.row.committed == h.row.committed
            && CheckRow(h'.row, txn).1 == if Waits(h'.row, txn) then Blocked else ReplyFor(h.row.committed.value)
  {
    var h := Run(History(row, []), before);
    RunKeepsOrder(History(row, []), before);
    RunKeepsOrder(h, later);
    FinalIsSeen(Run(h, later), txn);
  }

  /** The response the winner stores is the response everybody gets, and a rolled-back one leaves no trace. */
  lemma MarkRoundTrip(row: Row, txn: Id, other: Option<Id>, code: int, body: Id)
    requires !Waits(row, Some(txn)) && Seen(row, Some(txn)).Some?
    ensures var marked := MarkRow(row, Some(txn), Completed, Some(code), Some(Stored(body)));
            && CheckRow(EndRow(marked, txn, true), other).1 == Replay(Some(code), Some(Stored(body)))
            && EndRow(marked, txn, false) == Row(row.committed, None, None)
            && EndRow(EndRow(marked, txn, true), txn, false) == EndRow(marked, txn, true)
  {
  }

  /** A stored failure is replayed as stored, and with the defaults for what it lacks. */
  lemma FailureRoundTrip(row: Row, code: Option<int>, body: Option<Id>, other: Option<Id>)
    requires row.holder.None? && row.staged.None? && row.committed == Some(NEW_RECORD)
    ensures var stored := if body.Some? then Some(Stored(body.value)) else None;
            var marked := MarkRow(row, None, Status.Failed, code, stored);
            CheckRow(marked, other).1 ==
            Replay(Some(if code.Some? && code.value != 0 then code.value else 500),
                   Some(if body.Some? then Stored(body.value) else PreviousAttemptFailed))
  {
  }

  // ---------- what a check is answered ----------

  /**
   The four answers tell apart what the check finds: a lock in other hands, nothing, a record still being
   worked on, or an outcome. Only an outcome is replayed.
   */
  lemma AnswerTellsIff(row: Row, txn: Option<Id>)
    ensures var (reply, held) := (CheckRow(row, txn).1, row.holder.Some? && row.holder != txn);
            && (reply == Blocked <==> held)
            && (reply == NewRequest <==> !held && Seen(row, txn).None?)
            && (reply == Rejected <==>
                !held && Seen(row, txn).Some? && Seen(row, txn).value.status in {Pending, Processing})
            && (reply.Replay? <==> !held && HasFinal(Seen(row, txn)))
  {
  }

  /** A new request leaves the key PENDING for its own transaction, or for everybody if it has none. */
  lemma NewIsPending(row: Row, txn: Option<Id>, other: Option<Id>)
    requires CheckRow(row, txn).1 == NewRequest
    ensures var after := CheckRow(row, txn).0;
            && CheckRow(after, txn).1 == Rejected
            && (txn.Some? && other != txn ==> CheckRow(after, other).1 == Blocked)
            && (txn.None? ==> CheckRow(after, other).1 == Rejected)
  {
  }

  /** Any other answer leaves both records as they are, and at most takes the lock. */
  lemma CheckKeepsRecords(row: Row, txn: Option<Id>)
    requires CheckRow(row, txn).1 != NewRequest
    ensures var (after, reply) := CheckRow(row, txn);
            && after.committed == row.committed && after.staged == row.staged
            && after.holder == if txn.Some? && reply != Blocked then txn else row.holder
  {
  }

  /**
   An outcome is recorded for exactly those who see a record they need not wait for: with the status, and with
   the code and body where they are given. Outside a transaction everybody sees it at once.
   */
  lemma MarkIff(row: Row, txn: Option<Id>, status: Status, code: Option<int>, body: Option<Body>)
    requires row.staged.Some? ==> row.holder.Some?
    ensures var (after, seen) := (MarkRow(row, txn, status, code, body), Seen(row, txn));
            if (row.holder.Some? && row.holder != txn) || seen.None? then after == row
            else
              && Seen(after, txn).Some? && Seen(after, txn).value.status == status
              && (code.Some? ==> Seen(after, txn).value.code == code)
              && (code.None? ==> Seen(after, txn).value.code == seen.value.code)
              && (body.Some? ==> Seen(after, txn).value.body == body)
              && (body.None? ==> Seen(after, txn).value.body == seen.value.body)
              && (txn.Some? ==> after.holder == txn && after.committed == row.committed)
              && (txn.None? ==> after.holder.None? && after.committed == Seen(after, txn))
  {
  }

  /** The end of a transaction that does not hold the row's lock means nothing to the row. */
  lemma OnlyHolderEnds(row: Row, txn: Id, commits: bool)
    ensures EndRow(row, txn, commits) != row ==> row.holder == Some(txn)
    ensures row.holder == Some(txn) ==>
              var after := EndRow(row, txn, commits);
              && after.holder.None? && after.staged.None?
              && after.committed == (if commits then Seen(row, Some(txn)) else row.committed)
  {
  }

  predicate NothingRecorded(row: Row) {
    !HasFinal(row.committed) && !HasFinal(row.staged)
  }

  /** Event i of the run records an outcome, and the row is not the same afterwards. */
  ghost predicate RecordedAt(h: History, events: seq<Event>, i: nat) {
    i < |events| && events[i].SetOutcome? && Step(Run(h, events[..i]), events[i]).row != Run(h, events[..i]).row
  }

  lemma StepRecordsNothing(h: History, e: Event)
    requires NothingRecorded(h.row) && (e.SetOutcome? ==> Step(h, e).row == h.row)
    ensures NothingRecorded(Step(h, e).row)
  {
  }

  lemma {:induction false} RunRecordsNothing(h: History, events: seq<Event>)
    requires NothingRecorded(h.row) && !exists i :: RecordedAt(h, events, i)
    ensures NothingRecorded(Run(h, events).row)
    decreases |events|
  {
    if events != [] {
      var next := Step(h, events[0]);
      assert events[..0] == [] && !RecordedAt(h, events, 0);
      StepRecordsNothing(h, events[0]);
      forall i: nat
        ensures !RecordedAt(next, events[1..], i)
      {
        if i + 1 < |events| {
          RunOfFirst(h, events, i + 1);
          assert !RecordedAt(h, events, i + 1);
        }
      }
      RunRecordsNothing(next, events[1..]);
    }
  }

  /**
   No response is invented: from a row with nothing recorded, on every run and for every caller, a check
   that is answered with a replay comes after a step of the run that recorded an outcome.
   */
  lemma ReplayNeedsOutcome(row: Row, wins: seq<Win>, events: seq<Event>, txn: Option<Id>)
    requires NothingRecorded(row) && CheckRow(Run(History(row, wins), events).row, txn).1.Replay?
    ensures exists i :: RecordedAt(History(row, wins), events, i)
  {
    if !exists i :: RecordedAt(History(row, wins), events, i) {
      RunRecordsNothing(History(row, wins), events);
      AnswerTellsIff(Run(History(row, wins), events).row, txn);
    }
  }

  // ---------- when a stored outcome changes ----------

  /**
   The steps that replace a committed record by another: an update outside any transaction that does not
   wait, and the commit of whoever has staged a different record.
   */
  predicate Overwrites(h: History, e: Event) {
    && h.row.committed.Some?
    && match e
       case Check(_) => false
       case SetOutcome(_, txn, completed, code, body) =>
         && txn.None? && h.row.holder.None?
         && var status := if completed then Completed else Status.Failed;
            WithOutcome(h.row.committed.value, status, code, body) != h.row.committed.value
       case End(txn, commits) =>
         commits && h.row.holder == Some(txn) && h.row.staged.Some? && h.row.staged != h.row.committed
  }

  /** A committed outcome changes in exactly these steps, whoever makes them and however they are ordered. */
  lemma OutcomeChangesIff(h: History, e: Event)
    requires HasFinal(h.row.committed)
    ensures Step(h, e).row.committed != h.row.committed <==> Overwrites(h, e)
  {
  }

  ghost predicate OverwrittenAt(h: History, events: seq<Event>, i: nat) {
    i < |events| && Overwrites(Run(h, events[..i]), events[i])
  }

  ghost predicate ChangedAt(h: History, events: seq<Event>, n: nat) {
    n <= |events| && Run(h, events[..n]).row.committed != h.row.committed
  }

  lemma RunOfFirst(h: History, events: seq<Event>, n: nat)
    requires 0 < n <= |events|
    ensures Run(h, events[..n]) == Run(Step(h, events[0]), events[1..][..n - 1])
  {
    assert events[..n][1..] == events[1..][..n - 1];
  }

  /** A step that leaves the outcome alone passes the question on to the rest of the run. */
  lemma LaterOverwrites(h: History, events: seq<Event>, i: nat)
    requires 0 < i
    ensures OverwrittenAt(h, events, i) <==> events != [] && OverwrittenAt(Step(h, events[0]), events[1..], i - 1)
  {
    if i < |events| {
      RunOfFirst(h, events, i);
    }
  }

  lemma LaterChanges(h: History, events: seq<Event>, n: nat)
    requires 0 < n && events != [] && Step(h, events[0]).row.committed == h.row.committed
    ensures ChangedAt(h, events, n) <==> ChangedAt(Step(h, events[0]), events[1..], n - 1)
  {
    if n <= |events| {
      RunOfFirst(h, events, n);
    }
  }

  /**
   The stored response is kept at every point of a run, by any callers in any order, exactly when no
   step of the run overwrites it.
   */
  lemma {:induction false} KeptUnlessOverwritten(h: History, events: seq<Event>)
    requires HasFinal(h.row.committed)
    ensures (exists n :: ChangedAt(h, events, n)) <==> (exists i :: OverwrittenAt(h, events, i))
    decreases |events|
  {
    assert events[..0] == [];
    if events != [] {
      var next := Step(h, events[0]);
      OutcomeChangesIff(h, events[0]);
      if Overwrites(h, events[0]) {
        RunOfFirst(h, events, 1);
        assert events[1..][..0] == [];
        assert ChangedAt(h, events, 1) && OverwrittenAt(h, events, 0);
      } else {
        KeptUnlessOverwritten(next, events[1..]);
        OverwriteCarriesOver(h, events);
        ChangeCarriesOver(h, events);
      }
    }
  }

  lemma OverwriteCarriesOver(h: History, events: seq<Event>)
    requires events != [] && !Overwrites(h, events[0])
    ensures (exists i :: OverwrittenAt(h, events, i))
            <==> (exists i :: OverwrittenAt(Step(h, events[0]), events[1..], i))
  {
    assert events[..0] == [];
    if i: nat :| OverwrittenAt(h, events, i) {
      LaterOverwrites(h, events, i);
    }
    if j: nat :| OverwrittenAt(Step(h, events[0]), events[1..], j) {
      LaterOverwrites(h, events, j + 1);
      assert OverwrittenAt(h, events, j + 1);
    }
  }

  lemma ChangeCarriesOver(h: History, events: seq<Event>)
    requires events != [] && Step(h, events[0]).row.committed == h.row.committed
    ensures (exists n :: ChangedAt(h, events, n)) <==> (exists n :: ChangedAt(Step(h, events[0]), events[1..], n))
  {
    assert events[..0] == [];
    if n: nat :| ChangedAt(h, events, n) {
      LaterChanges(h, events, n);
    }
    if n: nat :| ChangedAt(Step(h, events[0]), events[1..], n) {
      LaterChanges(h, events, n + 1);
      assert ChangedAt(h, events, n + 1);
    }
  }

  /**
   Such a step, made by an attempt that no longer counts: the first attempt is rolled back, the second wins and
   stores 200, and then the first one's error handler overwrites that with its own failure.
   */
  lemma LateFailureOverwrites(ok: Id)
    ensures var before := [Check(Some(1)), End(1, false), Check(None),
                           SetOutcome(1, None, true, Some(200), Some(Stored(ok)))];
            var late := SetOutcome(0, None, false, Some(503), None);
            var h := Run(History(NO_ROW, []), before);
            && DisciplinedRun(History(NO_ROW, []), before) && !Disciplined(h, late)
            && CheckRow(h.row, None).1 == Replay(Some(200), Some(Stored(ok)))
            && CheckRow(Step(h, late).row, None).1 == Replay(Some(503), Some(Stored(ok)))
  {
    var before := [Check(Some(1)), End(1, false), Check(None), SetOutcome(1, None, true, Some(200), Some(Stored(ok)))];
    var start := History(NO_ROW, []);
    var a := Step(start, before[0]);
    var b := Step(a, before[1]);
    var c := Step(b, before[2]);
    var d := Step(c, before[3]);
    assert b == History(NO_ROW, [Win(Undone, Unmarked)]);
    assert c.wins == [Win(Undone, Unmarked), Win(Standing, Unmarked)];
    assert before[1..][1..] == before[2..] && before[2..][1..] == before[3..] && before[3..][1..] == [];
    assert Run(c, before[3..]) == Run(d, []) == d && DisciplinedRun(c, before[3..]);
    assert Run(b, before[2..]) == d && DisciplinedRun(b, before[2..]);
    assert Run(a, before[1..]) == d && DisciplinedRun(a, before[1..]);
  }
}
