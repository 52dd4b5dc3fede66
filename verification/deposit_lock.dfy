/**
 ProcessDeposit split into micro-steps: any number of webhook calls run interleaved, each on its own
 copy of the transaction it read, with or without the per-wallet lock of the lock manager.
 */
module DepositLock {
  import opened Common
  import opened Ledger

  datatype Phase =
    | Arrived                 // nothing read yet
    | Rejecting               // about to mark the transaction FAILED
    | Checked                 // all checks passed, about to ask for the lock
    | Inside                  // in the critical section, nothing read
    | HasRead(seen: int)      // the wallet's balance as it was read
    | HasWritten              // the new balance is stored, the status is not
    | Leaving                 // about to release the lock
    | Finished

  /**
   One call of the use case; wallet is known once the transaction has been read. Whether a lock is had
   and a write goes through is decided move by move here, not by the webhook's own flags.
   */
  datatype Call = Call(webhook: Webhook, wallet: Id, phase: Phase)

  datatype Credit = Credit(tx: nat, wallet: Id, amount: int)

  /** credits lists every amount that was added to a balance in memory and then stored. */
  datatype World = World(books: Books, holders: map<Id, nat>, calls: seq<Call>, credits: seq<Credit>, locking: bool)

  function SetPhase(s: World, i: nat, phase: Phase): World
    requires i < |s.calls|
  {
    s.(calls := s.calls[i := s.calls[i].(phase := phase)])
  }

  predicate IsSettled(s: World, tx: nat) {
    tx < |s.books.txs| && (s.books.txs[tx].status == Completed || s.books.txs[tx].status == Status.Failed)
  }

  /** Fetch the transaction and run the checks that come before the lock. */
  function Check(s: World, i: nat): World
    requires i < |s.calls|
  {
    var c := s.calls[i];
    if c.webhook.tx >= |s.books.txs| || IsSettled(s, c.webhook.tx) then SetPhase(s, i, Finished)
    else
      var t := s.books.txs[c.webhook.tx];
      var next := if t.amount != c.webhook.amount || c.webhook.gateway == OtherStatus then Rejecting else Checked;
      s.(calls := s.calls[i := Call(c.webhook, t.wallet, next)])
  }

  function Mark(s: World, tx: nat, status: Status): World {
    if tx < |s.books.txs| then s.(books := s.books.(txs := WithStatus(s.books.txs, tx, status))) else s
  }

  function Acquire(s: World, i: nat): World
    requires i < |s.calls|
  {
    var w := s.calls[i].wallet;
    if !s.locking then SetPhase(s, i, Inside)
    else if w in s.holders then s
    else SetPhase(s, i, Inside).(holders := s.holders[w := i])
  }

  function ReadWallet(s: World, i: nat): World
    requires i < |s.calls|
  {
    var w := s.calls[i].wallet;
    SetPhase(s, i, if w in s.books.wallets then HasRead(s.books.wallets[w]) else Leaving)
  }

  function WriteWallet(s: World, i: nat, seen: int): World
    requires i < |s.calls|
  {
    var c := s.calls[i];
    SetPhase(s, i, HasWritten).(
      books := s.books.(wallets := s.books.wallets[c.wallet := seen + c.webhook.amount]),
      credits := s.credits + [Credit(c.webhook.tx, c.wallet, c.webhook.amount)])
  }

  function Release(s: World, i: nat): World
    requires i < |s.calls|
  {
    SetPhase(s, i, Finished).(holders := if s.locking then s.holders - {s.calls[i].wallet} else s.holders)
  }

  /** Call i makes its next move; fails says that the operation it attempts throws or times out. */
  function Move(s: World, i: nat, fails: bool): World {
    if i >= |s.calls| then s
    else
      match s.calls[i].phase
      case Arrived => if fails then SetPhase(s, i, Finished) else Check(s, i)
      case Rejecting => SetPhase(if fails then s else Mark(s, s.calls[i].webhook.tx, Status.Failed), i, Finished)
      case Checked => if fails then SetPhase(s, i, Finished) else Acquire(s, i)
      case Inside => if fails then SetPhase(s, i, Leaving) else ReadWallet(s, i)
      case HasRead(seen) => if fails then SetPhase(s, i, Leaving) else WriteWallet(s, i, seen)
      case HasWritten => SetPhase(if fails then s else Mark(s, s.calls[i].webhook.tx, Completed), i, Leaving)
      case Leaving => Release(s, i)
      case Finished => s
  }

  datatype Turn = Turn(call: nat, fails: bool)

  function Schedule(s: World, turns: seq<Turn>): World
    decreases |turns|
  {
    if turns == [] then s else Schedule(Move(s, turns[0].call, turns[0].fails), turns[1..])
  }

  /** Where everything starts: all calls have just arrived and no lock is held. */
  predicate Fresh(s: World) {
    && (forall i :: 0 <= i < |s.calls| ==> s.calls[i].phase == Arrived)
    && s.holders == map[]
    && s.credits == []
  }

  // ---------- mutual exclusion and no lost update ----------

  predicate Critical(phase: Phase) {
    phase == Inside || phase.HasRead? || phase == HasWritten || phase == Leaving
  }

  /** A call in its critical section holds its wallet's lock. */
  predicate CallHolds(s: World, i: nat)
    requires i < |s.calls|
  {
    Critical(s.calls[i].phase) ==> s.calls[i].wallet in s.holders && s.holders[s.calls[i].wallet] == i
  }

  predicate CallsHold(s: World) {
    forall i :: 0 <= i < |s.calls| ==> CallHolds(s, i)
  }

  /** The lock of wallet w is only held by a call in its critical section on that wallet. */
  predicate LockIsUsed(s: World, w: Id) {
    w in s.holders ==>
      && s.holders[w] < |s.calls| && Critical(s.calls[s.holders[w]].phase)
      && s.calls[s.holders[w]].wallet == w
  }

  ghost predicate LocksAreUsed(s: World) {
    forall w :: LockIsUsed(s, w)
  }

  ghost predicate Exclusive(s: World) {
    CallsHold(s) && LocksAreUsed(s)
  }

  /** A balance read in the critical section is still the stored one. */
  predicate ReadIsCurrent(s: World, i: nat)
    requires i < |s.calls|
  {
    s.calls[i].phase.HasRead? ==>
      s.calls[i].wallet in s.books.wallets && s.books.wallets[s.calls[i].wallet] == s.calls[i].phase.seen
  }

  predicate ReadsAreCurrent(s: World) {
    forall i :: 0 <= i < |s.calls| ==> ReadIsCurrent(s, i)
  }

  lemma MoveKeepsCallHolds(s: World, i: nat, fails: bool, j: nat)
    requires s.locking && j < |s.calls| && CallHolds(s, j)
    requires i < |s.calls| ==> CallHolds(s, i)
    ensures j < |Move(s, i, fails).calls| == |s.calls| && CallHolds(Move(s, i, fails), j)
  {
  }

  lemma MoveKeepsLockUsed(s: World, i: nat, fails: bool, w: Id)
    requires s.locking && LockIsUsed(s, w)
    requires i < |s.calls| ==> CallHolds(s, i)
    ensures LockIsUsed(Move(s, i, fails), w)
  {
  }

  lemma MoveKeepsCount(s: World, i: nat, fails: bool)
    ensures |Move(s, i, fails).calls| == |s.calls| && Move(s, i, fails).locking == s.locking
  {
  }

  lemma MoveKeepsReadCurrent(s: World, i: nat, fails: bool, j: nat)
    requires s.locking && j < |s.calls| && CallHolds(s, j) && ReadIsCurrent(s, j)
    requires i < |s.calls| ==> CallHolds(s, i)
    ensures j < |Move(s, i, fails).calls| && ReadIsCurrent(Move(s, i, fails), j)
  {
  }

  function Stored(s: World, w: Id): int {
    if w in s.books.wallets then s.books.wallets[w] else 0
  }

  function Sum(credits: seq<Credit>, w: Id): int {
    if credits == [] then 0
    else
      Sum(credits[..|credits| - 1], w)
      + if credits[|credits| - 1].wallet == w then credits[|credits| - 1].amount else 0
  }

  /** The balance is what it was plus every credit written since. */
  lemma MoveAddsCredit(s: World, i: nat, fails: bool, w: Id)
    requires s.locking && (i < |s.calls| ==> ReadIsCurrent(s, i))
    ensures var after := Move(s, i, fails); Stored(after, w) - Sum(after.credits, w) == Stored(s, w) - Sum(s.credits, w)
  {
    if i < |s.calls| && s.calls[i].phase.HasRead? && !fails {
      var c := s.calls[i];
      var added := Credit(c.webhook.tx, c.wallet, c.webhook.amount);
      assert (s.credits + [added])[..|s.credits|] == s.credits;
    }
  }

  lemma {:induction false} ScheduleLosesNothing(s: World, turns: seq<Turn>, w: Id)
    requires s.locking && Exclusive(s) && ReadsAreCurrent(s)
    ensures var after := Schedule(s, turns);
            && Exclusive(after) && ReadsAreCurrent(after)
            && Stored(after, w) - Sum(after.credits, w) == Stored(s, w) - Sum(s.credits, w)
    decreases |turns|
  {
    if turns != [] {
      var turn := turns[0];
      forall j | 0 <= j < |s.calls|
        ensures j < |Move(s, turn.call, turn.fails).calls| == |s.calls| && CallHolds(Move(s, turn.call, turn.fails), j)
      {
        MoveKeepsCallHolds(s, turn.call, turn.fails, j);
      }
      forall j | 0 <= j < |s.calls|
        ensures j < |Move(s, turn.call, turn.fails).calls| && ReadIsCurrent(Move(s, turn.call, turn.fails), j)
      {
        MoveKeepsReadCurrent(s, turn.call, turn.fails, j);
      }
      MoveKeepsCount(s, turn.call, turn.fails);
      forall v
        ensures LockIsUsed(Move(s, turn.call, turn.fails), v)
      {
        assert LockIsUsed(s, v);
        MoveKeepsLockUsed(s, turn.call, turn.fails, v);
      }
      MoveAddsCredit(s, turn.call, turn.fails, w);
      ScheduleLosesNothing(Move(s, turn.call, turn.fails), turns[1..], w);
    }
  }

  /**
   No lost update: with the lock, however many calls run interleaved and wherever they fail, every
   balance is its initial value plus the sum of all credits written to it.
   */
  lemma NoLostUpdate(s: World, turns: seq<Turn>, w: Id)
    requires s.locking && Fresh(s)
    ensures Stored(Schedule(s, turns), w) == Stored(s, w) + Sum(Schedule(s, turns).credits, w)
  {
    ScheduleLosesNothing(s, turns, w);
  }

  /** In no reachable state are two calls inside the critical section of one wallet. */
  lemma OneAtATime(s: World, turns: seq<Turn>, i: nat, j: nat)
    requires s.locking && Fresh(s)
    requires i < |Schedule(s, turns).calls| && j < |Schedule(s, turns).calls|
    requires Critical(Schedule(s, turns).calls[i].phase) && Critical(Schedule(s, turns).calls[j].phase)
    requires Schedule(s, turns).calls[i].wallet == Schedule(s, turns).calls[j].wallet
    ensures i == j
  {
    ScheduleLosesNothing(s, turns, 0);
    assert CallHolds(Schedule(s, turns), i) && CallHolds(Schedule(s, turns), j);
  }

  // ---------- calls that run alone ----------

  /** Call i moves n times in a row. */
  function Often(i: nat, n: nat): seq<Turn> {
    if n == 0 then [] else [Turn(i, false)] + Often(i, n - 1)
  }

  lemma NextTurn(s: World, i: nat, n: nat)
    requires n > 0
    ensures Schedule(s, Often(i, n)) == Schedule(Move(s, i, false), Often(i, n - 1))
  {
    assert Often(i, n)[1..] == Often(i, n - 1);
  }

  function Twice(s: World, i: nat): World {
    Move(Move(s, i, false), i, false)
  }

  function Thrice(s: World, i: nat): World {
    Move(Twice(s, i), i, false)
  }

  lemma {:induction false} FewTurns(s: World, i: nat)
    ensures Schedule(s, Often(i, 1)) == Move(s, i, false)
    ensures Schedule(s, Often(i, 2)) == Twice(s, i)
    ensures Schedule(s, Often(i, 3)) == Thrice(s, i)
  {
    var a, b := Move(s, i, false), Twice(s, i);
    NextTurn(s, i, 1);
    NextTurn(s, i, 2);
    NextTurn(s, i, 3);
    NextTurn(a, i, 1);
    NextTurn(a, i, 2);
    NextTurn(b, i, 1);
  }

  lemma {:induction false} OftenSplit(i: nat, m: nat, n: nat)
    ensures Often(i, m + n) == Often(i, m) + Often(i, n)
  {
    if m > 0 {
      OftenSplit(i, m - 1, n);
    }
  }

  lemma FiveTurns(s: World, i: nat)
    ensures Schedule(s, Often(i, 5)) == Twice(Thrice(s, i), i)
  {
    OftenSplit(i, 3, 2);
    ScheduleThen(s, Often(i, 3), Often(i, 2));
    FewTurns(s, i);
    FewTurns(Thrice(s, i), i);
  }

  /** Schedules compose. */
  lemma {:induction false} ScheduleThen(s: World, first: seq<Turn>, second: seq<Turn>)
    ensures Schedule(s, first + second) == Schedule(Schedule(s, first), second)
    decreases |first|
  {
    if first == [] {
      assert first + second == second;
    } else {
      assert (first + second)[1..] == first[1..] + second;
      ScheduleThen(Move(s, first[0].call, first[0].fails), first[1..], second);
    }
  }

  /** The webhook passes every check against the transaction it names. */
  predicate Accepted(s: World, i: nat) {
    && i < |s.calls|
    && var w := s.calls[i].webhook;
    && w.tx < |s.books.txs| && !IsSettled(s, w.tx)
    && s.books.txs[w.tx].amount == w.amount && w.gateway != OtherStatus
    && s.books.txs[w.tx].wallet in s.books.wallets
  }

  /** A call whose wallet is known adds its amount. */
  function AfterWrite(s: World, i: nat, wallet: Id): World
    requires i < |s.calls| && wallet in s.books.wallets
  {
    var webhook := s.calls[i].webhook;
    s.(books := s.books.(wallets := s.books.wallets[wallet := s.books.wallets[wallet] + webhook.amount]),
       calls := s.calls[i := Call(webhook, wallet, Finished)],
       credits := s.credits + [Credit(webhook.tx, wallet, webhook.amount)])
  }

  /** Three moves while no lock is held take a checked call to its write. */
  lemma ReachesWrite(s: World, i: nat)
    requires s.holders == map[] && i < |s.calls| && s.calls[i].phase == Checked && s.calls[i].wallet in s.books.wallets
    ensures var after := AfterWrite(s, i, s.calls[i].wallet);
            Thrice(s, i) ==
            SetPhase(after, i, HasWritten).(holders := if s.locking then map[s.calls[i].wallet := i] else map[])
  {
  }

  /** Two more store the status and release the lock, without a second look at the status. */
  lemma WholeSection(s: World, i: nat)
    requires s.holders == map[] && i < |s.calls| && s.calls[i].phase == Checked && s.calls[i].wallet in s.books.wallets
    ensures Schedule(s, Often(i, 5)) == Mark(AfterWrite(s, i, s.calls[i].wallet), s.calls[i].webhook.tx, Completed)
  {
    ReachesWrite(s, i);
    FiveTurns(s, i);
    var e := Twice(Thrice(s, i), i);
    assert e.holders == map[];
    assert e.calls == s.calls[i := Call(s.calls[i].webhook, s.calls[i].wallet, Finished)];
  }

  /** A call that runs alone, with its status update failing: four moves, the failure, the release. */
  function Crashing(i: nat): seq<Turn> {
    Often(i, 1) + (Often(i, 3) + ([Turn(i, true)] + Often(i, 1)))
  }

  lemma CrashingMoves(s: World, i: nat)
    ensures Schedule(s, Crashing(i)) == Move(Move(Thrice(Move(s, i, false), i), i, true), i, false)
  {
    var a := Move(s, i, false);
    var d := Thrice(a, i);
    var e := Move(d, i, true);
    ScheduleThen(s, Often(i, 1), Often(i, 3) + ([Turn(i, true)] + Often(i, 1)));
    ScheduleThen(a, Often(i, 3), [Turn(i, true)] + Often(i, 1));
    assert ([Turn(i, true)] + Often(i, 1))[1..] == Often(i, 1);
    assert Schedule(d, [Turn(i, true)] + Often(i, 1)) == Schedule(e, Often(i, 1));
    FewTurns(s, i);
    FewTurns(a, i);
    FewTurns(e, i);
  }

  lemma CrashAndRelease(s: World, i: nat, holders: map<Id, nat>)
    requires i < |s.calls| && holders == if s.locking then map[s.calls[i].wallet := i] else map[]
    ensures Move(Move(SetPhase(s, i, HasWritten).(holders := holders), i, true), i, false) ==
            SetPhase(s, i, Finished).(holders := map[])
  {
    assert holders - {s.calls[i].wallet} == map[];
  }

  lemma CrashedCall(s: World, i: nat)
    requires s.holders == map[] && Accepted(s, i) && s.calls[i].phase == Arrived
    ensures Schedule(s, Crashing(i)) == AfterWrite(s, i, s.books.txs[s.calls[i].webhook.tx].wallet)
  {
    CrashingMoves(s, i);
    var a := Move(s, i, false);
    ReachesWrite(a, i);
    CrashAndRelease(AfterWrite(a, i, a.calls[i].wallet), i, Thrice(a, i).holders);
    assert AfterWrite(a, i, a.calls[i].wallet) == AfterWrite(s, i, a.calls[i].wallet);
  }

  /** Left alone, a call does exactly what the one-step ProcessDeposit does with the lock at hand. */
  lemma SerialCallIsProcessDeposit(s: World, i: nat)
    requires s.holders == map[] && i < |s.calls| && s.calls[i].phase == Arrived
    ensures var after := Schedule(s, Often(i, 6));
            && after.books == DepositProcessed(s.books, s.calls[i].webhook.(acquired := true, recorded := true)).0
            && after.holders == map[] && i < |after.calls| && after.calls[i].phase == Finished
  {
    var a := Check(s, i);
    NextTurn(s, i, 6);
    if a.calls[i].phase == Checked && a.calls[i].wallet in a.books.wallets {
      WholeSection(a, i);
    } else {
      TurnedAway(a, i);
    }
  }

  /** And with a failing status update what the one-step ProcessDeposit does without recording the status. */
  lemma CrashedCallIsUnrecorded(s: World, i: nat)
    requires s.holders == map[] && Accepted(s, i) && s.calls[i].phase == Arrived
    ensures Schedule(s, Crashing(i)).books ==
            DepositProcessed(s.books, s.calls[i].webhook.(acquired := true, recorded := false)).0
  {
    CrashedCall(s, i);
  }

  /** A call that is rejected, or whose wallet is missing, gives up within three moves. */
  lemma TurnedAway(s: World, i: nat)
    requires s.holders == map[] && i < |s.calls|
    requires s.calls[i].phase == Finished || s.calls[i].phase == Rejecting
             || (s.calls[i].phase == Checked && s.calls[i].wallet !in s.books.wallets)
    ensures var after := Schedule(s, Often(i, 5));
            var rejected := s.calls[i].phase == Rejecting;
            && after.books == (if rejected then Mark(s, s.calls[i].webhook.tx, Status.Failed) else s).books
            && after.holders == map[] && i < |after.calls| && after.calls[i].phase == Finished
  {
    FiveTurns(s, i);
    if s.calls[i].phase == Checked {
      NoWallet(s, i);
      StaysFinished(Thrice(s, i), i);
    } else {
      StaysFinished(Move(s, i, false), i);
    }
  }

  lemma StaysFinished(s: World, i: nat)
    requires i < |s.calls| && s.calls[i].phase == Finished
    ensures Move(s, i, false) == s
  {
  }

  lemma NoWallet(s: World, i: nat)
    requires s.holders == map[] && i < |s.calls| && s.calls[i].phase == Checked && s.calls[i].wallet !in s.books.wallets
    ensures Thrice(s, i) == SetPhase(s, i, Finished)
  {
    assert Thrice(s, i).holders == map[];
    assert Thrice(s, i).calls == SetPhase(s, i, Finished).calls;
  }
}
