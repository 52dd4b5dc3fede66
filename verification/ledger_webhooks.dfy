/** Replayed and reordered webhooks, and replayed requests. */
module LedgerWebhooks {
  import opened Common
  import opened Ledger
  import opened LedgerLaws

  // ---------- replay ----------

  function Deliver(s: Books, webhooks: seq<Webhook>): Books
    decreases |webhooks|
  {
    if webhooks == [] then s else Deliver(Step(s, ProcessDeposit(webhooks[0])), webhooks[1..])
  }

  /** The same payload, whatever the lock and the status update did that time. */
  predicate Repeats(w: Webhook, webhooks: seq<Webhook>) {
    forall i :: 0 <= i < |webhooks| ==> webhooks[i].(acquired := w.acquired, recorded := w.recorded) == w
  }

  /** The payload passes every check, so that a delivery with the lock credits the wallet. */
  predicate Creditable(s: Books, w: Webhook) {
    Credits(s, ProcessDeposit(w.(acquired := true)))
  }

  /** The deliveries that credit the wallet: those with the lock, up to the first that also gets its status stored. */
  function Times(webhooks: seq<Webhook>): nat {
    if webhooks == [] then 0
    else if !webhooks[0].acquired then Times(webhooks[1..])
    else if webhooks[0].recorded then 1
    else 1 + Times(webhooks[1..])
  }

  /** What those deliveries add. */
  function Added(webhooks: seq<Webhook>, amount: int): int {
    if webhooks == [] then 0
    else if !webhooks[0].acquired then Added(webhooks[1..], amount)
    else if webhooks[0].recorded then amount
    else amount + Added(webhooks[1..], amount)
  }

  lemma {:induction false} AddedIsTimes(webhooks: seq<Webhook>, amount: int)
    requires amount > 0
    ensures Times(webhooks) == 0 <==> Added(webhooks, amount) == 0
    ensures Times(webhooks) == 1 <==> Added(webhooks, amount) == amount
    ensures Added(webhooks, amount) >= 0
  {
    if webhooks != [] {
      AddedIsTimes(webhooks[1..], amount);
    }
  }

  predicate SomeStored(webhooks: seq<Webhook>) {
    webhooks != [] && ((webhooks[0].acquired && webhooks[0].recorded) || SomeStored(webhooks[1..]))
  }

  predicate SomeRecorded(webhooks: seq<Webhook>) {
    webhooks != [] && (webhooks[0].recorded || SomeRecorded(webhooks[1..]))
  }

  /** The books after a creditable payload was delivered again and again. */
  function Replayed(s: Books, w: Webhook, webhooks: seq<Webhook>): Books
    requires Creditable(s, w)
  {
    var t := s.txs[w.tx];
    Books(s.wallets[t.wallet := s.wallets[t.wallet] + Added(webhooks, t.amount)],
          if SomeStored(webhooks) then WithStatus(s.txs, w.tx, Completed) else s.txs)
  }

  /** Once settled, the payload changes nothing any more. */
  lemma {:induction false} SettledReplay(s: Books, w: Webhook, webhooks: seq<Webhook>)
    requires w.tx < |s.txs| && Settled(s.txs[w.tx].status) && Repeats(w, webhooks)
    ensures Deliver(s, webhooks) == s
    decreases |webhooks|
  {
    if webhooks != [] {
      assert webhooks[0].(acquired := w.acquired, recorded := w.recorded) == w;
      SettledReplay(s, w, webhooks[1..]);
    }
  }

  /** The law of replays: every delivery counts until one gets its status stored. */
  lemma {:induction false} ReplayLaw(s: Books, w: Webhook, webhooks: seq<Webhook>)
    requires Creditable(s, w) && Repeats(w, webhooks)
    ensures Deliver(s, webhooks) == Replayed(s, w, webhooks)
    decreases |webhooks|
  {
    if webhooks == [] {
      assert s.wallets == s.wallets[s.txs[w.tx].wallet := s.wallets[s.txs[w.tx].wallet]];
    } else {
      var first, rest := webhooks[0], webhooks[1..];
      assert first.(acquired := w.acquired, recorded := w.recorded) == w;
      var next := Step(s, ProcessDeposit(first));
      if !first.acquired {
        ReplayLaw(s, w, rest);
      } else if first.recorded {
        SettledReplay(next, w, rest);
      } else {
        ReplayLaw(next, w, rest);
        assert Replayed(next, w, rest).wallets == Replayed(s, w, webhooks).wallets;
      }
    }
  }

  /** A payload that is not creditable is rejected by the first delivery that gets its status stored. */
  lemma {:induction false} RejectedReplay(s: Books, w: Webhook, webhooks: seq<Webhook>)
    requires !Creditable(s, w) && Repeats(w, webhooks)
    ensures Deliver(s, webhooks) == Step(s, ProcessDeposit(w.(recorded := SomeRecorded(webhooks))))
    decreases |webhooks|
  {
    if webhooks != [] {
      var first, rest := webhooks[0], webhooks[1..];
      assert first.(acquired := w.acquired, recorded := w.recorded) == w;
      var next := Step(s, ProcessDeposit(first));
      RejectedReplay(next, w, rest);
    }
  }

  /** All deliveries together did what a single one would have done. */
  predicate LikeOne(s: Books, w: Webhook, webhooks: seq<Webhook>, acquired: bool, recorded: bool) {
    Deliver(s, webhooks) == Step(s, ProcessDeposit(w.(acquired := acquired, recorded := recorded)))
  }

  /**
   Delivering one payload any number of times leaves the books as a single delivery would, exactly when
   the payload is not creditable or at most one delivery credits the wallet: all status updates of
   crediting deliveries but the last failing is what breaks it.
   */
  lemma ReplayIsOnceIff(s: Books, w: Webhook, webhooks: seq<Webhook>)
    requires PositiveAmounts(s) && Repeats(w, webhooks)
    ensures (exists acquired, recorded :: LikeOne(s, w, webhooks, acquired, recorded))
            <==> !Creditable(s, w) || Times(webhooks) <= 1
  {
    if !Creditable(s, w) {
      RejectedReplay(s, w, webhooks);
      assert LikeOne(s, w, webhooks, w.acquired, SomeRecorded(webhooks));
    } else {
      var t := s.txs[w.tx];
      ReplayLaw(s, w, webhooks);
      AddedIsTimes(webhooks, t.amount);
      StoredIsCounted(webhooks);
      assert s.wallets == s.wallets[t.wallet := s.wallets[t.wallet]];
      if Times(webhooks) <= 1 {
        assert LikeOne(s, w, webhooks, Times(webhooks) == 1, SomeStored(webhooks));
      } else {
        forall acquired, recorded
          ensures !LikeOne(s, w, webhooks, acquired, recorded)
        {
          assert Deliver(s, webhooks).wallets[t.wallet] != s.wallets[t.wallet];
        }
      }
    }
  }

  lemma {:induction false} StoredIsCounted(webhooks: seq<Webhook>)
    ensures SomeStored(webhooks) ==> Times(webhooks) >= 1
  {
    if webhooks != [] {
      StoredIsCounted(webhooks[1..]);
    }
  }

  /** With every status update going through, replays are harmless for every payload. */
  lemma {:induction false} RecordedReplaysAreHarmless(webhooks: seq<Webhook>)
    requires forall i :: 0 <= i < |webhooks| ==> webhooks[i].recorded
    ensures Times(webhooks) <= 1
  {
    if webhooks != [] {
      RecordedReplaysAreHarmless(webhooks[1..]);
    }
  }

  /** Once a transaction is settled, a webhook for it changes nothing however long after. */
  lemma LateWebhookChangesNothing(s: Books, events: seq<Event>, w: Webhook)
    requires w.tx < |s.txs| && Settled(s.txs[w.tx].status)
    ensures Step(Run(s, events), ProcessDeposit(w)) == Run(s, events)
  {
    SettledForever(s, events, w.tx);
  }

  // ---------- order ----------

  predicate PassesChecks(t: Transaction, w: Webhook) {
    !Settled(t.status) && t.amount == w.amount && w.gateway != OtherStatus
  }

  /** The status a webhook leaves its transaction in; held says whether the wallet exists. */
  function NewStatus(t: Transaction, w: Webhook, held: bool): Status {
    if Settled(t.status) || !w.recorded then t.status
    else if !PassesChecks(t, w) then Status.Failed
    else if w.acquired && held then Completed
    else t.status
  }

  function Gain(t: Transaction, w: Webhook, held: bool): int {
    if PassesChecks(t, w) && w.acquired && held then t.amount else 0
  }

  function Bump(wallets: map<Id, int>, wallet: Id, amount: int): map<Id, int> {
    if wallet in wallets then wallets[wallet := wallets[wallet] + amount] else wallets
  }

  /** A webhook's effect depends on its own transaction and on nothing else that webhooks change. */
  lemma WebhookEffect(s: Books, w: Webhook)
    ensures var after := Step(s, ProcessDeposit(w));
            if w.tx >= |s.txs| then after == s
            else
              var t := s.txs[w.tx];
              var held := t.wallet in s.wallets;
              && after.txs == WithStatus(s.txs, w.tx, NewStatus(t, w, held))
              && after.wallets == Bump(s.wallets, t.wallet, Gain(t, w, held))
  {
  }

  lemma BumpsCommute(wallets: map<Id, int>, v: Id, a: int, w: Id, b: int)
    ensures Bump(Bump(wallets, v, a), w, b) == Bump(Bump(wallets, w, b), v, a)
    ensures Bump(wallets, v, a).Keys == wallets.Keys
  {
  }

  /** Webhooks for different transactions can change places. */
  lemma WebhooksCommute(s: Books, v: Webhook, w: Webhook)
    requires v.tx != w.tx
    ensures Step(Step(s, ProcessDeposit(v)), ProcessDeposit(w)) == Step(Step(s, ProcessDeposit(w)), ProcessDeposit(v))
  {
    var first, second := Step(s, ProcessDeposit(v)), Step(s, ProcessDeposit(w));
    WebhookEffect(s, v);
    WebhookEffect(s, w);
    WebhookEffect(first, w);
    WebhookEffect(second, v);
    if v.tx < |s.txs| && w.tx < |s.txs| {
      var t, u := s.txs[v.tx], s.txs[w.tx];
      var a, b := Gain(t, v, t.wallet in s.wallets), Gain(u, w, u.wallet in s.wallets);
      BumpsCommute(s.wallets, t.wallet, a, u.wallet, b);
      BumpsCommute(s.wallets, u.wallet, b, t.wallet, a);
      StatusesCommute(s.txs, v.tx, first.txs[v.tx].status, w.tx, second.txs[w.tx].status);
    }
  }

  lemma StatusesCommute(txs: seq<Transaction>, i: nat, one: Status, j: nat, two: Status)
    requires i < |txs| && j < |txs| && i != j
    ensures WithStatus(WithStatus(txs, i, one), j, two) == WithStatus(WithStatus(txs, j, two), i, one)
  {
  }

  ghost predicate DifferentTransactions(webhooks: seq<Webhook>) {
    forall i, j :: 0 <= i < j < |webhooks| ==> webhooks[i].tx != webhooks[j].tx
  }

  /** Any webhook of the list could have come first. */
  lemma {:induction false} CouldComeFirst(s: Books, webhooks: seq<Webhook>, j: nat)
    requires j < |webhooks| && DifferentTransactions(webhooks)
    ensures Deliver(s, webhooks) == Deliver(Step(s, ProcessDeposit(webhooks[j])), Without(webhooks, j))
    decreases j
  {
    var rest := webhooks[1..];
    if j == 0 {
      assert Without(webhooks, 0) == rest;
    } else {
      var next := Step(s, ProcessDeposit(webhooks[0]));
      CouldComeFirst(next, rest, j - 1);
      WebhooksCommute(s, webhooks[0], webhooks[j]);
      var others := Without(webhooks, j);
      assert others[0] == webhooks[0] && others[1..] == Without(rest, j - 1);
    }
  }

  lemma WithoutStaysDifferent(webhooks: seq<Webhook>, j: nat)
    requires j < |webhooks| && DifferentTransactions(webhooks)
    ensures DifferentTransactions(Without(webhooks, j))
  {
  }

  /** Webhooks of distinct transactions give the same balances and statuses in every order. */
  lemma {:induction false} OrderDoesNotMatter(s: Books, v: seq<Webhook>, w: seq<Webhook>)
    requires DifferentTransactions(v) && DifferentTransactions(w) && multiset(v) == multiset(w)
    ensures Deliver(s, v) == Deliver(s, w)
    decreases |v|
  {
    assert |v| == |multiset(v)| == |multiset(w)| == |w|;
    if v != [] {
      assert v[0] in multiset(w);
      var j: nat :| j < |w| && w[j] == v[0];
      CouldComeFirst(s, w, j);
      WithoutRemovesOne(w, j);
      WithoutStaysDifferent(w, j);
      WithoutRemovesOne(v, 0);
      assert Without(v, 0) == v[1..];
      OrderDoesNotMatter(Step(s, ProcessDeposit(v[0])), v[1..], Without(w, j));
    }
  }

  // ---------- replayed requests ----------

  /** The one transaction that a key belongs to is the one that is found by it. */
  lemma FoundByKey(s: Books, id: nat, key: Id)
    requires KeysUnique(s) && id < |s.txs| && s.txs[id].key == Some(key)
    ensures FindByKey(s.txs, key) == Some(id)
  {
  }

  /** After any run a key leads to the same transaction, of which only the status can have changed. */
  lemma KeyLeadsBack(s: Books, events: seq<Event>, id: nat, key: Id)
    requires KeysUnique(s) && id < |s.txs| && s.txs[id].key == Some(key)
    ensures var later := Run(s, events);
            && FindByKey(later.txs, key) == Some(id)
            && later.txs[id] == s.txs[id].(status := later.txs[id].status)
            && forall w :: w in s.wallets ==> w in later.wallets
  {
    RunsKeepKeysUnique(s, events);
    RunsKeepRecord(s, events, id);
    FoundByKey(Run(s, events), id, key);
  }

  lemma FirstDeposit(s: Books, user: Id, amount: int, currency: Id, key: Id, accepts: bool)
    requires KeysUnique(s)
    requires DepositInitialized(s, user, amount, currency, key, accepts).1.Ok?
    ensures var (once, r) := DepositInitialized(s, user, amount, currency, key, accepts);
            && KeysUnique(once) && user in once.wallets && amount > 0 && r.value < |once.txs|
            && once.txs[r.value].key == Some(key) && SameDeposit(once, once.txs[r.value], user, amount, currency)
  {
    StepKeepsKeysUnique(s, InitializeDeposit(user, amount, currency, key, accepts));
  }

  /**
   A deposit request that succeeded is answered with the same transaction exactly while that is pending
   or completed.
   */
  lemma DepositRequestReplays(s: Books, events: seq<Event>, user: Id, amount: int, currency: Id, key: Id,
                              first: bool, again: bool)
    requires KeysUnique(s)
    requires DepositInitialized(s, user, amount, currency, key, first).1.Ok?
    ensures var (once, r) := DepositInitialized(s, user, amount, currency, key, first);
            var later := Run(once, events);
            && r.value < |later.txs|
            && (later.txs[r.value].status == Pending || later.txs[r.value].status == Completed
                <==> DepositInitialized(later, user, amount, currency, key, again) == (later, r))
  {
    var (once, r) := DepositInitialized(s, user, amount, currency, key, first);
    FirstDeposit(s, user, amount, currency, key, first);
    KeyLeadsBack(once, events, r.value, key);
  }

  /** What a request that succeeded leaves behind, whoever has the transaction that it is answered with. */
  lemma FirstWithdrawal(s: Books, user: Id, amount: int, currency: Id, key: Id)
    requires KeysUnique(s)
    requires WithdrawalRequested(s, user, amount, currency, Some(key)).1.Ok?
    ensures var (once, r) := WithdrawalRequested(s, user, amount, currency, Some(key));
            && KeysUnique(once) && user in once.wallets && amount > 0 && r.value < |once.txs|
            && once.txs[r.value].key == Some(key)
            && (InProgress(once.txs[r.value].status) ==>
                  once.txs[r.value].wallet == user && once.txs[r.value].amount == amount)
  {
    StepKeepsKeysUnique(s, RequestWithdrawal(user, amount, currency, Some(key)));
  }

  /** No step puts a transaction back in progress. */
  lemma {:induction false} ProgressEnds(s: Books, events: seq<Event>, id: nat)
    requires id < |s.txs| && id < |Run(s, events).txs| && InProgress(Run(s, events).txs[id].status)
    ensures InProgress(s.txs[id].status)
    decreases |events|
  {
    if events != [] {
      StepKeepsRecords(s, events[0], id);
      ProgressEnds(Step(s, events[0]), events[1..], id);
    }
  }

  /** The answer to a request whose key is taken. */
  lemma SecondWithdrawal(s: Books, id: nat, user: Id, amount: int, currency: Id, key: Id)
    requires FindByKey(s.txs, key) == Some(id) && id < |s.txs| && user in s.wallets && amount > 0
    requires InProgress(s.txs[id].status) ==> s.txs[id].wallet == user && s.txs[id].amount == amount
    ensures WithdrawalRequested(s, user, amount, currency, Some(key)) ==
            (s, if InProgress(s.txs[id].status) || s.wallets[user] >= amount then Ok(id) else Err(BadRequest))
  {
  }

  /**
   A repeated withdrawal request never creates a second withdrawal. It gets the first answer again while
   that is in progress, and later on exactly when the wallet would still cover it.
   */
  lemma WithdrawalRequestReplays(s: Books, events: seq<Event>, user: Id, amount: int, currency: Id, key: Id)
    requires KeysUnique(s)
    requires WithdrawalRequested(s, user, amount, currency, Some(key)).1.Ok?
    ensures var (once, r) := WithdrawalRequested(s, user, amount, currency, Some(key));
            var later := Run(once, events);
            && r.value < |later.txs| && user in later.wallets
            && WithdrawalRequested(later, user, amount, currency, Some(key)) ==
               (later, if InProgress(later.txs[r.value].status) || later.wallets[user] >= amount then r
                 else Err(BadRequest))
  {
    var (once, r) := WithdrawalRequested(s, user, amount, currency, Some(key));
    var later := Run(once, events);
    FirstWithdrawal(s, user, amount, currency, key);
    KeyLeadsBack(once, events, r.value, key);
    if InProgress(later.txs[r.value].status) {
      ProgressEnds(once, events, r.value);
    }
    SecondWithdrawal(later, r.value, user, amount, currency, key);
  }

  // ---------- requests that are answered with another transaction ----------

  /** The transaction is what a request for this kind asked for. */
  predicate AsRequested(t: Transaction, user: Id, kind: Kind, amount: int, currency: Id) {
    t.wallet == user && t.kind == kind && t.amount == amount && t.currency == currency
  }

  /**
   The key belongs to something else than this withdrawal, and nothing stops the request: in progress it
   is of the same user and amount, so that only kind or currency differ; otherwise it can be anybody's,
   and the user's own balance covers the request.
   */
  predicate KeyMisleads(s: Books, i: nat, user: Id, amount: int, currency: Id, key: Id) {
    && i < |s.txs| && s.txs[i].key == Some(key) && !AsRequested(s.txs[i], user, Withdrawal, amount, currency)
    && user in s.wallets
    && if InProgress(s.txs[i].status) then s.txs[i].wallet == user && s.txs[i].amount == amount
       else s.wallets[user] >= amount
  }

  /** Exactly when a withdrawal request succeeds with a transaction that it did not ask for. */
  lemma ForeignWithdrawalIff(s: Books, user: Id, amount: int, currency: Id, key: Option<Id>)
    requires KeysUnique(s)
    ensures var (once, r) := WithdrawalRequested(s, user, amount, currency, key);
            && (r.Ok? ==> r.value < |once.txs|)
            && (r.Ok? && !AsRequested(once.txs[r.value], user, Withdrawal, amount, currency)
                <==> amount > 0 && key.Some? && exists i :: KeyMisleads(s, i, user, amount, currency, key.value))
  {
    if amount > 0 && key.Some? {
      if i: nat :| i < |s.txs| && s.txs[i].key == key {
        FoundByKey(s, i, key.value);
        assert KeyMisleads(s, i, user, amount, currency, key.value) <==>
               exists j :: KeyMisleads(s, j, user, amount, currency, key.value);
      }
    }
  }

  /**
   A deposit request compares everything but the kind: it succeeds with something else exactly when its
   key belongs to a pending or completed withdrawal of the same user, amount and currency.
   */
  lemma ForeignDepositIff(s: Books, user: Id, amount: int, currency: Id, key: Id, accepts: bool)
    requires KeysUnique(s)
    ensures var (once, r) := DepositInitialized(s, user, amount, currency, key, accepts);
            && (r.Ok? ==> r.value < |once.txs|)
            && (r.Ok? && !AsRequested(once.txs[r.value], user, Deposit, amount, currency) <==>
                amount > 0 && user in s.wallets
                && exists i :: 0 <= i < |s.txs| && s.txs[i].key == Some(key)
                     && (s.txs[i].status == Completed || s.txs[i].status == Pending)
                     && AsRequested(s.txs[i], user, Withdrawal, amount, currency))
  {
    if i: nat :| i < |s.txs| && s.txs[i].key == Some(key) {
      FoundByKey(s, i, key);
    }
  }

  /** A transaction keeps everything but its status over every run, and wallets do not disappear. */
  lemma {:induction false} RunsKeepRecord(s: Books, events: seq<Event>, id: nat)
    requires id < |s.txs|
    ensures id < |Run(s, events).txs|
    ensures Run(s, events).txs[id] == s.txs[id].(status := Run(s, events).txs[id].status)
    ensures forall w :: w in s.wallets ==> w in Run(s, events).wallets
    decreases |events|
  {
    if events != [] {
      StepKeepsRecords(s, events[0], id);
      RunsKeepRecord(Step(s, events[0]), events[1..], id);
    }
  }
}
