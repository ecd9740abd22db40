/** Properties of the handler over sequences of events: the balance an
    account ends with and the history it leaves behind
    (5-Kafka/Sample-Project/consumer/services/account.go). */
module Ledger {
  import opened Wrappers
  import opened Events
  import opened Repositories
  import opened Consumer

  /** One message taken off a topic, with the identifier and the clock
      reading the handler would draw for it. */
  datatype Delivery = Delivery(topic: string, decoded: Option<Event>, txId: string, now: int)

  predicate Deliverable(d: Delivery)
  {
    DecodedFor(d.topic, d.decoded)
  }

  /** Handling messages one at a time, in order, with no database errors.
      The panic on `accountTransactions[1]` is not recovered, so it ends the
      consumer and no later message is handled. */
  function Run(s: Store, ds: seq<Delivery>): (r: Store)
    requires forall d :: d in ds ==> Deliverable(d)
    decreases |ds|
  {
    if ds == [] then s
    else
      var d := ds[0];
      assert d in ds && forall x :: x in ds[1..] ==> x in ds;
      assert Deliverable(d);
      var step := Apply(s, d.topic, d.decoded, d.txId, d.now, NoFaults);
      if step.outcome == IndexPanic then step.store else Run(step.store, ds[1..])
  }

  /** A deposit or withdraw event for account `id`, arriving on its own topic. */
  predicate FundsDelivery(d: Delivery, id: string)
  {
    && d.decoded.Some?
    && (d.decoded.value.DepositFundEvent? || d.decoded.value.WithdrawFundEvent?)
    && d.decoded.value.id == id
    && d.topic == TopicOf(d.decoded.value)
  }

  /** Deposits minus withdrawals. */
  function Net(ds: seq<Delivery>): (r: int)
  {
    if ds == [] then 0
    else
      var d := ds[0];
      var here := if d.decoded.Some? && d.decoded.value.DepositFundEvent? then d.decoded.value.amount
                  else if d.decoded.Some? && d.decoded.value.WithdrawFundEvent? then -d.decoded.value.amount
                  else 0;
      here + Net(ds[1..])
  }

  /** A record's effect on the balance, by its type. */
  function SignedAmount(t: AccountTransaction): (r: int)
  {
    if t.transactionType == "deposit" then t.amount
    else if t.transactionType == "withdraw" then -t.amount
    else 0
  }

  /** The sum of the signed amounts of an account's records. */
  function LedgerSum(txs: seq<AccountTransaction>, id: string): (r: int)
  {
    if txs == [] then 0
    else
      var last := txs[|txs| - 1];
      LedgerSum(txs[..|txs| - 1], id) + (if last.accountId == id then SignedAmount(last) else 0)
  }

  lemma LedgerSumAppend(txs: seq<AccountTransaction>, t: AccountTransaction, id: string)
    ensures LedgerSum(txs + [t], id) == LedgerSum(txs, id) + (if t.accountId == id then SignedAmount(t) else 0)
  {
    assert (txs + [t])[..|txs|] == txs;
  }

  /** Every stored account's balance is the sum of its records. */
  predicate Consistent(s: Store)
  {
    && WellKeyed(s)
    && forall id :: id in s.accounts ==> s.accounts[id].balance == LedgerSum(s.transactions, id)
  }

  /** Saving an account and appending one record of it keeps every balance
      equal to the sum of its records when the saved balance is the old sum
      plus the record's signed amount. */
  lemma RecordedKeepsConsistent(s: Store, account: BankAccount, t: AccountTransaction)
    requires Consistent(s)
    requires t.accountId == account.id
    requires account.balance == LedgerSum(s.transactions, account.id) + SignedAmount(t)
    ensures Consistent(Created(Saved(s, account), t))
  {
    var r := Created(Saved(s, account), t);
    assert r.transactions == s.transactions + [t];
    forall id | id in r.accounts
      ensures r.accounts[id].balance == LedgerSum(r.transactions, id)
    {
      LedgerSumAppend(s.transactions, t, id);
    }
  }

  /** With no database errors, handling one message keeps every balance equal
      to the sum of its records, provided an opened account has no earlier
      history (its identifier is fresh). */
  lemma ApplyKeepsConsistent(s: Store, topic: string, decoded: Option<Event>, txId: string, now: int)
    requires DecodedFor(topic, decoded)
    requires Consistent(s)
    requires decoded.Some? && decoded.value.OpenAccountEvent? ==> LedgerSum(s.transactions, decoded.value.id) == 0
    ensures Consistent(Apply(s, topic, decoded, txId, now, NoFaults).store)
  {
    if decoded.Some? {
      var e := decoded.value;
      if e.OpenAccountEvent? {
        var account := BankAccount(e.id, e.accountHolder, e.accountType, e.balance);
        RecordedKeepsConsistent(s, account, AccountTransaction(txId, e.id, "deposit", e.balance, now + SevenHours));
      } else if (e.DepositFundEvent? || e.WithdrawFundEvent?) && e.id in s.accounts {
        FundsApplied(s, e, txId, now);
        RecordedKeepsConsistent(s, s.accounts[e.id].(balance := s.accounts[e.id].balance + Delta(e)), RecordOf(e, txId, now));
      }
    }
  }

  /** A counterexample to all-or-nothing handling: when the account is saved
      but the record cannot be created, the balance no longer matches the history. */
  lemma PartialFailureBreaksConsistency()
    ensures var s := Store(map[], []);
      var e := OpenAccountEvent("acc-1", "Alice", 1, 10000);
      var r := Apply(s, TopicOf(e), Some(e), "tx-1", 0, Faults(false, true, false));
      Consistent(s) && !Consistent(r.store) && r.outcome == RepoFailed(WriteFailed)
  {
    var s := Store(map[], []);
    var e := OpenAccountEvent("acc-1", "Alice", 1, 10000);
    var r := Apply(s, TopicOf(e), Some(e), "tx-1", 0, Faults(false, true, false));
    assert r.store.accounts["acc-1"].balance == 10000;
    assert LedgerSum(r.store.transactions, "acc-1") == 0;
  }

  /** A message that does not panic hands its store on to the rest. */
  lemma RunCons(s: Store, d: Delivery, ds: seq<Delivery>)
    requires Deliverable(d) && forall x :: x in ds ==> Deliverable(x)
    requires Apply(s, d.topic, d.decoded, d.txId, d.now, NoFaults).outcome != IndexPanic
    ensures forall x :: x in [d] + ds ==> Deliverable(x)
    ensures Run(s, [d] + ds) == Run(Apply(s, d.topic, d.decoded, d.txId, d.now, NoFaults).store, ds)
  {
    assert ([d] + ds)[0] == d;
    assert ([d] + ds)[1..] == ds;
  }

  /** A history query on an account with fewer than two records panics: the
      run ends there with the store as it was, whatever messages follow. */
  lemma RunStopsAtPanic(s: Store, id: string, txId: string, now: int, ds: seq<Delivery>)
    requires |TransactionsOf(s.transactions, id)| < 2
    requires forall x :: x in ds ==> Deliverable(x)
    ensures var d := Delivery(TopicOf(ShowTransactionsEvent(id)), Some(ShowTransactionsEvent(id)), txId, now);
      && (forall x :: x in [d] + ds ==> Deliverable(x))
      && Run(s, [d] + ds) == s
  {
    var e := ShowTransactionsEvent(id);
    var d := Delivery(TopicOf(e), Some(e), txId, now);
    assert Apply(s, d.topic, d.decoded, d.txId, d.now, NoFaults) == Step(s, IndexPanic);
    assert ([d] + ds)[0] == d;
  }

  /** One deposit or withdraw on an existing account, with no database
      errors: that account's balance moves by the signed amount and no other
      account changes. */
  lemma FundsStep(s: Store, id: string, d: Delivery)
    requires id in s.accounts && s.accounts[id].id == id
    requires FundsDelivery(d, id)
    ensures Deliverable(d)
    ensures Apply(s, d.topic, d.decoded, d.txId, d.now, NoFaults).outcome == Applied
    ensures var s1 := Apply(s, d.topic, d.decoded, d.txId, d.now, NoFaults).store;
      && id in s1.accounts
      && s1.accounts[id] == s.accounts[id].(balance := s.accounts[id].balance + Net([d]))
      && (forall other :: other != id ==> (other in s1.accounts <==> other in s.accounts))
      && (forall other :: other != id && other in s.accounts ==> s1.accounts[other] == s.accounts[other])
  {
    var e := d.decoded.value;
    assert Net([d]) == Delta(e) by {
      assert [d][1..] == [];
    }
    FundsApplied(s, e, d.txId, d.now);
  }

  /** The same step adds exactly one record to that account's history, and
      its signed amount to the account's ledger sum. */
  lemma FundsStepHistory(s: Store, id: string, d: Delivery)
    requires id in s.accounts
    requires FundsDelivery(d, id)
    ensures Deliverable(d)
    ensures var s1 := Apply(s, d.topic, d.decoded, d.txId, d.now, NoFaults).store;
      && |Filter(s1.transactions, id)| == |Filter(s.transactions, id)| + 1
      && LedgerSum(s1.transactions, id) == LedgerSum(s.transactions, id) + Net([d])
  {
    var e := d.decoded.value;
    assert Net([d]) == Delta(e) by {
      assert [d][1..] == [];
    }
    FundsApplied(s, e, d.txId, d.now);
    var t := RecordOf(e, d.txId, d.now);
    var saved := Saved(s, s.accounts[id].(balance := s.accounts[id].balance + Delta(e)));
    assert Created(saved, t).transactions == s.transactions + [t];
    FilterAppend(s.transactions, t, id);
    LedgerSumAppend(s.transactions, t, id);
  }

  lemma NetCons(d: Delivery, ds: seq<Delivery>)
    ensures Net([d] + ds) == Net([d]) + Net(ds)
  {
    assert ([d] + ds)[0] == d && ([d] + ds)[1..] == ds;
  }

  /** In-order deposits and withdrawals on an existing account move its
      balance by deposits minus withdrawals, add one record each, and leave
      every other account alone. */
  lemma {:induction false} FundsReplay(s: Store, id: string, ds: seq<Delivery>)
    requires id in s.accounts && s.accounts[id].id == id
    requires forall d :: d in ds ==> FundsDelivery(d, id)
    ensures forall d :: d in ds ==> Deliverable(d)
    decreases |ds|
    ensures var f := Run(s, ds);
      && id in f.accounts
      && f.accounts[id] == s.accounts[id].(balance := s.accounts[id].balance + Net(ds))
      && |Filter(f.transactions, id)| == |Filter(s.transactions, id)| + |ds|
      && LedgerSum(f.transactions, id) == LedgerSum(s.transactions, id) + Net(ds)
      && (forall other :: other != id ==> (other in f.accounts <==> other in s.accounts))
      && (forall other :: other != id && other in s.accounts ==> f.accounts[other] == s.accounts[other])
  {
    if ds != [] {
      var d, rest := ds[0], ds[1..];
      assert d in ds;
      assert ds == [d] + rest;
      assert forall x :: x in rest ==> x in ds;
      FundsStep(s, id, d);
      FundsStepHistory(s, id, d);
      var s1 := Apply(s, d.topic, d.decoded, d.txId, d.now, NoFaults).store;
      RunCons(s, d, rest);
      assert Run(s, ds) == Run(s1, rest);
      FundsReplay(s1, id, rest);
      NetCons(d, rest);
    }
  }

  /** The delivery of an open-account event on its own topic. */
  function Opened(open: Event, txId: string, now: int): (d: Delivery)
    requires open.OpenAccountEvent?
    ensures Deliverable(d)
  {
    Delivery(TopicOf(open), Some(open), txId, now)
  }

  /** One open-account event with no database errors. */
  lemma OpenStep(s: Store, open: Event, txId: string, now: int)
    requires open.OpenAccountEvent?
    ensures Apply(s, TopicOf(open), Some(open), txId, now, NoFaults).outcome == Applied
    ensures var s1 := Apply(s, TopicOf(open), Some(open), txId, now, NoFaults).store;
      && open.id in s1.accounts
      && s1.accounts[open.id] == BankAccount(open.id, open.accountHolder, open.accountType, open.balance)
      && |Filter(s1.transactions, open.id)| == |Filter(s.transactions, open.id)| + 1
      && LedgerSum(s1.transactions, open.id) == LedgerSum(s.transactions, open.id) + open.balance
  {
    OpenAccountEffect(s, open, txId, now, NoFaults);
    var t := AccountTransaction(txId, open.id, "deposit", open.balance, now + SevenHours);
    FilterAppend(s.transactions, t, open.id);
    LedgerSumAppend(s.transactions, t, open.id);
  }

  /** An open event followed by in-order deposit and withdraw events for that
      account, with no database errors: the balance is the initial balance
      plus deposits minus withdrawals, and the account has gained
      1 + (number of deposits and withdrawals) records. */
  lemma OpenThenFunds(s: Store, open: Event, txId: string, now: int, funds: seq<Delivery>)
    requires open.OpenAccountEvent?
    requires forall d :: d in funds ==> FundsDelivery(d, open.id)
    ensures forall d :: d in funds ==> Deliverable(d)
    ensures forall d :: d in [Opened(open, txId, now)] + funds ==> Deliverable(d)
    ensures open.id in Run(s, [Opened(open, txId, now)] + funds).accounts
    ensures Run(s, [Opened(open, txId, now)] + funds).accounts[open.id]
            == BankAccount(open.id, open.accountHolder, open.accountType, open.balance + Net(funds))
    ensures |TransactionsOf(Run(s, [Opened(open, txId, now)] + funds).transactions, open.id)|
            == |TransactionsOf(s.transactions, open.id)| + 1 + |funds|
    ensures LedgerSum(Run(s, [Opened(open, txId, now)] + funds).transactions, open.id)
            == LedgerSum(s.transactions, open.id) + open.balance + Net(funds)
  {
    assert forall x :: x in funds ==> Deliverable(x) by {
      forall x | x in funds ensures Deliverable(x) {
        assert FundsDelivery(x, open.id);
      }
    }
    var s1 := Apply(s, TopicOf(open), Some(open), txId, now, NoFaults).store;
    RunCons(s, Opened(open, txId, now), funds);
    assert Run(s, [Opened(open, txId, now)] + funds) == Run(s1, funds);
    OpenStep(s, open, txId, now);
    FundsReplay(s1, open.id, funds);
  }

  /** For a fresh identifier the history is exactly 1 + n records and the
      balance equals their signed sum. */
  lemma FreshAccountLedger(s: Store, open: Event, txId: string, now: int, funds: seq<Delivery>)
    requires open.OpenAccountEvent?
    requires forall t :: t in s.transactions ==> t.accountId != open.id
    requires forall d :: d in funds ==> FundsDelivery(d, open.id)
    ensures forall d :: d in funds ==> Deliverable(d)
    ensures forall d :: d in [Opened(open, txId, now)] + funds ==> Deliverable(d)
    ensures open.id in Run(s, [Opened(open, txId, now)] + funds).accounts
    ensures Run(s, [Opened(open, txId, now)] + funds).accounts[open.id].balance
            == LedgerSum(Run(s, [Opened(open, txId, now)] + funds).transactions, open.id)
            == open.balance + Net(funds)
    ensures |TransactionsOf(Run(s, [Opened(open, txId, now)] + funds).transactions, open.id)| == 1 + |funds|
  {
    OpenThenFunds(s, open, txId, now, funds);
    NoRecordsNoSum(s.transactions, open.id);
  }

  lemma {:induction false} NoRecordsNoSum(txs: seq<AccountTransaction>, id: string)
    requires forall t :: t in txs ==> t.accountId != id
    ensures LedgerSum(txs, id) == 0
    ensures Filter(txs, id) == []
  {
    if txs != [] {
      assert forall t :: t in txs[..|txs| - 1] ==> t in txs;
      NoRecordsNoSum(txs[..|txs| - 1], id);
    }
  }

  /** The three messages of the Alice scenario: open with 100.00, deposit
      50.00, withdraw 30.00, drawn IDs "tx-1".."tx-3" at clock readings 1..3. */
  function AliceDeliveries(): (ds: seq<Delivery>)
    ensures forall d :: d in ds ==> Deliverable(d)
  {
    [Delivery(TopicName(OpenAccount), Some(OpenAccountEvent("acc-1", "Alice", 1, 10000)), "tx-1", 1),
     Delivery(TopicName(DepositFund), Some(DepositFundEvent("acc-1", 5000)), "tx-2", 2),
     Delivery(TopicName(WithdrawFund), Some(WithdrawFundEvent("acc-1", 3000)), "tx-3", 3)]
  }

  /** The records the scenario leaves, in the order they are created. */
  function AliceRecords(): seq<AccountTransaction>
  {
    [AccountTransaction("tx-1", "acc-1", "deposit", 10000, 1 + SevenHours),
     AccountTransaction("tx-2", "acc-1", "deposit", 5000, 2 + SevenHours),
     AccountTransaction("tx-3", "acc-1", "withdraw", 3000, 3 + SevenHours)]
  }

  /** The history the scenario reports: withdraw 30.00, deposit 50.00,
      deposit 100.00, newest first. */
  function AliceHistory(): seq<AccountTransaction>
  {
    [AccountTransaction("tx-3", "acc-1", "withdraw", 3000, 3 + SevenHours),
     AccountTransaction("tx-2", "acc-1", "deposit", 5000, 2 + SevenHours),
     AccountTransaction("tx-1", "acc-1", "deposit", 10000, 1 + SevenHours)]
  }

  /** The stores after the first and after the second delivery. */
  function AliceAfterOpen(): Store
  {
    Store(map["acc-1" := BankAccount("acc-1", "Alice", 1, 10000)], AliceRecords()[..1])
  }

  function AliceAfterDeposit(): Store
  {
    Store(map["acc-1" := BankAccount("acc-1", "Alice", 1, 15000)], AliceRecords()[..2])
  }

  lemma AliceOpenStep()
    ensures var d := AliceDeliveries()[0];
      Apply(Store(map[], []), d.topic, d.decoded, d.txId, d.now, NoFaults) == Step(AliceAfterOpen(), Applied)
  {
    OpenAccountEffect(Store(map[], []), OpenAccountEvent("acc-1", "Alice", 1, 10000), "tx-1", 1, NoFaults);
    assert AliceRecords()[..1] == [AliceRecords()[0]];
  }

  lemma AliceDepositStep()
    ensures var d := AliceDeliveries()[1];
      Apply(AliceAfterOpen(), d.topic, d.decoded, d.txId, d.now, NoFaults) == Step(AliceAfterDeposit(), Applied)
  {
    FundsApplied(AliceAfterOpen(), DepositFundEvent("acc-1", 5000), "tx-2", 2);
    assert AliceRecords()[..2] == AliceRecords()[..1] + [AliceRecords()[1]];
  }

  lemma AliceWithdrawStep()
    ensures var d := AliceDeliveries()[2];
      Apply(AliceAfterDeposit(), d.topic, d.decoded, d.txId, d.now, NoFaults)
        == Step(Store(map["acc-1" := BankAccount("acc-1", "Alice", 1, 12000)], AliceRecords()), Applied)
  {
    FundsApplied(AliceAfterDeposit(), WithdrawFundEvent("acc-1", 3000), "tx-3", 3);
    assert AliceRecords() == AliceRecords()[..2] + [AliceRecords()[2]];
  }

  /** On an empty store the scenario leaves the one account with 120.00 and
      exactly the three records, in creation order. */
  lemma AliceStore()
    ensures Run(Store(map[], []), AliceDeliveries()) == Store(map["acc-1" := BankAccount("acc-1", "Alice", 1, 12000)], AliceRecords())
  {
    var ds := AliceDeliveries();
    AliceOpenStep();
    AliceDepositStep();
    AliceWithdrawStep();
    RunCons(AliceAfterDeposit(), ds[2], []);
    RunCons(AliceAfterOpen(), ds[1], [ds[2]]);
    assert ds == [ds[0]] + [ds[1], ds[2]] && [ds[1], ds[2]] == [ds[1]] + [ds[2]] && [ds[2]] == [ds[2]] + [];
    RunCons(Store(map[], []), ds[0], [ds[1], ds[2]]);
  }

  lemma OrderOfTwo(a: AccountTransaction, b: AccountTransaction)
    requires a.createAt < b.createAt
    ensures OrderNewestFirst([a, b]) == [b, a]
  {
    assert [a, b][..1] == [a] && [a][..0] == [];
    assert OrderNewestFirst([a]) == [a];
  }

  lemma OrderOfThree(a: AccountTransaction, b: AccountTransaction, c: AccountTransaction)
    requires a.createAt < b.createAt < c.createAt
    ensures OrderNewestFirst([a, b, c]) == [c, b, a]
  {
    OrderOfTwo(a, b);
    assert [a, b, c][..2] == [a, b];
    assert InsertNewestFirst([b, a], c) == [c, b, a];
  }

  lemma FilterOfThree(a: AccountTransaction, b: AccountTransaction, c: AccountTransaction, id: string)
    requires a.accountId == id && b.accountId == id && c.accountId == id
    ensures Filter([a, b, c], id) == [a, b, c]
  {
    FilterAppend([], a, id);
    FilterAppend([a], b, id);
    FilterAppend([a, b], c, id);
    assert [] + [a] == [a] && [a] + [b] == [a, b] && [a, b] + [c] == [a, b, c];
  }

  /** Three records of one account created at increasing times come back
      newest first, that is in reverse creation order. */
  lemma ThreeRecordsNewestFirst(a: AccountTransaction, b: AccountTransaction, c: AccountTransaction, id: string)
    requires a.accountId == id && b.accountId == id && c.accountId == id
    requires a.createAt < b.createAt < c.createAt
    ensures Filter([a, b, c], id) == [a, b, c]
    ensures TransactionsOf([a, b, c], id) == [c, b, a]
  {
    FilterOfThree(a, b, c, id);
    OrderOfThree(a, b, c);
  }

  /** Open "Alice" with 100.00, deposit 50.00, withdraw 30.00: the balance is
      120.00, the history is the 30.00 withdraw, the 50.00 deposit and the
      100.00 opening deposit, newest first, and the two queries report the
      balance and that history. */
  lemma AliceScenario()
    ensures var f := Run(Store(map[], []), AliceDeliveries());
      && Find(f, "acc-1") == Success(BankAccount("acc-1", "Alice", 1, 12000))
      && TransactionsOf(f.transactions, "acc-1") == AliceHistory()
      && Apply(f, TopicOf(ShowBalanceEvent("acc-1")), Some(ShowBalanceEvent("acc-1")), "tx-4", 4, NoFaults).outcome == BalanceReport("acc-1", 12000)
      && Apply(f, TopicOf(ShowTransactionsEvent("acc-1")), Some(ShowTransactionsEvent("acc-1")), "tx-5", 5, NoFaults).outcome == TransactionReport("acc-1", AliceHistory())
  {
    var f := Run(Store(map[], []), AliceDeliveries());
    AliceStore();
    assert f == Store(map["acc-1" := BankAccount("acc-1", "Alice", 1, 12000)], AliceRecords());
    var rs := AliceRecords();
    ThreeRecordsNewestFirst(rs[0], rs[1], rs[2], "acc-1");
    assert rs == [rs[0], rs[1], rs[2]];
    assert TransactionsOf(f.transactions, "acc-1") == AliceHistory();
    QueriesAreReadOnly(f, ShowBalanceEvent("acc-1"), "tx-4", 4, NoFaults);
    QueriesAreReadOnly(f, ShowTransactionsEvent("acc-1"), "tx-5", 5, NoFaults);
  }

  /** Withdrawing from an unknown account creates nothing and reports not-found. */
  lemma WithdrawFromUnknownAccount(s: Store, id: string, amount: int, txId: string, now: int, faults: Faults)
    requires id !in s.accounts
    ensures Apply(s, TopicName(WithdrawFund), Some(WithdrawFundEvent(id, amount)), txId, now, faults) == Step(s, RepoFailed(NotFound))
  {
    FundsEffect(s, WithdrawFundEvent(id, amount), txId, now, faults);
  }
}
