/** The two halves of the sample project joined: the producer service turns a
    command into an event and publishes it on the event's own topic as a JSON
    document; the consumer decodes the document as the struct the topic
    selects and hands it to the event handler
    (5-Kafka/Sample-Project/producer/services/account.go,
    5-Kafka/Sample-Project/consumer/services/account.go). */
module Pipeline {
  import opened Wrappers
  import opened Events
  import opened Commands
  import opened Producer
  import opened Repositories
  import opened Consumer
  import opened Ledger

  /** What the consumer makes of a message: no struct for an unknown topic,
      otherwise the payload decoded as the struct the topic selects. */
  function Received(topic: string, payload: Payload): (r: Option<Event>)
    ensures r.Some? ==> KindOfTopic(topic).Some? && KindOf(r.value) == KindOfTopic(topic).value
    ensures DecodedFor(topic, r)
  {
    match KindOfTopic(topic)
    case None => None
    case Some(k) =>
      var r := Decode(k, payload);
      if r.Some? then
        TopicNameInjective();
        r
      else r
  }

  /** Every event the producer publishes reaches the consumer intact. */
  lemma PublishedEventArrivesIntact(e: Event)
    ensures Received(TopicOf(e), Encode(e)) == Some(e)
  {
    RoundTrip(e);
  }

  /** So the handler does with the published message exactly what it does
      with the event itself. */
  lemma HandledAsPublished(s: Store, e: Event, txId: string, now: int, faults: Faults)
    ensures Apply(s, TopicOf(e), Received(TopicOf(e), Encode(e)), txId, now, faults)
         == Apply(s, TopicOf(e), Some(e), txId, now, faults)
  {
    PublishedEventArrivesIntact(e);
  }

  /** A valid open-account command, published and consumed with no database
      errors, creates exactly the account the command asked for under the
      fresh identifier, reachable by lookup, and one "deposit" record of the
      opening balance, which is its whole history when the identifier is new. */
  lemma OpenAccountEndToEnd(s: Store, command: OpenAccountCommand, freshId: string, txId: string, now: int)
    requires command.accountHolder != "" && command.accountType != 0 && command.balance != 0
    ensures OpenAccountEventFor(command, freshId).Success?
    ensures var e := OpenAccountEventFor(command, freshId).value;
      var r := Apply(s, TopicOf(e), Received(TopicOf(e), Encode(e)), txId, now, NoFaults);
      && r.outcome == Applied
      && Find(r.store, freshId) == Success(BankAccount(freshId, command.accountHolder, command.accountType, command.balance))
      && r.store.transactions == s.transactions + [AccountTransaction(txId, freshId, "deposit", command.balance, now + SevenHours)]
      && ((forall t :: t in s.transactions ==> t.accountId != freshId) ==>
            TransactionsOf(r.store.transactions, freshId) == [AccountTransaction(txId, freshId, "deposit", command.balance, now + SevenHours)])
  {
    var e := OpenAccountEventFor(command, freshId).value;
    PublishedEventArrivesIntact(e);
    OpenAccountEffect(s, e, txId, now, NoFaults);
    var r := Apply(s, TopicOf(e), Some(e), txId, now, NoFaults);
    var record := AccountTransaction(txId, freshId, "deposit", command.balance, now + SevenHours);
    if forall t :: t in s.transactions ==> t.accountId != freshId {
      NoRecordsNoSum(s.transactions, freshId);
      FilterAppend(s.transactions, record, freshId);
      var h := TransactionsOf(r.store.transactions, freshId);
      assert |h| == 1;
      assert record in h;
      assert h == [record];
    }
  }

  /** An invalid open-account command sent to a service over a new producer
      returns an empty ID and bad request, whatever the broker would have
      replied, and nothing is handed to the producer. */
  method InvalidOpenAccountRefused(command: OpenAccountCommand, freshId: string, brokerReply: Option<string>)
    returns (id: string, err: Option<ServiceError>, handed: seq<Event>)
    requires command.accountHolder == "" || command.accountType == 0 || command.balance == 0
    ensures id == "" && err == Some(BadRequest)
    ensures handed == []
  {
    var producer := new EventProducer();
    var service := new AccountService(producer);
    id, err := service.OpenAccount(command, freshId, brokerReply);
    handed := producer.handed;
  }

  /** A deposit command with an identifier and a non-zero amount, published
      and consumed with no database errors, raises the balance of an existing
      account by exactly the amount and appends one "deposit" record of it. */
  lemma DepositEndToEnd(s: Store, id: string, amount: int, txId: string, now: int)
    requires id != "" && amount != 0
    requires id in s.accounts && s.accounts[id].id == id
    ensures DepositFundEventFor(DepositFundCommand(id, amount)) == Success(DepositFundEvent(id, amount))
    ensures var e := DepositFundEvent(id, amount);
      var step := Apply(s, TopicOf(e), Received(TopicOf(e), Encode(e)), txId, now, NoFaults);
      && step.outcome == Applied
      && Find(step.store, id) == Success(s.accounts[id].(balance := s.accounts[id].balance + amount))
      && step.store.transactions == s.transactions + [AccountTransaction(txId, id, "deposit", amount, now + SevenHours)]
  {
    HandledAsPublished(s, DepositFundEvent(id, amount), txId, now, NoFaults);
    DepositSettled(s, id, amount, txId, now);
  }

  /** The consumer half of `DepositEndToEnd`. */
  lemma DepositSettled(s: Store, id: string, amount: int, txId: string, now: int)
    requires id in s.accounts && s.accounts[id].id == id
    ensures var e := DepositFundEvent(id, amount);
      var step := Apply(s, TopicOf(e), Some(e), txId, now, NoFaults);
      && step.outcome == Applied
      && Find(step.store, id) == Success(s.accounts[id].(balance := s.accounts[id].balance + amount))
      && step.store.transactions == s.transactions + [AccountTransaction(txId, id, "deposit", amount, now + SevenHours)]
  {
    FundsApplied(s, DepositFundEvent(id, amount), txId, now);
  }

  /** A withdraw command with an identifier and a non-zero amount, published
      and consumed with no database errors, lowers the balance of an existing
      account by exactly the amount, with no overdraft check, and appends one
      "withdraw" record of it. */
  lemma WithdrawEndToEnd(s: Store, id: string, amount: int, txId: string, now: int)
    requires id != "" && amount != 0
    requires id in s.accounts && s.accounts[id].id == id
    ensures WithdrawFundEventFor(WithdrawFundCommand(id, amount)) == Success(WithdrawFundEvent(id, amount))
    ensures var e := WithdrawFundEvent(id, amount);
      var step := Apply(s, TopicOf(e), Received(TopicOf(e), Encode(e)), txId, now, NoFaults);
      && step.outcome == Applied
      && Find(step.store, id) == Success(s.accounts[id].(balance := s.accounts[id].balance - amount))
      && step.store.transactions == s.transactions + [AccountTransaction(txId, id, "withdraw", amount, now + SevenHours)]
  {
    HandledAsPublished(s, WithdrawFundEvent(id, amount), txId, now, NoFaults);
    WithdrawSettled(s, id, amount, txId, now);
  }

  /** The consumer half of `WithdrawEndToEnd`. */
  lemma WithdrawSettled(s: Store, id: string, amount: int, txId: string, now: int)
    requires id in s.accounts && s.accounts[id].id == id
    ensures var e := WithdrawFundEvent(id, amount);
      var step := Apply(s, TopicOf(e), Some(e), txId, now, NoFaults);
      && step.outcome == Applied
      && Find(step.store, id) == Success(s.accounts[id].(balance := s.accounts[id].balance - amount))
      && step.store.transactions == s.transactions + [AccountTransaction(txId, id, "withdraw", amount, now + SevenHours)]
  {
    FundsApplied(s, WithdrawFundEvent(id, amount), txId, now);
  }

  /** A balance query, published and consumed, reports the stored balance of
      an existing account and a not-found error otherwise, changing nothing. */
  lemma ShowBalanceEndToEnd(s: Store, id: string, txId: string, now: int, faults: Faults)
    requires id != ""
    ensures ShowBalanceEventFor(ShowBalanceCommand(id)) == Success(ShowBalanceEvent(id))
    ensures var e := ShowBalanceEvent(id);
      var step := Apply(s, TopicOf(e), Received(TopicOf(e), Encode(e)), txId, now, faults);
      && step.store == s
      && step.outcome == if id in s.accounts then BalanceReport(s.accounts[id].id, s.accounts[id].balance) else RepoFailed(NotFound)
  {
    PublishedEventArrivesIntact(ShowBalanceEvent(id));
    QueriesAreReadOnly(s, ShowBalanceEvent(id), txId, now, faults);
  }
}
