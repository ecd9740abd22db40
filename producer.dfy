/** The producer's command service (5-Kafka/Sample-Project/producer/services/account.go):
    each operation validates its command and, when it is valid, derives exactly
    one event and hands it to the event producer. */
module Producer {
  import opened Wrappers
  import opened Events
  import opened Commands

  /** `errors.New("bad request")`, or the error the event producer returned. */
  datatype ServiceError = BadRequest | ProduceError(message: string)

  // ---------------------------------------------------------------------
  // Validation and event construction (the pure part of each method).

  /** The open-account event for a command, with `freshId` standing for `uuid.NewString()`. */
  function OpenAccountEventFor(command: OpenAccountCommand, freshId: string): (r: Result<Event, ServiceError>)
    ensures r.Failure? <==> command.accountHolder == "" || command.accountType == 0 || command.balance == 0
    ensures r.Failure? ==> r.error == BadRequest
    ensures r.Success? ==> && r.value.OpenAccountEvent?
                           && r.value.id == freshId
                           && r.value.accountHolder == command.accountHolder
                           && r.value.accountType == command.accountType
                           && r.value.balance == command.balance
  {
    if command.accountHolder == "" || command.accountType == 0 || command.balance == 0 then Failure(BadRequest)
    else Success(OpenAccountEvent(freshId, command.accountHolder, command.accountType, command.balance))
  }

  function DepositFundEventFor(command: DepositFundCommand): (r: Result<Event, ServiceError>)
    ensures r.Failure? <==> command.id == "" || command.amount == 0
    ensures r.Failure? ==> r.error == BadRequest
    ensures r.Success? ==> r.value.DepositFundEvent? && r.value.id == command.id && r.value.amount == command.amount
  {
    if command.id == "" || command.amount == 0 then Failure(BadRequest)
    else Success(DepositFundEvent(command.id, command.amount))
  }

  function WithdrawFundEventFor(command: WithdrawFundCommand): (r: Result<Event, ServiceError>)
    ensures r.Failure? <==> command.id == "" || command.amount == 0
    ensures r.Failure? ==> r.error == BadRequest
    ensures r.Success? ==> r.value.WithdrawFundEvent? && r.value.id == command.id && r.value.amount == command.amount
  {
    if command.id == "" || command.amount == 0 then Failure(BadRequest)
    else Success(WithdrawFundEvent(command.id, command.amount))
  }

  function CloseAccountEventFor(command: CloseAccountCommand): (r: Result<Event, ServiceError>)
    ensures r.Failure? <==> command.id == ""
    ensures r.Failure? ==> r.error == BadRequest
    ensures r.Success? ==> r.value.CloseAccountEvent? && r.value.id == command.id
  {
    if command.id == "" then Failure(BadRequest) else Success(CloseAccountEvent(command.id))
  }

  function ShowBalanceEventFor(command: ShowBalanceCommand): (r: Result<Event, ServiceError>)
    ensures r.Failure? <==> command.id == ""
    ensures r.Failure? ==> r.error == BadRequest
    ensures r.Success? ==> r.value.ShowBalanceEvent? && r.value.id == command.id
  {
    if command.id == "" then Failure(BadRequest) else Success(ShowBalanceEvent(command.id))
  }

  function ShowTransactionsEventFor(command: ShowTransactionsCommand): (r: Result<Event, ServiceError>)
    ensures r.Failure? <==> command.id == ""
    ensures r.Failure? ==> r.error == BadRequest
    ensures r.Success? ==> r.value.ShowTransactionsEvent? && r.value.id == command.id
  {
    if command.id == "" then Failure(BadRequest) else Success(ShowTransactionsEvent(command.id))
  }

  /** The sign of an amount is not checked: a negative deposit or withdrawal is accepted. */
  lemma NegativeAmountsAccepted(id: string, amount: int)
    requires id != "" && amount < 0
    ensures DepositFundEventFor(DepositFundCommand(id, amount)).Success?
    ensures WithdrawFundEventFor(WithdrawFundCommand(id, amount)).Success?
  {
  }

  /** Every event the service derives is routed back, by its topic, to the
      consumer branch of its own kind. */
  lemma DerivedEventsReachTheirHandler(e: Event)
    ensures KindOfTopic(TopicOf(e)) == Some(KindOf(e))
    ensures Decode(KindOf(e), Encode(e)) == Some(e)
  {
    RoundTrip(e);
  }

  /** The error a service method returns for the producer's reply: the same
      error, unchanged. A broker failure is never taken for a validation
      failure, and the broker's reply can be read back from the error. */
  function Passed(reply: Option<string>): (err: Option<ServiceError>)
    ensures err != Some(BadRequest)
    ensures reply == if err.None? then None else Some(err.value.message)
  {
    match reply
    case None => None
    case Some(m) => Some(ProduceError(m))
  }

  // ---------------------------------------------------------------------
  // The event producer and the service.

  /** The outbound side of the transport. `handed` records every event passed
      to `Produce`, in call order; the broker's reply is an input. */
  class EventProducer {
    var handed: seq<Event>

    constructor ()
      ensures handed == []
    {
      handed := [];
    }

    method Produce(event: Event, brokerReply: Option<string>) returns (err: Option<string>)
      modifies this
      ensures handed == old(handed) + [event]
      ensures err == brokerReply
    {
      handed := handed + [event];
      err := brokerReply;
    }
  }

  class AccountService {
    const eventProducer: EventProducer

    constructor (eventProducer: EventProducer)
      ensures this.eventProducer == eventProducer
    {
      this.eventProducer := eventProducer;
    }

    /** Returns the fresh account identifier together with the producer's
        error, even when that error is not nil. */
    method OpenAccount(command: OpenAccountCommand, freshId: string, brokerReply: Option<string>)
      returns (id: string, err: Option<ServiceError>)
      modifies eventProducer
      ensures match OpenAccountEventFor(command, freshId)
              case Failure(e) => id == "" && err == Some(e) && eventProducer.handed == old(eventProducer.handed)
              case Success(event) =>
                id == event.id == freshId && err == Passed(brokerReply)
                && eventProducer.handed == old(eventProducer.handed) + [event]
    {
      if command.accountHolder == "" || command.accountType == 0 || command.balance == 0 {
        return "", Some(BadRequest);
      }
      var event := OpenAccountEvent(freshId, command.accountHolder, command.accountType, command.balance);
      var reply := eventProducer.Produce(event, brokerReply);
      id, err := event.id, Passed(reply);
    }

    method DepositFund(command: DepositFundCommand, brokerReply: Option<string>) returns (err: Option<ServiceError>)
      modifies eventProducer
      ensures match DepositFundEventFor(command)
              case Failure(e) => err == Some(e) && eventProducer.handed == old(eventProducer.handed)
              case Success(event) => err == Passed(brokerReply) && eventProducer.handed == old(eventProducer.handed) + [event]
    {
      if command.id == "" || command.amount == 0 {
        return Some(BadRequest);
      }
      var event := DepositFundEvent(command.id, command.amount);
      var reply := eventProducer.Produce(event, brokerReply);
      err := Passed(reply);
    }

    method WithdrawFund(command: WithdrawFundCommand, brokerReply: Option<string>) returns (err: Option<ServiceError>)
      modifies eventProducer
      ensures match WithdrawFundEventFor(command)
              case Failure(e) => err == Some(e) && eventProducer.handed == old(eventProducer.handed)
              case Success(event) => err == Passed(brokerReply) && eventProducer.handed == old(eventProducer.handed) + [event]
    {
      if command.id == "" || command.amount == 0 {
        return Some(BadRequest);
      }
      var event := WithdrawFundEvent(command.id, command.amount);
      var reply := eventProducer.Produce(event, brokerReply);
      err := Passed(reply);
    }

    method CloseAccount(command: CloseAccountCommand, brokerReply: Option<string>) returns (err: Option<ServiceError>)
      modifies eventProducer
      ensures match CloseAccountEventFor(command)
              case Failure(e) => err == Some(e) && eventProducer.handed == old(eventProducer.handed)
              case Success(event) => err == Passed(brokerReply) && eventProducer.handed == old(eventProducer.handed) + [event]
    {
      if command.id == "" {
        return Some(BadRequest);
      }
      var event := CloseAccountEvent(command.id);
      var reply := eventProducer.Produce(event, brokerReply);
      err := Passed(reply);
    }

    method ShowBalance(command: ShowBalanceCommand, brokerReply: Option<string>) returns (err: Option<ServiceError>)
      modifies eventProducer
      ensures match ShowBalanceEventFor(command)
              case Failure(e) => err == Some(e) && eventProducer.handed == old(eventProducer.handed)
              case Success(event) => err == Passed(brokerReply) && eventProducer.handed == old(eventProducer.handed) + [event]
    {
      if command.id == "" {
        return Some(BadRequest);
      }
      var event := ShowBalanceEvent(command.id);
      var reply := eventProducer.Produce(event, brokerReply);
      err := Passed(reply);
    }

    method ShowTransactions(command: ShowTransactionsCommand, brokerReply: Option<string>) returns (err: Option<ServiceError>)
      modifies eventProducer
      ensures match ShowTransactionsEventFor(command)
              case Failure(e) => err == Some(e) && eventProducer.handed == old(eventProducer.handed)
              case Success(event) => err == Passed(brokerReply) && eventProducer.handed == old(eventProducer.handed) + [event]
    {
      if command.id == "" {
        return Some(BadRequest);
      }
      var event := ShowTransactionsEvent(command.id);
      var reply := eventProducer.Produce(event, brokerReply);
      err := Passed(reply);
    }
  }

  /** A client of the service: a rejected command produces nothing, and each
      accepted one produces its one event, in call order. */
  method ServiceDemo() returns (handed: seq<Event>, openErr: Option<ServiceError>, id: string, closeErr: Option<ServiceError>)
    ensures openErr == Some(BadRequest) && id == ""
    ensures closeErr == Some(ProduceError("broker down"))
    ensures handed == [DepositFundEvent("acc-1", -500), CloseAccountEvent("acc-1")]
  {
    var producer := new EventProducer();
    var service := new AccountService(producer);
    id, openErr := service.OpenAccount(OpenAccountCommand("Alice", 1, 0), "fresh-1", None);
    var err := service.DepositFund(DepositFundCommand("acc-1", -500), None);
    err := service.WithdrawFund(WithdrawFundCommand("", 500), None);
    closeErr := service.CloseAccount(CloseAccountCommand("acc-1"), Some("broker down"));
    handed := producer.handed;
  }
}
