/** The consumer's event handler (5-Kafka/Sample-Project/consumer/services/account.go):
    `Handle(topic, bytes)` picks a branch by topic, decodes the payload and
    applies the event to the account repository, returning early on the
    first error. */
module Consumer {
  import opened Wrappers
  import opened Events
  import opened Repositories

  /** `time.Hour * time.Duration(7)` in nanoseconds: every record is stamped seven hours ahead of the clock. */
  const SevenHours: int := 7 * 3_600_000_000_000

  /** What one call of `Handle` ends with: the message it logs, or, for
      `IndexPanic`, the run-time panic of `accountTransactions[1]`. */
  datatype Outcome =
    | NoHandler
    | DecodeFailed
    | RepoFailed(error: RepoError)
    | Applied
    | BalanceReport(accountId: string, balance: int)
    | TransactionReport(accountId: string, records: seq<AccountTransaction>)
    | IndexPanic

  /** Which of the database writes this call makes the database reject. */
  datatype Faults = Faults(saveFails: bool, createFails: bool, deleteFails: bool)

  const NoFaults := Faults(false, false, false)

  /** `decoded` is what `json.Unmarshal` made of the bytes: None when it
      failed; otherwise a value of the struct that the topic's case decodes into. */
  predicate DecodedFor(topic: string, decoded: Option<Event>)
  {
    decoded.Some? ==> TopicOf(decoded.value) == topic
  }

  datatype Step = Step(store: Store, outcome: Outcome)

  // ---------------------------------------------------------------------
  // The handler as a function of the store: one function per branch.
  // `txId` stands for `uuid.New()` and `now` for `time.Now()`.

  function ApplyOpen(s: Store, e: Event, txId: string, now: int, faults: Faults): (r: Step)
    requires e.OpenAccountEvent?
  {
    var account := BankAccount(e.id, e.accountHolder, e.accountType, e.balance);
    if faults.saveFails then Step(s, RepoFailed(WriteFailed))
    else
      var saved := Saved(s, account);
      var record := AccountTransaction(txId, e.id, "deposit", e.balance, now + SevenHours);
      if faults.createFails then Step(saved, RepoFailed(WriteFailed))
      else Step(Created(saved, record), Applied)
  }

  /** Deposit and withdraw: load, change the balance by `delta`, save, then record. */
  function ApplyFunds(s: Store, id: string, delta: int, recordType: string, amount: int, txId: string, now: int, faults: Faults): (r: Step)
  {
    match Find(s, id)
    case Failure(err) => Step(s, RepoFailed(err))
    case Success(account) =>
      if faults.saveFails then Step(s, RepoFailed(WriteFailed))
      else
        var saved := Saved(s, account.(balance := account.balance + delta));
        var record := AccountTransaction(txId, id, recordType, amount, now + SevenHours);
        if faults.createFails then Step(saved, RepoFailed(WriteFailed))
        else Step(Created(saved, record), Applied)
  }

  function ApplyEvent(s: Store, e: Event, txId: string, now: int, faults: Faults): (r: Step)
  {
    match e
    case OpenAccountEvent(_, _, _, _) => ApplyOpen(s, e, txId, now, faults)
    case DepositFundEvent(id, amount) => ApplyFunds(s, id, amount, "deposit", amount, txId, now, faults)
    case WithdrawFundEvent(id, amount) => ApplyFunds(s, id, -amount, "withdraw", amount, txId, now, faults)
    case CloseAccountEvent(id) =>
      if faults.deleteFails then Step(s, RepoFailed(WriteFailed)) else Step(Deleted(s, id), Applied)
    case ShowBalanceEvent(id) =>
      (match Find(s, id)
       case Failure(err) => Step(s, RepoFailed(err))
       case Success(account) => Step(s, BalanceReport(account.id, account.balance)))
    case ShowTransactionsEvent(id) =>
      var records := TransactionsOf(s.transactions, id);
      if |records| < 2 then Step(s, IndexPanic)
      else Step(s, TransactionReport(records[1].accountId, records))
  }

  /** The whole of `Handle`. A decoded event always came in on its own
      topic, which has a case in the switch, so its branch is the one of its
      kind; only a message that did not decode needs the topic to tell the
      default branch from a decode failure. `Handle` itself switches on the
      topic first, as the source does. */
  function Apply(s: Store, topic: string, decoded: Option<Event>, txId: string, now: int, faults: Faults): (r: Step)
    requires DecodedFor(topic, decoded)
  {
    match decoded
    case Some(e) => ApplyEvent(s, e, txId, now, faults)
    case None => if KindOfTopic(topic).None? then Step(s, NoHandler) else Step(s, DecodeFailed)
  }

  // ---------------------------------------------------------------------
  // What each branch does.

  /** A topic outside the catalog only logs "no event handler". */
  lemma UnknownTopicIsIgnored(s: Store, topic: string, decoded: Option<Event>, txId: string, now: int, faults: Faults)
    requires DecodedFor(topic, decoded)
    requires topic !in Topics
    ensures Apply(s, topic, decoded, txId, now, faults) == Step(s, NoHandler)
  {
  }

  /** A payload that does not decode is dropped before any repository call. */
  lemma DecodeFailureChangesNothing(s: Store, topic: string, txId: string, now: int, faults: Faults)
    ensures Apply(s, topic, None, txId, now, faults).store == s
    ensures Apply(s, topic, None, txId, now, faults).outcome == if topic in Topics then DecodeFailed else NoHandler
  {
  }

  /** Open account saves the event's account; only after a successful save is
      one "deposit" record of the initial balance appended. */
  lemma OpenAccountEffect(s: Store, e: Event, txId: string, now: int, faults: Faults)
    requires e.OpenAccountEvent?
    ensures var r := Apply(s, TopicOf(e), Some(e), txId, now, faults);
      && (faults.saveFails ==> r == Step(s, RepoFailed(WriteFailed)))
      && (!faults.saveFails ==>
            && r.store.accounts == s.accounts[e.id := BankAccount(e.id, e.accountHolder, e.accountType, e.balance)]
            && Find(r.store, e.id) == Success(BankAccount(e.id, e.accountHolder, e.accountType, e.balance)))
      && (!faults.saveFails && faults.createFails ==> r.store.transactions == s.transactions && r.outcome == RepoFailed(WriteFailed))
      && (!faults.saveFails && !faults.createFails ==>
            && r.outcome == Applied
            && r.store.transactions == s.transactions + [AccountTransaction(txId, e.id, "deposit", e.balance, now + SevenHours)])
  {
  }

  /** The signed change a deposit or withdraw makes to the balance. */
  function Delta(e: Event): (r: int)
    requires e.DepositFundEvent? || e.WithdrawFundEvent?
  {
    if e.DepositFundEvent? then e.amount else -e.amount
  }

  /** The record a deposit or withdraw leaves behind. */
  function RecordOf(e: Event, txId: string, now: int): (r: AccountTransaction)
    requires e.DepositFundEvent? || e.WithdrawFundEvent?
  {
    AccountTransaction(txId, e.id, if e.DepositFundEvent? then "deposit" else "withdraw", e.amount, now + SevenHours)
  }

  /** With no database errors, a deposit or withdraw on an existing account
      is a save of the changed row followed by the creation of its record. */
  lemma FundsApplied(s: Store, e: Event, txId: string, now: int)
    requires e.DepositFundEvent? || e.WithdrawFundEvent?
    requires e.id in s.accounts
    ensures Apply(s, TopicOf(e), Some(e), txId, now, NoFaults)
         == Step(Created(Saved(s, s.accounts[e.id].(balance := s.accounts[e.id].balance + Delta(e))), RecordOf(e, txId, now)), Applied)
  {
  }

  /** Deposit and withdraw: an unknown account changes nothing; otherwise the
      balance moves by exactly the amount (no overdraft or sign check), and one
      record is appended only after a successful save. */
  lemma FundsEffect(s: Store, e: Event, txId: string, now: int, faults: Faults)
    requires e.DepositFundEvent? || e.WithdrawFundEvent?
    ensures var r := Apply(s, TopicOf(e), Some(e), txId, now, faults);
      var delta := if e.DepositFundEvent? then e.amount else -e.amount;
      var recordType := if e.DepositFundEvent? then "deposit" else "withdraw";
      && (e.id !in s.accounts ==> r == Step(s, RepoFailed(NotFound)))
      && (e.id in s.accounts && faults.saveFails ==> r == Step(s, RepoFailed(WriteFailed)))
      && (e.id in s.accounts && !faults.saveFails && s.accounts[e.id].id == e.id ==>
            && r.store.accounts == s.accounts[e.id := s.accounts[e.id].(balance := s.accounts[e.id].balance + delta)]
            && (faults.createFails ==> r.store.transactions == s.transactions && r.outcome == RepoFailed(WriteFailed))
            && (!faults.createFails ==>
                  && r.outcome == Applied
                  && r.store.transactions == s.transactions + [AccountTransaction(txId, e.id, recordType, e.amount, now + SevenHours)]))
  {
  }

  /** Close deletes the row, so a later lookup fails, and keeps every record,
      so the history stays queryable. */
  lemma CloseAccountEffect(s: Store, e: Event, txId: string, now: int, faults: Faults)
    requires e.CloseAccountEvent?
    ensures var r := Apply(s, TopicOf(e), Some(e), txId, now, faults);
      && r.store.transactions == s.transactions
      && (forall id :: TransactionsOf(r.store.transactions, id) == TransactionsOf(s.transactions, id))
      && (faults.deleteFails ==> r == Step(s, RepoFailed(WriteFailed)))
      && (!faults.deleteFails ==> r.store.accounts == s.accounts - {e.id} && Find(r.store, e.id) == Failure(NotFound) && r.outcome == Applied)
  {
  }

  /** The two queries change nothing; the balance query reports the stored
      balance; the history query panics with fewer than two records. */
  lemma QueriesAreReadOnly(s: Store, e: Event, txId: string, now: int, faults: Faults)
    requires e.ShowBalanceEvent? || e.ShowTransactionsEvent?
    ensures var r := Apply(s, TopicOf(e), Some(e), txId, now, faults);
      && r.store == s
      && (e.ShowBalanceEvent? ==>
            r.outcome == if e.id in s.accounts then BalanceReport(s.accounts[e.id].id, s.accounts[e.id].balance) else RepoFailed(NotFound))
      && (e.ShowTransactionsEvent? ==>
            (r.outcome == IndexPanic <==> |Filter(s.transactions, e.id)| < 2)
            && (r.outcome != IndexPanic ==> r.outcome == TransactionReport(e.id, TransactionsOf(s.transactions, e.id))))
  {
    if e.ShowTransactionsEvent? {
      var records := TransactionsOf(s.transactions, e.id);
      if |records| >= 2 {
        assert records[1] in records;
      }
    }
  }

  /** Across all branches: the only record ever written is the one stamped
      `txId` for the event's own account, it is written exactly when an open,
      deposit or withdraw event is fully applied, and no account row but the
      event's own changes (rows being stored under their own ID). */
  lemma AtMostOneRecordPerEvent(s: Store, topic: string, decoded: Option<Event>, txId: string, now: int, faults: Faults)
    requires DecodedFor(topic, decoded)
    ensures var r := Apply(s, topic, decoded, txId, now, faults);
      && (r.store.transactions == s.transactions
          || (&& decoded.Some?
              && |r.store.transactions| == |s.transactions| + 1
              && r.store.transactions[..|s.transactions|] == s.transactions
              && r.store.transactions[|s.transactions|].id == txId
              && r.store.transactions[|s.transactions|].accountId == decoded.value.id))
      && (|r.store.transactions| == |s.transactions| + 1 <==>
            r.outcome == Applied && KindOf(decoded.value) in {OpenAccount, DepositFund, WithdrawFund})
      && (r.store != s ==> decoded.Some? && r.outcome in {Applied, RepoFailed(WriteFailed)})
      && (WellKeyed(s) ==> forall id :: decoded.Some? && id != decoded.value.id ==>
            (id in r.store.accounts <==> id in s.accounts) && (id in s.accounts ==> r.store.accounts[id] == s.accounts[id]))
  {
    if decoded.Some? && KindOfTopic(topic).Some? {
      var e := decoded.value;
      match e
      case OpenAccountEvent(_, _, _, _) =>
      case DepositFundEvent(_, _) =>
      case WithdrawFundEvent(_, _) =>
      case CloseAccountEvent(_) =>
      case ShowBalanceEvent(_) =>
      case ShowTransactionsEvent(_) =>
    }
  }

  // ---------------------------------------------------------------------
  // The handler as an object that owns the repository.

  class AccountEventHandler {
    const accountRepo: AccountRepository

    constructor (accountRepo: AccountRepository)
      ensures this.accountRepo == accountRepo
    {
      this.accountRepo := accountRepo;
    }

    method Handle(topic: string, decoded: Option<Event>, txId: string, now: int, faults: Faults) returns (outcome: Outcome)
      requires DecodedFor(topic, decoded)
      modifies accountRepo
      ensures Step(accountRepo.State(), outcome) == Apply(old(accountRepo.State()), topic, decoded, txId, now, faults)
    {
      var kind := KindOfTopic(topic);
      if kind.None? {
        return NoHandler;
      }
      if decoded.None? {
        return DecodeFailed;
      }
      var event := decoded.value;
      TopicNameInjective();
      assert KindOf(event) == kind.value;
      match kind.value
      case OpenAccount => outcome := HandleOpenAccount(event, txId, now, faults);
      case DepositFund => outcome := HandleDepositFund(event, txId, now, faults);
      case WithdrawFund => outcome := HandleWithdrawFund(event, txId, now, faults);
      case CloseAccount => outcome := HandleCloseAccount(event, faults);
      case ShowBalance => outcome := HandleShowBalance(event);
      case ShowTransactions => outcome := HandleShowTransactions(event);
    }

    // The branches of `Handle`'s switch, after a successful decode.

    method HandleOpenAccount(event: Event, txId: string, now: int, faults: Faults) returns (outcome: Outcome)
      requires event.OpenAccountEvent?
      modifies accountRepo
      ensures Step(accountRepo.State(), outcome) == ApplyEvent(old(accountRepo.State()), event, txId, now, faults)
    {
      var bankAccount := BankAccount(event.id, event.accountHolder, event.accountType, event.balance);
      var err := accountRepo.SaveAccount(bankAccount, faults.saveFails);
      if err.Some? {
        return RepoFailed(err.value);
      }
      var accountTransaction := AccountTransaction(txId, event.id, "deposit", event.balance, now + SevenHours);
      err := accountRepo.CreateTransaction(accountTransaction, faults.createFails);
      if err.Some? {
        return RepoFailed(err.value);
      }
      outcome := Applied;
    }

    method HandleDepositFund(event: Event, txId: string, now: int, faults: Faults) returns (outcome: Outcome)
      requires event.DepositFundEvent?
      modifies accountRepo
      ensures Step(accountRepo.State(), outcome) == ApplyEvent(old(accountRepo.State()), event, txId, now, faults)
    {
      var found := accountRepo.FindAccountByID(event.id);
      if found.Failure? {
        return RepoFailed(found.error);
      }
      var bankAccount := found.value;
      bankAccount := bankAccount.(balance := bankAccount.balance + event.amount);
      var err := accountRepo.SaveAccount(bankAccount, faults.saveFails);
      if err.Some? {
        return RepoFailed(err.value);
      }
      var accountTransaction := AccountTransaction(txId, event.id, "deposit", event.amount, now + SevenHours);
      err := accountRepo.CreateTransaction(accountTransaction, faults.createFails);
      if err.Some? {
        return RepoFailed(err.value);
      }
      outcome := Applied;
    }

    method HandleWithdrawFund(event: Event, txId: string, now: int, faults: Faults) returns (outcome: Outcome)
      requires event.WithdrawFundEvent?
      modifies accountRepo
      ensures Step(accountRepo.State(), outcome) == ApplyEvent(old(accountRepo.State()), event, txId, now, faults)
    {
      var found := accountRepo.FindAccountByID(event.id);
      if found.Failure? {
        return RepoFailed(found.error);
      }
      var bankAccount := found.value;
      bankAccount := bankAccount.(balance := bankAccount.balance - event.amount);
      var err := accountRepo.SaveAccount(bankAccount, faults.saveFails);
      if err.Some? {
        return RepoFailed(err.value);
      }
      var accountTransaction := AccountTransaction(txId, event.id, "withdraw", event.amount, now + SevenHours);
      err := accountRepo.CreateTransaction(accountTransaction, faults.createFails);
      if err.Some? {
        return RepoFailed(err.value);
      }
      outcome := Applied;
    }

    method HandleCloseAccount(event: Event, faults: Faults) returns (outcome: Outcome)
      requires event.CloseAccountEvent?
      modifies accountRepo
      ensures Step(accountRepo.State(), outcome) == ApplyEvent(old(accountRepo.State()), event, "", 0, faults)
    {
      var err := accountRepo.DeleteAccount(event.id, faults.deleteFails);
      if err.Some? {
        return RepoFailed(err.value);
      }
      outcome := Applied;
    }

    /** Only reads the repository. */
    method HandleShowBalance(event: Event) returns (outcome: Outcome)
      requires event.ShowBalanceEvent?
      ensures outcome == ApplyEvent(accountRepo.State(), event, "", 0, NoFaults).outcome
      ensures outcome.RepoFailed? <==> event.id !in accountRepo.accounts
      ensures outcome.BalanceReport? ==> outcome.balance == accountRepo.accounts[event.id].balance
    {
      var found := accountRepo.FindAccountByID(event.id);
      if found.Failure? {
        return RepoFailed(found.error);
      }
      var bankAccount := found.value;
      outcome := BalanceReport(bankAccount.id, bankAccount.balance);
    }

    /** Only reads the repository; panics on fewer than two records. */
    method HandleShowTransactions(event: Event) returns (outcome: Outcome)
      requires event.ShowTransactionsEvent?
      ensures outcome == ApplyEvent(accountRepo.State(), event, "", 0, NoFaults).outcome
      ensures outcome == IndexPanic <==> |Filter(accountRepo.transactions, event.id)| < 2
      ensures outcome.TransactionReport? ==> outcome.records == TransactionsOf(accountRepo.transactions, event.id)
    {
      var accountTransactions := accountRepo.FindTransactionsByID(event.id);
      if |accountTransactions| < 2 {
        return IndexPanic;
      }
      var accountid := accountTransactions[1].accountId;
      outcome := TransactionReport(accountid, accountTransactions);
    }
  }
}
