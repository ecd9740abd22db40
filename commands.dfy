/** The commands the producer accepts, one per event kind
    (5-Kafka/Sample-Project/producer/commands/command.go). Money is in minor units. */
module Commands {
  import opened Events

  /** Carries no identifier: the account's ID is minted by the service. */
  datatype OpenAccountCommand = OpenAccountCommand(accountHolder: string, accountType: int, balance: int)
  datatype DepositFundCommand = DepositFundCommand(id: string, amount: int)
  datatype WithdrawFundCommand = WithdrawFundCommand(id: string, amount: int)
  datatype CloseAccountCommand = CloseAccountCommand(id: string)
  datatype ShowBalanceCommand = ShowBalanceCommand(id: string)
  datatype ShowTransactionsCommand = ShowTransactionsCommand(id: string)

  /** The request-body keys of the command of each kind: its Go field names. */
  function CommandFieldNames(k: Kind): (r: seq<string>)
  {
    match k
    case OpenAccount => ["AccountHolder", "AccountType", "Balance"]
    case DepositFund => ["ID", "Amount"]
    case WithdrawFund => ["ID", "Amount"]
    case CloseAccount => ["ID"]
    case ShowBalance => ["ID"]
    case ShowTransactions => ["ID"]
  }

  /** Each command's fields are its namesake event's fields; the open-account
      event adds the identifier and nothing else, and the open-account command
      has no identifier the caller could choose. */
  lemma CommandFieldsMatchEvents()
    ensures forall k: Kind, f :: f in CommandFieldNames(k) ==> f in FieldNames(k)
    ensures FieldNames(OpenAccount) == ["ID"] + CommandFieldNames(OpenAccount)
    ensures "ID" !in CommandFieldNames(OpenAccount)
    ensures forall k: Kind :: k != OpenAccount ==> CommandFieldNames(k) == FieldNames(k)
    ensures CommandFieldNames(DepositFund) == CommandFieldNames(WithdrawFund) == ["ID", "Amount"]
    ensures forall k: Kind :: k in {CloseAccount, ShowBalance, ShowTransactions} ==> CommandFieldNames(k) == ["ID"]
  {
  }
}
