# Kafka bank-account ledger and Go tutorial helpers, modelled in Dafny

The main subject is the event-sourced sample project in `5-Kafka/Sample-Project`. It has two halves.

**Producer.** An `accountService` validates six kinds of command: open account, deposit, withdraw, close account, show balance and show transactions. For each valid command it builds the matching event and hands it to an `EventProducer`, which is assumed to publish it on the topic named after the event struct's type (see "## Left out").

**Consumer.** An `accountEventHandler` switches on the topic and decodes the message into the struct that topic selects. It then drives an `AccountRepository`, a gorm table of bank accounts plus an append-only table of transaction records. It can:
- open an account and record its opening deposit;
- load an account, change its balance, save it and record the deposit or withdrawal;
- delete an account;
- report a balance;
- list an account's records, newest first.

Every repository error ends the handling of that event, after logging.

The model follows the Go code file by file:
- `events.dfy` holds the event structs, the `Topics` list (the constant `Events.Topics`, built from `Events.TopicName`), and a field-by-field payload with its encoding and decoding.
- `commands.dfy` holds the command structs. `Commands.CommandFieldNames` transcribes the field lists of the struct declarations in `5-Kafka/Sample-Project/producer/commands/command.go:3-29`; Go has no value-level view of a struct's fields to tie it to.
- `producer.dfy` holds the validation as pure functions. `AccountService` is a class whose methods append to the `EventProducer`'s sequence of handed-over events.
- `repositories.dfy` holds the repository. It is a class over an account map and a record sequence, and each operation is specified by a function on the store.
- `consumer.dfy` holds the handler. It is a class that owns the repository.
  - `Handle` is proved equal to the specification function `Apply`.
  - The open, deposit, withdraw and close branch methods are each proved equal to their branch of `ApplyEvent`.
  - The two query methods are proved to report `ApplyEvent`'s outcome and to leave the repository unchanged.
- `ledger.dfy` states what sequences of events do. `Ledger.Run` handles deliveries in order, with no database errors, and stops at the first index panic, because that panic is not recovered and ends the consumer process. It states:
  - final balances;
  - record counts;
  - the rule that an account's balance equals the signed sum of its records.
- `pipeline.dfy` joins producer and consumer: an event is published, decoded and handled.

A second, smaller subject is the Go basic-syntax tutorial:
- `basic_syntax.dfy` covers the helpers in `1-Basic-Syntax/main.go`: the arithmetic helpers, `cal`, the two summing loops, the write through a pointer, and in-place slice removal.
- `customer.dfy` covers `1-Basic-Syntax/customer/a.go`: the exported package variable `Name` (`a.go:10`), which nothing reassigns and so is modelled as the constant `Customer.Name`, `Multi`, and `Person` with its getters and setters.

Integer arithmetic on Go's `int` wraps around at 64 bits; `goint.dfy` writes this out.

Two behaviours of the code are worth stating up front:
- **Handling is not all-or-nothing.** The open branch (`5-Kafka/Sample-Project/consumer/services/account.go:42-59`), and likewise the deposit and withdraw branches, save the account first and only then create the transaction record, with no transaction around the two writes. A failed `CreateTransaction` therefore leaves a changed balance with no record. `Ledger.PartialFailureBreaksConsistency` exhibits this. `Ledger.ApplyKeepsConsistent` proves the balance/record invariant only for runs with no database errors.
- **Comment versus code.** The comment after the last `cal` call at `1-Basic-Syntax/main.go:308-310` says `120`, but the function passed there returns `-a - a - b - b`, which is `-120`. `BasicSyntax.CalPrintedValues` follows the code.

## Model

| member | source | states |
|---|---|---|
| Events.KindOfTopic | 5-Kafka/Sample-Project/consumer/services/account.go:27-179 | a topic selects a branch exactly when it is one of `Topics`, and then the event kind whose type name it is; any other topic goes to the default branch |
| Events.TopicOfRoutesBack | 5-Kafka/Sample-Project/events/event.go:5-12 | every event's topic is in `Topics` and leads the switch back to that event's own kind |
| Events.TopicsInDeclarationOrder | 5-Kafka/Sample-Project/events/event.go:5-12 | `Topics` has exactly six entries, the type names of the six event structs in declaration order, and every kind is among them |
| Events.TopicNamesDistinct | 5-Kafka/Sample-Project/events/event.go:6-11 | the six topic names are pairwise distinct |
| Events.TopicNameInjective | 5-Kafka/Sample-Project/events/event.go:6-11 | two kinds with the same type name are the same kind |
| Events.EveryTopicHasHandler | 5-Kafka/Sample-Project/events/event.go:5-12 | every entry of `Topics` is matched by a case of the handler's switch, and each kind's name selects that kind |
| Events.TopicName | 5-Kafka/Sample-Project/events/event.go:5-12 | the topic of a kind is its event struct's type name; its properties are stated by the lemmas below |
| Events.Encode | 5-Kafka/Sample-Project/events/event.go:17-44 | an event's payload carries exactly its struct's field names, in declaration order |
| Events.MemberIsLastWithKey | 5-Kafka/Sample-Project/consumer/services/account.go:30-35 | a key is found exactly when some member of the payload has it, and the value found is that of the last such member |
| Events.Decode | 5-Kafka/Sample-Project/consumer/services/account.go:30-35 | decoding into the struct a topic selects yields, when it succeeds, an event of that kind |
| Events.MistypedIffSomeMember | 5-Kafka/Sample-Project/consumer/services/account.go:30-35 | a key counts as mistyped exactly when some member with that key, at any position, holds a value of the wrong JSON type |
| Events.DecodeFailsOnMistypedField | 5-Kafka/Sample-Project/consumer/services/account.go:30-35 | decoding fails exactly when one of the struct's field names is mistyped |
| Events.DecodeRejects | 5-Kafka/Sample-Project/consumer/services/account.go:30-35 | decoding fails exactly when some member whose key is one of the struct's fields holds the wrong JSON type, wherever it sits and whatever later members say; unknown keys never cause a failure |
| Events.DecodeFields | 5-Kafka/Sample-Project/consumer/services/account.go:30-35 | when decoding succeeds, each field of the event holds the value of the last member with that field's key, or the zero value when there is none |
| Events.EarlierMistypedMemberRejected | 5-Kafka/Sample-Project/consumer/services/account.go:30-35 | a number under "ID" followed by a text "ID" is a decode error for a close event, while an unknown key of any type is ignored |
| Events.FieldReadBack | 5-Kafka/Sample-Project/events/event.go:17-44 | in a payload with distinct keys, each member is found under its own key and its key is not mistyped |
| Events.RoundTrip | 5-Kafka/Sample-Project/events/event.go:17-44 | decoding an event's own payload as its own kind gives back the same event |
| Events.DepositAndWithdrawShareShape | 5-Kafka/Sample-Project/events/event.go:24-32 | deposit and withdraw events have the same fields and the same payload, and a payload decodes as one exactly when it decodes as the other, so only the topic tells them apart |
| Events.OnlyOpenCarriesAccountDetails | 5-Kafka/Sample-Project/events/event.go:17-44 | holder, type and balance are fields of the open-account event only; close and both show events carry only an ID; every event carries an ID |
| Commands.CommandFieldsMatchEvents | 5-Kafka/Sample-Project/producer/commands/command.go:3-29 | each command's fields are among its event's fields; the open-account command has no ID, and its event adds exactly the ID; deposit and withdraw commands carry exactly ID and Amount; the rest carry only an ID |
| Producer.OpenAccountEventFor | 5-Kafka/Sample-Project/producer/services/account.go:29-40 | "bad request" exactly when the holder is empty, the type is 0 or the balance is 0; otherwise an open-account event with the fresh ID and the command's holder, type and balance |
| Producer.DepositFundEventFor | 5-Kafka/Sample-Project/producer/services/account.go:46-54 | "bad request" exactly when the ID is empty or the amount is 0; otherwise a deposit event with the command's ID and amount |
| Producer.WithdrawFundEventFor | 5-Kafka/Sample-Project/producer/services/account.go:60-68 | "bad request" exactly when the ID is empty or the amount is 0; otherwise a withdraw event with the command's ID and amount |
| Producer.CloseAccountEventFor | 5-Kafka/Sample-Project/producer/services/account.go:74-81 | "bad request" exactly when the ID is empty; otherwise a close event with the same ID |
| Producer.ShowBalanceEventFor | 5-Kafka/Sample-Project/producer/services/account.go:87-94 | "bad request" exactly when the ID is empty; otherwise a show-balance event with the same ID |
| Producer.ShowTransactionsEventFor | 5-Kafka/Sample-Project/producer/services/account.go:100-107 | "bad request" exactly when the ID is empty; otherwise a show-transactions event with the same ID |
| Producer.NegativeAmountsAccepted | 5-Kafka/Sample-Project/producer/services/account.go:47-49 | a negative amount with a non-empty ID passes validation for both deposit and withdraw |
| Producer.DerivedEventsReachTheirHandler | 5-Kafka/Sample-Project/producer/services/account.go:43 | the topic of any produced event selects that event's own branch in the consumer, and its payload decodes back to it |
| Producer.Passed | 5-Kafka/Sample-Project/producer/services/account.go:43 | the error a service method returns for a broker reply is never bad request, so a broker failure is never taken for a validation failure, and the broker's reply can be read back from it: nil for nil, otherwise the same message |
| Producer.EventProducer.Produce | 5-Kafka/Sample-Project/producer/services/account.go:43 | the event is appended to the handed-over events and the producer's reply is returned |
| Producer.AccountService.constructor | 5-Kafka/Sample-Project/producer/services/account.go:25-27 | the service holds the given producer |
| Producer.AccountService.OpenAccount | 5-Kafka/Sample-Project/producer/services/account.go:29-44 | an invalid command returns ("", bad request) and produces nothing; a valid one produces exactly its event once, returns that event's fresh ID, and returns the producer's error unchanged |
| Producer.AccountService.DepositFund | 5-Kafka/Sample-Project/producer/services/account.go:46-58 | an invalid command returns bad request with nothing produced; a valid one produces exactly its event once and returns the producer's error |
| Producer.AccountService.WithdrawFund | 5-Kafka/Sample-Project/producer/services/account.go:60-72 | as for deposit, with a withdraw event |
| Producer.AccountService.CloseAccount | 5-Kafka/Sample-Project/producer/services/account.go:74-85 | an empty ID returns bad request with nothing produced; otherwise exactly one close event is produced and the producer's error is returned |
| Producer.AccountService.ShowBalance | 5-Kafka/Sample-Project/producer/services/account.go:87-98 | an empty ID returns bad request with nothing produced; otherwise exactly one show-balance event is produced and the producer's error is returned |
| Producer.AccountService.ShowTransactions | 5-Kafka/Sample-Project/producer/services/account.go:100-111 | an empty ID returns bad request with nothing produced; otherwise exactly one show-transactions event is produced and the producer's error is returned |
| Producer.ServiceDemo | 5-Kafka/Sample-Project/producer/services/account.go:29-85 | an invalid open, a negative deposit, a withdraw with no ID and a close whose produce fails: the open returns an empty ID and bad request, and the close returns the producer's error unchanged, and exactly the deposit and close events are produced, in call order |
| Repositories.Saved | 5-Kafka/Sample-Project/consumer/repositories/account.go:42-44 | save inserts or replaces the row under the account's ID, leaves every other row and all records unchanged, and keeps rows stored under their own IDs |
| Repositories.Deleted | 5-Kafka/Sample-Project/consumer/repositories/account.go:46-48 | delete removes the row if there is one (a missing row is not an error) and changes nothing else |
| Repositories.Find | 5-Kafka/Sample-Project/consumer/repositories/account.go:50-53 | lookup succeeds exactly when a row exists, returning that row, and otherwise fails with record-not-found |
| Repositories.Created | 5-Kafka/Sample-Project/consumer/repositories/account.go:55-57 | creating a record appends exactly that record and touches no account |
| Repositories.SaveThenFind | 5-Kafka/Sample-Project/consumer/repositories/account.go:42-53 | a lookup right after a save returns the saved account |
| Repositories.Filter | 5-Kafka/Sample-Project/consumer/repositories/account.go:60 | `where account_id = ?` keeps exactly the records of that account |
| Repositories.FilterCounts | 5-Kafka/Sample-Project/consumer/repositories/account.go:60 | the filter keeps every copy of each record of that account and no copy of any other record |
| Repositories.FilterAppend | 5-Kafka/Sample-Project/consumer/repositories/account.go:55-62 | a newly created record shows up at the end of its own account's filtered records and nowhere else |
| Repositories.InsertNewestFirst | 5-Kafka/Sample-Project/consumer/repositories/account.go:60 | inserting into the newest-first order adds exactly one record |
| Repositories.InsertBounded | 5-Kafka/Sample-Project/consumer/repositories/account.go:60 | insertion keeps an upper bound on timestamps |
| Repositories.InsertKeepsOrder | 5-Kafka/Sample-Project/consumer/repositories/account.go:60 | insertion into a newest-first sequence keeps it newest first |
| Repositories.OrderNewestFirst | 5-Kafka/Sample-Project/consumer/repositories/account.go:60 | `order by create_at desc` yields a permutation of its input, newest first |
| Repositories.TransactionsOf | 5-Kafka/Sample-Project/consumer/repositories/account.go:59-62 | an account's history is a permutation of exactly its records, newest first |
| Repositories.TransactionsOfCounts | 5-Kafka/Sample-Project/consumer/repositories/account.go:59-62 | an account's history holds each of its records as many times as the table does, and nothing else |
| Repositories.AccountRepository.constructor | 5-Kafka/Sample-Project/consumer/repositories/account.go:36-40 | the repository wraps the given database and starts with exactly its existing accounts and records |
| Repositories.AccountRepository.SaveAccount | 5-Kafka/Sample-Project/consumer/repositories/account.go:42-44 | reports a write failure and changes nothing when the database fails; otherwise the new state is the upsert |
| Repositories.AccountRepository.DeleteAccount | 5-Kafka/Sample-Project/consumer/repositories/account.go:46-48 | reports a write failure and changes nothing when the database fails; otherwise the row is gone and nothing else changes |
| Repositories.AccountRepository.FindAccountByID | 5-Kafka/Sample-Project/consumer/repositories/account.go:50-53 | returns the stored row when there is one, and record-not-found otherwise |
| Repositories.AccountRepository.CreateTransaction | 5-Kafka/Sample-Project/consumer/repositories/account.go:55-57 | reports a write failure and changes nothing when the database fails; otherwise the record is appended |
| Repositories.AccountRepository.FindTransactionsByID | 5-Kafka/Sample-Project/consumer/repositories/account.go:59-62 | never fails, and returns exactly the account's records, newest first |
| Consumer.ApplyOpen | 5-Kafka/Sample-Project/consumer/services/account.go:36-60 | the open branch as a function of the store; what it does is stated by `Consumer.OpenAccountEffect` |
| Consumer.ApplyFunds | 5-Kafka/Sample-Project/consumer/services/account.go:62-126 | the deposit and withdraw branches as one function of the store; what they do is stated by `Consumer.FundsApplied` and `Consumer.FundsEffect` |
| Consumer.ApplyEvent | 5-Kafka/Sample-Project/consumer/services/account.go:36-177 | the six branches by event kind; each branch's effect is stated by the lemmas below |
| Consumer.Apply | 5-Kafka/Sample-Project/consumer/services/account.go:26-181 | the whole handler as a function of the store, with the default branch and decode failures; `Consumer.AccountEventHandler.Handle` is proved equal to it |
| Consumer.UnknownTopicIsIgnored | 5-Kafka/Sample-Project/consumer/services/account.go:178-179 | a topic outside `Topics` reaches the default branch and leaves the repository unchanged |
| Consumer.DecodeFailureChangesNothing | 5-Kafka/Sample-Project/consumer/services/account.go:31-35 | when the payload does not decode, every branch returns before any repository call |
| Consumer.OpenAccountEffect | 5-Kafka/Sample-Project/consumer/services/account.go:36-60 | a failed save changes nothing; otherwise the account with the event's ID, holder, type and balance is stored and found; then, unless creating the record fails, exactly one "deposit" record of the opening balance, stamped 7 hours ahead, is appended |
| Consumer.FundsApplied | 5-Kafka/Sample-Project/consumer/services/account.go:62-126 | with no database errors, a deposit or withdraw on an existing account is a save of that row with its balance moved by the signed amount, followed by the creation of one record of the event's type and amount, stamped 7 hours ahead |
| Consumer.FundsEffect | 5-Kafka/Sample-Project/consumer/services/account.go:62-126 | an unknown account changes nothing and reports not-found; a failed save changes nothing; otherwise the balance rises (deposit) or falls (withdraw) by exactly the amount, with no overdraft or sign check, and one record of that type and amount is appended unless creating it fails |
| Consumer.CloseAccountEffect | 5-Kafka/Sample-Project/consumer/services/account.go:128-140 | close deletes the row, so a later lookup is not-found, and leaves every record, and every account's history, untouched |
| Consumer.QueriesAreReadOnly | 5-Kafka/Sample-Project/consumer/services/account.go:142-177 | both queries leave the store unchanged; the balance query reports the stored ID and balance or not-found; the history query panics exactly when the account has fewer than two records and otherwise reports its newest-first history |
| Consumer.AtMostOneRecordPerEvent | 5-Kafka/Sample-Project/consumer/services/account.go:26-181 | any message appends at most one record, stamped with the drawn ID, for the event's own account; it appends one exactly when an open, deposit or withdraw is fully applied; store changes happen only on success or on a write failure; no other account row changes |
| Consumer.AccountEventHandler.constructor | 5-Kafka/Sample-Project/consumer/services/account.go:22-24 | the handler holds the given repository |
| Consumer.AccountEventHandler.Handle | 5-Kafka/Sample-Project/consumer/services/account.go:26-181 | the repository's new state and the outcome are exactly those of the handler's specification, for every topic, payload and database failure |
| Consumer.AccountEventHandler.HandleOpenAccount | 5-Kafka/Sample-Project/consumer/services/account.go:36-60 | the open branch's save-then-create sequence, with early returns, ends in the specified state |
| Consumer.AccountEventHandler.HandleDepositFund | 5-Kafka/Sample-Project/consumer/services/account.go:69-93 | the deposit branch's find, add, save and create sequence ends in the specified state |
| Consumer.AccountEventHandler.HandleWithdrawFund | 5-Kafka/Sample-Project/consumer/services/account.go:102-126 | the withdraw branch's find, subtract, save and create sequence ends in the specified state |
| Consumer.AccountEventHandler.HandleCloseAccount | 5-Kafka/Sample-Project/consumer/services/account.go:135-139 | the close branch's delete ends in the specified state |
| Consumer.AccountEventHandler.HandleShowBalance | 5-Kafka/Sample-Project/consumer/services/account.go:149-157 | reports not-found exactly when the account is missing, and otherwise its stored balance |
| Consumer.AccountEventHandler.HandleShowTransactions | 5-Kafka/Sample-Project/consumer/services/account.go:166-176 | panics on `accountTransactions[1]` exactly when fewer than two records exist, and otherwise reports the newest-first history |
| Ledger.Run | 5-Kafka/Sample-Project/consumer/services/account.go:26-181 | deliveries are handled one at a time in order, with no database errors, and an index panic ends the run with the store as it was |
| Ledger.RunStopsAtPanic | 5-Kafka/Sample-Project/consumer/services/account.go:166-176 | a history query for an account with fewer than two records stops the run, so no later delivery is handled |
| Ledger.RecordedKeepsConsistent | 5-Kafka/Sample-Project/consumer/services/account.go:42-59 | saving an account whose balance is its old record sum plus a new record's signed amount, then appending that record, keeps every balance equal to its record sum |
| Ledger.ApplyKeepsConsistent | 5-Kafka/Sample-Project/consumer/services/account.go:26-181 | with no database errors, handling any message keeps every account's balance equal to the signed sum of its records, provided an opened ID has no earlier records |
| Ledger.PartialFailureBreaksConsistency | 5-Kafka/Sample-Project/consumer/services/account.go:42-59 | a save that succeeds followed by a record creation that fails leaves a balance of 100.00 with no record behind it |
| Ledger.FundsStep | 5-Kafka/Sample-Project/consumer/services/account.go:62-126 | one deposit or withdraw for an existing account moves its balance by the signed amount and leaves other accounts alone |
| Ledger.FundsStepHistory | 5-Kafka/Sample-Project/consumer/services/account.go:62-126 | the same step adds exactly one record to that account's history and its signed amount to the account's record sum |
| Ledger.FundsReplay | 5-Kafka/Sample-Project/consumer/services/account.go:62-126 | in-order deposits and withdrawals for an existing account leave its balance moved by deposits minus withdrawals and its history longer by their number, with other accounts untouched |
| Ledger.OpenStep | 5-Kafka/Sample-Project/consumer/services/account.go:36-60 | handling an open stores exactly the requested account and adds one record, of the opening balance, to its history and record sum |
| Ledger.OpenThenFunds | 5-Kafka/Sample-Project/consumer/services/account.go:36-126 | an open followed by in-order deposits and withdrawals ends with the opened account holding the initial balance plus deposits minus withdrawals and 1 + n more records |
| Ledger.FreshAccountLedger | 5-Kafka/Sample-Project/consumer/services/account.go:36-126 | for a fresh ID, that run leaves exactly 1 + n records whose signed sum equals the final balance |
| Ledger.AliceStore | 5-Kafka/Sample-Project/consumer/services/account.go:36-126 | opening Alice with 100.00, depositing 50.00 and withdrawing 30.00 on an empty store leaves exactly her account with 120.00 and the three records in creation order |
| Ledger.ThreeRecordsNewestFirst | 5-Kafka/Sample-Project/consumer/repositories/account.go:59-62 | three records of one account created at increasing times are all kept by the filter and come back in reverse creation order |
| Ledger.AliceScenario | 5-Kafka/Sample-Project/consumer/services/account.go:26-177 | after that run the balance is 120.00, the history is exactly withdraw 30.00, deposit 50.00, deposit 100.00 (newest first), the balance query reports 120.00 and the history query reports that history |
| Ledger.WithdrawFromUnknownAccount | 5-Kafka/Sample-Project/consumer/services/account.go:102-106 | a withdraw for an unknown account reports not-found and changes nothing |
| Pipeline.Received | 5-Kafka/Sample-Project/consumer/services/account.go:26-35 | whatever the consumer decodes is of the kind its topic names |
| Pipeline.PublishedEventArrivesIntact | 5-Kafka/Sample-Project/consumer/services/account.go:29-35 | an event published on its own topic is decoded by the consumer as exactly that event |
| Pipeline.HandledAsPublished | 5-Kafka/Sample-Project/consumer/services/account.go:26-35 | the handler does with a published message exactly what it does with the event itself, for every store and database failure |
| Pipeline.OpenAccountEndToEnd | 5-Kafka/Sample-Project/producer/services/account.go:29-44 | a valid open command, published and handled without database errors, stores exactly the requested account under the fresh ID and one opening "deposit" record, which is the whole history of a new ID |
| Pipeline.InvalidOpenAccountRefused | 5-Kafka/Sample-Project/producer/services/account.go:29-33 | `OpenAccount` on a command with an empty holder, a zero type or a zero balance returns an empty ID and bad request, whatever the broker would reply, and hands nothing to the producer |
| Pipeline.DepositEndToEnd | 5-Kafka/Sample-Project/consumer/services/account.go:62-93 | a valid deposit command for an existing account, published and handled, raises its balance by exactly the amount and appends one "deposit" record of it |
| Pipeline.DepositSettled | 5-Kafka/Sample-Project/consumer/services/account.go:62-93 | a decoded deposit for an existing account, handled without database errors, raises its balance by the amount and appends its record |
| Pipeline.WithdrawEndToEnd | 5-Kafka/Sample-Project/consumer/services/account.go:95-126 | a valid withdraw command for an existing account, published and handled, lowers its balance by exactly the amount, with no overdraft check, and appends one "withdraw" record of it |
| Pipeline.WithdrawSettled | 5-Kafka/Sample-Project/consumer/services/account.go:95-126 | a decoded withdraw for an existing account, handled without database errors, lowers its balance by the amount and appends its record |
| Pipeline.ShowBalanceEndToEnd | 5-Kafka/Sample-Project/consumer/services/account.go:142-157 | a balance query, published and handled, reports the stored balance or not-found and changes nothing |
| BasicSyntax.Sum1 | 1-Basic-Syntax/main.go:470-474 | `sum1` returns 15, as printed |
| BasicSyntax.Add | 1-Basic-Syntax/main.go:485-487 | `add` is the exact sum whenever it fits in 64 bits, and otherwise that sum wrapped modulo 2^64 |
| BasicSyntax.Sub | 1-Basic-Syntax/main.go:490-492 | `sub` is the exact difference whenever it fits, and otherwise that difference wrapped modulo 2^64 |
| BasicSyntax.Sum2 | 1-Basic-Syntax/main.go:476-478 | `sum2` computes the same value as `add` |
| BasicSyntax.Cal | 1-Basic-Syntax/main.go:494-497 | `cal` applies the given function to 50 and 10; its printed values are stated by `BasicSyntax.CalPrintedValues` |
| BasicSyntax.Sum3 | 1-Basic-Syntax/main.go:480-482 | `sum3` returns the sum, "Hello" and true |
| BasicSyntax.SubUndoesAdd | 1-Basic-Syntax/main.go:485-492 | `sub(add(a, b), b)` is `a` for every pair, overflow included |
| BasicSyntax.CalPrintedValues | 1-Basic-Syntax/main.go:285-310 | `cal` prints 60 for `add`, 40 for `sub`, 120 for `f3` and -120 for the negating literal |
| BasicSyntax.SumElement1 | 1-Basic-Syntax/main.go:499-505 | the loop returns the sum of the elements, wrapped to 64 bits, and 0 for an empty slice |
| BasicSyntax.SumElement2 | 1-Basic-Syntax/main.go:507-513 | the variadic loop returns the same sum |
| BasicSyntax.SumElementDemo | 1-Basic-Syntax/main.go:322-336 | [100, 200, 300] sums to 600 and 1000..5000 to 15000 |
| BasicSyntax.IntVar.constructor | 1-Basic-Syntax/main.go:412 | a variable starts at the value it is declared with |
| BasicSyntax.SumPointer | 1-Basic-Syntax/main.go:515-519 | the pointee holds 30 afterwards, and nothing else is written |
| BasicSyntax.SumPointerDemo | 1-Basic-Syntax/main.go:412-414 | `var5` reads 30 after the call, and another variable keeps its value |
| BasicSyntax.RemovedElements | 1-Basic-Syntax/main.go:168-169 | removing index k keeps the elements before k, shifts the rest one place left, and drops exactly one occurrence of the removed element |
| BasicSyntax.RemoveAt | 1-Basic-Syntax/main.go:168 | `append(s[:k], s[k+1:]...)` leaves, in the same backing array, the sequence without index k, and keeps the old last element in the last slot |
| BasicSyntax.SliceRemovalDemo | 1-Basic-Syntax/main.go:157-169 | removing index 4 gives [10 20 30 40 60 70 80 90], and the shared backing array ends in two 90s |
| BasicSyntax.GetterSetterDemo | 1-Basic-Syntax/main.go:465-467 | after `SetName("Pasakorn")` on a zero `Person`, `GetName` returns "Pasakorn" and the age is still 0 |
| Customer.Multi | 1-Basic-Syntax/customer/a.go:13-15 | the exact product whenever it fits in 64 bits, and otherwise that product wrapped modulo 2^64 |
| Customer.MultiPrintedValue | 1-Basic-Syntax/main.go:349-350 | `Multi(5, 5)` is 25 |
| Customer.Person.constructor | 1-Basic-Syntax/customer/a.go:21-24 | `Person{}` has an empty name and age 0 |
| Customer.Person.GetName | 1-Basic-Syntax/customer/a.go:26-28 | the getter reads the private name; `Customer.Person.SetName` states what it returns after a set |
| Customer.Person.GetAge | 1-Basic-Syntax/customer/a.go:30-32 | the getter reads the private age; `Customer.Person.SetAge` states what it returns after a set |
| Customer.Person.SetName | 1-Basic-Syntax/customer/a.go:34-36 | `GetName` afterwards returns the new name, and the age is unchanged |
| Customer.Person.SetAge | 1-Basic-Syntax/customer/a.go:38-40 | `GetAge` afterwards returns the new age, and the name is unchanged |

## Left out

- The HTTP controllers (`5-Kafka/Sample-Project/producer/controllers/account.go`) and the Fiber tutorial: they only parse request bodies and write JSON responses.
- The Kafka transport and the real `EventProducer`, whose implementation is not part of this model. The producer is an object that records each event handed to it, and the broker's reply is a parameter. Consumer groups and their concurrency are also left out.
- Publishing: the producer's code is not part of this model, so it is an assumption that it sends an event as `Events.Encode(e)` on the topic `Events.TopicOf(e)`, the event struct's type name. `Pipeline.PublishedEventArrivesIntact`, `Pipeline.HandledAsPublished` and the `Pipeline` end-to-end lemmas rest on that assumption.
- Ledger.Run: covers runs without database errors only; a run with failing writes is stated one message at a time by the `Consumer` lemmas.
- JSON at byte level. A payload is a sequence of named text or number fields. The consumer's `json.Unmarshal` result is an `Option<Event>` input, whose kind must match the topic, since Go decodes into the struct the topic selects. Unmarshal's case-insensitive key matching is not modelled. An absent field decodes to its zero value. A member with a field's key but a value of the wrong JSON type is a decode error wherever it sits in the object, even when a later member with the same key is well-typed, because `json.Unmarshal` keeps the first such error and returns it at the end. Unknown keys are ignored. When a key repeats, the last member wins.
- `uuid.New()` and `time.Now()` are parameters: `txId` is the drawn ID and `now` is the clock reading in nanoseconds. The model adds the 7-hour offset explicitly.
- `Balance` and `Amount` are `float64` in the source. Here they are exact integers in minor units, so rounding and NaN/infinity behaviour are out of scope. `AccountType` is Go `int`, also an unbounded integer here.
- Database failures are modelled only as a failing write (a boolean per write) and as record-not-found on lookup. Connection errors on reads are left out, so `FindTransactionsByID` never fails; gorm's `Find` does not report an empty result as an error.
- Records with equal `create_at` keep store order in an account's history; SQL leaves their order unspecified.
- Logging (`log.Printf`, `fmt.Println`) is left out, and so is every print inside the tutorial's `main`. Demo members return the printed value instead.
- Consumer.FundsEffect: states the new balance only for a row stored under its own ID. Rows the handler writes always are, because save is keyed by ID.
- Consumer.AtMostOneRecordPerEvent: its "no other row changes" clause is stated for stores whose rows sit under their own IDs, for the same reason.
- Ledger.ApplyKeepsConsistent: covers runs without database errors only. With a failing record creation the invariant is broken, as `Ledger.PartialFailureBreaksConsistency` shows.
- The rest of the tutorial's `main` (arrays, maps, loops that print, `Person.Hello`, struct copying) is left out; those are demonstrations of language features with no function to model.
- `3-Gorm/main.go` and the Redis sub-project are left out: they are ORM and cache demos whose behaviour lives in gorm, MySQL and Redis.
