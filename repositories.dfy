/** The consumer's account store (5-Kafka/Sample-Project/consumer/repositories/account.go):
    the `bank_accounts` table keyed by account ID and the append-only
    `account_transactions` table, behind the five repository operations. */
module Repositories {
  import opened Wrappers

  /** Money in minor units. */
  datatype BankAccount = BankAccount(id: string, accountHolder: string, accountType: int, balance: int)

  /** `createAt` is a timestamp in nanoseconds. */
  datatype AccountTransaction = AccountTransaction(id: string, accountId: string, transactionType: string, amount: int, createAt: int)

  /** NotFound is gorm's record-not-found from `First`; WriteFailed is any error
      the database returns for a write statement. */
  datatype RepoError = NotFound | WriteFailed

  /** The contents of both tables. */
  datatype Store = Store(accounts: map<string, BankAccount>, transactions: seq<AccountTransaction>)

  /** Every row sits under its own ID, which `SaveAccount` keeps so. */
  predicate WellKeyed(s: Store)
  {
    forall id :: id in s.accounts ==> s.accounts[id].id == id
  }

  // ---------------------------------------------------------------------
  // The effect of each operation on the tables.

  /** `Save`: insert, or replace the row with the same primary key; other rows stay. */
  function Saved(s: Store, account: BankAccount): (r: Store)
    ensures r.transactions == s.transactions
    ensures account.id in r.accounts && r.accounts[account.id] == account
    ensures forall id :: id != account.id ==> (id in r.accounts <==> id in s.accounts)
    ensures forall id :: id != account.id && id in s.accounts ==> r.accounts[id] == s.accounts[id]
    ensures WellKeyed(s) ==> WellKeyed(r)
  {
    s.(accounts := s.accounts[account.id := account])
  }

  /** `Delete ... where id=?`: removes that row if present (no error when absent)
      and leaves the transactions alone. */
  function Deleted(s: Store, id: string): (r: Store)
    ensures r.transactions == s.transactions
    ensures id !in r.accounts
    ensures forall other :: other != id ==> (other in r.accounts <==> other in s.accounts)
    ensures forall other :: other != id && other in s.accounts ==> r.accounts[other] == s.accounts[other]
    ensures WellKeyed(s) ==> WellKeyed(r)
  {
    s.(accounts := s.accounts - {id})
  }

  /** `First ... where id=?`: the stored row, or record-not-found. */
  function Find(s: Store, id: string): (r: Result<BankAccount, RepoError>)
    ensures r.Success? <==> id in s.accounts
    ensures r.Success? ==> r.value == s.accounts[id]
    ensures r.Failure? ==> r.error == NotFound
  {
    if id in s.accounts then Success(s.accounts[id]) else Failure(NotFound)
  }

  /** `Create`: one record is appended and none changes. */
  function Created(s: Store, t: AccountTransaction): (r: Store)
    ensures r.accounts == s.accounts
    ensures |r.transactions| == |s.transactions| + 1
    ensures r.transactions[..|s.transactions|] == s.transactions
    ensures r.transactions[|s.transactions|] == t
  {
    s.(transactions := s.transactions + [t])
  }

  /** Saving a row and then looking it up finds that row. */
  lemma SaveThenFind(s: Store, account: BankAccount)
    ensures Find(Saved(s, account), account.id) == Success(account)
  {
  }

  // ---------------------------------------------------------------------
  // `where account_id=? order by create_at desc`.

  /** The records of one account, in store order. */
  function Filter(txs: seq<AccountTransaction>, id: string): (r: seq<AccountTransaction>)
    ensures |r| <= |txs|
    ensures forall t :: t in r <==> t in txs && t.accountId == id
  {
    if txs == [] then []
    else
      var rest := Filter(txs[..|txs| - 1], id);
      var last := txs[|txs| - 1];
      assert txs == txs[..|txs| - 1] + [last];
      if last.accountId == id then rest + [last] else rest
  }

  /** Filtering keeps every copy of a record of the account and no copy of
      any other record. */
  lemma {:induction false} FilterCounts(txs: seq<AccountTransaction>, id: string)
    ensures forall t :: multiset(Filter(txs, id))[t] == if t.accountId == id then multiset(txs)[t] else 0
    decreases |txs|
  {
    if txs != [] {
      var init, last := txs[..|txs| - 1], txs[|txs| - 1];
      assert txs == init + [last];
      FilterCounts(init, id);
      assert multiset(txs) == multiset(init) + multiset{last};
    }
  }

  lemma FilterAppend(txs: seq<AccountTransaction>, t: AccountTransaction, id: string)
    ensures Filter(txs + [t], id) == if t.accountId == id then Filter(txs, id) + [t] else Filter(txs, id)
  {
    assert (txs + [t])[..|txs|] == txs;
  }

  /** Newest first: `create_at` never increases along the sequence. */
  predicate NewestFirst(xs: seq<AccountTransaction>)
  {
    forall i, j :: 0 <= i < j < |xs| ==> xs[i].createAt >= xs[j].createAt
  }

  /** No record is newer than `bound`. */
  predicate NoneNewerThan(xs: seq<AccountTransaction>, bound: int)
  {
    forall i :: 0 <= i < |xs| ==> xs[i].createAt <= bound
  }

  /** Places t after every record at least as new as it. */
  function InsertNewestFirst(xs: seq<AccountTransaction>, t: AccountTransaction): (r: seq<AccountTransaction>)
    ensures |r| == |xs| + 1
    ensures multiset(r) == multiset(xs) + multiset{t}
  {
    if xs == [] then [t]
    else if xs[0].createAt >= t.createAt then
      assert xs == [xs[0]] + xs[1..];
      [xs[0]] + InsertNewestFirst(xs[1..], t)
    else
      [t] + xs
  }

  lemma {:induction false} InsertBounded(xs: seq<AccountTransaction>, t: AccountTransaction, bound: int)
    requires NoneNewerThan(xs, bound) && t.createAt <= bound
    ensures NoneNewerThan(InsertNewestFirst(xs, t), bound)
  {
    if xs != [] && xs[0].createAt >= t.createAt {
      InsertBounded(xs[1..], t, bound);
    }
  }

  /** A record no older than any in an ordered sequence can go in front. */
  lemma ConsKeepsOrder(x: AccountTransaction, xs: seq<AccountTransaction>)
    requires NewestFirst(xs) && NoneNewerThan(xs, x.createAt)
    ensures NewestFirst([x] + xs)
  {
    var r := [x] + xs;
    forall i, j | 0 <= i < j < |r|
      ensures r[i].createAt >= r[j].createAt
    {
      assert r[j] == xs[j - 1];
      if i > 0 {
        assert r[i] == xs[i - 1];
      }
    }
  }

  lemma {:induction false} InsertKeepsOrder(xs: seq<AccountTransaction>, t: AccountTransaction)
    requires NewestFirst(xs)
    ensures NewestFirst(InsertNewestFirst(xs, t))
  {
    if xs == [] {
    } else if xs[0].createAt >= t.createAt {
      assert NewestFirst(xs[1..]);
      InsertKeepsOrder(xs[1..], t);
      InsertBounded(xs[1..], t, xs[0].createAt);
      ConsKeepsOrder(xs[0], InsertNewestFirst(xs[1..], t));
    } else {
      assert NoneNewerThan(xs, t.createAt);
      ConsKeepsOrder(t, xs);
    }
  }

  /** The stable newest-first ordering of a sequence of records. */
  function OrderNewestFirst(xs: seq<AccountTransaction>): (r: seq<AccountTransaction>)
    ensures multiset(r) == multiset(xs)
    ensures |r| == |xs|
    ensures NewestFirst(r)
  {
    if xs == [] then []
    else
      assert xs == xs[..|xs| - 1] + [xs[|xs| - 1]];
      var sorted := OrderNewestFirst(xs[..|xs| - 1]);
      InsertKeepsOrder(sorted, xs[|xs| - 1]);
      InsertNewestFirst(sorted, xs[|xs| - 1])
  }

  /** What `FindTransactionsByID` returns. */
  function TransactionsOf(txs: seq<AccountTransaction>, id: string): (r: seq<AccountTransaction>)
    ensures multiset(r) == multiset(Filter(txs, id))
    ensures |r| == |Filter(txs, id)|
    ensures forall t :: t in r <==> t in txs && t.accountId == id
    ensures NewestFirst(r)
  {
    var r := OrderNewestFirst(Filter(txs, id));
    assert forall t :: t in r <==> t in multiset(r);
    r
  }

  /** An account's history holds each of its records exactly as many times
      as the store does, and nothing else. */
  lemma TransactionsOfCounts(txs: seq<AccountTransaction>, id: string)
    ensures forall t :: multiset(TransactionsOf(txs, id))[t] == if t.accountId == id then multiset(txs)[t] else 0
  {
    FilterCounts(txs, id);
  }

  // ---------------------------------------------------------------------
  // The repository as an object.

  class AccountRepository {
    var accounts: map<string, BankAccount>
    var transactions: seq<AccountTransaction>

    function State(): Store
      reads this
    {
      Store(accounts, transactions)
    }

    /** Wraps a database that may already hold rows; `AutoMigrate` creates
        missing tables and keeps existing rows. A table keyed by `ID` holds
        each row under its own identifier. */
    constructor (db: Store)
      requires WellKeyed(db)
      ensures State() == db
    {
      accounts := db.accounts;
      transactions := db.transactions;
    }

    /** `fails` stands for the database rejecting the statement. */
    method SaveAccount(bankAccount: BankAccount, fails: bool) returns (err: Option<RepoError>)
      modifies this
      ensures err == if fails then Some(WriteFailed) else None
      ensures State() == if fails then old(State()) else Saved(old(State()), bankAccount)
    {
      if fails {
        return Some(WriteFailed);
      }
      accounts := accounts[bankAccount.id := bankAccount];
      err := None;
    }

    method DeleteAccount(id: string, fails: bool) returns (err: Option<RepoError>)
      modifies this
      ensures err == if fails then Some(WriteFailed) else None
      ensures State() == if fails then old(State()) else Deleted(old(State()), id)
    {
      if fails {
        return Some(WriteFailed);
      }
      accounts := accounts - {id};
      err := None;
    }

    method FindAccountByID(id: string) returns (r: Result<BankAccount, RepoError>)
      ensures r.Success? <==> id in accounts
      ensures r.Success? ==> r.value == accounts[id]
      ensures r.Failure? ==> r.error == NotFound
    {
      if id in accounts {
        r := Success(accounts[id]);
      } else {
        r := Failure(NotFound);
      }
    }

    method CreateTransaction(accountTransaction: AccountTransaction, fails: bool) returns (err: Option<RepoError>)
      modifies this
      ensures err == if fails then Some(WriteFailed) else None
      ensures State() == if fails then old(State()) else Created(old(State()), accountTransaction)
    {
      if fails {
        return Some(WriteFailed);
      }
      transactions := transactions + [accountTransaction];
      err := None;
    }

    /** Exactly the records of the account, newest first. A query with no
        matching rows is not an error for gorm's `Find`. */
    method FindTransactionsByID(id: string) returns (r: seq<AccountTransaction>)
      ensures r == TransactionsOf(transactions, id)
      ensures forall t :: t in r <==> t in transactions && t.accountId == id
      ensures multiset(r) == multiset(Filter(transactions, id))
      ensures NewestFirst(r)
    {
      r := TransactionsOf(transactions, id);
    }
  }
}
