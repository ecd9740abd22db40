/** The event catalog: the six event kinds, the topic each travels on, and the
    payload each carries (5-Kafka/Sample-Project/events/event.go). */
module Events {
  import opened Wrappers

  /** The closed set of event kinds, in declaration order. */
  datatype Kind = OpenAccount | DepositFund | WithdrawFund | CloseAccount | ShowBalance | ShowTransactions

  /** The topic of a kind: the Go type name of its event struct,
      which is what `reflect.TypeOf(...).Name()` yields. */
  function TopicName(k: Kind): (r: string)
  {
    match k
    case OpenAccount => "OpenAccountEvent"
    case DepositFund => "DepositFundEvent"
    case WithdrawFund => "WithdrawFundEvent"
    case CloseAccount => "CloseAccountEvent"
    case ShowBalance => "ShowBalanceEvent"
    case ShowTransactions => "ShowTransactionsEvent"
  }

  /** Every kind, in the order the structs are declared. */
  const Kinds: seq<Kind> := [OpenAccount, DepositFund, WithdrawFund, CloseAccount, ShowBalance, ShowTransactions]

  /** The `Topics` list the consumer subscribes to. */
  const Topics: seq<string> := [
    TopicName(OpenAccount),
    TopicName(DepositFund),
    TopicName(WithdrawFund),
    TopicName(CloseAccount),
    TopicName(ShowBalance),
    TopicName(ShowTransactions)
  ]

  /** The kind whose case of the handler's `switch topic` a topic selects,
      tried in the order of the cases; None is the `default` branch. */
  function KindOfTopic(topic: string): (r: Option<Kind>)
    ensures r.Some? <==> topic in Topics
    ensures r.Some? ==> TopicName(r.value) == topic
  {
    if topic == TopicName(OpenAccount) then Some(OpenAccount)
    else if topic == TopicName(DepositFund) then Some(DepositFund)
    else if topic == TopicName(WithdrawFund) then Some(WithdrawFund)
    else if topic == TopicName(CloseAccount) then Some(CloseAccount)
    else if topic == TopicName(ShowBalance) then Some(ShowBalance)
    else if topic == TopicName(ShowTransactions) then Some(ShowTransactions)
    else None
  }

  /** The six event structs as one sum type (Go's empty `Event` interface).
      Money is in minor units. */
  datatype Event =
    | OpenAccountEvent(id: string, accountHolder: string, accountType: int, balance: int)
    | DepositFundEvent(id: string, amount: int)
    | WithdrawFundEvent(id: string, amount: int)
    | CloseAccountEvent(id: string)
    | ShowBalanceEvent(id: string)
    | ShowTransactionsEvent(id: string)

  function KindOf(e: Event): (r: Kind)
  {
    match e
    case OpenAccountEvent(_, _, _, _) => OpenAccount
    case DepositFundEvent(_, _) => DepositFund
    case WithdrawFundEvent(_, _) => WithdrawFund
    case CloseAccountEvent(_) => CloseAccount
    case ShowBalanceEvent(_) => ShowBalance
    case ShowTransactionsEvent(_) => ShowTransactions
  }

  /** The topic an event is published on. */
  function TopicOf(e: Event): (r: string)
  {
    TopicName(KindOf(e))
  }

  /** An event's topic is in the catalog, and the consumer's switch routes
      it back to the event's own kind. */
  lemma TopicOfRoutesBack(e: Event)
    ensures TopicOf(e) in Topics
    ensures KindOfTopic(TopicOf(e)) == Some(KindOf(e))
  {
    TopicNameInjective();
  }

  lemma TopicsInDeclarationOrder()
    ensures |Topics| == |Kinds| == 6
    ensures forall i :: 0 <= i < |Topics| ==> Topics[i] == TopicName(Kinds[i])
    ensures forall k: Kind :: k in Kinds
  {
    forall k: Kind ensures k in Kinds {
      match k
      case OpenAccount => assert Kinds[0] == k;
      case DepositFund => assert Kinds[1] == k;
      case WithdrawFund => assert Kinds[2] == k;
      case CloseAccount => assert Kinds[3] == k;
      case ShowBalance => assert Kinds[4] == k;
      case ShowTransactions => assert Kinds[5] == k;
    }
  }

  lemma TopicNamesDistinct()
    ensures forall i, j :: 0 <= i < |Topics| && 0 <= j < |Topics| && i != j ==> Topics[i] != Topics[j]
  {
  }

  lemma TopicNameInjective()
    ensures forall k1: Kind, k2: Kind :: TopicName(k1) == TopicName(k2) ==> k1 == k2
  {
  }

  /** No catalog topic falls through to the handler's `default` branch, and
      each reaches the branch of its own kind. */
  lemma EveryTopicHasHandler()
    ensures forall t :: t in Topics ==> KindOfTopic(t).Some?
    ensures forall k: Kind :: KindOfTopic(TopicName(k)) == Some(k)
  {
    TopicNameInjective();
  }

  // ---------------------------------------------------------------------
  // Payload shapes. The structs carry no json tags, so encoding/json uses
  // the Go field names as keys and writes the fields in declaration order.

  datatype Value = Text(text: string) | Number(number: int)

  /** A decoded JSON object: its members in order. */
  type Payload = seq<(string, Value)>

  function FieldNames(k: Kind): (r: seq<string>)
  {
    match k
    case OpenAccount => ["ID", "AccountHolder", "AccountType", "Balance"]
    case DepositFund => ["ID", "Amount"]
    case WithdrawFund => ["ID", "Amount"]
    case CloseAccount => ["ID"]
    case ShowBalance => ["ID"]
    case ShowTransactions => ["ID"]
  }

  function Keys(p: Payload): (ks: seq<string>)
    ensures |ks| == |p|
    ensures forall i :: 0 <= i < |p| ==> ks[i] == p[i].0
  {
    if p == [] then [] else [p[0].0] + Keys(p[1..])
  }

  /** The object `json.Marshal` writes for an event. */
  function Encode(e: Event): (p: Payload)
    ensures Keys(p) == FieldNames(KindOf(e))
  {
    match e
    case OpenAccountEvent(id, holder, accountType, balance) =>
      [("ID", Text(id)), ("AccountHolder", Text(holder)), ("AccountType", Number(accountType)), ("Balance", Number(balance))]
    case DepositFundEvent(id, amount) => [("ID", Text(id)), ("Amount", Number(amount))]
    case WithdrawFundEvent(id, amount) => [("ID", Text(id)), ("Amount", Number(amount))]
    case CloseAccountEvent(id) => [("ID", Text(id))]
    case ShowBalanceEvent(id) => [("ID", Text(id))]
    case ShowTransactionsEvent(id) => [("ID", Text(id))]
  }

  /** The value of the last member with this key (later members overwrite earlier ones). */
  function Member(p: Payload, key: string): (r: Option<Value>)
  {
    if p == [] then None
    else if p[|p| - 1].0 == key then Some(p[|p| - 1].1)
    else Member(p[..|p| - 1], key)
  }

  /** `Member` finds a key exactly when some member has it, and then gives the
      value of the last such member. */
  lemma {:induction false} MemberIsLastWithKey(p: Payload, key: string)
    ensures Member(p, key).None? <==> forall i :: 0 <= i < |p| ==> p[i].0 != key
    ensures Member(p, key).Some? ==>
              exists i :: 0 <= i < |p| && p[i] == (key, Member(p, key).value) && forall j :: i < j < |p| ==> p[j].0 != key
    decreases |p|
  {
    if p != [] && p[|p| - 1].0 != key {
      var q := p[..|p| - 1];
      MemberIsLastWithKey(q, key);
      if Member(q, key).Some? {
        var i :| 0 <= i < |q| && q[i] == (key, Member(q, key).value) && forall j :: i < j < |q| ==> q[j].0 != key;
        assert p[i] == q[i];
      }
    }
  }

  /** Some member with this key holds a number where a string is wanted
      (`wantText`) or a string where a number is wanted. `json.Unmarshal`
      records the first such mismatch, goes on filling the struct, and
      returns that error at the end. */
  predicate Mistyped(p: Payload, key: string, wantText: bool)
  {
    if p == [] then false
    else (p[|p| - 1].0 == key && p[|p| - 1].1.Text? != wantText) || Mistyped(p[..|p| - 1], key, wantText)
  }

  lemma {:induction false} MistypedIffSomeMember(p: Payload, key: string, wantText: bool)
    ensures Mistyped(p, key, wantText) <==> exists i :: 0 <= i < |p| && p[i].0 == key && p[i].1.Text? != wantText
    decreases |p|
  {
    if p != [] {
      var q := p[..|p| - 1];
      MistypedIffSomeMember(q, key, wantText);
      if Mistyped(q, key, wantText) {
        var i :| 0 <= i < |q| && q[i].0 == key && q[i].1.Text? != wantText;
        assert p[i] == q[i];
      }
      if exists i :: 0 <= i < |p| && p[i].0 == key && p[i].1.Text? != wantText {
        var i :| 0 <= i < |p| && p[i].0 == key && p[i].1.Text? != wantText;
        if i < |q| {
          assert q[i] == p[i];
        }
      }
    }
  }

  /** A string field: an error when any member with the key is a number;
      otherwise the last member's string, or the zero value "" when absent. */
  function TextField(p: Payload, key: string): (r: Option<string>)
  {
    if Mistyped(p, key, true) then None
    else
      match Member(p, key)
      case Some(Text(s)) => Some(s)
      case _ => Some("")
  }

  /** A numeric field: an error when any member with the key is a string;
      otherwise the last member's number, or 0 when absent. */
  function NumberField(p: Payload, key: string): (r: Option<int>)
  {
    if Mistyped(p, key, false) then None
    else
      match Member(p, key)
      case Some(Number(n)) => Some(n)
      case _ => Some(0)
  }

  /** `json.Unmarshal` of an object into the zero-valued struct of kind k:
      members whose key is not a field are ignored. */
  function Decode(k: Kind, p: Payload): (r: Option<Event>)
    ensures r.Some? ==> KindOf(r.value) == k
  {
    var id :- TextField(p, "ID");
    match k
    case OpenAccount =>
      var holder :- TextField(p, "AccountHolder");
      var accountType :- NumberField(p, "AccountType");
      var balance :- NumberField(p, "Balance");
      Some(OpenAccountEvent(id, holder, accountType, balance))
    case DepositFund =>
      var amount :- NumberField(p, "Amount");
      Some(DepositFundEvent(id, amount))
    case WithdrawFund =>
      var amount :- NumberField(p, "Amount");
      Some(WithdrawFundEvent(id, amount))
    case CloseAccount => Some(CloseAccountEvent(id))
    case ShowBalance => Some(ShowBalanceEvent(id))
    case ShowTransactions => Some(ShowTransactionsEvent(id))
  }

  /** The string fields of the event structs; the others are numbers. */
  predicate IsTextField(key: string)
  {
    key == "ID" || key == "AccountHolder"
  }

  /** What a field holds after decoding: the value of the last member with
      its key, or its zero value when there is none. */
  function Read(p: Payload, key: string): (r: Value)
  {
    match Member(p, key)
    case Some(v) => v
    case None => if IsTextField(key) then Text("") else Number(0)
  }

  /** Decoding as kind `k` fails exactly when one of the fields of `k` is
      mistyped in the payload. */
  lemma DecodeFailsOnMistypedField(k: Kind, p: Payload)
    ensures Decode(k, p).None? <==>
              exists j :: 0 <= j < |FieldNames(k)| && Mistyped(p, FieldNames(k)[j], IsTextField(FieldNames(k)[j]))
  {
    var ks := FieldNames(k);
    if Decode(k, p).None? {
      if Mistyped(p, "ID", true) {
        assert ks[0] == "ID";
      } else if k == OpenAccount {
        if Mistyped(p, "AccountHolder", true) {
          assert ks[1] == "AccountHolder";
        } else if Mistyped(p, "AccountType", false) {
          assert ks[2] == "AccountType";
        } else {
          assert ks[3] == "Balance";
        }
      } else {
        assert ks[1] == "Amount";
      }
    }
  }

  /** Decoding as kind `k` fails exactly when some member whose key is a
      field of `k` holds the other JSON type, wherever that member stands;
      members with other keys never matter. */
  lemma DecodeRejects(k: Kind, p: Payload)
    ensures Decode(k, p).None? <==>
              exists i :: 0 <= i < |p| && p[i].0 in FieldNames(k) && p[i].1.Text? != IsTextField(p[i].0)
  {
    var ks := FieldNames(k);
    DecodeFailsOnMistypedField(k, p);
    forall j | 0 <= j < |ks| {
      MistypedIffSomeMember(p, ks[j], IsTextField(ks[j]));
    }
    if exists i :: 0 <= i < |p| && p[i].0 in ks && p[i].1.Text? != IsTextField(p[i].0) {
      var i :| 0 <= i < |p| && p[i].0 in ks && p[i].1.Text? != IsTextField(p[i].0);
      var j :| 0 <= j < |ks| && ks[j] == p[i].0;
      assert Mistyped(p, ks[j], IsTextField(ks[j]));
    }
  }

  /** When decoding succeeds, every field of the struct holds what `Read`
      gives for its key: the last member's value, or the zero value. */
  lemma DecodeFields(k: Kind, p: Payload)
    ensures Decode(k, p).Some? ==>
              forall j :: 0 <= j < |FieldNames(k)| ==> Encode(Decode(k, p).value)[j].1 == Read(p, FieldNames(k)[j])
  {
    var ks := FieldNames(k);
    if Decode(k, p).Some? {
      DecodeFailsOnMistypedField(k, p);
      forall j | 0 <= j < |ks|
        ensures Encode(Decode(k, p).value)[j].1 == Read(p, ks[j])
      {
        assert !Mistyped(p, ks[j], IsTextField(ks[j]));
        MistypedIffSomeMember(p, ks[j], IsTextField(ks[j]));
        MemberIsLastWithKey(p, ks[j]);
      }
    }
  }

  /** A wrong-typed member is an error even when a later member with the
      same key has the right type and fills the field. */
  lemma EarlierMistypedMemberRejected()
    ensures Decode(CloseAccount, [("ID", Number(5)), ("ID", Text("x"))]) == None
    ensures Decode(CloseAccount, [("ID", Text("x")), ("Amount", Text("y"))]) == Some(CloseAccountEvent("x"))
  {
    var p: Payload := [("ID", Number(5)), ("ID", Text("x"))];
    assert p[..1][..0] == [];
    assert Mistyped(p[..1], "ID", true);
    var q: Payload := [("ID", Text("x")), ("Amount", Text("y"))];
    assert q[..1][..0] == [];
    assert !Mistyped(q[..1], "ID", true) && Member(q[..1], "ID") == Some(Text("x"));
  }

  /** In a payload whose keys are distinct, each member is what its key reads
      back, and it is of its own type. */
  lemma FieldReadBack(p: Payload, i: nat)
    requires forall j, k :: 0 <= j < k < |p| ==> p[j].0 != p[k].0
    requires i < |p|
    ensures Member(p, p[i].0) == Some(p[i].1)
    ensures !Mistyped(p, p[i].0, p[i].1.Text?)
  {
    var key := p[i].0;
    MemberIsLastWithKey(p, key);
    MistypedIffSomeMember(p, key, p[i].1.Text?);
    var j :| 0 <= j < |p| && p[j] == (key, Member(p, key).value) && forall k :: j < k < |p| ==> p[k].0 != key;
    assert j == i;
  }

  /** Decoding what was encoded, under the event's own topic, gives the event back. */
  lemma RoundTrip(e: Event)
    ensures Decode(KindOf(e), Encode(e)) == Some(e)
  {
    var p := Encode(e);
    match e
    case OpenAccountEvent(id, holder, accountType, balance) =>
      FieldReadBack(p, 0);
      FieldReadBack(p, 1);
      FieldReadBack(p, 2);
      FieldReadBack(p, 3);
    case DepositFundEvent(id, amount) =>
      FieldReadBack(p, 0);
      FieldReadBack(p, 1);
    case WithdrawFundEvent(id, amount) =>
      FieldReadBack(p, 0);
      FieldReadBack(p, 1);
    case CloseAccountEvent(id) =>
      FieldReadBack(p, 0);
    case ShowBalanceEvent(id) =>
      FieldReadBack(p, 0);
    case ShowTransactionsEvent(id) =>
      FieldReadBack(p, 0);
  }

  /** Deposit and withdraw events have the same fields and the same encoding:
      only the topic tells them apart. */
  lemma DepositAndWithdrawShareShape(id: string, amount: int, p: Payload)
    ensures FieldNames(DepositFund) == FieldNames(WithdrawFund)
    ensures Encode(DepositFundEvent(id, amount)) == Encode(WithdrawFundEvent(id, amount))
    ensures Decode(DepositFund, p).Some? <==> Decode(WithdrawFund, p).Some?
    ensures Decode(DepositFund, p).Some? ==>
              Decode(WithdrawFund, p) == Some(WithdrawFundEvent(Decode(DepositFund, p).value.id, Decode(DepositFund, p).value.amount))
  {
  }

  /** Holder, type and balance are carried by the open-account event only;
      close and the two queries carry nothing but the account identifier. */
  lemma OnlyOpenCarriesAccountDetails()
    ensures forall k: Kind :: "AccountHolder" in FieldNames(k) <==> k == OpenAccount
    ensures forall k: Kind :: "Balance" in FieldNames(k) <==> k == OpenAccount
    ensures forall k: Kind :: "AccountType" in FieldNames(k) <==> k == OpenAccount
    ensures forall k: Kind :: k in {CloseAccount, ShowBalance, ShowTransactions} ==> FieldNames(k) == ["ID"]
    ensures forall k: Kind :: "ID" in FieldNames(k)
  {
  }
}
