/**
 * A bank account object (BankAccount.java, with SavingsAccount.java's
 * constructor): a balance field guarded by deposit, withdraw and transfer,
 * each of which logs one ledger record and rewrites the account's row in the
 * store.
 */
module BankAccounts {
  import opened Wrappers
  import opened JavaText
  import opened Environment
  import opened Transactions
  import TransactionLogger
  import opened BankAccountCsv
  import SavingsAccount

  // ------------------------------------------------------------ effects on the process state

  /** `new Transaction(...)`: the record built at the current counter, and the state with the counter advanced. */
  function Issue(e: Env, now: string, fromAccount: string, toAccount: string, amount: int,
                 transactionType: string, note: string): (Env, Transaction)
  {
    (e.(nextTransactionId := NextId(e.nextTransactionId)),
     Transaction(e.nextTransactionId, now, fromAccount, toAccount, amount, transactionType, note))
  }

  /** `TransactionLogger.log(t)`. */
  function Logged(e: Env, t: Transaction): Env
  {
    e.(ledger := TransactionLogger.Appended(e.ledger, t))
  }

  /** `BankAccountCSV.updateAccount(a)`: the state after it, and how it ended. */
  function Stored(e: Env, a: Account): (Env, Completion)
  {
    var written := WriteFile(e.accountsFile, a);
    (e.(accountsFile := written.0), written.1)
  }

  /** The state after a void account operation, the account's new fields, and whether an exception escaped it. */
  datatype Step = Step(env: Env, account: Account, escaped: bool)

  /**
   * `deposit(amount)`: a positive amount is added to the balance, a DEPOSIT
   * record from SYSTEM is logged and the account is rewritten in the store;
   * any other amount changes nothing.
   */
  function DepositEffect(e: Env, a: Account, amount: int, now: string): Step
  {
    if amount <= 0 then Step(e, a, false)
    else
      var a' := a.(balance := a.balance + amount);
      var issued := Issue(e, now, "SYSTEM", a.accountID, amount, "DEPOSIT", "Cash deposit");
      var stored := Stored(Logged(issued.0, issued.1), a');
      Step(stored.0, a', stored.1 == Thrown)
  }

  /**
   * `withdraw(amount)`: an amount with `0 < amount <= balance` is taken from
   * the balance, a WITHDRAWAL record to SYSTEM is logged and the account is
   * rewritten; any other amount changes nothing.
   */
  function WithdrawEffect(e: Env, a: Account, amount: int, now: string): Step
  {
    if amount <= 0 || a.balance < amount then Step(e, a, false)
    else
      var a' := a.(balance := a.balance - amount);
      var issued := Issue(e, now, a.accountID, "SYSTEM", amount, "WITHDRAWAL", "Cash withdrawal");
      var stored := Stored(Logged(issued.0, issued.1), a');
      Step(stored.0, a', stored.1 == Thrown)
  }

  /** The state after a transfer, both accounts' new fields, and the call's result. */
  datatype TransferStep = TransferStep(env: Env, source: Account, destination: Account, result: Completion)

  /**
   * `transfer(destination, amount)`: with `0 < amount <= balance` the amount
   * moves from the source to the destination, one TRANSFER record is logged,
   * and both accounts are rewritten, source first; the result is `true`.
   * Otherwise nothing changes and the result is `false`. When the destination
   * is the source object itself (`aliased`), the two balance updates cancel.
   */
  function TransferEffect(e: Env, src: Account, dst: Account, amount: int, now: string, aliased: bool): TransferStep
  {
    if amount <= 0 || src.balance < amount then TransferStep(e, src, dst, Returned(false))
    else
      var src' := if aliased then src else src.(balance := src.balance - amount);
      var dst' := if aliased then src else dst.(balance := dst.balance + amount);
      var issued := Issue(e, now, src.accountID, dst.accountID, amount, "TRANSFER", "Transfer between accounts");
      var stored := StoredBoth(Logged(issued.0, issued.1), src', dst');
      TransferStep(stored.0, src', dst', stored.1)
  }

  /** An accepted transfer's outcome, assembled from its record, the state that logged it and the two store writes. */
  lemma TransferEffectAccepted(e: Env, src: Account, dst: Account, amount: int, now: string, aliased: bool,
                               src': Account, dst': Account, t: Transaction, logged: Env, stored: (Env, Completion))
    requires 0 < amount <= src.balance
    requires src' == if aliased then src else src.(balance := src.balance - amount)
    requires dst' == if aliased then src else dst.(balance := dst.balance + amount)
    requires t == Transaction(e.nextTransactionId, now, src.accountID, dst.accountID, amount, "TRANSFER", "Transfer between accounts")
    requires logged == Logged(e.(nextTransactionId := NextId(e.nextTransactionId)), t)
    requires stored == StoredBoth(logged, src', dst')
    ensures TransferEffect(e, src, dst, amount, now, aliased) == TransferStep(stored.0, src', dst', stored.1)
  {
    var issued := Issue(e, now, src.accountID, dst.accountID, amount, "TRANSFER", "Transfer between accounts");
    assert Logged(issued.0, issued.1) == logged;
    calc {
      TransferEffect(e, src, dst, amount, now, aliased);
      TransferStep(StoredBoth(Logged(issued.0, issued.1), src', dst').0, src', dst',
                   StoredBoth(Logged(issued.0, issued.1), src', dst').1);
      TransferStep(stored.0, src', dst', stored.1);
    }
  }

  /** The two store rewrites at the end of a transfer: the source first, and the destination only if that did not throw. */
  function StoredBoth(e: Env, src: Account, dst: Account): (Env, Completion)
  {
    var (e1, first) := Stored(e, src);
    if first == Thrown then (e1, Thrown)
    else
      var (e2, second) := Stored(e1, dst);
      (e2, if second == Thrown then Thrown else Returned(true))
  }

  // ------------------------------------------------------------ account ids

  /** `name + "-" + tag + "-" + userID`. */
  function AccountId(name: string, tag: char, userID: Int32): string
  {
    name + ['-', tag, '-'] + IntToString(userID)
  }

  /** The id `createChecking` gives: `name-C-userID`. */
  function CheckingId(name: string, userID: Int32): string
  {
    AccountId(name, 'C', userID)
  }

  /** The id `createSavings` gives: `name-S-userID`. */
  function SavingsId(name: string, userID: Int32): string
  {
    AccountId(name, 'S', userID)
  }

  /** A Java int in decimal holds only digits and a leading minus sign, never a letter. */
  lemma IntToStringHasNoLetter(n: int, i: nat)
    requires i < |IntToString(n)|
    ensures IntToString(n)[i] == '-' || IsDigit(IntToString(n)[i])
  {
    var w := NatToString(if n < 0 then -n else n);
    if n < 0 {
      assert IntToString(n) == "-" + w;
      if i > 0 {
        assert IntToString(n)[i] == w[i - 1];
      }
    }
  }

  /** The tag of an id sits after its name, and everything after the tag is `-` and the digits of the user id. */
  lemma TagIsLastLetter(name: string, tag: char, userID: Int32, j: nat)
    requires |name| + 1 < j < |AccountId(name, tag, userID)|
    ensures AccountId(name, tag, userID)[j] == '-' || IsDigit(AccountId(name, tag, userID)[j])
  {
    var s := IntToString(userID);
    if j > |name| + 2 {
      IntToStringHasNoLetter(userID, j - |name| - 3);
      assert AccountId(name, tag, userID)[j] == s[j - |name| - 3];
    }
  }

  /**
   * Account ids determine how they were made: the same id never comes from
   * two different names, tags or user ids.
   */
  lemma AccountIdUnique(name1: string, tag1: char, userID1: Int32, name2: string, tag2: char, userID2: Int32)
    requires tag1 == 'C' || tag1 == 'S'
    requires tag2 == 'C' || tag2 == 'S'
    requires AccountId(name1, tag1, userID1) == AccountId(name2, tag2, userID2)
    ensures name1 == name2 && tag1 == tag2 && userID1 == userID2
  {
    var id := AccountId(name1, tag1, userID1);
    assert id[|name1| + 1] == tag1;
    assert id[|name2| + 1] == tag2;
    if |name1| < |name2| {
      TagIsLastLetter(name1, tag1, userID1, |name2| + 1);
      assert false;
    } else if |name2| < |name1| {
      TagIsLastLetter(name2, tag2, userID2, |name1| + 1);
      assert false;
    }
    assert name1 == id[..|name1|] == name2;
    assert IntToString(userID1) == id[|name1| + 3..] == IntToString(userID2);
    IntToStringInjective(userID1, userID2);
  }

  /** Two checking accounts share an id only if they share the name and the user id. */
  lemma CheckingIdsUnique(name1: string, userID1: Int32, name2: string, userID2: Int32)
    requires CheckingId(name1, userID1) == CheckingId(name2, userID2)
    ensures name1 == name2 && userID1 == userID2
  {
    AccountIdUnique(name1, 'C', userID1, name2, 'C', userID2);
  }

  /** A checking id is never a savings id, whatever the names and user ids. */
  lemma CheckingIsNeverSavings(name1: string, userID1: Int32, name2: string, userID2: Int32)
    ensures CheckingId(name1, userID1) != SavingsId(name2, userID2)
  {
    if CheckingId(name1, userID1) == SavingsId(name2, userID2) {
      AccountIdUnique(name1, 'C', userID1, name2, 'S', userID2);
    }
  }

  // ------------------------------------------------------------ the object

  class BankAccount {
    const accountID: string
    const userID: Int32
    var balance: int
    const accountType: string
    /** Present exactly for an object built as a SavingsAccount. */
    const interestRate: Option<nat>

    /** The object's fields as a value. */
    function Value(): Account
      reads this
    {
      Account(accountID, userID, balance, accountType, interestRate)
    }

    /** `new BankAccount(id, userID, balance, type)`: the type is stored upper-cased. */
    constructor (accountID: string, userID: Int32, balance: int, accountType: string)
      ensures Value() == Account(accountID, userID, balance, ToUpper(accountType), None)
    {
      this.accountID := accountID;
      this.userID := userID;
      this.balance := balance;
      this.accountType := ToUpper(accountType);
      this.interestRate := None;
    }

    /** `new SavingsAccount(id, userID, balance)`: type SAVINGS, rate fixed once from the opening balance. */
    constructor Savings(accountID: string, userID: Int32, balance: int)
      ensures Value() == Account(accountID, userID, balance, "SAVINGS", Some(SavingsAccount.InterestRate(balance)))
    {
      this.accountID := accountID;
      this.userID := userID;
      this.balance := balance;
      this.accountType := "SAVINGS";
      this.interestRate := Some(SavingsAccount.InterestRate(balance));
    }

    /** The object the store reader builds for a row: its fields are the row's values. */
    constructor Load(a: Account)
      ensures Value() == a
    {
      this.accountID := a.accountID;
      this.userID := a.userID;
      this.balance := a.balance;
      this.accountType := a.accountType;
      this.interestRate := a.interestRate;
    }

    /** `deposit(amount)`; `escaped` when the store rewrite throws. */
    method Deposit(rt: Runtime, now: string, amount: int) returns (escaped: bool)
      modifies this`balance, rt
      ensures Step(rt.Snapshot(), Value(), escaped) == DepositEffect(old(rt.Snapshot()), old(Value()), amount, now)
    {
      escaped := false;
      if amount > 0 {
        ghost var e0 := rt.Snapshot();
        balance := balance + amount;
        var t := rt.NewTransaction(now, "SYSTEM", accountID, amount, "DEPOSIT", "Cash deposit");
        assert (rt.Snapshot(), t) == Issue(e0, now, "SYSTEM", accountID, amount, "DEPOSIT", "Cash deposit");
        TransactionLogger.Log(rt, t);
        ghost var e1 := rt.Snapshot();
        assert e1 == Logged(Issue(e0, now, "SYSTEM", accountID, amount, "DEPOSIT", "Cash deposit").0, t);
        var completion := UpdateAccount(rt, Value());
        assert (rt.Snapshot(), completion) == Stored(e1, Value());
        escaped := completion == Thrown;
      }
    }

    /** `withdraw(amount)`; `escaped` when the store rewrite throws. */
    method Withdraw(rt: Runtime, now: string, amount: int) returns (escaped: bool)
      modifies this`balance, rt
      ensures Step(rt.Snapshot(), Value(), escaped) == WithdrawEffect(old(rt.Snapshot()), old(Value()), amount, now)
    {
      escaped := false;
      if amount > 0 {
        if balance >= amount {
          ghost var e0 := rt.Snapshot();
          balance := balance - amount;
          var t := rt.NewTransaction(now, accountID, "SYSTEM", amount, "WITHDRAWAL", "Cash withdrawal");
          assert (rt.Snapshot(), t) == Issue(e0, now, accountID, "SYSTEM", amount, "WITHDRAWAL", "Cash withdrawal");
          TransactionLogger.Log(rt, t);
          ghost var e1 := rt.Snapshot();
          assert e1 == Logged(Issue(e0, now, accountID, "SYSTEM", amount, "WITHDRAWAL", "Cash withdrawal").0, t);
          var completion := UpdateAccount(rt, Value());
          assert (rt.Snapshot(), completion) == Stored(e1, Value());
          escaped := completion == Thrown;
        }
      }
    }

    /** `transfer(destination, amount)`. */
    method Transfer(rt: Runtime, now: string, destination: BankAccount, amount: int) returns (result: Completion)
      modifies this`balance, destination`balance, rt
      ensures TransferStep(rt.Snapshot(), Value(), destination.Value(), result)
           == TransferEffect(old(rt.Snapshot()), old(Value()), old(destination.Value()), amount, now, destination == this)
    {
      if amount <= 0 || balance < amount {
        return Returned(false);
      }
      ghost var aliased := destination == this;
      ghost var e0, s0, d0 := rt.Snapshot(), Value(), destination.Value();
      balance := balance - amount;
      destination.balance := destination.balance + amount;
      ghost var source', destination' := Value(), destination.Value();
      assert source' == if aliased then old(Value()) else old(Value()).(balance := old(balance) - amount);
      assert destination' == if aliased then old(Value()) else old(destination.Value()).(balance := old(destination.balance) + amount);
      var t := rt.NewTransaction(now, accountID, destination.accountID, amount, "TRANSFER", "Transfer between accounts");
      assert (rt.Snapshot(), t)
          == Issue(e0, now, accountID, destination.accountID, amount, "TRANSFER", "Transfer between accounts");
      TransactionLogger.Log(rt, t);
      ghost var e1 := rt.Snapshot();
      assert e1 == Logged(Issue(e0, now, accountID, destination.accountID, amount, "TRANSFER", "Transfer between accounts").0, t);
      var first := UpdateAccount(rt, Value());
      assert (rt.Snapshot(), first) == Stored(e1, source');
      if first == Thrown {
        result := Thrown;
      } else {
        ghost var e2 := rt.Snapshot();
        var second := UpdateAccount(rt, destination.Value());
        assert (rt.Snapshot(), second) == Stored(e2, destination');
        result := if second == Thrown then Thrown else Returned(true);
      }
      assert (rt.Snapshot(), result) == StoredBoth(e1, source', destination');
      assert Value() == source' && destination.Value() == destination';
      assert t == Transaction(e0.nextTransactionId, now, s0.accountID, d0.accountID, amount, "TRANSFER", "Transfer between accounts");
      assert e1 == Logged(e0.(nextTransactionId := NextId(e0.nextTransactionId)), t);
      assert source' == if aliased then s0 else s0.(balance := s0.balance - amount);
      assert destination' == if aliased then s0 else d0.(balance := d0.balance + amount);
      TransferEffectAccepted(e0, s0, d0, amount, now, aliased, source', destination', t, e1, (rt.Snapshot(), result));
    }

    /** `deleteAccount()`: the store delete of this account's id. */
    method DeleteAccount(rt: Runtime) returns (result: Completion)
      modifies rt`accountsFile
      ensures (rt.accountsFile, result) == DeleteFile(old(rt.accountsFile), accountID)
    {
      result := BankAccountCsv.DeleteAccount(rt, accountID);
    }
  }

  /** `createChecking(name, userID, initialDeposit)`: a CHECKING account, written to the store. */
  method CreateChecking(rt: Runtime, name: string, userID: Int32, initialDeposit: int)
    returns (account: BankAccount, escaped: bool)
    modifies rt`accountsFile
    ensures fresh(account)
    ensures account.Value() == Account(CheckingId(name, userID), userID, initialDeposit, "CHECKING", None)
    ensures (rt.accountsFile, escaped) == (WriteFile(old(rt.accountsFile), account.Value()).0,
                                           WriteFile(old(rt.accountsFile), account.Value()).1 == Thrown)
  {
    account := new BankAccount(CheckingId(name, userID), userID, initialDeposit, "CHECKING");
    assert ToUpper("CHECKING") == "CHECKING";
    var completion := WriteToCsv(rt, account.Value());
    escaped := completion == Thrown;
  }

  /** `createSavings(name, userID, initialDeposit)`: a SavingsAccount, written to the store. */
  method CreateSavings(rt: Runtime, name: string, userID: Int32, initialDeposit: int)
    returns (account: BankAccount, escaped: bool)
    modifies rt`accountsFile
    ensures fresh(account)
    ensures account.Value()
         == Account(SavingsId(name, userID), userID, initialDeposit, "SAVINGS", Some(SavingsAccount.InterestRate(initialDeposit)))
    ensures (rt.accountsFile, escaped) == (WriteFile(old(rt.accountsFile), account.Value()).0,
                                           WriteFile(old(rt.accountsFile), account.Value()).1 == Thrown)
  {
    account := new BankAccount.Savings(SavingsId(name, userID), userID, initialDeposit);
    var completion := WriteToCsv(rt, account.Value());
    escaped := completion == Thrown;
  }

  // ------------------------------------------------------------ properties

  /** A non-positive deposit changes nothing: no balance change, no record, no store write. */
  lemma DepositRejectsNonPositive(e: Env, a: Account, amount: int, now: string)
    requires amount <= 0
    ensures DepositEffect(e, a, amount, now) == Step(e, a, false)
  {
  }

  /**
   * A positive deposit raises the balance by exactly the amount, leaves the
   * other fields alone, takes one id from the counter and appends one
   * DEPOSIT record from SYSTEM to this account to the ledger.
   */
  lemma DepositAddsAmount(e: Env, a: Account, amount: int, now: string)
    requires amount > 0
    ensures var r := DepositEffect(e, a, amount, now);
            && r.account == a.(balance := a.balance + amount)
            && r.env.nextTransactionId == NextId(e.nextTransactionId)
            && r.env.ledger == TransactionLogger.Appended(e.ledger,
                 Transaction(e.nextTransactionId, now, "SYSTEM", a.accountID, amount, "DEPOSIT", "Cash deposit"))
  {
  }

  /** A withdrawal outside `0 < amount <= balance` changes nothing and logs nothing. */
  lemma WithdrawRejects(e: Env, a: Account, amount: int, now: string)
    requires amount <= 0 || a.balance < amount
    ensures WithdrawEffect(e, a, amount, now) == Step(e, a, false)
  {
  }

  /**
   * A withdrawal inside `0 < amount <= balance` lowers the balance by
   * exactly the amount and appends one WITHDRAWAL record from this account
   * to SYSTEM.
   */
  lemma WithdrawTakesAmount(e: Env, a: Account, amount: int, now: string)
    requires 0 < amount <= a.balance
    ensures var r := WithdrawEffect(e, a, amount, now);
            && r.account == a.(balance := a.balance - amount)
            && r.env.nextTransactionId == NextId(e.nextTransactionId)
            && r.env.ledger == TransactionLogger.Appended(e.ledger,
                 Transaction(e.nextTransactionId, now, a.accountID, "SYSTEM", amount, "WITHDRAWAL", "Cash withdrawal"))
  {
  }

  /** Neither a deposit nor a withdrawal can take a non-negative balance below zero. */
  lemma DepositAndWithdrawKeepBalanceNonNegative(e: Env, a: Account, amount: int, now: string)
    requires a.balance >= 0
    ensures DepositEffect(e, a, amount, now).account.balance >= 0
    ensures WithdrawEffect(e, a, amount, now).account.balance >= 0
  {
  }

  /** `transfer` answers `false` exactly when the amount is not positive or exceeds the balance. */
  lemma TransferFailsIffRejected(e: Env, src: Account, dst: Account, amount: int, now: string, aliased: bool)
    ensures TransferEffect(e, src, dst, amount, now, aliased).result == Returned(false)
        <==> amount <= 0 || src.balance < amount
  {
  }

  /** A rejected transfer changes neither balance, logs nothing and writes nothing. */
  lemma TransferRejectedChangesNothing(e: Env, src: Account, dst: Account, amount: int, now: string, aliased: bool)
    requires amount <= 0 || src.balance < amount
    ensures TransferEffect(e, src, dst, amount, now, aliased) == TransferStep(e, src, dst, Returned(false))
  {
  }

  /**
   * An accepted transfer between two objects moves exactly the amount, so
   * the sum of the two balances is preserved, and logs exactly one TRANSFER
   * record from the source id to the destination id.
   */
  lemma TransferMovesAmount(e: Env, src: Account, dst: Account, amount: int, now: string)
    requires 0 < amount <= src.balance
    ensures var r := TransferEffect(e, src, dst, amount, now, false);
            && r.source == src.(balance := src.balance - amount)
            && r.destination == dst.(balance := dst.balance + amount)
            && r.source.balance + r.destination.balance == src.balance + dst.balance
            && r.env.nextTransactionId == NextId(e.nextTransactionId)
            && r.env.ledger == TransactionLogger.Appended(e.ledger,
                 Transaction(e.nextTransactionId, now, src.accountID, dst.accountID, amount,
                             "TRANSFER", "Transfer between accounts"))
  {
  }

  /** A transfer cannot take a non-negative balance below zero on either side. */
  lemma TransferKeepsBalancesNonNegative(e: Env, src: Account, dst: Account, amount: int, now: string, aliased: bool)
    requires src.balance >= 0 && dst.balance >= 0
    ensures var r := TransferEffect(e, src, dst, amount, now, aliased);
            r.source.balance >= 0 && r.destination.balance >= 0
  {
  }

  /** An accepted deposit or withdrawal touches the store only through its one rewrite of the account. */
  lemma EffectWrites(e: Env, a: Account, a': Account, deposit: bool, now: string, amount: int, step: Step)
    requires 0 < amount
    requires deposit ==> a' == a.(balance := a.balance + amount) && step == DepositEffect(e, a, amount, now)
    requires !deposit ==> amount <= a.balance && a' == a.(balance := a.balance - amount)
                          && step == WithdrawEffect(e, a, amount, now)
    ensures step.env.accountsFile == WriteFile(e.accountsFile, a').0
    ensures step.escaped == (WriteFile(e.accountsFile, a').1 == Thrown)
  {
    var issued := if deposit then Issue(e, now, "SYSTEM", a.accountID, amount, "DEPOSIT", "Cash deposit")
                  else Issue(e, now, a.accountID, "SYSTEM", amount, "WITHDRAWAL", "Cash withdrawal");
    var logged := Logged(issued.0, issued.1);
    assert logged.accountsFile == e.accountsFile;
    assert step == Step(Stored(logged, a').0, a', Stored(logged, a').1 == Thrown);
  }

  /**
   * After a deposit whose store rewrite succeeds, the store holds the
   * account's new balance under its id and every other account as before.
   */
  lemma DepositIsPersisted(e: Env, a: Account, amount: int, now: string, t: Table)
    requires amount > 0 && Canonical(a)
    requires ReadTable(e.accountsFile.Lines()) == Some(t) && e.accountsFile.writable
    requires forall k :: k in t.accounts ==> t.accounts[k].accountType != "SAVING"
    ensures var r := DepositEffect(e, a, amount, now);
            var after := ReadTable(r.env.accountsFile.Lines());
            && !r.escaped
            && after.Some?
            && after.value.accounts.Keys == t.accounts.Keys + {a.accountID}
            && after.value.accounts[a.accountID] == Persisted(a).(balance := a.balance + amount)
            && forall k :: k in t.accounts && k != a.accountID ==> after.value.accounts[k] == Persisted(t.accounts[k])
  {
    var a' := a.(balance := a.balance + amount);
    var r := DepositEffect(e, a, amount, now);
    EffectWrites(e, a, a', true, now, amount, r);
    WriteRereads(e.accountsFile, a', t);
    assert r.env.accountsFile.Lines() == Render(Put(t, a')) && !r.escaped;
    ReadTableValid(e.accountsFile.Lines());
    assert forall k :: k in t.accounts ==> Canonical(t.accounts[k]);
    WriteUpserts(t, a');
  }
}
