/**
 * The stand-alone money transfer (BankTransfer.java): a balance check, then
 * the source's `withdraw`, the destination's `deposit`, and one TRANSFER
 * record of its own.
 */
module BankTransfer {
  import opened Environment
  import opened Transactions
  import TransactionLogger
  import opened BankAccountCsv
  import opened BankAccounts

  /** The state after `BankTransfer.transfer`, both accounts' new fields, and whether an exception escaped it. */
  datatype MoveStep = MoveStep(env: Env, source: Account, destination: Account, escaped: bool)

  /** The note of the TRANSFER record. */
  function TransferNote(fromId: string, toId: string): string
  {
    "Money transfer from " + fromId + " to " + toId
  }

  /**
   * `transfer(from, to, amount)`: nothing happens when the source balance is
   * below the amount. Otherwise the source's `withdraw(amount)` runs, then
   * the destination's `deposit(amount)`, each with its own guard, and then a
   * TRANSFER record is logged; an exception escaping either call ends the
   * transfer there. `aliased` says the two accounts are one object.
   */
  function MoveEffect(e: Env, src: Account, dst: Account, amount: int, now: string, aliased: bool): MoveStep
  {
    if src.balance < amount then MoveStep(e, src, dst, false)
    else
      var w := WithdrawEffect(e, src, amount, now);
      var dst0 := if aliased then w.account else dst;
      if w.escaped then MoveStep(w.env, w.account, dst0, true)
      else
        var d := DepositEffect(w.env, dst0, amount, now);
        var src' := if aliased then d.account else w.account;
        if d.escaped then MoveStep(d.env, src', d.account, true)
        else
          var (e1, t) := Issue(d.env, now, src.accountID, dst.accountID, amount, "TRANSFER",
                               TransferNote(src.accountID, dst.accountID));
          MoveStep(Logged(e1, t), src', d.account, false)
  }

  /** `BankTransfer.transfer(fromAccount, toAccount, amount)`. */
  method Transfer(rt: Runtime, now: string, fromAccount: BankAccount, toAccount: BankAccount, amount: int)
    returns (escaped: bool)
    modifies fromAccount`balance, toAccount`balance, rt
    ensures MoveStep(rt.Snapshot(), fromAccount.Value(), toAccount.Value(), escaped)
         == MoveEffect(old(rt.Snapshot()), old(fromAccount.Value()), old(toAccount.Value()), amount, now, fromAccount == toAccount)
  {
    var fromId := fromAccount.accountID;
    var toId := toAccount.accountID;
    if fromAccount.balance < amount {
      return false;
    }
    ghost var e0, s0, d0 := rt.Snapshot(), fromAccount.Value(), toAccount.Value();
    ghost var aliased := fromAccount == toAccount;
    escaped := fromAccount.Withdraw(rt, now, amount);
    ghost var w := WithdrawEffect(e0, s0, amount, now);
    assert rt.Snapshot() == w.env && fromAccount.Value() == w.account && escaped == w.escaped;
    assert toAccount.Value() == if aliased then w.account else d0;
    if escaped {
      return;
    }
    escaped := toAccount.Deposit(rt, now, amount);
    ghost var d := DepositEffect(w.env, if aliased then w.account else d0, amount, now);
    assert rt.Snapshot() == d.env && toAccount.Value() == d.account && escaped == d.escaped;
    assert fromAccount.Value() == if aliased then d.account else w.account;
    if escaped {
      return;
    }
    var t := rt.NewTransaction(now, fromId, toId, amount, "TRANSFER", "Money transfer from " + fromId + " to " + toId);
    TransactionLogger.Log(rt, t);
  }

  /** A source balance below the amount stops the transfer before anything changes or is logged. */
  lemma ShortBalanceChangesNothing(e: Env, src: Account, dst: Account, amount: int, now: string, aliased: bool)
    requires src.balance < amount
    ensures MoveEffect(e, src, dst, amount, now, aliased) == MoveStep(e, src, dst, false)
  {
  }

  /**
   * A non-positive amount passes the balance check of a non-negative
   * balance, both inner calls reject it, and still one TRANSFER record is
   * logged while neither balance changes.
   */
  lemma NonPositiveAmountStillLogs(e: Env, src: Account, dst: Account, amount: int, now: string, aliased: bool)
    requires amount <= 0 <= src.balance
    ensures var r := MoveEffect(e, src, dst, amount, now, aliased);
            && r == MoveStep(r.env, src, if aliased then src else dst, false)
            && r.env == e.(nextTransactionId := NextId(e.nextTransactionId),
                           ledger := TransactionLogger.Appended(e.ledger,
                             Transaction(e.nextTransactionId, now, src.accountID, dst.accountID, amount, "TRANSFER",
                                         TransferNote(src.accountID, dst.accountID))))
  {
  }

  /**
   * A positive amount the source covers, between two distinct objects,
   * moves exactly the amount, preserves the sum of the two balances, and
   * when no store write throws logs three records in order: the WITHDRAWAL,
   * the DEPOSIT, then the TRANSFER, with consecutive ids.
   */
  lemma MoveLogsThreeRecords(e: Env, src: Account, dst: Account, amount: int, now: string)
    requires 0 < amount <= src.balance
    ensures var r := MoveEffect(e, src, dst, amount, now, false);
            && r.source == src.(balance := src.balance - amount)
            && (r.escaped || r.destination == dst.(balance := dst.balance + amount))
            && (!r.escaped ==> r.source.balance + r.destination.balance == src.balance + dst.balance)
            && (!r.escaped ==>
                  var id0 := e.nextTransactionId;
                  var id1 := NextId(id0);
                  var id2 := NextId(id1);
                  && r.env.nextTransactionId == NextId(id2)
                  && r.env.ledger
                     == TransactionLogger.Appended(TransactionLogger.Appended(TransactionLogger.Appended(e.ledger,
                          Transaction(id0, now, src.accountID, "SYSTEM", amount, "WITHDRAWAL", "Cash withdrawal")),
                          Transaction(id1, now, "SYSTEM", dst.accountID, amount, "DEPOSIT", "Cash deposit")),
                          Transaction(id2, now, src.accountID, dst.accountID, amount, "TRANSFER",
                                      TransferNote(src.accountID, dst.accountID))))
  {
    var w := WithdrawEffect(e, src, amount, now);
    WithdrawTakesAmount(e, src, amount, now);
    if !w.escaped {
      DepositAddsAmount(w.env, dst, amount, now);
    }
  }

  /** With the accounts in one object, the withdrawal and the deposit cancel out. */
  lemma SelfMoveKeepsBalance(e: Env, a: Account, amount: int, now: string)
    requires 0 < amount <= a.balance
    ensures var r := MoveEffect(e, a, a, amount, now, true);
            !r.escaped ==> r.source == a && r.destination == a
  {
    WithdrawTakesAmount(e, a, amount, now);
  }
}
