/**
 * The console transfer flow (TransferUI.java, `initiateTransfer`): pick one
 * of the user's accounts, name a recipient by id, enter an amount under the
 * daily limit, confirm, and the amount plus any fee moves through
 * `BankTransfer.transfer`. The console answers are parameters; amounts are
 * cents.
 */
module TransferUi {
  import opened Wrappers
  import opened JavaText
  import opened Environment
  import opened BankAccountCsv
  import opened BankAccounts
  import opened BankTransfer
  import opened Users

  /** `DAILY_TRANSFER_LIMIT`: $10,000.00. */
  const DailyTransferLimit: int := 1_000_000
  /** `TRANSFER_FEE`: $1.50. */
  const TransferFee: int := 150
  /** `TRANSFER_FEE_THRESHOLD`: the fee applies to amounts above $1,000.00. */
  const FeeThreshold: int := 100_000

  /** How one run of the flow ends. */
  datatype Outcome =
    | NoAccounts           // the user owns no account
    | InvalidSelection     // the chosen number is not one of the listed accounts
    | StoreUnreadable      // reading every account threw (the NumberFormatException escapes the flow)
    | RecipientNotFound    // no account has the entered id
    | OverLimit            // the amount is above the daily limit
    | Cancelled            // the confirmation was not "yes"
    | SameAccount          // the recipient is the source account itself
    | Transferred(escaped: bool)  // `BankTransfer.transfer` ran; `escaped` when a store rewrite threw inside it

  /** What the checks decide: stop with an outcome, or move `total` from `source` to `recipient`. */
  datatype Decision = Stop(outcome: Outcome) | Proceed(source: Account, recipient: Account, total: int)

  /**
   * The stream's `filter(id matches).findFirst()`: the position of the first
   * account with the id, or none when no account has it.
   */
  function FirstWithId(accounts: seq<Account>, accountID: string): (r: Option<nat>)
    ensures r.Some? ==> r.value < |accounts| && accounts[r.value].accountID == accountID
    ensures r.Some? ==> forall j :: 0 <= j < r.value ==> accounts[j].accountID != accountID
    ensures r.None? ==> forall j :: 0 <= j < |accounts| ==> accounts[j].accountID != accountID
    decreases |accounts|
  {
    if accounts == [] then None
    else if accounts[0].accountID == accountID then Some(0)
    else
      match FirstWithId(accounts[1..], accountID)
      case None => None
      case Some(k) => Some(k + 1)
  }

  /** The amount plus the fee, which applies only above the threshold. */
  function TotalWithFee(amount: int): int
  {
    if amount > FeeThreshold then amount + TransferFee else amount
  }

  /**
   * The checks of `initiateTransfer` in their order, as written: `mine` is
   * the user's accounts as listed, `rows` every account of the store (none
   * when reading it throws); `sourceChoice` is the number typed, one more
   * than the index. A Java `int` `sourceChoice - 1` wraps only for the
   * smallest `int`, and lands on the largest, out of range either way.
   */
  function Decide(mine: seq<Account>, rows: Option<seq<Account>>, sourceChoice: int, recipientId: string,
                  amount: int, confirmation: string): Decision
  {
    if mine == [] then Stop(NoAccounts)
    else if sourceChoice - 1 < 0 || sourceChoice - 1 >= |mine| then Stop(InvalidSelection)
    else
      match rows
      case None => Stop(StoreUnreadable)
      case Some(all) =>
        match FirstWithId(all, recipientId)
        case None => Stop(RecipientNotFound)
        case Some(k) =>
          if amount > DailyTransferLimit then Stop(OverLimit)
          else if !EqualsIgnoreCase(confirmation, "yes") then Stop(Cancelled)
          else Proceed(mine[sourceChoice - 1], all[k], TotalWithFee(amount))
  }

  /**
   * The checks with the missing one added: a recipient with the source's own
   * id is refused. Every other decision is the one `Decide` makes.
   */
  function DecideGuarded(mine: seq<Account>, rows: Option<seq<Account>>, sourceChoice: int, recipientId: string,
                         amount: int, confirmation: string): (r: Decision)
    ensures r.Proceed? ==> r.source.accountID != r.recipient.accountID
    ensures r == Decide(mine, rows, sourceChoice, recipientId, amount, confirmation) || r == Stop(SameAccount)
  {
    var d := Decide(mine, rows, sourceChoice, recipientId, amount, confirmation);
    if d.Proceed? && d.source.accountID == d.recipient.accountID then Stop(SameAccount) else d
  }

  /** A user without accounts gets no further than the first check. */
  lemma NoAccountsNoTransfer(rows: Option<seq<Account>>, sourceChoice: int, recipientId: string,
                             amount: int, confirmation: string)
    ensures Decide([], rows, sourceChoice, recipientId, amount, confirmation) == Stop(NoAccounts)
  {
  }

  /**
   * A transfer goes ahead exactly when the number picks one of the listed
   * accounts, the store reads, some account has the recipient id, the amount
   * is within the daily limit and the confirmation is "yes" in any case; it
   * then moves the amount plus fee from the picked account to the first
   * account with that id.
   */
  lemma DecideProceedsExactly(mine: seq<Account>, rows: Option<seq<Account>>, sourceChoice: int, recipientId: string,
                              amount: int, confirmation: string)
    ensures Decide(mine, rows, sourceChoice, recipientId, amount, confirmation).Proceed?
        <==> && 1 <= sourceChoice <= |mine|
             && rows.Some? && FirstWithId(rows.value, recipientId).Some?
             && amount <= DailyTransferLimit
             && EqualsIgnoreCase(confirmation, "yes")
    ensures Decide(mine, rows, sourceChoice, recipientId, amount, confirmation).Proceed? ==>
              var d := Decide(mine, rows, sourceChoice, recipientId, amount, confirmation);
              && d.source == mine[sourceChoice - 1]
              && d.recipient == rows.value[FirstWithId(rows.value, recipientId).value]
              && d.recipient.accountID == recipientId
              && d.total == TotalWithFee(amount)
  {
  }

  /**
   * A check that stops the flow does not depend on the answers asked for
   * after it: once the account list, the selection, the store or the
   * recipient stops the flow, any other amount and confirmation stop it the
   * same way; an amount over the limit stops it whatever the confirmation;
   * and a refused confirmation stops every amount within the limit.
   */
  lemma DecideIgnoresLaterAnswers(mine: seq<Account>, rows: Option<seq<Account>>, sourceChoice: int,
                                  recipientId: string, amount: int, confirmation: string,
                                  otherAmount: int, otherConfirmation: string)
    ensures var d := Decide(mine, rows, sourceChoice, recipientId, amount, confirmation);
            (d.Stop? && d.outcome in {NoAccounts, InvalidSelection, StoreUnreadable, RecipientNotFound})
            ==> Decide(mine, rows, sourceChoice, recipientId, otherAmount, otherConfirmation) == d
    ensures (Decide(mine, rows, sourceChoice, recipientId, amount, confirmation) == Stop(OverLimit))
            ==> Decide(mine, rows, sourceChoice, recipientId, amount, otherConfirmation) == Stop(OverLimit)
    ensures (Decide(mine, rows, sourceChoice, recipientId, amount, confirmation) == Stop(Cancelled)
             && otherAmount <= DailyTransferLimit)
            ==> Decide(mine, rows, sourceChoice, recipientId, otherAmount, confirmation) == Stop(Cancelled)
  {
  }

  /**
   * The fee is charged exactly on amounts above the threshold, is the fixed
   * fee, never lowers the total below a smaller amount's total, and keeps
   * every accepted total within the limit plus one fee.
   */
  lemma FeeRule(amount: int, other: int)
    ensures TotalWithFee(amount) == amount || TotalWithFee(amount) == amount + TransferFee
    ensures TotalWithFee(amount) > amount <==> amount > FeeThreshold
    ensures other <= amount ==> TotalWithFee(other) <= TotalWithFee(amount)
    ensures amount <= DailyTransferLimit ==> TotalWithFee(amount) <= DailyTransferLimit + TransferFee
  {
  }

  /** The guard changes a decision only where the as-written checks let an account pay itself. */
  lemma GuardOnlyRefusesSelfTransfer(mine: seq<Account>, rows: Option<seq<Account>>, sourceChoice: int,
                                     recipientId: string, amount: int, confirmation: string)
    ensures var d := Decide(mine, rows, sourceChoice, recipientId, amount, confirmation);
            (DecideGuarded(mine, rows, sourceChoice, recipientId, amount, confirmation) != d)
              <==> d.Proceed? && d.source.accountID == d.recipient.accountID
  {
  }

  // ------------------------------------------------------------ what the store holds afterwards

  /**
   * Two account writes in a row to a readable, writable store both return,
   * and a read afterwards finds the second account as written and, when its
   * id differs, the first one as written too.
   */
  lemma StoredTwice(file: TextFile, t: Table, a1: Account, a2: Account)
    requires ReadTable(file.Lines()) == Some(t) && file.writable
    requires forall k :: k in t.accounts ==> t.accounts[k].accountType != "SAVING"
    requires Canonical(a1) && Canonical(a2)
    ensures WriteFile(file, a1).1 == Returned(true)
    ensures WriteFile(WriteFile(file, a1).0, a2).1 == Returned(true)
    ensures var after := ReadTable(WriteFile(WriteFile(file, a1).0, a2).0.Lines());
            && after.Some?
            && a2.accountID in after.value.accounts && after.value.accounts[a2.accountID] == Persisted(a2)
            && (a1.accountID != a2.accountID ==>
                  a1.accountID in after.value.accounts && after.value.accounts[a1.accountID] == Persisted(a1))
  {
    WriteRereads(file, a1, t);
    var t1 := Reloaded(Put(t, a1));
    forall k | k in t1.accounts
      ensures t1.accounts[k].accountType != "SAVING"
    {
      if k != a1.accountID {
        assert t1.accounts[k] == Persisted(t.accounts[k]);
      }
    }
    WriteRereads(Present(Render(Put(t, a1)), true), a2, t1);
  }

  /**
   * The stand-alone transfer between two distinct objects, once the source
   * covers a positive total, writes the debited source and then the
   * credited destination to the store, and nothing else touches the store.
   */
  lemma MoveWritesTwice(e: Env, src: Account, dst: Account, total: int, now: string)
    requires 0 < total <= src.balance
    ensures var m := MoveEffect(e, src, dst, total, now, false);
            var first := WriteFile(e.accountsFile, src.(balance := src.balance - total));
            var second := WriteFile(first.0, dst.(balance := dst.balance + total));
            first.1 != Thrown && second.1 != Thrown ==> !m.escaped && m.env.accountsFile == second.0
  {
    var debited := src.(balance := src.balance - total);
    var first := WriteFile(e.accountsFile, debited);
    var w := WithdrawEffect(e, src, total, now);
    EffectWrites(e, src, debited, false, now, total, w);
    if !w.escaped {
      var credited := dst.(balance := dst.balance + total);
      EffectWrites(w.env, dst, credited, true, now, total, DepositEffect(w.env, dst, total, now));
    }
  }

  /**
   * After the stand-alone transfer of a positive total the source covers,
   * between two distinct objects over a readable, writable store, a read of
   * the store finds the recipient's row at its balance plus the total and,
   * when the ids differ, the source's row at its balance less the total.
   */
  lemma MoveStoresBalances(e: Env, t: Table, src: Account, dst: Account, total: int, now: string)
    requires ReadTable(e.accountsFile.Lines()) == Some(t) && e.accountsFile.writable
    requires forall k :: k in t.accounts ==> t.accounts[k].accountType != "SAVING"
    requires Canonical(src) && Canonical(dst) && 0 < total <= src.balance
    ensures var m := MoveEffect(e, src, dst, total, now, false);
            var after := ReadTable(m.env.accountsFile.Lines());
            && !m.escaped
            && after.Some? && dst.accountID in after.value.accounts
            && after.value.accounts[dst.accountID].balance == dst.balance + total
            && (src.accountID != dst.accountID ==>
                  src.accountID in after.value.accounts
                  && after.value.accounts[src.accountID].balance == src.balance - total)
  {
    StoredTwice(e.accountsFile, t, src.(balance := src.balance - total), dst.(balance := dst.balance + total));
    MoveWritesTwice(e, src, dst, total, now);
  }

  /**
   * As written, a user may name one of their own accounts as the recipient.
   * Source and recipient are then two objects read from the same row: the
   * withdrawal writes the balance less the total, the deposit on the stale
   * copy writes the original balance plus the total, and the store ends up
   * holding more money than before, by the amount transferred.
   */
  lemma SelfTransferMintsMoney(e: Env, t: Table, mine: seq<Account>, rows: Option<seq<Account>>, sourceChoice: int,
                               recipientId: string, amount: int, confirmation: string, now: string)
    requires ReadTable(e.accountsFile.Lines()) == Some(t) && e.accountsFile.writable
    requires forall k :: k in t.accounts ==> t.accounts[k].accountType != "SAVING"
    requires var d := Decide(mine, rows, sourceChoice, recipientId, amount, confirmation);
             d.Proceed? && d.source == d.recipient && Canonical(d.source) && 0 < d.total <= d.source.balance
    ensures var d := Decide(mine, rows, sourceChoice, recipientId, amount, confirmation);
            var m := MoveEffect(e, d.source, d.recipient, d.total, now, false);
            var after := ReadTable(m.env.accountsFile.Lines());
            && !m.escaped
            && after.Some? && d.source.accountID in after.value.accounts
            && after.value.accounts[d.source.accountID].balance == d.source.balance + d.total
  {
    var d := Decide(mine, rows, sourceChoice, recipientId, amount, confirmation);
    MoveStoresBalances(e, t, d.source, d.recipient, d.total, now);
  }

  /**
   * With the guard, every transfer that goes ahead moves money between two
   * different rows: the store afterwards holds the source's balance less the
   * total and the recipient's balance plus the total, so their sum is the
   * sum of the two balances read.
   */
  lemma GuardedTransferConservesMoney(e: Env, t: Table, mine: seq<Account>, rows: Option<seq<Account>>,
                                      sourceChoice: int, recipientId: string, amount: int, confirmation: string,
                                      now: string)
    requires ReadTable(e.accountsFile.Lines()) == Some(t) && e.accountsFile.writable
    requires forall k :: k in t.accounts ==> t.accounts[k].accountType != "SAVING"
    requires var d := DecideGuarded(mine, rows, sourceChoice, recipientId, amount, confirmation);
             d.Proceed? && Canonical(d.source) && Canonical(d.recipient) && 0 < d.total <= d.source.balance
    ensures var d := DecideGuarded(mine, rows, sourceChoice, recipientId, amount, confirmation);
            var m := MoveEffect(e, d.source, d.recipient, d.total, now, false);
            var after := ReadTable(m.env.accountsFile.Lines());
            && !m.escaped
            && after.Some? && d.source.accountID in after.value.accounts && d.recipient.accountID in after.value.accounts
            && after.value.accounts[d.source.accountID].balance == d.source.balance - d.total
            && after.value.accounts[d.recipient.accountID].balance == d.recipient.balance + d.total
            && after.value.accounts[d.source.accountID].balance + after.value.accounts[d.recipient.accountID].balance
               == d.source.balance + d.recipient.balance
  {
    var d := DecideGuarded(mine, rows, sourceChoice, recipientId, amount, confirmation);
    MoveStoresBalances(e, t, d.source, d.recipient, d.total, now);
  }

  // ------------------------------------------------------------ the flow

  /**
   * The checks of `initiateTransfer()` as it runs them, up to the transfer:
   * the answers typed at the console are parameters, and nothing changes.
   */
  method CheckTransfer(rt: Runtime, currentUser: User, sourceChoice: Int32, recipientId: string,
                       amount: int, confirmation: string)
    returns (d: Decision)
    ensures d == Decide(ScanUser(rt.accountsFile.Lines(), currentUser.userID).0, ReadRows(rt.accountsFile.Lines()),
                        sourceChoice, recipientId, amount, confirmation)
  {
    var userAccounts := ReadUserAccounts(rt, currentUser.userID);
    if |userAccounts| == 0 {
      return Stop(NoAccounts);
    }
    var sourceIndex := sourceChoice - 1;
    if sourceIndex < 0 || sourceIndex >= |userAccounts| {
      return Stop(InvalidSelection);
    }
    var source := userAccounts[sourceIndex];
    var allAccounts := ReadAllAccountsAdmin(rt);
    if allAccounts.None? {
      return Stop(StoreUnreadable);
    }
    var found := FirstWithId(allAccounts.value, recipientId);
    if found.None? {
      return Stop(RecipientNotFound);
    }
    var recipient := allAccounts.value[found.value];
    if amount > DailyTransferLimit {
      return Stop(OverLimit);
    }
    var totalAmount := amount;
    if amount > FeeThreshold {
      totalAmount := totalAmount + TransferFee;
    }
    if !EqualsIgnoreCase(confirmation, "yes") {
      return Stop(Cancelled);
    }
    d := Proceed(source, recipient, totalAmount);
  }

  /**
   * Acting on a decision: a stop changes nothing; going ahead builds a
   * fresh object for each account and runs `BankTransfer.transfer` on them
   * with the total.
   */
  method Carry(rt: Runtime, now: string, d: Decision) returns (outcome: Outcome)
    modifies rt
    ensures match d
            case Stop(o) => outcome == o && rt.Snapshot() == old(rt.Snapshot())
            case Proceed(source, recipient, total) =>
              var m := MoveEffect(old(rt.Snapshot()), source, recipient, total, now, false);
              outcome == Transferred(m.escaped) && rt.Snapshot() == m.env
  {
    if d.Stop? {
      return d.outcome;
    }
    ghost var e0 := rt.Snapshot();
    var sourceAccount := new BankAccount.Load(d.source);
    var recipientAccount := new BankAccount.Load(d.recipient);
    var escaped := BankTransfer.Transfer(rt, now, sourceAccount, recipientAccount, d.total);
    ghost var m := MoveEffect(e0, d.source, d.recipient, d.total, now, false);
    assert rt.Snapshot() == m.env && escaped == m.escaped;
    outcome := Transferred(escaped);
  }

  /**
   * `initiateTransfer()` as written: a refused run changes nothing; an
   * accepted one, a transfer to the source account itself included, runs
   * `BankTransfer.transfer` on two fresh objects with the amount plus fee.
   */
  method InitiateTransfer(rt: Runtime, now: string, currentUser: User, sourceChoice: Int32, recipientId: string,
                          amount: int, confirmation: string)
    returns (outcome: Outcome)
    modifies rt
    ensures var d := Decide(ScanUser(old(rt.accountsFile.Lines()), currentUser.userID).0,
                            ReadRows(old(rt.accountsFile.Lines())), sourceChoice, recipientId, amount, confirmation);
            match d
            case Stop(o) => outcome == o && rt.Snapshot() == old(rt.Snapshot())
            case Proceed(source, recipient, total) =>
              var m := MoveEffect(old(rt.Snapshot()), source, recipient, total, now, false);
              outcome == Transferred(m.escaped) && rt.Snapshot() == m.env
  {
    var d := CheckTransfer(rt, currentUser, sourceChoice, recipientId, amount, confirmation);
    outcome := Carry(rt, now, d);
  }

  /**
   * The same flow with the missing check added: a recipient with the source
   * account's own id stops it with `SameAccount` before anything changes.
   */
  method InitiateTransferGuarded(rt: Runtime, now: string, currentUser: User, sourceChoice: Int32,
                                 recipientId: string, amount: int, confirmation: string)
    returns (outcome: Outcome)
    modifies rt
    ensures var d := DecideGuarded(ScanUser(old(rt.accountsFile.Lines()), currentUser.userID).0,
                                   ReadRows(old(rt.accountsFile.Lines())), sourceChoice, recipientId, amount, confirmation);
            match d
            case Stop(o) => outcome == o && rt.Snapshot() == old(rt.Snapshot())
            case Proceed(source, recipient, total) =>
              var m := MoveEffect(old(rt.Snapshot()), source, recipient, total, now, false);
              outcome == Transferred(m.escaped) && rt.Snapshot() == m.env
  {
    var d := CheckTransfer(rt, currentUser, sourceChoice, recipientId, amount, confirmation);
    if d.Proceed? && d.source.accountID == d.recipient.accountID {
      d := Stop(SameAccount);
    }
    outcome := Carry(rt, now, d);
  }
}
