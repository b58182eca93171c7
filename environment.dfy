/**
 * The state the source keeps outside its objects: the static transaction id
 * counter and the two files under `data/`.
 */
module Environment {
  import opened JavaText
  import opened Transactions

  /**
   * A text file as the sequence of its lines. `writable` says whether opening
   * it for writing succeeds; when it does not, the source's FileWriter throws
   * an IOException.
   */
  datatype TextFile = Missing(writable: bool) | Present(lines: seq<string>, writable: bool)
  {
    /** The lines a reader sees; a missing file reads as empty. */
    function Lines(): seq<string>
    {
      if Present? then lines else []
    }

    /** `!file.exists() || file.length() == 0`. */
    predicate IsNewOrEmpty()
    {
      Missing? || lines == []
    }
  }

  /**
   * The ledger file: the file as the process found it, and the records the
   * process has appended to it since, oldest first. Its text is
   * `TransactionLogger.LedgerFile`.
   */
  datatype Ledger = Ledger(file: TextFile, records: seq<Transaction>)

  /** A snapshot of the process-wide state, for stating effects as functions. */
  datatype Env = Env(nextTransactionId: Int32, accountsFile: TextFile, ledger: Ledger)

  /**
   * The running process: `Transaction.idCounter`, `data/bank_accounts.csv`
   * and `data/transactions.csv`.
   */
  class Runtime {
    var nextTransactionId: Int32
    var accountsFile: TextFile
    var ledger: Ledger

    function Snapshot(): Env
      reads this
    {
      Env(nextTransactionId, accountsFile, ledger)
    }

    /** A fresh process: the counter starts at 1 (`idCounter = 1`) and nothing is logged yet. */
    constructor (accountsFile: TextFile, transactionsFile: TextFile)
      ensures Snapshot() == Env(1, accountsFile, Ledger(transactionsFile, []))
    {
      this.nextTransactionId := 1;
      this.accountsFile := accountsFile;
      this.ledger := Ledger(transactionsFile, []);
    }

    /**
     * `new Transaction(from, to, amount, type, note)`: takes the current
     * counter value as its id, advances the counter and stores the rest as
     * given.
     */
    method NewTransaction(now: string, fromAccount: string, toAccount: string,
                          amount: int, transactionType: string, note: string)
      returns (t: Transaction)
      modifies this`nextTransactionId
      ensures t == Transaction(old(nextTransactionId), now, fromAccount, toAccount, amount, transactionType, note)
      ensures nextTransactionId == NextId(old(nextTransactionId))
    {
      t := Transaction(nextTransactionId, now, fromAccount, toAccount, amount, transactionType, note);
      nextTransactionId := NextId(nextTransactionId);
    }
  }
}
