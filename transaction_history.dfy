/**
 * Reading the ledger back (TransactionHistory.java): a process-wide list
 * that every query first reloads from the ledger file, then filters by
 * account or by owner.
 */
module TransactionHistory {
  import opened Wrappers
  import opened JavaText
  import opened Environment
  import opened Transactions
  import opened Sequences
  import TransactionLogger
  import opened BankAccountCsv

  /**
   * One line after the header: blank lines, lines with fewer than seven
   * comma-separated fields, and lines whose id or amount does not parse
   * (the caught NumberFormatException) give nothing; otherwise the record
   * with every field trimmed and the fields after the seventh ignored. The
   * id is the one read, not one from the counter.
   */
  function ParseRecord(line: string): Option<Transaction>
  {
    if Trim(line) == "" then None
    else
      var parts := Split(line);
      if |parts| < 7 then None
      else
        match (ParseInt(Trim(parts[0])), ParseMoney(Trim(parts[4])))
        case (Some(id), Some(amount)) =>
          Some(Transaction(id, Trim(parts[1]), Trim(parts[2]), Trim(parts[3]), amount, Trim(parts[5]), Trim(parts[6])))
        case _ => None
  }

  /** The seven fields the reader expects of a line, in its order, the amount with two decimals. */
  function RecordFields(t: Transaction): seq<string>
  {
    [IntToString(t.transactionId), t.timestamp, t.fromAccount, t.toAccount, FormatCents(t.amount),
     t.transactionType, t.note]
  }

  /** `t`'s fields joined with commas: the line format the reader parses. */
  function RecordLine(t: Transaction): string
  {
    Join(RecordFields(t))
  }

  /** A text field that survives the line format: no comma, and nothing `trim()` would cut. */
  predicate PlainField(s: string)
  {
    ',' !in s && Unpadded(s)
  }

  /** A record whose text fields are plain and whose note is not empty (`split` drops a trailing empty field). */
  predicate Writable(t: Transaction)
  {
    && PlainField(t.timestamp) && PlainField(t.fromAccount) && PlainField(t.toAccount)
    && PlainField(t.transactionType) && PlainField(t.note) && t.note != ""
  }

  lemma RecordFieldsPlain(t: Transaction)
    requires Writable(t)
    ensures NoCommas(RecordFields(t))
    ensures forall i :: 0 <= i < 7 ==> Trim(RecordFields(t)[i]) == RecordFields(t)[i]
    ensures RecordLine(t) != [] && RecordLine(t)[0] > ' '
  {
    var f := RecordFields(t);
    IntToStringNoComma(t.transactionId);
    FormatCentsNoComma(t.amount);
    IntToStringUnpadded(t.transactionId);
    FormatCentsUnpadded(t.amount);
    forall i | 0 <= i < 7 ensures Trim(f[i]) == f[i] {
      TrimNoPadding(f[i]);
    }
    assert RecordLine(t) == f[0] + "," + Join(f[1..]);
  }

  /**
   * A record written as comma-separated fields reads back as itself: the id
   * and the amount parse to the values written and every text field comes
   * back as it was.
   */
  lemma ParseRecordRoundTrip(t: Transaction)
    requires Writable(t)
    ensures ParseRecord(RecordLine(t)) == Some(t)
  {
    var f := RecordFields(t);
    var line := RecordLine(t);
    RecordFieldsPlain(t);
    SplitJoin(f);
    TrimNotBlank(line);
    IntToStringRoundTrip(t.transactionId);
    FormatCentsRoundTrip(t.amount);
    assert Split(line) == f;
    assert Trim(f[0]) == IntToString(t.transactionId) && Trim(f[4]) == FormatCents(t.amount);
  }

  /** The records of `lines`, in order, skipping every line that gives none. */
  function Records(lines: seq<string>): seq<Transaction>
    decreases |lines|
  {
    if lines == [] then [] else Records(lines[..|lines| - 1]) + RecordOf(lines[|lines| - 1])
  }

  /** The record of one line, if it gives one. */
  function RecordOf(line: string): seq<Transaction>
  {
    match ParseRecord(line) case Some(t) => [t] case None => []
  }

  /** Reading one more line after the header adds that line's record, if any. */
  lemma RecordsStep(lines: seq<string>, i: nat)
    requires 1 <= i < |lines|
    ensures Records(lines[1..i + 1]) == Records(lines[1..i]) + RecordOf(lines[i])
  {
    assert lines[1..i + 1][..i - 1] == lines[1..i];
  }

  /** The same step, with the line's parse already in hand. */
  lemma LoadStep(lines: seq<string>, i: nat, record: Option<Transaction>)
    requires 1 <= i < |lines| && record == ParseRecord(lines[i])
    ensures Records(lines[1..i + 1]) == Records(lines[1..i]) + if record.Some? then [record.value] else []
  {
    RecordsStep(lines, i);
  }

  /** What a load leaves in the list: the first line is a header whatever it holds; a missing file reads as no lines. */
  function Loaded(lines: seq<string>): seq<Transaction>
  {
    if lines == [] then [] else Records(lines[1..])
  }

  /** Records of consecutive stretches of lines follow each other: the load keeps file order. */
  lemma {:induction false} RecordsAppend(a: seq<string>, b: seq<string>)
    ensures Records(a + b) == Records(a) + Records(b)
    decreases |b|
  {
    if b == [] {
      assert a + b == a;
    } else {
      var b' := b[..|b| - 1];
      assert (a + b)[..|a + b| - 1] == a + b';
      RecordsAppend(a, b');
    }
  }

  /** One comma-separated line per record, in order. */
  function RecordLines(ts: seq<Transaction>): (lines: seq<string>)
    ensures |lines| == |ts|
    ensures forall i :: 0 <= i < |ts| ==> lines[i] == RecordLine(ts[i])
  {
    seq(|ts|, i requires 0 <= i < |ts| => RecordLine(ts[i]))
  }

  lemma RecordOfRecordLine(t: Transaction)
    requires Writable(t)
    ensures RecordOf(RecordLine(t)) == [t]
  {
    ParseRecordRoundTrip(t);
  }

  lemma {:induction false} RecordsOfRecordLines(ts: seq<Transaction>)
    requires forall i :: 0 <= i < |ts| ==> Writable(ts[i])
    ensures Records(RecordLines(ts)) == ts
    decreases |ts|
  {
    if ts != [] {
      var n := |ts| - 1;
      var lines := RecordLines(ts);
      assert lines[..n] == RecordLines(ts[..n]);
      calc {
        Records(lines);
        Records(lines[..n]) + RecordOf(lines[n]);
        { RecordsOfRecordLines(ts[..n]); RecordOfRecordLine(ts[n]); }
        ts[..n] + [ts[n]];
        ts;
      }
    }
  }

  /**
   * A ledger whose lines after the header are the records in the
   * comma-separated format loads exactly those records, in order, whatever
   * the header says.
   */
  lemma LedgerOfRecordLinesLoads(header: string, ts: seq<Transaction>)
    requires forall i :: 0 <= i < |ts| ==> Writable(ts[i])
    ensures Loaded([header] + RecordLines(ts)) == ts
  {
    assert ([header] + RecordLines(ts))[1..] == RecordLines(ts);
    RecordsOfRecordLines(ts);
  }

  /** Every loaded record is the record of one line after the header. */
  lemma {:induction false} RecordsComeFromLines(lines: seq<string>, t: Transaction)
    requires t in Records(lines)
    ensures exists j :: 0 <= j < |lines| && ParseRecord(lines[j]) == Some(t)
    decreases |lines|
  {
    var n := |lines| - 1;
    if t in Records(lines[..n]) {
      RecordsComeFromLines(lines[..n], t);
      var j :| 0 <= j < n && ParseRecord(lines[..n][j]) == Some(t);
      assert lines[j] == lines[..n][j];
    } else {
      assert ParseRecord(lines[n]) == Some(t);
    }
  }

  /** The lines after the header, cut around the line at `j`. */
  lemma LinesAround(lines: seq<string>, j: nat)
    requires 1 <= j < |lines|
    ensures lines[1..] == (lines[1..j] + [lines[j]]) + lines[j + 1..]
  {
  }

  /** Every line after the header that parses is loaded, in its place. */
  lemma RecordOfEachLine(lines: seq<string>, j: nat)
    requires 1 <= j < |lines| && ParseRecord(lines[j]).Some?
    ensures Loaded(lines) == Records(lines[1..j]) + [ParseRecord(lines[j]).value] + Records(lines[j + 1..])
  {
    var before, line, after := lines[1..j], lines[j], lines[j + 1..];
    calc {
      Loaded(lines);
      Records(lines[1..]);
      { LinesAround(lines, j); }
      Records((before + [line]) + after);
      { RecordsAppend(before + [line], after); }
      Records(before + [line]) + Records(after);
      { RecordsAppend(before, [line]); assert [line][..0] == []; }
      Records(before) + RecordOf(line) + Records(after);
    }
  }

  /**
   * A record the logger wrote cannot be read back: `toCSV()` separates its
   * fields with spaces, so a comma-free record gives a line of one field,
   * short of the seven the reader needs.
   */
  lemma LoggedLineNeverLoads(t: Transaction)
    requires CommaFree(t)
    ensures ParseRecord(ToCsv(t)) == None
  {
    ToCsvHasNoComma(t);
    SplitNoComma(ToCsv(t));
  }

  /**
   * A ledger file this process created holds only its header and the lines
   * it logged, so reading it back gives no records at all.
   */
  lemma LoggedLedgerLoadsNothing(ledger: Ledger)
    requires ledger.file.writable && ledger.file.IsNewOrEmpty()
    requires forall i :: 0 <= i < |ledger.records| ==> CommaFree(ledger.records[i])
    ensures Loaded(TransactionLogger.LedgerFile(ledger).Lines()) == []
  {
    if ledger.records == [] {
      assert TransactionLogger.LedgerFile(ledger) == ledger.file;
    } else {
      var recordLines := TransactionLogger.RecordLines(ledger.records);
      TransactionLogger.LedgerFileLayout(ledger);
      NoLoggedLineLoads(ledger.records, |recordLines|);
      assert recordLines[..|recordLines|] == recordLines;
      HeaderIsSkipped(TransactionLogger.Header, recordLines);
    }
  }

  /** The line in front is the header, whatever it holds. */
  lemma HeaderIsSkipped(header: string, rest: seq<string>)
    ensures Loaded([header] + rest) == Records(rest)
  {
    assert ([header] + rest)[1..] == rest;
  }

  lemma NoLoggedLineLoads(records: seq<Transaction>, n: nat)
    requires n <= |records|
    requires forall i :: 0 <= i < |records| ==> CommaFree(records[i])
    ensures Records(TransactionLogger.RecordLines(records)[..n]) == []
  {
    var lines := TransactionLogger.RecordLines(records)[..n];
    forall i | 0 <= i < |lines|
      ensures RecordOf(lines[i]) == []
    {
      LoggedLineNeverLoads(records[i]);
    }
    NothingFromUnparsableLines(lines);
  }

  /** Lines that give no record add nothing to a load. */
  lemma {:induction false} NothingFromUnparsableLines(lines: seq<string>)
    requires forall i :: 0 <= i < |lines| ==> RecordOf(lines[i]) == []
    ensures Records(lines) == []
    decreases |lines|
  {
    if lines != [] {
      NothingFromUnparsableLines(lines[..|lines| - 1]);
    }
  }

  /** `t.getFromAccount().equals(accountID) || t.getToAccount().equals(accountID)`. */
  function Involves(accountID: string): Transaction -> bool
  {
    (t: Transaction) => t.fromAccount == accountID || t.toAccount == accountID
  }

  /** The record moves money from or to one of `accounts`. */
  function InvolvesAny(accounts: seq<Account>): Transaction -> bool
  {
    (t: Transaction) => exists a :: a in accounts && (a.accountID == t.fromAccount || a.accountID == t.toAccount)
  }

  /** The account filter keeps exactly the records that name the account on either side. */
  lemma AccountFilterExact(records: seq<Transaction>, accountID: string)
    ensures forall t :: t in Filter(records, Involves(accountID))
                    <==> t in records && (t.fromAccount == accountID || t.toAccount == accountID)
  {
    forall t {
      FilterMembership(records, Involves(accountID), t);
    }
  }

  /** The owner filter keeps exactly the records that name one of the owner's accounts on either side. */
  lemma OwnerFilterExact(records: seq<Transaction>, accounts: seq<Account>)
    ensures forall t :: t in Filter(records, InvolvesAny(accounts))
                    <==> t in records && exists a :: a in accounts && (a.accountID == t.fromAccount || a.accountID == t.toAccount)
  {
    forall t {
      FilterMembership(records, InvolvesAny(accounts), t);
    }
  }

  /** The static `transactions` list. */
  class History {
    var transactions: seq<Transaction>

    constructor ()
      ensures transactions == []
    {
      transactions := [];
    }

    /**
     * `loadTransactions()`: clears the list and, when the ledger file exists,
     * reads it.
     */
    method LoadTransactions(rt: Runtime)
      modifies this
      ensures transactions == Loaded(TransactionLogger.LedgerFile(rt.ledger).Lines())
    {
      transactions := [];
      var file := TransactionLogger.LedgerFile(rt.ledger);
      if file.Missing? {
        return;
      }
      ReadLines(file.lines);
    }

    /**
     * The reading loop of `loadTransactions()`: the `isFirstLine` flag skips
     * the first line, here by starting at the second; then the record of
     * each line that gives one is appended, in order.
     */
    method ReadLines(lines: seq<string>)
      modifies this
      ensures transactions == Loaded(lines)
    {
      transactions := [];
      if lines == [] {
        return;
      }
      var i := 1;
      assert lines[1..i] == [];
      while i < |lines|
        invariant 1 <= i <= |lines|
        invariant transactions == Records(lines[1..i])
      {
        var record := ParseRecord(lines[i]);
        LoadStep(lines, i, record);
        if record.Some? {
          transactions := transactions + [record.value];
        }
        i := i + 1;
      }
      assert lines[1..i] == lines[1..];
    }

    /** `addTransaction(t)`. */
    method AddTransaction(t: Transaction)
      modifies this
      ensures transactions == old(transactions) + [t]
    {
      transactions := transactions + [t];
    }

    /** `getAllTransactions()`: reloads, then returns a copy of the whole list. */
    method GetAllTransactions(rt: Runtime) returns (all: seq<Transaction>)
      modifies this
      ensures all == transactions == Loaded(TransactionLogger.LedgerFile(rt.ledger).Lines())
    {
      LoadTransactions(rt);
      all := transactions;
    }

    /** `getAccountTransactions(accountID)`: reloads, then keeps the records naming the account, in order. */
    method GetAccountTransactions(rt: Runtime, accountID: string) returns (found: seq<Transaction>)
      modifies this
      ensures found == Filter(Loaded(TransactionLogger.LedgerFile(rt.ledger).Lines()), Involves(accountID))
    {
      LoadTransactions(rt);
      found := Filter(transactions, Involves(accountID));
    }

    /**
     * `getUserTransactions(userID)`: reloads, reads the owner's accounts
     * from the account store, then keeps the records naming any of them, in
     * order.
     */
    method GetUserTransactions(rt: Runtime, userID: Int32) returns (found: seq<Transaction>)
      modifies this
      ensures found == Filter(Loaded(TransactionLogger.LedgerFile(rt.ledger).Lines()),
                              InvolvesAny(ScanUser(rt.accountsFile.Lines(), userID).0))
    {
      LoadTransactions(rt);
      var accounts := ReadUserAccounts(rt, userID);
      found := Filter(transactions, InvolvesAny(accounts));
    }
  }
}
