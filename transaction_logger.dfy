/**
 * The ledger file writer (TransactionLogger.java): appends one formatted
 * record per call, preceded by a column header when the file is new or empty.
 */
module TransactionLogger {
  import opened JavaText
  import opened Environment
  import opened Transactions

  /** The column header written at the top of a new ledger file. */
  const Header: string :=
    PadRight("Transaction ID", 15) + " " + PadRight("Timestamp", 25) + " "
      + PadRight("From Account", 20) + " " + PadRight("To Account", 20) + " "
      + PadRight("Amount", 10) + " " + PadRight("Type", 12) + " " + "Note"

  /**
   * The file after appending `line`: header first if the file is new or
   * empty; unchanged if it cannot be opened for writing (the IOException is
   * caught).
   */
  function AppendRecord(file: TextFile, line: string): TextFile
  {
    if !file.writable then file
    else Present((if file.IsNewOrEmpty() then [Header] else file.lines) + [line], file.writable)
  }

  /** The file after appending each of `lines` in turn. */
  function AppendAll(file: TextFile, lines: seq<string>): TextFile
    decreases |lines|
  {
    if lines == [] then file else AppendRecord(AppendAll(file, lines[..|lines| - 1]), lines[|lines| - 1])
  }

  /**
   * Appending never touches what is already there: every call adds exactly
   * one record line after the existing lines, and the header is written only
   * when the file starts out new or empty, so it can only ever be the first
   * line.
   */
  lemma {:induction false} AppendAllLayout(file: TextFile, lines: seq<string>)
    requires file.writable && lines != []
    ensures AppendAll(file, lines)
         == Present((if file.IsNewOrEmpty() then [Header] else file.lines) + lines, file.writable)
    decreases |lines|
  {
    var init, last := lines[..|lines| - 1], lines[|lines| - 1];
    var base := if file.IsNewOrEmpty() then [Header] else file.lines;
    if init == [] {
      assert lines == [last];
    } else {
      var prev := AppendAll(file, init);
      AppendAllLayout(file, init);
      assert prev == Present(base + init, file.writable);
      assert lines == init + [last];
      calc {
        AppendAll(file, lines);
        AppendRecord(prev, last);
        Present(prev.lines + [last], file.writable);
        { assert (base + init) + [last] == base + (init + [last]); }
        Present(base + lines, file.writable);
      }
    }
  }

  /** When the file cannot be opened, logging changes nothing. */
  lemma {:induction false} AppendAllUnwritable(file: TextFile, lines: seq<string>)
    requires !file.writable
    ensures AppendAll(file, lines) == file
    decreases |lines|
  {
    if lines != [] {
      AppendAllUnwritable(file, lines[..|lines| - 1]);
    }
  }

  /** The ledger's text: the file as found, with one `toCSV()` line appended per record. */
  function LedgerFile(ledger: Ledger): TextFile
  {
    AppendAll(ledger.file, RecordLines(ledger.records))
  }

  /** One `toCSV()` line per record, in order. */
  function RecordLines(records: seq<Transaction>): (lines: seq<string>)
    ensures |lines| == |records|
    ensures forall i :: 0 <= i < |records| ==> lines[i] == ToCsv(records[i])
  {
    seq(|records|, i requires 0 <= i < |records| => ToCsv(records[i]))
  }

  /** The ledger after `log(t)`: the record is added when the file can be opened for writing. */
  function Appended(ledger: Ledger, t: Transaction): Ledger
  {
    if ledger.file.writable then ledger.(records := ledger.records + [t]) else ledger
  }

  /** `log(transaction)`. */
  method Log(rt: Runtime, transaction: Transaction)
    modifies rt`ledger
    ensures rt.ledger == Appended(old(rt.ledger), transaction)
  {
    var ledger := rt.ledger;
    if ledger.file.writable {
      rt.ledger := Ledger(ledger.file, ledger.records + [transaction]);
    }
  }

  /** Appending keeps whether the file can be opened. */
  lemma {:induction false} AppendAllWritable(file: TextFile, lines: seq<string>)
    ensures AppendAll(file, lines).writable == file.writable
    decreases |lines|
  {
    if lines != [] {
      AppendAllWritable(file, lines[..|lines| - 1]);
    }
  }

  /**
   * Each `log(t)` call changes the ledger's text exactly as the source's
   * append does: one `toCSV()` line at the end, after a header if the file
   * was new or empty, and nothing at all if the file cannot be opened.
   */
  lemma LogAppendsOneLine(ledger: Ledger, t: Transaction)
    ensures LedgerFile(Appended(ledger, t)) == AppendRecord(LedgerFile(ledger), ToCsv(t))
  {
    var lines := RecordLines(ledger.records);
    if ledger.file.writable {
      assert RecordLines(ledger.records + [t]) == lines + [ToCsv(t)];
      assert (lines + [ToCsv(t)])[..|lines|] == lines;
    } else {
      AppendAllUnwritable(ledger.file, lines);
    }
  }

  /**
   * The ledger's text after any number of calls: the lines found, or a
   * header for a new or empty file, then one line per logged record.
   */
  lemma LedgerFileLayout(ledger: Ledger)
    requires ledger.file.writable && ledger.records != []
    ensures LedgerFile(ledger)
         == Present((if ledger.file.IsNewOrEmpty() then [Header] else ledger.file.lines) + RecordLines(ledger.records), true)
  {
    AppendAllLayout(ledger.file, RecordLines(ledger.records));
  }
}
