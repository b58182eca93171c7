/**
 * One money movement (Transaction.java): an immutable record whose id is
 * taken from a process-wide counter when it is constructed.
 */
module Transactions {
  import opened JavaText

  /** Amounts are in cents; the timestamp is an opaque wall-clock string. */
  datatype Transaction = Transaction(
    transactionId: Int32,
    timestamp: string,
    fromAccount: string,
    toAccount: string,
    amount: int,
    transactionType: string,
    note: string)

  /** `idCounter++` on a Java `int`: one more, wrapping at the top of the range. */
  function NextId(id: Int32): (next: Int32)
    ensures id < MaxInt ==> next == id + 1
    ensures id == MaxInt ==> next == MinInt
  {
    if id == MaxInt then MinInt else id + 1
  }

  /** The counter after `k` constructions starting from `start`. */
  function IdAfter(start: Int32, k: nat): Int32
    decreases k
  {
    if k == 0 then start else NextId(IdAfter(start, k - 1))
  }

  /** Below the top of the range, `k` constructions advance the counter by exactly `k`. */
  lemma {:induction false} IdsAreConsecutive(start: Int32, k: nat)
    requires start + k <= MaxInt
    ensures IdAfter(start, k) == start + k
    decreases k
  {
    if k > 0 {
      IdsAreConsecutive(start, k - 1);
    }
  }

  /** Ids handed out within one process, from the initial counter value 1, never repeat. */
  lemma IdsAreDistinct(i: nat, j: nat)
    requires i < j && 1 + j <= MaxInt
    ensures IdAfter(1, i) < IdAfter(1, j)
  {
    IdsAreConsecutive(1, i);
    IdsAreConsecutive(1, j);
  }

  /**
   * `toCSV()`: the id, timestamp, both account ids, the amount with two
   * decimals and the type, left-justified in columns of 15, 25, 20, 20, 10
   * and 12 characters, each followed by a space, and then the note.
   */
  function ToCsv(t: Transaction): string
  {
    Columns([IntToString(t.transactionId), t.timestamp, t.fromAccount, t.toAccount, FormatCents(t.amount), t.transactionType],
            [15, 25, 20, 20, 10, 12])
      + t.note
  }

  /** Each cell padded to its column's width and followed by one space. */
  function Columns(cells: seq<string>, widths: seq<nat>): string
    requires |cells| == |widths|
  {
    if cells == [] then "" else PadRight(cells[0], widths[0]) + " " + Columns(cells[1..], widths[1..])
  }

  /** `toString()`: six comma-separated fields, without the id. */
  function ToText(t: Transaction): string
  {
    Join([t.timestamp, t.fromAccount, t.toAccount, FormatCents(t.amount), t.transactionType, t.note])
  }

  /** The free-text fields of a record hold no comma. */
  predicate CommaFree(t: Transaction)
  {
    ',' !in t.timestamp && ',' !in t.fromAccount && ',' !in t.toAccount
      && ',' !in t.transactionType && ',' !in t.note
  }

  /**
   * `toCSV()` separates its fields with padding spaces, not commas: a record
   * with comma-free text yields a line without a single comma.
   */
  lemma ToCsvHasNoComma(t: Transaction)
    requires CommaFree(t)
    ensures ',' !in ToCsv(t)
  {
    IntToStringNoComma(t.transactionId);
    FormatCentsNoComma(t.amount);
    var cells := [IntToString(t.transactionId), t.timestamp, t.fromAccount, t.toAccount, FormatCents(t.amount), t.transactionType];
    ColumnsNoComma(cells, [15, 25, 20, 20, 10, 12]);
  }

  /** Padding adds only spaces, so comma-free cells give a comma-free row. */
  lemma {:induction false} ColumnsNoComma(cells: seq<string>, widths: seq<nat>)
    requires |cells| == |widths|
    requires forall i :: 0 <= i < |cells| ==> ',' !in cells[i]
    ensures ',' !in Columns(cells, widths)
    decreases |cells|
  {
    if cells != [] {
      PadRightNoComma(cells[0], widths[0]);
      ColumnsNoComma(cells[1..], widths[1..]);
    }
  }

  /** `toCSV()` begins with the id, followed by a space. */
  lemma ToCsvStartsWithId(t: Transaction)
    ensures var id := IntToString(t.transactionId);
            |ToCsv(t)| > |id| && ToCsv(t)[..|id|] == id && ToCsv(t)[|id|] == ' '
  {
    var id := IntToString(t.transactionId);
    var p := PadRight(id, 15);
    var cells := [id, t.timestamp, t.fromAccount, t.toAccount, FormatCents(t.amount), t.transactionType];
    var widths: seq<nat> := [15, 25, 20, 20, 10, 12];
    var rest := " " + Columns(cells[1..], widths[1..]) + t.note;
    assert ToCsv(t) == p + rest;
    assert p[..|id|] == id;
    assert (p + rest)[..|id|] == id;
    if |id| < |p| {
      assert (p + rest)[|id|] == p[|id|] == ' ';
    } else {
      assert (p + rest)[|id|] == rest[0] == ' ';
    }
  }

  /**
   * `toString()` gives back the timestamp, both account ids, the amount with
   * two decimals, the type and the note, in that order and without the id.
   */
  lemma ToTextFields(t: Transaction)
    requires CommaFree(t) && t.note != ""
    ensures Split(ToText(t)) == [t.timestamp, t.fromAccount, t.toAccount, FormatCents(t.amount), t.transactionType, t.note]
  {
    FormatCentsNoComma(t.amount);
    SplitJoin([t.timestamp, t.fromAccount, t.toAccount, FormatCents(t.amount), t.transactionType, t.note]);
  }
}
