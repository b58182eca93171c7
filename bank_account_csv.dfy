/**
 * The account store (BankAccountCSV.java): `data/bank_accounts.csv`, one
 * line per account in the form `accountID,userID,balance,accountType`.
 * Every update reads the whole file into a map keyed by account id, changes
 * the map and rewrites every line.
 */
module BankAccountCsv {
  import opened Wrappers
  import opened JavaText
  import opened Environment
  import opened Sequences
  import SavingsAccount

  /**
   * The fields of a BankAccount object. `interestRate` is present exactly for
   * objects built as a SavingsAccount; it is not written to the file.
   */
  datatype Account = Account(
    accountID: string,
    userID: Int32,
    balance: int,
    accountType: string,
    interestRate: Option<nat>)

  /**
   * How a store operation that returns a boolean ends: it returns a value,
   * or a NumberFormatException from parsing a stored row escapes it (only
   * IOException is caught).
   */
  datatype Completion = Returned(value: bool) | Thrown

  // ------------------------------------------------------------ row format

  /** The line written for an account: `%s,%d,%.2f,%s`. */
  function FormatRow(a: Account): string
  {
    Join([a.accountID, IntToString(a.userID), FormatCents(a.balance), a.accountType])
  }

  /** A type as the BankAccount constructor leaves it: upper-cased, and splittable back. */
  predicate WellFormed(a: Account)
  {
    ',' !in a.accountID && a.accountType != "" && ',' !in a.accountType
      && ToUpper(a.accountType) == a.accountType
  }

  /** A well-formed account whose type does not send it down the SavingsAccount branch on reload. */
  predicate Canonical(a: Account)
  {
    WellFormed(a) && a.accountType != "SAVING"
  }

  /** What survives a write and a read: every field but the interest rate. */
  function Persisted(a: Account): Account
  {
    a.(interestRate := None)
  }

  /**
   * `createAccountFromData`: a row typed exactly `SAVING` becomes a
   * SavingsAccount (type `SAVINGS`, rate from the balance); any other row a
   * BankAccount with its type upper-cased. `None` is the NumberFormatException
   * of an unparsable user id or balance.
   */
  function CreateAccountFromData(data: seq<string>): (r: Option<Account>)
    requires |data| == 4
    ensures r.Some? ==> r.value.accountID == data[0] && ParseInt(data[1]) == Some(r.value.userID)
    ensures r.Some? <==> ParseInt(data[1]).Some? && ParseMoney(data[2]).Some?
    ensures r.Some? && NoCommas(data) && data[3] != "" ==> WellFormed(r.value)
    ensures r.Some? ==> (r.value.interestRate.Some? <==> data[3] == "SAVING")
    ensures r.Some? && data[3] == "SAVING" ==>
              r.value.accountType == "SAVINGS"
              && r.value.interestRate == Some(SavingsAccount.InterestRate(r.value.balance))
  {
    match (ParseInt(data[1]), ParseMoney(data[2]))
    case (Some(userID), Some(balance)) =>
      if data[3] == "SAVING" then
        assert ToUpper("SAVINGS") == "SAVINGS";
        Some(Account(data[0], userID, balance, "SAVINGS", Some(SavingsAccount.InterestRate(balance))))
      else
        ToUpperIdempotent(data[3]);
        ToUpperKeepsCommas(data[3]);
        assert ',' !in data[3] ==> ',' !in ToUpper(data[3]);
        Some(Account(data[0], userID, balance, ToUpper(data[3]), None))
    case _ => None
  }

  /** The four fields of a written line, in order. */
  function RowFields(a: Account): seq<string>
  {
    [a.accountID, IntToString(a.userID), FormatCents(a.balance), a.accountType]
  }

  /** How a read loop treats one line of the store. */
  datatype Row = Skipped | Unparsable(key: string) | Parsed(account: Account)

  /**
   * One line as every read loop sees it: a line that does not split into
   * exactly 4 fields is skipped; otherwise `createAccountFromData` either
   * builds the account or throws.
   */
  function ParseRow(line: string): (r: Row)
    ensures r.Skipped? <==> |Split(line)| != 4
    ensures r.Unparsable? ==> r.key == Split(line)[0]
    ensures r.Parsed? ==> r.account.accountID == Split(line)[0] && WellFormed(r.account)
    ensures r.Parsed? ==> ParseInt(Split(line)[1]) == Some(r.account.userID)
  {
    var data := Split(line);
    if |data| != 4 then Skipped
    else
      match CreateAccountFromData(data)
      case None => Unparsable(data[0])
      case Some(a) => Parsed(a)
  }

  /**
   * A written line splits back into its four fields, and reading it rebuilds
   * the account, less its interest rate.
   */
  lemma RowRoundTrip(a: Account)
    requires Canonical(a)
    ensures Split(FormatRow(a)) == RowFields(a)
    ensures ParseRow(FormatRow(a)) == Parsed(Persisted(a))
  {
    var fields := RowFields(a);
    IntToStringNoComma(a.userID);
    FormatCentsNoComma(a.balance);
    assert NoCommas(fields);
    SplitJoin(fields);
    IntToStringRoundTrip(a.userID);
    FormatCentsRoundTrip(a.balance);
    assert CreateAccountFromData(fields) == Some(Persisted(a));
  }

  /**
   * A SavingsAccount written by `createSavings` (type `SAVINGS`) comes back
   * from the file as a plain account without a rate: `createAccountFromData`
   * only rebuilds rows typed `SAVING`.
   */
  lemma SavingsReloadAsPlainAccounts(a: Account)
    requires WellFormed(a) && a.accountType == "SAVINGS" && a.interestRate.Some?
    ensures ParseRow(FormatRow(a)) == Parsed(a.(interestRate := None))
  {
    RowRoundTrip(a);
  }

  // ------------------------------------------------------------ the map

  /** The `HashMap<String, BankAccount>` of a rewrite, with its keys in insertion order. */
  datatype Table = Table(ids: seq<string>, accounts: map<string, Account>)

  /** The keys are listed once each, and each account is stored under its own id. */
  ghost predicate Valid(t: Table)
  {
    DistinctIds(t.ids) && KeysListed(t) && SelfKeyed(t)
  }

  ghost predicate DistinctIds(ids: seq<string>)
  {
    forall i, j :: 0 <= i < j < |ids| ==> ids[i] != ids[j]
  }

  ghost predicate KeysListed(t: Table)
  {
    forall k :: k in t.accounts <==> k in t.ids
  }

  ghost predicate SelfKeyed(t: Table)
  {
    forall k :: k in t.accounts ==> t.accounts[k].accountID == k
  }

  /** Every key in the order list has an entry, so the map can be written out. */
  predicate IdsStored(t: Table)
  {
    forall k :: k in t.ids ==> k in t.accounts
  }

  /** Every account in the map is well formed. */
  ghost predicate AllWellFormed(t: Table)
  {
    forall k :: k in t.accounts ==> WellFormed(t.accounts[k])
  }

  const EmptyTable: Table := Table([], map[])

  /** `map.put(a.getAccountID(), a)`: a new key goes last, an existing key keeps its place. */
  function Put(t: Table, a: Account): (r: Table)
    ensures r.accounts == t.accounts[a.accountID := a]
    ensures IdsStored(t) ==> IdsStored(r)
  {
    if a.accountID in t.accounts then Table(t.ids, t.accounts[a.accountID := a])
    else Table(t.ids + [a.accountID], t.accounts[a.accountID := a])
  }

  lemma PutKeepsValid(t: Table, a: Account)
    requires Valid(t)
    ensures Valid(Put(t, a))
  {
  }

  /** The map after one more line of the read loop; `None` once `createAccountFromData` throws. */
  function ReadStep(t: Table, row: Row): Option<Table>
  {
    match row
    case Skipped => Some(t)
    case Unparsable(_) => None
    case Parsed(a) => Some(Put(t, a))
  }

  /**
   * The read loop of `writeToCSV`: every 4-field row is put into the map
   * under its first field, so a later row with the same id replaces an
   * earlier one; rows with another number of fields are skipped.
   */
  function ReadTable(lines: seq<string>): (r: Option<Table>)
    ensures r.Some? ==> IdsStored(r.value)
    decreases |lines|
  {
    if lines == [] then Some(EmptyTable)
    else
      match ReadTable(lines[..|lines| - 1])
      case None => None
      case Some(t) => ReadStep(t, ParseRow(lines[|lines| - 1]))
  }

  /** The map read from any file has distinct keys, each stored under its own id, and well-formed accounts. */
  lemma {:induction false} ReadTableValid(lines: seq<string>)
    requires ReadTable(lines).Some?
    ensures Valid(ReadTable(lines).value) && AllWellFormed(ReadTable(lines).value)
    decreases |lines|
  {
    if lines != [] {
      ReadTableValid(lines[..|lines| - 1]);
      var row := ParseRow(lines[|lines| - 1]);
      if row.Parsed? {
        PutKeepsValid(ReadTable(lines[..|lines| - 1]).value, row.account);
      }
    }
  }

  /** The lines written from the map, one per key in key order. */
  function Render(t: Table): (lines: seq<string>)
    requires IdsStored(t)
  {
    seq(|t.ids|, i requires 0 <= i < |t.ids| => FormatRow(t.accounts[t.ids[i]]))
  }

  /** The write loop: one formatted line per key of the map, in key order. */
  method RenderLines(t: Table) returns (lines: seq<string>)
    requires IdsStored(t)
    ensures lines == Render(t)
  {
    lines := [];
    var j := 0;
    while j < |t.ids|
      invariant 0 <= j <= |t.ids|
      invariant lines == Render(t)[..j]
    {
      lines := lines + [FormatRow(t.accounts[t.ids[j]])];
      j := j + 1;
    }
    assert Render(t)[..|t.ids|] == Render(t);
  }

  /** The first field of every 4-field row. */
  function RowIds(lines: seq<string>): set<string>
    decreases |lines|
  {
    if lines == [] then {}
    else
      var data := Split(lines[|lines| - 1]);
      RowIds(lines[..|lines| - 1]) + (if |data| == 4 then {data[0]} else {})
  }

  /** The map holds exactly the ids of the 4-field rows; every other row is dropped. */
  lemma {:induction false} ReadTableKeys(lines: seq<string>)
    requires ReadTable(lines).Some?
    ensures ReadTable(lines).value.accounts.Keys == RowIds(lines)
    decreases |lines|
  {
    if lines != [] {
      ReadTableKeys(lines[..|lines| - 1]);
    }
  }

  /** Of several rows with one id, the last one read is the one kept. */
  lemma {:induction false} ReadTableLastRowWins(lines: seq<string>, i: nat)
    requires ReadTable(lines).Some? && i < |lines| && ParseRow(lines[i]).Parsed?
    requires forall j :: i < j < |lines| && ParseRow(lines[j]).Parsed? ==>
               ParseRow(lines[j]).account.accountID != ParseRow(lines[i]).account.accountID
    ensures ParseRow(lines[i]).account.accountID in ReadTable(lines).value.accounts
    ensures ReadTable(lines).value.accounts[ParseRow(lines[i]).account.accountID] == ParseRow(lines[i]).account
    decreases |lines|
  {
    var init := lines[..|lines| - 1];
    if i < |lines| - 1 {
      assert forall j :: i < j < |init| ==> init[j] == lines[j];
      ReadTableLastRowWins(init, i);
    }
  }

  /** Once a row fails to parse, the whole read fails. */
  lemma {:induction false} ReadTableFailurePersists(lines: seq<string>, n: nat)
    requires n <= |lines| && ReadTable(lines[..n]) == None
    ensures ReadTable(lines) == None
    decreases |lines| - n
  {
    if n < |lines| {
      assert lines[..n + 1][..n] == lines[..n];
      ReadTableFailurePersists(lines, n + 1);
    } else {
      assert lines[..n] == lines;
    }
  }

  /** The map read back from a rewrite: the same keys, in the same order, each account less its rate. */
  function Reloaded(t: Table): Table
  {
    Table(t.ids, map k | k in t.accounts :: Persisted(t.accounts[k]))
  }

  /** The map a read builds from the rows written for the first `n` keys of `t`. */
  function Reread(t: Table, n: nat): Table
    requires n <= |t.ids| && IdsStored(t)
  {
    if n == 0 then EmptyTable
    else
      var prev := Reread(t, n - 1);
      var id := t.ids[n - 1];
      Table(prev.ids + [id], prev.accounts[id := Persisted(t.accounts[id])])
  }

  lemma {:induction false} RereadShape(t: Table, n: nat)
    requires n <= |t.ids| && IdsStored(t)
    ensures Reread(t, n).ids == t.ids[..n]
    ensures forall k :: k in Reread(t, n).accounts <==> k in Reread(t, n).ids
    ensures forall k :: k in Reread(t, n).accounts ==> Reread(t, n).accounts[k] == Persisted(t.accounts[k])
  {
    RereadIds(t, n);
    if n > 0 {
      RereadShape(t, n - 1);
      var prev := Reread(t, n - 1);
      var id := t.ids[n - 1];
      var r := Table(prev.ids + [id], prev.accounts[id := Persisted(t.accounts[id])]);
      assert Reread(t, n) == r;
      forall k
        ensures k in r.accounts <==> k in r.ids
      {
        assert k in r.ids <==> k in prev.ids || k == id;
      }
      forall k | k in r.accounts
        ensures r.accounts[k] == Persisted(t.accounts[k])
      {
        if k != id {
          assert r.accounts[k] == prev.accounts[k];
        }
      }
    }
  }

  /** The keys of a reread come in the order of the rows. */
  lemma {:induction false} RereadIds(t: Table, n: nat)
    requires n <= |t.ids| && IdsStored(t)
    ensures Reread(t, n).ids == t.ids[..n]
  {
    if n > 0 {
      RereadIds(t, n - 1);
      assert t.ids[..n] == t.ids[..n - 1] + [t.ids[n - 1]];
    }
  }

  /** One more line of a read. */
  lemma ReadTableSnoc(lines: seq<string>, n: nat)
    requires 0 < n <= |lines|
    ensures ReadTable(lines[..n]) == match ReadTable(lines[..n - 1])
                                     case None => None
                                     case Some(t) => ReadStep(t, ParseRow(lines[n - 1]))
  {
    assert lines[..n][..n - 1] == lines[..n - 1];
  }

  lemma LastIsNew(ids: seq<string>, n: nat)
    requires DistinctIds(ids) && 0 < n <= |ids|
    ensures ids[n - 1] !in ids[..n - 1]
  {
    forall j | 0 <= j < n - 1 ensures ids[j] != ids[n - 1] { }
  }

  /** With distinct keys, each key read back is new, so it goes last. */
  lemma RereadStep(t: Table, n: nat)
    requires IdsStored(t) && DistinctIds(t.ids) && SelfKeyed(t) && 0 < n <= |t.ids|
    ensures Reread(t, n) == Put(Reread(t, n - 1), Persisted(t.accounts[t.ids[n - 1]]))
  {
    var id := t.ids[n - 1];
    var prev := Reread(t, n - 1);
    var p := Persisted(t.accounts[id]);
    assert p.accountID == id;
    assert id !in prev.accounts by {
      RereadShape(t, n - 1);
      LastIsNew(t.ids, n);
    }
  }

  /** Reading lines that parse as the accounts of a map, in key order, rebuilds the map's first `n` keys. */
  lemma {:induction false} ReadTableOfRows(lines: seq<string>, t: Table, n: nat)
    requires Valid(t) && |lines| == |t.ids| && n <= |lines|
    requires forall i :: 0 <= i < |lines| ==> ParseRow(lines[i]) == Parsed(Persisted(t.accounts[t.ids[i]]))
    ensures ReadTable(lines[..n]) == Some(Reread(t, n))
  {
    if n == 0 {
      assert lines[..0] == [];
    } else {
      ReadTableOfRows(lines, t, n - 1);
      ReadTableSnoc(lines, n);
      RereadStep(t, n);
    }
  }

  /** Every line of a rewrite parses back as the account of its key, less the rate. */
  lemma RenderedRowsParse(t: Table)
    requires Valid(t)
    requires forall k :: k in t.accounts ==> Canonical(t.accounts[k])
    ensures forall i :: 0 <= i < |t.ids| ==> ParseRow(Render(t)[i]) == Parsed(Persisted(t.accounts[t.ids[i]]))
  {
    forall i | 0 <= i < |t.ids|
      ensures ParseRow(Render(t)[i]) == Parsed(Persisted(t.accounts[t.ids[i]]))
    {
      RowRoundTrip(t.accounts[t.ids[i]]);
    }
  }

  lemma ReloadedFromEntries(r: Table, t: Table)
    requires r.ids == t.ids
    requires forall k :: k in r.accounts <==> k in t.accounts
    requires forall k :: k in t.accounts ==> r.accounts[k] == Persisted(t.accounts[k])
    ensures r == Reloaded(t)
  {
    assert r.accounts == Reloaded(t).accounts;
  }

  lemma RereadAll(t: Table)
    requires IdsStored(t) && KeysListed(t)
    ensures Reread(t, |t.ids|) == Reloaded(t)
  {
    var r := Reread(t, |t.ids|);
    RereadShape(t, |t.ids|);
    assert r.ids == t.ids by {
      assert t.ids[..|t.ids|] == t.ids;
    }
    ReloadedFromEntries(r, t);
  }

  lemma ReadTableOfAllRows(lines: seq<string>, t: Table)
    requires Valid(t) && |lines| == |t.ids|
    requires forall i :: 0 <= i < |lines| ==> ParseRow(lines[i]) == Parsed(Persisted(t.accounts[t.ids[i]]))
    ensures ReadTable(lines) == Some(Reread(t, |t.ids|))
  {
    ReadTableOfRows(lines, t, |lines|);
    assert lines[..|lines|] == lines;
  }

  /**
   * Reading a rewritten file gives back the map it was written from: one
   * entry per key, in the same order, with every field but the interest
   * rate intact.
   */
  lemma RenderReadRoundTrip(t: Table)
    requires Valid(t)
    requires forall k :: k in t.accounts ==> Canonical(t.accounts[k])
    ensures ReadTable(Render(t)) == Some(Reloaded(t))
  {
    RenderedRowsParse(t);
    ReadTableOfAllRows(Render(t), t);
    RereadAll(t);
  }

  /** A rewrite holds at most one row per account id. */
  lemma RewriteHasOneRowPerId(t: Table, i: nat, j: nat)
    requires Valid(t) && forall k :: k in t.accounts ==> Canonical(t.accounts[k])
    requires i < j < |t.ids|
    ensures |Split(Render(t)[i])| == 4 && |Split(Render(t)[j])| == 4
    ensures Split(Render(t)[i])[0] != Split(Render(t)[j])[0]
  {
    RowRoundTrip(t.accounts[t.ids[i]]);
    RowRoundTrip(t.accounts[t.ids[j]]);
  }

  // ------------------------------------------------------------ writeToCSV

  /**
   * The effect of `writeToCSV(a)` on the file, and how the call ends: a parse
   * failure while reading leaves the file as it was and throws; a file that
   * cannot be opened for writing gives `false`; otherwise the file is
   * rewritten from the map with `a` put under its id.
   */
  function WriteFile(file: TextFile, a: Account): (TextFile, Completion)
  {
    match ReadTable(file.Lines())
    case None => (file, Thrown)
    case Some(t) =>
      if !file.writable then (file, Returned(false))
      else (Present(Render(Put(t, a)), file.writable), Returned(true))
  }

  /**
   * A successful write rewrites the file from the map read before it with the
   * account put in; the rewritten file reads back as that map. A stored type
   * reading `SAVING` is excluded, because rewriting such a row changes its
   * type to `SAVINGS`.
   */
  lemma WriteRereads(file: TextFile, a: Account, t: Table)
    requires ReadTable(file.Lines()) == Some(t) && file.writable && Canonical(a)
    requires forall k :: k in t.accounts ==> t.accounts[k].accountType != "SAVING"
    ensures WriteFile(file, a) == (Present(Render(Put(t, a)), true), Returned(true))
    ensures ReadTable(Render(Put(t, a))) == Some(Reloaded(Put(t, a)))
  {
    ReadTableValid(file.Lines());
    PutKeepsValid(t, a);
    var t' := Put(t, a);
    forall k | k in t'.accounts
      ensures Canonical(t'.accounts[k])
    {
      if k != a.accountID {
        assert t'.accounts[k] == t.accounts[k];
      }
    }
    RenderReadRoundTrip(t');
  }

  /**
   * After the rewrite, the store maps the written account's id to its fields
   * and every other id to the fields it had before; no other id appears.
   */
  lemma WriteUpserts(t: Table, a: Account)
    requires Valid(t) && Canonical(a)
    requires forall k :: k in t.accounts ==> Canonical(t.accounts[k])
    ensures var after := ReadTable(Render(Put(t, a)));
            && after.Some?
            && after.value.accounts.Keys == t.accounts.Keys + {a.accountID}
            && after.value.accounts[a.accountID] == Persisted(a)
            && forall k :: k in t.accounts && k != a.accountID ==> after.value.accounts[k] == Persisted(t.accounts[k])
  {
    PutKeepsValid(t, a);
    var t' := Put(t, a);
    forall k | k in t'.accounts
      ensures Canonical(t'.accounts[k])
    {
      if k != a.accountID {
        assert t'.accounts[k] == t.accounts[k];
      }
    }
    RenderReadRoundTrip(t');
    ReloadedPut(t, a);
  }

  /** What the reread holds after an upsert, apart from the file text. */
  lemma ReloadedPut(t: Table, a: Account)
    ensures var after := Reloaded(Put(t, a));
            && after.accounts.Keys == t.accounts.Keys + {a.accountID}
            && after.accounts[a.accountID] == Persisted(a)
            && forall k :: k in t.accounts && k != a.accountID ==> after.accounts[k] == Persisted(t.accounts[k])
  {
    var after := Reloaded(Put(t, a));
    assert after.accounts.Keys == Put(t, a).accounts.Keys;
  }

  /** The read loop of `writeToCSV`, stopping at the first row that throws. */
  method LoadTable(lines: seq<string>) returns (table: Option<Table>)
    ensures table == ReadTable(lines)
  {
    var t := EmptyTable;
    var i := 0;
    while i < |lines|
      invariant 0 <= i <= |lines|
      invariant ReadTable(lines[..i]) == Some(t)
    {
      assert lines[..i + 1][..i] == lines[..i];
      var row := ParseRow(lines[i]);
      if row.Unparsable? {
        ReadTableFailurePersists(lines, i + 1);
        return None;
      }
      if row.Parsed? {
        t := Put(t, row.account);
      }
      i := i + 1;
    }
    assert lines[..|lines|] == lines;
    return Some(t);
  }

  /** `writeToCSV(account)`. */
  method WriteToCsv(rt: Runtime, account: Account) returns (result: Completion)
    modifies rt`accountsFile
    ensures (rt.accountsFile, result) == WriteFile(old(rt.accountsFile), account)
  {
    var file := rt.accountsFile;
    var table := LoadTable(file.Lines());
    if table.None? {
      return Thrown;
    }
    if !file.writable {
      return Returned(false);
    }
    var out := RenderLines(Put(table.value, account));
    rt.accountsFile := Present(out, file.writable);
    return Returned(true);
  }

  /** `updateAccount(account)` is `writeToCSV(account)`. */
  method UpdateAccount(rt: Runtime, account: Account) returns (result: Completion)
    modifies rt`accountsFile
    ensures (rt.accountsFile, result) == WriteFile(old(rt.accountsFile), account)
  {
    result := WriteToCsv(rt, account);
  }

  // ------------------------------------------------------------ readAllAccountsAdmin

  /** One account per 4-field row, in file order; `None` if any such row fails to parse. */
  function ReadRows(lines: seq<string>): Option<seq<Account>>
    decreases |lines|
  {
    if lines == [] then Some([])
    else
      match ReadRows(lines[..|lines| - 1])
      case None => None
      case Some(accounts) =>
        match ParseRow(lines[|lines| - 1])
        case Skipped => Some(accounts)
        case Unparsable(_) => None
        case Parsed(a) => Some(accounts + [a])
  }

  /** Reading is compositional: the rows of a file are the rows of its parts, in order. */
  lemma {:induction false} ReadRowsAppend(a: seq<string>, b: seq<string>)
    ensures ReadRows(a + b).Some? <==> ReadRows(a).Some? && ReadRows(b).Some?
    ensures ReadRows(a + b).Some? ==> ReadRows(a + b).value == ReadRows(a).value + ReadRows(b).value
    decreases |b|
  {
    if b == [] {
      assert a + b == a;
    } else {
      var b' := b[..|b| - 1];
      assert (a + b)[..|a + b| - 1] == a + b';
      assert (a + b)[|a + b| - 1] == b[|b| - 1];
      ReadRowsAppend(a, b');
      if ReadRows(a + b).Some? && ParseRow(b[|b| - 1]).Parsed? {
        var x, y := ReadRows(a).value, ReadRows(b').value;
        assert ReadRows(a + b).value == x + y + [ParseRow(b[|b| - 1]).account];
      }
    }
  }

  lemma {:induction false} ReadRowsFailurePersists(lines: seq<string>, n: nat)
    requires n <= |lines| && ReadRows(lines[..n]) == None
    ensures ReadRows(lines) == None
    decreases |lines| - n
  {
    if n < |lines| {
      assert lines[..n + 1][..n] == lines[..n];
      ReadRowsFailurePersists(lines, n + 1);
    } else {
      assert lines[..n] == lines;
    }
  }

  /** The admin listing and the rewrite fail on exactly the same files. */
  lemma {:induction false} ReadRowsFailsLikeReadTable(lines: seq<string>)
    ensures ReadRows(lines).Some? <==> ReadTable(lines).Some?
    decreases |lines|
  {
    if lines != [] {
      ReadRowsFailsLikeReadTable(lines[..|lines| - 1]);
    }
  }

  /** `readAllAccountsAdmin()`; `None` when a NumberFormatException escapes. A missing file gives no accounts. */
  method ReadAllAccountsAdmin(rt: Runtime) returns (accounts: Option<seq<Account>>)
    ensures accounts == ReadRows(rt.accountsFile.Lines())
  {
    var lines := rt.accountsFile.Lines();
    var found: seq<Account> := [];
    var i := 0;
    while i < |lines|
      invariant 0 <= i <= |lines|
      invariant ReadRows(lines[..i]) == Some(found)
    {
      assert lines[..i + 1][..i] == lines[..i];
      var row := ParseRow(lines[i]);
      if row.Unparsable? {
        ReadRowsFailurePersists(lines, i + 1);
        return None;
      }
      if row.Parsed? {
        found := found + [row.account];
      }
      i := i + 1;
    }
    assert lines[..|lines|] == lines;
    return Some(found);
  }

  // ------------------------------------------------------------ readUserAccounts

  /**
   * The scan of `readUserAccounts(userID)`: the accounts collected so far and
   * whether a NumberFormatException has ended the scan (it is caught, and the
   * accounts collected before it are returned). A row of another user is
   * skipped once its user id parses, whatever its balance.
   */
  function ScanUser(lines: seq<string>, userID: Int32): (r: (seq<Account>, bool))
    ensures forall a :: a in r.0 ==> a.userID == userID
    decreases |lines|
  {
    if lines == [] then ([], false)
    else
      var (found, stopped) := ScanUser(lines[..|lines| - 1], userID);
      var line := lines[|lines| - 1];
      var data := Split(line);
      if stopped then (found, true)
      else if |data| != 4 then (found, false)
      else
        match ParseInt(data[1])
        case None => (found, true)
        case Some(owner) =>
          if owner != userID then (found, false)
          else
            match ParseRow(line)
            case Parsed(a) => (found + [a], false)
            case _ => (found, true)
  }

  /** The owner test of `readUserAccounts`. */
  function OwnedBy(userID: Int32): Account -> bool
  {
    (a: Account) => a.userID == userID
  }

  /** Once the scan has stopped, later lines are never looked at. */
  lemma {:induction false} ScanUserStopIsFinal(a: seq<string>, b: seq<string>, userID: Int32)
    requires ScanUser(a, userID).1
    ensures ScanUser(a + b, userID) == ScanUser(a, userID)
    decreases |b|
  {
    if b == [] {
      assert a + b == a;
    } else {
      var b' := b[..|b| - 1];
      assert (a + b)[..|a + b| - 1] == a + b';
      ScanUserStopIsFinal(a, b', userID);
    }
  }

  /**
   * On a file whose rows all parse, the user's accounts are exactly the
   * owner's accounts of the full listing, in file order.
   */
  lemma {:induction false} ScanUserIsOwnerFilter(lines: seq<string>, userID: Int32)
    requires ReadRows(lines).Some?
    ensures ScanUser(lines, userID) == (Filter(ReadRows(lines).value, OwnedBy(userID)), false)
    decreases |lines|
  {
    if lines != [] {
      var init := lines[..|lines| - 1];
      ScanUserIsOwnerFilter(init, userID);
      var line := lines[|lines| - 1];
      var row := ParseRow(line);
      var all := ReadRows(init).value;
      var (found, stopped) := ScanUser(init, userID);
      assert found == Filter(all, OwnedBy(userID)) && !stopped;
      if row.Parsed? {
        var a := row.account;
        assert ReadRows(lines).value == all + [a];
        assert (all + [a])[..|all|] == all;
        assert |Split(line)| == 4 && ParseInt(Split(line)[1]) == Some(a.userID);
        if a.userID == userID {
          assert ScanUser(lines, userID) == (found + [a], false);
          assert Filter(all + [a], OwnedBy(userID)) == found + [a];
        } else {
          assert ScanUser(lines, userID) == (found, false);
          assert Filter(all + [a], OwnedBy(userID)) == found;
        }
      }
    }
  }

  /** `readUserAccounts(userID)`. A missing file gives no accounts. */
  method ReadUserAccounts(rt: Runtime, userID: Int32) returns (accounts: seq<Account>)
    ensures accounts == ScanUser(rt.accountsFile.Lines(), userID).0
  {
    var lines := rt.accountsFile.Lines();
    accounts := [];
    var i := 0;
    while i < |lines|
      invariant 0 <= i <= |lines|
      invariant ScanUser(lines[..i], userID) == (accounts, false)
    {
      assert lines[..i + 1][..i] == lines[..i];
      assert lines == lines[..i + 1] + lines[i + 1..];
      var data := Split(lines[i]);
      if |data| == 4 {
        var owner := ParseInt(data[1]);
        if owner.None? {
          ScanUserStopIsFinal(lines[..i + 1], lines[i + 1..], userID);
          return;
        }
        if owner.value == userID {
          var row := ParseRow(lines[i]);
          if !row.Parsed? {
            ScanUserStopIsFinal(lines[..i + 1], lines[i + 1..], userID);
            return;
          }
          accounts := accounts + [row.account];
        }
      }
      i := i + 1;
    }
    assert lines[..|lines|] == lines;
  }

  // ------------------------------------------------------------ deleteAccount

  /** The read loop of `deleteAccount(id)`: like the rewrite's, but rows with that id are skipped unparsed. */
  function DeleteRead(lines: seq<string>, accountID: string): (r: Option<Table>)
    ensures r.Some? ==> IdsStored(r.value) && accountID !in r.value.accounts
    decreases |lines|
  {
    if lines == [] then Some(EmptyTable)
    else
      match DeleteRead(lines[..|lines| - 1], accountID)
      case None => None
      case Some(t) =>
        match ParseRow(lines[|lines| - 1])
        case Skipped => Some(t)
        case Unparsable(key) => if key == accountID then Some(t) else None
        case Parsed(a) => if a.accountID == accountID then Some(t) else Some(Put(t, a))
  }

  lemma {:induction false} DeleteReadValid(lines: seq<string>, accountID: string)
    requires DeleteRead(lines, accountID).Some?
    ensures Valid(DeleteRead(lines, accountID).value) && AllWellFormed(DeleteRead(lines, accountID).value)
    decreases |lines|
  {
    if lines != [] {
      DeleteReadValid(lines[..|lines| - 1], accountID);
      var row := ParseRow(lines[|lines| - 1]);
      if row.Parsed? && row.account.accountID != accountID {
        PutKeepsValid(DeleteRead(lines[..|lines| - 1], accountID).value, row.account);
      }
    }
  }

  /** The map without one key. */
  function Remove(t: Table, accountID: string): Table
  {
    Table(Filter(t.ids, (k: string) => k != accountID), t.accounts - {accountID})
  }

  lemma RemoveAfterPutOfTarget(t: Table, a: Account)
    ensures Remove(Put(t, a), a.accountID) == Remove(t, a.accountID)
  {
    var id := a.accountID;
    assert Put(t, a).accounts - {id} == t.accounts - {id};
    if id !in t.accounts {
      assert (t.ids + [id])[..|t.ids|] == t.ids;
    }
  }

  lemma RemoveAfterPutOfOther(t: Table, a: Account, accountID: string)
    requires a.accountID != accountID
    ensures Remove(Put(t, a), accountID) == Put(Remove(t, accountID), a)
  {
    var id := a.accountID;
    assert Put(t, a).accounts - {accountID} == (t.accounts - {accountID})[id := a];
    if id !in t.accounts {
      assert (t.ids + [id])[..|t.ids|] == t.ids;
    }
  }

  /**
   * Deleting keeps every other account, in the same order, and nothing else
   * changes: the map read for a delete is the full map less the target.
   */
  lemma {:induction false} DeleteReadIsRemove(lines: seq<string>, accountID: string)
    requires ReadTable(lines).Some?
    ensures DeleteRead(lines, accountID) == Some(Remove(ReadTable(lines).value, accountID))
    decreases |lines|
  {
    if lines == [] {
      assert Remove(EmptyTable, accountID).accounts == map[];
    } else {
      var init := lines[..|lines| - 1];
      DeleteReadIsRemove(init, accountID);
      var t := ReadTable(init).value;
      var row := ParseRow(lines[|lines| - 1]);
      if row.Parsed? {
        if row.account.accountID == accountID {
          RemoveAfterPutOfTarget(t, row.account);
        } else {
          RemoveAfterPutOfOther(t, row.account, accountID);
        }
      }
    }
  }

  lemma {:induction false} DeleteReadFailurePersists(lines: seq<string>, accountID: string, n: nat)
    requires n <= |lines| && DeleteRead(lines[..n], accountID) == None
    ensures DeleteRead(lines, accountID) == None
    decreases |lines| - n
  {
    if n < |lines| {
      assert lines[..n + 1][..n] == lines[..n];
      DeleteReadFailurePersists(lines, accountID, n + 1);
    } else {
      assert lines[..n] == lines;
    }
  }

  /**
   * The effect of `deleteAccount(id)`: `false` for a missing file or one that
   * cannot be opened for writing; otherwise the file is rewritten without the
   * id and the result is `true`, whether or not the id was there.
   */
  function DeleteFile(file: TextFile, accountID: string): (TextFile, Completion)
  {
    if file.Missing? then (file, Returned(false))
    else
      match DeleteRead(file.lines, accountID)
      case None => (file, Thrown)
      case Some(t) =>
        if !file.writable then (file, Returned(false))
        else (Present(Render(t), file.writable), Returned(true))
  }

  /**
   * After a delete the store no longer holds the id, holds every other
   * account it held before, and holds nothing new; the call reports `true`
   * even when the id was never stored.
   */
  lemma DeleteRemovesOnlyTarget(file: TextFile, accountID: string, t: Table)
    requires file.Present? && file.writable && ReadTable(file.lines) == Some(t)
    requires forall k :: k in t.accounts ==> t.accounts[k].accountType != "SAVING"
    ensures DeleteFile(file, accountID).1 == Returned(true)
    ensures var after := ReadTable(DeleteFile(file, accountID).0.lines);
            && after.Some?
            && after.value.accounts.Keys == t.accounts.Keys - {accountID}
            && forall k :: k in after.value.accounts ==> after.value.accounts[k] == Persisted(t.accounts[k])
  {
    ReadTableValid(file.lines);
    DeleteReadIsRemove(file.lines, accountID);
    DeleteReadValid(file.lines, accountID);
    var r := Remove(t, accountID);
    assert forall k :: k in r.accounts ==> Canonical(r.accounts[k]);
    RenderReadRoundTrip(r);
  }

  /** The read loop of `deleteAccount(accountID)`, stopping at the first row that throws. */
  method LoadTableWithout(lines: seq<string>, accountID: string) returns (table: Option<Table>)
    ensures table == DeleteRead(lines, accountID)
  {
    var t := EmptyTable;
    var i := 0;
    while i < |lines|
      invariant 0 <= i <= |lines|
      invariant DeleteRead(lines[..i], accountID) == Some(t)
    {
      assert lines[..i + 1][..i] == lines[..i];
      var row := ParseRow(lines[i]);
      if row.Unparsable? && row.key != accountID {
        DeleteReadFailurePersists(lines, accountID, i + 1);
        return None;
      }
      if row.Parsed? && row.account.accountID != accountID {
        t := Put(t, row.account);
      }
      i := i + 1;
    }
    assert lines[..|lines|] == lines;
    return Some(t);
  }

  /** `deleteAccount(accountID)`. */
  method DeleteAccount(rt: Runtime, accountID: string) returns (result: Completion)
    modifies rt`accountsFile
    ensures (rt.accountsFile, result) == DeleteFile(old(rt.accountsFile), accountID)
  {
    var file := rt.accountsFile;
    if file.Missing? {
      return Returned(false);
    }
    var table := LoadTableWithout(file.lines, accountID);
    if table.None? {
      return Thrown;
    }
    if !file.writable {
      return Returned(false);
    }
    var out := RenderLines(table.value);
    rt.accountsFile := Present(out, file.writable);
    return Returned(true);
  }
}
