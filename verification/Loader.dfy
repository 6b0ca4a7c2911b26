/**
 The ledger writer (indexer/src/loader.ts): chunked multi-row INSERTs with numbered placeholders, inside one
 transaction. Cells are texts, the first column of a row is its key, and the database reads the text of a statement
 back.
 */
module Loader {
  import opened Sequences
  import opened Wrappers

  const BATCH_SIZE: nat := 100

  type Row = seq<string>

  // No piece is empty or longer than `size`, and all but the last are full.
  predicate Chunked<T>(chunks: seq<seq<T>>, size: nat) {
    forall k :: 0 <= k < |chunks| ==> 1 <= |chunks[k]| <= size && (k < |chunks| - 1 ==> |chunks[k]| == size)
  }

  // chunk: the pieces put together are the array.
  method Chunk<T>(arr: seq<T>, size: nat) returns (chunks: seq<seq<T>>)
    requires size > 0
    ensures Flatten(chunks) == arr
    ensures Chunked(chunks, size)
  {
    chunks := [];
    var i := 0;
    while i < |arr|
      invariant Flatten(chunks) == arr[..Min(i, |arr|)]
      invariant Chunked(chunks, size)
      invariant i <= |arr| ==> forall k :: 0 <= k < |chunks| ==> |chunks[k]| == size
    {
      var piece := arr[i..Min(i + size, |arr|)];
      FlattenAppend(chunks, piece);
      assert arr[..i] + piece == arr[..Min(i + size, |arr|)];
      chunks := chunks + [piece];
      i := i + size;
    }
    assert arr[..|arr|] == arr;
  }

  // Math.ceil(length / size)
  function Batches(length: nat, size: nat): nat
    requires size > 0
  {
    (length + size - 1) / size
  }

  lemma MultiplyKeepsOrder(x: nat, y: nat, size: nat)
    requires x <= y
    ensures x * size <= y * size
  {
  }

  lemma QuotientIs(a: nat, size: nat, n: nat)
    requires size > 0 && n * size <= a < n * size + size
    ensures a / size == n
  {
    var q := a / size;
    assert q * size <= a < q * size + size;
    if q < n {
      MultiplyKeepsOrder(q + 1, n, size);
    } else if q > n {
      MultiplyKeepsOrder(n + 1, q, size);
    }
  }

  lemma OneMore(n: nat, size: nat)
    requires n > 0
    ensures n * size == (n - 1) * size + size
  {
  }

  lemma {:induction false} FullLength<T>(chunks: seq<seq<T>>, size: nat)
    requires forall k :: 0 <= k < |chunks| ==> |chunks[k]| == size
    ensures |Flatten(chunks)| == |chunks| * size
    decreases |chunks|
  {
    if chunks != [] {
      FullLength(chunks[1..], size);
      OneMore(|chunks|, size);
    }
  }

  // There are as many pieces as the metrics say: the length divided by the size, rounded up.
  lemma BatchCount<T>(chunks: seq<seq<T>>, size: nat)
    requires size > 0 && Chunked(chunks, size)
    ensures |chunks| == Batches(|Flatten(chunks)|, size)
  {
    if chunks == [] {
      QuotientIs(size - 1, size, 0);
    } else {
      var full, last := chunks[..|chunks| - 1], chunks[|chunks| - 1];
      FullLength(full, size);
      FlattenAppend(full, last);
      assert chunks == full + [last];
      OneMore(|chunks|, size);
      QuotientIs(|Flatten(chunks)| + size - 1, size, |chunks|);
    }
  }

  // A VALUES list as its tokens: parentheses, the ", " between items, and the placeholders $k.
  datatype Token = Open | Close | Comma | Param(k: nat)

  function Placeholders(count: nat, index: nat): seq<seq<Token>> {
    seq(count, i requires 0 <= i < count => [Param(index + i)])
  }

  function RowText(row: Row, index: nat): seq<Token> {
    [Open] + Join(Placeholders(|row|, index), Comma) + [Close]
  }

  // The rows' texts; every cell has its own number, counted from index through all rows.
  function RowTexts(rows: seq<Row>, index: nat): seq<seq<Token>> {
    if rows == [] then [] else [RowText(rows[0], index)] + RowTexts(rows[1..], index + |rows[0]|)
  }

  lemma {:induction false} RowTextsAppend(rows: seq<Row>, row: Row, index: nat)
    ensures RowTexts(rows + [row], index) == RowTexts(rows, index) + [RowText(row, index + |Flatten(rows)|)]
    decreases |rows|
  {
    if rows == [] {
      assert [row][1..] == [];
    } else {
      RowTextsAppend(rows[1..], row, index + |rows[0]|);
      assert (rows + [row])[1..] == rows[1..] + [row];
    }
  }

  // buildBulkValues
  method BuildBulkValues(rows: seq<Row>, startIndex: nat) returns (text: seq<Token>, params: seq<string>)
    ensures text == Join(RowTexts(rows, startIndex), Comma)
    ensures params == Flatten(rows)
  {
    params := [];
    var placeholders: seq<seq<Token>> := [];
    var idx := startIndex;
    for r := 0 to |rows|
      invariant params == Flatten(rows[..r])
      invariant idx == startIndex + |params|
      invariant placeholders == RowTexts(rows[..r], startIndex)
    {
      var row := rows[r];
      var rowPlaceholders: seq<seq<Token>> := [];
      ghost var before := params;
      for c := 0 to |row|
        invariant params == before + row[..c]
        invariant idx == startIndex + |params|
        invariant rowPlaceholders == Placeholders(c, startIndex + |before|)
      {
        rowPlaceholders := rowPlaceholders + [[Param(idx)]];
        idx := idx + 1;
        params := params + [row[c]];
      }
      placeholders := placeholders + [[Open] + Join(rowPlaceholders, Comma) + [Close]];
      assert rows[..r + 1] == rows[..r] + [row];
      RowTextsAppend(rows[..r], row, startIndex);
      FlattenAppend(rows[..r], row);
    }
    assert rows[..|rows|] == rows;
    text := Join(placeholders, Comma);
  }

  // Reading the cells of a row up to its closing parenthesis: their values and what follows.
  function ReadCells(text: seq<Token>, params: seq<string>): Option<(Row, seq<Token>)>
    decreases |text|
  {
    if |text| < 2 || !text[0].Param? || text[0].k == 0 || text[0].k > |params| then None
    else
      var value := params[text[0].k - 1];
      if text[1].Close? then Some(([value], text[2..]))
      else if text[1].Comma? then
        var more := ReadCells(text[2..], params);
        if more.None? then None else Some(([value] + more.value.0, more.value.1))
      else None
  }

  function ReadRow(text: seq<Token>, params: seq<string>): (r: Option<(Row, seq<Token>)>) {
    if |text| < 2 || !text[0].Open? then None
    else if text[1].Close? then Some(([], text[2..]))
    else ReadCells(text[1..], params)
  }

  // What the database takes a VALUES list to say, given all parameters of the statement.
  function ReadValues(text: seq<Token>, params: seq<string>): Option<seq<Row>>
    decreases |text|
  {
    var row := ReadRow(text, params);
    if row.None? then None
    else if row.value.1 == [] then Some([row.value.0])
    else if !row.value.1[0].Comma? || |row.value.1| > |text| then None
    else
      var more := ReadValues(row.value.1[1..], params);
      if more.None? then None else Some([row.value.0] + more.value)
  }

  lemma {:induction false} ReadPrintedCells(count: nat, index: nat, params: seq<string>, rest: seq<Token>)
    requires count > 0 && 1 <= index && index + count <= |params| + 1
    ensures ReadCells(Join(Placeholders(count, index), Comma) + [Close] + rest, params) ==
            Some((params[index - 1..index - 1 + count], rest))
    decreases count
  {
    var parts := Placeholders(count, index);
    var text := Join(parts, Comma) + [Close] + rest;
    if count == 1 {
      assert text == [Param(index), Close] + rest && text[2..] == rest;
      assert params[index - 1..index] == [params[index - 1]];
    } else {
      var after := Join(Placeholders(count - 1, index + 1), Comma) + [Close] + rest;
      assert parts[1..] == Placeholders(count - 1, index + 1);
      assert text == [Param(index), Comma] + after;
      assert text[2..] == after;
      ReadPrintedCells(count - 1, index + 1, params, rest);
      assert params[index - 1..index - 1 + count] == [params[index - 1]] + params[index..index + count - 1];
    }
  }

  // The parameters hold the cells from position `at`.
  predicate Holds(params: seq<string>, at: nat, cells: seq<string>) {
    at + |cells| <= |params| && params[at..at + |cells|] == cells
  }

  lemma ReadPrintedRow(row: Row, index: nat, params: seq<string>, rest: seq<Token>)
    requires 1 <= index && Holds(params, index - 1, row)
    ensures ReadRow(RowText(row, index) + rest, params) == Some((row, rest))
  {
    var text := RowText(row, index) + rest;
    if |row| == 0 {
      assert text == [Open, Close] + rest && text[2..] == rest;
    } else {
      assert text[1..] == Join(Placeholders(|row|, index), Comma) + [Close] + rest;
      assert Join(Placeholders(|row|, index), Comma)[0] == Param(index);
      ReadPrintedCells(|row|, index, params, rest);
    }
  }

  lemma ReadLastRow(row: Row, index: nat, params: seq<string>)
    requires 1 <= index && Holds(params, index - 1, row)
    ensures ReadValues(RowText(row, index), params) == Some([row])
    ensures Join(RowTexts([row], index), Comma) == RowText(row, index)
  {
    ReadPrintedRow(row, index, params, []);
    assert RowText(row, index) + [] == RowText(row, index);
    assert RowTexts([row], index) == [RowText(row, index)];
  }

  // Round trip: from parameters that hold the cells at the right place, the database reads back exactly the rows given.
  lemma {:induction false} ValuesRoundTrip(rows: seq<Row>, index: nat, params: seq<string>)
    requires rows != [] && 1 <= index && Holds(params, index - 1, Flatten(rows))
    ensures ReadValues(Join(RowTexts(rows, index), Comma), params) == Some(rows)
    decreases |rows|
  {
    var row, rest := rows[0], rows[1..];
    assert Flatten(rows) == row + Flatten(rest);
    SplitParams(row, Flatten(rest), index - 1, params);
    if |rest| == 0 {
      assert rows == [row];
      ReadLastRow(row, index, params);
    } else {
      assert rows == [row] + rest;
      ValuesRoundTrip(rest, index + |row|, params);
      ReadFirstRow(row, rest, index, params);
    }
  }

  lemma ReadFirstRow(row: Row, rest: seq<Row>, index: nat, params: seq<string>)
    requires rest != [] && 1 <= index && Holds(params, index - 1, row)
    requires ReadValues(Join(RowTexts(rest, index + |row|), Comma), params) == Some(rest)
    ensures ReadValues(Join(RowTexts([row] + rest, index), Comma), params) == Some([row] + rest)
  {
    var more := Join(RowTexts(rest, index + |row|), Comma);
    JoinRows(row, rest, index);
    ReadPrintedRow(row, index, params, [Comma] + more);
    assert ([Comma] + more)[1..] == more;
  }

  lemma SplitParams(a: Row, b: seq<string>, at: nat, params: seq<string>)
    requires Holds(params, at, a + b)
    ensures Holds(params, at, a) && Holds(params, at + |a|, b)
  {
    assert params[at..at + |a + b|][..|a|] == a && params[at..at + |a + b|][|a|..] == b;
  }

  lemma JoinRows(row: Row, rest: seq<Row>, index: nat)
    requires rest != []
    ensures Join(RowTexts([row] + rest, index), Comma) ==
            RowText(row, index) + ([Comma] + Join(RowTexts(rest, index + |row|), Comma))
  {
    assert ([row] + rest)[1..] == rest;
    assert RowTexts([row] + rest, index)[1..] == RowTexts(rest, index + |row|);
  }

  // ---- Tables: INSERT ... ON CONFLICT DO NOTHING, the first column being the key ----

  type Table = map<string, Row>

  function InsertRow(t: Table, row: Row): Table {
    if row == [] || row[0] in t then t else t[row[0] := row]
  }

  function InsertRows(t: Table, rows: seq<Row>): Table
    decreases |rows|
  {
    if rows == [] then t else InsertRow(InsertRows(t, rows[..|rows| - 1]), rows[|rows| - 1])
  }

  // The first row with the key.
  function FirstRow(rows: seq<Row>, key: string): Option<Row> {
    if rows == [] then None
    else if rows[0] != [] && rows[0][0] == key then Some(rows[0])
    else FirstRow(rows[1..], key)
  }

  function Lookup(t: Table, key: string): Option<Row> {
    if key in t then Some(t[key]) else None
  }

  lemma {:induction false} FirstRowAppend(rows: seq<Row>, row: Row, key: string)
    ensures FirstRow(rows + [row], key)
         == if FirstRow(rows, key).Some? then FirstRow(rows, key)
            else if row != [] && row[0] == key then Some(row) else None
    decreases |rows|
  {
    if rows == [] {
      assert [row][1..] == [];
    } else {
      FirstRowAppend(rows[1..], row, key);
      assert (rows + [row])[1..] == rows[1..] + [row];
    }
  }

  // What a table holds afterwards: its old rows untouched, and for a new key the first row given for it.
  lemma {:induction false} InsertedRow(t: Table, rows: seq<Row>, key: string)
    ensures Lookup(InsertRows(t, rows), key) == if key in t then Some(t[key]) else FirstRow(rows, key)
    decreases |rows|
  {
    if rows != [] {
      var init, last := rows[..|rows| - 1], rows[|rows| - 1];
      InsertedRow(t, init, key);
      FirstRowAppend(init, last, key);
      assert rows == init + [last];
    }
  }

  lemma SameTable(a: Table, b: Table)
    requires forall key :: Lookup(a, key) == Lookup(b, key)
    ensures a == b
  {
    forall key
      ensures key in a <==> key in b
      ensures key in a ==> a[key] == b[key]
    {
      assert Lookup(a, key) == Lookup(b, key);
    }
  }

  // Inserting in two statements or in one.
  lemma {:induction false} InsertAppend(t: Table, a: seq<Row>, b: seq<Row>)
    ensures InsertRows(t, a + b) == InsertRows(InsertRows(t, a), b)
    decreases |b|
  {
    if b == [] {
      assert a + b == a;
    } else {
      var k := |b| - 1;
      InsertAppend(t, a, b[..k]);
      assert (a + b)[..|a + b| - 1] == a + b[..k];
    }
  }

  // Inserting again changes nothing.
  lemma InsertTwice(t: Table, rows: seq<Row>)
    ensures InsertRows(InsertRows(t, rows), rows) == InsertRows(t, rows)
  {
    var once := InsertRows(t, rows);
    forall key
      ensures Lookup(InsertRows(once, rows), key) == Lookup(once, key)
    {
      InsertedRow(t, rows, key);
      InsertedRow(once, rows, key);
    }
    SameTable(InsertRows(once, rows), once);
  }

  // No key that is new to the table is given different rows by a and b.
  ghost predicate Agree(t: Table, a: seq<Row>, b: seq<Row>) {
    forall key :: key !in t && FirstRow(a, key).Some? && FirstRow(b, key).Some? ==> FirstRow(a, key) == FirstRow(b, key)
  }

  // The order of two inserts shows exactly when they give different rows for a key that is new.
  lemma InsertsCommute(t: Table, a: seq<Row>, b: seq<Row>)
    ensures InsertRows(InsertRows(t, a), b) == InsertRows(InsertRows(t, b), a) <==> Agree(t, a, b)
  {
    var ab, ba := InsertRows(InsertRows(t, a), b), InsertRows(InsertRows(t, b), a);
    forall key
      ensures key !in t && FirstRow(a, key).Some? && FirstRow(b, key).Some? && ab == ba ==>
              FirstRow(a, key) == FirstRow(b, key)
      ensures Agree(t, a, b) ==> Lookup(ab, key) == Lookup(ba, key)
    {
      InsertedRow(t, a, key);
      InsertedRow(t, b, key);
      InsertedRow(InsertRows(t, a), b, key);
      InsertedRow(InsertRows(t, b), a, key);
    }
    if Agree(t, a, b) {
      SameTable(ab, ba);
    }
  }

  // ---- The ledger's data and the four tables ----

  datatype Ledger = Ledger(sequence: string, hash: string, closeTime: string, txCount: string)
  datatype Transaction = Transaction(hash: string, ledgerSeq: string, sourceAccount: string, feeCharged: string)
  datatype Operation = Operation(id: string, txHash: string, kind: string, sourceAccount: string, createdAt: string)
  datatype Payment = Payment(id: string, from: string, to: string, amount: string, asset: string)

  datatype Data = Data(ledger: Ledger, transactions: seq<Transaction>, operations: seq<Operation>,
                       payments: seq<Payment>)

  function LedgerRow(l: Ledger): Row { [l.sequence, l.hash, l.closeTime, l.txCount] }
  function TransactionRow(t: Transaction): Row { [t.hash, t.ledgerSeq, t.sourceAccount, t.feeCharged] }
  function OperationRow(o: Operation): Row { [o.id, o.txHash, o.kind, o.sourceAccount, o.createdAt] }
  function PaymentRow(p: Payment): Row { [p.id, p.from, p.to, p.amount, p.asset] }

  // Rows read back by column: ledgers (sequence, hash, closed_at, tx_count), transactions (hash, ledger_sequence,
  // source_account, fee_charged), operations (id, tx_hash, type, source_account, created_at), payments (id, from, to,
  // amount, asset).
  function LedgerOf(row: Row): Option<Ledger> {
    if |row| == 4 then Some(Ledger(row[0], row[1], row[2], row[3])) else None
  }

  function TransactionOf(row: Row): Option<Transaction> {
    if |row| == 4 then Some(Transaction(row[0], row[1], row[2], row[3])) else None
  }

  function OperationOf(row: Row): Option<Operation> {
    if |row| == 5 then Some(Operation(row[0], row[1], row[2], row[3], row[4])) else None
  }

  function PaymentOf(row: Row): Option<Payment> {
    if |row| == 5 then Some(Payment(row[0], row[1], row[2], row[3], row[4])) else None
  }

  function Rows<T>(items: seq<T>, toRow: T -> Row): seq<Row> {
    seq(|items|, i requires 0 <= i < |items| => toRow(items[i]))
  }

  datatype TableName = Ledgers | Transactions | Operations | Payments

  datatype Tables = Tables(ledgers: Table, transactions: Table, operations: Table, payments: Table)

  function Columns(name: TableName): nat {
    if name.Ledgers? || name.Transactions? then 4 else 5
  }

  function InsertInto(all: Tables, name: TableName, rows: seq<Row>): Tables {
    match name
    case Ledgers => all.(ledgers := InsertRows(all.ledgers, rows))
    case Transactions => all.(transactions := InsertRows(all.transactions, rows))
    case Operations => all.(operations := InsertRows(all.operations, rows))
    case Payments => all.(payments := InsertRows(all.payments, rows))
  }

  // The tables with all the data of one ledger inserted, row by row.
  function Written(all: Tables, data: Data): Tables {
    Tables(InsertRows(all.ledgers, [LedgerRow(data.ledger)]),
           InsertRows(all.transactions, Rows(data.transactions, TransactionRow)),
           InsertRows(all.operations, Rows(data.operations, OperationRow)),
           InsertRows(all.payments, Rows(data.payments, PaymentRow)))
  }

  // Writing a ledger again changes nothing.
  lemma WriteTwice(all: Tables, data: Data)
    ensures Written(Written(all, data), data) == Written(all, data)
  {
    InsertTwice(all.ledgers, [LedgerRow(data.ledger)]);
    InsertTwice(all.transactions, Rows(data.transactions, TransactionRow));
    InsertTwice(all.operations, Rows(data.operations, OperationRow));
    InsertTwice(all.payments, Rows(data.payments, PaymentRow));
  }

  // Two ledgers can be written in either order exactly when they agree on every key that is new to the tables.
  lemma WritesCommute(all: Tables, a: Data, b: Data)
    ensures Written(Written(all, a), b) == Written(Written(all, b), a)
       <==> && Agree(all.ledgers, [LedgerRow(a.ledger)], [LedgerRow(b.ledger)])
            && Agree(all.transactions, Rows(a.transactions, TransactionRow), Rows(b.transactions, TransactionRow))
            && Agree(all.operations, Rows(a.operations, OperationRow), Rows(b.operations, OperationRow))
            && Agree(all.payments, Rows(a.payments, PaymentRow), Rows(b.payments, PaymentRow))
  {
    InsertsCommute(all.ledgers, [LedgerRow(a.ledger)], [LedgerRow(b.ledger)]);
    InsertsCommute(all.transactions, Rows(a.transactions, TransactionRow), Rows(b.transactions, TransactionRow));
    InsertsCommute(all.operations, Rows(a.operations, OperationRow), Rows(b.operations, OperationRow));
    InsertsCommute(all.payments, Rows(a.payments, PaymentRow), Rows(b.payments, PaymentRow));
  }

  // A ledger stays in the table, with its data, and writing adds no other ledger.
  lemma LedgersAfterWrite(all: Tables, data: Data)
    ensures Written(all, data).ledgers.Keys == all.ledgers.Keys + {data.ledger.sequence}
  {
    var rows := [LedgerRow(data.ledger)];
    assert rows[..0] == [] && InsertRows(all.ledgers, []) == all.ledgers;
  }

  // Item i is the first one with its key.
  predicate FirstWithKey<T>(items: seq<T>, keyOf: T -> string, i: nat) {
    i < |items| && forall j :: 0 <= j < i ==> keyOf(items[j]) != keyOf(items[i])
  }

  lemma {:induction false} FirstItem<T>(items: seq<T>, toRow: T -> Row, keyOf: T -> string, i: nat)
    requires forall item :: toRow(item) != [] && toRow(item)[0] == keyOf(item)
    requires FirstWithKey(items, keyOf, i)
    ensures FirstRow(Rows(items, toRow), keyOf(items[i])) == Some(toRow(items[i]))
    decreases i
  {
    if i > 0 {
      assert Rows(items, toRow)[1..] == Rows(items[1..], toRow);
      assert keyOf(items[0]) != keyOf(items[i]);
      forall j | 0 <= j < i - 1 ensures keyOf(items[1..][j]) != keyOf(items[1..][i - 1]) {
        assert keyOf(items[j + 1]) != keyOf(items[i]);
      }
      FirstItem(items[1..], toRow, keyOf, i - 1);
    }
  }

  lemma StoredItem<T>(t: Table, items: seq<T>, toRow: T -> Row, keyOf: T -> string, i: nat)
    requires forall item :: toRow(item) != [] && toRow(item)[0] == keyOf(item)
    requires FirstWithKey(items, keyOf, i) && keyOf(items[i]) !in t
    ensures Lookup(InsertRows(t, Rows(items, toRow)), keyOf(items[i])) == Some(toRow(items[i]))
  {
    InsertedRow(t, Rows(items, toRow), keyOf(items[i]));
    FirstItem(items, toRow, keyOf, i);
  }

  // Main result: what is written reads back column by column: the ledger, and every transaction, operation and payment
  // whose key is new to its table and that comes first with it.
  lemma WrittenReadsBack(all: Tables, data: Data)
    ensures data.ledger.sequence !in all.ledgers ==>
              var row := Lookup(Written(all, data).ledgers, data.ledger.sequence);
              row.Some? && LedgerOf(row.value) == Some(data.ledger)
    ensures forall i: nat ::
              FirstWithKey(data.transactions, (t: Transaction) => t.hash, i)
              && data.transactions[i].hash !in all.transactions ==>
                var row := Lookup(Written(all, data).transactions, data.transactions[i].hash);
                row.Some? && TransactionOf(row.value) == Some(data.transactions[i])
    ensures forall i: nat ::
              FirstWithKey(data.operations, (o: Operation) => o.id, i)
              && data.operations[i].id !in all.operations ==>
                var row := Lookup(Written(all, data).operations, data.operations[i].id);
                row.Some? && OperationOf(row.value) == Some(data.operations[i])
    ensures forall i: nat ::
              FirstWithKey(data.payments, (p: Payment) => p.id, i)
              && data.payments[i].id !in all.payments ==>
                var row := Lookup(Written(all, data).payments, data.payments[i].id);
                row.Some? && PaymentOf(row.value) == Some(data.payments[i])
  {
    if data.ledger.sequence !in all.ledgers {
      InsertedRow(all.ledgers, [LedgerRow(data.ledger)], data.ledger.sequence);
    }
    forall i: nat | FirstWithKey(data.transactions, (t: Transaction) => t.hash, i)
                    && data.transactions[i].hash !in all.transactions
      ensures Lookup(Written(all, data).transactions, data.transactions[i].hash)
           == Some(TransactionRow(data.transactions[i]))
    {
      StoredItem(all.transactions, data.transactions, TransactionRow, (t: Transaction) => t.hash, i);
    }
    forall i: nat | FirstWithKey(data.operations, (o: Operation) => o.id, i)
                    && data.operations[i].id !in all.operations
      ensures Lookup(Written(all, data).operations, data.operations[i].id) == Some(OperationRow(data.operations[i]))
    {
      StoredItem(all.operations, data.operations, OperationRow, (o: Operation) => o.id, i);
    }
    forall i: nat | FirstWithKey(data.payments, (p: Payment) => p.id, i) && data.payments[i].id !in all.payments
      ensures Lookup(Written(all, data).payments, data.payments[i].id) == Some(PaymentRow(data.payments[i]))
    {
      StoredItem(all.payments, data.payments, PaymentRow, (p: Payment) => p.id, i);
    }
  }

  // What one attempt to write a ledger makes of the tables.
  predicate AllOrNothing(before: Tables, after: Tables, data: Data) {
    after == before || after == Written(before, data)
  }

  // Attempts that each either leave the tables alone or write all the data, one of them having written: the result is
  // that of writing once.
  lemma {:induction false} RetriesWriteOnce(states: seq<Tables>, data: Data)
    requires |states| > 1
    requires forall i :: 0 < i < |states| ==> AllOrNothing(states[i - 1], states[i], data)
    ensures AllOrNothing(states[0], states[|states| - 1], data)
    ensures (exists i :: 0 < i < |states| && states[i] == Written(states[i - 1], data)) ==>
            states[|states| - 1] == Written(states[0], data)
    decreases |states|
  {
    var k := |states| - 1;
    WriteTwice(states[0], data);
    if k > 1 {
      var init := states[..k];
      assert forall i :: 0 <= i < k ==> init[i] == states[i];
      RetriesWriteOnce(init, data);
    }
  }

  // ---- One database connection ----

  datatype Statement =
    | Begin
    | Insert(name: TableName, values: seq<Token>, params: seq<string>)
    | Commit
    | Rollback
    | Notify

  // A statement can be refused, or take effect although the reply never arrives.
  datatype Fault = NoFault | Refused | ReplyLost

  // What is committed, and what the open transaction sees.
  datatype Session = Session(committed: Tables, working: Option<Tables>)

  // The rows of an insert, if its text reads as rows of the table's width.
  function RowsOf(stmt: Statement): Option<seq<Row>>
    requires stmt.Insert?
  {
    var rows := ReadValues(stmt.values, stmt.params);
    if rows.Some? && forall i :: 0 <= i < |rows.value| ==> |rows.value[i]| == Columns(stmt.name) then rows else None
  }

  predicate Understood(stmt: Statement) {
    stmt.Insert? ==> RowsOf(stmt).Some?
  }

  function Execute(s: Session, stmt: Statement): Session
    requires Understood(stmt)
  {
    match stmt
    case Begin => s.(working := Some(s.committed))
    case Insert(name, _, _) =>
      if s.working.Some? then s.(working := Some(InsertInto(s.working.value, name, RowsOf(stmt).value)))
      else s.(committed := InsertInto(s.committed, name, RowsOf(stmt).value))
    case Commit => if s.working.Some? then Session(s.working.value, None) else s
    case Rollback => s.(working := None)
    case Notify => s
  }

  class Connection {
    const faults: nat -> Fault
    var session: Session
    var sent: nat

    constructor (faults: nat -> Fault, tables: Tables)
      ensures session == Session(tables, None) && sent == 0 && this.faults == faults
    {
      this.faults := faults;
      session, sent := Session(tables, None), 0;
    }

    // client.query; a refused COMMIT ends the transaction without keeping its work.
    method Query(stmt: Statement) returns (ok: bool)
      modifies this
      ensures sent == old(sent) + 1
      ensures ok <==> Understood(stmt) && faults(old(sent)).NoFault?
      ensures session == if Understood(stmt) && !faults(old(sent)).Refused? then Execute(old(session), stmt)
                         else if stmt.Commit? then old(session).(working := None) else old(session)
    {
      var fault := faults(sent);
      sent := sent + 1;
      if !Understood(stmt) || fault.Refused? {
        if stmt.Commit? {
          session := session.(working := None);
        }
        return false;
      }
      session := Execute(session, stmt);
      ok := fault.NoFault?;
    }

    // bulkInsertTransactions, bulkInsertOperations and bulkInsertPayments, which differ in the table and its columns:
    // one statement for each batch.
    method BulkInsert<T>(name: TableName, items: seq<T>, toRow: T -> Row) returns (ok: bool)
      requires session.working.Some?
      requires forall i :: 0 <= i < |items| ==> |toRow(items[i])| == Columns(name)
      modifies this
      ensures session.committed == old(session.committed) && session.working.Some?
      ensures sent >= old(sent)
      ensures ok ==> session.working.value == InsertInto(old(session.working.value), name, Rows(items, toRow))
      ensures ok ==> sent == old(sent) + Batches(|items|, BATCH_SIZE)
      ensures !ok ==> exists n :: old(sent) <= n < sent && !faults(n).NoFault?
    {
      if |items| == 0 {
        assert Rows(items, toRow) == [];
        return true;
      }
      var batches := Chunk(items, BATCH_SIZE);
      BatchCount(batches, BATCH_SIZE);
      for b := 0 to |batches|
        invariant session.committed == old(session.committed) && session.working.Some?
        invariant sent == old(sent) + b
        invariant session.working.value ==
                  InsertInto(old(session.working.value), name, Rows(Flatten(batches[..b]), toRow))
      {
        BatchIsRead(items, batches, b, toRow, Columns(name));
        ok := InsertBatch(name, batches[b], toRow);
        if !ok {
          return;
        }
        BatchThenRest(old(session.working.value), name, batches, b, toRow);
      }
      assert batches[..|batches|] == batches;
      ok := true;
    }

    // One statement for the rows of a batch.
    method InsertBatch<T>(name: TableName, batch: seq<T>, toRow: T -> Row) returns (ok: bool)
      requires session.working.Some? && IsReadable(Rows(batch, toRow), Columns(name))
      modifies this
      ensures session.committed == old(session.committed) && session.working.Some? && sent == old(sent) + 1
      ensures ok ==> session.working.value == InsertInto(old(session.working.value), name, Rows(batch, toRow))
      ensures !ok ==> !faults(old(sent)).NoFault?
    {
      var text, params := BuildBulkValues(Rows(batch, toRow), 1);
      ok := Query(Insert(name, text, params));
    }
  }

  // The statement for the rows reads back as the rows, all of the table's width.
  predicate IsReadable(rows: seq<Row>, columns: nat) {
    && ReadValues(Join(RowTexts(rows, 1), Comma), Flatten(rows)) == Some(rows)
    && forall i :: 0 <= i < |rows| ==> |rows[i]| == columns
  }

  lemma {:induction false} FlattenMember<T>(parts: seq<seq<T>>, k: nat, i: nat)
    requires k < |parts| && i < |parts[k]|
    ensures parts[k][i] in Flatten(parts)
    decreases k
  {
    if k > 0 {
      FlattenMember(parts[1..], k - 1, i);
    }
  }

  lemma BatchIsRead<T>(items: seq<T>, batches: seq<seq<T>>, b: nat, toRow: T -> Row, columns: nat)
    requires Flatten(batches) == items && b < |batches| && |batches[b]| > 0
    requires forall i :: 0 <= i < |items| ==> |toRow(items[i])| == columns
    ensures IsReadable(Rows(batches[b], toRow), columns)
  {
    var rows := Rows(batches[b], toRow);
    forall i | 0 <= i < |rows|
      ensures |rows[i]| == columns
    {
      FlattenMember(batches, b, i);
    }
    assert Flatten(rows)[0..|Flatten(rows)|] == Flatten(rows);
    ValuesRoundTrip(rows, 1, Flatten(rows));
  }

  lemma BatchThenRest<T>(all: Tables, name: TableName, batches: seq<seq<T>>, b: nat, toRow: T -> Row)
    requires b < |batches|
    ensures InsertInto(InsertInto(all, name, Rows(Flatten(batches[..b]), toRow)), name, Rows(batches[b], toRow))
         == InsertInto(all, name, Rows(Flatten(batches[..b + 1]), toRow))
  {
    var done, more := Rows(Flatten(batches[..b]), toRow), Rows(batches[b], toRow);
    assert batches[..b + 1] == batches[..b] + [batches[b]];
    FlattenAppend(batches[..b], batches[b]);
    assert Rows(Flatten(batches[..b + 1]), toRow) == done + more;
    var t := match name case Ledgers => all.ledgers case Transactions => all.transactions
             case Operations => all.operations case Payments => all.payments;
    InsertAppend(t, done, more);
  }

  datatype Metrics = Metrics(transactionBatches: nat, operationBatches: nat, paymentBatches: nat,
                             totalTransactions: nat, totalOperations: nat, totalPayments: nat)

  function MetricsOf(data: Data): Metrics {
    Metrics(Batches(|data.transactions|, BATCH_SIZE), Batches(|data.operations|, BATCH_SIZE),
      Batches(|data.payments|, BATCH_SIZE),
            |data.transactions|, |data.operations|, |data.payments|)
  }

  // The fixed text of the ledger insert is that of one row of four cells.
  lemma LedgerStatementText(row: Row)
    requires |row| == 4
    ensures RowText(row, 1) == [Open, Param(1), Comma, Param(2), Comma, Param(3), Comma, Param(4), Close]
  {
    NextPlaceholder(4, 1);
    NextPlaceholder(3, 2);
    NextPlaceholder(2, 3);
  }

  lemma NextPlaceholder(count: nat, index: nat)
    requires count > 1
    ensures Join(Placeholders(count, index), Comma) ==
            [Param(index), Comma] + Join(Placeholders(count - 1, index + 1), Comma)
    ensures Join(Placeholders(1, index + 1), Comma) == [Param(index + 1)]
  {
    assert Placeholders(count, index)[1..] == Placeholders(count - 1, index + 1);
  }

  // The single-row insert of the ledger.
  method InsertLedger(client: Connection, ledger: Ledger) returns (ok: bool)
    requires client.session.working.Some?
    modifies client
    ensures client.session.committed == old(client.session.committed) && client.session.working.Some?
    ensures client.sent == old(client.sent) + 1
    ensures ok ==>
              client.session.working.value
              == InsertInto(old(client.session.working.value), Ledgers, [LedgerRow(ledger)])
    ensures !ok ==> !client.faults(old(client.sent)).NoFault?
  {
    var row := LedgerRow(ledger);
    LedgerStatementText(row);
    ReadLastRow(row, 1, row);
    ok := client.Query(Insert(Ledgers, [Open, Param(1), Comma, Param(2), Comma, Param(3), Comma, Param(4), Close],
      row));
  }

  // How many statements insert the rows of a ledger.
  function InsertCount(data: Data): nat {
    1 + MetricsOf(data).transactionBatches + MetricsOf(data).operationBatches + MetricsOf(data).paymentBatches
  }

  // The inserts between BEGIN and COMMIT.
  method InsertAll(client: Connection, data: Data) returns (ok: bool)
    requires client.session.working.Some?
    modifies client
    ensures client.session.committed == old(client.session.committed) && client.session.working.Some?
    ensures client.sent >= old(client.sent)
    ensures ok ==> client.session.working.value == Written(old(client.session.working.value), data)
    ensures ok ==> client.sent == old(client.sent) + InsertCount(data)
    ensures !ok ==> exists n :: old(client.sent) <= n < client.sent && !client.faults(n).NoFault?
  {
    ok := InsertLedger(client, data.ledger);
    if !ok {
      return;
    }
    ok := client.BulkInsert(Transactions, data.transactions, TransactionRow);
    if !ok {
      return;
    }
    ok := client.BulkInsert(Operations, data.operations, OperationRow);
    if !ok {
      return;
    }
    ok := client.BulkInsert(Payments, data.payments, PaymentRow);
  }

  // The body of the try block up to COMMIT.
  method WriteAll(client: Connection, data: Data) returns (ok: bool)
    requires client.session.working.None?
    modifies client
    ensures client.sent >= old(client.sent)
    ensures ok ==> client.session == Session(Written(old(client.session.committed), data), None)
    ensures ok ==> client.sent == old(client.sent) + 2 + InsertCount(data)
    ensures !ok ==>
              || client.session.committed == old(client.session.committed)
              || (client.session == Session(Written(old(client.session.committed), data), None)
                  && client.sent > old(client.sent) && client.faults(client.sent - 1).ReplyLost?)
    ensures !ok ==> exists n :: old(client.sent) <= n < client.sent && !client.faults(n).NoFault?
  {
    ok := client.Query(Begin);
    if !ok {
      return;
    }
    ok := InsertAll(client, data);
    if !ok {
      return;
    }
    ok := client.Query(Commit);
  }

  // writeIngestedData: on success all the data is committed; on failure none of it is, unless only the reply to COMMIT
  // was lost. Only a refused ROLLBACK, the last statement then, leaves a transaction open. Without a pool nothing is
  // written.
  method WriteIngestedData(pool: Connection?, data: Data) returns (r: Result<Metrics, string>)
    requires pool != null ==> pool.session.working.None?
    modifies pool
    ensures pool == null ==> r == Ok(MetricsOf(data))
    ensures pool != null && r.Ok? ==>
              r.value == MetricsOf(data) && pool.session == Session(Written(old(pool.session.committed), data), None)
    ensures pool != null && r.Ok? ==>
              pool.sent ==
                old(pool.sent) + 4 + r.value.transactionBatches + r.value.operationBatches + r.value.paymentBatches
    ensures r.Ok? ==>
              && r.value.transactionBatches == (|data.transactions| + 99) / 100
              && r.value.operationBatches == (|data.operations| + 99) / 100
              && r.value.paymentBatches == (|data.payments| + 99) / 100
              && r.value.totalTransactions == |data.transactions|
              && r.value.totalOperations == |data.operations|
              && r.value.totalPayments == |data.payments|
    ensures pool != null ==> AllOrNothing(old(pool.session.committed), pool.session.committed, data)
    ensures pool != null && r.Err? && pool.session.committed != old(pool.session.committed) ==>
              exists n :: old(pool.sent) <= n < pool.sent && pool.faults(n).ReplyLost?
    ensures pool != null ==> pool.sent > old(pool.sent)
    ensures pool != null && r.Err? && pool.session.working.Some? ==> pool.faults(pool.sent - 1).Refused?
    ensures pool != null && r.Err? ==> exists n :: old(pool.sent) <= n < pool.sent && !pool.faults(n).NoFault?
  {
    var metrics := MetricsOf(data);
    if pool == null {
      return Ok(metrics);
    }
    var ok := WriteAll(pool, data);
    if ok {
      var notified := pool.Query(Notify);
      r := Ok(metrics);
    } else {
      var rolledBack := pool.Query(Rollback);
      r := Err("Failed to write to database");
    }
  }
}
