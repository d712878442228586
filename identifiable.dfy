/**
  The identifier-keyed persistence of the Go port: statements addressed by
  the `"Id"` column (look up, list, upsert, update, delete by one id or by a
  list of ids), each answered from the first row of a pgx cursor. The client
  is the pgx pool, a function from a statement to the cursor it answers; the
  object helpers (clone, id generation, id lookup) and the conversion hooks
  are passed in.
 */
module Identifiable {
  import opened Values
  import opened Fragments
  import Engine

  /** The object helpers of the surrounding library. */
  datatype ObjectLib = ObjectLib(clone: Value -> Value, generateId: Value -> Value, getId: Value -> Value)

  /**
    The conversions the Go methods call: the public-to-row conversion of the
    concrete persistence, the base one (what `ConvertFromPublicPartial`
    delegates to), and the decoding of one row's columns into an item.
   */
  datatype Conversions = Conversions(fromPublic: Value -> Value, baseFromPublic: Value -> Value,
                                     fromRows: seq<Field> -> Value)

  /** `NewIdentifiablePostgresPersistence`: an empty table name is refused (the source panics). */
  function NewIdentifiable(tableName: string): (r: Result<string>)
    ensures r.Failure? <==> tableName == ""
    ensures r.Success? ==> r.value == tableName
  {
    if tableName == "" then Failure(PlainError("Table name could not be empty")) else Success(tableName)
  }

  // ---------------------------------------------------------------------
  // Answers from the first row

  /**
    What the by-id operations return from a cursor: nothing when there is no
    row; the decoded item when the first row decodes to some columns; the
    decoding error, beside a nil item, when it does not decode.
   */
  function FirstRowReply(rows: seq<RowRead>, fromRows: seq<Field> -> Value): (r: (Value, Option<Error>))
    ensures rows == [] ==> r == (Null, None)
    ensures rows != [] && rows[0].Undecodable? ==> r == (Null, Some(rows[0].error))
    ensures rows != [] && rows[0].Decoded? && |rows[0].columns| > 0 ==> r == (fromRows(rows[0].columns), None)
    ensures rows != [] && rows[0] == Decoded([]) ==> r == (Null, None)
    ensures r.1.Some? ==> r.0 == Null
  {
    if rows == [] then (Null, None)
    else match rows[0]
      case Decoded(columns) => if |columns| > 0 then (fromRows(columns), None) else (Null, None)
      case Undecodable(e) => (Null, Some(e))
  }

  /**
    The answer as `Update`, `UpdatePartially` and `DeleteById` write it:
    `return vErr, nil` puts the decoding error in the item position and
    reports no error.
   */
  function SwappedReply(rows: seq<RowRead>, fromRows: seq<Field> -> Value): (r: (Value, Option<Error>))
    ensures r.1 == None
    ensures rows != [] && rows[0].Undecodable? ==> r.0 == ErrorValue(rows[0].error)
  {
    if rows == [] then (Null, None)
    else match rows[0]
      case Decoded(columns) => if |columns| > 0 then (fromRows(columns), None) else (Null, None)
      case Undecodable(e) => (ErrorValue(e), None)
  }

  /**
    The swapped answer loses every decoding error: for a first row that
    does not decode it reports success with the error as the item, where
    `GetOneById` and `Set` report the error. On every other cursor the two
    agree.
   */
  lemma SwappedReplyHidesError(e: Error, rest: seq<RowRead>, rows: seq<RowRead>, fromRows: seq<Field> -> Value)
    ensures SwappedReply([Undecodable(e)] + rest, fromRows) == (ErrorValue(e), None)
    ensures FirstRowReply([Undecodable(e)] + rest, fromRows) == (Null, Some(e))
    ensures (rows == [] || rows[0].Decoded?) ==> SwappedReply(rows, fromRows) == FirstRowReply(rows, fromRows)
  {
  }

  /** The Outcome of one by-id statement: a query error, or the first-row answer. */
  function Answer(client: PgxClient, stmt: Statement, fromRows: seq<Field> -> Value): (r: Outcome)
    ensures r.issued == [stmt]
    ensures client(stmt).CursorFailed? ==> r.item == Null && r.err == Some(client(stmt).error)
    ensures client(stmt).Cursor? ==> (r.item, r.err) == FirstRowReply(client(stmt).rows, fromRows)
    ensures client(stmt).Cursor? && client(stmt).rows == [] ==> r.item == Null && r.err == None
  {
    match client(stmt)
    case CursorFailed(e) => Outcome([stmt], Null, Some(e))
    case Cursor(rows) =>
      var (item, err) := FirstRowReply(rows, fromRows);
      Outcome([stmt], item, err)
  }

  /** The by-id Outcome as `Update`, `UpdatePartially` and `DeleteById` write it: a query error, or the swapped answer. */
  function AnswerAsWritten(client: PgxClient, stmt: Statement, fromRows: seq<Field> -> Value): (r: Outcome)
    ensures r.issued == [stmt]
    ensures client(stmt).CursorFailed? ==> r.item == Null && r.err == Some(client(stmt).error)
    ensures client(stmt).Cursor? ==> (r.item, r.err) == SwappedReply(client(stmt).rows, fromRows) && r.err == None
  {
    match client(stmt)
    case CursorFailed(e) => Outcome([stmt], Null, Some(e))
    case Cursor(rows) =>
      var (item, err) := SwappedReply(rows, fromRows);
      Outcome([stmt], item, err)
  }

  /** A cursor whose first row does not decode. */
  predicate FirstRowFails(result: CursorResult) {
    result.Cursor? && result.rows != [] && result.rows[0].Undecodable?
  }

  /**
    The written answer differs from the intended one exactly on a cursor
    whose first row does not decode: there it reports success, with the
    decoding error as the item.
   */
  lemma WrittenAnswerDiffersOnlyOnDecodeError(client: PgxClient, stmt: Statement, fromRows: seq<Field> -> Value)
    ensures !FirstRowFails(client(stmt)) ==> AnswerAsWritten(client, stmt, fromRows) == Answer(client, stmt, fromRows)
    ensures FirstRowFails(client(stmt)) ==>
      var e := client(stmt).rows[0].error;
      && AnswerAsWritten(client, stmt, fromRows) == Outcome([stmt], ErrorValue(e), None)
      && Answer(client, stmt, fromRows) == Outcome([stmt], Null, Some(e))
  {
    if client(stmt).Cursor? {
      SwappedReplyHidesError(Error.PlainError(""), [], client(stmt).rows, fromRows);
    }
  }

  // ---------------------------------------------------------------------
  // Statements

  /** `... WHERE "Id" IN($1,...,$n)`: the table's rows whose id is one of n given ids. */
  function IdListSelect(table: string, n: nat): string {
    "SELECT * FROM " + QuoteIdentifier(table) + IdIn(Join(Placeholders(n), ","))
  }

  function IdListDelete(table: string, n: nat): string {
    "DELETE FROM " + QuoteIdentifier(table) + IdIn(Join(Placeholders(n), ","))
  }

  /** The filter of the id-list statements over a placeholder list. */
  function IdIn(params: string): string {
    " WHERE \"Id\" IN(" + params + ")"
  }

  function ByIdSelect(table: string): string {
    "SELECT * FROM " + QuoteIdentifier(table) + " WHERE \"Id\"=$1"
  }

  function ByIdDelete(table: string): string {
    "DELETE FROM " + QuoteIdentifier(table) + " WHERE \"Id\"=$1 RETURNING *"
  }

  /** The upsert of `Set`: insert the row, or on an id conflict update every column of it. */
  function UpsertStatement(table: string, row: seq<Field>): Statement {
    Statement("INSERT INTO " + QuoteIdentifier(table) + " (" + Fold(ColumnList(Keys(row)), ",") + ")"
              + " VALUES (" + Join(Placeholders(|row|), ",") + ")"
              + " ON CONFLICT (\"Id\") DO UPDATE SET " + Join(SetList(Keys(row)), ",") + " RETURNING *",
              GenerateValues(row))
  }

  /**
    The UPDATE of `Update` and `UpdatePartially`, with its id placeholder in
    decimal: the row's values are bound first and the id last, at position
    `|row| + 1`.
   */
  function UpdateStatement(table: string, row: seq<Field>, id: Value): (r: Statement)
    ensures r.args == GenerateValues(row) + [id] && |r.args| == |row| + 1
    ensures EndsWith(r.text, WhereId(Dec(|row| + 1)))
  {
    var values := GenerateValues(row) + [id];
    var head := "UPDATE " + QuoteIdentifier(table) + " SET " + Join(SetList(Keys(row)), ",");
    EndsWithAppend(head, WhereId(Dec(|values|)), WhereId(Dec(|values|)));
    Statement(head + WhereId(Dec(|values|)), values)
  }

  /** The same UPDATE as the source writes it, with the placeholder number in base 16. */
  function UpdateStatementAsWritten(table: string, row: seq<Field>, id: Value): (r: Statement)
    ensures r.args == GenerateValues(row) + [id] && |r.args| == |row| + 1
    ensures EndsWith(r.text, WhereId(Hex(|row| + 1)))
  {
    var values := GenerateValues(row) + [id];
    var head := "UPDATE " + QuoteIdentifier(table) + " SET " + Join(SetList(Keys(row)), ",");
    EndsWithAppend(head, WhereId(Hex(|values|)), WhereId(Hex(|values|)));
    Statement(head + WhereId(Hex(|values|)), values)
  }

  /** The tail of the UPDATE: the row whose id is the given placeholder, returned. */
  function WhereId(placeholder: string): string {
    " WHERE \"Id\"=$" + placeholder + " RETURNING *"
  }

  /**
    In the UPDATE, the i-th SET entry binds the i-th column to `$(i+1)`,
    whose argument is that column's value, and the WHERE placeholder names
    the last argument, which is the id.
   */
  lemma UpdateTargetsId(table: string, row: seq<Field>, id: Value)
    requires DistinctKeys(row)
    ensures var s := UpdateStatement(table, row, id);
      && |s.args| == |row| + 1
      && s.args[|row|] == id
      && ReadNumber(Dec(|s.args|), 10) == |s.args|
      && (forall i :: 0 <= i < |row| ==>
            SetList(Keys(row))[i] == QuoteIdentifier(row[i].name) + "=" + Placeholder(i + 1) && s.args[i] == row[i].value)
  {
    var s := UpdateStatement(table, row, id);
    assert s.args == GenerateValues(row) + [id];
    DecReadsBack(|row| + 1);
    forall i | 0 <= i < |row|
      ensures SetList(Keys(row))[i] == QuoteIdentifier(row[i].name) + "=" + Placeholder(i + 1)
      ensures s.args[i] == row[i].value
    {
      Alignment(row, i);
    }
  }

  /**
    Written in base 16, the id placeholder is right only while the row has
    fewer than nine columns: with nine, the tenth argument (the id) is
    written `$a`, which names no parameter.
   */
  lemma HexPlaceholderFromTenArguments(table: string, row: seq<Field>, id: Value)
    ensures |row| < 9 ==> UpdateStatementAsWritten(table, row, id) == UpdateStatement(table, row, id)
    ensures |row| == 9 ==> Hex(|UpdateStatementAsWritten(table, row, id).args|) == "a"
    ensures |row| == 9 ==> Dec(|UpdateStatement(table, row, id).args|) == "10"
  {
    if |row| < 9 {
      HexIsDecBelowTen(|row| + 1);
    }
    if |row| == 9 {
      assert Hex(10) == [DigitChar(10)];
      assert Dec(10) == Dec(1) + [DigitChar(0)];
    }
  }

  /**
    The upsert lines up: one column, one placeholder and one SET entry per
    field, and the i-th of each, with the i-th argument, are about the i-th
    field, so a conflict updates every column to the value just inserted.
   */
  lemma UpsertAligned(table: string, row: seq<Field>)
    requires DistinctKeys(row)
    ensures |UpsertStatement(table, row).args| == |row| == |Placeholders(|row|)| == |SetList(Keys(row))|
    ensures forall i :: 0 <= i < |row| ==>
      && ColumnList(Keys(row))[i] == QuoteIdentifier(row[i].name)
      && SetList(Keys(row))[i] == ColumnList(Keys(row))[i] + "=" + Placeholders(|row|)[i]
      && UpsertStatement(table, row).args[i] == Lookup(row, row[i].name)
  {
    forall i | 0 <= i < |row|
      ensures SetList(Keys(row))[i] == ColumnList(Keys(row))[i] + "=" + Placeholders(|row|)[i]
      ensures UpsertStatement(table, row).args[i] == Lookup(row, row[i].name)
    {
      Alignment(row, i);
    }
  }

  /**
    An id list statement has one placeholder per id, `$1` to `$n` in that
    order, and binds the ids as its arguments in the order given.
   */
  lemma IdListPlaceholders(ids: seq<Value>)
    requires |ids| > 0
    ensures |Split(Join(Placeholders(|ids|), ","), ',')| == |ids|
    ensures forall i :: 0 <= i < |ids| ==> Split(Join(Placeholders(|ids|), ","), ',')[i] == "$" + Dec(i + 1)
  {
    ParametersReadBack(|ids|);
  }

  // ---------------------------------------------------------------------
  // Operations

  /** The items of a cursor, in order, skipping the rows that do not decode. */
  function DecodedItems(rows: seq<RowRead>, fromRows: seq<Field> -> Value): (r: seq<Value>)
    ensures |r| <= |rows|
    decreases |rows|
  {
    if rows == [] then []
    else
      var last := rows[|rows| - 1];
      DecodedItems(rows[..|rows| - 1], fromRows) + (if last.Decoded? then [fromRows(last.columns)] else [])
  }

  /** The items of two cursors read one after the other are the items of each, in turn. */
  lemma {:induction false} DecodedItemsAppend(a: seq<RowRead>, b: seq<RowRead>, fromRows: seq<Field> -> Value)
    ensures DecodedItems(a + b, fromRows) == DecodedItems(a, fromRows) + DecodedItems(b, fromRows)
    decreases |b|
  {
    if b != [] {
      var init := b[..|b| - 1];
      assert (a + b)[..|a + b| - 1] == a + init;
      DecodedItemsAppend(a, init, fromRows);
    } else {
      assert a + b == a;
    }
  }

  /** When every row decodes, each row gives exactly one item, in row order. */
  lemma {:induction false} DecodedItemsAllDecoded(rows: seq<RowRead>, fromRows: seq<Field> -> Value)
    requires forall k :: 0 <= k < |rows| ==> rows[k].Decoded?
    ensures |DecodedItems(rows, fromRows)| == |rows|
    ensures forall k :: 0 <= k < |rows| ==> DecodedItems(rows, fromRows)[k] == fromRows(rows[k].columns)
    decreases |rows|
  {
    if rows != [] {
      DecodedItemsAllDecoded(rows[..|rows| - 1], fromRows);
    }
  }

  /** A cursor of undecodable rows gives no items. */
  lemma {:induction false} DecodedItemsNoneDecoded(rows: seq<RowRead>, fromRows: seq<Field> -> Value)
    requires forall k :: 0 <= k < |rows| ==> rows[k].Undecodable?
    ensures DecodedItems(rows, fromRows) == []
    decreases |rows|
  {
    if rows != [] {
      DecodedItemsNoneDecoded(rows[..|rows| - 1], fromRows);
    }
  }

  /** The cursor loop of `GetListByIds`: append the item of every row that decodes, skip the others. */
  method ReadDecoded(rows: seq<RowRead>, fromRows: seq<Field> -> Value) returns (list: seq<Value>)
    ensures list == DecodedItems(rows, fromRows)
  {
    list := [];
    for i := 0 to |rows|
      invariant list == DecodedItems(rows[..i], fromRows)
    {
      assert rows[..i + 1][..i] == rows[..i];
      if rows[i].Undecodable? {
        continue;
      }
      list := list + [fromRows(rows[i].columns)];
    }
    assert rows[..|rows|] == rows;
  }

  /**
    `GetListByIds`: one SELECT over the ids; a query error gives no list;
    otherwise the cursor is read row by row, skipping rows that do not
    decode.
   */
  method GetListByIds(client: PgxClient, table: string, ids: seq<Value>, fromRows: seq<Field> -> Value)
    returns (issued: Statement, items: Option<seq<Value>>, err: Option<Error>)
    ensures issued == Statement(IdListSelect(table, |ids|), ids)
    ensures client(issued).CursorFailed? ==> items == None && err == Some(client(issued).error)
    ensures client(issued).Cursor? ==> items == Some(DecodedItems(client(issued).rows, fromRows)) && err == None
  {
    var params := GenerateParameters(ids);
    issued := Statement("SELECT * FROM " + QuoteIdentifier(table) + IdIn(params), ids);
    var result := client(issued);
    if result.CursorFailed? {
      return issued, None, Some(result.error);
    }
    var list := ReadDecoded(result.rows, fromRows);
    items := Some(list);
    err := None;
  }

  /** `GetOneById`: the first row whose id matches, or (nil, nil) when none does. */
  function GetOneById(client: PgxClient, table: string, id: Value, fromRows: seq<Field> -> Value): (r: Outcome)
    ensures r.issued == [Statement(ByIdSelect(table), [id])]
    ensures r.err.Some? ==> r.item == Null
    ensures client(r.issued[0]).CursorFailed? ==> r.err == Some(client(r.issued[0]).error)
    ensures client(r.issued[0]).Cursor? ==> (r.item, r.err) == FirstRowReply(client(r.issued[0]).rows, fromRows)
    ensures client(r.issued[0]).Cursor? && client(r.issued[0]).rows == [] ==> r.item == Null && r.err == None
  {
    Answer(client, Statement(ByIdSelect(table), [id]), fromRows)
  }

  /**
    `Create`: a nil item gives (nil, nil) without a query; otherwise the base
    create stores a clone of the item that has been given an id.
   */
  function Create(client: PgClient, table: string, hooks: Hooks, lib: ObjectLib, item: Value): (r: Outcome)
    ensures item == Null ==> r == Outcome([], Null, None)
    ensures item != Null ==>
      var newItem := lib.generateId(lib.clone(item));
      r.issued == Engine.Create(client, table, hooks, newItem).issued
    ensures item != Null ==> r == Engine.Create(client, table, hooks, lib.generateId(lib.clone(item)))
  {
    if item == Null then Outcome([], Null, None)
    else Engine.Create(client, table, hooks, lib.generateId(lib.clone(item)))
  }

  /**
    The item `Create` hands down is the id-assigned clone: when the helpers
    clone faithfully, the one INSERT it sends stores the caller's item as id
    generation completed it.
   */
  lemma CreateStoresIdentifiedClone(client: PgClient, table: string, hooks: Hooks, lib: ObjectLib, item: Value)
    requires item != Null
    requires lib.clone(item) == item
    requires lib.generateId(item) != Null
    ensures var stored := lib.generateId(lib.clone(item));
      Create(client, table, hooks, lib, item).issued == [Engine.InsertStatement(table, FieldsOf(hooks.fromPublic(stored)))]
  {
  }

  /**
    The specification of `Set`: a nil item gives (nil, nil) without a query;
    otherwise the upsert of the row converted from the caller's `item` (not
    from the clone given an id, which only feeds a log line), answered from
    its first row. So what `Set` sends and returns does not depend on how
    ids are generated: `lib` is not read.
   */
  function SetOutcome(client: PgxClient, table: string, conv: Conversions, lib: ObjectLib, item: Value): (r: Outcome)
    ensures item == Null ==> r == Outcome([], Null, None)
    ensures item != Null ==> r.issued == [UpsertStatement(table, FieldsOf(conv.fromPublic(item)))]
    ensures item != Null ==> r == Answer(client, UpsertStatement(table, FieldsOf(conv.fromPublic(item))), conv.fromRows)
  {
    if item == Null then Outcome([], Null, None)
    else Answer(client, UpsertStatement(table, FieldsOf(conv.fromPublic(item))), conv.fromRows)
  }

  /** `Set`: builds the upsert from one row and sends it. */
  method Set(client: PgxClient, table: string, conv: Conversions, lib: ObjectLib, item: Value) returns (r: Outcome)
    ensures r == SetOutcome(client, table, conv, lib, item)
  {
    if item == Null {
      return Outcome([], Null, None);
    }
    var newItem := lib.generateId(lib.clone(item));
    var row := FieldsOf(conv.fromPublic(item));
    var columns := GenerateColumns(Keys(row));
    var params := GenerateParameters(row);
    var setParams := GenerateSetParameters(Keys(row));
    var values := GenerateValues(row);
    var query := "INSERT INTO " + QuoteIdentifier(table) + " (" + columns + ")"
      + " VALUES (" + params + ")"
      + " ON CONFLICT (\"Id\") DO UPDATE SET " + setParams + " RETURNING *";
    r := Answer(client, Statement(query, values), conv.fromRows);
  }

  /**
    The specification of `Update`, as the source writes it: a nil item gives
    (nil, nil) without a query; otherwise the UPDATE of the row converted
    from a clone of the item, addressed by the clone's id through a base-16
    placeholder, and answered with `return vErr, nil` for a first row that
    does not decode.
   */
  function UpdateOutcome(client: PgxClient, table: string, conv: Conversions, lib: ObjectLib, item: Value): (r: Outcome)
    ensures item == Null ==> r == Outcome([], Null, None)
    ensures item != Null ==>
      var newItem := lib.clone(item);
      r == AnswerAsWritten(client, UpdateStatementAsWritten(table, FieldsOf(conv.fromPublic(newItem)), lib.getId(newItem)), conv.fromRows)
  {
    if item == Null then Outcome([], Null, None)
    else
      var newItem := lib.clone(item);
      AnswerAsWritten(client, UpdateStatementAsWritten(table, FieldsOf(conv.fromPublic(newItem)), lib.getId(newItem)), conv.fromRows)
  }

  /** `Update` as its authors evidently meant it: a decimal placeholder and the (nil, error) answer. */
  function IntendedUpdateOutcome(client: PgxClient, table: string, conv: Conversions, lib: ObjectLib, item: Value): (r: Outcome)
    ensures item == Null ==> r == Outcome([], Null, None)
    ensures item != Null ==>
      var newItem := lib.clone(item);
      r == Answer(client, UpdateStatement(table, FieldsOf(conv.fromPublic(newItem)), lib.getId(newItem)), conv.fromRows)
  {
    if item == Null then Outcome([], Null, None)
    else
      var newItem := lib.clone(item);
      Answer(client, UpdateStatement(table, FieldsOf(conv.fromPublic(newItem)), lib.getId(newItem)), conv.fromRows)
  }

  /**
    The written `Update` does what was meant as long as the row has fewer
    than nine columns and the first row returned decodes.
   */
  lemma UpdateAsIntended(client: PgxClient, table: string, conv: Conversions, lib: ObjectLib, item: Value)
    requires |FieldsOf(conv.fromPublic(lib.clone(item)))| < 9
    requires !FirstRowFails(client(UpdateStatement(table, FieldsOf(conv.fromPublic(lib.clone(item))), lib.getId(lib.clone(item)))))
    ensures UpdateOutcome(client, table, conv, lib, item) == IntendedUpdateOutcome(client, table, conv, lib, item)
  {
    var row := FieldsOf(conv.fromPublic(lib.clone(item)));
    var stmt := UpdateStatement(table, row, lib.getId(lib.clone(item)));
    HexPlaceholderFromTenArguments(table, row, lib.getId(lib.clone(item)));
    WrittenAnswerDiffersOnlyOnDecodeError(client, stmt, conv.fromRows);
  }

  /** `Update`: the SET list from the row, then the id appended to the row's values. */
  method Update(client: PgxClient, table: string, conv: Conversions, lib: ObjectLib, item: Value) returns (r: Outcome)
    ensures r == UpdateOutcome(client, table, conv, lib, item)
  {
    if item == Null {
      return Outcome([], Null, None);
    }
    var newItem := lib.clone(item);
    var id := lib.getId(newItem);
    var row := FieldsOf(conv.fromPublic(newItem));
    var params := GenerateSetParameters(Keys(row));
    var values := GenerateValues(row);
    values := values + [id];
    var query := "UPDATE " + QuoteIdentifier(table) + " SET " + params + WhereId(Hex(|values|));
    r := AnswerAsWritten(client, Statement(query, values), conv.fromRows);
  }

  /**
    The specification of `UpdatePartially`, as the source writes it: a nil
    id gives (nil, nil) without a query; otherwise the UPDATE of the given
    fields, converted by the base conversion, addressed by the id through a
    base-16 placeholder, with the swapped answer.
   */
  function UpdatePartiallyOutcome(client: PgxClient, table: string, conv: Conversions, id: Value, data: Value): (r: Outcome)
    ensures id == Null ==> r == Outcome([], Null, None)
    ensures id != Null ==> r == AnswerAsWritten(client, UpdateStatementAsWritten(table, FieldsOf(conv.baseFromPublic(data)), id), conv.fromRows)
  {
    if id == Null then Outcome([], Null, None)
    else AnswerAsWritten(client, UpdateStatementAsWritten(table, FieldsOf(conv.baseFromPublic(data)), id), conv.fromRows)
  }

  /** `UpdatePartially` as evidently meant: a decimal placeholder and the (nil, error) answer. */
  function IntendedUpdatePartiallyOutcome(client: PgxClient, table: string, conv: Conversions, id: Value, data: Value): (r: Outcome)
    ensures id == Null ==> r == Outcome([], Null, None)
    ensures id != Null ==> r == Answer(client, UpdateStatement(table, FieldsOf(conv.baseFromPublic(data)), id), conv.fromRows)
  {
    if id == Null then Outcome([], Null, None)
    else Answer(client, UpdateStatement(table, FieldsOf(conv.baseFromPublic(data)), id), conv.fromRows)
  }

  /** The written partial update does what was meant under the same two conditions as `Update`. */
  lemma UpdatePartiallyAsIntended(client: PgxClient, table: string, conv: Conversions, id: Value, data: Value)
    requires |FieldsOf(conv.baseFromPublic(data))| < 9
    requires !FirstRowFails(client(UpdateStatement(table, FieldsOf(conv.baseFromPublic(data)), id)))
    ensures UpdatePartiallyOutcome(client, table, conv, id, data) == IntendedUpdatePartiallyOutcome(client, table, conv, id, data)
  {
    var row := FieldsOf(conv.baseFromPublic(data));
    HexPlaceholderFromTenArguments(table, row, id);
    WrittenAnswerDiffersOnlyOnDecodeError(client, UpdateStatement(table, row, id), conv.fromRows);
  }

  /** `UpdatePartially`: as `Update`, over the given fields and id. */
  method UpdatePartially(client: PgxClient, table: string, conv: Conversions, id: Value, data: Value) returns (r: Outcome)
    ensures r == UpdatePartiallyOutcome(client, table, conv, id, data)
  {
    if id == Null {
      return Outcome([], Null, None);
    }
    var row := FieldsOf(conv.baseFromPublic(data));
    var params := GenerateSetParameters(Keys(row));
    var values := GenerateValues(row);
    values := values + [id];
    var query := "UPDATE " + QuoteIdentifier(table) + " SET " + params + WhereId(Hex(|values|));
    r := AnswerAsWritten(client, Statement(query, values), conv.fromRows);
  }

  /**
    `DeleteById`: one DELETE of the id, answered with the deleted row as the
    source writes it, so a deleted row that does not decode is reported as
    a success.
   */
  function DeleteById(client: PgxClient, table: string, id: Value, fromRows: seq<Field> -> Value): (r: Outcome)
    ensures r.issued == [Statement(ByIdDelete(table), [id])]
    ensures r.err.Some? <==> client(r.issued[0]).CursorFailed?
    ensures r.err.Some? ==> r.item == Null
    ensures client(r.issued[0]).Cursor? && client(r.issued[0]).rows == [] ==> r.item == Null && r.err == None
    ensures !FirstRowFails(client(r.issued[0])) ==> r == Answer(client, r.issued[0], fromRows)
  {
    var stmt := Statement(ByIdDelete(table), [id]);
    WrittenAnswerDiffersOnlyOnDecodeError(client, stmt, fromRows);
    AnswerAsWritten(client, stmt, fromRows)
  }

  /** The error `DeleteByIds` reports: the query's, else that of a first row that does not decode. */
  function DeleteByIdsError(result: CursorResult): (r: Option<Error>)
    ensures result.CursorFailed? ==> r == Some(result.error)
    ensures result.Cursor? && (result.rows == [] || result.rows[0].Decoded?) ==> r == None
    ensures result.Cursor? && result.rows != [] && result.rows[0].Undecodable? ==> r == Some(result.rows[0].error)
  {
    match result
    case CursorFailed(e) => Some(e)
    case Cursor(rows) => if rows != [] && rows[0].Undecodable? then Some(rows[0].error) else None
  }

  /** `DeleteByIds`: one DELETE over the ids. */
  method DeleteByIds(client: PgxClient, table: string, ids: seq<Value>) returns (issued: Statement, err: Option<Error>)
    ensures issued == Statement(IdListDelete(table, |ids|), ids)
    ensures err == DeleteByIdsError(client(issued))
  {
    var params := GenerateParameters(ids);
    issued := Statement("DELETE FROM " + QuoteIdentifier(table) + IdIn(params), ids);
    var result := client(issued);
    if result.CursorFailed? {
      return issued, Some(result.error);
    }
    if result.rows != [] {
      match result.rows[0]
      case Undecodable(e) => return issued, Some(e);
      case Decoded(_) => return issued, None;
    }
    err := None;
  }
}
