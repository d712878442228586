/**
  The JSON-column persistence of the Go port: each item is stored as a row
  of two columns, its id and the whole item as a JSON document, and partial
  updates merge into the document.
 */
module JsonVariant {
  import opened Values
  import opened Fragments
  import Engine
  import Identifiable

  /** A column type, or its default when none is given. */
  function TypeOrDefault(given: string, default: string): (r: string)
    ensures default != "" ==> r != ""
    ensures given != "" ==> r == given
    ensures given == "" ==> r == default
  {
    if given == "" then default else given
  }

  /** The column part of the table statement: the id as primary key, then the document. */
  function TableColumns(idType: string, dataType: string): string {
    " (\"Id\" " + idType + " PRIMARY KEY, \"data\" " + dataType + ")"
  }

  /** The two-column table `EnsureTable` queues. */
  function TableStatement(table: string, idType: string, dataType: string): string {
    "CREATE TABLE IF NOT EXISTS " + QuoteIdentifier(table) + TableColumns(TypeOrDefault(idType, "TEXT"), TypeOrDefault(dataType, "JSONB"))
  }

  /** With no types given, the id is TEXT and the document JSONB. */
  lemma DefaultTable(table: string)
    ensures TableStatement(table, "", "") == TableStatement(table, "TEXT", "JSONB")
    ensures TableColumns("TEXT", "JSONB") == " (\"Id\" TEXT PRIMARY KEY, \"data\" JSONB)"
  {
  }

  /**
    `EnsureTable`: substitute the default types for empty ones and queue the
    table statement after the statements already queued.
   */
  method EnsureTable(p: Engine.PostgresPersistence, idType: string, dataType: string)
    modifies p
    ensures p.autoObjects == old(p.autoObjects) + [TableStatement(p.tableName, idType, dataType)]
    ensures p.tableName == old(p.tableName) && p.isOpened == old(p.isOpened) && p.connection == old(p.connection)
    ensures p.client == old(p.client) && p.sent == old(p.sent) && p.localConnection == old(p.localConnection)
    ensures p.maxPageSize == old(p.maxPageSize) && p.databaseName == old(p.databaseName)
  {
    var idT := idType;
    if idT == "" {
      idT := "TEXT";
    }
    var dataT := dataType;
    if dataT == "" {
      dataT := "JSONB";
    }
    var columns := " (\"Id\" " + idT + " PRIMARY KEY, \"data\" " + dataT + ")";
    var query := "CREATE TABLE IF NOT EXISTS " + QuoteIdentifier(p.tableName) + columns;
    p.AutoCreateObject(query);
  }

  /**
    `ConvertToPublic`: the document of a stored row; nil stays nil, and a
    value the map type assertion refuses (a struct, say) is returned unchanged.
   */
  function ConvertToPublic(value: Value): (r: Value)
    ensures value == Null ==> r == Null
    ensures value.Object? ==> r == Lookup(value.fields, "data")
    ensures value.Struct? ==> r == value
    ensures !value.Object? ==> r == value
  {
    if value == Null then Null
    else if value.Object? then Lookup(value.fields, "data")
    else value
  }

  /** The stored row of an item: its id under `idKey`, beside the whole item; nil stays nil. */
  function DocumentRow(idKey: string, getId: Value -> Value, value: Value): (r: Value)
    requires idKey != "data"
    ensures value == Null <==> r == Null
    ensures r != Null ==> r.Object? && DistinctKeys(r.fields) && Keys(r.fields) == [idKey, "data"]
    ensures r != Null ==> Lookup(r.fields, idKey) == getId(value) && Lookup(r.fields, "data") == value
  {
    if value == Null then Null
    else Object([Field(idKey, getId(value)), Field("data", value)])
  }

  /** `ConvertFromPublic`: the row of an item, with the id under the key `id`. */
  function ConvertFromPublic(getId: Value -> Value, value: Value): (r: Value)
    ensures value == Null <==> r == Null
    ensures r != Null ==> r.Object? && DistinctKeys(r.fields) && Keys(r.fields) == ["id", "data"]
    ensures r != Null ==> Lookup(r.fields, "id") == getId(value) && Lookup(r.fields, "data") == value
  {
    DocumentRow("id", getId, value)
  }

  /**
    The row's id key is `id`, but the table's column is `"Id"`: quoted
    identifiers keep their case, so the column an INSERT of the row names is
    not the table's id column.
   */
  lemma IdKeyMissesIdColumn(getId: Value -> Value, value: Value, idType: string, dataType: string)
    requires value != Null
    ensures ColumnList(Keys(FieldsOf(ConvertFromPublic(getId, value))))[0] == "\"id\""
    ensures TableColumns(idType, dataType)[2..6] == "\"Id\""
    ensures ColumnList(Keys(FieldsOf(ConvertFromPublic(getId, value))))[0] != TableColumns(idType, dataType)[2..6]
  {
    assert QuoteIdentifier("id") == "\"id\"";
    assert "\"Id\""[1] != "\"id\""[1];
  }

  /**
    The intended row keeps the id under the table's own column name `Id`:
    its first column is the table's id column, and it still reads back as
    the item.
   */
  lemma IntendedRowMatchesTable(getId: Value -> Value, value: Value, idType: string, dataType: string)
    requires value != Null
    ensures ColumnList(Keys(FieldsOf(DocumentRow("Id", getId, value))))[0] == TableColumns(idType, dataType)[2..6]
    ensures ConvertToPublic(DocumentRow("Id", getId, value)) == value
  {
    assert QuoteIdentifier("Id") == "\"Id\"";
  }

  /** Storing an item and reading the row back gives the item again. */
  lemma RoundTrip(getId: Value -> Value, value: Value)
    ensures ConvertToPublic(ConvertFromPublic(getId, value)) == value
  {
  }

  /** The column text of the two-column row. */
  lemma TwoColumns()
    ensures Fold(ColumnList(["id", "data"]), ",") == "\"id\",\"data\""
  {
    assert QuoteIdentifier("id") == "\"id\"" && QuoteIdentifier("data") == "\"data\"";
    assert ColumnList(["id", "data"]) == ["\"id\"", "\"data\""];
    assert ColumnList(["id", "data"])[..1] == ["\"id\""];
  }

  /** The placeholder text of two values. */
  lemma TwoPlaceholders()
    ensures Join(Placeholders(2), ",") == "$1,$2"
  {
    assert Placeholders(2) == ["$1", "$2"] by {
      assert DigitChar(1) == '1' && DigitChar(2) == '2';
      assert Dec(1) == "1" && Dec(2) == "2";
      assert Placeholder(1) == "$1" && Placeholder(2) == "$2";
    }
    assert Placeholders(2)[..1] == ["$1"];
  }

  /**
    What creating an item sends through this variant's conversion: the two
    columns `"id","data"`, two placeholders, and the item's id and the item
    itself as the arguments.
   */
  lemma CreateBindsIdAndDocument(table: string, getId: Value -> Value, value: Value)
    requires value != Null
    ensures Engine.InsertStatement(table, FieldsOf(ConvertFromPublic(getId, value)))
      == Statement("INSERT INTO " + QuoteIdentifier(table) + " (" + "\"id\",\"data\"" + ") VALUES (" + "$1,$2" + ") RETURNING *",
                   [getId(value), value])
  {
    var row := FieldsOf(ConvertFromPublic(getId, value));
    assert Keys(row) == ["id", "data"];
    TwoColumns();
    TwoPlaceholders();
    assert GenerateValues(row) == [getId(value), value];
  }

  /**
    The fixed merge of `UpdatePartially`: the document of the row whose id is
    `$1` gets the fields `$2`. Unlike the generic partial update, the text is
    the same whatever fields are merged.
   */
  function MergeStatement(table: string, id: Value, data: Value): (r: Statement)
    ensures r.args == [id, data]
    ensures EndsWith(r.text, Identifiable.WhereId("1"))
  {
    var head := "UPDATE " + QuoteIdentifier(table) + " SET \"data\"=\"data\"||$2";
    EndsWithAppend(head, Identifiable.WhereId("1"), Identifiable.WhereId("1"));
    Statement(head + Identifiable.WhereId("1"), [id, data])
  }

  /**
    `UpdatePartially`: a nil map gives (nil, nil) without a query; otherwise
    the merge with exactly two arguments, answered from its first row with
    the same `return vErr, nil` as the generic partial update.
   */
  function UpdatePartially(client: PgxClient, table: string, fromRows: seq<Field> -> Value,
                           id: Value, data: Option<Value>): (r: Outcome)
    ensures data.None? ==> r == Outcome([], Null, None)
    ensures data.Some? ==> |r.issued| == 1 && r.issued[0].args == [id, data.value]
    ensures data.Some? ==> r == Identifiable.AnswerAsWritten(client, MergeStatement(table, id, data.value), fromRows)
    ensures data.Some? ==> (r.err.Some? <==> client(r.issued[0]).CursorFailed?)
    ensures data.Some? && !Identifiable.FirstRowFails(client(r.issued[0])) ==>
      r == Identifiable.Answer(client, MergeStatement(table, id, data.value), fromRows)
  {
    if data.None? then Outcome([], Null, None)
    else
      Identifiable.WrittenAnswerDiffersOnlyOnDecodeError(client, MergeStatement(table, id, data.value), fromRows);
      Identifiable.AnswerAsWritten(client, MergeStatement(table, id, data.value), fromRows)
  }
}
