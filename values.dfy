/**
  Shared vocabulary of the persistence engine: the dynamically typed values
  that records are made of, SQL statements with their bound arguments, the
  error values the components hand back, and the two database drivers,
  each reduced to a function from a statement to what it answers.
 */
module Values {

  datatype Option<+T> = None | Some(value: T)

  datatype Result<+T> = Success(value: T) | Failure(error: Error)

  /** The error values of the components (exception classes with their codes). */
  datatype Error =
    | ConfigError(code: string)
    | InvalidStateError(code: string)
    | ConnectionError(code: string, cause: Option<Error>)
    | DriverError(detail: string)
    | PlainError(message: string)

  /**
    A dynamically typed value: what a record, a map, a column value or an id
    can be. `Null` stands for nil/null/undefined; `Object` is a JavaScript
    object or a Go `map[string]interface{}`; `Struct` is a Go struct value,
    which is no map to a type assertion; `ErrorValue` is an error value
    stored where an item is expected (Go's `interface{}` can hold one).
   */
  datatype Value =
    | Null
    | Bool(b: bool)
    | Num(n: int)
    | Str(s: string)
    | Array(items: seq<Value>)
    | Object(fields: seq<Field>)
    | Struct(members: seq<Field>)
    | ErrorValue(error: Error)

  /** One key of a record or map with its value, in iteration order. */
  datatype Field = Field(name: string, value: Value)

  /** An SQL text together with its positional arguments `$1, $2, ...`. */
  datatype Statement = Statement(text: string, args: seq<Value>)

  /** JavaScript truthiness of a value (`if (x)`, `!x`). */
  predicate Truthy(v: Value) {
    match v
    case Null => false
    case Bool(b) => b
    case Num(n) => n != 0
    case Str(s) => s != ""
    case _ => true
  }

  /** The keys of a record, in iteration order (`_.keys`). */
  function Keys(fields: seq<Field>): (r: seq<string>)
    ensures |r| == |fields|
    ensures forall i :: 0 <= i < |fields| ==> r[i] == fields[i].name
  {
    seq(|fields|, i requires 0 <= i < |fields| => fields[i].name)
  }

  /** The values of a record, in the same iteration order (`_.values`). */
  function ValuesOf(fields: seq<Field>): (r: seq<Value>)
    ensures |r| == |fields|
    ensures forall i :: 0 <= i < |fields| ==> r[i] == fields[i].value
  {
    seq(|fields|, i requires 0 <= i < |fields| => fields[i].value)
  }

  /**
    The fields of a value that is a keyed structure: the entries of a map or
    object, the members of a struct; no fields otherwise.
   */
  function FieldsOf(v: Value): seq<Field> {
    if v.Object? then v.fields else if v.Struct? then v.members else []
  }

  /** Property access `obj[key]`: the first field with that name, null when absent. */
  function Lookup(fields: seq<Field>, key: string): (r: Value)
    ensures r != Null ==> exists i :: 0 <= i < |fields| && fields[i].name == key && fields[i].value == r
  {
    if fields == [] then Null
    else if fields[0].name == key then fields[0].value
    else Lookup(fields[1..], key)
  }

  /** No key occurs twice (true of every JavaScript object and Go map). */
  predicate DistinctKeys(fields: seq<Field>) {
    forall i, j :: 0 <= i < j < |fields| ==> fields[i].name != fields[j].name
  }

  /**
    Looking up the i-th key of a record with distinct keys finds the i-th
    value: key order and value order describe the same fields.
   */
  lemma {:induction false} LookupAtKey(fields: seq<Field>, i: nat)
    requires DistinctKeys(fields)
    requires i < |fields|
    ensures Lookup(fields, Keys(fields)[i]) == ValuesOf(fields)[i]
  {
    if i > 0 {
      assert fields[0].name != fields[i].name;
      assert DistinctKeys(fields[1..]);
      LookupAtKey(fields[1..], i - 1);
      assert Keys(fields[1..])[i - 1] == fields[i].name;
    }
  }

  /**
    What one operation did: the statements it sent, in order, and the
    (item, error) pair it returns (a `Null` item is nil).
   */
  datatype Outcome = Outcome(issued: seq<Statement>, item: Value, err: Option<Error>)

  /**
    The conversion hooks between the public form of an item and the row
    stored in the table. In the base engine all three are the identity.
   */
  datatype Hooks = Hooks(toPublic: Value -> Value, fromPublic: Value -> Value, fromPublicPartial: Value -> Value)

  /** node-pg's answer to a query: an error, or the returned rows as objects. */
  datatype ResultSet = QueryFailed(error: Error) | RowSet(rows: seq<seq<Field>>)

  /** The node-pg client of the base engine: what the database answers to each statement. */
  type PgClient = Statement -> ResultSet

  /** One row of a pgx cursor: `Values()` either decodes the row or fails. */
  datatype RowRead = Decoded(columns: seq<Field>) | Undecodable(error: Error)

  /** pgx's answer to a query: an error, or a cursor over the rows. */
  datatype CursorResult = CursorFailed(error: Error) | Cursor(rows: seq<RowRead>)

  /** The pgx client of the Go variants. */
  type PgxClient = Statement -> CursorResult
}
