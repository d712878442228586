/**
  The base persistence engine (the TypeScript reference kept in
  persistence/PostgresPersistence.go): a component bound to one table that
  queues "create if missing" DDL, opens and closes over a connection
  component, provisions the schema on open, and composes the SQL of its
  read and write operations. The database is the node-pg client, a function
  from a statement to the rows or error it answers.
 */
module Engine {
  import opened Values
  import opened Fragments

  /** The default of `options.max_page_size`. */
  const DefaultMaxPageSize := 100

  /**
    The connection component, an external collaborator: it owns the pool,
    reports whether it is open, and hands out the client and database name.
    What its own open and close answer comes in as `outcome`.
   */
  class Connection {
    var isOpen: bool
    const client: PgClient
    const databaseName: string

    constructor (client: PgClient, databaseName: string, isOpen: bool)
      ensures this.client == client && this.databaseName == databaseName && this.isOpen == isOpen
    {
      this.client := client;
      this.databaseName := databaseName;
      this.isOpen := isOpen;
    }

    method Open(outcome: Option<Error>) returns (err: Option<Error>)
      modifies this
      ensures err == outcome
      ensures isOpen == (old(isOpen) || outcome.None?)
    {
      err := outcome;
      if outcome.None? {
        isOpen := true;
      }
    }

    method Close(outcome: Option<Error>) returns (err: Option<Error>)
      modifies this
      ensures err == outcome && !isOpen
    {
      err := outcome;
      isOpen := false;
    }
  }

  // ---------------------------------------------------------------------
  // Index DDL

  /** `ensureIndex` options; an absent options object reads as `NoIndexOptions`. */
  datatype IndexOptions = IndexOptions(unique: Value, indexType: string)

  const NoIndexOptions := IndexOptions(Null, "")

  /** One index key: its quoted name, with ` DESC` when its flag is falsy. */
  function IndexKey(key: Field): string {
    QuoteIdentifier(key.name) + (if Truthy(key.value) then "" else " DESC")
  }

  function IndexKeyList(keys: seq<Field>): (r: seq<string>)
    ensures |r| == |keys|
  {
    seq(|keys|, i requires 0 <= i < |keys| => IndexKey(keys[i]))
  }

  /** The options of a call: an absent options object reads as `NoIndexOptions`. */
  function OptionsOf(options: Option<IndexOptions>): IndexOptions {
    if options.Some? then options.value else NoIndexOptions
  }

  /** The statement up to its key list: uniqueness, name, quoted table and index method. */
  function IndexHead(table: string, name: string, o: IndexOptions): string {
    var created := if Truthy(o.unique) then "CREATE" + " UNIQUE" else "CREATE";
    var onTable := created + " INDEX IF NOT EXISTS " + name + " ON " + QuoteIdentifier(table);
    if o.indexType != "" then onTable + " " + o.indexType else onTable
  }

  /** The `CREATE[ UNIQUE] INDEX IF NOT EXISTS` statement `ensureIndex` queues. */
  function IndexStatement(table: string, name: string, keys: seq<Field>, options: Option<IndexOptions>): string {
    IndexHead(table, name, OptionsOf(options)) + "(" + Fold(IndexKeyList(keys), ", ") + ")"
  }

  /**
    The key list of an index statement is the comma-space separated list of
    its quoted keys, one per key, each marked descending exactly when its
    flag is falsy.
   */
  lemma IndexKeysJoined(table: string, name: string, keys: seq<Field>, options: Option<IndexOptions>)
    requires forall k :: 0 <= k < |keys| ==> keys[k].name != ""
    ensures IndexStatement(table, name, keys, options)
      == IndexHead(table, name, OptionsOf(options)) + "(" + Join(IndexKeyList(keys), ", ") + ")"
    ensures forall k :: 0 <= k < |keys| ==>
      (IndexKeyList(keys)[k] == QuoteIdentifier(keys[k].name) + " DESC" <==> !Truthy(keys[k].value))
  {
    assert NoneEmpty(IndexKeyList(keys)) by {
      forall k | 0 <= k < |keys| ensures IndexKeyList(keys)[k] != "" {
        assert |IndexKeyList(keys)[k]| >= |QuoteIdentifier(keys[k].name)|;
      }
    }
    FoldIsJoin(IndexKeyList(keys), ", ");
    forall k | 0 <= k < |keys| ensures
      (IndexKeyList(keys)[k] == QuoteIdentifier(keys[k].name) + " DESC" <==> !Truthy(keys[k].value))
    {
      var q := QuoteIdentifier(keys[k].name);
      if Truthy(keys[k].value) {
        assert |IndexKeyList(keys)[k]| == |q| < |q + " DESC"|;
      }
    }
  }

  /** The head of an index statement begins `CREATE UNIQUE` or `CREATE INDEX`, after the `unique` option. */
  lemma HeadStart(table: string, name: string, o: IndexOptions)
    ensures StartsWith(IndexHead(table, name, o), if Truthy(o.unique) then "CREATE UNIQUE" else "CREATE INDEX")
  {
    var created := if Truthy(o.unique) then "CREATE" + " UNIQUE" else "CREATE";
    var p := if Truthy(o.unique) then "CREATE UNIQUE" else "CREATE INDEX";
    var s0 := created + " INDEX IF NOT EXISTS ";
    assert StartsWith(s0, p);
    StartsWithAppend(s0, name, p);
    StartsWithAppend(s0 + name, " ON ", p);
    var onTable := s0 + name + " ON " + QuoteIdentifier(table);
    StartsWithAppend(s0 + name + " ON ", QuoteIdentifier(table), p);
    if o.indexType != "" {
      StartsWithAppend(onTable, " ", p);
      StartsWithAppend(onTable + " ", o.indexType, p);
    }
  }

  /** The whole statement begins as its head does. */
  lemma StatementStart(table: string, name: string, keys: seq<Field>, options: Option<IndexOptions>)
    ensures var o := OptionsOf(options);
      StartsWith(IndexStatement(table, name, keys, options), if Truthy(o.unique) then "CREATE UNIQUE" else "CREATE INDEX")
  {
    var o := OptionsOf(options);
    var p := if Truthy(o.unique) then "CREATE UNIQUE" else "CREATE INDEX";
    var head := IndexHead(table, name, o);
    HeadStart(table, name, o);
    var fields := Fold(IndexKeyList(keys), ", ");
    StartsWithAppend(head, "(", p);
    StartsWithAppend(head + "(", fields, p);
    StartsWithAppend(head + "(" + fields, ")", p);
  }

  /** The statement is a unique index exactly when the `unique` option is truthy. */
  lemma IndexUniqueness(table: string, name: string, keys: seq<Field>, options: Option<IndexOptions>)
    ensures StartsWith(IndexStatement(table, name, keys, options), "CREATE UNIQUE") <==> Truthy(OptionsOf(options).unique)
  {
    StatementStart(table, name, keys, options);
    if !Truthy(OptionsOf(options).unique) {
      IndexIsNotUnique(IndexStatement(table, name, keys, options));
    }
  }

  /** The two heads exclude each other. */
  lemma IndexIsNotUnique(s: string)
    requires StartsWith(s, "CREATE INDEX")
    ensures !StartsWith(s, "CREATE UNIQUE")
  {
    assert s[7] == s[..12][7] == 'I';
  }

  /** Only a falsy flag means descending: the conventional `-1` still gives an ascending key. */
  lemma MinusOneIsAscending(name: string)
    ensures IndexKey(Field(name, Num(-1))) == QuoteIdentifier(name)
    ensures IndexKey(Field(name, Num(0))) == QuoteIdentifier(name) + " DESC"
  {
  }

  // ---------------------------------------------------------------------
  // Schema provisioning

  /** The existence probe; the table name is put between single quotes as it is. */
  function ProbeStatement(table: string): Statement {
    Statement("SELECT to_regclass('" + table + "')", [])
  }

  /** The probe found the table: a first row whose `to_regclass` is not null. */
  predicate TableExists(rows: seq<seq<Field>>) {
    |rows| > 0 && Lookup(rows[0], "to_regclass") != Null
  }

  function DdlStatement(dml: string): Statement {
    Statement(dml, [])
  }

  /**
    `async.eachSeries` over the queued statements: run them in order and stop
    at the first that fails, passing its error on. Gives the error and the
    statements sent.
   */
  function RunSeries(client: PgClient, dmls: seq<string>): (Option<Error>, seq<Statement>)
  {
    if dmls == [] then (None, [])
    else
      var s := DdlStatement(dmls[0]);
      match client(s)
      case QueryFailed(e) => (Some(e), [s])
      case RowSet(_) =>
        var rest := RunSeries(client, dmls[1..]);
        (rest.0, [s] + rest.1)
  }

  /** `autoCreateObjects`: nothing without queued objects, else probe, then the series if the table is absent. */
  function AutoCreateRun(client: PgClient, table: string, objects: seq<string>): (Option<Error>, seq<Statement>)
  {
    if objects == [] then (None, [])
    else
      var probe := ProbeStatement(table);
      match client(probe)
      case QueryFailed(e) => (Some(e), [probe])
      case RowSet(rows) =>
        if TableExists(rows) then (None, [probe])
        else
          var run := RunSeries(client, objects);
          (run.0, [probe] + run.1)
  }

  /**
    The series sends the queued statements in registration order and stops
    exactly at the first failure: on success every statement was sent and
    none failed; on failure the last one sent is the one that failed, with
    that error, and every earlier one succeeded.
   */
  lemma {:induction false} SeriesInOrder(client: PgClient, dmls: seq<string>)
    ensures var (e, ran) := RunSeries(client, dmls);
      && |ran| <= |dmls|
      && (forall k :: 0 <= k < |ran| ==> ran[k] == DdlStatement(dmls[k]))
      && (forall k :: 0 <= k < |ran| - 1 ==> client(ran[k]).RowSet?)
      && (e.None? ==> |ran| == |dmls| && forall k :: 0 <= k < |ran| ==> client(ran[k]).RowSet?)
      && (e.Some? ==> |ran| > 0 && client(ran[|ran| - 1]) == QueryFailed(e.value))
  {
    if dmls != [] {
      SeriesInOrder(client, dmls[1..]);
      var s := DdlStatement(dmls[0]);
      if client(s).RowSet? {
        var rest := RunSeries(client, dmls[1..]);
        assert RunSeries(client, dmls) == (rest.0, [s] + rest.1);
      }
    }
  }

  /**
    Provisioning sends no query when nothing is queued, sends only the probe
    when the table already exists, and otherwise sends the probe followed by
    the queued statements in order up to the first that fails.
   */
  lemma Provisioning(client: PgClient, table: string, objects: seq<string>)
    ensures var (e, issued) := AutoCreateRun(client, table, objects);
      && (objects == [] ==> issued == [] && e == None)
      && (objects != [] ==> |issued| > 0 && issued[0] == ProbeStatement(table))
      && (objects != [] && client(ProbeStatement(table)).QueryFailed? ==>
            issued == [ProbeStatement(table)] && e == Some(client(ProbeStatement(table)).error))
      && (objects != [] && client(ProbeStatement(table)).RowSet? && TableExists(client(ProbeStatement(table)).rows) ==>
            issued == [ProbeStatement(table)] && e == None)
      && (objects != [] && client(ProbeStatement(table)).RowSet? && !TableExists(client(ProbeStatement(table)).rows) ==>
            issued == [ProbeStatement(table)] + RunSeries(client, objects).1 && e == RunSeries(client, objects).0)
  {
  }

  /**
    `async.eachSeries` over the queued statements: the loop sends them one
    by one and stops at the first failure.
   */
  method EachSeries(client: PgClient, dmls: seq<string>) returns (err: Option<Error>, issued: seq<Statement>)
    ensures (err, issued) == RunSeries(client, dmls)
  {
    issued := [];
    var i := 0;
    assert dmls[0..] == dmls;
    while i < |dmls|
      invariant 0 <= i <= |dmls|
      invariant RunSeries(client, dmls).0 == RunSeries(client, dmls[i..]).0
      invariant RunSeries(client, dmls).1 == issued + RunSeries(client, dmls[i..]).1
    {
      var s := DdlStatement(dmls[i]);
      SeriesUnfold(client, dmls, i);
      var r := client(s);
      if r.QueryFailed? {
        return Some(r.error), issued + [s];
      }
      assert issued + ([s] + RunSeries(client, dmls[i + 1..]).1) == (issued + [s]) + RunSeries(client, dmls[i + 1..]).1;
      issued := issued + [s];
      i := i + 1;
    }
    assert dmls[i..] == [] && RunSeries(client, []) == (None, []);
    assert issued + [] == issued;
    err := None;
  }

  /** One step of the series, starting at position `i`. */
  lemma SeriesUnfold(client: PgClient, dmls: seq<string>, i: nat)
    requires i < |dmls|
    ensures var s := DdlStatement(dmls[i]);
      client(s).QueryFailed? ==> RunSeries(client, dmls[i..]) == (Some(client(s).error), [s])
    ensures var s := DdlStatement(dmls[i]);
      client(s).RowSet? ==>
        RunSeries(client, dmls[i..]).0 == RunSeries(client, dmls[i + 1..]).0
        && RunSeries(client, dmls[i..]).1 == [s] + RunSeries(client, dmls[i + 1..]).1
  {
    assert dmls[i..][0] == dmls[i] && dmls[i..][1..] == dmls[i + 1..];
  }

  // ---------------------------------------------------------------------
  // The component

  class PostgresPersistence {
    var tableName: string
    var maxPageSize: int
    var autoObjects: seq<string>
    var isOpened: bool
    var connection: Connection?
    var localConnection: bool
    var client: Option<PgClient>
    var databaseName: string
    /** Every statement this component has sent over its client while opening. */
    ghost var sent: seq<Statement>

    /**
      A new component knows only its table name; its connection comes later,
      from `SetReferences` or from `Open`.
     */
    constructor (tableName: string)
      ensures this.tableName == tableName && maxPageSize == DefaultMaxPageSize
      ensures autoObjects == [] && !isOpened && client == None && sent == []
      ensures connection == null && !localConnection && databaseName == ""
    {
      this.tableName := tableName;
      maxPageSize := DefaultMaxPageSize;
      autoObjects := [];
      isOpened := false;
      connection := null;
      localConnection := false;
      client := None;
      databaseName := "";
      sent := [];
    }

    /**
      `configure`: the `collection` key, then the `table` key, override the
      table name, an absent key keeping the current name. The configuration
      is first completed with the defaults, whose `options.max_page_size` is
      100, so an absent page size sets it back to 100.
     */
    method Configure(collection: Option<string>, table: Option<string>, maxPageSizeOption: Option<int>)
      modifies this
      ensures tableName == (if table.Some? then table.value else if collection.Some? then collection.value else old(tableName))
      ensures maxPageSize == (if maxPageSizeOption.Some? then maxPageSizeOption.value else DefaultMaxPageSize)
      ensures autoObjects == old(autoObjects) && isOpened == old(isOpened) && connection == old(connection)
      ensures localConnection == old(localConnection) && client == old(client) && sent == old(sent)
      ensures databaseName == old(databaseName)
    {
      if collection.Some? {
        tableName := collection.value;
      }
      if table.Some? {
        tableName := table.value;
      }
      maxPageSize := DefaultMaxPageSize;
      if maxPageSizeOption.Some? {
        maxPageSize := maxPageSizeOption.value;
      }
    }

    /**
      `setReferences`: a connection found among the references is used as
      external; otherwise `created` becomes a local one.
     */
    method SetReferences(found: Connection?, created: Connection)
      modifies this
      ensures connection == (if found != null then found else created)
      ensures localConnection == (found == null)
      ensures tableName == old(tableName) && autoObjects == old(autoObjects) && isOpened == old(isOpened)
      ensures client == old(client) && sent == old(sent)
      ensures maxPageSize == old(maxPageSize) && databaseName == old(databaseName)
    {
      if found == null {
        connection := created;
        localConnection := true;
      } else {
        connection := found;
        localConnection := false;
      }
    }

    method UnsetReferences()
      modifies this
      ensures connection == null
      ensures tableName == old(tableName) && autoObjects == old(autoObjects) && isOpened == old(isOpened)
      ensures localConnection == old(localConnection) && client == old(client) && sent == old(sent)
      ensures maxPageSize == old(maxPageSize) && databaseName == old(databaseName)
    {
      connection := null;
    }

    /** `autoCreateObject`: queue one statement after those already queued. */
    method AutoCreateObject(dmlStatement: string)
      modifies this
      ensures autoObjects == old(autoObjects) + [dmlStatement]
      ensures tableName == old(tableName) && isOpened == old(isOpened) && connection == old(connection)
      ensures localConnection == old(localConnection) && client == old(client) && sent == old(sent)
      ensures maxPageSize == old(maxPageSize) && databaseName == old(databaseName)
    {
      autoObjects := autoObjects + [dmlStatement];
    }

    /** `ensureIndex`: build the index statement key by key and queue it. */
    method EnsureIndex(name: string, keys: seq<Field>, options: Option<IndexOptions>)
      modifies this
      ensures autoObjects == old(autoObjects) + [IndexStatement(tableName, name, keys, options)]
      ensures tableName == old(tableName) && isOpened == old(isOpened) && connection == old(connection)
      ensures localConnection == old(localConnection) && client == old(client) && sent == old(sent)
      ensures maxPageSize == old(maxPageSize) && databaseName == old(databaseName)
    {
      var o := OptionsOf(options);
      var builder := "CREATE";
      if Truthy(o.unique) {
        builder := builder + " UNIQUE";
      }
      builder := builder + " INDEX IF NOT EXISTS " + name + " ON " + QuoteIdentifier(tableName);
      if o.indexType != "" {
        builder := builder + " " + o.indexType;
      }
      assert builder == IndexHead(tableName, name, o);
      var fields := "";
      for i := 0 to |keys|
        invariant fields == Fold(IndexKeyList(keys)[..i], ", ")
        invariant unchanged(this)
      {
        FoldStep(IndexKeyList(keys), ", ", i);
        var piece := QuoteIdentifier(keys[i].name);
        if !Truthy(keys[i].value) {
          piece := piece + " DESC";
        }
        assert piece == IndexKeyList(keys)[i];
        if fields != "" {
          fields := fields + ", ";
        }
        fields := fields + piece;
      }
      assert IndexKeyList(keys)[..|keys|] == IndexKeyList(keys);
      builder := builder + "(" + fields + ")";
      AutoCreateObject(builder);
    }

    /**
      `autoCreateObjects` over the given client: the error it reports and the
      statements it sends are those of `AutoCreateRun`.
     */
    method AutoCreateObjects(client: PgClient) returns (err: Option<Error>, issued: seq<Statement>)
      ensures (err, issued) == AutoCreateRun(client, tableName, autoObjects)
    {
      if autoObjects == [] {
        return None, [];
      }
      var probe := ProbeStatement(tableName);
      var result := client(probe);
      if result.QueryFailed? {
        return Some(result.error), [probe];
      }
      if TableExists(result.rows) {
        return None, [probe];
      }
      var ran;
      err, ran := EachSeries(client, autoObjects);
      issued := [probe] + ran;
    }
    /**
      `open`. Already open: nothing happens. Otherwise the connection (the
      given `created` one, made local, when none is bound) is opened when it
      is local, with `outcome` as its answer; a connection that does not then
      report open fails with CONNECT_FAILED. Past that, the client and
      database name are taken from the connection and the schema is
      provisioned; the component is open exactly when provisioning succeeds.
     */
    method Open(created: Connection, outcome: Option<Error>) returns (err: Option<Error>)
      modifies this, connection, created
      ensures old(isOpened) ==> err == None && isOpened && connection == old(connection) && client == old(client)
      ensures old(isOpened) ==> sent == old(sent) && autoObjects == old(autoObjects) && localConnection == old(localConnection)
      ensures old(isOpened) ==> databaseName == old(databaseName) && unchanged(created)
      ensures old(isOpened) && old(connection) != null ==> unchanged(old(connection))
      ensures old(connection) != null && created != old(connection) ==> unchanged(created)
      ensures !old(isOpened) && old(connection) != null && !old(localConnection) ==> unchanged(old(connection))
      ensures !old(isOpened) ==> connection != null
      ensures !old(isOpened) && localConnection && outcome.None? ==> connection.isOpen
      ensures maxPageSize == old(maxPageSize) && tableName == old(tableName) && autoObjects == old(autoObjects)
      ensures !old(isOpened) ==>
        && connection == (if old(connection) == null then created else old(connection))
        && localConnection == (old(connection) == null || old(localConnection))
        && tableName == old(tableName) && autoObjects == old(autoObjects)
      ensures !old(isOpened) && localConnection && outcome.Some? ==>
        err == outcome && !isOpened && client == old(client) && sent == old(sent) && databaseName == old(databaseName)
      ensures !old(isOpened) && (!localConnection || outcome.None?) && !connection.isOpen ==>
        err == Some(ConnectionError("CONNECT_FAILED", None)) && !isOpened && client == old(client) && sent == old(sent)
        && databaseName == old(databaseName)
      ensures !old(isOpened) && (!localConnection || outcome.None?) && connection.isOpen ==>
        var run := AutoCreateRun(connection.client, tableName, autoObjects);
        && client == Some(connection.client)
        && databaseName == connection.databaseName
        && sent == old(sent) + run.1
        && isOpened == run.0.None?
        && err == (if run.0.Some? then Some(ConnectionError("CONNECT_FAILED", run.0)) else None)
    {
      if isOpened {
        return None;
      }
      if connection == null {
        connection := created;
        localConnection := true;
      }
      var e: Option<Error> := None;
      if localConnection {
        e := connection.Open(outcome);
      }
      if e.None? && connection == null {
        e := Some(InvalidStateError("NO_CONNECTION"));
      }
      if e.None? && !connection.isOpen {
        e := Some(ConnectionError("CONNECT_FAILED", None));
      }
      isOpened := false;
      if e.Some? {
        return e;
      }
      client := Some(connection.client);
      databaseName := connection.databaseName;
      var pe, issued := AutoCreateObjects(connection.client);
      sent := sent + issued;
      if pe.Some? {
        // The source's `this._client == null;` is a comparison, so the client is kept.
        err := Some(ConnectionError("CONNECT_FAILED", pe));
      } else {
        isOpened := true;
        err := None;
      }
    }

    /**
      `close`. Closed: nothing happens. No connection: NO_CONNECTION and the
      state stays as it is. Otherwise a local connection is closed with
      `outcome` as its answer, and whatever that answer the component ends
      closed without a client, reporting the answer.
     */
    method Close(outcome: Option<Error>) returns (err: Option<Error>)
      modifies this, connection
      ensures !old(isOpened) ==> err == None && !isOpened && client == old(client)
      ensures old(isOpened) && connection == null ==>
        err == Some(InvalidStateError("NO_CONNECTION")) && isOpened && client == old(client)
      ensures old(isOpened) && connection != null ==>
        && err == (if localConnection then outcome else None)
        && !isOpened && client == None
        && (localConnection ==> !connection.isOpen)
      ensures connection == old(connection) && localConnection == old(localConnection)
      ensures tableName == old(tableName) && autoObjects == old(autoObjects) && sent == old(sent)
      ensures maxPageSize == old(maxPageSize) && databaseName == old(databaseName)
      ensures connection != null && (!old(isOpened) || !localConnection) ==> unchanged(connection)
    {
      if !isOpened {
        return None;
      }
      if connection == null {
        return Some(InvalidStateError("NO_CONNECTION"));
      }
      err := None;
      if localConnection {
        err := connection.Close(outcome);
      }
      isOpened := false;
      client := None;
    }
  }

  // ---------------------------------------------------------------------
  // Queries

  /** `PagingParams`: optional skip and take, and whether the total is wanted. */
  datatype PagingParams = PagingParams(skip: Option<int>, take: Option<int>, total: bool)

  /** `paging.getSkip(-1)`. */
  function SkipOf(paging: PagingParams): int {
    if paging.skip.Some? then paging.skip.value else -1
  }

  /** `paging.getTake(maxPageSize)`. */
  function TakeOf(paging: PagingParams, maxPageSize: int): int {
    if paging.take.Some? then paging.take.value else maxPageSize
  }

  /** The clause of the filter (empty for an empty or null filter). */
  function WhereClause(filter: string): string {
    if filter != "" then " WHERE " + filter else ""
  }

  function OrderClause(sort: string): string {
    if sort != "" then " ORDER BY " + sort else ""
  }

  /** The projection: the given one, or `*` when it is empty. */
  function Projection(select: string): string {
    if select != "" then select else "*"
  }

  /** `getListByFilter`'s query: projection, quoted table, filter, then ordering. */
  function ListQuery(table: string, filter: string, sort: string, select: string): string {
    "SELECT " + Projection(select) + " FROM " + QuoteIdentifier(table) + WhereClause(filter) + OrderClause(sort)
  }

  /** The rows a page skips: an OFFSET only for a non-negative skip. */
  function OffsetClause(skip: int): string {
    if skip >= 0 then " OFFSET " + IntText(skip) else ""
  }

  function LimitClause(take: int): string {
    " LIMIT " + IntText(take)
  }

  /** `getPageByFilter`'s query: the list query followed by the window, always with a LIMIT. */
  function PageQuery(table: string, filter: string, skip: int, take: int, sort: string, select: string): string {
    ListQuery(table, filter, sort, select) + OffsetClause(skip) + LimitClause(take)
  }

  /** `getCountByFilter`'s query, also the count query of a page and of a random pick. */
  function CountQuery(table: string, filter: string): string {
    "SELECT COUNT(*) AS count FROM " + QuoteIdentifier(table) + WhereClause(filter)
  }

  /** The second query of `getOneRandom`, for the position `pos`. */
  function RandomPickQuery(table: string, filter: string, pos: int): string {
    "SELECT * FROM " + QuoteIdentifier(table) + WhereClause(filter) + " OFFSET " + IntText(pos) + " LIMIT 1"
  }

  /** `deleteByFilter`'s statement. */
  function DeleteByFilterQuery(table: string, filter: string): string {
    "DELETE FROM " + QuoteIdentifier(table) + WhereClause(filter)
  }

  /** `clear`: a table must be named; then an unconditional delete. */
  function ClearQuery(table: Option<string>): (r: Result<string>)
    ensures r.Failure? <==> table.None?
    ensures r.Success? ==> r.value == DeleteByFilterQuery(table.value, "")
  {
    if table.None? then Failure(PlainError("Table name is not defined"))
    else Success("DELETE FROM " + QuoteIdentifier(table.value))
  }

  /**
    A page asks for at most `take` rows: its query ends with that LIMIT; it
    skips `skip` rows when `skip` is non-negative, and is the bare list
    query with the LIMIT otherwise.
   */
  lemma PageWindow(table: string, filter: string, skip: int, take: int, sort: string, select: string)
    ensures EndsWith(PageQuery(table, filter, skip, take, sort, select), LimitClause(take))
    ensures skip >= 0 ==> EndsWith(PageQuery(table, filter, skip, take, sort, select),
                                   " OFFSET " + IntText(skip) + LimitClause(take))
    ensures skip < 0 ==> PageQuery(table, filter, skip, take, sort, select)
                         == ListQuery(table, filter, sort, select) + LimitClause(take)
  {
    var list := ListQuery(table, filter, sort, select);
    var limit := LimitClause(take);
    var offset := OffsetClause(skip);
    SeqAssoc(list, offset, limit);
    assert EndsWith(offset + limit, limit) by {
      assert (offset + limit)[|offset + limit| - |limit|..] == limit;
    }
    EndsWithAppend(list, offset + limit, limit);
    if skip >= 0 {
      assert EndsWith(offset + limit, offset + limit) by {
        assert (offset + limit)[0..] == offset + limit;
      }
      EndsWithAppend(list, offset + limit, offset + limit);
    } else {
      assert list + offset == list;
    }
  }

  lemma LimitOne()
    ensures LimitClause(1) == " LIMIT 1"
  {
    assert IntText(1) == "1" by {
      assert DigitChar(1) == '1';
    }
  }

  /** With no projection and no sort, the list query selects every column, unordered. */
  lemma UnsortedList(table: string, filter: string)
    ensures ListQuery(table, filter, "", "") == "SELECT * FROM " + QuoteIdentifier(table) + WhereClause(filter)
  {
    assert "SELECT " + Projection("") + " FROM " == "SELECT * FROM ";
    assert OrderClause("") == "";
  }

  /** The random pick is the one-row page at offset `pos` of the unsorted table with the same filter. */
  lemma RandomPickIsOneRowPage(table: string, filter: string, pos: int)
    requires pos >= 0
    ensures RandomPickQuery(table, filter, pos) == PageQuery(table, filter, pos, 1, "", "")
  {
    var head := "SELECT * FROM " + QuoteIdentifier(table) + WhereClause(filter);
    LimitOne();
    UnsortedList(table, filter);
    SeqAssoc(head, " OFFSET ", IntText(pos));
  }

  /** Deleting with no filter is clearing the table. */
  lemma DeleteWithoutFilterIsClear(table: string)
    ensures ClearQuery(Some(table)) == Success(DeleteByFilterQuery(table, ""))
  {
  }

  /** A page: its items and, when asked for, the total count. */
  datatype DataPage = DataPage(data: seq<Value>, total: Option<int>)

  /** What a read sent, in order, and the (result, error) pair it returns. */
  datatype Reply<+T> = Reply(issued: seq<Statement>, value: Option<T>, err: Option<Error>)

  /** The count a count query answers: the `count` of its only row, else 0. */
  function CountOf(rows: seq<seq<Field>>, toLong: Value -> int): int {
    if |rows| == 1 then toLong(Lookup(rows[0], "count")) else 0
  }

  function PublicItems(rows: seq<seq<Field>>, toPublic: Value -> Value): (r: seq<Value>)
    ensures |r| == |rows|
    ensures forall k :: 0 <= k < |rows| ==> r[k] == toPublic(Object(rows[k]))
  {
    seq(|rows|, k requires 0 <= k < |rows| => toPublic(Object(rows[k])))
  }

  /**
    `getPageByFilter`: the page query first; when it succeeds and the total
    is wanted, the count query with the same filter next. A missing paging
    object reads as one with nothing set.
   */
  function GetPageByFilter(client: PgClient, table: string, maxPageSize: int, filter: string,
                           paging: Option<PagingParams>, sort: string, select: string,
                           hooks: Hooks, toLong: Value -> int): (r: Reply<DataPage>)
    ensures var p := if paging.Some? then paging.value else PagingParams(None, None, false);
      && |r.issued| > 0
      && r.issued[0] == Statement(PageQuery(table, filter, SkipOf(p), TakeOf(p, maxPageSize), sort, select), [])
      && (|r.issued| == 2 <==> p.total && client(r.issued[0]).RowSet?)
      && |r.issued| <= 2
      && (|r.issued| == 2 ==> r.issued[1] == Statement(CountQuery(table, filter), []))
      && (r.value.Some? <==> r.err.None?)
      && (r.err.Some? ==> client(r.issued[|r.issued| - 1]) == QueryFailed(r.err.value))
      && (r.value.Some? ==> client(r.issued[0]).RowSet?)
      && (r.value.Some? ==> r.value.value.data == PublicItems(client(r.issued[0]).rows, hooks.toPublic))
      && (r.value.Some? ==> (r.value.value.total.Some? <==> p.total))
      && (r.value.Some? && p.total ==> client(r.issued[1]).RowSet? && r.value.value.total == Some(CountOf(client(r.issued[1]).rows, toLong)))
      && (p.take.None? ==> r.issued[0].text == PageQuery(table, filter, SkipOf(p), maxPageSize, sort, select))
  {
    var p := if paging.Some? then paging.value else PagingParams(None, None, false);
    var pageStmt := Statement(PageQuery(table, filter, SkipOf(p), TakeOf(p, maxPageSize), sort, select), []);
    match client(pageStmt)
    case QueryFailed(e) => Reply([pageStmt], None, Some(e))
    case RowSet(rows) =>
      var items := PublicItems(rows, hooks.toPublic);
      if p.total then
        var countStmt := Statement(CountQuery(table, filter), []);
        match client(countStmt)
        case QueryFailed(e) => Reply([pageStmt, countStmt], None, Some(e))
        case RowSet(countRows) => Reply([pageStmt, countStmt], Some(DataPage(items, Some(CountOf(countRows, toLong)))), None)
      else Reply([pageStmt], Some(DataPage(items, None)), None)
  }

  /** `getListByFilter`: one query; its rows, converted to the public form. */
  function GetListByFilter(client: PgClient, table: string, filter: string, sort: string, select: string,
                           hooks: Hooks): (r: Reply<seq<Value>>)
    ensures r.issued == [Statement(ListQuery(table, filter, sort, select), [])]
    ensures r.err.Some? <==> client(r.issued[0]).QueryFailed?
    ensures r.err.Some? ==> r.value == None && r.err == Some(client(r.issued[0]).error)
    ensures r.err.None? ==> r.value == Some(PublicItems(client(r.issued[0]).rows, hooks.toPublic))
  {
    var stmt := Statement(ListQuery(table, filter, sort, select), []);
    match client(stmt)
    case QueryFailed(e) => Reply([stmt], None, Some(e))
    case RowSet(rows) => Reply([stmt], Some(PublicItems(rows, hooks.toPublic)), None)
  }

  /** `getCountByFilter`: one count query; the count of its single row, 0 otherwise. */
  function GetCountByFilter(client: PgClient, table: string, filter: string, toLong: Value -> int): (r: Reply<int>)
    ensures r.issued == [Statement(CountQuery(table, filter), [])]
    ensures r.err.Some? <==> client(r.issued[0]).QueryFailed?
    ensures r.err.Some? ==> r.value == None && r.err == Some(client(r.issued[0]).error)
    ensures r.err.None? ==> r.value == Some(CountOf(client(r.issued[0]).rows, toLong))
    ensures r.err.None? && |client(r.issued[0]).rows| != 1 ==> r.value == Some(0)
  {
    var stmt := Statement(CountQuery(table, filter), []);
    match client(stmt)
    case QueryFailed(e) => Reply([stmt], None, Some(e))
    case RowSet(rows) => Reply([stmt], Some(CountOf(rows, toLong)), None)
  }

  /**
    How a callback-style call ends: its callback is called with an outcome,
    or an exception is thrown first and the callback is never called. In
    both cases `issued` is what was sent.
   */
  datatype Ending = Called(outcome: Outcome) | Crashed(issued: seq<Statement>)

  /**
    The second step of `getOneRandom`: the row at offset `pos`, converted to
    the public form (the conversion of null when no row came back). A failed
    query hands its callback an error and no result, and reading `rows` of
    that missing result throws before the callback is reached.
   */
  function PickAt(client: PgClient, table: string, filter: string, hooks: Hooks, pos: int): (r: Ending)
    ensures r.Called? <==> client(Statement(RandomPickQuery(table, filter, pos), [])).RowSet?
    ensures r.Crashed? ==> r.issued == [Statement(RandomPickQuery(table, filter, pos), [])]
    ensures r.Called? ==> r.outcome.issued == [Statement(RandomPickQuery(table, filter, pos), [])] && r.outcome.err == None
    ensures r.Called? && |client(r.outcome.issued[0]).rows| > 0 ==> r.outcome.item == hooks.toPublic(Object(client(r.outcome.issued[0]).rows[0]))
    ensures r.Called? && |client(r.outcome.issued[0]).rows| == 0 ==> r.outcome.item == hooks.toPublic(Null)
  {
    var pick := Statement(RandomPickQuery(table, filter, pos), []);
    match client(pick)
    case QueryFailed(_) => Crashed([pick])
    case RowSet(rows) => Called(Outcome([pick], hooks.toPublic(if |rows| > 0 then Object(rows[0]) else Null), None))
  }

  /** The count `getOneRandom` draws from: the `count` of the only row, else 0. */
  function RandomRange(rows: seq<seq<Field>>, toNumber: Value -> int): int {
    if |rows| == 1 then toNumber(Lookup(rows[0], "count")) else 0
  }

  /**
    `getOneRandom`: count the matching rows, draw a position with `random`
    (lodash's `_.random(0, count - 1)`), then fetch the row at that offset.
   */
  function GetOneRandom(client: PgClient, table: string, filter: string, hooks: Hooks,
                        toNumber: Value -> int, random: (int, int) -> int): (r: Ending)
    ensures var count := Statement(CountQuery(table, filter), []);
      client(count).QueryFailed? ==> r == Called(Outcome([count], Null, Some(client(count).error)))
    ensures var count := Statement(CountQuery(table, filter), []);
      client(count).RowSet? ==>
        var p := PickAt(client, table, filter, hooks, random(0, RandomRange(client(count).rows, toNumber) - 1));
        && (p.Called? ==> r == Called(Outcome([count] + p.outcome.issued, p.outcome.item, None)))
        && (p.Crashed? ==> r == Crashed([count] + p.issued))
  {
    var countStmt := Statement(CountQuery(table, filter), []);
    match client(countStmt)
    case QueryFailed(e) => Called(Outcome([countStmt], Null, Some(e)))
    case RowSet(countRows) =>
      match PickAt(client, table, filter, hooks, random(0, RandomRange(countRows, toNumber) - 1))
      case Called(o) => Called(Outcome([countStmt] + o.issued, o.item, o.err))
      case Crashed(sent) => Crashed([countStmt] + sent)
  }

  /** `deleteByFilter`: one DELETE; its error, if any. */
  function DeleteByFilter(client: PgClient, table: string, filter: string): (r: Reply<bool>)
    ensures r.issued == [Statement(DeleteByFilterQuery(table, filter), [])]
    ensures r.err.Some? <==> client(r.issued[0]).QueryFailed?
    ensures r.err.Some? ==> r.err == Some(client(r.issued[0]).error)
    ensures r.value == None
  {
    var stmt := Statement(DeleteByFilterQuery(table, filter), []);
    Reply([stmt], None, if client(stmt).QueryFailed? then Some(client(stmt).error) else None)
  }

  /**
    `clear`: without a table name nothing is sent and a plain error comes
    back; otherwise the unconditional DELETE, whose failure is reported as
    CONNECT_FAILED with the driver error as its cause.
   */
  function Clear(client: PgClient, table: Option<string>): (r: Reply<bool>)
    ensures table.None? ==> r.issued == [] && r.err == Some(PlainError("Table name is not defined"))
    ensures table.Some? ==> r.issued == [Statement(DeleteByFilterQuery(table.value, ""), [])]
    ensures table.Some? ==> (r.err.Some? <==> client(r.issued[0]).QueryFailed?)
    ensures table.Some? && r.err.Some? ==> r.err == Some(ConnectionError("CONNECT_FAILED", Some(client(r.issued[0]).error)))
    ensures r.value == None
  {
    match ClearQuery(table)
    case Failure(e) => Reply([], None, Some(e))
    case Success(q) =>
      var stmt := Statement(q, []);
      match client(stmt)
      case QueryFailed(e) => Reply([stmt], None, Some(ConnectionError("CONNECT_FAILED", Some(e))))
      case RowSet(_) => Reply([stmt], None, None)
  }

  /** The INSERT of `create` for one row: columns, placeholders and values from the same fields. */
  function InsertStatement(table: string, row: seq<Field>): Statement {
    Statement("INSERT INTO " + QuoteIdentifier(table) + " (" + Fold(ColumnList(Keys(row)), ",")
              + ") VALUES (" + Join(Placeholders(|row|), ",") + ") RETURNING *",
              GenerateValues(row))
  }

  /**
    `create`: a null item gives (null, null) without a query; otherwise the
    converted row is inserted and the single returned row, converted back,
    is the result (null unless exactly one row came back).
   */
  function Create(client: PgClient, table: string, hooks: Hooks, item: Value): (r: Outcome)
    ensures item == Null ==> r == Outcome([], Null, None)
    ensures item != Null ==> r.issued == [InsertStatement(table, FieldsOf(hooks.fromPublic(item)))]
    ensures item != Null ==> (r.err.Some? <==> client(r.issued[0]).QueryFailed?)
    ensures item != Null && client(r.issued[0]).QueryFailed? ==> r.err == Some(client(r.issued[0]).error)
    ensures item != Null && client(r.issued[0]).RowSet? && |client(r.issued[0]).rows| == 1 ==>
      r.item == hooks.toPublic(Object(client(r.issued[0]).rows[0]))
    ensures item != Null && !(client(r.issued[0]).RowSet? && |client(r.issued[0]).rows| == 1) ==> r.item == Null
  {
    if item == Null then Outcome([], Null, None)
    else
      var stmt := InsertStatement(table, FieldsOf(hooks.fromPublic(item)));
      match client(stmt)
      case QueryFailed(e) => Outcome([stmt], Null, Some(e))
      case RowSet(rows) => Outcome([stmt], if |rows| == 1 then hooks.toPublic(Object(rows[0])) else Null, None)
  }

  /**
    The INSERT lines up: with distinct keys there is one placeholder and one
    argument per field, the i-th column of the list is the i-th key, and the
    i-th argument is that key's value. When no key is empty the column part
    of the text is the plain comma-join of that list, so the text names one
    column per value; an empty key would leave a bare comma instead.
   */
  lemma InsertAligned(table: string, row: seq<Field>, i: nat)
    requires DistinctKeys(row) && i < |row|
    ensures |InsertStatement(table, row).args| == |row| == |Placeholders(|row|)| == |ColumnList(Keys(row))|
    ensures InsertStatement(table, row).args[i] == Lookup(row, row[i].name)
    ensures ColumnList(Keys(row))[i] == QuoteIdentifier(row[i].name)
    ensures (forall k :: 0 <= k < |row| ==> row[k].name != "") ==>
      InsertStatement(table, row).text ==
        "INSERT INTO " + QuoteIdentifier(table) + " (" + Join(ColumnList(Keys(row)), ",")
        + ") VALUES (" + Join(Placeholders(|row|), ",") + ") RETURNING *"
  {
    Alignment(row, i);
    if forall k :: 0 <= k < |row| ==> row[k].name != "" {
      ColumnsAreJoined(Keys(row));
    }
  }
}
