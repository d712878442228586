/**
  The connection resolver of the Go port: it checks the configured
  connection entries, merges them field by field into one pgx connection
  configuration, applies the credential, and decides which error wins.
  The URI parser of pgx is a parameter; the two lookups `Resolve` runs in
  goroutines are given as their results.
 */
module Resolver {
  import opened Values

  newtype uint16 = x: int | 0 <= x < 0x1_0000

  /** One configured connection entry; `database` is absent when the key is missing. */
  datatype ConnectionParams = ConnectionParams(uri: string, host: string, port: int, database: Option<string>)

  datatype Credential = Credential(username: string, password: string)

  /** The fields of `pgx.ConnConfig` the resolver reads and writes. */
  datatype Config = Config(host: string, port: uint16, database: string, user: string, password: string)

  /** `&pgx4.ConnConfig{}`. */
  const EmptyConfig := Config("", 0, "", "", "")

  /** pgx's URI parser: a configuration, or the reason the URI is not one. */
  type UriParser = string -> Result<Config>

  /** Go's `uint16(port)`: the port modulo 2^16. */
  function Port16(port: int): (r: uint16)
    ensures 0 <= port < 0x1_0000 ==> r as int == port
    ensures (r as int - port) % 0x1_0000 == 0
  {
    (port % 0x1_0000) as uint16
  }

  // ---------------------------------------------------------------------
  // Validation

  /**
    `validateConnection` reads the database only after the host and port
    checks pass, and then dereferences it without a nil check: such an entry
    must carry the key.
   */
  predicate DerefSafe(c: ConnectionParams) {
    c.uri == "" && c.host != "" && c.port != 0 ==> c.database.Some?
  }

  /**
    `validateConnection`: an entry with a URI is valid; otherwise the host,
    the port and the database are checked in that order, and the first one
    missing gives its code.
   */
  function ValidateConnection(c: ConnectionParams): (r: Option<Error>)
    requires DerefSafe(c)
    ensures r.None? <==> c.uri != "" || (c.host != "" && c.port != 0 && c.database.value != "")
    ensures c.uri == "" && c.host == "" ==> r == Some(ConfigError("NO_HOST"))
    ensures c.uri == "" && c.host != "" && c.port == 0 ==> r == Some(ConfigError("NO_PORT"))
    ensures c.uri == "" && c.host != "" && c.port != 0 && c.database.value == "" ==> r == Some(ConfigError("NO_DATABASE"))
    ensures r.Some? ==> r.value.ConfigError?
  {
    if c.uri != "" then None
    else if c.host == "" then Some(ConfigError("NO_HOST"))
    else if c.port == 0 then Some(ConfigError("NO_PORT"))
    else if c.database.value == "" then Some(ConfigError("NO_DATABASE"))
    else None
  }

  /** Every entry the validation loop reaches may be validated: it stops at the first error. */
  predicate ValidatesSafely(conns: seq<ConnectionParams>)
    decreases |conns|
  {
    conns == [] || (DerefSafe(conns[0]) && (ValidateConnection(conns[0]).None? ==> ValidatesSafely(conns[1..])))
  }

  /** The error of the first invalid entry, in list order. */
  function FirstError(conns: seq<ConnectionParams>): Option<Error>
    requires ValidatesSafely(conns)
    decreases |conns|
  {
    if conns == [] then None
    else if ValidateConnection(conns[0]).Some? then ValidateConnection(conns[0])
    else FirstError(conns[1..])
  }

  /** The specification of `validateConnections`: no entry at all is NO_CONNECTION. */
  function ValidateAll(conns: seq<ConnectionParams>): Option<Error>
    requires ValidatesSafely(conns)
  {
    if conns == [] then Some(ConfigError("NO_CONNECTION")) else FirstError(conns)
  }

  /**
    The list is valid exactly when it has an entry and every entry is
    valid; otherwise the error is that of the first invalid entry, every
    entry before which is valid.
   */
  lemma {:induction false} FirstErrorIsFirst(conns: seq<ConnectionParams>)
    requires forall i :: 0 <= i < |conns| ==> DerefSafe(conns[i])
    ensures ValidatesSafely(conns)
    ensures FirstError(conns).None? <==> forall i :: 0 <= i < |conns| ==> ValidateConnection(conns[i]).None?
    ensures FirstError(conns).Some? ==>
      (exists i :: 0 <= i < |conns| && FirstError(conns) == ValidateConnection(conns[i]) &&
        forall j :: 0 <= j < i ==> ValidateConnection(conns[j]).None?)
    decreases |conns|
  {
    if conns != [] {
      FirstErrorIsFirst(conns[1..]);
      if ValidateConnection(conns[0]).None? && FirstError(conns[1..]).Some? {
        var i :| 0 <= i < |conns[1..]| && FirstError(conns[1..]) == ValidateConnection(conns[1..][i])
                 && forall j :: 0 <= j < i ==> ValidateConnection(conns[1..][j]).None?;
        assert FirstError(conns) == ValidateConnection(conns[i + 1]);
        forall j | 0 <= j < i + 1 ensures ValidateConnection(conns[j]).None? {
          if j > 0 {
            assert conns[j] == conns[1..][j - 1];
          }
        }
      }
      if FirstError(conns).None? {
        forall i | 0 <= i < |conns| ensures ValidateConnection(conns[i]).None? {
          if i > 0 {
            assert conns[i] == conns[1..][i - 1];
          }
        }
      }
      if forall i :: 0 <= i < |conns| ==> ValidateConnection(conns[i]).None? {
        forall i | 0 <= i < |conns[1..]| ensures ValidateConnection(conns[1..][i]).None? {
          assert conns[1..][i] == conns[i + 1];
        }
      }
    }
  }

  /** `validateConnections`: the loop with an early return at the first invalid entry. */
  method ValidateConnections(conns: seq<ConnectionParams>) returns (err: Option<Error>)
    requires ValidatesSafely(conns)
    ensures err == ValidateAll(conns)
  {
    if |conns| == 0 {
      return Some(ConfigError("NO_CONNECTION"));
    }
    for i := 0 to |conns|
      invariant ValidatesSafely(conns[i..])
      invariant FirstError(conns) == FirstError(conns[i..])
    {
      assert conns[i..][0] == conns[i] && conns[i..][1..] == conns[i + 1..];
      var e := ValidateConnection(conns[i]);
      if e.Some? {
        return e;
      }
    }
    assert conns[|conns|..] == [];
    return None;
  }

  // ---------------------------------------------------------------------
  // Composition

  /** The state of the `composeConfig` loop: the configuration so far and the last parse error. */
  datatype Composed = Composed(config: Config, err: Option<Error>)

  /** One loop step: a URI that parses replaces the configuration, then set fields override it. */
  function Step(state: Composed, c: ConnectionParams, parse: UriParser): Composed {
    var afterUri :=
      if c.uri == "" then state
      else match parse(c.uri)
        case Success(cfg) => Composed(cfg, state.err)
        case Failure(e) => Composed(state.config, Some(e));
    var cfg0 := afterUri.config;
    var cfg1 := if c.host != "" then cfg0.(host := c.host) else cfg0;
    var cfg2 := if c.port != 0 then cfg1.(port := Port16(c.port)) else cfg1;
    var cfg3 := if c.database.Some? && c.database.value != "" then cfg2.(database := c.database.value) else cfg2;
    Composed(cfg3, afterUri.err)
  }

  /** The configuration and error after the loop has run over `conns`. */
  function ComposeConnections(conns: seq<ConnectionParams>, parse: UriParser): Composed
    decreases |conns|
  {
    if conns == [] then Composed(EmptyConfig, None)
    else Step(ComposeConnections(conns[..|conns| - 1], parse), conns[|conns| - 1], parse)
  }

  /** The credential part: a non-empty username or password overrides, and only when there is a credential. */
  function ApplyCredential(config: Config, credential: Option<Credential>): (r: Config)
    ensures r.host == config.host && r.port == config.port && r.database == config.database
    ensures r.user == (if credential.Some? && credential.value.username != "" then credential.value.username else config.user)
    ensures r.password == (if credential.Some? && credential.value.password != "" then credential.value.password else config.password)
  {
    if credential.None? then config
    else
      var c1 := if credential.value.username != "" then config.(user := credential.value.username) else config;
      if credential.value.password != "" then c1.(password := credential.value.password) else c1
  }

  /** The URI of an entry that does not parse. */
  predicate Unparsable(c: ConnectionParams, parse: UriParser) {
    c.uri != "" && parse(c.uri).Failure?
  }

  /**
    A blank entry (no URI, host, port or database) changes nothing; an
    entry whose URI parses discards everything composed before it.
   */
  lemma StepCases(state1: Composed, state2: Composed, c: ConnectionParams, parse: UriParser)
    ensures c.uri == "" && c.host == "" && c.port == 0 && (c.database.None? || c.database.value == "") ==>
      Step(state1, c, parse) == state1
    ensures c.uri != "" && parse(c.uri).Success? ==> Step(state1, c, parse).config == Step(state2, c, parse).config
    ensures c.uri != "" && parse(c.uri).Success? && c.host == "" && c.port == 0 && (c.database.None? || c.database.value == "") ==>
      Step(state1, c, parse).config == parse(c.uri).value
  {
  }

  /**
    The error returned beside the configuration is that of the last entry
    whose URI does not parse, and there is none exactly when every URI
    parses.
   */
  lemma {:induction false} LastParseErrorWins(conns: seq<ConnectionParams>, parse: UriParser)
    ensures ComposeConnections(conns, parse).err.None? <==> forall i :: 0 <= i < |conns| ==> !Unparsable(conns[i], parse)
    ensures ComposeConnections(conns, parse).err.Some? ==>
      exists i :: 0 <= i < |conns| && Unparsable(conns[i], parse)
        && ComposeConnections(conns, parse).err == Some(parse(conns[i].uri).error)
        && forall j :: i < j < |conns| ==> !Unparsable(conns[j], parse)
    decreases |conns|
  {
    if conns != [] {
      var init := conns[..|conns| - 1];
      var last := conns[|conns| - 1];
      LastParseErrorWins(init, parse);
      assert forall i :: 0 <= i < |init| ==> init[i] == conns[i];
      if !Unparsable(last, parse) && ComposeConnections(init, parse).err.Some? {
        var i :| 0 <= i < |init| && Unparsable(init[i], parse)
          && ComposeConnections(init, parse).err == Some(parse(init[i].uri).error)
          && forall j :: i < j < |init| ==> !Unparsable(init[j], parse);
        assert forall j :: i < j < |conns| ==> !Unparsable(conns[j], parse);
      }
    }
  }

  /**
    The host comes from the last entry that sets one, unless a later URI
    parses (which brings its own host): later entries with no host and no
    parsable URI leave it as it is.
   */
  lemma {:induction false} LastHostWins(conns: seq<ConnectionParams>, parse: UriParser, k: nat)
    requires k < |conns| && conns[k].host != ""
    requires forall j :: k < j < |conns| ==> conns[j].host == "" && (conns[j].uri == "" || parse(conns[j].uri).Failure?)
    ensures ComposeConnections(conns, parse).config.host == conns[k].host
    decreases |conns|
  {
    if k < |conns| - 1 {
      var init := conns[..|conns| - 1];
      assert init[k] == conns[k];
      LastHostWins(init, parse, k);
    }
  }

  /** Likewise the port comes from the last entry that sets one, cut to 16 bits. */
  lemma {:induction false} LastPortWins(conns: seq<ConnectionParams>, parse: UriParser, k: nat)
    requires k < |conns| && conns[k].port != 0
    requires forall j :: k < j < |conns| ==> conns[j].port == 0 && (conns[j].uri == "" || parse(conns[j].uri).Failure?)
    ensures ComposeConnections(conns, parse).config.port == Port16(conns[k].port)
    decreases |conns|
  {
    if k < |conns| - 1 {
      var init := conns[..|conns| - 1];
      assert init[k] == conns[k];
      LastPortWins(init, parse, k);
    }
  }

  /** Likewise the database comes from the last entry that names a non-empty one. */
  lemma {:induction false} LastDatabaseWins(conns: seq<ConnectionParams>, parse: UriParser, k: nat)
    requires k < |conns| && conns[k].database.Some? && conns[k].database.value != ""
    requires forall j :: k < j < |conns| ==>
      ((conns[j].database.None? || conns[j].database.value == "") && (conns[j].uri == "" || parse(conns[j].uri).Failure?))
    ensures ComposeConnections(conns, parse).config.database == conns[k].database.value
    decreases |conns|
  {
    if k < |conns| - 1 {
      var init := conns[..|conns| - 1];
      assert init[k] == conns[k];
      LastDatabaseWins(init, parse, k);
    }
  }

  /**
    `composeConfig`: the loop over the entries, then the credential; the
    configuration and the last parse error it returns are those of the
    specification.
   */
  method ComposeConfig(conns: seq<ConnectionParams>, credential: Option<Credential>, parse: UriParser)
    returns (config: Config, e: Option<Error>)
    ensures config == ApplyCredential(ComposeConnections(conns, parse).config, credential)
    ensures e == ComposeConnections(conns, parse).err
  {
    config := EmptyConfig;
    e := None;
    for i := 0 to |conns|
      invariant Composed(config, e) == ComposeConnections(conns[..i], parse)
    {
      assert conns[..i + 1][..i] == conns[..i];
      var connection := conns[i];
      if connection.uri != "" {
        var parsed := parse(connection.uri);
        if parsed.Success? {
          config := parsed.value;
        } else {
          e := Some(parsed.error);
        }
      }
      if connection.host != "" {
        config := config.(host := connection.host);
      }
      if connection.port != 0 {
        config := config.(port := Port16(connection.port));
      }
      if connection.database.Some? && connection.database.value != "" {
        config := config.(database := connection.database.value);
      }
    }
    assert conns[..|conns|] == conns;
    if credential.Some? {
      if credential.value.username != "" {
        config := config.(user := credential.value.username);
      }
      if credential.value.password != "" {
        config := config.(password := credential.value.password);
      }
    }
  }

  // ---------------------------------------------------------------------
  // Resolution

  /** What `Resolve` returns: a configuration or nil, and an error or nil. */
  datatype Resolution = Resolution(config: Option<Config>, err: Option<Error>)

  /** What the connection lookup and its validation leave for `Resolve` to check. */
  predicate ResolvableConnections(resolved: Result<seq<ConnectionParams>>) {
    resolved.Success? ==> ValidatesSafely(resolved.value)
  }

  /**
    `Resolve`, with the two lookups it runs concurrently given as their
    results: a connection error (from the lookup, else from validation) wins
    over a credential error, and the configuration is composed only when
    there is neither.
   */
  method Resolve(resolved: Result<seq<ConnectionParams>>, lookup: Result<Option<Credential>>, parse: UriParser)
    returns (r: Resolution)
    requires ResolvableConnections(resolved)
    ensures resolved.Failure? ==> r == Resolution(None, Some(resolved.error))
    ensures resolved.Success? && ValidateAll(resolved.value).Some? ==> r == Resolution(None, ValidateAll(resolved.value))
    ensures resolved.Success? && ValidateAll(resolved.value).None? && lookup.Failure? ==>
      r == Resolution(None, Some(lookup.error))
    ensures resolved.Success? && ValidateAll(resolved.value).None? && lookup.Success? ==>
      var composed := ComposeConnections(resolved.value, parse);
      r == Resolution(Some(ApplyCredential(composed.config, lookup.value)), composed.err)
    ensures r.config.Some? ==> resolved.Success? && lookup.Success? && |resolved.value| > 0
  {
    var errConn: Option<Error> := None;
    var connections: seq<ConnectionParams> := [];
    if resolved.Failure? {
      errConn := Some(resolved.error);
    } else {
      connections := resolved.value;
      errConn := ValidateConnections(connections);
    }
    if errConn.Some? {
      return Resolution(None, errConn);
    }
    if lookup.Failure? {
      return Resolution(None, Some(lookup.error));
    }
    var config, e := ComposeConfig(connections, lookup.value, parse);
    r := Resolution(Some(config), e);
  }
}
