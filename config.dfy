// schema/config.go: the project configuration and its validation, which
// fills in the server addresses and builds the project and log schemas.
module Configs {
  import opened Types
  import opened GoStrings
  import opened Fields
  import opened Schemas
  import Logger

  const Localhost: Bytes := [0x31, 0x32, 0x37, 0x2E, 0x30, 0x2E, 0x30, 0x2E, 0x31]   // "127.0.0.1"
  const DefaultIndex: Bytes := Localhost + [Colon, 0x38, 0x33, 0x38, 0x33]          // "127.0.0.1:8383"
  const DefaultSearch: Bytes := Localhost + [Colon, 0x38, 0x33, 0x38, 0x34]         // "127.0.0.1:8384"

  /** The regular expression ^[1-9]\d{1,4}$: a port number of two to five digits. */
  predicate IsBarePort(s: Bytes)
  {
    2 <= |s| <= 5 && 0x31 <= s[0] <= 0x39 && forall k :: 1 <= k < |s| ==> IsDigit(s[k])
  }

  /** An empty address takes the default. */
  function WithDefault(a: Bytes, d: Bytes): Bytes
  {
    if a == [] then d else a
  }

  /** An address that starts with ':' gets the local host in front. */
  function ColonPrefixed(a: Bytes): Bytes
  {
    if IndexOf(a, [Colon]) == 0 then Localhost + a else a
  }

  /** A bare port gets "127.0.0.1:" in front. */
  function PortPrefixed(a: Bytes): Bytes
  {
    if IsBarePort(a) then Localhost + [Colon] + a else a
  }

  /** How checkValid normalises one server address, given its default d. */
  function NormalAddress(a: Bytes, d: Bytes): (r: Bytes)
    ensures a == [] && d != [] && d[0] != Colon && !IsBarePort(d) ==> r == d
    ensures a != [] && a[0] == Colon ==> r == Localhost + a
    ensures IsBarePort(a) ==> r == Localhost + [Colon] + a
    ensures a != [] && a[0] != Colon && !IsBarePort(a) ==> r == a
  {
    StartsWithColon(a);
    StartsWithColon(WithDefault(a, d));
    PortPrefixed(ColonPrefixed(WithDefault(a, d)))
  }

  /** strings.Index(a, ":") == 0 exactly when a starts with ':'. */
  lemma StartsWithColon(a: Bytes)
    ensures IndexOf(a, [Colon]) == 0 <==> a != [] && a[0] == Colon
  {
    if a != [] && a[0] == Colon {
      assert OccursAt(a, [Colon], 0);
    }
    if IndexOf(a, [Colon]) == 0 {
      assert OccursAt(a, [Colon], 0);
    }
  }

  /** An address with the local host in front is never a bare port, nor does it start with ':'. */
  lemma LocalhostPrefixed(rest: Bytes)
    ensures var s := Localhost + rest; s != [] && s[0] != Colon && !IsBarePort(s)
  {
    var s := Localhost + rest;
    assert s[3] == 0x2E;
  }

  /** A normalised address neither starts with ':' nor is a bare port, unless the default is empty. */
  lemma NormalAddressShape(a: Bytes, d: Bytes)
    requires a != [] || d != []
    ensures var r := NormalAddress(a, d); r != [] && r[0] != Colon && !IsBarePort(r)
  {
    var x := WithDefault(a, d);
    StartsWithColon(x);
    if x[0] == Colon {
      LocalhostPrefixed(x);
      assert ColonPrefixed(x) == Localhost + x;
    } else if IsBarePort(x) {
      LocalhostPrefixed([Colon] + x);
      assert Localhost + [Colon] + x == Localhost + ([Colon] + x);
    }
  }

  /** Normalising twice is normalising once. */
  lemma NormalAddressIdempotent(a: Bytes, d: Bytes)
    ensures NormalAddress(NormalAddress(a, d), d) == NormalAddress(a, d)
  {
    if a != [] || d != [] {
      NormalAddressShape(a, d);
    }
  }

  /**
   * The server addresses as checkValid leaves them: a bare search port
   * rewrites IndexServer (with the search port) and leaves SearchServer
   * a bare port.
   */
  function NormalServersAsWritten(index: Bytes, search: Bytes): (r: (Bytes, Bytes))
    ensures IsBarePort(search) ==> r == (Localhost + [Colon] + search, search)
  {
    var i := ColonPrefixed(WithDefault(index, DefaultIndex));
    var s := ColonPrefixed(WithDefault(search, DefaultSearch));
    StartsWithColon(search);
    var i' := PortPrefixed(i);
    if IsBarePort(s) then (Localhost + [Colon] + s, s) else (i', s)
  }

  /** The evident intent: each address normalised with its own default. */
  function NormalServers(index: Bytes, search: Bytes): (r: (Bytes, Bytes))
    ensures r.0 != [] && r.0[0] != Colon && !IsBarePort(r.0)
    ensures r.1 != [] && r.1[0] != Colon && !IsBarePort(r.1)
  {
    NormalAddressShape(index, DefaultIndex);
    NormalAddressShape(search, DefaultSearch);
    (NormalAddress(index, DefaultIndex), NormalAddress(search, DefaultSearch))
  }

  /** As written, an empty index server and search port 8384 give both addresses to the search port. */
  lemma SearchPortOverwritesIndex()
    ensures NormalServersAsWritten([], [0x38, 0x33, 0x38, 0x34])
         == (Localhost + [Colon, 0x38, 0x33, 0x38, 0x34], [0x38, 0x33, 0x38, 0x34])
    ensures NormalServers([], [0x38, 0x33, 0x38, 0x34]) == (DefaultIndex, DefaultSearch)
  {
    var p: Bytes := [0x38, 0x33, 0x38, 0x34];
    assert IsBarePort(p);
    assert Localhost + [Colon] + p == DefaultSearch;
    NormalAddressShape(DefaultIndex, DefaultIndex);
    assert DefaultIndex[0] != Colon && !IsBarePort(DefaultIndex);
  }

  /** Whenever the search server is not a bare port, the code as written does what was intended. */
  lemma AsWrittenAgrees(index: Bytes, search: Bytes)
    requires !IsBarePort(search)
    ensures NormalServersAsWritten(index, search) == NormalServers(index, search)
  {
    var x := WithDefault(search, DefaultSearch);
    StartsWithColon(x);
    StartsWithColon(WithDefault(index, DefaultIndex));
    if x[0] == Colon {
      LocalhostPrefixed(x);
    } else {
      assert x == search || x == DefaultSearch;
      assert DefaultSearch[3] == 0x2E;
    }
  }

  /** The three values a valid configuration produces (struct Setting). */
  datatype Setting = Setting(schema: Schema, logger: Schema, conf: Config)

  /** Config: the project configuration as decoded from its TOML file. */
  class Config {
    var name: Bytes
    var indexServer: Bytes
    var searchServer: Bytes
    var fields: seq<(Bytes, Field)>

    constructor (name: Bytes, indexServer: Bytes, searchServer: Bytes, fields: seq<(Bytes, Field)>)
      ensures this.name == name && this.indexServer == indexServer
      ensures this.searchServer == searchServer && this.fields == fields
    {
      this.name := name;
      this.indexServer := indexServer;
      this.searchServer := searchServer;
      this.fields := fields;
    }

    /**
     * The address rules of checkValid, applied in place in the order
     * written: the last rule, for a bare search port, writes indexServer.
     */
    method NormalizeServers()
      modifies this
      ensures name == old(name) && fields == old(fields)
      ensures (indexServer, searchServer) == NormalServersAsWritten(old(indexServer), old(searchServer))
    {
      if indexServer == [] {
        indexServer := DefaultIndex;
      }
      if searchServer == [] {
        searchServer := DefaultSearch;
      }
      if IndexOf(indexServer, [Colon]) == 0 {
        indexServer := Localhost + indexServer;
      }
      if IndexOf(searchServer, [Colon]) == 0 {
        searchServer := Localhost + searchServer;
      }
      if IsBarePort(indexServer) {
        indexServer := Localhost + [Colon] + indexServer;
      }
      if IsBarePort(searchServer) {
        indexServer := Localhost + [Colon] + searchServer;
      }
      StartsWithColon(old(indexServer));
      StartsWithColon(old(searchServer));
    }

    /**
     * checkValid: a project name is required; the server addresses are
     * normalised in place; then the project schema and the log schema
     * are built, and the first error is returned. The log schema ranges
     * over the decoded logger literal as written, and logFields is the
     * order that range takes: any order of the literal's fields.
     */
    method CheckValid(logFields: seq<(Bytes, Field)>) returns (setting: Option<Setting>, err: Option<Error>)
      requires multiset(logFields) == multiset(Logger.LoggerFieldsAsWritten)
      modifies this
      ensures name == old(name) && fields == old(fields)
      ensures old(name) == [] ==>
        setting.None? && err == Some(MissingProjectName)
        && indexServer == old(indexServer) && searchServer == old(searchServer)
      ensures old(name) != [] ==> (indexServer, searchServer) == NormalServersAsWritten(old(indexServer), old(searchServer))
      ensures old(name) != [] && SchemaSpec(fields).Err? ==> setting.None? && err == Some(SchemaSpec(fields).error)
      ensures old(name) != [] && SchemaSpec(fields).Ok? && SchemaSpec(logFields).Err? ==>
        setting.None? && err == Some(SchemaSpec(logFields).error)
      ensures old(name) != [] && SchemaSpec(fields).Ok? && SchemaSpec(logFields).Ok? ==>
        err.None? && setting.Some? && setting.value.conf == this
        && fresh(setting.value.schema) && fresh(setting.value.logger)
        && setting.value.schema.Data() == SchemaSpec(fields).value
        && setting.value.logger.Data() == SchemaSpec(logFields).value
    {
      if name == [] {
        return None, Some(MissingProjectName);
      }
      NormalizeServers();
      var sch, err0 := NewSchema(fields);
      if err0.Some? {
        return None, err0;
      }
      var lsch, err1 := NewSchema(logFields);
      if err1.Some? {
        return None, err1;
      }
      return Some(Setting(sch, lsch, this)), None;
    }
  }
}
