/** The registry object (lib/qrs.js, class `QlikSenseRepository`): its
    connection options, the `methods` and `exec` tables it updates in place,
    and the operations on them, each proved against the table functions of
    module Repository. */
module Qrs {
  import opened Wrappers
  import opened Errors
  import opened JsStrings
  import opened Invoker
  import opened Repository

  /** The constructor's options object; an option left out is `None`. */
  datatype Config = Config(
    host: Option<string>,
    port: Option<string>,
    prefix: Option<string>,
    xrfkey: Option<string>,
    contentType: Option<string>,
    userDirectory: Option<string>,
    userId: Option<string>)

  const DefaultHost: string := "localhost"
  const DefaultPort: string := "4242"
  const DefaultXrfKey: string := "abcdefghijklmnop"
  const DefaultContentType: string := "application/json"
  const ContentTypeHeader: string := "Content-Type"
  const UserHeader: string := "X-Qlik-User"

  /** `value || fallback`: an absent and an empty value both fall back. */
  function OrDefault(value: Option<string>, fallback: string): string {
    if value.Some? && value.value != "" then value.value else fallback
  }

  /** `${value}` in a template literal: an absent value reads "undefined". */
  function Interpolated(value: Option<string>): string {
    value.GetOr("undefined")
  }

  /** The headers the constructor builds. The key header carries the
      `xrfkey` option as given, not the defaulted field. Without the option
      the property holds `undefined`; the map then has no entry for it. */
  function InitialHeaders(config: Config, contentType: string): (h: map<string, string>)
    ensures XrfKeyHeader in h <==> config.xrfkey.Some?
    ensures config.xrfkey.Some? ==> h[XrfKeyHeader] == config.xrfkey.value
    ensures ContentTypeHeader in h && h[ContentTypeHeader] == contentType
    ensures UserHeader in h && h[UserHeader] == "UserDirectory=" + Interpolated(config.userDirectory) + "; UserId=" + Interpolated(config.userId)
  {
    var base := map[ContentTypeHeader := contentType,
                     UserHeader := "UserDirectory=" + Interpolated(config.userDirectory) + "; UserId=" + Interpolated(config.userId)];
    if config.xrfkey.Some? then base[XrfKeyHeader := config.xrfkey.value] else base
  }

  /** What `showMethodInfo` reports for `name` when `m` is stored under it. */
  function InfoOf(name: string, m: Method): Info {
    Info(name, m.options.verb, m.options.path, m.params, m.extended)
  }

  /** The records of a table of method objects, name by name. */
  function Infos(ms: map<string, Method>): (r: map<string, Info>)
    ensures r.Keys == ms.Keys
    ensures forall n :: n in ms ==> r[n] == InfoOf(n, ms[n])
  {
    map n | n in ms :: InfoOf(n, ms[n])
  }

  /** Storing an object under a name stores its record. */
  lemma InfosStore(ms: map<string, Method>, name: string, m: Method)
    ensures Infos(ms[name := m]) == Infos(ms)[name := InfoOf(name, m)]
  {
  }

  /** Removing a name removes its record. */
  lemma InfosRemove(ms: map<string, Method>, name: string)
    ensures Infos(ms - {name}) == Infos(ms) - {name}
  {
  }

  /** The registry as values: what each name reports, the order, and what
      each shortcut would send. */
  function TableOf(methods: map<string, Method>, order: seq<string>, exec: map<string, Method>): Table {
    Table(Infos(methods), order, Infos(exec))
  }

  /** What the registry keeps true of its tables: `order` lists every name
      of `methods` once and nothing else, and every shortcut name is a
      registered one. */
  ghost predicate WellFormed(methods: map<string, Method>, order: seq<string>, exec: map<string, Method>) {
    && (forall i, j :: 0 <= i < j < |order| ==> order[i] != order[j])
    && (forall i :: 0 <= i < |order| ==> order[i] in methods)
    && (forall k :: k in methods ==> k in order)
    && exec.Keys <= methods.Keys
  }

  /** Well-formed tables of objects are exactly those whose records form a
      valid table. */
  lemma WellFormedIsValid(methods: map<string, Method>, order: seq<string>, exec: map<string, Method>)
    ensures WellFormed(methods, order, exec) <==> Table(Infos(methods), order, Infos(exec)).Valid()
  {
  }

  /** Registering an unused name keeps the tables well formed. */
  lemma WellFormedStore(methods: map<string, Method>, order: seq<string>, exec: map<string, Method>, name: string, m: Method)
    requires WellFormed(methods, order, exec) && name !in methods
    ensures WellFormed(methods[name := m], order + [name], exec[name := m])
  {
    var order' := order + [name];
    forall i | 0 <= i < |order'| ensures order'[i] in methods[name := m] {
      if i < |order| { assert order'[i] == order[i]; }
    }
    forall k | k in methods[name := m] ensures k in order' {
      if k != name {
        var i :| 0 <= i < |order| && order[i] == k;
        assert order'[i] == k;
      } else {
        assert order'[|order|] == name;
      }
    }
  }

  /** `setMethod` keeps the tables well formed. */
  lemma WellFormedSet(methods: map<string, Method>, order: seq<string>, exec: map<string, Method>, name: string, m: Method)
    requires WellFormed(methods, order, exec)
    ensures WellFormed(methods[name := m], if name in methods then order else order + [name], exec)
  {
    if name !in methods {
      WellFormedStore(methods, order, map[], name, m);
    }
  }

  /** Deleting a registered name keeps the tables well formed. */
  lemma WellFormedRemove(methods: map<string, Method>, order: seq<string>, exec: map<string, Method>, name: string)
    requires WellFormed(methods, order, exec) && name in methods
    ensures WellFormed(methods - {name}, RemoveName(order, name), exec - {name})
  {
    var order' := RemoveName(order, name);
    forall i | 0 <= i < |order'| ensures order'[i] in methods - {name} {
      assert order'[i] in order';
    }
  }

  /** Storing a new method object under an unused name is the table
      function's successful registration. */
  lemma StoreIsRegister(methods: map<string, Method>, order: seq<string>, exec: map<string, Method>, name: string, m: Method,
                        verb: string, path: Option<string>, params: Option<string>, extended: Option<string>)
    requires !VerbRejected(verb) && path.Some? && name !in methods
    requires InfoOf(name, m) == Info(name, verb, path.value, params.GetOr(""), extended.GetOr(""))
    ensures Register(Table(Infos(methods), order, Infos(exec)), name, verb, path, params, extended)
      == Success(Table(Infos(methods[name := m]), order + [name], Infos(exec[name := m])))
  {
    InfosStore(methods, name, m);
    InfosStore(exec, name, m);
  }

  /** Storing an object under a name in `methods` alone is the table
      function of `setMethod`. */
  lemma StoreIsSetEntry(methods: map<string, Method>, order: seq<string>, exec: map<string, Method>, name: string, m: Method)
    ensures SetEntry(Table(Infos(methods), order, Infos(exec)), name, InfoOf(name, m))
      == Table(Infos(methods[name := m]), if name in methods then order else order + [name], Infos(exec))
  {
    InfosStore(methods, name, m);
  }

  /** Removing a registered name from both tables is the table function of
      `deleteMethod`. */
  lemma RemoveIsDelete(methods: map<string, Method>, order: seq<string>, exec: map<string, Method>, name: string)
    requires name in methods
    ensures Delete(Table(Infos(methods), order, Infos(exec)), name)
      == (Table(Infos(methods - {name}), RemoveName(order, name), Infos(exec - {name})), true)
  {
    InfosRemove(methods, name);
    InfosRemove(exec, name);
  }

  /** Tables `methods` and `exec` grown from `methods0` and `exec0` by
      registrations: every earlier object stays under its name, and every
      new name holds the same object in both tables, sharing `conn`. */
  ghost predicate Extends(methods0: map<string, Method>, exec0: map<string, Method>,
                          methods: map<string, Method>, exec: map<string, Method>, conn: Connection) {
    && (forall n :: n in methods0 ==> n in methods && methods[n] == methods0[n])
    && (forall n :: n in exec0 ==> n in exec && exec[n] == exec0[n])
    && (forall n :: n in methods && n !in methods0 ==> n in exec && exec[n] == methods[n] && methods[n].options.conn == conn)
  }

  /** Registering a new object under an unused name keeps the tables grown
      from the earlier ones. */
  lemma ExtendsStore(methods0: map<string, Method>, exec0: map<string, Method>,
                     methods: map<string, Method>, exec: map<string, Method>, conn: Connection,
                     name: string, m: Method)
    requires Extends(methods0, exec0, methods, exec, conn) && exec.Keys <= methods.Keys
    requires name !in methods && m.options.conn == conn
    ensures Extends(methods0, exec0, methods[name := m], exec[name := m], conn)
  {
  }

  class QlikSenseRepository {
    var prefix: string
    var xrfkey: string
    var contentType: string
    /** `this.options`: host, port and the shared headers object. */
    var conn: Connection
    var methods: map<string, Method>
    var exec: map<string, Method>
    /** The names of `methods` in the order they were added. */
    var order: seq<string>

    ghost predicate Valid()
      reads this
    {
      WellFormed(methods, order, exec)
    }

    /** `constructor(options)`: defaults for the missing options, the formatted
        prefix, one fresh headers object, and empty tables. */
    constructor (config: Config)
      ensures prefix == FormatPrefix(config.prefix)
      ensures xrfkey == OrDefault(config.xrfkey, DefaultXrfKey)
      ensures contentType == OrDefault(config.contentType, DefaultContentType)
      ensures conn.host == OrDefault(config.host, DefaultHost) && conn.port == OrDefault(config.port, DefaultPort)
      ensures fresh(conn.headers) && conn.headers.entries == InitialHeaders(config, contentType)
      ensures methods == map[] && exec == map[] && order == []
      ensures Valid() && TableOf(methods, order, exec) == EmptyTable()
    {
      var ct := OrDefault(config.contentType, DefaultContentType);
      var headers := new Headers(InitialHeaders(config, ct));
      prefix := FormatPrefix(config.prefix);
      xrfkey := OrDefault(config.xrfkey, DefaultXrfKey);
      contentType := ct;
      conn := Connection(OrDefault(config.host, DefaultHost), OrDefault(config.port, DefaultPort), headers);
      methods := map[];
      exec := map[];
      order := [];
    }

    /** `registerMethod`: the verb guard, the path check and the duplicate
        check, in that order; on success a new method sharing this registry's
        connection is stored in both tables and returned. */
    method RegisterMethod(name: string, verb: string, path: Option<string>, params: Option<string>, extended: Option<string>) returns (r: Result<Method, Error>)
      requires Valid()
      modifies this
      ensures Valid()
      ensures prefix == old(prefix) && xrfkey == old(xrfkey) && contentType == old(contentType) && conn == old(conn)
      ensures r.Failure? ==> methods == old(methods) && exec == old(exec) && order == old(order)
      ensures r.Success? <==> Register(TableOf(old(methods), old(order), old(exec)), name, verb, path, params, extended).Success?
      ensures r.Failure? ==> r.error == Register(TableOf(old(methods), old(order), old(exec)), name, verb, path, params, extended).error
      ensures r.Success? ==> TableOf(methods, order, exec) == Register(TableOf(old(methods), old(order), old(exec)), name, verb, path, params, extended).value
      ensures r.Success? ==> name !in old(methods) && fresh(r.value) && r.value.name == name && r.value.options.conn == conn
      ensures r.Success? ==> methods == old(methods)[name := r.value] && exec == old(exec)[name := r.value]
    {
      if VerbRejected(verb) {
        return Failure(MethodNotAllowed);
      }
      if path.None? {
        return Failure(PathNotSpecified);
      }
      // The copy of `this.options` shares the headers object.
      var newOption := conn;
      if name in methods {
        return Failure(MethodExists(name));
      }
      var m := new Method(name, verb, path.value, newOption, params, extended);
      methods, exec, order := methods[name := m], exec[name := m], order + [name];
      r := Success(m);
      assert methods == old(methods)[name := m] && exec == old(exec)[name := m];
      assert prefix == old(prefix) && xrfkey == old(xrfkey) && contentType == old(contentType) && conn == old(conn);
      StoreIsRegister(old(methods), old(order), old(exec), name, m, verb, path, params, extended);
      WellFormedStore(old(methods), old(order), old(exec), name, m);
    }

    /** `showMethodInfo`: the record of a registered name; `None` for the
        empty string returned for any other name. */
    function ShowMethodInfo(name: string): (r: Option<Info>)
      reads this
      ensures r == Show(TableOf(methods, order, exec), name)
    {
      if name in methods then Some(InfoOf(name, methods[name])) else None
    }

    /** `showAllMethodsInfo`: the record of every name, in table order. */
    method ShowAllMethodsInfo() returns (r: seq<Info>)
      requires Valid()
      ensures r == ShowAll(TableOf(methods, order, exec))
    {
      WellFormedIsValid(methods, order, exec);
      r := [];
      for i := 0 to |order|
        invariant r == InfosOf(Infos(methods), order[..i])
      {
        InfosOfPrefix(Infos(methods), order, i);
        r := r + [ShowMethodInfo(order[i]).value];
      }
      assert order[..|order|] == order;
    }

    /** `getMethod`: the object stored under `name`, if any. */
    function GetMethod(name: string): (r: Option<Method>)
      reads this
      ensures r.Some? <==> name in methods
      ensures r.Some? ==> r.value == methods[name]
    {
      if name in methods then Some(methods[name]) else None
    }

    /** `setMethod`: stores `m` under `name` in `methods` only; the shortcut
        in `exec` keeps the method it was bound to. */
    method SetMethod(name: string, m: Method) returns (r: Method)
      requires Valid()
      modifies this
      ensures Valid() && r == m
      ensures methods == old(methods)[name := m] && exec == old(exec)
      ensures prefix == old(prefix) && xrfkey == old(xrfkey) && contentType == old(contentType) && conn == old(conn)
      ensures TableOf(methods, order, exec) == SetEntry(TableOf(old(methods), old(order), old(exec)), name, InfoOf(name, m))
    {
      if name !in methods {
        order := order + [name];
      }
      methods := methods[name := m];
      r := m;
      assert methods == old(methods)[name := m] && exec == old(exec);
      assert prefix == old(prefix) && xrfkey == old(xrfkey) && contentType == old(contentType) && conn == old(conn);
      StoreIsSetEntry(old(methods), old(order), old(exec), name, m);
      WellFormedSet(old(methods), old(order), old(exec), name, m);
    }

    /** `deleteMethod`: removes `name` from both tables and reports whether
        it was registered. */
    method DeleteMethod(name: string) returns (r: bool)
      requires Valid()
      modifies this
      ensures Valid()
      ensures (TableOf(methods, order, exec), r) == Delete(TableOf(old(methods), old(order), old(exec)), name)
      ensures r ==> methods == old(methods) - {name} && exec == old(exec) - {name}
      ensures !r ==> methods == old(methods) && exec == old(exec) && order == old(order)
      ensures prefix == old(prefix) && xrfkey == old(xrfkey) && contentType == old(contentType) && conn == old(conn)
    {
      r := name in methods;
      if r {
        methods, exec, order := methods - {name}, exec - {name}, RemoveName(order, name);
        assert methods == old(methods) - {name} && exec == old(exec) - {name};
        assert prefix == old(prefix) && xrfkey == old(xrfkey) && contentType == old(contentType) && conn == old(conn);
        RemoveIsDelete(old(methods), old(order), old(exec), name);
        WellFormedRemove(old(methods), old(order), old(exec), name);
      }
    }

    /** The name `importMethods` builds for an entry, one path segment at a
        time. */
    static method DeriveName(verb: string, path: string) returns (name: string)
      ensures name == MethodName(verb, path)
    {
      name := ToLower(verb);
      var segments := Split(PathPart(path), '/');
      for i := 0 to |segments|
        invariant name == ToLower(verb) + ConcatMap(SegmentText, segments[..i])
      {
        ConcatMapPrefix(SegmentText, segments, i);
        var elem := segments[i];
        if elem != "" && elem != "qrs" {
          var formattedElem := ReplaceFirst(ReplaceFirst(elem, "{", ""), "}", "");
          name := name + UpperFirst(formattedElem);
        }
      }
      assert segments[..|segments|] == segments;
      MethodNameBySegments(verb, path, segments);
    }

    /** `importMethods` on parsed entries: each entry is named and registered
        in turn, and the first error ends the import. The objects registered
        before stay, and each new one is a fresh method sharing this
        registry's connection, stored under its name in both tables. */
    method ImportMethods(entries: seq<Entry>) returns (r: Outcome<Error>)
      requires Valid()
      modifies this
      ensures Valid()
      ensures (TableOf(methods, order, exec), r) == Import(TableOf(old(methods), old(order), old(exec)), entries)
      ensures prefix == old(prefix) && xrfkey == old(xrfkey) && contentType == old(contentType) && conn == old(conn)
      ensures forall n :: n in old(methods) ==> n in methods && methods[n] == old(methods)[n]
      ensures forall n :: n in old(exec) ==> n in exec && exec[n] == old(exec)[n]
      ensures forall n :: n in methods && n !in old(methods) ==>
        n in exec && exec[n] == methods[n] && fresh(methods[n]) && methods[n].options.conn == conn
    {
      for i := 0 to |entries|
        invariant Valid()
        invariant Import(TableOf(old(methods), old(order), old(exec)), entries) == Import(TableOf(methods, order, exec), entries[i..])
        invariant prefix == old(prefix) && xrfkey == old(xrfkey) && contentType == old(contentType) && conn == old(conn)
        invariant Extends(old(methods), old(exec), methods, exec, conn)
        invariant forall n :: n in methods && n !in old(methods) ==> fresh(methods[n])
      {
        var e := entries[i];
        ghost var before := TableOf(methods, order, exec);
        ImportStep(before, entries[i..]);
        assert entries[i..][0] == e && entries[i..][1..] == entries[i + 1..];
        var name := DeriveName(e.verb, e.path);
        ghost var methods0, exec0 := methods, exec;
        var reg := RegisterMethod(name, e.verb, Some(PathPart(e.path)), ParamsPart(e.path), e.extended);
        if reg.Failure? {
          return Fail(reg.error);
        }
        ExtendsStore(old(methods), old(exec), methods0, exec0, conn, name, reg.value);
      }
      return Pass;
    }
  }
}
