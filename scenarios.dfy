/** Client code in the shape of the registry's unit tests
    (test/qrs-unit-test.js): each method builds a fresh registry, drives it
    through the class's operations only, and its contract states what the
    test observes. */
module Scenarios {
  import opened Wrappers
  import opened Errors
  import opened JsStrings
  import opened Invoker
  import opened Repository
  import opened Qrs

  /** The options object of the unit tests (the certificate files and
      `isSecure` are not part of this model). */
  function TestConfig(): Config {
    Config(Some("qs02"), Some("4242"), Some(""), Some(TestKey), None, Some("internal"), Some("sa_repository"))
  }

  /** The `xrfkey` of the unit tests. */
  const TestKey: string := "abcdefghijklmnop"

  /** `GET` passes the guard. */
  lemma GetAccepted()
    ensures !VerbRejected("GET")
  {
  }

  /** "should get method", "should delete method", "should fail to delete
      method": a registered name reports its record until it is deleted,
      and a second delete finds nothing. */
  method RegisterShowDelete(name: string, path: string, params: string) returns (shown: Option<Info>, deleted: bool, after: Option<Info>, again: bool)
    ensures shown == Some(Info(name, "GET", path, params, ""))
    ensures deleted && after == None && !again
  {
    var qrs := new QlikSenseRepository(TestConfig());
    GetAccepted();
    var reg := qrs.RegisterMethod(name, "GET", Some(path), Some(params), None);
    shown := qrs.ShowMethodInfo(name);
    deleted := qrs.DeleteMethod(name);
    after := qrs.ShowMethodInfo(name);
    again := qrs.DeleteMethod(name);
  }

  /** `POST` passes the guard. */
  lemma PostAccepted()
    ensures !VerbRejected("POST")
  {
  }

  /** "shoud return error when name already exists.": the second
      registration of a name throws, and the first one stays. */
  method DuplicateName(name: string, path: string) returns (first: Result<Method, Error>, second: Result<Method, Error>, shown: Option<Info>)
    ensures first.Success?
    ensures second == Failure(MethodExists(name))
    ensures second.error.Message() == "Methods already exists: " + name
    ensures shown == Some(Info(name, "POST", path, "", ""))
  {
    var qrs := new QlikSenseRepository(TestConfig());
    PostAccepted();
    first := qrs.RegisterMethod(name, "POST", Some(path), None, None);
    second := qrs.RegisterMethod(name, "POST", Some(path), None, None);
    shown := qrs.ShowMethodInfo(name);
  }

  /** `A` is a prefix of the allowed list, so it passes the guard. */
  lemma OddVerbAccepted()
    ensures !VerbRejected("A")
  {
  }

  /** "shoud return error when method not allowed .": the verb guard lets
      `A` through, so the registration succeeds. */
  method UnlistedVerb() returns (r: Result<Method, Error>)
    ensures r.Success? && r.value.options.verb == "A" && r.value.options.path == "/qrs/user"
  {
    var qrs := new QlikSenseRepository(TestConfig());
    OddVerbAccepted();
    r := qrs.RegisterMethod("addUser", "A", Some("/qrs/user"), None, None);
  }

  /** "shoud return error when path is not entered.": nothing is
      registered. */
  method MissingPath() returns (r: Result<Method, Error>, all: seq<Info>)
    ensures r == Failure(PathNotSpecified) && r.error.Message() == "Path is not specified"
    ensures all == []
  {
    var qrs := new QlikSenseRepository(TestConfig());
    PostAccepted();
    r := qrs.RegisterMethod("addUser", "POST", None, None, None);
    all := qrs.ShowAllMethodsInfo();
  }

  /** The export test sets `Content-Type` through one method's options:
      the registry and a method registered earlier see the change, because
      all of them hold the same headers object. */
  method SharedHeaders(first: string, second: string, path: string) returns (registry: string, other: string)
    requires first != second
    ensures registry == "application/vnd.qlik.sense.app" && other == registry
  {
    var qrs := new QlikSenseRepository(TestConfig());
    GetAccepted();
    var a := qrs.RegisterMethod(first, "GET", Some(path), None, None);
    var b := qrs.RegisterMethod(second, "GET", Some(path), None, None);
    var m := qrs.GetMethod(second).value;
    m.options.conn.headers.Set(ContentTypeHeader, "application/vnd.qlik.sense.app");
    registry := qrs.conn.headers.entries[ContentTypeHeader];
    other := qrs.exec[first].options.conn.headers.entries[ContentTypeHeader];
  }

  /** The export test as written: it sets `Content-Type` through the
      options of an imported method and stores that method back with
      `setMethod`. The registry and the imported shortcut see the change,
      because an imported method holds the registry's headers object. */
  method ImportedSharedHeaders() returns (registry: string, shortcut: string)
    ensures registry == "application/vnd.qlik.sense.app" && shortcut == registry
  {
    var qrs := new QlikSenseRepository(TestConfig());
    var e := Entry("GET", "/qrs/" + "about", None);
    AboutImports(e);
    var _ := qrs.ImportMethods([e]);
    var m := qrs.GetMethod("getAbout").value;
    m.options.conn.headers.Set(ContentTypeHeader, "application/vnd.qlik.sense.app");
    var _ := qrs.SetMethod("getAbout", m);
    registry := qrs.conn.headers.entries[ContentTypeHeader];
    shortcut := qrs.exec["getAbout"].options.conn.headers.entries[ContentTypeHeader];
  }

  /** `setMethod` with a new object: `getMethod` and `showMethodInfo`
      report it, but the shortcut in `exec` still holds the first one. */
  method StaleShortcut(name: string, path: string, path': string) returns (stored: Option<Info>, shortcut: string)
    ensures stored == Some(Info(name, "GET", path', "", ""))
    ensures shortcut == path
  {
    var qrs := new QlikSenseRepository(TestConfig());
    GetAccepted();
    var reg := qrs.RegisterMethod(name, "GET", Some(path), None, None);
    var m := new Method(name, "GET", path', qrs.conn, None, None);
    var _ := qrs.SetMethod(name, m);
    stored := qrs.ShowMethodInfo(name);
    shortcut := qrs.exec[name].options.path;
  }

  /** "should export app with template parameters.", called twice: each
      call substitutes into the stored template, which stays as it was, and
      the key from the options follows `?xrfkey=`. */
  method RepeatedInvoke<J>(base: string, key: string, first: string, second: string, stringify: J -> string)
    returns (r1: Result<Request, Error>, r2: Result<Request, Error>, template: string)
    requires '{' !in base && '{' !in first && '{' !in second && '$' !in first && '$' !in second
    ensures r1.Success? && r1.value.options.path == base + first + "?xrfkey=" + TestKey
    ensures r2.Success? && r2.value.options.path == base + second + "?xrfkey=" + TestKey
    ensures template == base + Placeholder(key)
  {
    var qrs := new QlikSenseRepository(TestConfig());
    GetAccepted();
    var reg := qrs.RegisterMethod("getAppIdExport", "GET", Some(base + Placeholder(key)), None, None);
    var m := qrs.exec["getAppIdExport"];
    OneParameter(base, key, first);
    OneParameter(base, key, second);
    NoQueryParameters(base + first, TestKey);
    NoQueryParameters(base + second, TestKey);
    r1 := m.Invoke(Args(None, [], [(key, first)]), stringify);
    r2 := m.Invoke(Args(None, [], [(key, second)]), stringify);
    template := m.options.path;
  }

  /** "should fail to get user with missing template parameter.": a call
      without the parameter throws with the unsubstituted path. */
  method MissingTemplateParameter<J>(base: string, key: string, stringify: J -> string) returns (r: Result<Request, Error>)
    requires SingleLine(key)
    ensures r == Failure(TemplateParameterMissing(base + Placeholder(key)))
    ensures r.error.Message() == "Template parameter is missing: " + base + Placeholder(key)
  {
    var qrs := new QlikSenseRepository(TestConfig());
    GetAccepted();
    var reg := qrs.RegisterMethod("getUserId", "GET", Some(base + Placeholder(key)), None, None);
    PlaceholderLeft(base, key, "");
    assert base + Placeholder(key) + "" == base + Placeholder(key);
    r := reg.value.Invoke(Args(None, [], []), stringify);
  }

  /** Without an `xrfkey` option the key header holds `undefined`, so the
      query string carries the text "undefined". */
  method MissingKey(path: string) returns (query: string)
    ensures query == path + "?xrfkey=undefined"
  {
    var qrs := new QlikSenseRepository(TestConfig().(xrfkey := None));
    GetAccepted();
    var reg := qrs.RegisterMethod("getApp", "GET", Some(path), None, None);
    query := AddQueryParameters(reg.value.options, []);
  }

  /** "shoud import endpoint file", with the first schema entry: the
      first listed method is `getAbout`. */
  method ImportAbout() returns (r: Outcome<Error>, all: seq<Info>)
    ensures r == Pass && |all| == 1 && all[0].name == "getAbout" && all[0].verb == "GET"
  {
    var qrs := new QlikSenseRepository(TestConfig());
    var e := Entry("GET", "/qrs/" + "about", None);
    GetAccepted();
    GetAboutName();
    AboutImports(e);
    r := qrs.ImportMethods([e]);
    WellFormedIsValid(qrs.methods, qrs.order, qrs.exec);
    ImportListsInOrder(EmptyTable(), [e]);
    all := qrs.ShowAllMethodsInfo();
  }

  /** The first schema entry registers on an empty registry under its
      derived name. */
  lemma AboutImports(e: Entry)
    requires e == Entry("GET", "/qrs/" + "about", None)
    ensures Import(EmptyTable(), [e]).1 == Pass
    ensures EntryInfos([e]) == [EntryInfo(e)]
    ensures EntryInfo(e).name == "getAbout" && EntryInfo(e).verb == "GET"
  {
    GetAboutName();
    GetAccepted();
    assert [e][1..] == [];
  }
}
