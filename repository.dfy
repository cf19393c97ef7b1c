/** The method registry of one server connection (lib/qrs.js): the table of
    registered methods, the table of shortcut callables, name derivation for
    bulk import, and the prefix helper. */
module Repository {
  import opened Wrappers
  import opened Errors
  import opened JsStrings
  import opened Invoker

  /** The array `registerMethod` hands to `indexOf`; JavaScript turns it into
      its comma-joined text. */
  const AllowedMethods: seq<string> := ["GET", "POST", "PUT", "DELETE"]

  /** The text `indexOf` searches for. */
  const AllowedMethodsText: string := "GET,POST,PUT,DELETE"

  /** It is `String(AllowedMethods)`, the array joined with commas. */
  lemma AllowedMethodsTextIsJoin()
    ensures Join(AllowedMethods, ',') == AllowedMethodsText
  {
    assert Join(AllowedMethods[3..], ',') == "DELETE";
    assert Join(AllowedMethods[2..], ',') == "PUT,DELETE";
    assert Join(AllowedMethods[1..], ',') == "POST,PUT,DELETE";
  }

  /** The verb guard `!method.indexOf(allowedMethod)`: it fires only when the
      search returns 0. */
  predicate VerbRejected(verb: string) {
    IndexOf(verb, AllowedMethodsText) == 0
  }

  /** The guard rejects exactly the verbs that begin with the joined text. */
  lemma VerbRejectedIffPrefix(verb: string)
    ensures VerbRejected(verb) <==> "GET,POST,PUT,DELETE" <= verb
  {
    IndexOfZeroIffPrefix(verb, AllowedMethodsText);
  }

  /** The four verbs, and any verb shorter than the joined text such as 'A',
      all pass the guard; only texts led by the joined text are refused. */
  lemma VerbGuardExamples()
    ensures !VerbRejected("GET") && !VerbRejected("POST") && !VerbRejected("PUT") && !VerbRejected("DELETE")
    ensures !VerbRejected("A") && !VerbRejected("")
    ensures forall v :: |v| < 19 ==> !VerbRejected(v)
    ensures VerbRejected("GET,POST,PUT,DELETE") && VerbRejected("GET,POST,PUT,DELETE,PATCH")
  {
    VerbRejectedIffPrefix("GET,POST,PUT,DELETE");
    VerbRejectedIffPrefix("GET,POST,PUT,DELETE,PATCH");
    forall v | |v| < 19 ensures !VerbRejected(v) {
      VerbRejectedIffPrefix(v);
    }
  }

  /** `formatPrefix`: empty for an absent or empty prefix; otherwise a `/` is
      put in front unless there is one, and one character is dropped from the
      end when the given prefix ends with `/`. */
  function FormatPrefix(prefix: Option<string>): (r: string)
    ensures (prefix.None? || prefix == Some("")) ==> r == ""
    ensures prefix.Some? && prefix.value != "" ==>
      |r| == |prefix.value| + (if prefix.value[0] == '/' then 0 else 1) - (if prefix.value[|prefix.value| - 1] == '/' then 1 else 0)
    ensures prefix.Some? && prefix.value != "" && prefix.value != "/" ==> r[0] == '/'
    ensures prefix.Some? && prefix.value != "" ==>
      r <= (if prefix.value[0] == '/' then prefix.value else "/" + prefix.value)
  {
    if prefix.None? || prefix.value == "" then ""
    else
      var p := prefix.value;
      var led := if p[..1] != "/" then "/" + p else p;
      if p[|p| - 1..] == "/" then led[..|led| - 1] else led
  }

  /** The prefix ends in a double slash. */
  predicate EndsInDoubleSlash(p: string) {
    |p| >= 2 && p[|p| - 2] == '/' && p[|p| - 1] == '/'
  }

  /** Formatting twice changes nothing exactly when the prefix does not end in
      `//`: only one trailing slash is ever dropped. */
  lemma FormatPrefixIdempotentIff(p: string)
    ensures FormatPrefix(Some(FormatPrefix(Some(p)))) == FormatPrefix(Some(p)) <==> !EndsInDoubleSlash(p)
  {
    var r := FormatPrefix(Some(p));
    if p != "" && p != "/" {
      var led := if p[0] != '/' then "/" + p else p;
      assert p[..1] == [p[0]];
      assert p[|p| - 1..] == [p[|p| - 1]];
      if p[|p| - 1] == '/' {
        assert r == led[..|led| - 1];
        assert r[|r| - 1] == p[|p| - 2];
      } else {
        assert r == led;
      }
      assert r[..1] == [r[0]];
      assert r[|r| - 1..] == [r[|r| - 1]];
    }
  }

  /** Examples of the prefix rule. */
  lemma FormatPrefixExamples()
    ensures FormatPrefix(None) == "" && FormatPrefix(Some("")) == ""
    ensures FormatPrefix(Some("/")) == ""
    ensures FormatPrefix(Some("a/")) == "/a"
    ensures FormatPrefix(Some("sense")) == "/sense"
    ensures FormatPrefix(Some("/sense/")) == "/sense"
    ensures FormatPrefix(Some("//")) == "/"
  {
  }

  /** What `showMethodInfo` reports about one registered method. */
  datatype Info = Info(name: string, verb: string, path: string, params: string, extended: string)

  /** The registry seen as values: what each name in `methods` reports, the
      order the names were added in, and what the shortcut under each name in
      `exec` would send. */
  datatype Table = Table(methods: map<string, Info>, order: seq<string>, exec: map<string, Info>) {
    ghost predicate Valid() {
      && (forall i, j :: 0 <= i < j < |order| ==> order[i] != order[j])
      && (forall i :: 0 <= i < |order| ==> order[i] in methods)
      && (forall k :: k in methods ==> k in order)
      && exec.Keys <= methods.Keys
      && (forall k :: k in methods ==> methods[k].name == k)
      && (forall k :: k in exec ==> exec[k].name == k)
    }
  }

  /** The table of a new registry. */
  function EmptyTable(): (t: Table)
    ensures t.Valid() && t.methods == map[] && t.order == []
  {
    Table(map[], [], map[])
  }

  /** `showMethodInfo`: the record of a registered name; `None` stands for
      the empty string returned for any other name. */
  function Show(t: Table, name: string): Option<Info> {
    if name in t.methods then Some(t.methods[name]) else None
  }

  /** `registerMethod` on the table: the verb guard, then the path check, then
      the duplicate check; on success `name` is added to both tables. */
  function Register(t: Table, name: string, verb: string, path: Option<string>, params: Option<string>, extended: Option<string>): (r: Result<Table, Error>)
    ensures VerbRejected(verb) ==> r == Failure(MethodNotAllowed)
    ensures !VerbRejected(verb) && path.None? ==> r == Failure(PathNotSpecified)
    ensures !VerbRejected(verb) && path.Some? && name in t.methods ==> r == Failure(MethodExists(name))
    ensures r.Success? <==> !VerbRejected(verb) && path.Some? && name !in t.methods
  {
    if VerbRejected(verb) then Failure(MethodNotAllowed)
    else if path.None? then Failure(PathNotSpecified)
    else if name in t.methods then Failure(MethodExists(name))
    else
      var info := Info(name, verb, path.value, params.GetOr(""), extended.GetOr(""));
      Success(Table(t.methods[name := info], t.order + [name], t.exec[name := info]))
  }

  /** A successful registration adds exactly `name`, to both tables, with
      the given verb and path; every other name reports what it did before. */
  lemma RegisterAddsExactly(t: Table, name: string, verb: string, path: Option<string>, params: Option<string>, extended: Option<string>)
    requires Register(t, name, verb, path, params, extended).Success?
    ensures var r := Register(t, name, verb, path, params, extended).value;
      var info := Info(name, verb, path.value, params.GetOr(""), extended.GetOr(""));
      && Show(r, name) == Some(info)
      && name in r.exec && r.exec[name] == info
      && r.methods.Keys == t.methods.Keys + {name}
      && r.exec.Keys == t.exec.Keys + {name}
      && (forall n :: n != name ==> Show(r, n) == Show(t, n))
      && (forall n :: n != name && n in t.exec ==> r.exec[n] == t.exec[n])
      && (t.Valid() ==> r.Valid())
  {
    if t.Valid() {
      RegisterKeepsValid(t, name, verb, path, params, extended);
    }
  }

  /** A successful registration keeps the table well formed. */
  lemma RegisterKeepsValid(t: Table, name: string, verb: string, path: Option<string>, params: Option<string>, extended: Option<string>)
    requires t.Valid() && Register(t, name, verb, path, params, extended).Success?
    ensures Register(t, name, verb, path, params, extended).value.Valid()
  {
    StoreKeepsValid(t, name, Info(name, verb, path.value, params.GetOr(""), extended.GetOr("")));
  }

  /** The records of `names`, in that order. */
  function InfosOf(methods: map<string, Info>, names: seq<string>): (r: seq<Info>)
    requires forall i :: 0 <= i < |names| ==> names[i] in methods
    ensures |r| == |names|
    ensures forall i :: 0 <= i < |names| ==> r[i] == methods[names[i]]
    decreases |names|
  {
    if names == [] then []
    else InfosOf(methods, names[..|names| - 1]) + [methods[names[|names| - 1]]]
  }

  /** Listing one more name after names whose records did not change. */
  lemma InfosOfExtend(m: map<string, Info>, m': map<string, Info>, names: seq<string>, x: string)
    requires forall i :: 0 <= i < |names| ==> names[i] in m && names[i] in m' && m'[names[i]] == m[names[i]]
    requires x in m'
    ensures InfosOf(m', names + [x]) == InfosOf(m, names) + [m'[x]]
  {
    assert (names + [x])[..|names|] == names;
    assert InfosOf(m', names) == InfosOf(m, names);
  }

  /** Listing one more name of `names` appends that name's record. */
  lemma InfosOfPrefix(methods: map<string, Info>, names: seq<string>, i: nat)
    requires forall k :: 0 <= k < |names| ==> names[k] in methods
    requires i < |names|
    ensures InfosOf(methods, names[..i + 1]) == InfosOf(methods, names[..i]) + [methods[names[i]]]
  {
    assert names[..i + 1][..i] == names[..i];
  }

  /** `showAllMethodsInfo`: every record, in registration order. */
  function ShowAll(t: Table): (r: seq<Info>)
    requires t.Valid()
    ensures |r| == |t.order|
    ensures forall i :: 0 <= i < |r| ==> r[i].name == t.order[i] && Show(t, t.order[i]) == Some(r[i])
  {
    InfosOf(t.methods, t.order)
  }

  /** A successful registration appends its record to the list. */
  lemma ShowAllAfterRegister(t: Table, name: string, verb: string, path: Option<string>, params: Option<string>, extended: Option<string>)
    requires t.Valid() && Register(t, name, verb, path, params, extended).Success?
    ensures var t' := Register(t, name, verb, path, params, extended).value;
      ShowAll(t') == ShowAll(t) + [Info(name, verb, path.value, params.GetOr(""), extended.GetOr(""))]
  {
    RegisterKeepsValid(t, name, verb, path, params, extended);
    var info := Info(name, verb, path.value, params.GetOr(""), extended.GetOr(""));
    InfosOfExtend(t.methods, t.methods[name := info], t.order, name);
  }

  /** The order without `x`. */
  function RemoveName(s: seq<string>, x: string): (r: seq<string>)
    ensures forall y :: y in r <==> y in s && y != x
    ensures x !in s ==> r == s
    ensures (forall i, j :: 0 <= i < j < |s| ==> s[i] != s[j]) ==> (forall i, j :: 0 <= i < j < |r| ==> r[i] != r[j])
    decreases |s|
  {
    if s == [] then []
    else if s[0] == x then RemoveName(s[1..], x)
    else
      var rest := RemoveName(s[1..], x);
      assert s[0] !in s[1..] ==> s[0] !in rest;
      [s[0]] + rest
  }

  /** `deleteMethod` on the table: removes `name` from both tables and says
      whether it was registered. */
  function Delete(t: Table, name: string): (r: (Table, bool))
    ensures r.1 <==> name in t.methods
    ensures Show(r.0, name) == None
    ensures forall n :: n != name ==> Show(r.0, n) == Show(t, n)
    ensures forall n :: n != name && n in t.exec ==> n in r.0.exec && r.0.exec[n] == t.exec[n]
    ensures r.1 ==> r.0.exec.Keys == t.exec.Keys - {name}
    ensures !r.1 ==> r.0 == t
    ensures t.Valid() ==> r.0.Valid() && name !in r.0.exec
  {
    if name in t.methods then
      var order := RemoveName(t.order, name);
      var d := Table(t.methods - {name}, order, t.exec - {name});
      assert t.Valid() ==> d.Valid() by {
        if t.Valid() {
          RemoveKeepsValid(t, name);
        }
      }
      (d, true)
    else (t, false)
  }

  /** Removing a name from both tables and from the order keeps a table
      valid. */
  lemma RemoveKeepsValid(t: Table, name: string)
    requires t.Valid()
    ensures Table(t.methods - {name}, RemoveName(t.order, name), t.exec - {name}).Valid()
  {
    var order := RemoveName(t.order, name);
    forall i | 0 <= i < |order| ensures order[i] in t.methods - {name} {
      assert order[i] in order;
    }
  }

  /** Deleting what was just registered gives the table back; a second delete
      finds nothing. */
  lemma RegisterDeleteRoundTrip(t: Table, name: string, verb: string, path: Option<string>, params: Option<string>, extended: Option<string>)
    requires t.Valid() && Register(t, name, verb, path, params, extended).Success?
    ensures var t' := Register(t, name, verb, path, params, extended).value;
      Delete(t', name) == (t, true) && Delete(Delete(t', name).0, name) == (t, false)
  {
    var info := Info(name, verb, path.value, params.GetOr(""), extended.GetOr(""));
    DeleteAppended(t, name, info);
  }

  /** Deleting a name that was added last to both tables of a valid table
      is the table before it was added. */
  lemma DeleteAppended(t: Table, name: string, info: Info)
    requires t.Valid() && name !in t.methods
    ensures Delete(Table(t.methods[name := info], t.order + [name], t.exec[name := info]), name) == (t, true)
  {
    assert name !in t.order;
    RemoveLast(t.order, name);
    StoreThenRemove(t.methods, name, info);
    StoreThenRemove(t.exec, name, info);
  }

  /** Removing a key just stored under a fresh name gives the map back. */
  lemma StoreThenRemove(m: map<string, Info>, name: string, info: Info)
    requires name !in m
    ensures m[name := info] - {name} == m
  {
    assert (m[name := info] - {name}).Keys == m.Keys;
  }

  /** Removing a name that only ends the order drops just that last entry. */
  lemma {:induction false} RemoveLast(s: seq<string>, x: string)
    requires x !in s
    ensures RemoveName(s + [x], x) == s
    decreases |s|
  {
    if s == [] {
      assert [x][1..] == [];
    } else {
      assert (s + [x])[1..] == s[1..] + [x];
      RemoveLast(s[1..], x);
      assert s == [s[0]] + s[1..];
    }
  }

  /** Removing a name that occurs once keeps the other names in their
      order. */
  lemma {:induction false} RemoveMiddle(a: seq<string>, x: string, b: seq<string>)
    requires x !in a && x !in b
    ensures RemoveName(a + [x] + b, x) == a + b
    decreases |a|
  {
    if a == [] {
      assert (a + [x] + b)[1..] == b;
      assert a + b == b;
    } else {
      assert (a + [x] + b)[1..] == a[1..] + [x] + b;
      RemoveMiddle(a[1..], x, b);
      assert a + b == [a[0]] + (a[1..] + b);
    }
  }

  /** The records of `a + b` in a map that kept every name but `x` are the
      records of `a + [x] + b` with the one of `x` left out. */
  lemma InfosOfWithout(m: map<string, Info>, m': map<string, Info>, a: seq<string>, x: string, b: seq<string>)
    requires forall i :: 0 <= i < |a + [x] + b| ==> (a + [x] + b)[i] in m
    requires x !in a && x !in b
    requires forall n :: n in m && n != x ==> n in m' && m'[n] == m[n]
    ensures forall i :: 0 <= i < |a + b| ==> (a + b)[i] in m'
    ensures InfosOf(m', a + b) == InfosOf(m, a + [x] + b)[..|a|] + InfosOf(m, a + [x] + b)[|a| + 1..]
  {
    var order, order' := a + [x] + b, a + b;
    forall i | 0 <= i < |order'| ensures order'[i] in m' && order'[i] != x {
      if i < |a| {
        assert order'[i] == a[i] == order[i];
      } else {
        assert order'[i] == b[i - |a|] == order[i + 1];
      }
    }
    var all, all' := InfosOf(m, order), InfosOf(m', order');
    forall k | 0 <= k < |all'| ensures all'[k] == (all[..|a|] + all[|a| + 1..])[k] {
      if k < |a| {
        assert order'[k] == order[k];
      } else {
        assert order'[k] == order[k + 1];
      }
    }
  }

  /** A list without repeats, cut around one position: that element occurs
      on neither side. */
  lemma DistinctSplit(s: seq<string>, i: nat)
    requires forall j, k :: 0 <= j < k < |s| ==> s[j] != s[k]
    requires i < |s|
    ensures s == s[..i] + [s[i]] + s[i + 1..]
    ensures s[i] !in s[..i] && s[i] !in s[i + 1..]
  {
    forall j | 0 <= j < i ensures s[..i][j] != s[i] {
      assert s[..i][j] == s[j];
    }
    var after := s[i + 1..];
    forall j | 0 <= j < |after| ensures after[j] != s[i] {
      assert after[j] == s[i + 1 + j];
    }
  }

  /** After a delete, the listing is the old listing without the deleted
      record: the other methods stay in registration order. */
  lemma DeleteKeepsListOrder(t: Table, name: string)
    requires t.Valid() && name in t.methods
    ensures exists i :: (0 <= i < |t.order| && t.order[i] == name
      && ShowAll(Delete(t, name).0) == ShowAll(t)[..i] + ShowAll(t)[i + 1..])
  {
    var i :| 0 <= i < |t.order| && t.order[i] == name;
    var a, b := t.order[..i], t.order[i + 1..];
    DistinctSplit(t.order, i);
    RemoveMiddle(a, name, b);
    InfosOfWithout(t.methods, t.methods - {name}, a, name, b);
    assert Delete(t, name).0 == Table(t.methods - {name}, a + b, t.exec - {name});
  }

  /** `setMethod` on the table: `methods[name]` becomes the record of the
      given object under `name`; `exec` is left alone, so a shortcut already
      under `name` keeps sending the old method. */
  function SetEntry(t: Table, name: string, info: Info): (r: Table)
    ensures Show(r, name) == Some(info.(name := name))
    ensures forall n :: n != name ==> Show(r, n) == Show(t, n)
    ensures r.exec == t.exec
    ensures t.Valid() ==> r.Valid()
  {
    var r := Table(t.methods[name := info.(name := name)], if name in t.methods then t.order else t.order + [name], t.exec);
    assert t.Valid() ==> r.Valid() by {
      if t.Valid() {
        StoreKeepsValid(t, name, info.(name := name));
      }
    }
    r
  }

  /** Storing a record under its own name keeps a table valid, adding the
      name to the order when it is new. */
  lemma StoreKeepsValid(t: Table, name: string, info: Info)
    requires t.Valid() && info.name == name
    ensures Table(t.methods[name := info], if name in t.methods then t.order else t.order + [name], t.exec).Valid()
  {
    var r := Table(t.methods[name := info], if name in t.methods then t.order else t.order + [name], t.exec);
    forall k | k in r.methods ensures k in r.order {
      if k != name {
        var i :| 0 <= i < |t.order| && t.order[i] == k;
        assert r.order[i] == k;
      }
    }
    forall i | 0 <= i < |r.order| ensures r.order[i] in r.methods {
      if i < |t.order| { assert r.order[i] == t.order[i]; }
    }
  }

  /** Setting a name that was not registered appends it to the list; setting
      a registered one keeps its place. */
  lemma SetEntryOrder(t: Table, name: string, info: Info)
    requires t.Valid()
    ensures name in t.methods ==> SetEntry(t, name, info).order == t.order
    ensures name !in t.methods ==> ShowAll(SetEntry(t, name, info)) == ShowAll(t) + [info.(name := name)]
  {
    var r := SetEntry(t, name, info);
    if name !in t.methods {
      InfosOfExtend(t.methods, r.methods, t.order, name);
    }
  }

  /** One parsed schema entry: `{method, path, extended}`. */
  datatype Entry = Entry(verb: string, path: string, extended: Option<string>)

  /** `path.split('?')[0]`: the path before the first `?`. */
  function PathPart(path: string): (r: string)
    ensures '?' !in r && r <= path
    ensures '?' !in path ==> r == path
    ensures r == path || (|r| < |path| && path[|r|] == '?')
  {
    SplitPieces(path, '?');
    Split(path, '?')[0]
  }

  /** `path.split('?')[1]`: the text between the first and the second `?`,
      undefined when there is no `?`. */
  function ParamsPart(path: string): (r: Option<string>)
    ensures r.None? <==> '?' !in path
    ensures r.Some? ==> '?' !in r.value && PathPart(path) + "?" + r.value <= path
    ensures r.Some? ==> var n := |PathPart(path)| + 1 + |r.value|; n == |path| || (n < |path| && path[n] == '?')
  {
    SplitPieces(path, '?');
    var parts := Split(path, '?');
    if |parts| > 1 then Some(parts[1]) else None
  }

  /** The segments import keeps: all but `''` and `'qrs'`. */
  predicate KeptSegment(elem: string) {
    elem != "" && elem != "qrs"
  }

  /** A kept segment as it enters the name: its first `{` and then its first
      `}` removed, and its first character upper-cased. */
  function FormatSegment(elem: string): string {
    UpperFirst(ReplaceFirst(ReplaceFirst(elem, "{", ""), "}", ""))
  }

  /** What one segment adds to the name. */
  function SegmentText(elem: string): string {
    if KeptSegment(elem) then FormatSegment(elem) else ""
  }

  /** The name `importMethods` derives for an entry: the lower-cased verb,
      then what each `/`-segment of the path before the first `?` adds. */
  function MethodName(verb: string, path: string): string {
    ToLower(verb) + ConcatMap(SegmentText, Split(PathPart(path), '/'))
  }

  /** The segments of a path that starts with `/`. */
  lemma SplitLeadingSlash(rest: string)
    ensures Split("/" + rest, '/') == [""] + Split(rest, '/')
  {
    assert "/" + rest == "" + ['/'] + rest;
    SplitAtSeparator("", '/', rest);
  }

  /** The segments of a path that starts with `/qrs/`. */
  lemma SplitLeadingQrs(rest: string)
    ensures Split("/qrs/" + rest, '/') == ["", "qrs"] + Split(rest, '/')
  {
    assert "/qrs/" + rest == "/" + ("qrs" + ['/'] + rest);
    SplitLeadingSlash("qrs" + ['/'] + rest);
    SplitAtSeparator("qrs", '/', rest);
  }

  /** A leading `/qrs` segment does not enter the name, so `/qrs/user` and
      `/user` give the same name. */
  lemma QrsSegmentIgnored(verb: string, rest: string)
    requires '?' !in rest
    ensures MethodName(verb, "/qrs/" + rest) == MethodName(verb, "/" + rest)
  {
    var segs := Split(rest, '/');
    SplitLeadingQrs(rest);
    SplitLeadingSlash(rest);
    assert PathPart("/qrs/" + rest) == "/qrs/" + rest;
    assert PathPart("/" + rest) == "/" + rest;
    ConcatMapAppend(SegmentText, ["", "qrs"], segs);
    ConcatMapAppend(SegmentText, [""], segs);
    assert ConcatMap(SegmentText, ["", "qrs"]) == "" by {
      assert ["", "qrs"][..1] == [""];
    }
  }

  /** The query part of the path does not enter the name. */
  lemma MethodNameIgnoresQuery(verb: string, path: string, query: string)
    requires '?' !in path
    ensures MethodName(verb, path + "?" + query) == MethodName(verb, path)
  {
    SplitAtSeparator(path, '?', query);
    SplitWithoutSeparator(path, '?');
  }

  /** A kept segment without braces enters the name capitalised. */
  lemma PlainSegmentText(elem: string)
    requires KeptSegment(elem) && '{' !in elem && '}' !in elem
    ensures SegmentText(elem) == UpperFirst(elem)
  {
    NoBraces(elem);
  }

  /** The braced segment of the unit tests loses its braces. */
  lemma BracedSegmentText()
    ensures SegmentText("{id}") == "Id"
  {
    OpenBraceRemoved();
    CloseBraceRemoved();
  }

  /** The first `replace` of `{id}` drops its opening brace. */
  lemma OpenBraceRemoved()
    ensures ReplaceFirst("{id}", "{", "") == "id}"
  {
    var s := "{id}";
    assert OccursAt(s, "{", 0);
    ReplaceFirstSplice(s, "{", "", 0);
    assert s[1..] == "id}";
  }

  /** The second `replace` drops the closing brace. */
  lemma CloseBraceRemoved()
    ensures ReplaceFirst("id}", "}", "") == "id"
  {
    var s := "id}";
    assert OccursAt(s, "}", 2);
    assert s[0..1][0] == 'i' && s[1..2][0] == 'd';
    assert forall k: nat :: k < 2 ==> !OccursAt(s, "}", k);
    ReplaceFirstSplice(s, "}", "", 2);
    assert s[..2] == "id" && s[3..] == "";
  }

  /** The name of a path whose part before `?` has the given segments. */
  lemma MethodNameBySegments(verb: string, path: string, segments: seq<string>)
    requires Split(PathPart(path), '/') == segments
    ensures MethodName(verb, path) == ToLower(verb) + ConcatMap(SegmentText, segments)
  {
  }

  /** An empty leading segment adds nothing to the name. */
  lemma LeadingEmptySegment(segments: seq<string>)
    ensures ConcatMap(SegmentText, [""] + segments) == ConcatMap(SegmentText, segments)
  {
    ConcatMapAppend(SegmentText, [""], segments);
    assert ConcatMap(SegmentText, [""]) == "" by {
      assert [""][..0] == [];
    }
  }

  /** The name of a `/qrs/` path given by the segments after `/qrs/`. */
  lemma QrsMethodName(verb: string, segments: seq<string>)
    requires |segments| >= 1
    requires forall i :: 0 <= i < |segments| ==> '/' !in segments[i] && '?' !in segments[i]
    ensures MethodName(verb, "/qrs/" + Join(segments, '/')) == ToLower(verb) + ConcatMap(SegmentText, segments)
  {
    var rest := Join(segments, '/');
    assert '?' !in rest by {
      JoinHasNo(segments, '/', '?');
    }
    assert MethodName(verb, "/qrs/" + rest) == MethodName(verb, "/" + rest) by {
      QrsSegmentIgnored(verb, rest);
    }
    assert Split(PathPart("/" + rest), '/') == [""] + segments by {
      SplitJoin(segments, '/');
      SplitLeadingSlash(rest);
    }
    MethodNameBySegments(verb, "/" + rest, [""] + segments);
    LeadingEmptySegment(segments);
  }

  /** What three segments add to a name. */
  lemma ThreeSegments(a: string, b: string, c: string)
    ensures ConcatMap(SegmentText, [a, b, c]) == SegmentText(a) + SegmentText(b) + SegmentText(c)
  {
    assert [a, b, c][..2] == [a, b];
    assert [a, b][..1] == [a];
    assert [a][..0] == [];
    assert ConcatMap(SegmentText, [a]) == SegmentText(a);
  }

  /** What one segment adds to a name. */
  lemma OneSegment(a: string)
    ensures ConcatMap(SegmentText, [a]) == SegmentText(a)
  {
    assert [a][..0] == [];
  }

  /** The name of a one-segment `/qrs/` path. */
  lemma OneSegmentMethodName(verb: string, segment: string)
    requires KeptSegment(segment) && '/' !in segment && '?' !in segment && '{' !in segment && '}' !in segment
    ensures MethodName(verb, "/qrs/" + segment) == ToLower(verb) + UpperFirst(segment)
  {
    var segments := [segment];
    assert forall i :: 0 <= i < |segments| ==> '/' !in segments[i] && '?' !in segments[i];
    QrsMethodName(verb, segments);
    OneSegment(segment);
    PlainSegmentText(segment);
    assert Join(segments, '/') == segment;
  }

  /** A `/qrs/` path of three segments is their join. */
  lemma QrsPathOfThree(a: string, b: string, c: string)
    ensures "/qrs/" + a + "/" + b + "/" + c == "/qrs/" + Join([a, b, c], '/')
  {
    assert [a, b, c][1..] == [b, c];
    assert [b, c][1..] == [c];
    assert Join([b, c], '/') == b + "/" + c;
    assert Join([a, b, c], '/') == a + "/" + (b + "/" + c);
  }

  /** The name of a `/qrs/` path of three segments. */
  lemma ThreeSegmentMethodName(verb: string, a: string, b: string, c: string)
    requires '/' !in a && '?' !in a && '/' !in b && '?' !in b && '/' !in c && '?' !in c
    ensures MethodName(verb, "/qrs/" + a + "/" + b + "/" + c) == ToLower(verb) + SegmentText(a) + SegmentText(b) + SegmentText(c)
  {
    var segments := [a, b, c];
    assert forall i :: 0 <= i < |segments| ==> '/' !in segments[i] && '?' !in segments[i];
    QrsMethodName(verb, segments);
    QrsPathOfThree(a, b, c);
    ThreeSegments(a, b, c);
  }

  /** The name of `POST /qrs/user` in the unit tests. */
  lemma PostUserName()
    ensures MethodName("POST", "/qrs/" + "user") == "postUser"
  {
    OneSegmentMethodName("POST", "user");
  }

  /** The name of `GET /qrs/about` in the unit tests. */
  lemma GetAboutName()
    ensures MethodName("GET", "/qrs/" + "about") == "getAbout"
  {
    OneSegmentMethodName("GET", "about");
  }

  /** The name of `GET /qrs/app/{id}/export` in the unit tests: the braces
      of `{id}` are dropped and each segment is capitalised. */
  lemma GetAppIdExportName()
    ensures MethodName("GET", "/qrs/" + "app" + "/" + "{id}" + "/" + "export") == "getAppIdExport"
  {
    ThreeSegmentMethodName("GET", "app", "{id}", "export");
    AppSegmentText();
    ExportSegmentText();
    BracedSegmentText();
    GetLowered();
    GetAppIdExportGlued();
  }

  /** The `app` segment enters the name capitalised. */
  lemma AppSegmentText()
    ensures SegmentText("app") == "App"
  {
    PlainSegmentText("app");
  }

  /** The `export` segment enters the name capitalised. */
  lemma ExportSegmentText()
    ensures SegmentText("export") == "Export"
  {
    PlainSegmentText("export");
  }

  /** The verb of that test, lower-cased. */
  lemma GetLowered()
    ensures ToLower("GET") == "get"
  {
  }

  /** The pieces of that name, glued. */
  lemma GetAppIdExportGlued()
    ensures "get" + "App" + "Id" + "Export" == "getAppIdExport"
  {
  }

  /** A segment without braces is only capitalised. */
  lemma NoBraces(elem: string)
    requires '{' !in elem && '}' !in elem
    ensures FormatSegment(elem) == UpperFirst(elem)
  {
    ReplaceAbsentChar(elem, '{', "");
    ReplaceAbsentChar(elem, '}', "");
  }

  /** A path built from slash-free segments splits back into them. */
  lemma PathSegments(segments: seq<string>)
    requires |segments| >= 1
    requires forall i :: 0 <= i < |segments| ==> '/' !in segments[i] && '?' !in segments[i]
    ensures '?' !in Join(segments, '/')
    ensures Split(PathPart(Join(segments, '/')), '/') == segments
  {
    SplitJoin(segments, '/');
    JoinHasNo(segments, '/', '?');
  }

  /** A join contains a character only if a piece does or it is the separator. */
  lemma {:induction false} JoinHasNo(parts: seq<string>, c: char, x: char)
    requires x != c
    requires forall i :: 0 <= i < |parts| ==> x !in parts[i]
    ensures x !in Join(parts, c)
    decreases |parts|
  {
    if |parts| > 1 {
      JoinHasNo(parts[1..], c, x);
    }
  }

  /** The table after registering one entry of an import: the entry's record
      under its derived name, or the error of `Register`. */
  function RegisterEntry(t: Table, e: Entry): (r: Result<Table, Error>)
    ensures r.Success? <==> !VerbRejected(e.verb) && MethodName(e.verb, e.path) !in t.methods
    ensures r.Success? ==> r.value.methods == t.methods[MethodName(e.verb, e.path) := EntryInfo(e)]
    ensures r.Failure? ==> r.error != PathNotSpecified
  {
    Register(t, MethodName(e.verb, e.path), e.verb, Some(PathPart(e.path)), ParamsPart(e.path), e.extended)
  }

  /** `importMethods` on the table: the entries are registered in order, and
      the first failure ends the import with the table as it was then. */
  function Import(t: Table, entries: seq<Entry>): (r: (Table, Outcome<Error>))
    ensures t.Valid() ==> r.0.Valid()
    ensures r.1 != Fail(PathNotSpecified)
    decreases |entries|
  {
    if entries == [] then (t, Pass)
    else
      var e := entries[0];
      match RegisterEntry(t, e)
      case Failure(err) => (t, Fail(err))
      case Success(t') =>
        RegisterAddsExactly(t, MethodName(e.verb, e.path), e.verb, Some(PathPart(e.path)), ParamsPart(e.path), e.extended);
        Import(t', entries[1..])
  }

  /** One step of an import: a registered first entry, then the rest. */
  lemma ImportStep(t: Table, entries: seq<Entry>)
    requires entries != []
    ensures RegisterEntry(t, entries[0]).Failure? ==> Import(t, entries) == (t, Fail(RegisterEntry(t, entries[0]).error))
    ensures RegisterEntry(t, entries[0]).Success? ==> Import(t, entries) == Import(RegisterEntry(t, entries[0]).value, entries[1..])
  {
  }

  /** The first entry of `a` registers the same way whether or not `b`
      follows it. */
  lemma ImportAppendStep(t: Table, t': Table, a: seq<Entry>, b: seq<Entry>)
    requires a != [] && RegisterEntry(t, a[0]) == Success(t')
    ensures Import(t, a) == Import(t', a[1..])
    ensures Import(t, a + b) == Import(t', a[1..] + b)
  {
    assert (a + b)[0] == a[0] && (a + b)[1..] == a[1..] + b;
  }

  /** Importing two lists in turn is importing their concatenation, as long
      as the first succeeds. */
  lemma {:induction false} ImportAppend(t: Table, a: seq<Entry>, b: seq<Entry>)
    requires Import(t, a).1 == Pass
    ensures Import(t, a + b) == Import(Import(t, a).0, b)
    decreases |a|
  {
    if a == [] {
      assert a + b == b;
    } else {
      var t' := RegisterEntry(t, a[0]).value;
      ImportAppendStep(t, t', a, b);
      ImportAppend(t', a[1..], b);
    }
  }

  /** Entry `k` is the one that failed: the entries before it were all
      registered, giving the table the import ended with, and registering
      entry `k` on that table throws the import's error. */
  predicate FailedAt(t: Table, entries: seq<Entry>, k: nat)
    requires k < |entries|
  {
    var before := Import(t, entries[..k]);
    && Import(t, entries).1.Fail?
    && before == (Import(t, entries).0, Pass)
    && RegisterEntry(before.0, entries[k]) == Failure(Import(t, entries).1.error)
  }

  /** A failed import stops at one entry and keeps every registration made
      before it. */
  lemma {:induction false} ImportStopsAtFailure(t: Table, entries: seq<Entry>)
    requires Import(t, entries).1.Fail?
    ensures exists k :: 0 <= k < |entries| && FailedAt(t, entries, k)
    decreases |entries|
  {
    ImportStep(t, entries);
    match RegisterEntry(t, entries[0])
    case Failure(err) =>
      assert entries[..0] == [];
      assert FailedAt(t, entries, 0);
    case Success(t') =>
      ImportStopsAtFailure(t', entries[1..]);
      var k :| 0 <= k < |entries[1..]| && FailedAt(t', entries[1..], k);
      FailedAtShift(t, t', entries, k);
  }

  /** A failure at entry `k` after a registered first entry is a failure at
      entry `k + 1` of the whole list. */
  lemma FailedAtShift(t: Table, t': Table, entries: seq<Entry>, k: nat)
    requires entries != [] && RegisterEntry(t, entries[0]) == Success(t')
    requires k < |entries[1..]| && FailedAt(t', entries[1..], k)
    ensures FailedAt(t, entries, k + 1)
  {
    var rest := entries[1..];
    ImportStep(t, entries);
    PrefixStep(t, t', entries, k);
    FailedAtTransfer(t, entries, k + 1, t', rest, k);
  }

  /** The first `k + 1` entries import like the first `k` of the rest, once
      the first entry has registered. */
  lemma PrefixStep(t: Table, t': Table, entries: seq<Entry>, k: nat)
    requires entries != [] && RegisterEntry(t, entries[0]) == Success(t')
    requires k < |entries| - 1
    ensures Import(t, entries[..k + 1]) == Import(t', entries[1..][..k])
    ensures entries[k + 1] == entries[1..][k]
  {
    var pre := entries[..k + 1];
    assert pre[0] == entries[0];
    assert pre[1..] == entries[1..][..k];
    ImportStep(t, pre);
  }

  /** Two imports that agree on the whole list and on the prefix, with the
      same next entry, fail at corresponding positions. */
  lemma FailedAtTransfer(t: Table, entries: seq<Entry>, k: nat, t': Table, rest: seq<Entry>, k': nat)
    requires k < |entries| && k' < |rest|
    requires Import(t, entries) == Import(t', rest)
    requires Import(t, entries[..k]) == Import(t', rest[..k'])
    requires entries[k] == rest[k']
    requires FailedAt(t', rest, k')
    ensures FailedAt(t, entries, k)
  {
  }

  /** The record import makes for an entry: its derived name, its verb, the
      path before the first `?`, and the text after it as parameters. */
  function EntryInfo(e: Entry): (r: Info)
    ensures r.name == MethodName(e.verb, e.path) && r.verb == e.verb
    ensures '?' !in r.path && r.path <= e.path
    ensures r.path == e.path || (|r.path| < |e.path| && e.path[|r.path|] == '?')
    ensures '?' !in e.path ==> r.path == e.path && r.params == ""
    ensures '?' in e.path ==> '?' !in r.params && r.path + "?" + r.params <= e.path
    ensures '?' in e.path ==> var n := |r.path| + 1 + |r.params|; n == |e.path| || (n < |e.path| && e.path[n] == '?')
    ensures r.extended == e.extended.GetOr("")
  {
    Info(MethodName(e.verb, e.path), e.verb, PathPart(e.path), ParamsPart(e.path).GetOr(""), e.extended.GetOr(""))
  }

  /** The records import makes for the entries, in order. */
  function EntryInfos(entries: seq<Entry>): (r: seq<Info>)
    decreases |entries|
  {
    if entries == [] then [] else [EntryInfo(entries[0])] + EntryInfos(entries[1..])
  }

  /** Registering one import entry appends its record to the list. */
  lemma RegisterEntryAppends(t: Table, e: Entry)
    requires t.Valid() && RegisterEntry(t, e).Success?
    ensures RegisterEntry(t, e).value.Valid()
    ensures ShowAll(RegisterEntry(t, e).value) == ShowAll(t) + [EntryInfo(e)]
  {
    ShowAllAfterRegister(t, MethodName(e.verb, e.path), e.verb, Some(PathPart(e.path)), ParamsPart(e.path), e.extended);
    RegisterAddsExactly(t, MethodName(e.verb, e.path), e.verb, Some(PathPart(e.path)), ParamsPart(e.path), e.extended);
  }

  /** Regrouping of a list built in two steps. */
  lemma AppendChain(r: seq<Info>, a: seq<Info>, mid: seq<Info>, x: Info, b: seq<Info>, all: seq<Info>)
    requires r == mid + b && mid == a + [x] && all == [x] + b
    ensures r == a + all
  {
  }

  /** A successful import lists the new methods after the old ones, one per
      entry and in entry order. */
  lemma {:induction false} ImportListsInOrder(t: Table, entries: seq<Entry>)
    requires t.Valid() && Import(t, entries).1 == Pass
    ensures ShowAll(Import(t, entries).0) == ShowAll(t) + EntryInfos(entries)
    decreases |entries|
  {
    if entries != [] {
      var e := entries[0];
      var t' := RegisterEntry(t, e).value;
      var rest := entries[1..];
      ImportStep(t, entries);
      RegisterEntryAppends(t, e);
      ImportListsInOrder(t', rest);
      AppendChain(ShowAll(Import(t, entries).0), ShowAll(t), ShowAll(t'), EntryInfo(e), EntryInfos(rest), EntryInfos(entries));
    }
  }

  /** Two entries whose names collide: the first is registered and the
      second aborts the import with the duplicate-name error. */
  lemma ImportCollision(t: Table, e1: Entry, e2: Entry)
    requires !VerbRejected(e1.verb)
    requires MethodName(e1.verb, e1.path) == MethodName(e2.verb, e2.path)
    requires MethodName(e1.verb, e1.path) !in t.methods
    ensures RegisterEntry(t, e1).Success?
    ensures Import(t, [e1, e2]) == (RegisterEntry(t, e1).value, Fail(if VerbRejected(e2.verb) then MethodNotAllowed else MethodExists(MethodName(e1.verb, e1.path))))
  {
    assert [e1, e2][1..] == [e2];
    assert [e2][1..] == [];
  }
}
