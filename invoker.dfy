/** One registered endpoint (lib/method.js): its options, the path-template
    substitution and query-string assembly done on every call, the request
    body, and the classification of the response chunks. */
module Invoker {
  import opened Wrappers
  import opened Errors
  import opened JsStrings

  /** The header whose value is appended to every query string. */
  const XrfKeyHeader: string := "X-qlik-xrfkey"

  /** The request headers. There is one such object per registry: the
      copies of the options made when a method is built and when it is
      called are shallow, so every method shares it. */
  class Headers {
    var entries: map<string, string>

    constructor (entries: map<string, string>)
      ensures this.entries == entries
    {
      this.entries := entries;
    }

    /** `headers[key] = value`. */
    method Set(key: string, value: string)
      modifies this
      ensures entries == old(entries)[key := value]
    {
      entries := entries[key := value];
    }
  }

  /** The connection part of the request options; `headers` is a reference. */
  datatype Connection = Connection(host: string, port: string, headers: Headers)

  /** A method's request options: the connection plus `method` (here `verb`) and `path`. */
  datatype Options = Options(conn: Connection, verb: string, path: string)

  /** `${headers['X-qlik-xrfkey']}`: an absent header prints as "undefined". */
  function XrfKey(headers: Headers): string
    reads headers
  {
    if XrfKeyHeader in headers.entries then headers.entries[XrfKeyHeader] else "undefined"
  }

  /** The arguments of one call. An absent `queryParams` or `templateParams`
      object is the empty sequence; the pairs are in key order. */
  datatype Args<J> = Args(body: Option<J>, queryParams: seq<(string, string)>, templateParams: seq<(string, string)>)

  /** The text `{key}` that a template parameter replaces. */
  function Placeholder(key: string): string {
    "{" + key + "}"
  }

  /** A text without `{` holds no placeholder, so `replace` leaves it as it
      is, whatever the value. */
  lemma PlaceholderAbsent(s: string, key: string, value: string)
    requires '{' !in s
    ensures ReplaceFirst(s, Placeholder(key), value) == s
  {
    var pat := Placeholder(key);
    forall k: nat ensures !OccursAt(s, pat, k) {
      if k + |pat| <= |s| {
        assert s[k..k + |pat|][0] == s[k];
      }
    }
    ReplaceFirstAbsent(s, pat, value);
  }

  /** The path after each template parameter in turn has replaced the first
      occurrence of its placeholder in the result of the previous ones. A
      template without `{` comes through unchanged. */
  function Substituted(path: string, templateParams: seq<(string, string)>): (r: string)
    ensures templateParams == [] ==> r == path
    ensures '{' !in path ==> r == path
    decreases |templateParams|
  {
    if templateParams == [] then path
    else
      var last := templateParams[|templateParams| - 1];
      var p := Substituted(path, templateParams[..|templateParams| - 1]);
      assert '{' !in path ==> ReplaceFirst(p, Placeholder(last.0), last.1) == path by {
        if '{' !in path {
          PlaceholderAbsent(p, last.0, last.1);
        }
      }
      ReplaceFirst(p, Placeholder(last.0), last.1)
  }

  /** The first parameter is applied to the template itself, and the rest see
      its replacement. */
  lemma {:induction false} SubstitutedFirst(path: string, key: string, value: string, rest: seq<(string, string)>)
    ensures Substituted(path, [(key, value)] + rest) == Substituted(ReplaceFirst(path, Placeholder(key), value), rest)
    decreases |rest|
  {
    var all := [(key, value)] + rest;
    if rest == [] {
      assert all[..0] == [];
    } else {
      var init := rest[..|rest| - 1];
      assert all[..|all| - 1] == [(key, value)] + init;
      SubstitutedFirst(path, key, value, init);
    }
  }

  /** A placeholder after text without `{` is the first one, so it is the
      one a value without `$` replaces. */
  lemma ReplacePlaceholder(base: string, key: string, tail: string, value: string)
    requires '{' !in base && '$' !in value
    ensures ReplaceFirst(base + Placeholder(key) + tail, Placeholder(key), value) == base + value + tail
  {
    var s := base + Placeholder(key) + tail;
    var pat := Placeholder(key);
    assert s[|base|..|base| + |pat|] == pat;
    forall k: nat | k < |base| ensures !OccursAt(s, pat, k) {
      assert s[k] == base[k];
      if k + |pat| <= |s| {
        assert s[k..k + |pat|][0] == s[k];
      }
    }
    assert OccursAt(s, pat, |base|);
    ReplaceFirstSpec(s, pat, value);
    assert ReplaceFirst(s, pat, value) == s[..|base|] + value + s[|base| + |pat|..];
    assert s[..|base|] == base && s[|base| + |pat|..] == tail;
  }

  /** One template parameter filling the only placeholder of a path. */
  lemma OneParameter(base: string, key: string, value: string)
    requires '{' !in base && '{' !in value && '$' !in value
    ensures TemplatePath(base + Placeholder(key), [(key, value)]) == Success(base + value)
  {
    var path := base + Placeholder(key);
    assert [(key, value)][..0] == [];
    assert Substituted(path, [(key, value)]) == ReplaceFirst(path, Placeholder(key), value);
    ReplacePlaceholder(base, key, "", value);
    assert path + "" == path && base + value + "" == base + value;
    NoPlaceholderLeft(base + value);
  }

  /** Template values reach `replace` as they are, so `$` patterns in them
      are expanded: the value `$&` puts the placeholder back, and the call
      throws although the parameter was given. */
  lemma DollarValueKeepsPlaceholder(key: string)
    requires SingleLine(key)
    ensures TemplatePath(Placeholder(key), [(key, "$&")]) == Failure(TemplateParameterMissing(Placeholder(key)))
  {
    var pat := Placeholder(key);
    assert [(key, "$&")][..0] == [];
    assert OccursAt(pat, pat, 0);
    ReplaceFirstSplice(pat, pat, "$&", 0);
    SubstitutionMatched(pat, "", "");
    assert pat[..0] == "" && pat[|pat|..] == "";
    PlaceholderLeft("", key, "");
    assert "" + pat + "" == pat;
  }

  /** A path without `{` never matches `/{.*}/`. */
  lemma NoPlaceholderLeft(p: string)
    requires '{' !in p
    ensures !MatchesBraces(p)
  {
  }

  /** A placeholder whose key is on one line is what `/{.*}/` detects. */
  lemma PlaceholderLeft(base: string, key: string, tail: string)
    requires SingleLine(key)
    ensures MatchesBraces(base + Placeholder(key) + tail)
  {
    var s := base + Placeholder(key) + tail;
    var i, j := |base|, |base| + |key| + 1;
    assert s[i] == '{' && s[j] == '}';
    assert s[i + 1..j] == key;
  }

  /** What `addTemplateParameters` returns or throws for a path template: the
      substituted path when no `{...}` is left on one line of it, and
      otherwise the error naming it. A template without `{` is returned as
      it is. */
  function TemplatePath(path: string, templateParams: seq<(string, string)>): (r: Result<string, Error>)
    ensures r.Success? ==> !MatchesBraces(r.value)
    ensures r.Failure? ==> r.error == TemplateParameterMissing(Substituted(path, templateParams))
    ensures r.Failure? ==> r.error.Message() == "Template parameter is missing: " + Substituted(path, templateParams)
    ensures '{' !in path ==> r == Success(path)
  {
    var p := Substituted(path, templateParams);
    if MatchesBraces(p) then Failure(TemplateParameterMissing(p)) else Success(p)
  }

  /** `addTemplateParameters`: substitutes the template parameters in order and
      throws when a `{...}` is left on one line of the result. */
  method AddTemplateParameters(options: Options, templateParams: seq<(string, string)>) returns (r: Result<string, Error>)
    ensures r.Success? <==> !MatchesBraces(Substituted(options.path, templateParams))
    ensures r.Success? ==> r.value == Substituted(options.path, templateParams)
    ensures r.Failure? ==> r.error == TemplateParameterMissing(Substituted(options.path, templateParams))
  {
    var newPath := options.path;
    for i := 0 to |templateParams|
      invariant newPath == Substituted(options.path, templateParams[..i])
    {
      assert templateParams[..i + 1][..i] == templateParams[..i];
      newPath := ReplaceFirst(newPath, Placeholder(templateParams[i].0), templateParams[i].1);
    }
    assert templateParams[..|templateParams|] == templateParams;
    if MatchesBraces(newPath) {
      return Failure(TemplateParameterMissing(newPath));
    }
    return Success(newPath);
  }

  /** One query parameter as written: `key=value`, without encoding. */
  function Pair(kv: (string, string)): string {
    kv.0 + "=" + kv.1
  }

  /** Each query parameter as written, in order. */
  function Pairs(queryParams: seq<(string, string)>): (r: seq<string>)
    ensures |r| == |queryParams|
    ensures forall i :: 0 <= i < |r| ==> r[i] == Pair(queryParams[i])
    decreases |queryParams|
  {
    if queryParams == [] then []
    else Pairs(queryParams[..|queryParams| - 1]) + [Pair(queryParams[|queryParams| - 1])]
  }

  /** The text after the key: `&key=value` for every query parameter in order. */
  function QueryTail(queryParams: seq<(string, string)>): string
    decreases |queryParams|
  {
    if queryParams == [] then ""
    else QueryTail(queryParams[..|queryParams| - 1]) + "&" + Pair(queryParams[|queryParams| - 1])
  }

  /** The full request path `addQueryParameters` builds: the path, the key,
      and then the parameters. */
  function QueryString(path: string, xrfkey: string, queryParams: seq<(string, string)>): (r: string)
    ensures path + "?xrfkey=" + xrfkey <= r
    ensures |r| == |path| + 8 + |xrfkey| + |QueryTail(queryParams)|
  {
    path + "?xrfkey=" + xrfkey + QueryTail(queryParams)
  }

  /** Without query parameters only the key is appended. */
  lemma NoQueryParameters(path: string, xrfkey: string)
    ensures QueryString(path, xrfkey, []) == path + "?xrfkey=" + xrfkey
  {
    assert path + "?xrfkey=" + xrfkey + "" == path + "?xrfkey=" + xrfkey;
  }

  /** `addQueryParameters`: appends `?xrfkey=<key>` and then `&key=value` for
      each query parameter, in order. */
  method AddQueryParameters(options: Options, queryParams: seq<(string, string)>) returns (r: string)
    ensures r == QueryString(options.path, XrfKey(options.conn.headers), queryParams)
    ensures options.path + "?xrfkey=" + XrfKey(options.conn.headers) <= r
  {
    var queryParameters := "?xrfkey=" + XrfKey(options.conn.headers);
    for i := 0 to |queryParams|
      invariant queryParameters == "?xrfkey=" + XrfKey(options.conn.headers) + QueryTail(queryParams[..i])
    {
      assert queryParams[..i + 1][..i] == queryParams[..i];
      queryParameters := queryParameters + "&" + queryParams[i].0 + "=" + queryParams[i].1;
    }
    assert queryParams[..|queryParams|] == queryParams;
    r := options.path + queryParameters;
  }

  /** The key and the parameters, joined by `&`, are exactly the text after
      `?xrfkey=`. */
  lemma {:induction false} QueryTailIsJoin(xrfkey: string, queryParams: seq<(string, string)>)
    ensures xrfkey + QueryTail(queryParams) == Join([xrfkey] + Pairs(queryParams), '&')
    decreases |queryParams|
  {
    if queryParams != [] {
      var init := queryParams[..|queryParams| - 1];
      var last := queryParams[|queryParams| - 1];
      QueryTailIsJoin(xrfkey, init);
      JoinSnoc([xrfkey] + Pairs(init), Pair(last), '&');
      assert [xrfkey] + Pairs(queryParams) == [xrfkey] + Pairs(init) + [Pair(last)];
    }
  }

  /** When neither the key nor any name or value contains `&`, splitting the
      text after `?xrfkey=` at `&` gives back the key and each parameter. */
  lemma QueryTailSplits(xrfkey: string, queryParams: seq<(string, string)>)
    requires '&' !in xrfkey
    requires forall i :: 0 <= i < |queryParams| ==> '&' !in queryParams[i].0 && '&' !in queryParams[i].1
    ensures Split(xrfkey + QueryTail(queryParams), '&') == [xrfkey] + Pairs(queryParams)
  {
    QueryTailIsJoin(xrfkey, queryParams);
    var parts := [xrfkey] + Pairs(queryParams);
    forall i | 0 <= i < |parts| ensures '&' !in parts[i] {
      if i > 0 {
        assert parts[i] == queryParams[i - 1].0 + "=" + queryParams[i - 1].1;
      }
    }
    SplitJoin(parts, '&');
  }

  /** The request one call sends: the options of the working copy, whose path
      is the assembled one, and the texts written before the request ends. */
  datatype Request = Request(options: Options, writes: seq<string>)

  /** What the callable of a method sends for `args`, or the error it throws
      before sending anything. */
  function Prepare<J>(options: Options, args: Args<J>, stringify: J -> string): (r: Result<Request, Error>)
    reads options.conn.headers
    ensures r.Failure? <==> MatchesBraces(Substituted(options.path, args.templateParams))
    ensures r.Failure? ==> r.error == TemplateParameterMissing(Substituted(options.path, args.templateParams))
    ensures r.Success? ==> r.value.options.conn == options.conn && r.value.options.verb == options.verb
    ensures r.Success? ==>
      r.value.options.path == QueryString(Substituted(options.path, args.templateParams), XrfKey(options.conn.headers), args.queryParams)
    ensures r.Success? ==> r.value.writes == (if args.body.Some? then [stringify(args.body.value)] else [])
  {
    match TemplatePath(options.path, args.templateParams)
    case Failure(e) => Failure(e)
    case Success(p) =>
      var writes := if args.body.Some? then [stringify(args.body.value)] else [];
      Success(Request(options.(path := QueryString(p, XrfKey(options.conn.headers), args.queryParams)), writes))
  }

  /** How a call resolves: the decoded object, the raw concatenation of the
      chunks, or the decode failure of a chunk that looked like an object. */
  datatype Response<J> = Parsed(value: J) | Raw(data: string) | DecodeFailed(chunk: string)

  /** The index of the first chunk that looks like a whole object, if any. */
  function FirstObjectChunk(chunks: seq<string>): (r: Option<nat>)
    ensures r.Some? ==> r.value < |chunks| && MatchesWholeBraces(chunks[r.value])
    ensures r.Some? ==> forall j :: 0 <= j < r.value ==> !MatchesWholeBraces(chunks[j])
    ensures r.None? <==> forall j :: 0 <= j < |chunks| ==> !MatchesWholeBraces(chunks[j])
    decreases |chunks|
  {
    if chunks == [] then None
    else if MatchesWholeBraces(chunks[0]) then Some(0)
    else match FirstObjectChunk(chunks[1..])
      case None => None
      case Some(i) => Some(i + 1)
  }

  /** Adding one chunk at the end changes the first object chunk only when
      there was none before and the new chunk looks like an object. */
  lemma FirstObjectChunkStep(chunks: seq<string>, i: nat)
    requires i < |chunks|
    ensures FirstObjectChunk(chunks[..i + 1]) ==
      match FirstObjectChunk(chunks[..i])
      case Some(j) => Some(j)
      case None => if MatchesWholeBraces(chunks[i]) then Some(i) else None
  {
    var before, after := chunks[..i], chunks[..i + 1];
    assert forall j :: 0 <= j < i ==> after[j] == before[j];
    assert after[i] == chunks[i];
  }

  /** How the first chunk that looks like an object resolves the call. */
  function Resolution<J>(chunk: string, decode: string -> Option<J>): Response<J> {
    match decode(chunk)
    case Some(v) => Parsed(v)
    case None => DecodeFailed(chunk)
  }

  /** The value the call resolves with, for the chunks in arrival order: the
      raw concatenation exactly when no chunk looks like an object, and
      otherwise the resolution of the first chunk that does. */
  function Classify<J>(chunks: seq<string>, decode: string -> Option<J>): (r: Response<J>)
    ensures r.Raw? <==> forall j :: 0 <= j < |chunks| ==> !MatchesWholeBraces(chunks[j])
    ensures r.Raw? ==> r.data == Concat(chunks)
    ensures !r.Raw? ==> exists i :: (0 <= i < |chunks| && MatchesWholeBraces(chunks[i])
      && (forall j :: 0 <= j < i ==> !MatchesWholeBraces(chunks[j])) && r == Resolution(chunks[i], decode))
  {
    match FirstObjectChunk(chunks)
    case Some(i) => Resolution(chunks[i], decode)
    case None => Raw(Concat(chunks))
  }

  /** What the `data` handler has resolved the call with once `chunks` have
      arrived, if anything. */
  function ResolvedBy<J>(chunks: seq<string>, decode: string -> Option<J>): Option<Response<J>> {
    match FirstObjectChunk(chunks)
    case None => None
    case Some(j) => Some(Resolution(chunks[j], decode))
  }

  /** A later chunk resolves the call only when no earlier one has. */
  lemma ResolvedByStep<J>(chunks: seq<string>, i: nat, decode: string -> Option<J>)
    requires i < |chunks|
    ensures ResolvedBy(chunks[..i + 1], decode) ==
      if ResolvedBy(chunks[..i], decode).Some? then ResolvedBy(chunks[..i], decode)
      else if MatchesWholeBraces(chunks[i]) then Some(Resolution(chunks[i], decode))
      else None
  {
    FirstObjectChunkStep(chunks, i);
    match FirstObjectChunk(chunks[..i])
    case Some(j) =>
      assert chunks[..i + 1][j] == chunks[..i][j];
    case None =>
      assert chunks[..i + 1][i] == chunks[i];
  }

  /** The `data` and `end` handlers of the response: a chunk that looks like a
      whole object resolves the call with its decoding (later resolutions are
      ignored); any other chunk is kept, and `end` resolves with all kept
      chunks. */
  method Receive<J>(chunks: seq<string>, decode: string -> Option<J>) returns (r: Response<J>)
    ensures r == Classify(chunks, decode)
  {
    var resolved: Option<Response<J>> := None;
    var data: seq<string> := [];
    var dataLen := 0;
    for i := 0 to |chunks|
      invariant resolved == ResolvedBy(chunks[..i], decode)
      invariant resolved.None? ==> data == chunks[..i]
      invariant dataLen == |Concat(data)|
    {
      var d := chunks[i];
      ResolvedByStep(chunks, i, decode);
      if MatchesWholeBraces(d) {
        if resolved.None? {
          resolved := Some(Resolution(d, decode));
        }
      } else {
        assert (data + [d])[..|data|] == data;
        data := data + [d];
        dataLen := dataLen + |d|;
      }
    }
    assert chunks[..|chunks|] == chunks;
    if resolved.Some? {
      return resolved.value;
    }
    return Raw(Concat(data)[..dataLen]);
  }

  /** A registered endpoint. Nothing in the registry or the invoker assigns
      these fields after construction. */
  class Method {
    const name: string
    const params: string
    const extended: string
    const options: Options

    /** Stores the name, `params || ''`, `extended` or `''` when undefined, and
        the options with `method` (here `verb`) and `path` written into them. */
    constructor (name: string, verb: string, path: string, conn: Connection, params: Option<string>, extended: Option<string>)
      ensures this.name == name && options == Options(conn, verb, path)
      ensures this.params == params.GetOr("") && this.extended == extended.GetOr("")
    {
      this.name := name;
      this.params := params.GetOr("");
      this.options := Options(conn, verb, path);
      this.extended := extended.GetOr("");
    }

    /** The callable `getMethod` returns, up to the point where the request is
        handed to the transport: it works on a copy of the options, so the
        stored template is never changed. */
    method Invoke<J>(args: Args<J>, stringify: J -> string) returns (r: Result<Request, Error>)
      ensures r == Prepare(options, args, stringify)
    {
      var newOptions := options;
      var templated := AddTemplateParameters(newOptions, args.templateParams);
      if templated.Failure? {
        return Failure(templated.error);
      }
      newOptions := newOptions.(path := templated.value);
      var withQuery := AddQueryParameters(newOptions, args.queryParams);
      newOptions := newOptions.(path := withQuery);
      var writes: seq<string> := [];
      if args.body.Some? {
        writes := [stringify(args.body.value)];
      }
      r := Success(Request(newOptions, writes));
    }
  }
}
