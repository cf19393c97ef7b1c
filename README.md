# qrs-wrapper: a Dafny model of the method registry

qrs-wrapper is a small JavaScript client for the Qlik Sense Repository
Service (QRS) REST API. A `QlikSenseRepository` object holds one set of
connection options and a registry of named endpoints. Each `Method` knows its
HTTP verb and its path template. Calling a method's shortcut substitutes the
template parameters into the path, appends `?xrfkey=<key>` and the query
parameters, and sends the request. `importMethods` registers a whole schema
of endpoints and derives each method's name from its verb and path
(`GET /qrs/app/{id}/export` becomes `getAppIdExport`).

The model has seven modules:

- `Wrappers` and `Errors`: `Option`, `Result` and `Outcome`, and the four
  errors the library throws, with their exact message texts.
- `JsStrings`: the JavaScript string operations the code relies on.
  - `indexOf`.
  - `replace` with a string pattern: it replaces the first occurrence only,
    and substitutes `$` patterns in the replacement.
  - `split` and `join` on one character.
  - ASCII case conversion.
  - The two regular expressions `/{.*}/` and `/^{.*}$/`.
- `Invoker` (`lib/method.js`):
  - the `Method` class;
  - the shared `Headers` object;
  - `addTemplateParameters` and `addQueryParameters`, as methods with loops
    proved against the functions `Substituted` and `QueryString`;
  - the request a call sends;
  - the `data`/`end` handlers that decide how a call resolves.
- `Repository` (`lib/qrs.js` as values):
  - the verb guard;
  - `formatPrefix`;
  - the table of records;
  - the table functions `Register`, `Delete`, `SetEntry` and `Import`;
  - the name derivation `MethodName`.
- `Qrs`: the `QlikSenseRepository` class. Its `methods`, `exec` and `order`
  fields are updated in place. Every operation is proved against the table
  functions of `Repository` through `TableOf`, and keeps `Valid()`.
- `Scenarios`: client code shaped like the unit tests
  (`test/qrs-unit-test.js`). Each method drives a fresh registry through its
  operations, and its contract states what the test observes.

Some behaviours of the code differ from its documentation. The model follows
the code:

- The verb guard `!method.indexOf(['GET','POST','PUT','DELETE'])` searches
  the verb for the text `GET,POST,PUT,DELETE`. It rejects only verbs that
  begin with that text. So `A`, `PATCH` and the four verbs are all accepted
  (`VerbRejectedIffPrefix`, `VerbGuardExamples`, `Scenarios.UnlistedVerb`).
- `path` is checked only against `undefined` and `null`, so an empty path is
  registered.
- `Object.assign({}, this.options)` is a shallow copy. Every method therefore
  shares the registry's one headers object, and a header set through one
  method is seen by all of them (`Scenarios.SharedHeaders`).
- The `X-qlik-xrfkey` header carries the `xrfkey` option as given, not the
  defaulted `this.xrfkey`. Without the option, the query string reads
  `?xrfkey=undefined` (`Scenarios.MissingKey`).
- `setMethod` replaces `methods[name]` and leaves `exec[name]` bound to the
  old object (`Scenarios.StaleShortcut`).
- Template values are passed to `replace` as they are, so `$` patterns in a
  value are expanded. The value `$&` puts the placeholder back, and the call
  then throws the missing-parameter error
  (`Invoker.DollarValueKeepsPlaceholder`).
- A response chunk that looks like a whole object resolves the promise, and
  a promise resolves only once. So the first such chunk decides the result,
  and the `end` handler's buffer is used only when no chunk looked like an
  object.

## Model

| member | source | states |
|---|---|---|
| JsStrings.IndexOfFrom | lib/qrs.js:81 | the result is -1 or a position, at or after `from`, where the pattern occurs, and the pattern occurs at no earlier position from `from` |
| JsStrings.IndexOfZeroIffPrefix | lib/qrs.js:81 | `indexOf` gives 0 exactly when the pattern is a prefix of the string |
| JsStrings.ReplaceFirst | lib/method.js:96 | `s.replace(pat, rep)` with a string pattern: the text before the first occurrence, the substituted replacement, and the text after it; the string itself when the pattern does not occur |
| JsStrings.ReplaceFirstAbsent | lib/qrs.js:205 | when the pattern does not occur, `replace` returns the string unchanged, whatever the replacement |
| JsStrings.ReplaceFirstSplice | lib/method.js:96 | when the pattern occurs, `replace` keeps the text before its first occurrence and the text after it, and puts the replacement between them with its `$` patterns expanded |
| JsStrings.SubstitutionMatched | lib/method.js:96 | in a replacement, `$&` stands for the matched text |
| JsStrings.SubstitutionLiteral | lib/method.js:96 | a replacement text without `$` is inserted as it is |
| JsStrings.ReplaceFirstSpec | lib/method.js:96 | with a replacement without `$`, exactly the first occurrence of the pattern is swapped for the replacement itself |
| JsStrings.ReplaceAbsentChar | lib/qrs.js:205 | replacing a character the string does not contain leaves the string unchanged |
| JsStrings.Split | lib/qrs.js:201 | `split` gives at least one piece, and no piece contains the separator |
| JsStrings.JoinSplit | lib/qrs.js:201 | joining the pieces of a split gives the string back |
| JsStrings.SplitJoin | lib/qrs.js:201 | splitting a join of separator-free pieces gives the pieces back |
| JsStrings.SplitPieces | lib/qrs.js:210 | there is one piece exactly when the separator is absent; the first piece, and the first piece with the separator and the second piece, are prefixes of the string |
| JsStrings.SplitAtSeparator | lib/qrs.js:201 | the first separator cuts off exactly the first piece |
| JsStrings.JoinSnoc | lib/qrs.js:80-81 | joining one more piece appends the separator and that piece |
| JsStrings.ConcatMapAppend | lib/qrs.js:201-209 | the names built from two runs of segments concatenate |
| JsStrings.ToLower | lib/qrs.js:199 | `toLowerCase` on each character; only A-Z change |
| JsStrings.UpperFirst | lib/qrs.js:207 | the first character upper-cased (only a-z change) and the rest kept; the empty string stays empty |
| JsStrings.MatchesBraces | lib/method.js:99-100 | `/{.*}/` matches: some `{` is followed later by a `}` with no line terminator between them |
| JsStrings.MatchesWholeBraces | lib/method.js:56-57 | `/^{.*}$/` matches: the text starts with `{`, ends with `}` and holds no line terminator |
| Invoker.Headers.Set | test/qrs-unit-test.js:262 | assigning a header, as the export test does through `method.options.headers`, changes only that key of the one headers object that the shallow copy at lib/method.js:46 shares |
| Invoker.XrfKey | lib/method.js:115 | the value of the `X-qlik-xrfkey` header, or the text `undefined` when it is not set |
| Invoker.PlaceholderAbsent | lib/method.js:96 | a text without `{` holds no placeholder, so `replace` leaves it as it is whatever the value |
| Invoker.Substituted | lib/method.js:93-98 | each template parameter in turn replaces the first `{key}` of the result of the previous ones; without parameters, or for a template without `{`, the template itself |
| Invoker.SubstitutedFirst | lib/method.js:95-97 | the first template parameter is applied to the template and the later ones see its result |
| Invoker.ReplacePlaceholder | lib/method.js:96 | a placeholder that follows text without `{` is the one a `$`-free value replaces |
| Invoker.OneParameter | lib/method.js:92-104 | one parameter fills the only placeholder, and the path is returned without error |
| Invoker.DollarValueKeepsPlaceholder | lib/method.js:96-102 | values reach `replace` as they are: the value `$&` puts `{key}` back, so the call throws although the parameter was given |
| Invoker.NoPlaceholderLeft | lib/method.js:99-102 | a path without `{` never throws the missing-parameter error |
| Invoker.PlaceholderLeft | lib/method.js:99-102 | an unfilled placeholder whose key is on one line always throws the missing-parameter error |
| Invoker.TemplatePath | lib/method.js:99-103 | a result path never matches `/{.*}/`; a failure is the missing-parameter error naming the substituted path, with message `Template parameter is missing: <path>`; a template without `{` is returned as it is |
| Invoker.AddTemplateParameters | lib/method.js:92-104 | the loop applies every parameter in order; the call throws `Template parameter is missing: <path>` exactly when `/{.*}/` matches the substituted path, and otherwise returns that path |
| Invoker.Pairs | lib/method.js:118-120 | one `key=value` text per query parameter, in order |
| Invoker.QueryString | lib/method.js:114-122 | the request path starts with the path and `?xrfkey=<key>`, and then has exactly the query-parameter text |
| Invoker.AddQueryParameters | lib/method.js:114-123 | the loop builds the stored path, then `?xrfkey=` with the header's value (or `undefined`), then `&key=value` for each parameter in order; the path and key part is a prefix of the result |
| Invoker.QueryTailIsJoin | lib/method.js:115-120 | the key and the parameters, joined by `&`, are the text after `?xrfkey=` |
| Invoker.QueryTailSplits | lib/method.js:115-120 | when no key or value contains `&`, splitting that text at `&` recovers the key and each parameter |
| Invoker.Prepare | lib/method.js:44-49 | a call throws exactly when a placeholder is left; otherwise the request keeps the connection and verb, has the substituted path with its query string, and writes `stringify(body)` once when a body is given and nothing otherwise |
| Invoker.FirstObjectChunk | lib/method.js:55-60 | reports the first chunk that matches `/^{.*}$/`; none is reported exactly when no chunk matches |
| Invoker.FirstObjectChunkStep | lib/method.js:55-64 | a new chunk becomes the resolving one only when no earlier chunk resolved the call |
| Invoker.ResolvedByStep | lib/method.js:55-60 | after one more chunk, the call keeps any earlier resolution, and is resolved by the new chunk only if it looks like an object |
| Invoker.Classify | lib/method.js:52-69 | the raw concatenation exactly when no chunk matches `/^{.*}$/`; otherwise the decoding of the first chunk that does, or `DecodeFailed` for it when decoding fails |
| Invoker.Receive | lib/method.js:52-69 | the loop over the chunks returns what `Classify` states: the outcome of the first chunk that matches `/^{.*}$/` if there is one, and otherwise all chunks concatenated, as the `end` handler does |
| Invoker.Method.constructor | lib/method.js:21-35 | stores the name, `params` (or `''` when it is falsy), `extended` (or `''` when undefined), and the options with the verb and the path |
| Invoker.Method.Invoke | lib/method.js:43-49 | the shortcut works on a copy of the options; its result is `Prepare` of the stored options, which it leaves unchanged |
| Repository.AllowedMethodsTextIsJoin | lib/qrs.js:80-81 | the text `indexOf` searches for is the allowed-verb array joined with commas |
| Repository.VerbRejected | lib/qrs.js:81-83 | the guard fires when `indexOf` of the joined allowed-verb text in the verb is 0 |
| Repository.VerbRejectedIffPrefix | lib/qrs.js:80-83 | the guard rejects a verb exactly when it begins with `GET,POST,PUT,DELETE` |
| Repository.VerbGuardExamples | lib/qrs.js:80-83 | the four verbs, `A`, the empty verb and every verb shorter than 19 characters pass the guard; texts led by the joined list do not |
| Repository.FormatPrefix | lib/qrs.js:52-64 | empty for an absent or empty prefix; otherwise one leading `/` is ensured and one trailing `/` is dropped, and the length changes accordingly |
| Repository.FormatPrefixIdempotentIff | lib/qrs.js:52-64 | formatting a formatted prefix changes it again exactly when the prefix ends in `//` |
| Repository.FormatPrefixExamples | lib/qrs.js:52-64 | an absent prefix and `''`, `'/'`, `'a/'`, `'sense'`, `'/sense/'` and `'//'` format to `''`, `''`, `''`, `'/a'`, `'/sense'`, `'/sense'` and `'/'` |
| Repository.EmptyTable | lib/qrs.js:27-28 | a new registry has no methods and no shortcuts, and is valid |
| Repository.Show | lib/qrs.js:106-117 | the record of a registered name, and `None` (the empty string) for any other name |
| Repository.Register | lib/qrs.js:79-96 | the verb guard, then the path check, then the duplicate check, each with its error; it succeeds exactly when all three pass |
| Repository.RegisterAddsExactly | lib/qrs.js:93-94 | a registration adds exactly `name`, with its record, to both tables; every other name is unchanged; validity is kept |
| Repository.RegisterKeepsValid | lib/qrs.js:93-94 | a successful registration keeps the table valid |
| Repository.InfosOf | lib/qrs.js:125-131 | one record per listed name, in order |
| Repository.InfosOfExtend | lib/qrs.js:127-129 | listing one more name appends its record, when the earlier records did not change |
| Repository.ShowAll | lib/qrs.js:125-131 | one record per registered name, in registration order, each the one `showMethodInfo` reports |
| Repository.ShowAllAfterRegister | lib/qrs.js:93 | a registration appends its record to the full listing |
| Repository.RemoveName | lib/qrs.js:169 | the order without the name; other names are kept and stay distinct |
| Repository.Delete | lib/qrs.js:167-174 | reports whether the name was registered; afterwards it is gone from both tables; every other name is unchanged; an unknown name changes nothing; validity is kept |
| Repository.RemoveKeepsValid | lib/qrs.js:169-170 | removing a name from both tables keeps the table valid |
| Repository.RegisterDeleteRoundTrip | lib/qrs.js:79-96 | deleting what was just registered gives the table back, and a second delete returns false |
| Repository.DeleteAppended | lib/qrs.js:167-174 | deleting the name added last to both tables restores the earlier table |
| Repository.RemoveMiddle | lib/qrs.js:169 | removing a name that occurs once keeps every other name, in its order |
| Repository.InfosOfWithout | lib/qrs.js:127-129 | when every name but the removed one keeps its record, the listing of the remaining names is the old listing with that one record cut out |
| Repository.DeleteKeepsListOrder | lib/qrs.js:125-131 | after deleting a registered name, the listing is the old listing with exactly that name's record removed: the other methods stay in registration order |
| Repository.StoreThenRemove | lib/qrs.js:169-170 | removing a key just stored under a fresh name gives the map back |
| Repository.RemoveLast | lib/qrs.js:169 | removing the name that was appended last restores the order |
| Repository.SetEntry | lib/qrs.js:154-157 | `methods[name]` reports the new object; every other name is unchanged; `exec` is untouched; validity is kept |
| Repository.StoreKeepsValid | lib/qrs.js:155 | storing a record under its own name keeps the table valid |
| Repository.SetEntryOrder | lib/qrs.js:155 | replacing a registered name keeps its place in the listing; a new name is listed last |
| Repository.PathPart | lib/qrs.js:201 | the text before the first `?`: a `?`-free prefix of the path that is the whole path or is followed by `?` |
| Repository.ParamsPart | lib/qrs.js:210 | undefined exactly when there is no `?`; otherwise the `?`-free text right after the first `?`, which ends at the end of the path or at the next `?` |
| Repository.MethodName | lib/qrs.js:199-209 | the lower-cased verb followed, for every `/`-segment of the path before `?` other than `''` and `qrs`, by that segment with its first `{` and first `}` removed and its first letter upper-cased |
| Repository.SplitLeadingSlash | lib/qrs.js:201 | a path starting with `/` splits into an empty segment and then the rest |
| Repository.SplitLeadingQrs | lib/qrs.js:201 | a path starting with `/qrs/` splits into `''`, `qrs` and then the rest |
| Repository.QrsSegmentIgnored | lib/qrs.js:203 | a leading `/qrs` does not enter the name |
| Repository.MethodNameIgnoresQuery | lib/qrs.js:201 | the query part of a path does not enter the name |
| Repository.PlainSegmentText | lib/qrs.js:203-207 | a kept segment without braces is only capitalised |
| Repository.BracedSegmentText | lib/qrs.js:204-207 | `{id}` loses its braces and becomes `Id` |
| Repository.LeadingEmptySegment | lib/qrs.js:203 | an empty segment adds nothing |
| Repository.QrsMethodName | lib/qrs.js:199-209 | the name of a `/qrs/` path is the lower-cased verb followed by what each later segment adds |
| Repository.OneSegmentMethodName | lib/qrs.js:199-209 | a one-segment `/qrs/` path gives the lower-cased verb and the capitalised segment |
| Repository.ThreeSegmentMethodName | lib/qrs.js:199-209 | a three-segment `/qrs/` path gives the lower-cased verb and the text of each segment |
| Repository.PostUserName | lib/qrs.js:199-209 | `POST /qrs/user` is named `postUser` |
| Repository.GetAboutName | lib/qrs.js:199-209 | `GET /qrs/about` is named `getAbout` |
| Repository.GetAppIdExportName | lib/qrs.js:199-209 | `GET /qrs/app/{id}/export` is named `getAppIdExport` |
| Repository.AppSegmentText | lib/qrs.js:207 | `app` adds `App` |
| Repository.ExportSegmentText | lib/qrs.js:207 | `export` adds `Export` |
| Repository.NoBraces | lib/qrs.js:205 | removing braces from a segment without braces changes nothing |
| Repository.PathSegments | lib/qrs.js:201 | a path built from slash-free segments splits back into them |
| Repository.JoinHasNo | lib/qrs.js:201 | a join contains no character that is absent from every piece and differs from the separator |
| Repository.RegisterEntry | lib/qrs.js:199-210 | registering one entry succeeds exactly when the verb passes the guard and its derived name is unused, and then stores the entry's record under that name; it never fails for a missing path |
| Repository.EntryInfo | lib/qrs.js:199-210 | the record of an entry is under its derived name with its verb; its path is the text before the first `?` (the whole path, and no parameters, when there is no `?`); its parameters are the `?`-free text between the first `?` and the end or the next `?`; its `extended` is the entry's, or `''` when absent |
| Repository.Import | lib/qrs.js:194-213 | the entries are registered in order; the first error ends the import; validity is kept; the path error never occurs |
| Repository.ImportAppend | lib/qrs.js:197-211 | importing two lists in turn is importing their concatenation, when the first import succeeds |
| Repository.ImportStopsAtFailure | lib/qrs.js:197-211 | a failed import fails at one entry: all earlier entries are registered and kept, and the import reports that entry's error |
| Repository.FailedAtShift | lib/qrs.js:197-211 | a failure at entry `k` after the first entry is a failure at entry `k + 1` of the whole list |
| Repository.FailedAtTransfer | lib/qrs.js:197-211 | imports that agree on the list and the prefix fail at corresponding entries |
| Repository.RegisterEntryAppends | lib/qrs.js:210 | registering one entry appends its record to the listing |
| Repository.ImportListsInOrder | lib/qrs.js:194-213 | a successful import lists the new methods after the old ones, one per entry, in entry order |
| Repository.ImportCollision | lib/qrs.js:90-92 | when two entries derive the same name, the first is registered and the second ends the import with the duplicate-name error |
| Qrs.InitialHeaders | lib/qrs.js:21 | the key header holds the raw `xrfkey` option; without the option the map has no entry for it, which stands for the property holding `undefined`; the content type is set; the user header interpolates directory and id, absent ones as `undefined` |
| Qrs.OrDefault | lib/qrs.js:15-20 | the logical-or default on strings: the given value when it is present and non-empty, and otherwise the fallback |
| Qrs.Infos | lib/qrs.js:106-115 | one record per stored object, as `showMethodInfo` builds it |
| Qrs.InfosStore | lib/qrs.js:93 | storing an object stores its record |
| Qrs.InfosRemove | lib/qrs.js:169 | removing an object removes its record |
| Qrs.WellFormedIsValid | lib/qrs.js:27-28 | the object tables are well formed exactly when their records form a valid table |
| Qrs.WellFormedStore | lib/qrs.js:93-94 | registering an unused name keeps the object tables well formed |
| Qrs.WellFormedSet | lib/qrs.js:155 | `setMethod` keeps the object tables well formed |
| Qrs.WellFormedRemove | lib/qrs.js:168-171 | deleting a registered name keeps the object tables well formed |
| Qrs.StoreIsRegister | lib/qrs.js:93-94 | storing a new object under an unused name is the table function's successful registration |
| Qrs.StoreIsSetEntry | lib/qrs.js:155 | storing an object in `methods` alone is the table function of `setMethod` |
| Qrs.RemoveIsDelete | lib/qrs.js:169-170 | removing a name from both object tables is the table function of `deleteMethod` |
| Qrs.QlikSenseRepository.constructor | lib/qrs.js:14-29 | each option falls back to its default when absent or empty; the prefix is formatted; there is one fresh headers object; the tables start empty |
| Qrs.QlikSenseRepository.RegisterMethod | lib/qrs.js:79-96 | succeeds or fails exactly as `Register`, with the same error; on failure nothing changes; on success the new object shares the registry's connection and is stored under `name` in both tables |
| Qrs.QlikSenseRepository.ShowMethodInfo | lib/qrs.js:106-117 | the record of a registered name, and nothing for any other name, as `Show` of the registry's table |
| Qrs.QlikSenseRepository.ShowAllMethodsInfo | lib/qrs.js:125-131 | the loop returns `ShowAll` of the registry's table |
| Qrs.QlikSenseRepository.GetMethod | lib/qrs.js:141-143 | the stored object exactly when the name is registered |
| Qrs.QlikSenseRepository.SetMethod | lib/qrs.js:154-157 | returns the given object; `methods` changes at `name` only; `exec` is unchanged; the table is `SetEntry` of the old one |
| Qrs.QlikSenseRepository.DeleteMethod | lib/qrs.js:167-174 | the new table and the result are `Delete` of the old table; both maps lose `name` exactly when it was registered |
| Qrs.QlikSenseRepository.DeriveName | lib/qrs.js:199-209 | the loop over the segments builds `MethodName` |
| Qrs.QlikSenseRepository.ImportMethods | lib/qrs.js:194-213 | the new table and the outcome are `Import` of the old table; validity is kept; every object registered before stays under its name in both tables; every new name holds one fresh method in both tables, sharing the registry's connection and so its headers |
| Scenarios.RegisterShowDelete | test/qrs-unit-test.js:74-102 | a registered name reports its record until deleted; the delete returns true and a second one returns false |
| Scenarios.DuplicateName | test/qrs-unit-test.js:112-121 | the second registration of a name fails with `Methods already exists: <name>`, and the first one stays |
| Scenarios.UnlistedVerb | test/qrs-unit-test.js:123-131 | the verb `A` is registered |
| Scenarios.MissingPath | test/qrs-unit-test.js:133-141 | without a path the registration fails with `Path is not specified`, and nothing is listed |
| Scenarios.SharedHeaders | test/qrs-unit-test.js:261-263 | a header set through one method's options is seen by the registry and by an earlier method |
| Scenarios.ImportedSharedHeaders | test/qrs-unit-test.js:251-263 | a header set through an imported method's options, stored back with `setMethod`, is seen by the registry and by the imported shortcut |
| Scenarios.StaleShortcut | lib/qrs.js:154-157 | after `setMethod`, `showMethodInfo` reports the new path and the shortcut keeps the old one |
| Scenarios.RepeatedInvoke | test/qrs-unit-test.js:227-243 | two calls each substitute their own value into the stored template, which stays as it was |
| Scenarios.MissingTemplateParameter | test/qrs-unit-test.js:273-286 | a call without the template parameter fails with `Template parameter is missing: <path>` |
| Scenarios.MissingKey | lib/qrs.js:16-21 | without the `xrfkey` option the query string is `?xrfkey=undefined` |
| Scenarios.ImportAbout | test/qrs-unit-test.js:168-176 | importing the `GET /qrs/about` entry lists `getAbout` with verb `GET` first |
| Scenarios.AboutImports | test/qrs-unit-test.js:168-176 | that entry imports into an empty registry under the name `getAbout` |

## Left out

- The transport is not modelled: `http`/`https.request`, sockets, the
  `error` event and its rejection. A call stops at the `Request` it would
  send, and `Receive` takes the response chunks as a sequence in arrival
  order.
- Promises are not modelled. `Receive` returns the one value the promise
  settles with.
- The file system is not modelled. The constructor's `fs.readFileSync` of
  `cert`, `key` and `ca`, and the `isSecure` option, are left out.
  `importMethods` takes the parsed schema entries instead of a file path.
- `JSON.parse` and `JSON.stringify` are parameters. `decode` returns `None`
  where `JSON.parse` would throw.
- Receive and Classify: a `JSON.parse` that throws is modelled as the call
  ending with `DecodeFailed`. In the code the throw happens inside the `data`
  listener, outside the promise's executor. It is an uncaught exception that
  neither settles nor rejects the promise. It is also thrown for an
  object-like chunk that arrives after the call has already resolved. If the
  process survives it, a later object-like chunk settles the promise, or
  `end` does with a buffer that lacks the failed chunk. The model instead
  stops at the first object-like chunk and never decodes later ones.
- `initialize`, `getOptions` and `incrementTimeByMilliseconds` are not
  modelled. The first only calls `importMethods` with a file path. The second
  returns the options object. The third is date arithmetic outside the
  registry.
- The integration test is not modelled.
- `ShowAllMethodsInfo` lists names in insertion order. JavaScript's `for..in`
  lists integer-like keys first. Names inherited from `Object.prototype`
  (which `name in this.methods` would also see) are not modelled either.
- Strings are sequences of characters. UTF-16 code units, Unicode case
  mapping and `Buffer` bytes are not modelled: case conversion is ASCII-only,
  and the chunks are strings.
- `params` and `extended` are strings or absent. Values of other types are
  not modelled, nor is `extended === null`, which the code would store.
- `setMethod` with `undefined` or a non-`Method` value is not modelled.
- `Method` fields are constants, because neither the registry nor the
  invoker reassigns them. A client that reassigns `name`, `params` or
  `extended` on a stored method is not modelled.
- The simple `options` fields (the verb and the path) are values. Only the
  headers object is shared by reference, so the Method constructor's writes
  into the copied options are modelled as building new options.
- The formatted `prefix` is stored, but the code never uses it in a path, and
  neither does the model.
- Query-parameter and template-parameter objects are sequences of pairs in
  key order. A call without an `args` object is not modelled.
- Parameter values are strings. The code converts any value to a string when
  it builds the query string, so the value `true` gives the text `true`.
  `replace` also calls a function-valued template parameter to get the
  replacement. Neither conversion is modelled.
- `templateParams: null` and `queryParams: null` are not modelled. The code
  throws a `TypeError` at `Object.keys` for them.
- `options.path` and `options.method` of a stored method are constant
  values. A client that assigns them on a stored method is not modelled.
- The verb and the entry path are strings. The code throws a `TypeError` at
  `method.indexOf` for `registerMethod` without a verb (lib/qrs.js:81), and
  at `entry.path.split` for an entry without a `path` (lib/qrs.js:201). So
  `RegisterEntry` never fails for a missing path, but the code throws then.
- Without the `xrfkey` option the headers object has the key
  `X-qlik-xrfkey` holding `undefined`. The model keeps no entry for the key,
  and `XrfKey` reads the missing entry as `undefined`, as the template
  literal prints it. What the transport does with an `undefined` header
  value is outside this model.
