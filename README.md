# search-source client coordinator in Dafny

This project models `SearchSource`, the client half of the Meteor
search-source package (`lib/client.js`). A search source sends a query to a
named server endpoint and keeps the answers in a local mirror collection. It
can reuse earlier answers from a history for a limited time, and it builds
the selector and per-field transform that a UI uses to read and highlight
the mirror.

The model follows the source's own form:

- `Client.SearchSource` (client.dfy) is a class whose fields stand for the
  instance fields of the JavaScript object: current query, status,
  metadata, history, mirror, both version counters, and counters for the
  two `Tracker.Dependency` notifications. One field, `issued`, is not an
  instance field: it maps each version a fetch was started with to its
  history key, which is what each `handleData` closure captures
  (`version` and `historyKey`, lib/client.js:20-21 and 28). Its methods update those fields
  step by step, as `_loadData`, `handleData`, `_updateStore`, `search` and
  `cleanHistory` do. Each method is proved to leave the object in the
  state that a function of `Coordinator` (coordinator.dfy) computes from
  the old state.
- `Coordinator` states the request protocol as a state machine over
  values. A history miss issues the next version. Each fetch completes
  later through `Complete`, in any order, any number of times. The lemmas
  cover the version gate, the status gate, the history TTL, and an
  invariant that holds along every interleaving (`RunKeepsValid`).
- `Mirror` (mirror.dfy) states what `_updateStore` does to the mirror.
  `Client.SearchSource.UpdateStore` performs it with the source's three
  loops.
- `RegExpText` (regexp_text.dfy) builds the pattern text of
  `_getRegExpFilterRegExp` and `_buildRegExp`. JavaScript's regular
  expression engine is not modelled. Instead, `ParseAlternation` reads a
  pattern back into the literal alternatives it stands for, and the
  lemmas are stated against that reading.
- `Documents` (documents.dfy) models document values, ids, and the
  dotted-path `pick` (a loop, `Documents.Pick`) and `put` of `getData`.
- `View` (view.dfy) models the selector `getData` builds and the
  `transform` it hands to the collection.
- `Values` and `Text` hold JavaScript values, truthiness, `trim`, `split`
  and `join`. `Wrappers` holds `Option`.

Behaviour of `lib/client.js` that the model keeps as written:

- **History.** An entry is overwritten wholesale by every successful
  response for its key (`lib/client.js:49-51`).
- **Errors without a payload.** The falsy-payload check comes before the
  error check (`lib/client.js:33-38`). So an error reported without a
  payload is dropped, and the status stays as it was.
- **Metadata.** An envelope sets the metadata to `payload.metadata || {}`,
  and a bare array leaves it alone. A history hit sets it to the entry's
  metadata as recorded, so an envelope that had none gives `undefined`.
- **Splitting the query.** The query is split on single spaces
  (`lib/client.js:241`). Two adjacent spaces therefore give an empty term.
- **Mirror keys.** The mirror is keyed by each document's own `_id`, as
  the Mongo collection is. Canonical ids (`_id._str`, else `_id`) are
  used only to decide which resident documents to remove. So a resident
  document whose canonical id matches an incoming document with a
  different `_id` stays (`Mirror.ReconcileMirrors` states this).
- **A history hit supersedes nothing.** A hit reloads the mirror but
  bumps neither version counter. A fetch still in flight therefore
  replaces the mirror later (`Coordinator.HitThenPendingResponse`).

## Model

| member | source | states |
|---|---|---|
| Values.OrElse | lib/client.js:46 | `payload.metadata or {}` yields one of its two operands; the result is truthy exactly when either operand is, so with the truthy default `{}` the metadata is never falsy; a truthy first operand is kept as it is |
| Text.TrimStart | lib/client.js:241 | the leading part of `trim()`: the result is no longer than the input, does not start with whitespace, and everything dropped is whitespace |
| Text.TrimStartSuffix | lib/client.js:241 | what the leading trim keeps is exactly a tail of the input |
| Text.TrimEnd | lib/client.js:241 | the trailing part of `trim()`: the result does not end with whitespace, and everything dropped is whitespace |
| Text.TrimEndPrefix | lib/client.js:241 | what the trailing trim keeps is exactly a head of the input |
| Text.Split | lib/client.js:241 | `split(' ')` always yields at least one part, and no part contains the separator |
| Text.Trim | lib/client.js:241 | `trim()` never lengthens the string, and what it keeps neither starts nor ends with whitespace |
| Text.TrimSlice | lib/client.js:241 | `trim()` keeps exactly the middle of the string: a slice preceded and followed only by whitespace, which with `Text.Trim`'s contract fixes the result |
| Text.Join | lib/client.js:243 | `parts.join` with the vertical bar; `Text.JoinSplit` and `Text.SplitJoin` state that it undoes and is undone by `split` |
| Text.JoinSplit | lib/client.js:241 | splitting loses nothing: joining the parts with the separator gives back the string |
| Text.SplitJoin | lib/client.js:241-243 | splitting a join of separator-free parts gives back the parts |
| RegExpText.EscapeChar | lib/client.js:240 | the replacement `"\\$&"` for one character: a backslash before a listed metacharacter; `RegExpText.EscapeChangesOnlyMeta` states its effect on a string |
| RegExpText.Escape | lib/client.js:240 | `replace(filter, "\\$&")` never shortens the query |
| RegExpText.EscapeChangesOnlyMeta | lib/client.js:240 | escaping leaves a string unchanged if and only if it contains none of the listed metacharacters |
| RegExpText.Backslashed | lib/client.js:252-254 | the `_.map` that puts a backslash before each listed character; `RegExpText.BackslashedIsEscaped` relates it to escaping |
| RegExpText.BackslashedIsEscaped | lib/client.js:252-254 | backslashing each listed character is the same as escaping it as a one-character string |
| RegExpText.FilterPattern | lib/client.js:246-256 | the text of `_getRegExpFilterRegExp()`; `RegExpText.FilterPatternAlternatives` states what it matches |
| RegExpText.FilterPatternAlternatives | lib/client.js:246-256 | the filter expression is the alternation of exactly the 18 listed characters, in order, each taken literally |
| RegExpText.TrimEscape | lib/client.js:240-241 | trimming after escaping equals escaping after trimming (whitespace is never a metacharacter) |
| RegExpText.SplitEscape | lib/client.js:240-241 | splitting on a space after escaping equals escaping each part of the split |
| RegExpText.ReadJoined | lib/client.js:240-243 | joining escaped terms with a vertical bar and reading the alternation back gives exactly those terms |
| RegExpText.QueryText | lib/client.js:238 | `query or ""`, the text a missing query is escaped as; `RegExpText.PatternAlternatives` is stated over it |
| RegExpText.BuildPattern | lib/client.js:237-244 | the text of `_buildRegExp(query)`; `RegExpText.PatternAlternatives` states what it matches |
| RegExpText.NonLiteralRejected | lib/client.js:240-244 | the reading of a pattern is strict: an unescaped metacharacter other than the vertical bar and the backslash, or a backslash before an ordinary character, makes it fail, so a pattern that reads back is made only of literal characters and escaped metacharacters |
| RegExpText.PatternAlternatives | lib/client.js:237-244 | `_buildRegExp(query)` reads back, under that strict reading, as exactly the trimmed query's space-separated terms: every metacharacter a term contains is escaped, so each term is matched literally |
| RegExpText.EmptyQueryPattern | lib/client.js:237-244 | an absent query or one that is all whitespace yields `"()"`, the alternation of the single empty term |
| Documents.PickPath | lib/client.js:134-141 | `pick` on a split path; `Documents.Pick` computes it with the source's loop, and `Documents.PickAfterPut` relates it to `put` |
| Documents.Put | lib/client.js:143-147 | `put` on a split path; `Documents.PickAfterPut`, `Documents.PutFrame` and `Documents.PutFrameDeep` state its effect |
| Documents.CanonicalId | lib/client.js:88-97 | `id._str ? id._str : id`, the string ids are compared by when stale documents are removed; `Mirror.ReconcileMirrors` and `Mirror.ReconcileExactIds` are stated over it |
| Documents.Index | lib/client.js:138-139 | a path step throws exactly on `undefined` and `null` |
| Documents.SetProperty | lib/client.js:146 | an assignment throws exactly on `undefined` and `null` |
| Documents.Assign | lib/client.js:144-147 | putting into an object yields an object |
| Documents.Pick | lib/client.js:134-141 | the `while (i = field.shift())` loop walks the dotted path up to its first empty segment, and throws where a step does |
| Documents.PickAfterAssign | lib/client.js:144-147 | for a path without empty segments: when the parent reached by a put is an object, the put succeeds and picking the same path reads back the value put |
| Documents.PickAfterPut | lib/client.js:144-147 | the same for `put(doc, field, value)` on a split path without empty segments |
| Documents.AssignAfterTruthyPick | lib/client.js:149-154 | after `pick` found a truthy value at a path, `put` on that path cannot throw |
| Documents.PutAfterTruthyPick | lib/client.js:149-154 | the same for the split field path that `transform` uses |
| Documents.PutFrame | lib/client.js:144-147 | for a path whose first segment is non-empty, a put into an object changes only the top-level field its path starts with |
| Documents.AssignFrame | lib/client.js:146 | for a path without empty segments, `pick(doc, init)[key] = value` leaves every property beside the path as it was, at every level of the path: a sibling with a non-empty name of the segment written at that level reads the same before and after |
| Documents.PutFrameDeep | lib/client.js:143-147 | the same frame for `put(doc, field, value)` on a split path without empty segments, for siblings with non-empty names |
| Mirror.CanonicalIds | lib/client.js:86-92 | the keys of `currentIdMappings`: the canonical ids of the incoming documents; `Mirror.ReconcileMirrors` states that the mirror ends with exactly these canonical ids |
| Mirror.Upsert | lib/client.js:81-84 | the upsert loop of `_updateStore`; `Mirror.UpsertContents` states its effect |
| Mirror.Reconcile | lib/client.js:77-101 | the mirror after `_updateStore(data)`; `Mirror.ReconcileMirrors` states its effect |
| Mirror.UpsertContents | lib/client.js:81-84 | after the upserts, the keys are the old keys plus the incoming ids, each incoming id holds the last incoming document with that id, and other documents are unchanged |
| Mirror.ReconcileMirrors | lib/client.js:77-101 | after `_updateStore(data)`: the mirror's canonical ids are exactly those of `data`; every incoming id is present with its last incoming document; any other document is an unchanged old resident whose canonical id is incoming; and every old resident whose canonical id is incoming stays |
| Mirror.ReconcileExactIds | lib/client.js:86-100 | when no resident id collides with a different incoming id of the same canonical id, the mirror's ids are exactly the incoming ids |
| Mirror.ReconcileIdempotent | lib/client.js:77-101 | applying the same answer twice changes nothing more |
| Coordinator.Init | lib/client.js:1-16 | the fields of a new source; `Coordinator.InitValid` states its invariant |
| Coordinator.HistoryKey | lib/client.js:21 | the history key starts with the query (`"null"` for a null query) and ends with the serialised options |
| Coordinator.CanUseHistory | lib/client.js:67-75 | `_canUseHistory(key)`; `Coordinator.CompleteRecordsHistory` and `Coordinator.CleanHistoryForgets` state when it holds |
| Coordinator.Load | lib/client.js:18-30 | `_loadData`; `Coordinator.LoadOnHit`, `Coordinator.LoadOnMiss` and `Coordinator.LoadKeepsValid` state its effect |
| Coordinator.Complete | lib/client.js:32-64 | `handleData`; the `Coordinator.Complete*` lemmas state its effect |
| Coordinator.PayloadData | lib/client.js:40-45 | the documents of a payload: the array itself, or the envelope's `data`; `Coordinator.CompleteVersionGate` and `Coordinator.CompleteRecordsHistory` use it |
| Coordinator.PayloadMetadata | lib/client.js:40-45 | the metadata a payload is recorded with in the history: `{}` for an array, the envelope's `metadata` as given otherwise; `Coordinator.CompleteRecordsHistory` uses it |
| Coordinator.Accept | lib/client.js:39-63 | the successful branch of `handleData`; `Coordinator.CompleteVersionGate`, `Coordinator.CompleteStatusGate` and `Coordinator.CompleteRecordsHistory` state its effect |
| Coordinator.Search | lib/client.js:103-112 | `search`; `Coordinator.SearchKeepsValid` states its whole effect |
| Coordinator.CleanHistory | lib/client.js:233-235 | `cleanHistory`; `Coordinator.CleanHistoryForgets` states its effect |
| Coordinator.InitValid | lib/client.js:1-16 | a new source is loaded, with both versions 0 and nothing issued, and satisfies the version invariant |
| Coordinator.LoadOnHit | lib/client.js:22-25 | a usable history entry reloads mirror and metadata from the entry and notifies; versions, status and history stay |
| Coordinator.LoadOnMiss | lib/client.js:26-29 | a miss sets the status to loading and issues version `currentVersion + 1` for the key; mirror, history and loaded version stay |
| Coordinator.LoadKeepsValid | lib/client.js:18-30 | `_loadData` keeps the version invariant |
| Coordinator.CompleteIgnoresFalsyPayload | lib/client.js:33-35 | a callback with a falsy payload changes nothing and throws nothing, even when it carries an error |
| Coordinator.CompleteFails | lib/client.js:36-38 | an error with a payload sets the status to that error and throws it, before anything else changes |
| Coordinator.CompleteVersionGate | lib/client.js:53-56 | a response replaces the mirror and becomes the loaded version exactly when it is newer than the loaded version; otherwise mirror and loaded version stay |
| Coordinator.CompleteStatusGate | lib/client.js:58-60 | the status becomes loaded exactly when the response is for the current version; otherwise it stays |
| Coordinator.CompleteRecordsHistory | lib/client.js:40-51 | with history on, every successful response overwrites its key's entry, which is then reusable exactly while less than `keepHistory` ms have passed since it arrived; with history off, the history is untouched; the metadata is set from an envelope only |
| Coordinator.CompleteKeepsValid | lib/client.js:32-64 | a completion keeps the version invariant and never lowers the loaded version |
| Coordinator.CleanHistoryForgets | lib/client.js:233-235 | after `cleanHistory()` no key is reusable at any time |
| Coordinator.SearchKeepsValid | lib/client.js:103-112 | `search` records the query, notifies its observers once, and loads under `HistoryKey(query, options)`: a usable entry reloads mirror and metadata with one mirror notification and no new version; otherwise the status becomes loading and version `currentVersion + 1` is issued for that key with mirror and metadata untouched; local search adds one more mirror notification; history and loaded version stay, and the version invariant is kept |
| Coordinator.RunKeepsValid | lib/client.js:18-112 | along any sequence of searches, completions in any order, and history wipes, the loaded version never decreases and never passes the current one |
| Coordinator.OutOfOrderResponses | lib/client.js:26-60 | when two fetches complete newest first, the mirror shows only the newer answer and the status is loaded; the older answer still lands in the history under its own key |
| Coordinator.HitThenPendingResponse | lib/client.js:22-56 | after a history hit, a fetch still pending that is newer than the loaded version replaces the mirror the hit showed |
| Client.SearchSource.constructor | lib/client.js:1-16 | the fields start as `Coordinator.Init` and satisfy the invariant |
| Client.SearchSource.UpdateStore | lib/client.js:77-101 | the three loops leave the mirror equal to `Mirror.Reconcile` of the old mirror and the data |
| Client.SearchSource.LoadData | lib/client.js:18-30 | the fields and the returned version are those of `Coordinator.Load`, and the invariant is kept |
| Client.SearchSource.HandleData | lib/client.js:32-64 | the fields and the thrown error are those of `Coordinator.Complete`, and the invariant is kept |
| Client.SearchSource.Accept | lib/client.js:39-63 | the successful branch updates the fields as `Coordinator.Accept` does |
| Client.SearchSource.Search | lib/client.js:103-112 | the fields and the returned version are those of `Coordinator.Search`, and the invariant is kept |
| Client.SearchSource.CleanHistory | lib/client.js:233-235 | the fields become those of `Coordinator.CleanHistory`, and the invariant is kept |
| Client.SearchSource.GetData | lib/client.js:114-175 | the selector and the transformed documents are built from one pattern, the one for the current query |
| View.Clauses | lib/client.js:124-128 | one clause per search field, in field order, each with the same pattern |
| View.SelectorFor | lib/client.js:118-132 | the selector of `getData`; `View.SelectorShape` states its shape |
| View.SelectorShape | lib/client.js:118-132 | the selector is an `$or` exactly while loading; it then has one clause per search field, in order, each of whose pattern reads back under the strict reading as exactly the query's terms |
| View.QueryTruthy | lib/client.js:153 | the `self.currentQuery` test: a query that is present and non-empty; `View.TransformFieldEffect` and `View.NoQueryNoFieldChange` are stated over it |
| View.TransformField | lib/client.js:149-154 | one step of the `forEach` over the search fields; `View.TransformFieldEffect` states its effect |
| View.TransformFields | lib/client.js:149-155 | the whole `forEach`; `View.FailureIsFinal` and `View.NoQueryNoFieldChange` state its effect |
| View.TransformDoc | lib/client.js:148-163 | `transform(doc)`; `View.Transform` computes it with the source's loop |
| View.TransformAll | lib/client.js:165-175 | a fetch that does not throw yields one document per matched document |
| View.TransformAllContents | lib/client.js:165-175 | a fetch succeeds exactly when every matched document's transform succeeds, and then holds each document's transform at that document's position |
| View.Transform | lib/client.js:148-163 | the `forEach` over the search fields computes `TransformDoc`: per-field transforms in field order, then `docTransform` |
| View.Fetch | lib/client.js:165-175 | transforming each matched document in order computes `TransformAll` |
| View.FailureIsFinal | lib/client.js:149-154 | once one field's `pick` or `put` throws, the whole transform throws |
| View.TransformFailureIsFinal | lib/client.js:165-175 | once one document's transform throws, the whole fetch throws |
| View.TruthyPickHasObjectParent | lib/client.js:149-154 | for a path without empty segments, a truthy value found at the path sits inside an object, so putting there reaches an object |
| View.TransformFieldEffect | lib/client.js:149-154 | for a field path without empty segments: the field is replaced exactly when the current query and the value are both truthy, and it then reads back as the transform's result while every property beside its path, at every depth, keeps its value; otherwise the document is unchanged. A path with an empty segment (`"a."`) is read only up to that segment but written below it, as the source does, so it is outside this lemma |
| View.NoQueryNoFieldChange | lib/client.js:149-154 | without a truthy current query, no field is transformed |

## Left out

- `_fetch`, `_fetchDDP`, `_fetchHttp` (lib/client.js:178-218): choosing a transport and talking to the server is I/O. A fetch is modelled as "issue version v", and its callback as a later call to `HandleData(v, err, payload)`.
- `ReactiveVar` and `Tracker.Dependency` (lib/client.js:7-13): reactivity is UI plumbing. The status and metadata are plain fields, and each `changed()` call is counted (`storeChanges`, `queryChanges`); `depend()` is left out.
- `getMetadata`, `getCurrentQuery`, `getStatus` (lib/client.js:220-231): they read a field, and the model reads the field directly.
- The Mongo collection's query semantics (lib/client.js:165-175): selector evaluation, `sort`, `limit` and the cursor belong to a foreign library. `GetData` takes the documents the collection yields as a parameter, `matched`, and models only the selector and the transform. The `getCursor` flag is left out.
- JavaScript's regular expressions: the `"g"` and `"ig"` flags and matching itself are not modelled. Patterns are text, read back by `ParseAlternation`.
- `EJSON.stringify(options)` (lib/client.js:21): the serialised options are a string parameter. A null query gives the key prefix `"null"`; an `undefined` query is not distinguished from null.
- `Date.now()` and `new Date()`: the time is an integer parameter, in milliseconds.
- `options.keepHistory` is an integer, with 0 meaning "off"; other falsy values and `NaN` are not modelled.
- Values: numbers are integers; `NaN`, floating point, arrays and functions inside documents are not modelled. Property reads and writes on booleans, numbers and strings are modelled as reading `undefined` and as ignored writes. Prototype properties are not modelled.
- An envelope whose `data` is not an array is not modelled; the payload is either a document sequence or an envelope of one.
- A document's `_id` is held apart from its other fields, so a `put` whose path starts with `_id` is not modelled.
- View.TransformField: a search field `"_id"` (or one starting with `_id.`) is read from the document's other fields, so it finds `undefined`; the source reads the id itself there and may transform it.
- Mirror.Reconcile: a canonical id that names a property every JavaScript object inherits (`constructor`, `toString`, `valueOf`, `hasOwnProperty`, `isPrototypeOf`, `propertyIsEnumerable`, `toLocaleString`, `__proto__`, `__defineGetter__`, `__defineSetter__`, `__lookupGetter__`, `__lookupSetter__`) is truthy in the source's `currentIdMappings = {}` even when no incoming document has it, so a resident document with such an id is never removed; the model has no prototype chain and removes it.
- Documents.AssignFrame: a path with an empty segment (a field such as `"a."` or `".b"`) is outside the put lemmas, because `pick` stops at the empty segment while `put` writes below it. Below the top level, a sibling named `""` is not framed either, because `PickPath` stops at an empty segment and so cannot name that sibling.
- `put` changes the document in place in the source; `Documents.Put` returns the updated value instead. Aliasing between documents and their sub-objects is not captured.
- The field transform and `docTransform` callbacks are pure functions; side effects in them are not modelled.
- A fetch callback invoked more than once is allowed: `HandleData` can be called for any version already issued.
- lib/server.js: the `Meteor.methods` endpoint that looks up a handler and calls it is framework plumbing around a foreign call.
- package.js: a build manifest with no logic.
